/**
 * The token-distribution arithmetic of the tokenomics page
 * (src/pages/Tokenomics.tsx): the six-row table, the bar widths computed
 * as value / total * 100 in two groups of three rows, the row keys, and the
 * tooltip guard.
 */
module Tokenomics {
  import opened Wrappers

  datatype Item = Item(name: string, value: nat, color: string)

  /** `tokenDistribution`, lines 9-16. */
  const Distribution: seq<Item> := [
    Item("Pre-Sale & Pool", 30, "#1e3a8a"),
    Item("Liquidity Pool", 25, "#06b6d4"),
    Item("Marketing", 10, "#10b981"),
    Item("Team & Advisors", 15, "#ef4444"),
    Item("Team & Advisors", 15, "#a855f7"),
    Item("Ecosystem Dev", 20, "#eab308")
  ]

  /** `reduce((sum, i) => sum + i.value, 0)`: a left fold from 0. */
  function Total(items: seq<Item>): nat
  {
    if items == [] then 0 else Total(items[..|items| - 1]) + items[|items| - 1].value
  }

  /** No single row exceeds the total. */
  lemma {:induction false} ValueAtMostTotal(items: seq<Item>, k: nat)
    requires k < |items|
    ensures items[k].value <= Total(items)
  {
    if k < |items| - 1 {
      ValueAtMostTotal(items[..|items| - 1], k);
    }
  }

  /** The total of a prefix is the total of the shorter prefix plus its last row. */
  lemma TotalPrefix(items: seq<Item>, m: nat)
    requires 0 < m <= |items|
    ensures Total(items[..m]) == Total(items[..m - 1]) + items[m - 1].value
  {
    assert items[..m][..m - 1] == items[..m - 1];
  }

  /** The six values add up to 115, not 100. */
  lemma TotalIs115()
    ensures Total(Distribution) == 115
  {
    var d := Distribution;
    assert d[..0] == [];
    TotalPrefix(d, 1);
    TotalPrefix(d, 2);
    TotalPrefix(d, 3);
    TotalPrefix(d, 4);
    TotalPrefix(d, 5);
    TotalPrefix(d, 6);
    assert d[..6] == d;
  }

  /** Line 124 and 207: a bar's width in percent of the track. */
  function Percentage(value: nat, total: nat): (w: real)
    requires total > 0
    ensures value <= total ==> 0.0 <= w <= 100.0
    ensures w * (total as real) == (value as real) * 100.0
  {
    (value as real) / (total as real) * 100.0
  }

  /** One rendered bar: its React key, the name and the raw-value label, and the width. */
  datatype Bar = Bar(key: nat, name: string, valueLabel: nat, width: real)

  /** `slice(from, to).map((item, index) => ...)` with keys `index + keyOffset`. */
  function Bars(items: seq<Item>, from: nat, to: nat, keyOffset: nat): (bars: seq<Bar>)
    requires from <= to <= |items| && Total(items) > 0
    ensures |bars| == to - from
    ensures forall k :: 0 <= k < |bars| ==>
      bars[k] == Bar(k + keyOffset, items[from + k].name, items[from + k].value,
                     Percentage(items[from + k].value, Total(items)))
  {
    seq(to - from, k requires 0 <= k < to - from =>
      Bar(k + keyOffset, items[from + k].name, items[from + k].value, Percentage(items[from + k].value, Total(items))))
  }

  /** The left group: the first three rows, keys 0..2. */
  function LeftGroup(): seq<Bar>
  {
    TotalIs115();
    Bars(Distribution, 0, 3, 0)
  }

  /** The right group: the last three rows, keys `index + 3`. */
  function RightGroup(): seq<Bar>
  {
    TotalIs115();
    Bars(Distribution, 3, 6, 3)
  }

  function SumWidths(bars: seq<Bar>): real
  {
    if bars == [] then 0.0 else SumWidths(bars[..|bars| - 1]) + bars[|bars| - 1].width
  }

  function SumLabels(bars: seq<Bar>): nat
  {
    if bars == [] then 0 else SumLabels(bars[..|bars| - 1]) + bars[|bars| - 1].valueLabel
  }

  /** The two groups together show every row once, in table order, each under
      the key equal to its own table index, and each bar is in [0, 100]. */
  lemma GroupsCoverTable()
    ensures |LeftGroup() + RightGroup()| == |Distribution|
    ensures forall k :: 0 <= k < |Distribution| ==>
      var b := (LeftGroup() + RightGroup())[k];
      b.key == k && b.name == Distribution[k].name && b.valueLabel == Distribution[k].value
    ensures forall b :: b in LeftGroup() + RightGroup() ==> 0.0 <= b.width <= 100.0
  {
    TotalIs115();
    var all := LeftGroup() + RightGroup();
    forall b | b in all ensures 0.0 <= b.width <= 100.0 {
      var k :| 0 <= k < |all| && all[k] == b;
      ValueAtMostTotal(Distribution, k);
    }
  }

  /** The keys of the two groups are pairwise distinct. */
  lemma KeysDistinct()
    ensures forall a, b :: 0 <= a < b < |LeftGroup() + RightGroup()| ==>
      (LeftGroup() + RightGroup())[a].key != (LeftGroup() + RightGroup())[b].key
  {
    GroupsCoverTable();
  }

  /** Widths of the table's bars over its first m rows add up to those rows'
      share of the total, in percent. */
  lemma {:induction false} SumWidthsShare(m: nat)
    requires m <= |Distribution|
    ensures SumWidths(Bars(Distribution, 0, m, 0)) == (Total(Distribution[..m]) as real) * 100.0 / 115.0
  {
    TotalIs115();
    if m > 0 {
      var bs := Bars(Distribution, 0, m, 0);
      assert bs[..m - 1] == Bars(Distribution, 0, m - 1, 0);
      SumWidthsShare(m - 1);
      assert Distribution[..m][..m - 1] == Distribution[..m - 1];
      assert SumWidths(bs) == SumWidths(bs[..m - 1]) + bs[m - 1].width;
    }
  }

  /** The labels of bars over a prefix of the table add up to that prefix's total. */
  lemma {:induction false} SumLabelsTotal(items: seq<Item>, m: nat)
    requires m <= |items| && Total(items) > 0
    ensures SumLabels(Bars(items, 0, m, 0)) == Total(items[..m])
  {
    if m > 0 {
      var bs := Bars(items, 0, m, 0);
      assert bs[..m - 1] == Bars(items, 0, m - 1, 0);
      SumLabelsTotal(items, m - 1);
      assert items[..m][..m - 1] == items[..m - 1];
    }
  }

  /** Over all six rows the bar widths fill exactly 100 percent, while the
      labels, which show the raw values with a % sign, add up to 115. */
  lemma WidthsAndLabels()
    ensures SumWidths(Bars(Distribution, 0, 6, 0)) == 100.0
    ensures SumLabels(Bars(Distribution, 0, 6, 0)) == 115
  {
    TotalIs115();
    assert Distribution[..6] == Distribution;
    SumWidthsShare(6);
    SumLabelsTotal(Distribution, 6);
  }

  /** The two groups render the same bars as one pass over the whole table. */
  lemma GroupsAreWholeTable()
    ensures LeftGroup() + RightGroup() == Bars(Distribution, 0, 6, 0)
  {
    TotalIs115();
  }

  /** One entry of the chart's tooltip payload. */
  datatype PayloadEntry = PayloadEntry(name: string, value: nat)

  /** CustomTooltip, lines 41-51: the name and value shown, or nothing. A
      missing payload is None; `payload.length` is falsy exactly when 0. */
  function Tooltip(active: bool, payload: Option<seq<PayloadEntry>>): (shown: Option<PayloadEntry>)
    ensures shown.Some? <==> active && payload.Some? && |payload.value| > 0
    ensures shown.Some? ==> shown.value == payload.value[0]
  {
    if active && payload.Some? && |payload.value| != 0 then Some(payload.value[0]) else None
  }
}
