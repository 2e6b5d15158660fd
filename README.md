# Verified model of the interactive parts of the BSA landing site

The site is a React marketing front end. Most of it is static markup. A few
components hold small pieces of stateful or arithmetic logic, and this
project models those in Dafny and proves what they do:

- **Point-network background** (`src/components/LinesAnimation.tsx`).
  - A 12 x 12 grid of jittered points.
  - Each point keeps a neighbour list of at most three other points. The list
    is built from a stable sort by squared distance, mirrored back to the
    neighbours, and repaired for isolated points.
  - A periodic refresh drops neighbours beyond the connection threshold on
    both sides, then greedily re-links to near points that still have room.
  - A piecewise-linear band maps the squared pointer distance to line and
    label opacity.
  - Sparks run along the lines. Each has a fixed speed and a progress that
    grows each frame, and a key that does not depend on direction. At most
    two sparks are spawned per key.
- **Launch countdown** (`src/components/CountdownTimer.tsx`).
  - The once-a-second tick, with borrow from seconds to minutes, hours and
    days, and its wrap at zero.
  - The progress ring, the dash/gap split of the decorative rings, and the
    `padStart(2, '0')` display.
- **Line walker** (`src/components/SparkleAnimation.tsx`).
  - Up to 20 `Line` objects walk a triangular lattice, turning 60 degrees per
    phase.
  - A line dies at random or when it leaves the box around the centre.
  - Each line keeps a two-second trail and a stroke that brightens near the
    pointer.
  - The scene adds lines, steps them, and re-centres them on resize.
- **Token distribution** (`src/pages/Tokenomics.tsx`): the six-row table, the
  bar widths in two groups of three, the row keys and the tooltip guard.
- **Roadmap step styling** (`src/pages/Roadmap.tsx`): side alternation, the
  opacity schedule, the badge number, the half-ring layout and the sidebar margin.
- **Slide show** (`src/components/SlideShow.tsx`): the modulo-4 slide counter
  and the visibility test.

## How the code is modelled

- **Numbers.** Coordinates, opacities and distances are exact `real`s. Counters
  are `int`s.
- **Inputs.** Randomness (`Math.random()`), clocks (`Date.now()`) and the
  results of trigonometry are parameters, with their ranges stated in the
  preconditions.
- **Identity.** A point is identified by its index in `points`, which is how
  the source tells points apart (object identity). Neighbour lists are
  `seq<nat>` of indices.
- **Mutable objects become classes.** These are:
  - `Spark` (`Sparks.Spark`);
  - the state the effect keeps between frames (`LinesAnimation.Network`);
  - the countdown's state cells (`CountdownTimer.Countdown`);
  - a walking line (`SparkleAnimation.Line`) and its scene
    (`SparkleScene.Scene`);
  - the slide index (`SlideShow.SlideState`).

  Their methods carry `modifies` frames and state their whole new state.
- **Loops become methods.** Each loop of the source is a method with
  invariants, proved against a function or predicate of the inputs. For
  example:
  - the neighbour-list construction ends with each list equal to
    `Nearest(pts, i)`;
  - the connection refresh ends with the lists equal to
    `RefreshUpTo(pts, adj, maxD2, |pts|)`, one prune and one re-link per point;
  - the spark loop leaves exactly `Survivors(...)`;
  - a line's step leaves `StepWalk(...)` and `StepTrailOf(...)`.
- **SparkleAnimation.** The heading `rad` is kept as a whole number of sixth
  turns. The lattice position is kept as integers `(u, v)`, with
  `x = u / 2` and `y = v * sin 60`. This makes `cos(rad)`/`sin(rad)` of a
  multiple of `pi / 3` exact.

## Model

| member | source | states |
|---|---|---|
| PointNetwork.Distance | src/components/LinesAnimation.tsx:266-268 | getDistance is the squared Euclidean distance; it is never negative |
| PointNetwork.DistanceSymmetric | src/components/LinesAnimation.tsx:266-268 | the squared distance does not depend on the order of the two points |
| PointNetwork.GridSteps | src/components/LinesAnimation.tsx:125-129 | the loop `x += width / 12` runs exactly 12 times for a positive size and never for size 0 |
| PointNetwork.CellStartProduct | src/components/LinesAnimation.tsx:128-129 | after c steps of g the loop variable is c * g |
| PointNetwork.JitterInside | src/components/LinesAnimation.tsx:130-131 | a coordinate `x + random * gridSize` lies in [x, x + gridSize) |
| PointNetwork.BuildGrid | src/components/LinesAnimation.tsx:124-144 | 144 points for a non-empty viewport (none otherwise); point k lies in cell (k / 12, k % 12), at rest on its origin with activity 0 |
| PointNetwork.PlaceColumn | src/components/LinesAnimation.tsx:129-143 | one column adds 12 points, each in its own cell and fresh |
| PointNetwork.PlacedAppend | src/components/LinesAnimation.tsx:142 | pushing a fresh point into the next cell keeps every point in its cell |
| PointNetwork.Distances | src/components/LinesAnimation.tsx:152-158 | the distance list of point i: every other point exactly once, with its true squared distance, in index order |
| PointNetwork.DistancesStep | src/components/LinesAnimation.tsx:153-157 | one inner iteration appends point j with its distance, except j == i |
| PointNetwork.CollectDistances | src/components/LinesAnimation.tsx:152-158 | the loop builds exactly the distance list of point i |
| PointNetwork.Insert | src/components/LinesAnimation.tsx:161 | one insertion step of the sort adds exactly the new entry (as a multiset) |
| PointNetwork.InsertMembers | src/components/LinesAnimation.tsx:161 | after insertion the members are the old ones plus the new entry |
| PointNetwork.InsertSorted | src/components/LinesAnimation.tsx:161 | inserting into a distance-sorted list keeps it sorted |
| PointNetwork.InsertStable | src/components/LinesAnimation.tsx:161 | inserting an entry with a smaller index than all present keeps ties in index order |
| PointNetwork.SortByDistance | src/components/LinesAnimation.tsx:161 | the sort is a permutation of its input |
| PointNetwork.SortSorted | src/components/LinesAnimation.tsx:161 | the sort's result is ordered by distance for every input |
| PointNetwork.SortStable | src/components/LinesAnimation.tsx:161 | on a list in index order, equal distances stay in index order (Array.prototype.sort is stable) |
| PointNetwork.SortedMembers | src/components/LinesAnimation.tsx:161 | sorting neither adds nor loses entries |
| PointNetwork.SortedOthersFacts | src/components/LinesAnimation.tsx:147-161 | the sorted list of point i has n - 1 entries: every other point once, with its true distance, stably sorted |
| PointNetwork.TakeNearest | src/components/LinesAnimation.tsx:163-166 | the loop takes the ids of the first min(3, length) sorted entries |
| PointNetwork.NearestShape | src/components/LinesAnimation.tsx:163-168 | the initial list has min(3, n - 1) entries, all other existing points, none twice |
| PointNetwork.NearestClosest | src/components/LinesAnimation.tsx:161-168 | a point left out of i's list is at least as far from i as every point listed |
| PointNetwork.SortedIndex | src/components/LinesAnimation.tsx:161 | every other point has a position in i's sorted list, carrying its true distance |
| PointNetwork.SortedEntry | src/components/LinesAnimation.tsx:161 | the sorted list's distances are true and ascending |
| PointNetwork.NearestAll | src/components/LinesAnimation.tsx:163-168 | with at most four points every point lists all the others |
| PointNetwork.EarlierListSettled | src/components/LinesAnimation.tsx:170-178 | an earlier point's list is full or already names i, so i's back-offer cannot change it |
| PointNetwork.SettledBefore | src/components/LinesAnimation.tsx:170-178 | once the lists before i are final, an offer from i lands only on later points |
| PointNetwork.SettledList | src/components/LinesAnimation.tsx:170-178 | SettledBefore for every entry of i's own list |
| PointNetwork.OfferBack | src/components/LinesAnimation.tsx:171-178 | each neighbour of i gains at most i, and only one with room that does not list i yet; lists up to i are unchanged |
| PointNetwork.LinkNearest | src/components/LinesAnimation.tsx:147-179 | after the loop each point's list is exactly its first three stably sorted others: no mirrored push lasts |
| PointNetwork.AppendWellFormed | src/components/LinesAnimation.tsx:174-175 | pushing p into a list with room that does not name p keeps every list capped, self-free and duplicate-free |
| PointNetwork.WithinSymmetric | src/components/LinesAnimation.tsx:221 | the threshold test is symmetric |
| PointNetwork.NearestWellFormed | src/components/LinesAnimation.tsx:147-179 | the initial lists are well formed, and with two or more points none is empty |
| PointNetwork.ClosestOther | src/components/LinesAnimation.tsx:185-196 | the first point at strictly smallest distance from i; None exactly when i is alone |
| PointNetwork.ClosestUpTo | src/components/LinesAnimation.tsx:187-195 | the scan of the first j points: none exactly when no other point was seen, otherwise an earlier-scanned point other than i at smallest distance, strictly nearer than every point scanned before it |
| PointNetwork.RepairStepFacts | src/components/LinesAnimation.tsx:181-206 | one point's turn: nothing changes unless its list is empty and another point exists; then it lists exactly its closest point q, q gains i only when it has room and does not list i yet, and no other list changes |
| PointNetwork.RepairUpToFacts | src/components/LinesAnimation.tsx:181-206 | all of RepairGrows, RepairLinks, RepairFirst and RepairNoop for the first n turns |
| PointNetwork.RepairGrows | src/components/LinesAnimation.tsx:181-206 | the repair keeps every list capped, self-free and duplicate-free, and only appends to lists |
| PointNetwork.RepairLinks | src/components/LinesAnimation.tsx:181-206 | with two or more points every point that has had its turn has a non-empty list |
| PointNetwork.RepairFirst | src/components/LinesAnimation.tsx:181-206 | a point whose list was empty at its turn ends with its closest point at the head of its list |
| PointNetwork.RepairNoop | src/components/LinesAnimation.tsx:181-206 | when no list is empty the repair changes nothing |
| PointNetwork.RepairIsolated | src/components/LinesAnimation.tsx:182-208 | the loop ends exactly at the repair function over all points; lists stay well formed and only grow; with two or more points no list is empty, and a point that was still empty at its turn now lists its closest point first; nothing changes when no list is empty |
| PointNetwork.IndexOf | src/components/LinesAnimation.tsx:224 | indexOf: -1 exactly when absent, otherwise the first index holding x |
| PointNetwork.RemoveFirst | src/components/LinesAnimation.tsx:224-227 | the guarded splice removes exactly the first x and nothing when x is absent |
| PointNetwork.KeepWithin | src/components/LinesAnimation.tsx:217-229 | the entries kept are exactly those within the threshold, in their original order |
| PointNetwork.Prune | src/components/LinesAnimation.tsx:216-229 | the result is PruneOf: p's list keeps exactly its near entries; each dropped neighbour loses its first entry for p; no other list changes |
| PointNetwork.ScanKeep | src/components/LinesAnimation.tsx:219-221 | keeping a near neighbour preserves the backward scan's invariant |
| PointNetwork.ScanDrop | src/components/LinesAnimation.tsx:221-227 | splicing out a far neighbour on both sides preserves the backward scan's invariant |
| PointNetwork.ScanAt | src/components/LinesAnimation.tsx:217-219 | the entry examined at index i is an existing point other than p, still at index i of the current list |
| PointNetwork.PruneFacts | src/components/LinesAnimation.tsx:216-229 | after pruning, lists stay well formed, p's list is within the threshold, and only far entries were removed |
| PointNetwork.PruneOf | src/components/LinesAnimation.tsx:216-229 | pruning p as a function of the lists: one list per point, as before |
| PointNetwork.PruneIs | src/components/LinesAnimation.tsx:216-229 | lists where p keeps its near entries and every other list is pruned of p as the loop does are exactly PruneOf |
| PointNetwork.CollectCandidates | src/components/LinesAnimation.tsx:234-243 | the loop builds exactly the scan InReach over all points: the unlinked other points within the threshold, with true distances, in index order |
| PointNetwork.InReachFacts | src/components/LinesAnimation.tsx:234-243 | the scan of the first j points holds, in ascending index order and with true distances, exactly the other points within the threshold that p does not list |
| PointNetwork.InReachSound | src/components/LinesAnimation.tsx:234-243 | every entry of the scan is an earlier-scanned other point within the threshold that p does not list; ids ascend and distances are true |
| PointNetwork.InReachComplete | src/components/LinesAnimation.tsx:234-243 | every other point among the first j that is within the threshold and not listed by p is in the scan |
| PointNetwork.LinkStep | src/components/LinesAnimation.tsx:250-258 | linking p and c (c back to p unless it lists p) keeps the lists well formed, only growing and near |
| PointNetwork.LinkGreedily | src/components/LinesAnimation.tsx:249-260 | the loop ends with exactly the links of the greedy filter: p gains the first candidates in order that still have room, up to 3 in all, each linked back; p is full, or every candidate is linked or full |
| PointNetwork.Greedy | src/components/LinesAnimation.tsx:249-260 | the candidates the loop takes: at most the room left, each one from the order and with room |
| PointNetwork.GreedyMaximal | src/components/LinesAnimation.tsx:249-260 | if the filter takes fewer than the room, it takes every candidate with room |
| PointNetwork.GreedyNearestFirst | src/components/LinesAnimation.tsx:245-260 | over an order sorted by distance, a taken candidate is no farther than a candidate with room that was passed over |
| PointNetwork.LinkedFrom | src/components/LinesAnimation.tsx:249-260 | the loop from index i on keeps the number of lists |
| PointNetwork.WalkResult | src/components/LinesAnimation.tsx:249-260 | from any point of the walk, the loop's result has exactly the greedy links, only near growth, and p full or every candidate linked or full |
| PointNetwork.SortedCovers | src/components/LinesAnimation.tsx:234-246 | every point p could take is among the sorted candidates |
| PointNetwork.SortedNearerFirst | src/components/LinesAnimation.tsx:246 | the sorted candidates are in order of distance from p |
| PointNetwork.RelinkNearestFirst | src/components/LinesAnimation.tsx:246-260 | the greedy links over a sorted, covering order are nearest first |
| PointNetwork.RelinkMaximal | src/components/LinesAnimation.tsx:232-261 | if every candidate is linked or full, so is every point in reach |
| PointNetwork.Relink | src/components/LinesAnimation.tsx:232-261 | the result is RelinkOf; nothing changes when p already has 3; lists only grow, stay well formed and gain only near entries; p takes only points that had room; another point gains exactly p at the end of its list iff p took it and it did not list p; p ends full or every point in reach is linked or full; a point p took is never farther than a point in reach with room that p did not take |
| PointNetwork.RelinkOf | src/components/LinesAnimation.tsx:232-261 | re-linking p as a function of the lists (the scan, the sort, then the greedy loop when p has room): one list per point |
| PointNetwork.RelinkFacts | src/components/LinesAnimation.tsx:232-261 | RelinkOf has every property stated for Relink |
| PointNetwork.RelinkDistinct | src/components/LinesAnimation.tsx:234-246 | the sorted candidate ids hold no point twice; each is another point within the threshold that p does not list |
| PointNetwork.RelinkWalk | src/components/LinesAnimation.tsx:249-260 | the loop over such an order adds exactly the greedy links, only near ones, each to a point with room that p did not list, and ends with p full or every candidate linked or full |
| PointNetwork.RelinkOrdered | src/components/LinesAnimation.tsx:234-260 | over the sorted scan the greedy links are nearest first, and maximal over every point in reach |
| PointNetwork.LinkedRules | src/components/LinesAnimation.tsx:250-258 | with links made to points with room: p's new entries had room, and another list gains exactly p iff p took it and it did not list p |
| PointNetwork.RefreshStep | src/components/LinesAnimation.tsx:215-262 | after refreshing p, no list up to p names a point beyond the threshold |
| PointNetwork.UpdateConnections | src/components/LinesAnimation.tsx:212-263 | the loop ends exactly at the fold RefreshUpTo over all points; every list is capped at 3, has no self-loop or duplicate, and names only points within the threshold; no link within the threshold is dropped; no two points within the threshold are left unlinked while both have room |
| PointNetwork.RefreshUpTo | src/components/LinesAnimation.tsx:215-262 | the first n turns of the refresh, each a prune then a re-link of the next point: one list per point |
| PointNetwork.RefreshPoint | src/components/LinesAnimation.tsx:215-262 | one iteration of the outer loop (prune p, then re-link p) advances the fold by exactly one turn |
| PointNetwork.RefreshUpToFacts | src/components/LinesAnimation.tsx:215-262 | after n turns the lists are well formed, the lists of the points turned name only near points, no near link is dropped, and no two turned points within the threshold are unlinked while both have room |
| PointNetwork.RefreshTurn | src/components/LinesAnimation.tsx:215-262 | one turn carries those facts from n - 1 points to n |
| PointNetwork.RefreshPairs | src/components/LinesAnimation.tsx:215-262 | if no near pair among the first p points is left unlinked with room on both sides, pruning then a maximal re-link of p extends this to the first p + 1 |
| PointNetwork.DoneUnpruned | src/components/LinesAnimation.tsx:216-227 | pruning p leaves alone a list that names only near points |
| Activity.Band | src/components/LinesAnimation.tsx:331-361 | line opacity stays in [0.05, 0.3] and label opacity in [0.1, 0.6] |
| Activity.BandEnds | src/components/LinesAnimation.tsx:343-361 | below 4000 the band is (0.3, 0.6); from 40000 on it is (0.05, 0.1) |
| Activity.LabelTwiceLine | src/components/LinesAnimation.tsx:343-361 | the label opacity is always twice the line opacity |
| Activity.MonotoneWithinBands | src/components/LinesAnimation.tsx:347-356 | within each graded band, a nearer pointer never gives a lower opacity |
| Activity.NotMonotone | src/components/LinesAnimation.tsx:347-356 | the band is not monotone: just below 20000 it is under 0.0501, and at 20000 it jumps to 0.15 |
| Activity.ContinuousAtOuterEdges | src/components/LinesAnimation.tsx:343-361 | no jump at 4000 or at 40000 |
| Activity.SparkThreshold | src/components/LinesAnimation.tsx:406 | `active > 0.1` holds exactly below 16800 and on [20000, 30000) |
| Activity.NeverBelowRemoval | src/components/LinesAnimation.tsx:384 | no point's opacity is ever below 0.01 |
| Sparks.LexTrichotomy | src/components/LinesAnimation.tsx:53 | JavaScript string `<` is irreflexive, and of two different strings exactly one is smaller |
| Sparks.LineKey | src/components/LinesAnimation.tsx:51-53 | the key joins the two ids with `_`, the not-greater id first |
| Sparks.LineKeySymmetric | src/components/LinesAnimation.tsx:51-53 | the key of (a, b) is the key of (b, a) |
| Sparks.SparkSpeed | src/components/LinesAnimation.tsx:49 | speed lies in [0.005, 0.015) |
| Sparks.Spark.constructor | src/components/LinesAnimation.tsx:46-54 | a new spark sits at progress 0 on its line, with the drawn speed and the line's key |
| Sparks.Spark.Update | src/components/LinesAnimation.tsx:56-63 | progress grows by the speed; the result is true exactly when progress reaches 1 |
| Sparks.Spark.Where | src/components/LinesAnimation.tsx:65-70 | the drawn position is the start at progress 0, and lies between the two ends for progress in [0, 1] |
| Sparks.Lerp | src/components/LinesAnimation.tsx:67-68 | interpolation hits both ends at 0 and 1 and stays between them on [0, 1] |
| Sparks.UpdatedStaysValid | src/components/LinesAnimation.tsx:56-63 | a valid spark that survives its update has progress strictly inside (0, 1) |
| Sparks.SparksOn | src/components/LinesAnimation.tsx:373-377 | the number of sparks on a key is at most the number of sparks |
| Sparks.SparksOnAppend | src/components/LinesAnimation.tsx:373-377 | spark counts per key add up over concatenation |
| LinesAnimation.ConnectionDistance | src/components/LinesAnimation.tsx:115 | the threshold is a quarter of the smaller viewport side |
| LinesAnimation.Squared | src/components/LinesAnimation.tsx:213 | the squared threshold is not negative |
| LinesAnimation.ApplyActivity | src/components/LinesAnimation.tsx:331-364 | each point takes both opacities of its distance band to the pointer; positions and origins are unchanged |
| LinesAnimation.ActiveNeverRemoved | src/components/LinesAnimation.tsx:363-384 | after the activity block no point is below the removal opacity, so the first removal test never fires |
| LinesAnimation.CountKeys | src/components/LinesAnimation.tsx:373-377 | the loop builds exactly the reference count map: for every key, the number of sparks on it |
| LinesAnimation.KeyCounts | src/components/LinesAnimation.tsx:373-377 | for every key, the count is the number of sparks on it |
| LinesAnimation.Survivors | src/components/LinesAnimation.tsx:380-399 | the kept sparks are exactly those on visible lines that one more step leaves short of the end |
| LinesAnimation.SurvivorsDistinct | src/components/LinesAnimation.tsx:380-399 | filtering keeps the sparks distinct |
| LinesAnimation.SurvivorsKeys | src/components/LinesAnimation.tsx:380-399 | filtering gives no key more sparks |
| LinesAnimation.SurvivorsBounded | src/components/LinesAnimation.tsx:380-399 | the kept sparks are distinct, and no key has more than before |
| LinesAnimation.SurvivorsStep | src/components/LinesAnimation.tsx:380-394 | one backward iteration keeps the spark in place or splices it out, extending the filtered suffix |
| LinesAnimation.AdvanceOne | src/components/LinesAnimation.tsx:381-394 | one iteration: a faded spark is spliced out, others advance and are spliced out once finished |
| LinesAnimation.AdvanceSparks | src/components/LinesAnimation.tsx:380-399 | the loop leaves exactly the survivors, each advanced by its speed and still valid |
| LinesAnimation.SpawnedValid | src/components/LinesAnimation.tsx:418 | a spawned spark runs between existing points at a speed in range |
| LinesAnimation.ServedGrow | src/components/LinesAnimation.tsx:405-423 | a line served stays served as sparks are appended and counts rise |
| LinesAnimation.SpawnServes | src/components/LinesAnimation.tsx:418-419 | a new spark on p's k-th line serves it, and lines already served stay served |
| LinesAnimation.ServedByNew | src/components/LinesAnimation.tsx:418 | the spark appended last serves its own line |
| LinesAnimation.CountGrows | src/components/LinesAnimation.tsx:419 | incrementing one key's count lowers no count |
| LinesAnimation.TallyStep | src/components/LinesAnimation.tsx:417-419 | adding a spark on a key below 2 and counting it keeps every key at most 2 and the count exact |
| LinesAnimation.NewSpark | src/components/LinesAnimation.tsx:418 | the new spark is fresh, at progress 0, on p's k-th line with that line's key and speed draw |
| LinesAnimation.SlotFilled | src/components/LinesAnimation.tsx:417-420 | appending the spark of p's k-th line keeps the run distinct, the tally exact and lines 0..k served |
| LinesAnimation.SlotFires | src/components/LinesAnimation.tsx:417-420 | a filled slot is one that fires (chance passed, count below 2); its spark is the last one and its key's count rises by one |
| LinesAnimation.SlotSkipped | src/components/LinesAnimation.tsx:417 | a line at the cap, or one whose chance test fails, counts as served without a spark |
| LinesAnimation.SpawnSlot | src/components/LinesAnimation.tsx:408-421 | a spark for p's k-th line is appended and its key's running count raised by one exactly when that count is below 2 and the chance test passes; otherwise run and count are unchanged |
| LinesAnimation.SpawnFrom | src/components/LinesAnimation.tsx:406-422 | the sparks added are exactly those of the point's plan, one per planned line in order, and the count is the plan's; every line is served; per-key counts stay at most 2 |
| LinesAnimation.PointDone | src/components/LinesAnimation.tsx:405-423 | after point p's turn, the pass invariant holds for points 0..p |
| LinesAnimation.ServedAfterPoint | src/components/LinesAnimation.tsx:405-423 | lines of earlier points stay served, and p's are served from the start of the pass |
| LinesAnimation.SpawnSparks | src/components/LinesAnimation.tsx:405-423 | the old sparks are kept in front, then exactly the sparks of the pass plan, one per planned line in order; each line of each active point got a spark unless its key reached 2; every key stays at most 2 |
| LinesAnimation.SpawnTurn | src/components/LinesAnimation.tsx:406-423 | one point's turn carries the pass's invariant to the next point: old sparks kept, tally exact, lines served, the plan realised so far |
| LinesAnimation.PointPlanCounts | src/components/LinesAnimation.tsx:407-422 | a point's plan ends with the starting count plus, per key, its planned lines on that key |
| LinesAnimation.PassPlanCounts | src/components/LinesAnimation.tsx:405-424 | the pass plan ends with the starting count plus, per key, its planned lines on that key |
| LinesAnimation.PointPlanBounded | src/components/LinesAnimation.tsx:416-420 | a point's turn keeps every count at most 2 |
| LinesAnimation.PassPlanBounded | src/components/LinesAnimation.tsx:405-424 | the pass keeps every count at most 2 |
| LinesAnimation.PassPlanRoom | src/components/LinesAnimation.tsx:405-424 | from counts at most 2, the starting count of a key plus the lines planned on it is at most 2 |
| LinesAnimation.PointPlanShape | src/components/LinesAnimation.tsx:407-422 | a point's plan holds only its own lines that pass the chance test, in list order |
| LinesAnimation.PassPlanShape | src/components/LinesAnimation.tsx:405-424 | the pass plan holds only chance-passing lines of active points, in loop order |
| LinesAnimation.PassPlanOnce | src/components/LinesAnimation.tsx:405-424 | no line is planned twice |
| LinesAnimation.PointPlanComplete | src/components/LinesAnimation.tsx:407-422 | a chance-passing line the point's plan leaves out ends with its key at 2 |
| LinesAnimation.PassPlanComplete | src/components/LinesAnimation.tsx:405-424 | a chance-passing line of an active point the pass plan leaves out ends with its key at 2 |
| LinesAnimation.SlotPlanned | src/components/LinesAnimation.tsx:408-421 | one line's turn moves the planned line, if any, from the plan still ahead to the sparks added |
| LinesAnimation.PointPlanned | src/components/LinesAnimation.tsx:406-422 | one point's turn moves its planned lines from the pass plan still ahead to the sparks added |
| LinesAnimation.Network.constructor | src/components/LinesAnimation.tsx:105-118 | centred pointer, quarter-side threshold, both timers at now, no sparks, and the initPoints grid and lists |
| LinesAnimation.Network.HandleMouseMove | src/components/LinesAnimation.tsx:432-435 | the pointer moves; nothing else changes |
| LinesAnimation.Network.HandleResize | src/components/LinesAnimation.tsx:442-452 | new size, centred pointer, threshold min(w, h) * 0.25, a fresh grid with its lists, and no sparks |
| LinesAnimation.Network.ShiftFrame | src/components/LinesAnimation.tsx:291-313 | point i moves to the eased fraction of its path, and its origin follows on the last frame; nothing else changes |
| LinesAnimation.Network.RefreshConnections | src/components/LinesAnimation.tsx:323-327 | once more than 1000 ms have passed, the lists are exactly the refresh of the old lists: every link within the threshold, none within it dropped, no near pair left unlinked while both have room; the timer moves; otherwise the lists are unchanged |
| LinesAnimation.Network.RefreshActivity | src/components/LinesAnimation.tsx:331-364 | every point takes its band's opacities; links within the threshold stay within it, and a saturated network stays saturated |
| LinesAnimation.SaturatedKept | src/components/LinesAnimation.tsx:331-364 | a network stays saturated when no point moves |
| LinesAnimation.Network.RefreshPoints | src/components/LinesAnimation.tsx:320-364 | connections, then activity, both as stated for them |
| LinesAnimation.Network.UpdateSparks | src/components/LinesAnimation.tsx:380-399 | the sparks become exactly the survivors, each advanced by its speed, with no key gaining sparks |
| LinesAnimation.Network.SpawnPass | src/components/LinesAnimation.tsx:402-425 | after more than 300 ms, exactly the sparks of the pass plan from the given counts are appended and the timer moves; otherwise nothing changes |
| LinesAnimation.Network.RefreshSparks | src/components/LinesAnimation.tsx:372-425 | count, update, then spawn: old survivors in front, then, when due, exactly the sparks of the pass plan from the counts taken before the update |
| LinesAnimation.Network.Animate | src/components/LinesAnimation.tsx:320-426 | a frame: neighbour refresh when due (exactly the refresh of the old lists: all links within the threshold, none within it dropped, no near pair with room on both sides unlinked), activity on every point, spark survivors advanced, then exactly the planned sparks when due |
| LinesAnimation.InitPoints | src/components/LinesAnimation.tsx:123-209 | the grid, with each list exactly the nearest up-to-three others; well formed; none empty with two or more points |
| LinesAnimation.InitialisedThree | src/components/LinesAnimation.tsx:147-179 | for a non-empty viewport each list is exactly the first three entries of the point's stably sorted list |
| CountdownTimer.Tick | src/components/CountdownTimer.tsx:24-47 | from a non-zero in-range time the total drops by exactly one second, and ranges are kept; 0:00:00:00 wraps to 0:23:59:59; days never rise and never go negative |
| CountdownTimer.Progress | src/components/CountdownTimer.tsx:56-58 | progress is (109 - days) / 109 * 100: in [0, 100] for days in [0, 109], 0 at the start and 100 at day 0 |
| CountdownTimer.ProgressMonotone | src/components/CountdownTimer.tsx:58 | fewer days left never shows less progress |
| CountdownTimer.DashOffset | src/components/CountdownTimer.tsx:59-60 | the dash offset lies between 0 and the circumference |
| CountdownTimer.DashOffsetEnds | src/components/CountdownTimer.tsx:58-60 | the offset is the whole circumference on day 109 and 0 on day 0 |
| CountdownTimer.RingDraw | src/components/CountdownTimer.tsx:15-20 | a drawn ring length lies in [0.2, 0.8) |
| CountdownTimer.RingLength | src/components/CountdownTimer.tsx:144 | `ringLengths[i] \|\| 0.5`: the entry, or 0.5 for a missing or zero entry |
| CountdownTimer.RingDash | src/components/CountdownTimer.tsx:145-147 | dash plus gap is the circumference, and a drawn length gives between 20% and 80% of it as dash |
| CountdownTimer.GapAsWritten | src/components/CountdownTimer.tsx:147 | the gap equals `circumference * (1 - length)` |
| CountdownTimer.RingDashNonNegative | src/components/CountdownTimer.tsx:146-147 | for a length in [0, 1] dash and gap are not negative |
| CountdownTimer.RingShare | src/components/CountdownTimer.tsx:144-147 | with drawn lengths, every ring, drawn or fallback, shows 20% to 80% of its circle as dash |
| CountdownTimer.PadStart2 | src/components/CountdownTimer.tsx:239-242 | zeros are added in front up to two characters, and longer strings are kept whole |
| CountdownTimer.FieldDisplay | src/components/CountdownTimer.tsx:239-242 | a field shows at least two digits that read back as its value, so 109 shows as "109" |
| CountdownTimer.InitialDisplay | src/components/CountdownTimer.tsx:239-242 | the first frame shows "109:00:00:00" |
| CountdownTimer.Countdown.constructor | src/components/CountdownTimer.tsx:4-11 | 109 days left and no ring lengths |
| CountdownTimer.Countdown.DrawRings | src/components/CountdownTimer.tsx:13-21 | eight fresh lengths, each RingDraw of its draw; the time is untouched |
| CountdownTimer.Countdown.OnSecond | src/components/CountdownTimer.tsx:23-48 | one tick: one second less, or the wrap to 0:23:59:59 at zero; ranges are kept |
| Decimal.Digits | src/components/CountdownTimer.tsx:239-242 | `String(n)` of a natural number is a non-empty run of decimal digits |
| Decimal.DigitsRoundTrip | src/components/CountdownTimer.tsx:239-242 | the digits read back as the number |
| Decimal.LeadingZeros | src/components/CountdownTimer.tsx:239-242 | zeros in front do not change the value read |
| Tokenomics.ValueAtMostTotal | src/pages/Tokenomics.tsx:123 | no row exceeds the reduce total |
| Tokenomics.TotalPrefix | src/pages/Tokenomics.tsx:123 | the left fold adds one row at a time |
| Tokenomics.TotalIs115 | src/pages/Tokenomics.tsx:9-16 | the six values sum to 115, not 100 |
| Tokenomics.Percentage | src/pages/Tokenomics.tsx:124 | width * total = value * 100, and a row's width lies in [0, 100] |
| Tokenomics.Bars | src/pages/Tokenomics.tsx:122-129 | the k-th bar of a slice has key k + offset, and the row's name, raw value and width |
| Tokenomics.GroupsCoverTable | src/pages/Tokenomics.tsx:122-212 | slice(0, 3) and slice(3, 6) show every row once, in order, under key equal to its table index; each width is in [0, 100] |
| Tokenomics.KeysDistinct | src/pages/Tokenomics.tsx:126-209 | the six keys are pairwise distinct |
| Tokenomics.GroupsAreWholeTable | src/pages/Tokenomics.tsx:122-205 | the two groups are the bars of the whole table in one pass |
| Tokenomics.SumWidthsShare | src/pages/Tokenomics.tsx:124-207 | widths over the first m rows sum to those rows' share of 115, in percent |
| Tokenomics.SumLabelsTotal | src/pages/Tokenomics.tsx:129-212 | labels over a prefix sum to that prefix's total |
| Tokenomics.WidthsAndLabels | src/pages/Tokenomics.tsx:124-212 | the six widths fill exactly 100%, while the displayed labels sum to 115 |
| Tokenomics.Tooltip | src/pages/Tokenomics.tsx:41-51 | the tooltip renders exactly when active with a non-empty payload, showing payload[0] |
| Roadmap.Opacity | src/pages/Roadmap.tsx:25 | max(0.4, 1 - 0.08 i) lies in [0.4, 1]; it is the linear value below index 8 and the floor from 8 on |
| Roadmap.OpacityNonIncreasing | src/pages/Roadmap.tsx:25 | later steps are never more opaque |
| Roadmap.OpacitySchedule | src/pages/Roadmap.tsx:24-25 | steps 1 to 7 have 1.0, 0.92, 0.84, 0.76, 0.68, 0.60, 0.52 |
| Roadmap.Badge | src/pages/Roadmap.tsx:135 | the badge shows index + 1 |
| Roadmap.Alternates | src/pages/Roadmap.tsx:21-145 | consecutive steps sit on opposite sides with every choice mirrored, the sidebar margin included |
| Roadmap.LayoutPeriod | src/pages/Roadmap.tsx:21-145 | even steps: flex-row, sweep 1, -right-8, offset 0, rotation -90, margin ml-4; odd steps the mirror; period 2 |
| SlideShow.Next | src/components/SlideShow.tsx:13 | the next index is in [0, 4): one more, or 0 after slide 3 |
| SlideShow.AfterTicksMod | src/components/SlideShow.tsx:9-13 | after k advances from 0 the index is k mod 4 |
| SlideShow.Periodic | src/components/SlideShow.tsx:13 | every four intervals the show returns to the same slide |
| SlideShow.ExactlyOneVisible | src/components/SlideShow.tsx:27-32 | for a valid index exactly one slide gets opacity-100 |
| SlideShow.SlideState.constructor | src/components/SlideShow.tsx:9 | the show starts on slide 0 |
| SlideShow.SlideState.Advance | src/components/SlideShow.tsx:12-14 | one interval moves to Next of the current slide and keeps the index below 4 |
| SparkleAnimation.TargetTime | src/components/SparkleAnimation.tsx:93 | a phase lasts between 60 and 99 ticks |
| SparkleAnimation.Turn | src/components/SparkleAnimation.tsx:94 | each phase turns by exactly one sixth, left or right |
| SparkleAnimation.LightMultiplier | src/components/SparkleAnimation.tsx:77 | the light multiplier lies in [0.002, 0.007) |
| SparkleAnimation.DirectionAtZero | src/components/SparkleAnimation.tsx:95-96 | heading 0 steps by (cos 0, sin 0) = (1, 0) |
| SparkleAnimation.DirectionUnit | src/components/SparkleAnimation.tsx:95-96 | every lattice step has length 1 |
| SparkleAnimation.DirectionRotates | src/components/SparkleAnimation.tsx:94-96 | one sixth turn more or less rotates the step by +60 or -60 degrees |
| SparkleAnimation.DirectionParity | src/components/SparkleAnimation.tsx:90-91 | a step keeps u + v even, so positions stay on the lattice |
| SparkleAnimation.OriginInBounds | src/components/SparkleAnimation.tsx:98 | the centre is inside the box for a non-negative window |
| SparkleAnimation.Recent | src/components/SparkleAnimation.tsx:148-150 | the filter keeps exactly the points newer than the cutoff |
| SparkleAnimation.RecentSnoc | src/components/SparkleAnimation.tsx:146-150 | filtering after a push: the new point comes last, after what the old trail kept |
| SparkleAnimation.RecentSuffix | src/components/SparkleAnimation.tsx:146-150 | on a trail pushed in time order, the filter drops only the oldest points |
| SparkleAnimation.RecentAll | src/components/SparkleAnimation.tsx:150 | a chronological trail whose oldest point is recent is kept whole |
| SparkleAnimation.FindFrom | src/components/SparkleAnimation.tsx:80 | the first occurrence at or after `from`, or None when there is none |
| SparkleAnimation.ReplaceFirst | src/components/SparkleAnimation.tsx:80 | string `replace` replaces only the first occurrence and leaves a string without one unchanged |
| SparkleAnimation.ColorOfLines | src/components/SparkleAnimation.tsx:79-80 | the template with 0.05 written in is "rgba(3, 100, 200, 0.05)" |
| SparkleAnimation.NewLineColor | src/components/SparkleAnimation.tsx:79-80 | a line's colour is "rgba(3, 100, 200, 0.05)" |
| SparkleAnimation.NumberPrefix | src/components/SparkleAnimation.tsx:156 | the longest prefix of digits and dots |
| SparkleAnimation.NumberStart | src/components/SparkleAnimation.tsx:156 | the index of the first digit or dot, or the length when there is none |
| SparkleAnimation.FirstNumber | src/components/SparkleAnimation.tsx:156 | `match(/[\d.]+/)?.[0]`: None exactly when no digit or dot occurs, otherwise a non-empty run |
| SparkleAnimation.FirstRunAt | src/components/SparkleAnimation.tsx:156 | a maximal run found at the first digit or dot is the match |
| SparkleAnimation.FirstNumberIsRed | src/components/SparkleAnimation.tsx:156 | in an "rgba(3,..." colour the match is "3", the red component, not the alpha |
| SparkleAnimation.LineColorRedThree | src/components/SparkleAnimation.tsx:79-80 | the line colour starts "rgba(3," |
| SparkleAnimation.DecimalValue | src/components/SparkleAnimation.tsx:156 | whole.fraction as a number is not negative, and equals the whole part without a fraction |
| SparkleAnimation.ParseRun | src/components/SparkleAnimation.tsx:156 | parseFloat of a digit-and-dot run is not negative, or NaN |
| SparkleAnimation.ParseWhole | src/components/SparkleAnimation.tsx:156 | a run of digits parses as the integer it spells |
| SparkleAnimation.ParseDecimal | src/components/SparkleAnimation.tsx:156 | digits, a dot and digits parse as the decimal they spell |
| SparkleAnimation.DigitPrefixStops | src/components/SparkleAnimation.tsx:156 | parsing stops at the first non-digit |
| SparkleAnimation.FallbackIsAlpha | src/components/SparkleAnimation.tsx:156 | the fallback '0.05' parses as 0.05 |
| SparkleAnimation.ZeroPointZeroFive | src/components/SparkleAnimation.tsx:156 | any "0.05" parses as 0.05 |
| SparkleAnimation.StrokeStyle | src/components/SparkleAnimation.tsx:153-159 | the stroke is boosted exactly within 200 units, and the boost is capped at 0.15 |
| SparkleAnimation.StrokeNearPointer | src/components/SparkleAnimation.tsx:154-158 | because the parsed number is 3, the boosted opacity is always the cap 0.15 |
| SparkleAnimation.LineWidth | src/components/SparkleAnimation.tsx:162 | width lies in [2, 3]: above 2 within the radius, 2 outside, 3 exactly at distance 0 |
| SparkleAnimation.StepKeepsWalk | src/components/SparkleAnimation.tsx:114-119 | a step keeps 0 <= time < targetTime in [60, 99] and the position on the lattice |
| SparkleAnimation.StepMoves | src/components/SparkleAnimation.tsx:89-119 | a step only counts a tick, or moves one lattice step and turns by a sixth, or resets |
| SparkleAnimation.StepCountsSinceReset | src/components/SparkleAnimation.tsx:81-115 | cumulativeTime grows by one per step and is 0 exactly when the step reset the line |
| SparkleAnimation.RestartedIsFresh | src/components/SparkleAnimation.tsx:71-99 | a reset line is at the centre with its counter cleared, one sixth turn from heading 0 |
| SparkleAnimation.Current | src/components/SparkleAnimation.tsx:121-143 | the drawn point has the current time, and sits on the lattice point at a phase start away from the pointer |
| SparkleAnimation.StepTrail | src/components/SparkleAnimation.tsx:146-150 | after a step the trail ends with the point just pushed and holds nothing older than 2000 ms |
| SparkleAnimation.StepDraws | src/components/SparkleAnimation.tsx:146-179 | every step leaves a started, non-empty trail that ends at a point drawn now and holds nothing older than 2000 ms |
| SparkleAnimation.ResetTrail | src/components/SparkleAnimation.tsx:146-150 | a step that resets the line leaves only the point just drawn |
| SparkleAnimation.Line.constructor | src/components/SparkleAnimation.tsx:67-69 | a new line is a reset line |
| SparkleAnimation.Line.Reset | src/components/SparkleAnimation.tsx:71-87 | back at the centre, one turn from heading 0, new phase length and light, empty trail, and last point at the end of the first step |
| SparkleAnimation.Line.Home | src/components/SparkleAnimation.tsx:72-81 | position, step and heading zeroed, fresh light multiplier and colour, cumulativeTime 0 |
| SparkleAnimation.Line.DropTrail | src/components/SparkleAnimation.tsx:82-85 | the trail is emptied and unstarted with last point (0, 0); the walk is unchanged |
| SparkleAnimation.Line.StartPhase | src/components/SparkleAnimation.tsx:90-96 | move by the old step, time 0, draw the length, turn by a sixth, and take the new heading's step |
| SparkleAnimation.Line.SetLast | src/components/SparkleAnimation.tsx:101-107 | the last point is the end of the new phase's first step |
| SparkleAnimation.Line.BeginPhase | src/components/SparkleAnimation.tsx:89-109 | the next phase, or, when it dies by chance or starts outside the box, a reset; time is 0 either way |
| SparkleAnimation.Line.Advance | src/components/SparkleAnimation.tsx:114-119 | count the tick and begin a phase at the target; the trail is emptied exactly when the line resets |
| SparkleAnimation.Line.Record | src/components/SparkleAnimation.tsx:146-179 | push the point, keep the last two seconds, and continue from the point |
| SparkleAnimation.Line.Step | src/components/SparkleAnimation.tsx:111-180 | the walk becomes StepWalk and the trail StepTrailOf of the old state; a line that resets takes the light multiplier of its draw and the line colour, any other keeps both; the line stays valid |
| SparkleAnimation.Line.ClearPath | src/components/SparkleAnimation.tsx:225-230 | the trail is cleared and the walk is kept |
| SparkleScene.Scene.constructor | src/components/SparkleAnimation.tsx:10-45 | the window size, the centre and box, the pointer at the centre, no lines, tick 0 |
| SparkleScene.Scene.Loop | src/components/SparkleAnimation.tsx:185-204 | tick + 1; at most one new line, only below 20, so the count is at most 20 and never falls; every line steps from its old walk and is drawn |
| SparkleScene.Scene.HandleResize | src/components/SparkleAnimation.tsx:208-235 | new size, centre and box; pointer at the centre; every trail cleared; the lines and their walks kept |
| SparkleScene.Scene.SetSize | src/components/SparkleAnimation.tsx:209-221 | size, centre and box follow the new window |
| SparkleScene.Scene.HandleMouseMove | src/components/SparkleAnimation.tsx:237-240 | the pointer moves; nothing else changes |
| SparkleScene.ClearAll | src/components/SparkleAnimation.tsx:225-230 | every line's trail is cleared and its walk kept |
| SparkleScene.StepAll | src/components/SparkleAnimation.tsx:203 | every line steps from its own old walk and is left drawn |
| SparkleScene.StepLine | src/components/SparkleAnimation.tsx:203 | one line's step leaves it valid, drawn, and at StepWalk of its old walk |

## Left out

- Canvas drawing is left out: every `CanvasRenderingContext2D` call is rendering through a foreign API. This covers strokes, arcs, gradients, text labels, `clearRect`, composite modes, `drawLines`, `TextLabel.draw` and `Spark.draw`.
- `requestAnimationFrame`, `setInterval`, `setTimeout`, window event listeners and their cleanup are left out. The model has no concurrency, so each callback is a method and `Date.now()` is an integer parameter.
- `Math.random()` becomes parameters with the stated ranges. Point jitter, spark speed and chance draws, phase length, turn and death draws, light draws and ring lengths are all passed in.
- Floating point is not modelled. Reals are exact, so rounding effects of the grid loop are not captured: in floating point, `x += width / 12` can fall just short of `width` and run a 13th time. `Math.floor` of line 93 is `Floor` on reals.
- The reset chain (`reset` → `beginPhase` → `reset`, SparkleAnimation.tsx lines 86 and 98-99) only ends by chance, because any die draw can kill a phase. `SparkleAnimation.Restart` carries the draws of the attempt that finally survives. Every `reset` overwrites what failed attempts wrote, so nothing else of theirs is visible.
- In SparkleAnimation `step`, the pointer distance (`Math.sqrt`), the cursor pull (`atan2`, `cos`, `sin`) and the wave factor `sin(prop * pi / 2)` are inputs of `StepInput`. The pointer distance is not derived from `mouseX`/`mouseY`.
- SparkleAnimation.Current: its contract only fixes the time and the no-wave, no-pull position, because the wave and pull inputs are not tied to trigonometry.
- SparkleAnimation.ParseRun: `parseFloat` is modelled only for runs of digits and dots. Exponents, signs and whitespace are never produced by the `[\d.]+` match.
- Point ids are the `toFixed(2)` position strings (LinesAnimation.tsx lines 51-53 and 409-411). They are passed in as strings, so their formatting is not modelled. `LineKey` treats them as opaque strings compared by JavaScript's `<`.
- The easing curve of `shiftPoint` (lines 295-298, `Math.sqrt`) is an input `ease` in [0, 1]. The random end point and duration of each drift are inputs.
- LinesAnimation.Network.ShiftFrame: it models one frame of the drift, not the self-rescheduling chain of `shiftPoint` calls.
- `handleScroll` and the `animateHeader` flag are left out: the flag is always true.
- SparkleScene.Scene.Loop: it states each line's walk exactly, but the trail only as `Drawn`. The exact trail of each line is the `StepTrailOf` that `SparkleAnimation.Line.Step` states.
- `TextLabel` (its font-size draw and position copy) is left out because it only feeds drawing.
- `Spark.opacity` is set to 1 and never read except when drawing.
- The Tokenomics pie-label placement (`renderCustomLabel`, trigonometry and `toFixed(0)`) is left out, and so are the Recharts and IntersectionObserver internals and the `isVisible` flag.
- Roadmap's `isHovered` flag and its scale and shadow styling are left out: they are UI state with no arithmetic.
- Navbar, AnimatedSection, Home, About, Blogs, Support, Footer, PageHeader, App and the Tailwind configuration are left out: they are static markup, routing and styling.
