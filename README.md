# k-means clustering engine, modelled in Dafny

A model of the clustering engine of `Kmeans` (a Java program that runs Lloyd's
k-means iteration on points of the plane) and proofs about it. The engine
holds the data points, whose `label` field the assignment pass overwrites in
place, and a list of `k` means, mean `i` carrying label `i`. Each round assigns
every point to its nearest mean, recomputes each mean as the average of its
points, and stops early when the stop test holds. The round budget is
`rounds`.

Three modules:

- `Points` (`points.dfy`): the mutable data point (`class Point`), its value
  (`Sample`), the mean (`Centroid`), and the squared distance.
- `Lloyd` (`lloyd.dfy`): the engine's steps as functions on values, with the
  lemmas. `Nearest` is the scan for the closest mean. `Assign` is one
  assignment pass. `Recompute` gives the recomputed means. `CheckStop` is the
  stop test, and `Run` is the whole bounded iteration.
- `Engine` (`engine.dfy`): `class Kmeans`, with the fields `k`, `rounds`,
  `data` and `means`. Its methods are proved against the `Lloyd` functions.
  `UpdateLabel` uses the nested loops and the running minimum. `NewMeans` uses
  the sum and count arrays. `Compute` runs the round loop.

Modelling choices:

- Coordinates are exact `real`s. The Java field `label` is called `cluster`,
  because `label` is a Dafny keyword.
- A mean is never changed after it is built, so means are values
  (`Centroid`), not objects.
- In IEEE arithmetic, a cluster with no points gets mean 0.0/0.0, which is NaN
  in both coordinates. The model has a `NaN(label)` centroid for this. A NaN
  distance never compares smaller, so the assignment pass skips NaN means; a
  point with no finite mean to choose keeps its old label. `!=` on NaN is
  true, so the stop test fails whenever mean 0 is NaN.
- The `Double.MAX_VALUE` starting distance of the scan is a `found` flag: the
  first mean with coordinates sets the best distance. For finite inputs this
  is the same.
- The stop test is modelled as the code has it: it compares mean 0 only.
  The method's own doc comment (src/Kmeans.java:135-138) says it validates
  that the two lists of means are identical, yet its loop runs for index 0
  alone (`i<1` at line 141).
  `CheckStopMissesOtherMeans` exhibits two lists of means that differ at index
  1 yet pass the test. `SameMeansStops` shows that full equality implies the
  test. `Run` and `Compute` use the test as written.
- For empty clusters, the model follows the code (NaN means), not the
  alternative of keeping the previous mean.

## Model

| member | source | states |
|---|---|---|
| `Points.Point.constructor` | src/Kmeans.java:248-252 | a loaded point has the given coordinates and label -1 (not assigned) |
| `Points.Point.Labelled` | src/Kmeans.java:254-258 | a point built with an explicit label has the given coordinates and label (it mirrors the three-argument constructor; the model builds means as `Centroid` values, not with it) |
| `Points.SqDistance` | src/Kmeans.java:84-90 | the squared Euclidean distance is non-negative and is zero exactly when the two points coincide |
| `Points.SqrtMonotone` | src/Kmeans.java:88 | for non-negative distances, comparing their squares gives the same `<` and `==` answers as comparing the distances, so comparing squares picks the same mean as comparing `Math.sqrt` values |
| `Lloyd.Nearest` | src/Kmeans.java:97-104 | the scan over the means ends with no choice exactly when every mean is NaN; otherwise it ends with a mean that has coordinates, lies at minimal distance, and is strictly closer than every earlier mean (the strict `<` keeps the first of equally close means) |
| `Lloyd.FirstNearestUnique` | src/Kmeans.java:98-103 | at most one index is the first nearest mean, so the scan's choice is determined |
| `Lloyd.AssignNearest` | src/Kmeans.java:95-106 | with label equal to index and some finite mean, each point's new label is in 0..k-1 and names a nearest mean, with ties going to the smallest label |
| `Lloyd.Assign` | src/Kmeans.java:95-106 | an assignment pass keeps the number, order and coordinates of the points and changes only their labels |
| `Lloyd.AssignInRange` | src/Kmeans.java:95-106 | after an assignment pass every label is in 0..k-1, if some mean has coordinates or the labels already were in range |
| `Lloyd.AssignIdempotent` | src/Kmeans.java:96-104 | a second assignment pass with the same means changes no label |
| `Lloyd.AssignIgnoresOldLabels` | src/Kmeans.java:96-104 | when some mean has coordinates, the labels chosen depend only on the coordinates and the means, not on the previous labels |
| `Lloyd.Recompute` | src/Kmeans.java:123-129 | recomputation yields exactly `k` means, mean `i` labelled `i` |
| `Lloyd.CountPositive` | src/Kmeans.java:116-121 | a cluster's count is positive exactly when some point carries its label |
| `Lloyd.EmptyClusterIsNaN` | src/Kmeans.java:124-127 | a recomputed mean is NaN exactly when no point carries its label |
| `Lloyd.RecomputeHasFinite` | src/Kmeans.java:116-129 | with at least one point and all labels in 0..k-1, some recomputed mean has coordinates |
| `Lloyd.MeanWithinBox` | src/Kmeans.java:116-129 | a non-empty cluster's recomputed mean (sum over its points divided by their count) lies inside every box containing all of its points |
| `Lloyd.MeanOfCoincidentPoints` | src/Kmeans.java:116-129 | a non-empty cluster whose points all sit at one position has its mean at that position |
| `Lloyd.CheckStop` | src/Kmeans.java:140-149 | the stop test, defined for non-empty lists, holds only when both first means have coordinates |
| `Lloyd.CheckStopFirstEqual` | src/Kmeans.java:141-148 | for first means with coordinates, the test holds exactly when their x and their y are equal |
| `Lloyd.CheckStopReadsOnlyFirst` | src/Kmeans.java:141 | lists that agree at index 0 get the same answer, whatever they hold at indices 1..k-1 |
| `Lloyd.SameMeansStops` | src/Kmeans.java:140-149 | if all means are at the same positions, the test holds |
| `Lloyd.CheckStopMissesOtherMeans` | src/Kmeans.java:141 | there are two lists of means, label equal to index, that differ at index 1 yet pass the test |
| `Lloyd.CheckStopNaNFirst` | src/Kmeans.java:144 | a NaN first mean never passes the test |
| `Lloyd.Run` | src/Kmeans.java:191-202 | the iteration keeps the number of points and `k` means, runs at most `rounds` rounds (at least one when `rounds` > 0), and uses the whole budget unless the stop test ended it |
| `Lloyd.RunStep` | src/Kmeans.java:192-201 | one round: on a stop the relabelled points are kept with the old means; otherwise the run continues from the recomputed means with one round fewer |
| `Lloyd.RunZeroRounds` | src/Kmeans.java:192 | with a budget of zero rounds, points and means stay as they were |
| `Lloyd.RunKeepsShape` | src/Kmeans.java:191-202 | the iteration keeps label equal to index in the means, and keeps the points' order and coordinates |
| `Lloyd.RunLabelsInRange` | src/Kmeans.java:191-202 | after at least one round every point's label is in 0..k-1 |
| `Lloyd.RunFinalMeans` | src/Kmeans.java:197-200 | on a stop, the final means and their recomputation from the final labels pass the stop test; when the budget runs out, the final means are exactly those recomputed from the final labels |
| `Lloyd.StopIsStable` | src/Kmeans.java:191-202 | when a run ends because the stop test held, one more round from the state it ends in keeps every label, keeps the means and stops at once |
| `Lloyd.FixedPointStable` | src/Kmeans.java:191-202 | means that reproduce themselves from their own assignment do so again in the next round |
| `Lloyd.SingleClusterConverges` | src/Kmeans.java:191-202 | with k = 1, a budget of 10 and the corners of the square [0,2]x[0,2], any starting mean in [0,1)x[0,1) moves to (1, 1) and the run stops after 2 rounds |
| `Engine.Kmeans.constructor` | src/Kmeans.java:23-33 | exactly `k` means, the i-th at the i-th pair of draws and labelled `i`, and no data |
| `Engine.Kmeans.LoadData` | src/Kmeans.java:53-75 | each parsed pair is appended, in order, as a new point labelled -1; existing points and the means are unchanged |
| `Engine.Kmeans.UpdateLabel` | src/Kmeans.java:95-106 | only the labels of the data points change, and they become those of `Assign` on the old points and the current means |
| `Engine.Kmeans.NewMeans` | src/Kmeans.java:111-132 | with every label in 0..k-1, the result is `Recompute` of the current points, and nothing is modified |
| `Engine.Kmeans.Round` | src/Kmeans.java:193-201 | one round: labels reassigned, stop result as `CheckStop` of the old and the recomputed means, means replaced unless it holds |
| `Engine.Kmeans.Compute` | src/Kmeans.java:191-202 | the final points, means, number of rounds run and whether the stop test ended the loop are those of `Run` from the initial state with the `rounds` budget |

## Left out

- Reading the data file, splitting lines into tokens, the two-token check, `Double.parseDouble` and the `System.exit` calls (src/Kmeans.java:42-73) are I/O and process control. `LoadData` takes the parsed pairs.
- `printPoints`, `printMeans` and the output at the end of `compute` (src/Kmeans.java:154-186, 204-205) are console output only.
- `main` and `execute` (src/Kmeans.java:214-238) parse the command line. `main` passes `args[0]` as the file path.
- The static `Random` source is a caller-supplied sequence of draws in [0, 1), one pair per mean.
- Floating point: coordinates are exact reals. Rounding, overflow to infinity and NaN or infinite input coordinates are not modelled. NaN arises only from an empty cluster's 0.0/0.0, and the `NaN` centroid stands for it.
- `Points.SqDistance`: there is no real square root in Dafny. The model compares squared distances instead, and `SqrtMonotone` shows that this picks the same mean.
- The duplicated `count_x` and `count_y` arrays are always equal, so `NewMeans` keeps one `count` array.
- `Engine.Kmeans.constructor`: `k` is a `nat`. With a negative `k` the Java constructor builds no means, and the first `newMeans` call throws `NegativeArraySizeException`.
- `Engine.Kmeans.Compute`: requires `k >= 1` when `rounds > 0`. The source throws on `k = 0`: `checkStop` reads index 0 of an empty list, and `newMeans` indexes a size-0 array.
- `Engine.Kmeans.Compute`: when `rounds > 0`, it also requires either some mean with coordinates or all labels in 0..k-1. Otherwise line 117 indexes an array with label -1 and throws.
- `Engine.Kmeans.NewMeans`: requires every label in 0..k-1. A label outside that range is an out-of-bounds array access in the source.
- `Lloyd.CheckStop`: requires both lists non-empty. The source throws `IndexOutOfBoundsException` on an empty list.
- `Engine.Kmeans.Valid`: no data point appears twice in `data`. The source only ever appends fresh points.
- `Points.Point.Labelled`: the source builds its means with the three-argument `Point` constructor. The model keeps that constructor but builds means as immutable `Centroid.Finite` values, so nothing calls it.
- `k` and `rounds` are `const`, because the source never assigns them after construction.
