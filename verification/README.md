# pso-car: simulation loop, data loading and input range, in Dafny

This project models the sequential logic around the particle-swarm-trained
car controller of pso-car:

- `RunCar` (run.py): the simulation thread. Each tick checks, in this order,
  the stop flag, arrival in the ending area, collision, and whether the three
  radar distances are numbers; otherwise it asks the network for a wheel
  angle on the (front, right, left) readings, appends a result record and
  moves the car. The car and the trained network are abstract functions over
  a hidden car state; the Qt signals become an event log the run returns;
  the moment `stop` is called becomes a parameter `stopAt`, the tick at
  whose top the raised flag is first seen.
- `Loading` (main.py): `read_maps` and `read_training_datasets` from rows
  already split and converted to numbers: the map record built by fixed row
  indexing, the dataset line split into inputs and target, the per-stem
  dictionary and its sorted copy. `Dicts` models the Python dictionary as an
  insertion-ordered association list and `sorted(d.items())` as an insertion
  sort on keys; `StringOrder` is Python's `<` on strings. `Wrappers` holds the
  Option type and the Result type standing for "returns or raises".
- `Normalisation` (training_panel.py): `mean_range`, the smallest and
  largest input value over a dataset.

Notes on the code:

- The arrival test is `lt.x <= x <= rb.x` and `lt.y >= y >= rb.y`, so the
  "left-top" corner has the larger y.
- The distance check only asks whether `float()` accepts each distance, so
  infinities and NaN pass it.
- The readings are sensed and signalled in the order front, left, right, and
  reordered to front, right, left only for the network and the record.

## Model

| member | source | states |
|---|---|---|
| RunCar.NewRunner | run.py:13-20 | a new thread object starts with the abort flag lowered and the ending area's left-top and right-bottom corners as given |
| RunCar.Stop | run.py:72-77 | stop raises the abort flag whether or not the thread runs, changes nothing else, and warns on the console exactly when it runs |
| RunCar.GoalNonEmpty | run.py:35-36 | the inclusive ending area contains some point exactly when its corners are ordered (lt.x <= rb.x, rb.y <= lt.y), and then contains both corners |
| RunCar.NetworkOrderPermutes | run.py:48-58 | the network input puts the front, right and left readings in its three slots; the reordering is a permutation of the sensed triple and its own inverse |
| RunCar.Tick | run.py:26-69 | a raised flag ends the tick before any signal; otherwise the tick halts exactly when arrival, collision or a non-number is found, in that priority, raising the flag; a moving tick records the car's position, front/right/left distances and the commanded angle and moves by that same angle; the collision signal is emitted exactly on collision; every tick not aborted first emits the car's pose and then its hit points and distances in the order front, left, right |
| RunCar.Loop | run.py:26-69 | the loop always ends with the flag raised and the goal unchanged, makes at most one move per tick before the stop lands, appends one record per move whose wheel angle is that move's, and emits no result list itself |
| RunCar.Run | run.py:23-70 | the result list is emitted exactly once, as the last signal, and equals the records; records and `car.move` calls are equally many and pair up by wheel angle; a runner whose flag is raised before starting aborts without moving; the collision signal appears exactly when the outcome is a collision |
| RunCar.LoopEndsOnDrive | run.py:26-69 | from any tick, the car the loop stops with is the controlled trajectory's state after the moves made, and the outcome is the first failing check (stop flag, arrival, collision, distance type) on that state |
| RunCar.LoopRecordsDrive | run.py:35-69 | from any tick, the records and `car.move` arguments are those of the successive trajectory states, every one of which passed all four checks |
| RunCar.TrailAt | run.py:57-69 | the trajectory's n-th record holds the n-th state's position, its front, right and left distances and the network's command on (front, right, left), which is the angle it moves by |
| RunCar.RunFollowsDrive | run.py:23-70 | a whole run, from any thread object, described without the loop: the n moving ticks precede the stop request, pass every check, record the car's state along its trajectory and move by the network's command; tick n ends the run by the first failing check |
| RunCar.StoppedRunDoesNothing | run.py:26-28 | a thread stopped before its loop starts aborts at the first tick without moving the car, recording anything or emitting any signal but the empty results list (after the interrupt warning when a second stop lands at that tick) |
| RunCar.ArrivalBeatsCollision | run.py:35-46 | a car inside the ending area arrives even when it has also collided, and no collision signal is emitted |
| Loading.BuildMap | main.py:44-50 | a map reads exactly when it has at least three rows and row 0 at least three fields (IndexError otherwise); the start position and angle are the first three fields of row 0, the ending corners are rows 1 and 2, the route edge the remaining rows in order |
| Loading.BuildMapRows | main.py:44-50 | every map record is read back unchanged from the rows it is written as |
| Loading.MapRowsBuildMap | main.py:45-49 | writing back a read map gives the same rows exactly when row 0 had three fields; further fields of row 0 are dropped |
| Loading.SplitExample | main.py:61-62 | a dataset line splits into inputs and target exactly when it is non-empty; inputs followed by the target give the line back |
| Loading.SplitJoin | main.py:61-62 | splitting the line an example is written as gives the example back |
| Loading.ReadDataset | main.py:58-63 | a dataset file reads exactly when no line is empty; then it has one example per line, in line order, each re-joining to its line |
| Loading.Collect | main.py:38-50 | the per-file loop succeeds exactly when every file reads, fails with the exception of some file otherwise, and builds a dictionary without repeated stems |
| Loading.CollectLookup | main.py:40-50 | after the per-file loop each stem holds what its last file built and other keys keep their values |
| Loading.Load | main.py:38-51 | the returned collection succeeds exactly when every file reads and has strictly ascending, distinct keys |
| Loading.LoadLookup | main.py:38-51 | after sorting, each stem holds what its last file built and no key other than a file stem is present |
| Loading.ReadMaps | main.py:34-51 | reading maps fails with IndexError exactly when some file has fewer than three rows or a row 0 shorter than three fields; the result's keys ascend |
| Loading.ReadTrainingDatasets | main.py:54-64 | reading datasets fails with IndexError exactly when some file has an empty line; the result's keys ascend |
| Dicts.Assign | main.py:44 | assigning a new stem appends it, assigning an existing stem keeps its position; keys stay distinct |
| Dicts.AssignLookup | main.py:44 | after assignment the stem maps to the new value and every other key keeps its value |
| Dicts.SortItems | main.py:51 | sorting the items gives strictly ascending keys and a permutation of the items |
| Dicts.SortItemsSameEntries | main.py:51 | the sorted collection holds exactly the dictionary's key/value pairs, so every lookup answers as before |
| StringOrder.BelowTotal | main.py:51 | distinct stems are always ordered one way or the other by Python's string comparison |
| StringOrder.BelowTransitive | main.py:51 | Python's string comparison is transitive |
| Normalisation.Min | training_panel.py:213 | `min` of a non-empty sequence is one of its elements and at most every element |
| Normalisation.Max | training_panel.py:214 | `max` of a non-empty sequence is one of its elements and at least every element |
| Normalisation.LowestInput | training_panel.py:213 | the lower bound is at most every input value of every example and is some example's input value |
| Normalisation.HighestInput | training_panel.py:214 | the upper bound is at least every input value of every example and is some example's input value |
| Normalisation.MeanRange | training_panel.py:213-214 | the range exists exactly when the dataset and every input vector are non-empty (ValueError otherwise); it bounds every input, both ends are attained, and lower <= upper |
| Normalisation.MeanRangeTightest | training_panel.py:213-214 | the range is contained in every interval that holds all inputs |

## Left out

- Qt threading and pacing: `QThread`, `pyqtSlot`, `time.sleep(1 / fps)` and the `fps` argument are not modelled; signals are an event log returned by the run.
- A call to `stop` is modelled as landing at a tick boundary (`stopAt`). A call landing during tick k has the same effect on the loop, which only reads the flag at the top of a tick, so it is modelled as `stopAt = k + 1`. But if tick k then ends the run by arrival, collision or a bad distance, the source has already emitted the interrupt warning (the thread was running, run.py:74-75), while the model never reaches tick k + 1 and emits no warning; and when the run does go on, the real warning may interleave with tick k's signals rather than precede tick k + 1's.
- RunCar.NewRunner: the ending-area corners are (x, y) points; the source's default `ending_area=None` raises TypeError (run.py:18), and a corner with fewer than two fields (which `read_maps` stores as given, main.py:47-48) raises IndexError in the arrival test (run.py:35-36) after that tick's pose and distance signals, ending the thread without `sig_results`. Neither error path is modelled.
- RunCar.Run: a run that is never stopped and never arrives, collides or misreads a distance does not terminate in the source; the model only covers runs that end by tick `stopAt`, which may be any number.
- The internals of `car.dist`, `car.move`, `car.is_collided`, `car.pos`, `car.angle`, `car.wheel_angle` and `rbfn.output` (with its antinorm) are not part of this model; they are abstract functions. The first component of a radar reading is taken to be the hit point.
- `float()` on a distance is modelled as succeeding or raising ValueError; a value raising another exception (a TypeError, say) would escape the loop and is not modelled. The source's record holds the unconverted `radars[i][1]` values (run.py:63-65) while the network gets the `float()` results (run.py:50, 57); the model records the converted numbers, which are the same values whenever the radar already returns a float.
- Floating point (rounding, NaN, infinities) is not modelled: coordinates, distances and inputs are reals.
- File globbing, opening and the `float()`/`split` parsing in main.py are not modelled; files arrive as (stem, rows) pairs in glob order, with rows already numeric.
- The network construction from `mean_range` (`RBFN(...)`) and the rest of `__run` are not modelled: the RBFN module is not part of this model.
- Widget construction and enable/disable slots of the training panel, the commented-out GA wiring, `main()` and `multiprocessing.freeze_support` are user interface and start-up code.
