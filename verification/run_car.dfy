/** The simulation thread of run.py: `RunCar.run` drives a car with a trained
    network one tick at a time until it is stopped, arrives at the ending
    area, collides, or reads a distance that is not a number; `RunCar.stop`
    asks it to stop. The car and the network are abstract functions, the
    thread's signals are an event log, and the moment `stop` lands is a
    parameter. */
module RunCar {
  import opened Wrappers

  datatype Point = Point(x: real, y: real)

  datatype Direction = Front | Left | Right

  /** `radar_dir`: the order the car's radars are read in. */
  const SensedOrder: seq<Direction> := [Front, Left, Right]

  /** The order the network takes its three inputs in. */
  const NetworkOrder: seq<Direction> := [Front, Right, Left]

  /** A radar's distance, as `float(...)` sees it: a number, or a value whose
      conversion raises ValueError. */
  datatype Dist = Num(value: real) | NotNumeric

  /** What `car.dist(d)` returns: the point the radar hits and its distance. */
  datatype Radar = Radar(hit: Point, dist: Dist)

  /** The car as the loop sees it; `C` is the car's hidden state. */
  datatype Car<!C> = Car(
    pos: C -> Point,
    angle: C -> real,
    wheelAngle: C -> real,
    isCollided: C -> bool,
    dist: (C, Direction) -> Radar,
    move: (C, real) -> C)

  /** `rbfn.output(x, antinorm=True)` on a (front, right, left) triple. */
  type Network = (real, real, real) -> real

  /** The thread object: the ending area's left-top and right-bottom corners
      and the `abort` flag. */
  datatype Runner = Runner(endingLt: Point, endingRb: Point, abort: bool)

  datatype Outcome = Aborted | Arrived | Collided | DistanceTypeError

  /** One entry of `results`. */
  datatype Record = Record(
    x: real, y: real,
    frontDist: real, rightDist: real, leftDist: real,
    wheelAngle: real)

  /** The thread's signals, in the order they are emitted. */
  datatype Event =
    | CarPose(pos: Point, angle: real, wheelAngle: real)   // sig_car
    | Dists(pos: Point, hits: seq<Point>, dists: seq<Dist>) // sig_dists
    | Console(text: string)                                 // sig_console
    | CarCollided                                           // sig_car_collided
    | Results(records: seq<Record>)                         // sig_results

  const ArrivedNote := "Note: Car has arrived at the ending area."
  const CollidedNote := "Note: Car has collided."
  const DistErrorNote := "Error: Cannot input the fuzzy system since the distance type error."
  const InterruptWarning := "WARNING: User interrupts running thread."

  /** `RunCar(car, rbfn, ending_area)`: the flag starts lowered. */
  function NewRunner(endingArea: (Point, Point)): (r: Runner)
    ensures !r.abort
    ensures r.endingLt == endingArea.0 && r.endingRb == endingArea.1
  {
    Runner(endingArea.0, endingArea.1, false)
  }

  /** `stop`: warns when the thread is running; the flag is raised either way
      and nothing else changes. */
  function Stop(r: Runner, running: bool): (res: (Runner, seq<Event>))
    ensures res.0.abort
    ensures res.0.(abort := r.abort) == r
    ensures res.1 == if running then [Console(InterruptWarning)] else []
  {
    (r.(abort := true), if running then [Console(InterruptWarning)] else [])
  }

  /** The arrival test: inclusive on both axes, x growing from left-top to
      right-bottom and y shrinking. */
  predicate InGoal(r: Runner, p: Point) {
    r.endingLt.x <= p.x <= r.endingRb.x && r.endingLt.y >= p.y >= r.endingRb.y
  }

  /** The ending area holds some point exactly when its corners are ordered,
      and then it holds both corners. */
  lemma GoalNonEmpty(r: Runner)
    ensures (exists p :: InGoal(r, p)) <==> r.endingLt.x <= r.endingRb.x && r.endingRb.y <= r.endingLt.y
    ensures InGoal(r, r.endingLt) <==> r.endingLt.x <= r.endingRb.x && r.endingRb.y <= r.endingLt.y
    ensures InGoal(r, r.endingRb) <==> r.endingLt.x <= r.endingRb.x && r.endingRb.y <= r.endingLt.y
  {
    if r.endingLt.x <= r.endingRb.x && r.endingRb.y <= r.endingLt.y {
      assert InGoal(r, r.endingLt);
    }
  }

  /** The three radars, in sensed order. */
  function Sense<C>(car: Car<C>, c: C): (radars: seq<Radar>)
    ensures |radars| == 3
    ensures forall j :: 0 <= j < 3 ==> radars[j] == car.dist(c, SensedOrder[j])
  {
    [car.dist(c, Front), car.dist(c, Left), car.dist(c, Right)]
  }

  /** `(dists[0], dists[2], dists[1])`: from sensed order to network order. */
  function ToNetworkOrder<T>(s: seq<T>): (t: seq<T>)
    requires |s| == 3
    ensures |t| == 3
  {
    [s[0], s[2], s[1]]
  }

  /** Reordering puts each direction's reading in that direction's network
      slot; it is a permutation and undoes itself. */
  lemma NetworkOrderPermutes<C>(car: Car<C>, c: C)
    ensures forall j :: 0 <= j < 3 ==> ToNetworkOrder(Sense(car, c))[j] == car.dist(c, NetworkOrder[j])
    ensures multiset(ToNetworkOrder(Sense(car, c))) == multiset(Sense(car, c))
    ensures ToNetworkOrder(ToNetworkOrder(Sense(car, c))) == Sense(car, c)
  {
    var s := Sense(car, c);
    assert s == [s[0]] + [s[1]] + [s[2]];
    assert ToNetworkOrder(s) == [s[0]] + [s[2]] + [s[1]];
  }

  /** `list(map(float, dists))` succeeds. */
  predicate AllNumeric(radars: seq<Radar>) {
    forall j :: 0 <= j < |radars| ==> radars[j].dist.Num?
  }

  /** The reading of one direction; zero stands in for a non-number and is
      never used, because the loop stops before reading one. */
  function Reading<C>(car: Car<C>, c: C, d: Direction): real {
    match car.dist(c, d).dist
    case Num(v) => v
    case NotNumeric => 0.0
  }

  /** The wheel angle the network commands for the car's readings. */
  function Command<C>(car: Car<C>, net: Network, c: C): real {
    net(Reading(car, c, Front), Reading(car, c, Right), Reading(car, c, Left))
  }

  /** The record a tick that moves the car appends. */
  function RecordOf<C>(car: Car<C>, net: Network, c: C): Record {
    Record(car.pos(c).x, car.pos(c).y,
           Reading(car, c, Front), Reading(car, c, Right), Reading(car, c, Left),
           Command(car, net, c))
  }

  /** The outcome a tick ends the run with, if it does, by the checks' order:
      stop request, arrival, collision, distance type. */
  function Verdict<C>(car: Car<C>, r: Runner, c: C): Option<Outcome> {
    if r.abort then Some(Aborted)
    else if InGoal(r, car.pos(c)) then Some(Arrived)
    else if car.isCollided(c) then Some(Collided)
    else if !AllNumeric(Sense(car, c)) then Some(DistanceTypeError)
    else None
  }

  datatype TickResult<C> =
    | Halt(outcome: Outcome, runner: Runner, events: seq<Event>)
    | Go(record: Record, wheel: real, next: C, events: seq<Event>)

  /** One pass through the body of the `while True` loop. */
  function Tick<C>(car: Car<C>, net: Network, r: Runner, c: C): (t: TickResult<C>)
    ensures r.abort ==> t == Halt(Aborted, r, [])
    ensures t.Halt? ==> t.runner == r.(abort := true)
    ensures t.Halt? <==> Verdict(car, r, c).Some?
    ensures t.Halt? ==> t.outcome == Verdict(car, r, c).value
    ensures t.Go? ==> t.next == car.move(c, t.wheel) && t.record.wheelAngle == t.wheel
    ensures t.Go? ==> t.record == RecordOf(car, net, c)
    ensures CarCollided in t.events <==> t.Halt? && t.outcome == Collided
    ensures forall e :: e in t.events ==> !e.Results?
    ensures !r.abort ==> |t.events| >= 2 && t.events[..2] == [
      CarPose(car.pos(c), car.angle(c), car.wheelAngle(c)),
      Dists(car.pos(c),
            [car.dist(c, Front).hit, car.dist(c, Left).hit, car.dist(c, Right).hit],
            [car.dist(c, Front).dist, car.dist(c, Left).dist, car.dist(c, Right).dist])]
  {
    if r.abort then Halt(Aborted, r, [])
    else
      var radars := Sense(car, c);
      var pos := car.pos(c);
      var emitted := [
        CarPose(pos, car.angle(c), car.wheelAngle(c)),
        Dists(pos, [radars[0].hit, radars[1].hit, radars[2].hit],
                   [radars[0].dist, radars[1].dist, radars[2].dist])];
      if InGoal(r, pos) then
        Halt(Arrived, r.(abort := true), emitted + [Console(ArrivedNote)])
      else if car.isCollided(c) then
        Halt(Collided, r.(abort := true), emitted + [Console(CollidedNote), CarCollided])
      else if !AllNumeric(radars) then
        Halt(DistanceTypeError, r.(abort := true), emitted + [Console(DistErrorNote)])
      else
        var dists := [radars[0].dist.value, radars[1].dist.value, radars[2].dist.value];
        var input := ToNetworkOrder(dists);
        var wheel := net(input[0], input[1], input[2]);
        var record := Record(pos.x, pos.y, radars[0].dist.value, radars[2].dist.value,
                             radars[1].dist.value, wheel);
        Go(record, wheel, car.move(c, wheel), emitted)
  }

  /** A whole run: the final outcome, thread object and car state, the
      results list, the wheel angles passed to `car.move`, and every signal
      emitted. */
  datatype RunResult<C> = RunResult(
    outcome: Outcome, runner: Runner, car: C,
    records: seq<Record>, moves: seq<real>, events: seq<Event>)

  /** The loop from tick `k` on, where `stop` lands at the top of tick
      `stopAt`; the result's records, moves and events are those of ticks
      `k` onward, without the closing `sig_results`. */
  function Loop<C>(car: Car<C>, net: Network, r: Runner, stopAt: nat, k: nat, c: C): (res: RunResult<C>)
    requires k <= stopAt
    ensures res.runner.abort
    ensures res.runner.(abort := r.abort) == r
    ensures |res.records| == |res.moves| <= stopAt - k
    ensures forall j :: 0 <= j < |res.moves| ==> res.records[j].wheelAngle == res.moves[j]
    ensures CarCollided in res.events <==> res.outcome == Collided
    ensures forall e :: e in res.events ==> !e.Results?
    ensures r.abort ==> res.outcome == Aborted && res.moves == []
    decreases stopAt - k
  {
    var (r1, warned) := if k == stopAt then Stop(r, true) else (r, []);
    match Tick(car, net, r1, c)
    case Halt(o, r2, ev) =>
      RunResult(o, r2, c, [], [], warned + ev)
    case Go(rec, wheel, next, ev) =>
      var rest := Loop(car, net, r1, stopAt, k + 1, next);
      RunResult(rest.outcome, rest.runner, rest.car,
                [rec] + rest.records, [wheel] + rest.moves, warned + ev + rest.events)
  }

  /** `RunCar.run`: the loop, then the results list emitted once. */
  function Run<C>(car: Car<C>, net: Network, r: Runner, stopAt: nat, c: C): (res: RunResult<C>)
    ensures res.runner.abort
    ensures res.runner.(abort := r.abort) == r
    ensures |res.records| == |res.moves| <= stopAt
    ensures forall j :: 0 <= j < |res.moves| ==> res.records[j].wheelAngle == res.moves[j]
    ensures |res.events| > 0 && res.events[|res.events| - 1] == Results(res.records)
    ensures forall j :: 0 <= j < |res.events| - 1 ==> !res.events[j].Results?
    ensures CarCollided in res.events <==> res.outcome == Collided
    ensures r.abort ==> res.outcome == Aborted && res.moves == []
  {
    var l := Loop(car, net, r, stopAt, 0, c);
    var events := l.events + [Results(l.records)];
    assert forall j :: 0 <= j < |events| - 1 ==> events[j] in l.events;
    l.(events := events)
  }

  /** The car after `n` moves, each by the wheel angle the network commands. */
  function Drive<C>(car: Car<C>, net: Network, c: C, n: nat): C
    decreases n
  {
    if n == 0 then c else Drive(car, net, car.move(c, Command(car, net, c)), n - 1)
  }

  /** The runner as seen at the top of tick `k` (counted from the start). */
  function SeenAt(r: Runner, stopAt: nat, k: nat): Runner {
    if k >= stopAt then r.(abort := true) else r
  }

  /** The loop from tick `k` steps the car along `Drive` and ends with the
      verdict of the state it stopped in. */
  lemma {:induction false} LoopEndsOnDrive<C>(car: Car<C>, net: Network, r: Runner, stopAt: nat, k: nat, c: C)
    requires k <= stopAt
    requires k < stopAt ==> !r.abort
    ensures var res := Loop(car, net, r, stopAt, k, c);
      && res.car == Drive(car, net, c, |res.moves|)
      && Verdict(car, SeenAt(r, stopAt, k + |res.moves|), res.car) == Some(res.outcome)
    decreases stopAt - k
  {
    var res := Loop(car, net, r, stopAt, k, c);
    var r1 := if k == stopAt then Stop(r, true).0 else r;
    assert r1 == SeenAt(r, stopAt, k);
    var t := Tick(car, net, r1, c);
    if t.Halt? {
      assert res.moves == [] && res.car == c;
    } else {
      assert r1 == r;
      var next := t.next;
      assert t.wheel == Command(car, net, c);
      LoopEndsOnDrive(car, net, r, stopAt, k + 1, next);
      var rest := Loop(car, net, r, stopAt, k + 1, next);
      var m := |rest.moves|;
      assert res.moves == [t.wheel] + rest.moves;
      assert res.car == rest.car == Drive(car, net, next, m) == Drive(car, net, c, m + 1);
      assert k + |res.moves| == (k + 1) + m;
    }
  }

  /** The car after each controlled move, as a sequence: the records of the
      first `n` states of the trajectory from `c`. */
  function Trail<C>(car: Car<C>, net: Network, c: C, n: nat): (rs: seq<Record>)
    ensures |rs| == n
    decreases n
  {
    if n == 0 then [] else [RecordOf(car, net, c)] + Trail(car, net, car.move(c, Command(car, net, c)), n - 1)
  }

  /** The wheel angles commanded in the first `n` states of the trajectory. */
  function Commands<C>(car: Car<C>, net: Network, c: C, n: nat): (ws: seq<real>)
    ensures |ws| == n
    decreases n
  {
    if n == 0 then [] else [Command(car, net, c)] + Commands(car, net, car.move(c, Command(car, net, c)), n - 1)
  }

  /** The first `n` states of the trajectory pass all four checks. */
  predicate Proceeds<C>(car: Car<C>, net: Network, r: Runner, c: C, n: nat)
    decreases n
  {
    n == 0 || (Verdict(car, r, c) == None && Proceeds(car, net, r, car.move(c, Command(car, net, c)), n - 1))
  }

  /** `Trail`, `Commands` and `Proceeds` read state by state along `Drive`. */
  lemma {:induction false} TrailAt<C>(car: Car<C>, net: Network, r: Runner, c: C, n: nat, i: nat)
    requires i < n
    ensures Trail(car, net, c, n)[i] == RecordOf(car, net, Drive(car, net, c, i))
    ensures Commands(car, net, c, n)[i] == Command(car, net, Drive(car, net, c, i))
    ensures Proceeds(car, net, r, c, n) ==> Verdict(car, r, Drive(car, net, c, i)) == None
    decreases i
  {
    if i > 0 {
      TrailAt(car, net, r, car.move(c, Command(car, net, c)), n - 1, i - 1);
    }
  }

  /** The loop's records and moves are those of the trajectory, every state
      of which passed all four checks. */
  lemma {:induction false} LoopRecordsDrive<C>(car: Car<C>, net: Network, r: Runner, stopAt: nat, k: nat, c: C)
    requires k <= stopAt
    requires k < stopAt ==> !r.abort
    ensures var res := Loop(car, net, r, stopAt, k, c);
      && res.records == Trail(car, net, c, |res.moves|)
      && res.moves == Commands(car, net, c, |res.moves|)
      && Proceeds(car, net, r, c, |res.moves|)
    decreases stopAt - k
  {
    var res := Loop(car, net, r, stopAt, k, c);
    var r1 := if k == stopAt then Stop(r, true).0 else r;
    var t := Tick(car, net, r1, c);
    if t.Go? {
      assert r1 == r;
      var next := t.next;
      assert t.wheel == Command(car, net, c);
      LoopRecordsDrive(car, net, r, stopAt, k + 1, next);
      var rest := Loop(car, net, r, stopAt, k + 1, next);
      assert res.records == [t.record] + rest.records && res.moves == [t.wheel] + rest.moves;
    }
  }

  /** The whole run, described without the loop: with `n` the number of
      moves, ticks 0 to n-1 saw no stop request, no arrival, no collision and
      only numbers, recorded the car's position, its front, right and left
      distances and the network's command, and moved by that command; tick
      n ended the run by the first check that failed there. */
  lemma RunFollowsDrive<C>(car: Car<C>, net: Network, r: Runner, stopAt: nat, c: C)
    ensures var res := Run(car, net, r, stopAt, c);
      var n := |res.moves|;
      && n <= stopAt
      && res.car == Drive(car, net, c, n)
      && Verdict(car, SeenAt(r, stopAt, n), res.car) == Some(res.outcome)
      && forall i :: 0 <= i < n ==>
           && i < stopAt
           && Verdict(car, r, Drive(car, net, c, i)) == None
           && res.records[i] == RecordOf(car, net, Drive(car, net, c, i))
           && res.moves[i] == Command(car, net, Drive(car, net, c, i))
  {
    if r.abort {
      return;
    }
    LoopEndsOnDrive(car, net, r, stopAt, 0, c);
    LoopRecordsDrive(car, net, r, stopAt, 0, c);
    var res := Run(car, net, r, stopAt, c);
    forall i | 0 <= i < |res.moves|
      ensures Verdict(car, r, Drive(car, net, c, i)) == None
      ensures res.records[i] == RecordOf(car, net, Drive(car, net, c, i))
      ensures res.moves[i] == Command(car, net, Drive(car, net, c, i))
    {
      TrailAt(car, net, r, c, |res.moves|, i);
    }
  }

  /** A thread stopped before it starts aborts at its first tick: it moves
      the car not at all, records nothing, and emits only the empty results
      list, preceded by the interrupt warning when a second stop lands at
      that very tick. */
  lemma StoppedRunDoesNothing<C>(car: Car<C>, net: Network, r: Runner, running: bool, stopAt: nat, c: C)
    ensures var res := Run(car, net, Stop(r, running).0, stopAt, c);
      && res.outcome == Aborted
      && res.moves == [] && res.records == []
      && res.car == c
      && res.events == (if stopAt == 0 then [Console(InterruptWarning)] else []) + [Results([])]
  {
    var r1 := Stop(r, running).0;
    var seen := if stopAt == 0 then Stop(r1, true).0 else r1;
    assert Tick(car, net, seen, c) == Halt(Aborted, seen, []);
  }

  /** A tick in the ending area arrives even when the car has also collided:
      arrival is checked before collision. */
  lemma ArrivalBeatsCollision<C>(car: Car<C>, net: Network, r: Runner, c: C)
    requires !r.abort && InGoal(r, car.pos(c)) && car.isCollided(c)
    ensures Tick(car, net, r, c).Halt? && Tick(car, net, r, c).outcome == Arrived
    ensures CarCollided !in Tick(car, net, r, c).events
  {
  }
}
