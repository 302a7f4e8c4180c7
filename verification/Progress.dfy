/** Once publishing stops, the workers' read and claim loops settle every entry. */
module Progress {
  import opened Wrappers
  import opened Events
  import opened Bus
  import opened WorkerProtocol
  import opened Delivery

  predicate HeldBy(workers: seq<Worker>, id: nat) {
    exists w :: 0 <= w < |workers| && id in workers[w].batch
  }

  /** Steps that cost budget: crashes, infrastructure failures, and claims that
      take a message out of a live worker's hands. */
  predicate Costly(s: State, a: Action) {
    match a
    case Read(_, fault) => !fault.Fine?
    case Claim(ids, fault) => !fault.Fine? || exists id | id in ids :: HeldBy(s.workers, id)
    case Judge => false
    case Upsert(_, fault) => !fault.Fine?
    case AckStored(fault) => !fault.Fine?
    case Park(fault) => !fault.Fine?
    case AckParked(fault) => !fault.Fine?
    case Crash => true
  }

  // ---- the measure -----------------------------------------------------------------

  function Rank(pc: Pc): nat {
    match pc
    case Ready => 0
    case Judging => 5
    case Upserting => 4
    case AckingStored => 3
    case Parking(_) => 2
    case AckingParked => 1
  }

  function Load(me: Worker): nat {
    if me.batch == [] then 0 else 6 * (|me.batch| - 1) + Rank(me.pc)
  }

  function TotalLoad(workers: seq<Worker>): nat {
    if workers == [] then 0 else Load(workers[0]) + TotalLoad(workers[1..])
  }

  /** Pending entries that no live worker holds. */
  ghost function Orphans(s: State): set<nat> {
    set id | id in s.bus.pending && !HeldBy(s.workers, id)
  }

  datatype Measure = Measure(budget: nat, undelivered: nat, orphans: nat, load: nat)

  ghost function MeasureOf(s: State, budget: nat): Measure
    requires s.bus.cursor <= |s.bus.log|
  {
    Measure(budget, Undelivered(s.bus), |Orphans(s)|, TotalLoad(s.workers))
  }

  predicate Less(a: Measure, b: Measure) {
    a.budget < b.budget || (a.budget == b.budget &&
      (a.undelivered < b.undelivered || (a.undelivered == b.undelivered &&
        (a.orphans < b.orphans || (a.orphans == b.orphans && a.load < b.load)))))
  }

  /** What a step leaves of the budget. */
  predicate Affordable(s: State, a: Action, budget: nat) { Costly(s, a) ==> budget > 0 }

  function Left(s: State, a: Action, budget: nat): nat
    requires Affordable(s, a, budget)
  {
    if Costly(s, a) then budget - 1 else budget
  }

  lemma {:induction false} LoadUpdate(workers: seq<Worker>, w: nat, me: Worker)
    requires w < |workers|
    ensures TotalLoad(workers[w := me]) == TotalLoad(workers) - Load(workers[w]) + Load(me)
  {
    if w == 0 {
      assert workers[0 := me][1..] == workers[1..];
    } else {
      LoadUpdate(workers[1..], w - 1, me);
      assert workers[w := me][1..] == workers[1..][w - 1 := me];
    }
  }

  lemma HeldAfter(workers: seq<Worker>, w: nat, me: Worker, id: nat)
    requires w < |workers|
    ensures HeldBy(workers[w := me], id) ==> HeldBy(workers, id) || id in me.batch
    ensures HeldBy(workers, id) ==> HeldBy(workers[w := me], id) || id in workers[w].batch
    ensures id in me.batch ==> HeldBy(workers[w := me], id)
  {
    var all := workers[w := me];
    if id in me.batch { assert id in all[w].batch; }
    if HeldBy(workers, id) {
      var x :| 0 <= x < |workers| && id in workers[x].batch;
      assert x != w ==> all[x] == workers[x];
    }
    if HeldBy(all, id) {
      var x :| 0 <= x < |all| && id in all[x].batch;
      assert x != w ==> all[x] == workers[x];
    }
  }

  /** A clean claim turns orphans into held messages. */
  lemma ClaimShrinks(c: Setup, s: State, w: nat, a: Action)
    requires Enabled(c, s, Work(w, a)) && a.Claim? && !Costly(s, a)
    requires LocalInv(s.bus, s.table, s.workers[w])
    ensures Orphans(Apply(c, s, Work(w, a))) < Orphans(s)
  {
    var s' := Apply(c, s, Work(w, a));
    forall id | id in Orphans(s') ensures id in Orphans(s) {
      HeldAfter(s.workers, w, s'.workers[w], id);
      assert id in a.ids ==> HeldBy(s'.workers, id);
    }
    var x := a.ids[0];
    assert x in a.ids && x in s.bus.pending && !HeldBy(s.workers, x);
    HeldAfter(s.workers, w, s'.workers[w], x);
    assert x in Orphans(s) && x !in Orphans(s');
  }

  /** Handling a message creates no orphan: it leaves a batch only when acked. */
  lemma HandlingKeeps(c: Setup, s: State, w: nat, a: Action)
    requires Enabled(c, s, Work(w, a)) && !Costly(s, a) && !a.Claim? && !a.Read?
    ensures Orphans(Apply(c, s, Work(w, a))) <= Orphans(s)
    ensures Undelivered(Apply(c, s, Work(w, a)).bus) == Undelivered(s.bus)
    ensures Load(Apply(c, s, Work(w, a)).workers[w]) < Load(s.workers[w])
  {
    var s' := Apply(c, s, Work(w, a));
    var before := s.workers[w];
    var head := before.batch[0];
    assert before.batch == [head] + before.batch[1..];
    assert forall id :: id in before.batch ==> id in s'.workers[w].batch || id == head;
    forall id | id in Orphans(s') ensures id in Orphans(s) {
      HeldAfter(s.workers, w, s'.workers[w], id);
    }
  }

  /** A clean step keeps the budget and lowers the rest of the measure. */
  lemma CleanStepDecreases(c: Setup, s: State, w: nat, a: Action, budget: nat)
    requires Inv(c, s) && Enabled(c, s, Work(w, a)) && !Costly(s, a)
    requires Apply(c, s, Work(w, a)).bus.cursor <= |Apply(c, s, Work(w, a)).bus.log|
    ensures Less(MeasureOf(Apply(c, s, Work(w, a)), budget), MeasureOf(s, budget))
  {
    var s' := Apply(c, s, Work(w, a));
    if a.Claim? {
      assert LocalInv(s.bus, s.table, s.workers[w]);
      ClaimShrinks(c, s, w, a);
      SubsetSize(Orphans(s'), Orphans(s));
    } else if !a.Read? {
      HandlingKeeps(c, s, w, a);
      SubsetSize(Orphans(s'), Orphans(s));
      LoadUpdate(s.workers, w, s'.workers[w]);
    }
  }

  /** Every affordable step of a worker decreases the lexicographic measure. */
  lemma StepDecreases(c: Setup, s: State, w: nat, a: Action, budget: nat)
    requires Inv(c, s) && Enabled(c, s, Work(w, a)) && Affordable(s, a, budget)
    ensures var s' := Apply(c, s, Work(w, a));
      s'.bus.cursor <= |s'.bus.log| && Less(MeasureOf(s', Left(s, a, budget)), MeasureOf(s, budget))
  {
    StepKeeps(c, s, Work(w, a));
    if !Costly(s, a) { CleanStepDecreases(c, s, w, a, budget); }
  }

  // ---- the loops never get stuck before everything is settled -------------------------

  /** The await a worker stands at, with a clean outcome. */
  function Resume(pc: Pc): Action {
    match pc
    case Ready => Crash
    case Judging => Judge
    case Upserting => Upsert(0, Fine)
    case AckingStored => AckStored(Fine)
    case Parking(_) => Park(Fine)
    case AckingParked => AckParked(Fine)
  }

  /** Unless everything is settled, some worker can go on without a failure: it
      handles its message, or reads, or with nothing to read claims an orphan. */
  lemma CanGoOn(c: Setup, s: State) returns (w: nat, a: Action)
    requires Inv(c, s) && s.workers != [] && !Settled(s)
    ensures Enabled(c, s, Work(w, a)) && !Costly(s, a)
    ensures a.Claim? ==> Undelivered(s.bus) == 0 && forall id :: !HeldBy(s.workers, id)
  {
    if x :| 0 <= x < |s.workers| && s.workers[x].batch != [] {
      w, a := x, Resume(s.workers[x].pc);
      assert LocalInv(s.bus, s.table, s.workers[x]);
    } else {
      w := 0;
      assert LocalInv(s.bus, s.table, s.workers[0]);
      if s.bus.cursor < |s.bus.log| {
        a := Read(1, Fine);
      } else {
        var id :| id in s.bus.pending;
        a := Claim([id], Fine);
      }
    }
  }

  /** No worker can go on without a failure. */
  ghost predicate AtRest(c: Setup, s: State) {
    forall w: nat, a: Action :: Enabled(c, s, Work(w, a)) ==> Costly(s, a)
  }

  /** A worker with a message in hand can go on. */
  lemma BusyGoesOn(c: Setup, s: State, w: nat)
    requires Inv(c, s) && w < |s.workers| && s.workers[w].batch != []
    ensures Enabled(c, s, Work(w, Resume(s.workers[w].pc))) && !Costly(s, Resume(s.workers[w].pc))
  {
    assert LocalInv(s.bus, s.table, s.workers[w]);
  }

  lemma IdleStaysIdle(c: Setup, s: State, w: nat, a: Action)
    requires Inv(c, s) && Settled(s) && w < |s.workers| && s.workers[w].batch == []
    ensures Enabled(c, s, Work(w, a)) ==> a.Crash?
  {
    assert LocalInv(s.bus, s.table, s.workers[w]);
    if a.Claim? && a.ids != [] { assert a.ids[0] !in s.bus.pending; }
  }

  /** In every reachable state: no worker can take a step without cost exactly when
      every entry is settled and no worker holds a message. */
  lemma RestIffSettled(c: Setup, s: State)
    requires Inv(c, s) && s.workers != []
    ensures AtRest(c, s) <==> Settled(s) && forall w | 0 <= w < |s.workers| :: s.workers[w].batch == []
  {
    if AtRest(c, s) {
      if !Settled(s) { var w, a := CanGoOn(c, s); }
      forall w | 0 <= w < |s.workers| ensures s.workers[w].batch == [] {
        if s.workers[w].batch != [] { BusyGoesOn(c, s, w); }
      }
    } else {
      var w: nat, a :| Enabled(c, s, Work(w, a)) && !Costly(s, a);
      if Settled(s) && s.workers[w].batch == [] { IdleStaysIdle(c, s, w, a); }
    }
  }

  /** Whatever failures a worker schedule met, if it ends where no worker can take a step
      without cost, every entry is settled. */
  lemma EndsSettled(c: Setup, s: State, steps: seq<Step>)
    requires Inv(c, s) && s.workers != [] && Legal(c, s, steps)
    requires forall k | 0 <= k < |steps| :: steps[k].Work?
    requires AtRest(c, Exec(c, s, steps))
    ensures Settled(Exec(c, s, steps))
  {
    RunKeeps(c, s, steps);
    SameWorkers(c, s, steps);
    RestIffSettled(c, Exec(c, s, steps));
  }

  lemma {:induction false} SameWorkers(c: Setup, s: State, steps: seq<Step>)
    requires Legal(c, s, steps)
    ensures |Exec(c, s, steps).workers| == |s.workers|
    decreases |steps|
  {
    if steps != [] { SameWorkers(c, Apply(c, s, steps[0]), steps[1..]); }
  }

  /** The state after one more clean step. */
  lemma GoOn(c: Setup, s: State) returns (step: Step, s': State)
    requires Inv(c, s) && s.workers != [] && !Settled(s)
    ensures step.Work? && Enabled(c, s, step) && s' == Apply(c, s, step)
    ensures Inv(c, s') && s'.workers != [] && Less(MeasureOf(s', 0), MeasureOf(s, 0))
  {
    var w, a := CanGoOn(c, s);
    step, s' := Work(w, a), Apply(c, s, Work(w, a));
    StepDecreases(c, s, w, a, 0);
    StepKeeps(c, s, step);
  }

  lemma RunFrom(c: Setup, s: State, step: Step, rest: seq<Step>)
    requires Enabled(c, s, step) && Legal(c, Apply(c, s, step), rest)
    ensures Legal(c, s, [step] + rest) && Exec(c, s, [step] + rest) == Exec(c, Apply(c, s, step), rest)
  {
    assert ([step] + rest)[1..] == rest;
  }

  /** From every reachable state the workers can settle everything, by clean steps
      alone. */
  lemma {:induction false} CanSettle(c: Setup, s: State) returns (steps: seq<Step>)
    requires Inv(c, s) && s.workers != []
    ensures Legal(c, s, steps) && Settled(Exec(c, s, steps))
    ensures forall k | 0 <= k < |steps| :: steps[k].Work?
    decreases Undelivered(s.bus), |Orphans(s)|, TotalLoad(s.workers)
  {
    if Settled(s) {
      steps := [];
    } else {
      var step, s' := GoOn(c, s);
      var rest := CanSettle(c, s');
      RunFrom(c, s, step, rest);
      steps := [step] + rest;
    }
  }

  /** One point of an endless schedule: the state, the budget, the step taken. */
  datatype Point = Point(s: State, budget: nat, w: nat, a: Action)

  ghost predicate Follows(c: Setup, now: Point, next: Point) {
    && Enabled(c, now.s, Work(now.w, now.a)) && Affordable(now.s, now.a, now.budget)
    && next.s == Apply(c, now.s, Work(now.w, now.a)) && next.budget == Left(now.s, now.a, now.budget)
  }

  /** Point k + 1 of the schedule follows point k. */
  ghost predicate GoesOn(c: Setup, run: nat -> Point, k: nat) { Follows(c, run(k), run(k + 1)) }

  lemma FollowsDecreases(c: Setup, now: Point, next: Point)
    requires Inv(c, now.s) && Follows(c, now, next)
    ensures Inv(c, next.s) && Less(MeasureOf(next.s, next.budget), MeasureOf(now.s, now.budget))
  {
    StepDecreases(c, now.s, now.w, now.a, now.budget);
    StepKeeps(c, now.s, Work(now.w, now.a));
  }

  lemma {:induction false} NoDescent(m: nat -> Measure, i: nat) returns (j: nat)
    ensures j >= i && !Less(m(j + 1), m(j))
    decreases m(i).budget, m(i).undelivered, m(i).orphans, m(i).load
  {
    j := i;
    if Less(m(i + 1), m(i)) { j := NoDescent(m, i + 1); }
  }

  lemma {:induction false} InvAlong(c: Setup, run: nat -> Point, i: nat)
    requires Inv(c, run(0).s) && forall k: nat | k < i :: GoesOn(c, run, k)
    ensures Inv(c, run(i).s)
  {
    if i > 0 {
      InvAlong(c, run, i - 1);
      assert GoesOn(c, run, i - 1);
      FollowsDecreases(c, run(i - 1), run(i));
    }
  }

  /** No schedule goes on forever: with finitely many failures every run of the
      workers stops; by EndsSettled it does not stop before everything is settled. */
  lemma EveryRunStops(c: Setup, run: nat -> Point)
    requires Inv(c, run(0).s)
    ensures exists k: nat :: !GoesOn(c, run, k)
  {
    if forall k: nat :: GoesOn(c, run, k) {
      var m := (k: nat) =>
        if run(k).s.bus.cursor <= |run(k).s.bus.log| then MeasureOf(run(k).s, run(k).budget) else Measure(0, 0, 0, 0);
      var j := NoDescent(m, 0);
      InvAlong(c, run, j);
      assert GoesOn(c, run, j);
      FollowsDecreases(c, run(j), run(j + 1));
    }
  }
}
