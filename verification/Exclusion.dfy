/** Row or dead letter: which runs keep them apart. A message is parked for a
    processing error only after an insert, or the acknowledgement of a committed
    insert, has raised; no other fault and no crash lets the two meet. */
module Exclusion {
  import opened Wrappers
  import opened Regex
  import opened Events
  import opened Bus
  import opened WorkerProtocol
  import opened Delivery
  import opened Confluence

  /** The two awaits of the try block in `_handle`, raising before or after their
      effect. A raising `process_event` is an insert that raises before it. */
  datatype Trouble = InsertRaises(fault: Fault) | AckRaises(fault: Fault)

  function TroubleOf(step: Step): Option<Trouble> {
    match step
    case Work(_, Upsert(_, fault)) => if fault.Fine? then None else Some(InsertRaises(fault))
    case Work(_, AckStored(fault)) => if fault.Fine? then None else Some(AckRaises(fault))
    case _ => None
  }

  /** The troubles of a run, in order. */
  function Troubles(steps: seq<Step>): seq<Trouble> {
    if steps == [] then []
    else
      var last := TroubleOf(steps[|steps| - 1]);
      Troubles(steps[..|steps| - 1]) + (if last.Some? then [last.value] else [])
  }

  /** No entry has both a row for its request_id and a dead letter with its payload. */
  ghost predicate Exclusive(s: State) {
    forall id: nat | id < |s.bus.log| :: !(Stored(s.bus, s.table, id) && InDlq(s.bus, id))
  }

  // ---- runs without trouble ----------------------------------------------------------

  /** Nothing is parked for a processing error, and no worker is about to. */
  predicate Calm(s: State) {
    NoFailures(s) && forall w | 0 <= w < |s.workers| :: s.workers[w].pc != Parking(Processing)
  }

  lemma CalmStep(c: Setup, s: State, step: Step)
    requires Enabled(c, s, step) && TroubleOf(step).None? && Calm(s)
    ensures Calm(Apply(c, s, step))
  {
    if step.Work? {
      var v := Act(c.second, step.w, At(s, step.w), step.action);
      assert s.workers[step.w].pc != Parking(Processing);
      assert v.me.pc != Parking(Processing);
    }
  }

  lemma {:induction false} TroublesSplit(steps: seq<Step>)
    requires steps != []
    ensures Troubles(steps) ==
      (if TroubleOf(steps[0]).Some? then [TroubleOf(steps[0]).value] else []) + Troubles(steps[1..])
  {
    if |steps| > 1 {
      var init := steps[..|steps| - 1];
      TroublesSplit(init);
      assert steps[1..][..|steps| - 2] == init[1..];
    }
  }

  lemma {:induction false} CalmRun(c: Setup, s: State, steps: seq<Step>)
    requires Legal(c, s, steps) && Troubles(steps) == [] && Calm(s)
    ensures Calm(Exec(c, s, steps))
    decreases |steps|
  {
    if steps != [] {
      TroublesSplit(steps);
      CalmStep(c, s, steps[0]);
      CalmRun(c, Apply(c, s, steps[0]), steps[1..]);
    }
  }

  lemma NoFailuresExclude(c: Setup, s: State, id: nat)
    requires Inv(c, s) && NoFailures(s) && id < |s.bus.log|
    ensures !(Stored(s.bus, s.table, id) && InDlq(s.bus, id))
    ensures id in s.bus.acked ==>
      if Validate(Decode(s.bus.log[id])).Some? then Stored(s.bus, s.table, id) else InDlq(s.bus, id)
  {
    var raw := Decode(s.bus.log[id]);
    assert Parked(raw, Processing) !in s.bus.dlq;
  }

  /** In every run in which no insert and no acknowledgement of an insert raises,
      whatever else fails or crashes: no entry has both a row and a dead letter, an
      acknowledged valid entry has its row, an acknowledged invalid one its letter. */
  lemma UntroubledExcludes(c: Setup, n: nat, steps: seq<Step>)
    requires Legal(c, Init(n), steps) && Troubles(steps) == []
    ensures var s := Exec(c, Init(n), steps);
      && NoFailures(s) && Exclusive(s)
      && forall id: nat | id < |s.bus.log| && id in s.bus.acked ::
           if Validate(Decode(s.bus.log[id])).Some? then Stored(s.bus, s.table, id) else InDlq(s.bus, id)
  {
    InitInv(c, n);
    RunKeeps(c, Init(n), steps);
    CalmRun(c, Init(n), steps);
    var s := Exec(c, Init(n), steps);
    forall id: nat | id < |s.bus.log|
      ensures !(Stored(s.bus, s.table, id) && InDlq(s.bus, id))
      ensures id in s.bus.acked ==>
        if Validate(Decode(s.bus.log[id])).Some? then Stored(s.bus, s.table, id) else InDlq(s.bus, id)
    {
      NoFailuresExclude(c, s, id);
    }
  }

  // ---- one trouble is enough -----------------------------------------------------------

  /** The steps lead one worker from the start to s. */
  ghost predicate Reaches(c: Setup, steps: seq<Step>, s: State) {
    Legal(c, Init(1), steps) && Exec(c, Init(1), steps) == s
  }

  lemma Then(c: Setup, steps: seq<Step>, s: State, step: Step) returns (more: seq<Step>, s': State)
    requires Reaches(c, steps, s) && Enabled(c, s, step)
    ensures s' == Apply(c, s, step) && Reaches(c, more, s')
    ensures Troubles(more) ==
      Troubles(steps) + (if TroubleOf(step).Some? then [TroubleOf(step).value] else [])
  {
    more, s' := steps + [step], Apply(c, s, step);
    ExecSnoc(c, Init(1), steps, step);
    assert more[..|steps|] == steps;
  }

  /** One valid entry, read by the only worker, which stands as me says. */
  ghost predicate One(s: State, raw: Raw, me: Worker, pending: bool, dlq: seq<Parked>) {
    && s.bus == Stream([Json(raw)], 1, if pending then map[0 := 0] else map[], if pending then {} else {0}, dlq)
    && s.workers == [me]
  }

  lemma JudgeStep(c: Setup, s: State, raw: Raw, dlq: seq<Parked>)
    requires Validate(raw).Some? && One(s, raw, Worker([0], Judging), true, dlq)
    ensures Enabled(c, s, Work(0, Judge))
    ensures One(Apply(c, s, Work(0, Judge)), raw, Worker([0], Upserting), true, dlq)
  {
  }

  lemma ReadStep(c: Setup, s: State, raw: Raw)
    requires s.bus == Stream([Json(raw)], 0, map[], {}, []) && s.workers == [IDLE]
    ensures Enabled(c, s, Work(0, Read(1, Fine)))
    ensures One(Apply(c, s, Work(0, Read(1, Fine))), raw, Worker([0], Judging), true, [])
  {
    ReadOne(s.bus);
  }

  lemma ReadOne(bus: Stream)
    requires bus.cursor == 0 && bus.pending == map[] && |bus.log| == 1
    ensures Ids(0, 1) == [0] && XReadGroup(bus, 0, 1) == bus.(cursor := 1, pending := map[0 := 0])
  {
    assert Ids(0, 0) == [];
    assert map[] + (map i | i in [0] :: 0) == map[0 := 0];
  }

  lemma ClaimStep(c: Setup, s: State, raw: Raw, dlq: seq<Parked>)
    requires One(s, raw, IDLE, true, dlq)
    ensures Enabled(c, s, Work(0, Claim([0], Fine)))
    ensures One(Apply(c, s, Work(0, Claim([0], Fine))), raw, Worker([0], Judging), true, dlq)
  {
    assert map[0 := 0] + (map i | i in [0] :: 0) == map[0 := 0];
  }

  lemma Begin(c: Setup, raw: Raw) returns (steps: seq<Step>, s: State)
    requires Validate(raw).Some?
    ensures Reaches(c, steps, s) && Troubles(steps) == [] && One(s, raw, Worker([0], Upserting), true, [])
    ensures s.table.rows == []
  {
    steps, s := Then(c, [], Init(1), Foreign(Json(raw)));
    ReadStep(c, s, raw);
    steps, s := Then(c, steps, s, Work(0, Read(1, Fine)));
    JudgeStep(c, s, raw, []);
    steps, s := Then(c, steps, s, Work(0, Judge));
  }

  lemma InsertStep(c: Setup, s: State, raw: Raw, dlq: seq<Parked>, fault: Fault)
    requires Validate(raw).Some? && One(s, raw, Worker([0], Upserting), true, dlq)
    ensures Enabled(c, s, Work(0, Upsert(0, fault)))
    ensures var s' := Apply(c, s, Work(0, Upsert(0, fault)));
      && One(s', raw, Worker([0], if fault.Fine? then AckingStored else Parking(Processing)), true, dlq)
      && (if fault.Before? then s'.table == s.table else Stored(s'.bus, s'.table, 0))
  {
    HasRowAppend(s.table.rows, ProcessEvent(raw.event, 0, c.second));
  }

  lemma AckStep(c: Setup, s: State, raw: Raw, dlq: seq<Parked>, fault: Fault)
    requires One(s, raw, Worker([0], AckingStored), true, dlq) && Stored(s.bus, s.table, 0)
    ensures Enabled(c, s, Work(0, AckStored(fault)))
    ensures var s' := Apply(c, s, Work(0, AckStored(fault)));
      && One(s', raw, if fault.Fine? then IDLE else Worker([0], Parking(Processing)), fault.Before?, dlq)
      && Stored(s'.bus, s'.table, 0)
  {
    assert map[0 := 0] - {0} == map[];
  }

  /** Insert and acknowledge cleanly. */
  lemma StoreCleanly(c: Setup, steps: seq<Step>, s: State, raw: Raw, dlq: seq<Parked>)
    returns (more: seq<Step>, s': State)
    requires Validate(raw).Some? && One(s, raw, Worker([0], Upserting), true, dlq) && Reaches(c, steps, s)
    ensures Reaches(c, more, s') && Troubles(more) == Troubles(steps)
    ensures One(s', raw, IDLE, false, dlq) && Stored(s'.bus, s'.table, 0)
  {
    InsertStep(c, s, raw, dlq, Fine);
    more, s' := Then(c, steps, s, Work(0, Upsert(0, Fine)));
    AckStep(c, s', raw, dlq, Fine);
    more, s' := Then(c, more, s', Work(0, AckStored(Fine)));
  }

  /** The trouble itself; the worker goes on to the dead-letter branch. */
  lemma RunInto(c: Setup, raw: Raw, t: Trouble) returns (steps: seq<Step>, s: State)
    requires Validate(raw).Some? && !t.fault.Fine?
    ensures Reaches(c, steps, s) && Troubles(steps) == [t]
    ensures var pending := t.InsertRaises? || t.fault.Before?;
      && One(s, raw, Worker([0], Parking(Processing)), pending, [])
      && (!pending ==> Stored(s.bus, s.table, 0))
      && (t == InsertRaises(Before) ==> s.table.rows == [])
  {
    steps, s := Begin(c, raw);
    if t.InsertRaises? {
      InsertStep(c, s, raw, [], t.fault);
      steps, s := Then(c, steps, s, Work(0, Upsert(0, t.fault)));
    } else {
      InsertStep(c, s, raw, [], Fine);
      steps, s := Then(c, steps, s, Work(0, Upsert(0, Fine)));
      AckStep(c, s, raw, [], t.fault);
      steps, s := Then(c, steps, s, Work(0, AckStored(t.fault)));
    }
  }

  /** The message is parked, but the call that did it raises: the worker restarts
      with the message still pending, unless it was acknowledged before. */
  lemma ParkLate(c: Setup, steps: seq<Step>, s: State, raw: Raw, pending: bool)
    returns (more: seq<Step>, s': State)
    requires One(s, raw, Worker([0], Parking(Processing)), pending, []) && Reaches(c, steps, s)
    ensures Reaches(c, more, s') && Troubles(more) == Troubles(steps)
    ensures One(s', raw, IDLE, pending, [Parked(raw, Processing)]) && s'.table == s.table
  {
    more, s' := Then(c, steps, s, Work(0, Action.Park(After)));
  }

  lemma TakeAgain(c: Setup, steps: seq<Step>, s: State, raw: Raw, dlq: seq<Parked>)
    returns (more: seq<Step>, s': State)
    requires Validate(raw).Some? && One(s, raw, IDLE, true, dlq) && Reaches(c, steps, s)
    ensures Reaches(c, more, s') && Troubles(more) == Troubles(steps)
    ensures One(s', raw, Worker([0], Upserting), true, dlq)
  {
    ClaimStep(c, s, raw, dlq);
    more, s' := Then(c, steps, s, Work(0, Claim([0], Fine)));
    JudgeStep(c, s', raw, dlq);
    more, s' := Then(c, more, s', Work(0, Judge));
  }

  /** For every valid payload and each of the four troubles, a run with this single
      trouble ends settled with both a row and a dead letter for the payload. */
  lemma RowAndDeadLetter(c: Setup, raw: Raw, t: Trouble) returns (steps: seq<Step>)
    requires Validate(raw).Some? && !t.fault.Fine?
    ensures Legal(c, Init(1), steps) && Troubles(steps) == [t]
    ensures var s := Exec(c, Init(1), steps);
      Settled(s) && |s.bus.log| == 1 && Stored(s.bus, s.table, 0) && InDlq(s.bus, 0)
  {
    var s;
    var pending := t.InsertRaises? || t.fault.Before?;
    steps, s := RunInto(c, raw, t);
    steps, s := ParkLate(c, steps, s, raw, pending);
    if pending {
      steps, s := TakeAgain(c, steps, s, raw, [Parked(raw, Processing)]);
      steps, s := StoreCleanly(c, steps, s, raw, [Parked(raw, Processing)]);
    }
    assert Parked(raw, Processing) in s.bus.dlq;
  }

  predicate Within(troubles: seq<Trouble>, allowed: set<Trouble>) { forall t | t in troubles :: t in allowed }

  lemma SomeMember<T>(ts: seq<T>)
    ensures ts == [] || exists t :: t in ts
  {
    if ts != [] { assert ts[0] in ts; }
  }

  /** Row and dead letter exclude each other in all runs exactly when neither an insert
      nor the acknowledgement of an insert may raise. */
  lemma ExclusiveIff(c: Setup, raw: Raw, allowed: set<Trouble>)
    requires Validate(raw).Some? && forall t | t in allowed :: !t.fault.Fine?
    ensures allowed == {} <==>
      (forall n: nat, steps: seq<Step> | Legal(c, Init(n), steps) && Within(Troubles(steps), allowed) ::
         Exclusive(Exec(c, Init(n), steps)))
  {
    if allowed == {} {
      forall n: nat, steps: seq<Step> | Legal(c, Init(n), steps) && Within(Troubles(steps), allowed)
        ensures Exclusive(Exec(c, Init(n), steps))
      {
        SomeMember(Troubles(steps));
        UntroubledExcludes(c, n, steps);
      }
    } else {
      var t :| t in allowed;
      var steps := RowAndDeadLetter(c, raw, t);
      assert Within(Troubles(steps), allowed);
      assert !Exclusive(Exec(c, Init(1), steps));
    }
  }

  // ---- acknowledged only after a commit -----------------------------------------------

  predicate ValidEntry(bus: Stream, id: nat)
    requires id < |bus.log|
  {
    Validate(Decode(bus.log[id])).Some?
  }

  /** Every acknowledged valid entry has its row. */
  ghost predicate AckedHaveRows(bus: Stream, table: Table) {
    forall id: nat | id in bus.acked && id < |bus.log| :: ValidEntry(bus, id) ==> Stored(bus, table, id)
  }

  /** A valid message in the dead-letter branch has its row. */
  predicate ParkedHasRow(bus: Stream, table: Table, me: Worker) {
    me.batch != [] && me.batch[0] < |bus.log| && (me.pc.Parking? || me.pc.AckingParked?)
      && ValidEntry(bus, me.batch[0])
    ==> Stored(bus, table, me.batch[0])
  }

  lemma RowsStay(bus: Stream, table: Table, bus': Stream, table': Table, me: Worker)
    requires Grows(bus, bus') && table.rows <= table'.rows
    requires forall id | id in me.batch :: id < |bus.log|
    ensures ParkedHasRow(bus, table, me) ==> ParkedHasRow(bus', table', me)
    ensures AckedHaveRows(bus, table) && bus'.acked == bus.acked && (forall id | id in bus.acked :: id < |bus.log|)
      ==> AckedHaveRows(bus', table')
  {
    if me.batch != [] {
      assert me.batch[0] in me.batch;
      KnownStable(bus, table, bus', table', me.batch[0]);
    }
    forall id: nat | id < |bus.log| ensures Stored(bus, table, id) ==> Stored(bus', table', id) {
      KnownStable(bus, table, bus', table', id);
    }
    assert forall id: nat | id < |bus.log| :: bus'.log[id] == bus.log[id];
  }

  lemma ActHasRow(second: Option<Engine>, w: nat, v: View, a: Action)
    requires Can(v, a) && SharedInv(second, v.bus, v.table) && LocalInv(v.bus, v.table, v.me)
    requires ParkedHasRow(v.bus, v.table, v.me) && AckedHaveRows(v.bus, v.table)
    requires !(a.Upsert? && a.fault.Before?)
    ensures var v' := Act(second, w, v, a);
      ParkedHasRow(v'.bus, v'.table, v'.me) && AckedHaveRows(v'.bus, v'.table)
  {
    var v' := Act(second, w, v, a);
    ActGrows(second, w, v, a);
    RowsStay(v.bus, v.table, v'.bus, v'.table, v.me);
    if a.Upsert? {
      InsertKeepsFirst(v.table, ProcessEvent(Validate(Message(v)).value, a.now, second));
    }
  }

  ghost predicate RowsBehindAcks(s: State) {
    && AckedHaveRows(s.bus, s.table)
    && forall w | 0 <= w < |s.workers| :: ParkedHasRow(s.bus, s.table, s.workers[w])
  }

  lemma BehindAcksStep(c: Setup, s: State, step: Step)
    requires Inv(c, s) && Enabled(c, s, step) && RowsBehindAcks(s)
    requires TroubleOf(step) != Some(InsertRaises(Before))
    ensures RowsBehindAcks(Apply(c, s, step))
  {
    var s' := Apply(c, s, step);
    StepGrows(c, s, step);
    assert forall id | id in s.bus.acked :: id < |s.bus.log|;
    RowsStay(s.bus, s.table, s'.bus, s'.table, IDLE);
    if step.Work? {
      assert LocalInv(s.bus, s.table, s.workers[step.w]);
      assert ParkedHasRow(s.bus, s.table, s.workers[step.w]);
      ActHasRow(c.second, step.w, At(s, step.w), step.action);
    }
    forall w | 0 <= w < |s'.workers| ensures ParkedHasRow(s'.bus, s'.table, s'.workers[w]) {
      if !(step.Work? && step.w == w) {
        assert LocalInv(s.bus, s.table, s.workers[w]);
        assert ParkedHasRow(s.bus, s.table, s.workers[w]);
        RowsStay(s.bus, s.table, s'.bus, s'.table, s.workers[w]);
      }
    }
  }

  lemma {:induction false} BehindAcksRun(c: Setup, s: State, steps: seq<Step>)
    requires Inv(c, s) && Legal(c, s, steps) && RowsBehindAcks(s)
    requires InsertRaises(Before) !in Troubles(steps)
    ensures RowsBehindAcks(Exec(c, s, steps))
    decreases |steps|
  {
    if steps != [] {
      TroublesSplit(steps);
      StepKeeps(c, s, steps[0]);
      BehindAcksStep(c, s, steps[0]);
      BehindAcksRun(c, Apply(c, s, steps[0]), steps[1..]);
    }
  }

  /** An insert that raises without effect leads to an acknowledged entry without a row. */
  lemma AckedWithoutRow(c: Setup, raw: Raw) returns (steps: seq<Step>)
    requires Validate(raw).Some?
    ensures Legal(c, Init(1), steps) && Troubles(steps) == [InsertRaises(Before)]
    ensures var s := Exec(c, Init(1), steps); Settled(s) && !AckedHaveRows(s.bus, s.table)
  {
    var s;
    steps, s := RunInto(c, raw, InsertRaises(Before));
    steps, s := Then(c, steps, s, Work(0, Action.Park(Fine)));
    ParkedThenAcked(c, s, raw);
    steps, s := Then(c, steps, s, Work(0, AckParked(Fine)));
    assert 0 in s.bus.acked && ValidEntry(s.bus, 0) && !Stored(s.bus, s.table, 0);
  }

  lemma ParkedThenAcked(c: Setup, s: State, raw: Raw)
    requires One(s, raw, Worker([0], AckingParked), true, [Parked(raw, Processing)])
    ensures Enabled(c, s, Work(0, AckParked(Fine)))
    ensures One(Apply(c, s, Work(0, AckParked(Fine))), raw, IDLE, false, [Parked(raw, Processing)])
  {
    assert map[0 := 0] - {0} == map[];
  }

  /** The worker acknowledges valid entries only after their commit, in all runs, exactly
      when an insert may not raise without effect; a raising acknowledgement does no
      harm to this. */
  lemma AckAfterCommitIff(c: Setup, raw: Raw, allowed: set<Trouble>)
    requires Validate(raw).Some?
    ensures InsertRaises(Before) !in allowed <==>
      (forall n: nat, steps: seq<Step> | Legal(c, Init(n), steps) && Within(Troubles(steps), allowed) ::
         AckedHaveRows(Exec(c, Init(n), steps).bus, Exec(c, Init(n), steps).table))
  {
    if InsertRaises(Before) !in allowed {
      forall n: nat, steps: seq<Step> | Legal(c, Init(n), steps) && Within(Troubles(steps), allowed)
        ensures AckedHaveRows(Exec(c, Init(n), steps).bus, Exec(c, Init(n), steps).table)
      {
        InitInv(c, n);
        BehindAcksRun(c, Init(n), steps);
      }
    } else {
      var steps := AckedWithoutRow(c, raw);
      assert Within(Troubles(steps), allowed);
      assert !AckedHaveRows(Exec(c, Init(1), steps).bus, Exec(c, Init(1), steps).table);
    }
  }

  // ---- the same, for confluence ---------------------------------------------------------

  /** A schedule without trouble that settles everything ends with the derived columns of
      exactly the published events, one row per id. */
  lemma SettledSchedule(c: Setup, n: nat, steps: seq<Step>)
    requires Legal(c, Init(n), steps) && Troubles(steps) == []
    requires var s := Exec(c, Init(n), steps); Settled(s) && Consistent(Catalog(s.bus.log))
    ensures var s := Exec(c, Init(n), steps);
      Contents(s.table.rows) == Derived(c.second, Catalog(s.bus.log)) && UniqueIds(s.table.rows)
  {
    UntroubledExcludes(c, n, steps);
    SettledTable(c, n, steps);
  }

  /** Any two such schedules over the same published events agree up to received_at. */
  lemma ConfluentSchedules(c: Setup, n1: nat, steps1: seq<Step>, n2: nat, steps2: seq<Step>)
    requires Legal(c, Init(n1), steps1) && Troubles(steps1) == []
    requires Legal(c, Init(n2), steps2) && Troubles(steps2) == []
    requires var s1, s2 := Exec(c, Init(n1), steps1), Exec(c, Init(n2), steps2);
      && Catalog(s1.bus.log) == Catalog(s2.bus.log) && Consistent(Catalog(s1.bus.log))
      && Settled(s1) && Settled(s2)
    ensures var s1, s2 := Exec(c, Init(n1), steps1), Exec(c, Init(n2), steps2);
      Contents(s1.table.rows) == Contents(s2.table.rows) && UniqueIds(s1.table.rows) && UniqueIds(s2.table.rows)
  {
    SettledSchedule(c, n1, steps1);
    SettledSchedule(c, n2, steps2);
  }
}
