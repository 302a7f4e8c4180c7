/** The SDK's background delivery as a transition system: one step per point
    where `LogDispatcher` can be interleaved with its callers. */
module Dispatching {
  import opened Wrappers

  datatype Config = Config(maxQueue: int, batchSize: int, maxRetries: int) {
    /** Collecting takes one event even when batch_size is below one. */
    function BatchLimit(): nat { if batchSize < 1 then 1 else batchSize }
  }

  /** Where the flush task stands. */
  datatype Flight<P> =
    | NotStarted
    | Loop
    | Sending(batch: seq<P>, attempt: nat)
    | Sleeping(batch: seq<P>, attempt: nat)
    | Exited
    | Cancelled
  {
    function Batch(): seq<P> { if Sending? || Sleeping? then batch else [] }
    predicate Running() { Loop? || Sending? || Sleeping? }
  }

  /** What became of every payload, kept for stating properties only. */
  datatype Ledger<P> = Ledger(
    accepted: seq<P>, collected: seq<P>, delivered: seq<P>, lost: seq<P>,
    abandoned: seq<P>, vanished: seq<P>, overflow: nat, sampled: nat, notified: nat)

  datatype State<P> = State(
    queue: seq<P>, flight: Flight<P>, closing: bool, closed: bool,
    delivered: nat, dropped: nat, ledger: Ledger<P>)

  datatype Step<P> =
    | Submit(p: P)        // submit()
    | SampleOut           // the sampler's drop, counted by the emitters
    | Start               // start()
    | Collect             // _collect_batch() got at least one event
    | SendOk              // sink.send() returned
    | SendFail            // sink.send() raised, transient or not
    | Wake                // the backoff sleep ended
    | Exit                // the flush loop's condition failed
    | BeginClose          // aclose() set _closing, or returned as already closed
    | Timeout             // aclose() cancelled the flush task
    | EndClose            // aclose() set _closed, perhaps behind another aclose()

  function Init<P>(): State<P> {
    State([], NotStarted, false, false, 0, 0, Ledger([], [], [], [], [], [], 0, 0, 0))
  }

  function Full<P>(c: Config, s: State<P>): bool { 0 < c.maxQueue <= |s.queue| }

  function Take<P>(c: Config, s: State<P>): nat {
    if |s.queue| <= c.BatchLimit() then |s.queue| else c.BatchLimit()
  }

  predicate Enabled<P>(c: Config, s: State<P>, step: Step<P>) {
    match step
    case Submit(_) => true
    case SampleOut => true
    case Start => s.flight.NotStarted? && !s.closed
    case Collect => s.flight.Loop? && s.queue != []
    case SendOk => s.flight.Sending?
    case SendFail => s.flight.Sending?
    case Wake => s.flight.Sleeping?
    case Exit => s.flight.Loop? && s.closing && s.queue == []
    case BeginClose => true
    case Timeout => s.closing && !s.closed && s.flight.Running()
    case EndClose => s.closing && !s.flight.Running()
  }

  function Drop<P>(s: State<P>, n: nat): State<P> {
    s.(dropped := s.dropped + n, ledger := s.ledger.(notified := s.ledger.notified + n))
  }

  function Apply<P>(c: Config, s: State<P>, step: Step<P>): State<P>
    requires Enabled(c, s, step)
  {
    var l := s.ledger;
    match step
    case Submit(p) =>
      if s.closed then s
      else if Full(c, s) then
        var d := Drop(s, 1);
        d.(ledger := d.ledger.(overflow := l.overflow + 1))
      else s.(queue := s.queue + [p], ledger := l.(accepted := l.accepted + [p]))
    case SampleOut =>
      var d := Drop(s, 1);
      d.(ledger := d.ledger.(sampled := l.sampled + 1))
    case Start => s.(flight := Loop)
    case Collect =>
      var batch := s.queue[..Take(c, s)];
      var s' := s.(queue := s.queue[Take(c, s)..], ledger := l.(collected := l.collected + batch));
      // With max_retries below one the retry loop has no iteration at all.
      if c.maxRetries < 1 then s'.(ledger := s'.ledger.(vanished := l.vanished + batch))
      else s'.(flight := Sending(batch, 1))
    case SendOk =>
      var batch := s.flight.batch;
      s.(flight := Loop, delivered := s.delivered + |batch|, ledger := l.(delivered := l.delivered + batch))
    case SendFail =>
      var batch := s.flight.batch;
      if s.flight.attempt == c.maxRetries then
        var d := Drop(s, |batch|);
        d.(flight := Loop, ledger := d.ledger.(lost := l.lost + batch))
      else s.(flight := Sleeping(batch, s.flight.attempt))
    case Wake => s.(flight := Sending(s.flight.batch, s.flight.attempt + 1))
    case Exit => s.(flight := Exited)
    case BeginClose => if s.closed then s else s.(closing := true)
    case Timeout => s.(flight := Cancelled, ledger := l.(abandoned := l.abandoned + s.flight.Batch()))
    case EndClose => s.(closed := true)
  }

  predicate Legal<P>(c: Config, s: State<P>, steps: seq<Step<P>>)
    decreases |steps|
  {
    steps == [] || (Enabled(c, s, steps[0]) && Legal(c, Apply(c, s, steps[0]), steps[1..]))
  }

  function Exec<P>(c: Config, s: State<P>, steps: seq<Step<P>>): State<P>
    requires Legal(c, s, steps)
    decreases |steps|
  {
    if steps == [] then s else Exec(c, Apply(c, s, steps[0]), steps[1..])
  }

  lemma {:induction false} ExecAppend<P>(c: Config, s: State<P>, a: seq<Step<P>>, step: Step<P>)
    requires Legal(c, s, a) && Enabled(c, Exec(c, s, a), step)
    ensures Legal(c, s, a + [step]) && Exec(c, s, a + [step]) == Apply(c, Exec(c, s, a), step)
    decreases |a|
  {
    if a == [] {
      assert (a + [step])[1..] == [];
    } else {
      ExecAppend(c, Apply(c, s, a[0]), a[1..], step);
      assert (a + [step])[1..] == a[1..] + [step];
    }
  }

  // ---- conservation and order ------------------------------------------------

  /** FIFO: what was collected, followed by the queue, is what was accepted. */
  predicate InOrder<P(==)>(s: State<P>) {
    s.ledger.collected + s.queue == s.ledger.accepted
  }

  /** Every collected payload has exactly one fate. */
  ghost predicate OneFate<P>(s: State<P>) {
    var l := s.ledger;
    multiset(l.collected) == multiset(l.delivered) + multiset(l.lost) + multiset(l.abandoned)
                             + multiset(l.vanished) + multiset(s.flight.Batch())
  }

  predicate Counted<P>(s: State<P>) {
    var l := s.ledger;
    && s.delivered == |l.delivered|
    && s.dropped == |l.lost| + l.overflow + l.sampled
    && s.dropped == l.notified
  }

  predicate Bounded<P>(c: Config, s: State<P>) {
    && (c.maxQueue > 0 ==> |s.queue| <= c.maxQueue)
    && |s.ledger.abandoned| <= c.BatchLimit()
    && (s.ledger.abandoned != [] ==> s.flight.Cancelled?)
    && (s.ledger.vanished != [] ==> c.maxRetries < 1)
    && (s.flight.Sending? || s.flight.Sleeping? ==>
         1 <= |s.flight.batch| <= c.BatchLimit() && 1 <= s.flight.attempt <= c.maxRetries)
    && (s.flight.Sleeping? ==> s.flight.attempt < c.maxRetries)
    && (s.flight.Exited? || s.flight.Cancelled? || s.closed ==> s.closing)
    && (s.closed ==> !s.flight.Running())
  }

  ghost predicate Inv<P>(c: Config, s: State<P>) {
    InOrder(s) && OneFate(s) && Counted(s) && Bounded(c, s)
  }

  lemma InOrderStep<P>(c: Config, s: State<P>, step: Step<P>)
    requires InOrder(s) && Enabled(c, s, step)
    ensures InOrder(Apply(c, s, step))
  {
    var l := s.ledger;
    match step
    case Submit(p) =>
      assert l.collected + (s.queue + [p]) == (l.collected + s.queue) + [p];
    case Collect =>
      var n := Take(c, s);
      assert (l.collected + s.queue[..n]) + s.queue[n..] == l.collected + s.queue;
    case _ =>
  }

  lemma OneFateSettle<P>(c: Config, s: State<P>, step: Step<P>)
    requires OneFate(s) && Enabled(c, s, step) && (step.SendOk? || step.SendFail? || step.Timeout?)
    ensures OneFate(Apply(c, s, step))
  {
    var l, batch := s.ledger, s.flight.Batch();
    assert multiset(l.delivered + batch) == multiset(l.delivered) + multiset(batch);
    assert multiset(l.lost + batch) == multiset(l.lost) + multiset(batch);
    assert multiset(l.abandoned + batch) == multiset(l.abandoned) + multiset(batch);
  }

  lemma OneFateCollect<P>(c: Config, s: State<P>)
    requires OneFate(s) && Enabled(c, s, Collect)
    ensures OneFate(Apply(c, s, Collect))
  {
    var l, batch := s.ledger, s.queue[..Take(c, s)];
    assert multiset(l.collected + batch) == multiset(l.collected) + multiset(batch);
    assert multiset(l.vanished + batch) == multiset(l.vanished) + multiset(batch);
  }

  lemma OneFateStep<P>(c: Config, s: State<P>, step: Step<P>)
    requires OneFate(s) && Enabled(c, s, step)
    ensures OneFate(Apply(c, s, step))
  {
    match step
    case Collect => OneFateCollect(c, s);
    case SendOk => OneFateSettle(c, s, step);
    case SendFail => OneFateSettle(c, s, step);
    case Timeout => OneFateSettle(c, s, step);
    case _ =>
  }

  lemma CountedStep<P>(c: Config, s: State<P>, step: Step<P>)
    requires Counted(s) && Enabled(c, s, step)
    ensures Counted(Apply(c, s, step))
  {
  }

  lemma BoundedStep<P>(c: Config, s: State<P>, step: Step<P>)
    requires Bounded(c, s) && Enabled(c, s, step)
    ensures Bounded(c, Apply(c, s, step))
  {
  }

  lemma InvStep<P>(c: Config, s: State<P>, step: Step<P>)
    requires Inv(c, s) && Enabled(c, s, step)
    ensures Inv(c, Apply(c, s, step))
  {
    InOrderStep(c, s, step);
    OneFateStep(c, s, step);
    CountedStep(c, s, step);
    BoundedStep(c, s, step);
  }

  lemma {:induction false} InvRun<P>(c: Config, s: State<P>, steps: seq<Step<P>>)
    requires Inv(c, s) && Legal(c, s, steps)
    ensures Inv(c, Exec(c, s, steps))
    decreases |steps|
  {
    if steps != [] {
      InvStep(c, s, steps[0]);
      InvRun(c, Apply(c, s, steps[0]), steps[1..]);
    }
  }

  /** Over every run: accepted = queued + in flight + delivered + dropped after
      retries + abandoned, in FIFO order, provided max_retries is at least one. */
  lemma Conservation<P>(c: Config, steps: seq<Step<P>>)
    requires Legal(c, Init(), steps) && c.maxRetries >= 1
    ensures var s := Exec(c, Init(), steps); var l := s.ledger;
      && l.collected + s.queue == l.accepted
      && multiset(l.accepted) == multiset(s.queue) + multiset(s.flight.Batch()) + multiset(l.delivered)
                                 + multiset(l.lost) + multiset(l.abandoned)
      && |l.accepted| == |s.queue| + |s.flight.Batch()| + s.delivered + |l.lost| + |l.abandoned|
      && s.dropped == |l.lost| + l.overflow + l.sampled == l.notified
      && |l.abandoned| <= c.BatchLimit() && (l.abandoned != [] ==> s.flight.Cancelled?)
      && (c.maxQueue > 0 ==> |s.queue| <= c.maxQueue)
  {
    InvRun(c, Init(), steps);
    SumsUp(c, Exec(c, Init(), steps));
  }

  /** The invariant in numbers. */
  lemma SumsUp<P>(c: Config, s: State<P>)
    requires Inv(c, s) && c.maxRetries >= 1
    ensures var l := s.ledger;
      && multiset(l.accepted) == multiset(s.queue) + multiset(s.flight.Batch()) + multiset(l.delivered)
                                 + multiset(l.lost) + multiset(l.abandoned)
      && |l.accepted| == |s.queue| + |s.flight.Batch()| + s.delivered + |l.lost| + |l.abandoned|
  {
    var l := s.ledger;
    assert l.vanished == [];
    assert multiset(l.accepted) == multiset(l.collected) + multiset(s.queue);
    assert |multiset(l.accepted)| == |l.accepted|;
  }

  /** Without retries nothing is ever delivered: each collected batch vanishes,
      counted neither as delivered nor as dropped. */
  predicate NoneSent<P(==)>(s: State<P>) {
    s.ledger.delivered == [] && s.ledger.lost == [] && s.ledger.abandoned == []
    && s.ledger.vanished == s.ledger.collected && !s.flight.Sending? && !s.flight.Sleeping?
  }

  lemma {:induction false} VanishRun<P>(c: Config, s: State<P>, steps: seq<Step<P>>)
    requires c.maxRetries < 1 && NoneSent(s) && Legal(c, s, steps)
    ensures NoneSent(Exec(c, s, steps))
    decreases |steps|
  {
    if steps != [] { VanishRun(c, Apply(c, s, steps[0]), steps[1..]); }
  }

  /** The conservation law holds of every run exactly when max_retries >= 1. */
  lemma ConservedIffRetries(c: Config)
    ensures c.maxRetries >= 1 <==>
      (forall steps: seq<Step<int>> | Legal(c, Init<int>(), steps) ::
         var s := Exec(c, Init<int>(), steps);
         |s.ledger.accepted| == |s.queue| + |s.flight.Batch()| + s.delivered + |s.ledger.lost| + |s.ledger.abandoned|)
  {
    if c.maxRetries >= 1 {
      forall steps: seq<Step<int>> | Legal(c, Init<int>(), steps)
        ensures var s := Exec(c, Init<int>(), steps);
          |s.ledger.accepted| == |s.queue| + |s.flight.Batch()| + s.delivered + |s.ledger.lost| + |s.ledger.abandoned|
      {
        Conservation(c, steps);
      }
    } else {
      var a: seq<Step<int>> := [];
      ExecAppend(c, Init<int>(), a, Start);
      ExecAppend(c, Init<int>(), a + [Start], Submit(0));
      ExecAppend(c, Init<int>(), a + [Start] + [Submit(0)], Collect);
      var steps := a + [Start] + [Submit(0)] + [Collect];
      VanishRun(c, Init<int>(), steps);
      InvRun(c, Init<int>(), steps);
      var s := Exec(c, Init<int>(), steps);
      assert s.ledger.accepted == [0] && s.queue == [];
    }
  }

  // ---- acceptance ----------------------------------------------------------------

  /** While not closed, a payload is queued behind the others exactly when the queue has
      room, max_queue <= 0 meaning always; otherwise the queue stays as it is and exactly
      one drop is counted, notified and attributed to the full queue. */
  lemma SubmitAccepts<P>(c: Config, s: State<P>, p: P)
    requires !s.closed
    ensures Enabled(c, s, Submit(p))
    ensures var s', room := Apply(c, s, Submit(p)), c.maxQueue <= 0 || |s.queue| < c.maxQueue;
      && s'.flight == s.flight && s'.closing == s.closing && s'.closed == s.closed && s'.delivered == s.delivered
      && (s'.queue == s.queue + [p] <==> room)
      && (room ==> s' == s.(queue := s.queue + [p], ledger := s.ledger.(accepted := s.ledger.accepted + [p])))
      && (!room ==> s' == s.(dropped := s.dropped + 1,
            ledger := s.ledger.(overflow := s.ledger.overflow + 1, notified := s.ledger.notified + 1)))
  {
  }

  /** No other step accepts a payload or counts an overflow. */
  lemma OnlySubmitAccepts<P>(c: Config, s: State<P>, step: Step<P>)
    requires Enabled(c, s, step) && !step.Submit?
    ensures Apply(c, s, step).ledger.overflow == s.ledger.overflow
    ensures Apply(c, s, step).ledger.accepted == s.ledger.accepted
    ensures step.Collect? || Apply(c, s, step).queue == s.queue
  {
  }

  // ---- shutdown ---------------------------------------------------------------

  /** In every run the flush task ends in one of two ways, both while closing. If its
      loop exits, the queue is empty and every payload accepted so far was delivered or
      dropped after retries; if the close timeout cancels it, exactly the batch in hand
      is abandoned and the queue stays behind. */
  lemma LoopExit<P>(c: Config, steps: seq<Step<P>>, step: Step<P>)
    requires Legal(c, Init(), steps) && Enabled(c, Exec(c, Init(), steps), step) && c.maxRetries >= 1
    requires Exec(c, Init(), steps).flight.Running()
    requires !Apply(c, Exec(c, Init(), steps), step).flight.Running()
    ensures var s := Exec(c, Init(), steps); var s' := Apply(c, s, step); var l := s'.ledger;
      && s.closing && (s'.flight.Exited? || s'.flight.Cancelled?)
      && (s'.flight.Exited? ==>
           && s'.queue == [] && |l.accepted| == s'.delivered + |l.lost|
           && multiset(l.accepted) == multiset(l.delivered) + multiset(l.lost))
      && (s'.flight.Cancelled? ==>
           && l.abandoned == s.flight.Batch() && s'.queue == s.queue
           && |l.accepted| == |s'.queue| + s'.delivered + |l.lost| + |l.abandoned|)
  {
    ExecAppend(c, Init(), steps, step);
    InvRun(c, Init(), steps);
    Conservation(c, steps + [step]);
  }

  /** Once closed, the counters, the queue and the task are final: submitting, starting
      a close and finishing one are all possible and change nothing. */
  lemma ClosedIsFinal<P>(c: Config, s: State<P>, p: P)
    requires Inv(c, s) && s.closed
    ensures forall step | step == Submit(p) || step == BeginClose || step == EndClose ::
      Enabled(c, s, step) && Apply(c, s, step) == s
    ensures forall step :: Enabled(c, s, step) && Apply(c, s, step) != s ==> step.SampleOut?
  {
  }

  /** The steps left to a drain: no submissions, no cancellation. */
  predicate Drains<P>(step: Step<P>) { !step.Submit? && !step.SampleOut? && !step.Timeout? }

  /** The batches a queue of q events needs. */
  function Batches(q: nat, limit: nat): nat
    requires limit >= 1
  {
    if q == 0 then 0 else if q <= limit then 1 else 1 + Batches(q - limit, limit)
  }

  /** Batches is the quotient rounded up. */
  lemma {:induction false} BatchesIsCeiling(q: nat, limit: nat)
    requires limit >= 1
    ensures (Batches(q, limit) - 1) * limit < q || q == 0
    ensures q <= Batches(q, limit) * limit
  {
    if q > limit {
      BatchesIsCeiling(q - limit, limit);
      var n := Batches(q - limit, limit);
      assert (n - 1) * limit + limit == n * limit && n * limit + limit == (n + 1) * limit;
    }
  }

  function Count<P>(steps: seq<Step<P>>, f: Step<P> -> bool): nat {
    if steps == [] then 0 else (if f(steps[0]) then 1 else 0) + Count(steps[1..], f)
  }

  function IsCollect<P>(step: Step<P>): bool { step.Collect? }
  function IsSend<P>(step: Step<P>): bool { step.SendOk? || step.SendFail? }

  /** Sends the current batch may still see. */
  function SendsLeft<P>(c: Config, s: State<P>): int {
    if s.flight.Sending? then c.maxRetries - s.flight.attempt + 1
    else if s.flight.Sleeping? then c.maxRetries - s.flight.attempt
    else 0
  }

  /** A drain collects at most ceil(q / batch_size) batches. */
  lemma {:induction false} DrainBatches<P>(c: Config, s: State<P>, steps: seq<Step<P>>)
    requires Legal(c, s, steps)
    requires forall k | 0 <= k < |steps| :: Drains(steps[k])
    ensures Count(steps, IsCollect) <= Batches(|s.queue|, c.BatchLimit())
    decreases |steps|
  {
    if steps != [] {
      DrainBatches(c, Apply(c, s, steps[0]), steps[1..]);
    }
  }

  /** Each batch is sent at most max_retries times. */
  lemma {:induction false} DrainSends<P>(c: Config, s: State<P>, steps: seq<Step<P>>)
    requires Bounded(c, s) && Legal(c, s, steps) && c.maxRetries >= 0
    requires forall k | 0 <= k < |steps| :: Drains(steps[k])
    ensures Count(steps, IsSend) <= SendsLeft(c, s) + Count(steps, IsCollect) * c.maxRetries
    decreases |steps|
  {
    if steps != [] {
      var s' := Apply(c, s, steps[0]);
      BoundedStep(c, s, steps[0]);
      DrainSends(c, s', steps[1..]);
      var n := Count(steps[1..], IsCollect);
      assert (n + 1) * c.maxRetries == n * c.maxRetries + c.maxRetries;
      SendsLeftStep(c, s, steps[0]);
    }
  }

  lemma SendsLeftStep<P>(c: Config, s: State<P>, step: Step<P>)
    requires Bounded(c, s) && Enabled(c, s, step) && Drains(step) && c.maxRetries >= 0
    ensures (if IsSend(step) then 1 else 0) + SendsLeft(c, Apply(c, s, step))
         <= SendsLeft(c, s) + (if IsCollect(step) then c.maxRetries else 0)
  {
  }

  /** While closing, the flush task is never stuck: it exits, or one of its own
      steps is possible. */
  lemma DrainProgress<P>(c: Config, s: State<P>) returns (step: Step<P>)
    requires s.closing && s.flight.Running()
    ensures Enabled(c, s, step) && (step.Exit? || step.Collect? || step.SendFail? || step.Wake?)
    ensures step.Exit? <==> s.flight.Loop? && s.queue == []
  {
    step := match s.flight
      case Sending(_, _) => SendFail
      case Sleeping(_, _) => Wake
      case _ => if s.queue == [] then Exit else Collect;
  }
}
