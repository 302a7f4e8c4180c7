/** `LogDispatcher` itself: the object with its fields and loops, tied step by
    step to the transition system in Dispatching. */
module Dispatcher {
  import opened Wrappers
  import opened Dispatching

  // ---- what one send means ------------------------------------------------------

  datatype Response = TransportError | Status(code: int, retryAfter: Option<string>)

  /** `sink.send`: returned, raised TransientDeliveryError, or raised otherwise. */
  datatype Reply = Accepted | Transient(retryAfter: Option<real>) | Failed

  /** `_parse_retry_after`; toFloat is Python's float(), None for ValueError. */
  function ParseRetryAfter(header: Option<string>, toFloat: string -> Option<real>): Option<real> {
    if header.None? || header.value == "" then None
    else Some(toFloat(header.value).GetOr(30.0))
  }

  /** `HttpSink.send`. raise_for_status lets only 2xx through. */
  function Send(resp: Response, toFloat: string -> Option<real>): Reply {
    match resp
    case TransportError => Transient(None)
    case Status(code, header) =>
      if code == 429 || code == 503 then Transient(ParseRetryAfter(header, toFloat))
      else if 500 <= code < 600 then Transient(None)
      else if 200 <= code < 300 then Accepted
      else Failed
  }

  /** Only a 2xx answer counts as delivered, and a server-chosen pause is taken over
      exactly from a 429 or 503 with a Retry-After header: its number, or 30 seconds. */
  lemma SendMeaning(resp: Response, toFloat: string -> Option<real>)
    ensures Send(resp, toFloat).Accepted? <==> (resp.Status? && 200 <= resp.code < 300)
    ensures Send(resp, toFloat).Failed? <==>
              (resp.Status? && !(200 <= resp.code < 300) && resp.code != 429 && !(500 <= resp.code < 600))
    ensures Send(resp, toFloat).Transient? && Send(resp, toFloat).retryAfter.Some? ==>
              resp.Status? && (resp.code == 429 || resp.code == 503) && resp.retryAfter.Some?
    ensures resp.Status? && (resp.code == 429 || resp.code == 503) ==>
      Send(resp, toFloat) == Transient(
        match resp.retryAfter
        case None => None
        case Some(text) => if text == "" then None else if toFloat(text).Some? then toFloat(text) else Some(30.0))
  {
  }

  // ---- backoff ---------------------------------------------------------------------

  function Pow2(n: nat): (r: real)
    ensures r >= 1.0
  {
    if n == 0 then 1.0 else 2.0 * Pow2(n - 1)
  }

  /** The server's pause if it chose one, else the current delay with jitter. */
  function Pause(reply: Reply, delay: real, jitter: real): real {
    if reply.Transient? && reply.retryAfter.Some? then reply.retryAfter.value
    else delay * (0.5 + jitter)
  }

  /** The delay at attempt k + 1: doubled on every failed attempt, also on those
      whose pause the server chose. */
  function Delay(k: nat): real { 0.25 * Pow2(k) }

  /** All pauses of a batch that saw n sends. */
  function Slept(replies: nat -> Reply, jitter: nat -> real, n: nat): real {
    if n <= 1 then 0.0
    else Slept(replies, jitter, n - 1) + Pause(replies(n - 2), Delay(n - 2), jitter(n - 2))
  }

  /** The first n replies all refused the batch. */
  ghost predicate Rejected(replies: nat -> Reply, n: nat) {
    n == 0 || (Rejected(replies, n - 1) && !replies(n - 1).Accepted?)
  }

  /** The sends a batch sees: up to the first acceptance, at most max. */
  ghost predicate SendCount(replies: nat -> Reply, max: int, n: nat) {
    && (n > 0 ==> Rejected(replies, n - 1))
    && (if max < 1 then n == 0
        else 1 <= n <= max && (n < max ==> replies(n - 1).Accepted?))
  }

  /** Without Retry-After the pauses of n sends add up to a value within
      [0.125 * (2^(n-1) - 1), 0.375 * (2^(n-1) - 1)]. */
  lemma {:induction false} BackoffBound(replies: nat -> Reply, jitter: nat -> real, n: nat)
    requires n >= 1
    requires forall k: nat :: 0.0 <= jitter(k) < 1.0
    requires forall k: nat :: replies(k).Transient? ==> replies(k).retryAfter.None?
    ensures 0.125 * (Pow2(n - 1) - 1.0) <= Slept(replies, jitter, n) <= 0.375 * (Pow2(n - 1) - 1.0)
  {
    if n > 1 {
      BackoffBound(replies, jitter, n - 1);
      PauseRange(Pow2(n - 2), jitter(n - 2));
    }
  }

  /** The sum of the pauses a server chose. */
  function Chosen(pauses: nat -> real, n: nat): real { if n == 0 then 0.0 else Chosen(pauses, n - 1) + pauses(n - 1) }

  /** A server that always chooses is obeyed to the letter: n sends sleep the n - 1 pauses
      it asked for, whatever the jitter. */
  lemma {:induction false} ChosenPauses(replies: nat -> Reply, jitter: nat -> real, pauses: nat -> real, n: nat)
    requires n >= 1
    requires forall k: nat :: replies(k) == Transient(Some(pauses(k)))
    ensures Slept(replies, jitter, n) == Chosen(pauses, n - 1)
  {
    if n > 1 { ChosenPauses(replies, jitter, pauses, n - 1); }
  }

  lemma PauseRange(d: real, j: real)
    requires d >= 0.0 && 0.0 <= j < 1.0
    ensures 0.125 * d <= 0.25 * d * (0.5 + j) <= 0.375 * d
  {
    var x := 0.25 * d;
    assert x * (0.5 + j) == 0.5 * x + x * j;
    assert 0.0 <= x * j <= x;
  }

  /** The dispatcher after the retry loop, from attempt k + 1 on. */
  ghost function AfterRetries<P>(c: Config, s: State<P>, replies: nat -> Reply, k: nat): State<P>
    requires s.flight.Sending? && s.flight.attempt == k + 1 <= c.maxRetries
    decreases c.maxRetries - k
  {
    if replies(k).Accepted? then Apply(c, s, SendOk)
    else if k + 1 == c.maxRetries then Apply(c, s, SendFail)
    else AfterRetries(c, Apply(c, Apply(c, s, SendFail), Wake), replies, k + 1)
  }

  /** The retry loop is a run of the transition system that settles the batch. */
  lemma {:induction false} RetrySteps<P>(c: Config, s: State<P>, replies: nat -> Reply, k: nat)
    returns (steps: seq<Step<P>>)
    requires s.flight.Sending? && s.flight.attempt == k + 1 <= c.maxRetries
    ensures Legal(c, s, steps) && Exec(c, s, steps) == AfterRetries(c, s, replies, k)
    ensures var r := AfterRetries(c, s, replies, k);
      && r.flight.Loop? && r.queue == s.queue && r.closing == s.closing
      && r.delivered + r.dropped == s.delivered + s.dropped + |s.flight.batch|
      && (r.delivered > s.delivered ==> exists i: nat :: k <= i < c.maxRetries && replies(i).Accepted?)
    decreases c.maxRetries - k
  {
    if replies(k).Accepted? {
      steps := [SendOk];
    } else if k + 1 == c.maxRetries {
      steps := [SendFail];
    } else {
      var s1 := Apply(c, s, SendFail);
      var rest := RetrySteps(c, Apply(c, s1, Wake), replies, k + 1);
      steps := [SendFail, Wake] + rest;
      assert steps[1..] == [Wake] + rest && steps[1..][1..] == rest;
    }
  }

  // ---- the object --------------------------------------------------------------------

  class LogDispatcher<P> {
    const config: Config
    var queue: seq<P>
    var closing: bool
    var closed: bool
    var delivered: nat
    var dropped: nat
    ghost var flight: Flight<P>
    ghost var ledger: Ledger<P>

    ghost function View(): State<P>
      reads this
    {
      State(queue, flight, closing, closed, delivered, dropped, ledger)
    }

    constructor (config: Config)
      ensures this.config == config && View() == Init()
    {
      this.config := config;
      queue, closing, closed, delivered, dropped := [], false, false, 0, 0;
      flight := NotStarted;
      ledger := Ledger([], [], [], [], [], [], 0, 0, 0);
    }

    /** `start`: a no-op without a running event loop. */
    method Start(loopRunning: bool)
      modifies this
      ensures View() == if old(flight.NotStarted? && !closed) && loopRunning
                        then Apply(config, old(View()), Dispatching.Start) else old(View())
    {
      if loopRunning && !closed {
        flight := if flight.NotStarted? then Loop else flight;
      }
    }

    /** `submit`: never blocks; starts the task lazily; sheds when full. */
    method Submit(p: P, loopRunning: bool)
      modifies this
      ensures var s := if old(flight.NotStarted? && !closed) && loopRunning
                       then Apply(config, old(View()), Dispatching.Start) else old(View());
              View() == Apply(config, s, Dispatching.Submit(p))
      ensures queue ==
        if !closed && (config.maxQueue <= 0 || |old(queue)| < config.maxQueue) then old(queue) + [p] else old(queue)
      ensures dropped ==
        if !closed && config.maxQueue > 0 && |old(queue)| >= config.maxQueue then old(dropped) + 1 else old(dropped)
    {
      if closed {
        return;
      }
      Start(loopRunning);
      if 0 < config.maxQueue <= |queue| {
        dropped := dropped + 1;
        ledger := ledger.(notified := ledger.notified + 1, overflow := ledger.overflow + 1);
      } else {
        queue := queue + [p];
        ledger := ledger.(accepted := ledger.accepted + [p]);
      }
    }

    /** `_collect_batch`, once the wait for a first event is over: an empty batch
        if it timed out, else up to batch_size events from the head of the queue. */
    method CollectBatch() returns (batch: seq<P>)
      requires flight.Loop?
      modifies this
      ensures batch == old(queue)[..Take(config, old(View()))]
      ensures View() == if old(queue) == [] then old(View()) else Apply(config, old(View()), Collect)
    {
      ghost var before := queue;
      ghost var full := Take(config, View());
      if queue == [] {
        return [];
      }
      batch := [queue[0]];
      queue := queue[1..];
      while |batch| < config.batchSize && queue != []
        invariant 1 <= |batch| <= full && batch == before[..|batch|] && queue == before[|batch|..]
        invariant unchanged(this`closing, this`closed, this`delivered, this`dropped, this`flight, this`ledger)
        decreases |queue|
      {
        assert before[..|batch| + 1] == before[..|batch|] + [before[|batch|]];
        batch := batch + [queue[0]];
        queue := queue[1..];
      }
      assert |batch| == full;
      ledger := ledger.(collected := ledger.collected + batch);
      if config.maxRetries < 1 {
        ledger := ledger.(vanished := ledger.vanished + batch);
      } else {
        flight := Sending(batch, 1);
      }
    }

    /** One turn of the retry loop: settled, or slept and about to try again. */
    method Attempt(batch: seq<P>, attempt: nat, reply: Reply) returns (settled: bool)
      requires flight == Sending(batch, attempt)
      modifies this
      ensures settled <==> (reply.Accepted? || attempt == config.maxRetries)
      ensures View() ==
        if reply.Accepted? then Apply(config, old(View()), SendOk)
        else if settled then Apply(config, old(View()), SendFail)
        else Apply(config, Apply(config, old(View()), SendFail), Wake)
    {
      if reply.Accepted? {
        delivered := delivered + |batch|;
        ledger := ledger.(delivered := ledger.delivered + batch);
        flight := Loop;
      } else if attempt == config.maxRetries {
        dropped := dropped + |batch|;
        ledger := ledger.(notified := ledger.notified + |batch|, lost := ledger.lost + batch);
        flight := Loop;
      } else {
        flight := Sending(batch, attempt + 1);
      }
      settled := reply.Accepted? || attempt == config.maxRetries;
    }

    /** `_send_with_retry`, with the sink's replies and the jitter as given. */
    method SendWithRetry(batch: seq<P>, replies: nat -> Reply, jitter: nat -> real)
      returns (sends: nat, slept: real)
      requires if config.maxRetries >= 1 then flight == Sending(batch, 1) else flight.Loop?
      modifies this
      ensures SendCount(replies, config.maxRetries, sends)
      ensures slept == Slept(replies, jitter, sends)
      ensures View() == if config.maxRetries < 1 then old(View())
                        else AfterRetries(config, old(View()), replies, 0)
    {
      sends, slept := 0, 0.0;
      var delay := 0.25;
      while sends < config.maxRetries
        invariant if config.maxRetries >= 1 then sends < config.maxRetries else sends == 0
        invariant delay == Delay(sends)
        invariant slept == Slept(replies, jitter, sends + 1)
        invariant Rejected(replies, sends)
        invariant config.maxRetries < 1 ==> View() == old(View())
        invariant config.maxRetries >= 1 ==> flight == Sending(batch, sends + 1)
        invariant config.maxRetries >= 1 ==>
          AfterRetries(config, View(), replies, sends) == AfterRetries(config, old(View()), replies, 0)
      {
        var reply := replies(sends);
        var settled := Attempt(batch, sends + 1, reply);
        sends := sends + 1;
        if settled {
          return;
        }
        slept := slept + Pause(reply, delay, jitter(sends - 1));
        delay := delay * 2.0;
      }
    }

    /** One batch of the flush loop. */
    method FlushOne(replies: nat -> Reply, jitter: nat -> real) returns (ghost steps: seq<Step<P>>)
      requires flight.Loop? && queue != []
      modifies this
      ensures flight.Loop? && closing == old(closing)
      ensures queue == old(queue)[Take(config, old(View()))..]
      ensures config.maxRetries >= 1 ==>
        delivered + dropped == old(delivered) + old(dropped) + Take(config, old(View()))
      ensures Legal(config, old(View()), steps) && View() == Exec(config, old(View()), steps)
    {
      ghost var start := View();
      var batch := CollectBatch();
      ghost var more := [];
      if config.maxRetries >= 1 {
        more := RetrySteps(config, View(), replies, 0);
      }
      var sends, slept := SendWithRetry(batch, replies, jitter);
      steps := [Collect] + more;
      assert steps[1..] == more;
    }

    /** `_run` after `aclose` set _closing, with no further submits: it drains the
        queue and exits. `replies(k)` answers the sends of the k-th batch. */
    method RunToExit(replies: nat -> nat -> Reply, jitter: nat -> real)
      returns (batches: nat, ghost steps: seq<Step<P>>)
      requires closing && flight.Loop?
      modifies this
      ensures flight.Exited? && queue == []
      ensures batches == Batches(|old(queue)|, config.BatchLimit())
      ensures config.maxRetries >= 1 ==>
        delivered + dropped == old(delivered) + old(dropped) + |old(queue)|
      ensures Legal(config, old(View()), steps) && View() == Exec(config, old(View()), steps)
    {
      ghost var start := View();
      batches, steps := 0, [];
      while !(closing && queue == [])
        invariant closing && flight.Loop?
        invariant batches + Batches(|queue|, config.BatchLimit()) == Batches(|old(queue)|, config.BatchLimit())
        invariant config.maxRetries >= 1 ==>
          delivered + dropped + |queue| == old(delivered) + old(dropped) + |old(queue)|
        invariant Legal(config, start, steps) && View() == Exec(config, start, steps)
        decreases |queue|
      {
        ghost var more := FlushOne(replies(batches), jitter);
        steps := ExtendAll(config, start, steps, more);
        batches := batches + 1;
      }
      ghost var s := View();
      flight := Exited;
      steps := Extend(config, start, steps, s, Exit);
    }

    /** `aclose` once it has waited for the task, which is done or was cancelled. */
    method AClose(timedOut: bool)
      requires timedOut <==> flight.Running()
      modifies this
      ensures old(closed) ==> View() == old(View())
      ensures !old(closed) ==>
        var s := Apply(config, old(View()), BeginClose);
        var s' := if timedOut then Apply(config, s, Timeout) else s;
        View() == Apply(config, s', EndClose) && closed
    {
      if closed {
        return;
      }
      closing := true;
      if timedOut {
        ledger := ledger.(abandoned := ledger.abandoned + flight.Batch());
        flight := Cancelled;
      }
      closed := true;
    }
  }

  ghost function Extend<P>(c: Config, s0: State<P>, steps: seq<Step<P>>, s: State<P>, step: Step<P>): (r: seq<Step<P>>)
    requires Legal(c, s0, steps) && s == Exec(c, s0, steps) && Enabled(c, s, step)
    ensures Legal(c, s0, r) && Exec(c, s0, r) == Apply(c, s, step)
  {
    ExecAppend(c, s0, steps, step);
    steps + [step]
  }

  ghost function ExtendAll<P>(c: Config, s0: State<P>, steps: seq<Step<P>>, more: seq<Step<P>>): (r: seq<Step<P>>)
    requires Legal(c, s0, steps) && Legal(c, Exec(c, s0, steps), more)
    ensures Legal(c, s0, r) && Exec(c, s0, r) == Exec(c, Exec(c, s0, steps), more)
    decreases |more|
  {
    if more == [] then steps
    else ExtendAll(c, s0, Extend(c, s0, steps, Exec(c, s0, steps), more[0]), more[1..])
  }
}
