/** The three capture modes together: explicit `complete` calls, the patched
    `send`, and the capturing transport, over trees of nested calls. */
module CallTree {
  import opened Wrappers

  // ---- install and uninstall -----------------------------------------------------

  /** What `httpx.AsyncClient.send` (or the sync one) is bound to. */
  datatype Send = Original | Patched

  /** Module state; saved is `_state`, empty unless installed. */
  datatype Patch = Patch(asyncSend: Send, syncSend: Send, saved: Option<(Send, Send)>)

  datatype Op = Install | Uninstall

  const UNPATCHED: Patch := Patch(Original, Original, None)

  function Apply(s: Patch, op: Op): Patch {
    match op
    case Install => if s.saved.Some? then s else Patch(Patched, Patched, Some((s.asyncSend, s.syncSend)))
    case Uninstall => if s.saved.None? then s else Patch(s.saved.value.0, s.saved.value.1, None)
  }

  function ApplyAll(ops: seq<Op>): Patch {
    if ops == [] then UNPATCHED else Apply(ApplyAll(ops[..|ops| - 1]), ops[|ops| - 1])
  }

  /** After any sequence of installs and uninstalls both clients are either
      untouched, or patched once over the originals: no patch over a patch. */
  lemma {:induction false} PatchedOnce(ops: seq<Op>)
    ensures ApplyAll(ops) ==
      if ops != [] && ops[|ops| - 1].Install? then Patch(Patched, Patched, Some((Original, Original))) else UNPATCHED
  {
    if ops != [] { PatchedOnce(ops[..|ops| - 1]); }
  }

  class AutoCapture {
    var asyncSend: Send
    var syncSend: Send
    var saved: Option<(Send, Send)>

    ghost function View(): Patch
      reads this
    {
      Patch(asyncSend, syncSend, saved)
    }

    constructor ()
      ensures View() == UNPATCHED
    {
      asyncSend, syncSend, saved := Original, Original, None;
    }

    /** `install`: idempotent. */
    method Install()
      modifies this
      ensures View() == Apply(old(View()), Op.Install)
    {
      if saved.Some? {
        return;
      }
      saved := Some((asyncSend, syncSend));
      asyncSend, syncSend := Patched, Patched;
    }

    /** `uninstall`: restores the originals. */
    method Uninstall()
      modifies this
      ensures View() == Apply(old(View()), Op.Uninstall)
    {
      if saved.None? {
        return;
      }
      asyncSend, syncSend := saved.value.0, saved.value.1;
      saved := None;
    }
  }

  // ---- calls --------------------------------------------------------------------------

  /** Reading the body of a response: it was read or already there, it raised (which
      is swallowed), or the reading task was cancelled, which no handler catches. */
  datatype Body = Read | Unreadable | CutShort

  /** How the host reads a stream: never through the response, through `aiter_bytes`
      or an iterator built on it, or with `aiter_raw` alone. */
  datatype Reading = Unread | ByBytes | ByRaw

  datatype Result =
    | SendRaises                 // an Exception
    | SendCancelled              // CancelledError, no Exception
    | HttpError(body: Body)      // status 400 or above
    | Buffered(body: Body)       // a plain response
    | Streaming(reading: Reading)

  /** One HTTP request: whether a handler recognises it and parses its body, the
      kind of client, and whether the client carries the capturing transport. */
  datatype Request = Request(
    id: nat, recognised: bool, parses: bool, sync: bool, transport: bool, result: Result)

  /** The calls made, in order. A `complete` call of a known provider runs that
      provider's calls. */
  datatype Calls =
    | NoCalls
    | Complete(id: nat, known: bool, inner: Calls, next: Calls)
    | Http(request: Request, next: Calls)

  datatype Env = Env(runtime: bool, installed: bool)

  /** Which of the two automatic modes observes a request. */
  datatype Via = ByPatch | ByTransport

  class Process {
    var insideExplicit: bool
    var log: seq<nat>

    constructor ()
      ensures !insideExplicit && log == []
    {
      insideExplicit, log := false, [];
    }

    method Emit(id: nat)
      modifies this`log
      ensures log == old(log) + [id]
    {
      log := log + [id];
    }

    /** The capture logic the patched send and the transport share. Only exceptions
        proper are caught, sync streams are not wrapped and emit at once, and the
        patch wraps `aiter_bytes` where the transport wraps the stream itself. */
    method Observe(via: Via, r: Request)
      modifies this`log
      ensures log == old(log) + if Heard(via, r) then [r.id] else []
    {
      match r.result {
        case SendRaises => Emit(r.id);
        case SendCancelled =>
        case HttpError(body) =>
          if body.CutShort? { return; }
          Emit(r.id);
        case Buffered(body) =>
          if body.CutShort? { return; }
          Emit(r.id);
        case Streaming(reading) =>
          if r.sync || reading.ByBytes? || (via.ByTransport? && reading.ByRaw?) { Emit(r.id); }
      }
    }

    /** `handle_async_request` of the capturing transport, or the plain one. */
    method Transport(env: Env, r: Request)
      modifies this`log
      ensures log == old(log) +
        if !env.installed && !insideExplicit && Captured(env, r) && Heard(ByTransport, r) then [r.id] else []
    {
      if r.transport && !r.sync {
        if !env.runtime || env.installed || insideExplicit {
          return;
        }
        if r.recognised && r.parses {
          Observe(ByTransport, r);
        }
      }
    }

    /** A client's `send`: patched or original, over its transport. */
    method SendRequest(env: Env, r: Request)
      modifies this`log
      ensures log == old(log) + if insideExplicit then [] else Emitted(env, false, Http(r, NoCalls))
    {
      if env.installed && env.runtime && !insideExplicit && r.recognised && r.parses {
        Transport(env, r);
        Observe(ByPatch, r);
      } else {
        Transport(env, r);
      }
    }

    /** The calls in order. */
    method Run(env: Env, calls: Calls)
      modifies this
      ensures insideExplicit == old(insideExplicit)
      ensures log == old(log) + Emitted(env, insideExplicit, calls)
      decreases calls, 1
    {
      match calls {
        case NoCalls =>
        case Http(r, next) =>
          SendRequest(env, r);
          Run(env, next);
        case Complete(id, known, inner, next) =>
          RunComplete(env, id, known, inner);
          Run(env, next);
      }
    }

    /** `complete` looks its provider up first; then it marks its scope, restores the
        mark in its `finally`, and emits once however it ends. */
    method RunComplete(env: Env, id: nat, known: bool, inner: Calls)
      modifies this
      ensures insideExplicit == old(insideExplicit)
      ensures log == old(log) + if known then Emitted(env, true, inner) + [id] else []
      decreases inner, 2
    {
      if known {
        var token := insideExplicit;
        insideExplicit := true;
        Run(env, inner);
        insideExplicit := token;
        Emit(id);
      }
    }
  }

  // ---- which calls are logged ---------------------------------------------------------

  /** A recognised request outside every explicit call is meant to be captured when
      its client is patched or carries the transport. */
  predicate Captured(env: Env, r: Request) {
    env.runtime && r.recognised && r.parses && (env.installed || (r.transport && !r.sync))
  }

  /** With both modes on one client the transport steps aside. */
  function ViaOf(env: Env): Via { if env.installed then ByPatch else ByTransport }

  /** The task was cancelled before the capture had its response. */
  predicate CutOff(r: Request) {
    match r.result
    case SendCancelled => true
    case HttpError(body) => body.CutShort?
    case Buffered(body) => body.CutShort?
    case _ => false
  }

  /** An asynchronous stream is observed only through what the mode wrapped. */
  predicate Watched(via: Via, r: Request) {
    r.result.Streaming? && !r.sync ==> r.result.reading.ByBytes? || (via.ByTransport? && r.result.reading.ByRaw?)
  }

  predicate Heard(via: Via, r: Request) { !CutOff(r) && Watched(via, r) }

  /** The ids logged by the calls, in order of emission. */
  function Emitted(env: Env, inside: bool, calls: Calls): seq<nat>
    decreases calls
  {
    match calls
    case NoCalls => []
    case Complete(id, known, inner, next) =>
      (if known then Emitted(env, true, inner) + [id] else []) + Emitted(env, inside, next)
    case Http(r, next) =>
      (if !inside && Captured(env, r) && Heard(ViaOf(env), r) then [r.id] else []) + Emitted(env, inside, next)
  }

  /** The calls made, in one list, each request with whether it is under a
      `complete`; an unknown provider makes no calls. */
  datatype Node = Explicitly(id: nat, known: bool) | Requested(r: Request, under: bool) {
    function Id(): nat { if Explicitly? then id else r.id }
  }

  function Nodes(calls: Calls, under: bool): seq<Node> {
    match calls
    case NoCalls => []
    case Complete(id, known, inner, next) =>
      [Explicitly(id, known)] + (if known then Nodes(inner, true) else []) + Nodes(next, under)
    case Http(r, next) => [Requested(r, under)] + Nodes(next, under)
  }

  /** The documented promise: one log for every explicit call, and for every captured
      request that is not part of one. */
  predicate Promised(env: Env, n: Node) {
    match n
    case Explicitly(_, _) => true
    case Requested(r, under) => !under && Captured(env, r)
  }

  /** What the code owes: the same, but for an unknown provider, a cancellation before
      the response, and a stream nobody iterates through the wrapped iterator. */
  predicate Owed(env: Env, n: Node) {
    match n
    case Explicitly(_, known) => known
    case Requested(r, under) => !under && Captured(env, r) && Heard(ViaOf(env), r)
  }

  /** How many nodes of this id satisfy p. */
  function Count(nodes: seq<Node>, p: Node -> bool, id: nat): nat {
    if nodes == [] then 0
    else (if nodes[0].Id() == id && p(nodes[0]) then 1 else 0) + Count(nodes[1..], p, id)
  }

  function OwedIn(env: Env): Node -> bool { (n: Node) => Owed(env, n) }

  lemma {:induction false} CountAppend(a: seq<Node>, b: seq<Node>, p: Node -> bool, id: nat)
    ensures Count(a + b, p, id) == Count(a, p, id) + Count(b, p, id)
  {
    if a == [] {
      assert a + b == b;
    } else {
      assert (a + b)[1..] == a[1..] + b;
      CountAppend(a[1..], b, p, id);
    }
  }

  lemma CountOne(n: Node, p: Node -> bool, id: nat)
    ensures Count([n], p, id) == if n.Id() == id && p(n) then 1 else 0
  {
    assert [n][1..] == [];
  }

  /** Every id is logged as often as calls of that id are owed a log. */
  lemma {:induction false} LogsAreOwed(env: Env, calls: Calls, under: bool, id: nat)
    ensures multiset(Emitted(env, under, calls))[id] == Count(Nodes(calls, under), OwedIn(env), id)
  {
    match calls
    case NoCalls =>
    case Complete(x, known, inner, next) =>
      var deep := if known then Nodes(inner, true) else [];
      LogsAreOwed(env, next, under, id);
      if known { LogsAreOwed(env, inner, true, id); }
      CountAppend([Explicitly(x, known)] + deep, Nodes(next, under), OwedIn(env), id);
      CountAppend([Explicitly(x, known)], deep, OwedIn(env), id);
      CountOne(Explicitly(x, known), OwedIn(env), id);
    case Http(r, next) =>
      LogsAreOwed(env, next, under, id);
      CountAppend([Requested(r, under)], Nodes(next, under), OwedIn(env), id);
      CountOne(Requested(r, under), OwedIn(env), id);
  }

  ghost predicate DistinctIds(nodes: seq<Node>) {
    forall i, j | 0 <= i < j < |nodes| :: nodes[i].Id() != nodes[j].Id()
  }

  lemma {:induction false} CountDistinct(nodes: seq<Node>, p: Node -> bool, k: nat)
    requires DistinctIds(nodes) && k < |nodes|
    ensures Count(nodes, p, nodes[k].Id()) == if p(nodes[k]) then 1 else 0
  {
    if k == 0 {
      CountAbsent(nodes[1..], p, nodes[0].Id());
    } else {
      CountDistinct(nodes[1..], p, k - 1);
    }
  }

  lemma {:induction false} CountAbsent(nodes: seq<Node>, p: Node -> bool, id: nat)
    requires forall k | 0 <= k < |nodes| :: nodes[k].Id() != id
    ensures Count(nodes, p, id) == 0
  {
    if nodes != [] { CountAbsent(nodes[1..], p, id); }
  }

  /** For every tree of calls with their own ids, each call is logged at most once. An
      explicit call is logged exactly if its provider is known; a request exactly if
      it is captured outside every explicit call, its task was not cancelled before
      its response, and an asynchronous stream was iterated through what its mode
      wrapped. */
  lemma LoggedOnceIff(env: Env, calls: Calls, k: nat)
    requires DistinctIds(Nodes(calls, false)) && k < |Nodes(calls, false)|
    ensures var n := Nodes(calls, false)[k];
      var logs := multiset(Emitted(env, false, calls))[n.Id()];
      && logs <= 1
      && (n.Explicitly? ==> (logs == 1 <==> n.known))
      && (n.Requested? ==>
           (logs == 1 <==>
             && !n.under && Captured(env, n.r) && !CutOff(n.r)
             && (n.r.result.Streaming? && !n.r.sync ==>
                  n.r.result.reading.ByBytes? || (!env.installed && n.r.result.reading.ByRaw?))))
  {
    LogsAreOwed(env, calls, false, Nodes(calls, false)[k].Id());
    CountDistinct(Nodes(calls, false), OwedIn(env), k);
  }

  /** The number of nodes with p. */
  function Total(nodes: seq<Node>, p: Node -> bool): nat {
    if nodes == [] then 0 else (if p(nodes[0]) then 1 else 0) + Total(nodes[1..], p)
  }

  lemma {:induction false} TotalAppend(a: seq<Node>, b: seq<Node>, p: Node -> bool)
    ensures Total(a + b, p) == Total(a, p) + Total(b, p)
  {
    if a == [] {
      assert a + b == b;
    } else {
      assert (a + b)[1..] == a[1..] + b;
      TotalAppend(a[1..], b, p);
    }
  }

  lemma {:induction false} LogSize(env: Env, calls: Calls, under: bool)
    ensures |Emitted(env, under, calls)| == Total(Nodes(calls, under), OwedIn(env))
  {
    match calls
    case NoCalls =>
    case Complete(x, known, inner, next) =>
      var first, deep := [Explicitly(x, known)], if known then Nodes(inner, true) else [];
      LogSize(env, next, under);
      if known { LogSize(env, inner, true); }
      TotalAppend(first + deep, Nodes(next, under), OwedIn(env));
      TotalAppend(first, deep, OwedIn(env));
      assert first[1..] == [];
    case Http(r, next) =>
      var first := [Requested(r, under)];
      LogSize(env, next, under);
      TotalAppend(first, Nodes(next, under), OwedIn(env));
      assert first[1..] == [];
  }

  function PromisedIn(env: Env): Node -> bool { (n: Node) => Promised(env, n) }

  lemma {:induction false} OwedArePromised(env: Env, nodes: seq<Node>)
    ensures Total(nodes, OwedIn(env)) <= Total(nodes, PromisedIn(env))
    ensures Total(nodes, OwedIn(env)) == Total(nodes, PromisedIn(env)) <==> KeepsPromises(env, nodes)
  {
    if nodes != [] {
      OwedArePromised(env, nodes[1..]);
      FirstAndRest(env, nodes);
    }
  }

  predicate KeepsPromises(env: Env, nodes: seq<Node>) {
    forall k | 0 <= k < |nodes| :: Promised(env, nodes[k]) ==> Owed(env, nodes[k])
  }

  lemma FirstAndRest(env: Env, nodes: seq<Node>)
    requires nodes != []
    ensures KeepsPromises(env, nodes) <==>
      (Promised(env, nodes[0]) ==> Owed(env, nodes[0])) && KeepsPromises(env, nodes[1..])
  {
    assert forall k | 0 < k < |nodes| :: nodes[k] == nodes[1..][k - 1];
  }

  /** A host sees no more logs than promised, and as many exactly when no promised
      call is one of the three exceptions. */
  lemma OneLogPerCall(env: Env, calls: Calls)
    ensures var nodes := Nodes(calls, false);
      && |Emitted(env, false, calls)| <= Total(nodes, PromisedIn(env))
      && (|Emitted(env, false, calls)| == Total(nodes, PromisedIn(env)) <==> KeepsPromises(env, nodes))
  {
    LogSize(env, calls, false);
    OwedArePromised(env, Nodes(calls, false));
  }

  /** A client with both capture modes is logged as one with the patch alone. */
  lemma NeverTwice(env: Env, r: Request)
    ensures var both := Emitted(env, false, Http(r.(transport := true), NoCalls));
      |both| <= 1 && (env.installed ==> both == Emitted(env, false, Http(r.(transport := false), NoCalls)))
  {
  }

  // ---- promised and not logged ----------------------------------------------------------

  const PATCHED: Env := Env(true, true)
  const UNCHANGED: Env := Env(true, false)

  /** A captured request whose task is cancelled, while sending or while the capture
      reads the body, in either mode. */
  lemma CancelledIsUnlogged(env: Env, body: bool) returns (r: Request)
    requires env == PATCHED || env == UNCHANGED
    ensures r.result == if body then Buffered(CutShort) else SendCancelled
    ensures Promised(env, Requested(r, false)) && Emitted(env, false, Http(r, NoCalls)) == []
  {
    r := Request(0, true, true, false, true, if body then Buffered(CutShort) else SendCancelled);
  }

  /** A stream drained with `aiter_raw` on a patched client; the transport alone would
      have logged it. */
  lemma RawIsUnlogged() returns (r: Request)
    ensures r.transport && r.result == Streaming(ByRaw)
    ensures Promised(PATCHED, Requested(r, false)) && Emitted(PATCHED, false, Http(r, NoCalls)) == []
    ensures Emitted(UNCHANGED, false, Http(r, NoCalls)) == [r.id]
  {
    r := Request(0, true, true, false, true, Streaming(ByRaw));
  }

  /** An explicit call of an unregistered provider raises before its try block. */
  lemma UnknownIsUnlogged(env: Env) returns (calls: Calls)
    ensures calls == Complete(0, false, NoCalls, NoCalls)
    ensures Promised(env, Nodes(calls, false)[0]) && Emitted(env, false, calls) == []
  {
    calls := Complete(0, false, NoCalls, NoCalls);
  }
}
