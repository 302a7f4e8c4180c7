/** The abstract operations behind EventStream and IngestionDB: a Redis stream
    with one consumer group, its dead-letter stream, and the log table. */
module Bus {
  import opened Wrappers
  import opened Events

  /** A stream entry's `data` field: JSON text of a payload, or no JSON at all. */
  datatype Entry = Json(raw: Raw) | Garbage(text: string)

  /** `_decode`: text that is no JSON is wrapped, so that validation refuses it. */
  function Decode(e: Entry): Raw {
    match e
    case Json(raw) => raw
    case Garbage(text) => Malformed(text)
  }

  /** The entry `publish` writes for one accepted event of a request. */
  function Published(raw: Raw, now: int): Entry
    requires Validate(raw).Some?
  {
    Json(Stamp(Validate(raw).value, now))
  }

  datatype Reason = Invalid | Processing
  datatype Parked = Parked(raw: Raw, reason: Reason)

  /** Entry ids are positions in the log, which is never trimmed. The group has
      delivered the entries below cursor; pending maps the unacked ones to their
      consumer; acked holds the others. */
  datatype Stream = Stream(log: seq<Entry>, cursor: nat, pending: map<nat, nat>, acked: set<nat>, dlq: seq<Parked>)

  const EMPTY: Stream := Stream([], 0, map[], {}, [])

  function XAdd(s: Stream, e: Entry): Stream { s.(log := s.log + [e]) }

  /** The ids from..from + n. */
  function Ids(from: nat, n: nat): (ids: seq<nat>)
    ensures |ids| == n && forall k | 0 <= k < n :: ids[k] == from + k
    ensures forall i :: i in ids <==> from <= i < from + n
  {
    if n == 0 then [] else Ids(from, n - 1) + [from + n - 1]
  }

  /** XREADGROUP with id ">": the next n entries become pending for consumer w. */
  function XReadGroup(s: Stream, w: nat, n: nat): Stream
    requires s.cursor + n <= |s.log|
  {
    s.(cursor := s.cursor + n,
       pending := s.pending + (map i | i in Ids(s.cursor, n) :: w))
  }

  /** XAUTOCLAIM: pending entries change hands; idle times are left open, so any
      pending entry may be claimed. */
  function XAutoClaim(s: Stream, w: nat, ids: seq<nat>): Stream
    requires forall k | 0 <= k < |ids| :: ids[k] in s.pending
  {
    s.(pending := s.pending + (map i | i in ids :: w))
  }

  function XAck(s: Stream, id: nat): Stream {
    if id in s.pending then s.(pending := s.pending - {id}, acked := s.acked + {id}) else s
  }

  function Park(s: Stream, p: Parked): Stream { s.(dlq := s.dlq + [p]) }

  /** XLEN, and the entries no consumer has been given yet. */
  function Depth(s: Stream): nat { |s.log| }
  function Undelivered(s: Stream): int { |s.log| - s.cursor }

  /** The table's rows in commit order, and every row ever offered to it. */
  datatype Table = Table(rows: seq<Row>, offers: seq<Row>)

  predicate HasRow(rows: seq<Row>, id: string) {
    exists k :: 0 <= k < |rows| && rows[k].requestId == id
  }

  /** INSERT ... ON CONFLICT (request_id) DO NOTHING, on the rows alone. */
  function AddRow(rows: seq<Row>, row: Row): seq<Row> {
    if HasRow(rows, row.requestId) then rows else rows + [row]
  }

  function Insert(t: Table, row: Row): Table { Table(AddRow(t.rows, row), t.offers + [row]) }

  // ---- what the stream keeps ------------------------------------------------------

  /** Delivered entries are pending or acked, never both. */
  ghost predicate Tidy(s: Stream) {
    && s.cursor <= |s.log|
    && s.pending.Keys !! s.acked
    && (forall i: nat :: i in s.pending || i in s.acked <==> i < s.cursor)
  }

  lemma {:induction false} CountBelow(n: nat, ids: set<nat>)
    requires forall i: nat :: i in ids <==> i < n
    ensures |ids| == n
  {
    if n > 0 { CountBelow(n - 1, ids - {n - 1}); } else { assert ids == {}; }
  }

  lemma SubsetSize(a: set<nat>, b: set<nat>)
    requires a <= b
    ensures |a| <= |b| && (a != b ==> |a| < |b|)
  {
    assert b == a + (b - a) && a !! (b - a);
    assert |b| == |a| + |b - a|;
    if a != b {
      var x :| x in b && x !in a;
      assert x in b - a;
    }
  }

  /** Stream length = undelivered + pending + acked. */
  lemma DepthSplits(s: Stream)
    requires Tidy(s)
    ensures Depth(s) == Undelivered(s) + |s.pending| + |s.acked|
  {
    CountBelow(s.cursor, s.pending.Keys + s.acked);
    assert |s.pending.Keys + s.acked| == |s.pending.Keys| + |s.acked|;
  }

  /** Nothing recorded is ever taken back. */
  predicate Grows(s: Stream, s': Stream) {
    s.log <= s'.log && s.cursor <= s'.cursor && s.acked <= s'.acked && s.dlq <= s'.dlq
  }

  /** A read hands exactly the next n entries to w and leaves the others with whoever
      had them; a claim moves exactly the given ones to w. */
  lemma OwnersMeaning(s: Stream, w: nat, n: nat, ids: seq<nat>)
    requires s.cursor + n <= |s.log| && forall k | 0 <= k < |ids| :: ids[k] in s.pending
    ensures forall id: nat :: id in XReadGroup(s, w, n).pending <==>
      id in s.pending || s.cursor <= id < s.cursor + n
    ensures forall id: nat | id in XReadGroup(s, w, n).pending ::
      XReadGroup(s, w, n).pending[id] == if s.cursor <= id < s.cursor + n then w else s.pending[id]
    ensures XAutoClaim(s, w, ids).pending.Keys == s.pending.Keys
    ensures forall id | id in s.pending :: XAutoClaim(s, w, ids).pending[id] == if id in ids then w else s.pending[id]
  {
  }

  // ---- what the table keeps ---------------------------------------------------------

  /** The rows that carry their request_id for the first time. */
  function FirstWrites(offers: seq<Row>): (rows: seq<Row>) {
    if offers == [] then []
    else
      var n := |offers| - 1;
      if HasRow(offers[..n], offers[n].requestId) then FirstWrites(offers[..n])
      else FirstWrites(offers[..n]) + [offers[n]]
  }

  ghost predicate UniqueIds(rows: seq<Row>) {
    forall i, j | 0 <= i < j < |rows| :: rows[i].requestId != rows[j].requestId
  }

  /** The first offer for an id is the row kept for it. */
  ghost predicate FirstOffer(offers: seq<Row>, k: nat) {
    k < |offers| && !HasRow(offers[..k], offers[k].requestId)
  }

  lemma {:induction false} FirstWritesMeaning(offers: seq<Row>)
    ensures UniqueIds(FirstWrites(offers))
    ensures forall id :: HasRow(FirstWrites(offers), id) <==> HasRow(offers, id)
    ensures forall row :: row in FirstWrites(offers) <==> exists k: nat :: FirstOffer(offers, k) && offers[k] == row
  {
    if offers != [] {
      var n := |offers| - 1;
      FirstWritesMeaning(offers[..n]);
      HasRowAppend(offers[..n], offers[n]);
      assert offers == offers[..n] + [offers[n]];
      HasRowAppend(FirstWrites(offers[..n]), offers[n]);
      forall row
        ensures row in FirstWrites(offers) <==> exists k: nat :: FirstOffer(offers, k) && offers[k] == row
      {
        FirstOfferStep(offers, row);
      }
    }
  }

  lemma HasRowAppend(rows: seq<Row>, row: Row)
    ensures forall id :: HasRow(rows + [row], id) <==> HasRow(rows, id) || row.requestId == id
  {
    var all := rows + [row];
    forall id ensures HasRow(all, id) <==> HasRow(rows, id) || row.requestId == id {
      if HasRow(rows, id) {
        var k :| 0 <= k < |rows| && rows[k].requestId == id;
        assert all[k].requestId == id;
      }
      assert all[|rows|] == row;
    }
  }

  lemma FirstOfferStep(offers: seq<Row>, row: Row)
    requires offers != []
    ensures var n := |offers| - 1;
      (exists k: nat :: FirstOffer(offers, k) && offers[k] == row) <==>
      (exists k: nat :: FirstOffer(offers[..n], k) && offers[..n][k] == row)
      || (FirstOffer(offers, n) && offers[n] == row)
  {
    var n := |offers| - 1;
    forall k: nat | k < n ensures FirstOffer(offers, k) <==> FirstOffer(offers[..n], k) {
      assert offers[..n][..k] == offers[..k];
    }
    if k: nat :| FirstOffer(offers[..n], k) && offers[..n][k] == row {
      assert FirstOffer(offers, k) && offers[k] == row;
    }
    if k: nat :| FirstOffer(offers, k) && offers[k] == row {
      if k < n { assert FirstOffer(offers[..n], k) && offers[..n][k] == row; }
    }
  }

  /** The table is exactly the first writes of everything offered. */
  lemma InsertKeepsFirst(t: Table, row: Row)
    requires t.rows == FirstWrites(t.offers)
    ensures Insert(t, row).rows == FirstWrites(Insert(t, row).offers)
    ensures t.rows <= Insert(t, row).rows && HasRow(Insert(t, row).rows, row.requestId)
  {
    var offers := t.offers + [row];
    assert offers[..|t.offers|] == t.offers;
    FirstWritesMeaning(t.offers);
    HasRowAppend(t.rows, row);
  }
}
