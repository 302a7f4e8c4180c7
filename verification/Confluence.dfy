/** The settled table depends only on what was published, not on the schedule. */
module Confluence {
  import opened Wrappers
  import opened Regex
  import opened Events
  import opened Bus
  import opened WorkerProtocol
  import opened Delivery

  /** The published events, without their stamps. */
  ghost function Catalog(log: seq<Entry>): set<(string, Columns)> {
    set id | 0 <= id < |log| && Validate(Decode(log[id])).Some? ::
      (Validate(Decode(log[id])).value.requestId, Validate(Decode(log[id])).value.cols)
  }

  /** The table's content, up to received_at. */
  ghost function Contents(rows: seq<Row>): set<(string, Columns)> {
    set k | 0 <= k < |rows| :: (rows[k].requestId, rows[k].cols)
  }

  ghost function Derived(second: Option<Engine>, events: set<(string, Columns)>): set<(string, Columns)> {
    set e | e in events :: (e.0, Derive(e.1, second))
  }

  /** Entries that share a request_id differ at most in received_at. */
  ghost predicate Consistent(events: set<(string, Columns)>) {
    forall a, b | a in events && b in events && a.0 == b.0 :: a.1 == b.1
  }

  /** No message was parked for a processing error. */
  predicate NoFailures(s: State) { forall p | p in s.bus.dlq :: p.reason.Invalid? }

  /** Whatever the schedule, every row derives from a published event. */
  lemma RowsArePublished(c: Setup, s: State)
    requires Inv(c, s)
    ensures Contents(s.table.rows) <= Derived(c.second, Catalog(s.bus.log))
  {
    FirstWritesMeaning(s.table.offers);
    forall x | x in Contents(s.table.rows) ensures x in Derived(c.second, Catalog(s.bus.log)) {
      var k :| 0 <= k < |s.table.rows| && x == (s.table.rows[k].requestId, s.table.rows[k].cols);
      var row := s.table.rows[k];
      assert row in s.table.rows;
      assert FromLog(c.second, s.bus, row);
      var id :| 0 <= id < |s.bus.log| && MakesRow(c.second, s.bus.log[id], row);
      var e := Validate(Decode(s.bus.log[id])).value;
      assert (e.requestId, e.cols) in Catalog(s.bus.log);
    }
  }

  lemma EventHasRow(c: Setup, s: State, e: (string, Columns))
    requires Inv(c, s) && Settled(s) && NoFailures(s) && e in Catalog(s.bus.log)
    ensures HasRow(s.table.rows, e.0)
  {
    var id :| 0 <= id < |s.bus.log| && Validate(Decode(s.bus.log[id])).Some?
      && e == (Validate(Decode(s.bus.log[id])).value.requestId, Validate(Decode(s.bus.log[id])).value.cols);
    assert id in s.bus.pending || id in s.bus.acked;
    assert !InDlq(s.bus, id);
    assert Stored(s.bus, s.table, id);
  }

  lemma PublishedAreRows(c: Setup, s: State)
    requires Inv(c, s) && Settled(s) && NoFailures(s) && Consistent(Catalog(s.bus.log))
    ensures Derived(c.second, Catalog(s.bus.log)) <= Contents(s.table.rows)
  {
    forall x | x in Derived(c.second, Catalog(s.bus.log)) ensures x in Contents(s.table.rows) {
      var e :| e in Catalog(s.bus.log) && x == (e.0, Derive(e.1, c.second));
      EventHasRow(c, s, e);
      RowMatches(c, s, e);
    }
  }

  /** The row kept for a published event has its columns. */
  lemma RowMatches(c: Setup, s: State, e: (string, Columns))
    requires Inv(c, s) && Consistent(Catalog(s.bus.log)) && e in Catalog(s.bus.log)
    requires HasRow(s.table.rows, e.0)
    ensures (e.0, Derive(e.1, c.second)) in Contents(s.table.rows)
  {
    var k :| 0 <= k < |s.table.rows| && s.table.rows[k].requestId == e.0;
    var row := s.table.rows[k];
    RowsArePublished(c, s);
    assert (row.requestId, row.cols) in Contents(s.table.rows);
    var e' :| e' in Catalog(s.bus.log) && (row.requestId, row.cols) == (e'.0, Derive(e'.1, c.second));
  }

  /** The table of a settled run without processing failures: the derived columns of
      exactly the published events, one row per id. */
  lemma SettledTable(c: Setup, n: nat, steps: seq<Step>)
    requires Legal(c, Init(n), steps)
    requires var s := Exec(c, Init(n), steps); Settled(s) && NoFailures(s) && Consistent(Catalog(s.bus.log))
    ensures var s := Exec(c, Init(n), steps);
      Contents(s.table.rows) == Derived(c.second, Catalog(s.bus.log)) && UniqueIds(s.table.rows)
  {
    InitInv(c, n);
    RunKeeps(c, Init(n), steps);
    var s := Exec(c, Init(n), steps);
    RowsArePublished(c, s);
    PublishedAreRows(c, s);
    FirstWritesMeaning(s.table.offers);
  }

  /** Two runs, with any workers and any schedules, that settle the same published
      events without processing failures end with the same table up to
      received_at: the derived columns of exactly those events, one row per id. */
  lemma Confluent(c: Setup, n1: nat, steps1: seq<Step>, n2: nat, steps2: seq<Step>)
    requires Legal(c, Init(n1), steps1) && Legal(c, Init(n2), steps2)
    requires var s1, s2 := Exec(c, Init(n1), steps1), Exec(c, Init(n2), steps2);
      && Catalog(s1.bus.log) == Catalog(s2.bus.log) && Consistent(Catalog(s1.bus.log))
      && Settled(s1) && Settled(s2) && NoFailures(s1) && NoFailures(s2)
    ensures var s1, s2 := Exec(c, Init(n1), steps1), Exec(c, Init(n2), steps2);
      && Contents(s1.table.rows) == Contents(s2.table.rows) == Derived(c.second, Catalog(s1.bus.log))
      && UniqueIds(s1.table.rows) && UniqueIds(s2.table.rows)
  {
    SettledTable(c, n1, steps1);
    SettledTable(c, n2, steps2);
  }
}
