/** One refinement phase as a function: chunks of outcomes are inserted and
    counted one after the other. The chunk sizes turn out not to matter for
    the table and the load count. */
module Phase {
  import opened Domain
  import opened Tables

  /** The table of the phase, the rejections, and the two counters. */
  datatype PhaseState = PhaseState(table: seq<Row>, rejections: seq<Rejection>, loaded: nat, rejected: nat)

  /** The refined rows, in order. */
  function RowsOf(os: seq<Outcome>): seq<Row> {
    if os == [] then []
    else
      var n := |os| - 1;
      RowsOf(os[..n]) + (if os[n].Refined? then [os[n].row] else [])
  }

  /** The rejections of the refused rows, in order. */
  function RecordsOf(os: seq<Outcome>): seq<Rejection> {
    if os == [] then []
    else
      var n := |os| - 1;
      RecordsOf(os[..n]) + (if os[n].Refused? then os[n].rejections else [])
  }

  function RefusedCount(os: seq<Outcome>): nat {
    if os == [] then 0
    else RefusedCount(os[..|os| - 1]) + (if os[|os| - 1].Refused? then 1 else 0)
  }

  predicate NoneRaised(os: seq<Outcome>) {
    forall o :: o in os ==> !o.Raised?
  }

  /** The single record for all duplicates of a chunk. Selections get the label
      reason: only the odd tag phase is told apart. */
  function DuplicateRejection(taskId: string, stage: Stage, count: nat): Rejection {
    Rejection(taskId, stage, if stage == OddTaggingStage then DuplicateTagging else DuplicateLabel,
              Batch, UniqueConstraint, IgnoredRows(count))
  }

  function DuplicateRecords(taskId: string, stage: Stage, count: int): seq<Rejection> {
    if count > 0 then [DuplicateRejection(taskId, stage, count)] else []
  }

  function Ignored(table: seq<Row>, os: seq<Outcome>): int {
    |RowsOf(os)| - (|InsertIgnore(table, RowsOf(os))| - |table|)
  }

  /** The effect of one chunk. */
  function ChunkStep(taskId: string, stage: Stage, st: PhaseState, os: seq<Outcome>): PhaseState {
    InsertIgnoreGrows(st.table, RowsOf(os));
    var table := InsertIgnore(st.table, RowsOf(os));
    var records := RecordsOf(os) + DuplicateRecords(taskId, stage, Ignored(st.table, os));
    PhaseState(table, st.rejections + records, st.loaded + (|table| - |st.table|), st.rejected + |records|)
  }

  function Min(a: nat, b: nat): nat {
    if a < b then a else b
  }

  function RunChunks(taskId: string, stage: Stage, st: PhaseState, os: seq<Outcome>, size: nat): PhaseState
    requires size >= 1
    decreases |os|
  {
    if os == [] then st
    else
      var k := Min(size, |os|);
      RunChunks(taskId, stage, ChunkStep(taskId, stage, st, os[..k]), os[k..], size)
  }

  lemma {:induction false} RowsOfConcat(a: seq<Outcome>, b: seq<Outcome>)
    ensures RowsOf(a + b) == RowsOf(a) + RowsOf(b)
    ensures RecordsOf(a + b) == RecordsOf(a) + RecordsOf(b)
    ensures RefusedCount(a + b) == RefusedCount(a) + RefusedCount(b)
    decreases |b|
  {
    if b == [] {
      assert a + b == a;
    } else {
      var n := |b| - 1;
      RowsOfConcat(a, b[..n]);
      var c := a + b;
      assert c != [] && c[..|c| - 1] == a + b[..n] && c[|c| - 1] == b[n];
      assert RowsOf(c) == RowsOf(a) + RowsOf(b);
      assert RecordsOf(c) == RecordsOf(a) + RecordsOf(b);
    }
  }

  /** Nested chunking refines one-pass deduplication: for every stream and every
      chunk size, the table is extended by the first row of each new key and
      `loaded` counts the rows added. */
  lemma {:induction false} ChunkingIsOnePass(taskId: string, stage: Stage, st: PhaseState, os: seq<Outcome>, size: nat)
    requires size >= 1
    ensures var st' := RunChunks(taskId, stage, st, os, size);
      && st'.table == st.table + FirstOccurrences(st.table, RowsOf(os))
      && st'.table == InsertIgnore(st.table, RowsOf(os))
      && st'.loaded == st.loaded + |FirstOccurrences(st.table, RowsOf(os))|
    decreases |os|
  {
    InsertIgnoreAddsFirstOccurrences(st.table, RowsOf(os));
    if os == [] {
    } else {
      var k := Min(size, |os|);
      var mid := ChunkStep(taskId, stage, st, os[..k]);
      ChunkingIsOnePass(taskId, stage, mid, os[k..], size);
      InsertIgnoreAddsFirstOccurrences(st.table, RowsOf(os[..k]));
      InsertIgnoreAddsFirstOccurrences(mid.table, RowsOf(os[k..]));
      RowsOfConcat(os[..k], os[k..]);
      assert os == os[..k] + os[k..];
      InsertIgnoreConcat(st.table, RowsOf(os[..k]), RowsOf(os[k..]));
    }
  }

  /* ---- conservation ---- */

  /** Rows that duplicate records in `records` account for. */
  function IgnoredTotal(records: seq<Rejection>): nat {
    if records == [] then 0
    else
      IgnoredTotal(records[..|records| - 1]) +
      (match records[|records| - 1].detail case Message => 0 case IgnoredRows(k) => k)
  }

  /** Chunks in which INSERT IGNORE skipped at least one row. */
  function DuplicateChunks(taskId: string, stage: Stage, st: PhaseState, os: seq<Outcome>, size: nat): nat
    requires size >= 1
    decreases |os|
  {
    if os == [] then 0
    else
      var k := Min(size, |os|);
      (if Ignored(st.table, os[..k]) > 0 then 1 else 0) +
      DuplicateChunks(taskId, stage, ChunkStep(taskId, stage, st, os[..k]), os[k..], size)
  }

  /** Refiners never produce the duplicate record themselves. */
  predicate PlainDetails(os: seq<Outcome>) {
    forall o :: o in os && o.Refused? ==> forall r :: r in o.rejections ==> r.detail == Message
  }

  lemma {:induction false} IgnoredTotalConcat(a: seq<Rejection>, b: seq<Rejection>)
    ensures IgnoredTotal(a + b) == IgnoredTotal(a) + IgnoredTotal(b)
    decreases |b|
  {
    if b == [] {
      assert a + b == a;
    } else {
      var n := |b| - 1;
      IgnoredTotalConcat(a, b[..n]);
      assert (a + b)[..|a| + n] == a + b[..n];
    }
  }

  lemma {:induction false} PlainRecords(records: seq<Rejection>)
    requires forall r :: r in records ==> r.detail == Message
    ensures IgnoredTotal(records) == 0
    decreases |records|
  {
    if records == [] {
    } else {
      PlainRecords(records[..|records| - 1]);
    }
  }

  /** Every outcome is counted once: as a row, or as a refusal. */
  lemma {:induction false} OutcomesSplit(os: seq<Outcome>)
    requires NoneRaised(os)
    ensures |os| == |RowsOf(os)| + RefusedCount(os)
    ensures PlainDetails(os) ==> IgnoredTotal(RecordsOf(os)) == 0
    decreases |os|
  {
    if os == [] {
    } else {
      var n := |os| - 1;
      OutcomesSplit(os[..n]);
      assert forall o :: o in os[..n] ==> o in os;
      assert os[n] in os;
      assert !os[n].Refused? ==> RecordsOf(os) == RecordsOf(os[..n]);
      if PlainDetails(os) && os[n].Refused? {
        PlainRecords(os[n].rejections);
        IgnoredTotalConcat(RecordsOf(os[..n]), os[n].rejections);
      }
    }
  }

  lemma ChunkConserves(taskId: string, stage: Stage, st: PhaseState, os: seq<Outcome>)
    requires NoneRaised(os) && PlainDetails(os)
    ensures var st' := ChunkStep(taskId, stage, st, os);
      |os| == (st'.loaded - st.loaded) + (IgnoredTotal(st'.rejections) - IgnoredTotal(st.rejections)) + RefusedCount(os)
  {
    InsertIgnoreGrows(st.table, RowsOf(os));
    OutcomesSplit(os);
    var duplicates := DuplicateRecords(taskId, stage, Ignored(st.table, os));
    assert duplicates != [] ==> duplicates[..0] == [];
    IgnoredTotalConcat(RecordsOf(os), duplicates);
    IgnoredTotalConcat(st.rejections, RecordsOf(os) + duplicates);
  }

  /** Nothing gets lost: every streamed row is loaded, counted in a duplicate
      record, or refused; and the rejected count is the number of records
      saved: those of the refused rows plus one per chunk with a duplicate. */
  lemma {:induction false} PhaseConserves(taskId: string, stage: Stage, st: PhaseState, os: seq<Outcome>, size: nat)
    requires size >= 1 && NoneRaised(os) && PlainDetails(os)
    ensures var st' := RunChunks(taskId, stage, st, os, size);
      && |os| == (st'.loaded - st.loaded) + (IgnoredTotal(st'.rejections) - IgnoredTotal(st.rejections)) +
                 RefusedCount(os)
      && st'.rejected - st.rejected == |st'.rejections| - |st.rejections|
      && st'.rejected - st.rejected == |RecordsOf(os)| + DuplicateChunks(taskId, stage, st, os, size)
      && st.rejections <= st'.rejections
    decreases |os|
  {
    if os == [] {
    } else {
      var k := Min(size, |os|);
      assert os == os[..k] + os[k..];
      RowsOfConcat(os[..k], os[k..]);
      ChunkConserves(taskId, stage, st, os[..k]);
      PhaseConserves(taskId, stage, ChunkStep(taskId, stage, st, os[..k]), os[k..], size);
    }
  }
}
