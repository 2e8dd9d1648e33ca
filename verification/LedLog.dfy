/** The entry tables of one generation: insertion, posting, reversal and balances. */
module LedLog {
  import opened Results
  import opened Sequences
  import opened LedModel

  datatype EntryKind = OpeningEntry | PostingEntry | ReversalEntry

  /** A row of the inventory, fund or party entry table, told apart by its dimension. */
  datatype Entry = Entry(
    id: Id, kind: EntryKind, doc: Id, line: Id, revision: nat,
    date: nat, occurredAt: nat, dim: Dim, delta: int)

  type Log = seq<Entry>

  // ------------------------------------------------------------ insertion

  datatype IndexKey = IndexKey(kind: EntryKind, doc: Id, line: Id, revision: nat, slot: Slot)

  function KeyOf(e: Entry): IndexKey {
    IndexKey(e.kind, e.doc, e.line, e.revision, SlotOf(e.dim))
  }

  /** Two rows one table cannot both hold: same primary key, or same unique index key. */
  predicate Collide(x: Entry, y: Entry) {
    TableOf(x.dim) == TableOf(y.dim) && (x.id == y.id || KeyOf(x) == KeyOf(y))
  }

  ghost predicate Apart(x: Entry, y: Entry) {
    !Collide(x, y)
  }

  /** INSERT ... ON CONFLICT DO NOTHING, under the check that the delta is not zero. */
  function Insert(log: Log, e: Entry): Result<Log> {
    if e.delta == 0 then Err(Conflict)
    else if exists x :: x in log && Collide(x, e) then Ok(log)
    else Ok(log + [e])
  }

  /** What all rows of one posting share. */
  datatype Posting = Posting(kind: EntryKind, doc: Id, revision: nat, occurredAt: nat)

  function EntryOf(p: Posting, row: Row, id: Id): Entry {
    Entry(id, p.kind, p.doc, row.line, p.revision, row.date, p.occurredAt, row.dim, row.delta)
  }

  /** Inserts the rows one by one, giving them the ids from `id` on. */
  function InsertRows(log: Log, p: Posting, rows: seq<Row>, id: Id): Result<Log> {
    if |rows| == 0 then Ok(log)
    else
      var front :- InsertRows(log, p, rows[..|rows| - 1], id);
      Insert(front, EntryOf(p, rows[|rows| - 1], id + |rows| - 1))
  }

  function Stamped(p: Posting, rows: seq<Row>, id: Id): (es: Log)
    ensures |es| == |rows|
    ensures forall i :: 0 <= i < |rows| ==> es[i] == EntryOf(p, rows[i], id + i)
    ensures forall e ::
              e in es ==> e.kind == p.kind && e.doc == p.doc && e.revision == p.revision && id <= e.id < id + |rows|
  {
    if |rows| == 0 then []
    else Stamped(p, rows[..|rows| - 1], id) + [EntryOf(p, rows[|rows| - 1], id + |rows| - 1)]
  }

  /** No row of the posting can collide with what the log already holds. */
  ghost predicate FreshPosting(log: Log, p: Posting, id: Id) {
    forall x :: x in log ==> x.id < id && (x.kind != p.kind || x.doc != p.doc || x.revision != p.revision)
  }

  /** ON CONFLICT never swallows a row of a fresh posting: the log grows by exactly the stamped rows. */
  lemma {:induction false} InsertRowsAppends(log: Log, p: Posting, rows: seq<Row>, id: Id)
    requires FreshPosting(log, p, id)
    requires Pairwise(rows, ApartInIndex)
    requires forall r :: r in rows ==> r.delta != 0
    ensures InsertRows(log, p, rows, id) == Ok(log + Stamped(p, rows, id))
  {
    if |rows| == 0 {
      assert log + Stamped(p, rows, id) == log;
    } else {
      var n := |rows| - 1;
      var front, e := rows[..n], EntryOf(p, rows[n], id + n);
      InsertRowsAppends(log, p, front, id);
      var before := log + Stamped(p, front, id);
      forall x | x in before
        ensures !Collide(x, e)
      {
        if x !in log {
          var i :| 0 <= i < n && x == EntryOf(p, front[i], id + i);
          assert ApartInIndex(rows[i], rows[n]);
        }
      }
      assert rows[n] in rows;
      assert Insert(before, e) == Ok(before + [e]);
      assert before + [e] == log + Stamped(p, rows, id);
    }
  }

  /** Stopping early cannot turn a failing posting into a succeeding one. */
  lemma {:induction false} InsertRowsPrefix(log: Log, p: Posting, a: seq<Row>, b: seq<Row>, id: Id)
    ensures InsertRows(log, p, a + b, id)
         == if InsertRows(log, p, a, id).Err? then InsertRows(log, p, a, id)
            else InsertRows(InsertRows(log, p, a, id).value, p, b, id + |a|)
  {
    if |b| == 0 {
      assert a + b == a;
    } else {
      assert (a + b)[..|a + b| - 1] == a + b[..|b| - 1];
      InsertRowsPrefix(log, p, a, b[..|b| - 1], id);
    }
  }

  // ------------------------------------------------------------- balances

  /** Selects rows by document, dimension and effective date. */
  type View = (Id, Dim, nat) -> bool

  function EntryWeight(view: View): Entry -> int {
    (e: Entry) => if view(e.doc, e.dim, e.date) then e.delta else 0
  }

  function RowWeight(view: View, doc: Id): Row -> int {
    (r: Row) => if view(doc, r.dim, r.date) then r.delta else 0
  }

  function AsOf(dim: Dim, asOf: nat): View {
    (doc, d, date) => d == dim && date <= asOf
  }

  /** The balance queries: the sum of a dimension's deltas effective on or before a date. */
  function Balance(log: Log, dim: Dim, asOf: nat): int {
    Sum(log, EntryWeight(AsOf(dim, asOf)))
  }

  lemma {:induction false} SumStamped(p: Posting, rows: seq<Row>, id: Id, view: View)
    ensures Sum(Stamped(p, rows, id), EntryWeight(view)) == Sum(rows, RowWeight(view, p.doc))
  {
    if |rows| != 0 {
      SumStamped(p, rows[..|rows| - 1], id, view);
      var es := Stamped(p, rows, id);
      assert es[..|es| - 1] == Stamped(p, rows[..|rows| - 1], id);
    }
  }

  // ------------------------------------------------------- rows by source

  function RowOf(e: Entry): Row {
    Row(e.line, e.date, e.dim, e.delta)
  }

  function RowsOf(es: Log): (rows: seq<Row>)
    ensures |rows| == |es|
    ensures forall i :: 0 <= i < |es| ==> rows[i] == RowOf(es[i])
  {
    if |es| == 0 then [] else RowsOf(es[..|es| - 1]) + [RowOf(es[|es| - 1])]
  }

  predicate IsPosting(e: Entry, doc: Id) {
    e.kind.PostingEntry? && e.doc == doc
  }

  /** The POSTING rows of a document in one table, as the source queries list them. */
  function PostingsIn(log: Log, doc: Id, table: Table): Log {
    Filter(log, (e: Entry) => IsPosting(e, doc) && TableOf(e.dim) == table)
  }

  /** The POSTING rows of one execution of a document. */
  function PostingsAt(log: Log, doc: Id, revision: nat): Log {
    Filter(log, (e: Entry) => IsPosting(e, doc) && e.revision == revision)
  }

  predicate HasEntriesForSource(log: Log, doc: Id) {
    exists e :: e in log && e.doc == doc
  }

  function Max(a: nat, b: nat): nat {
    if a < b then b else a
  }

  function MaxRevision(es: Log): nat {
    if |es| == 0 then 0 else Max(MaxRevision(es[..|es| - 1]), es[|es| - 1].revision)
  }

  lemma {:induction false} MaxRevisionBounds(es: Log)
    ensures forall e :: e in es ==> e.revision <= MaxRevision(es)
    ensures MaxRevision(es) != 0 ==> exists e :: e in es && e.revision == MaxRevision(es)
  {
    if |es| != 0 {
      MaxRevisionBounds(es[..|es| - 1]);
      assert es[|es| - 1] in es;
    }
  }

  /** `maxSourceRevision` over the three tables. */
  function NewestPosting(log: Log, doc: Id): nat {
    Max(Max(MaxRevision(PostingsIn(log, doc, InventoryTable)), MaxRevision(PostingsIn(log, doc, FundTable))),
        MaxRevision(PostingsIn(log, doc, PartyTable)))
  }

  lemma NewestPostingBounds(log: Log, doc: Id)
    ensures forall e :: e in log && IsPosting(e, doc) ==> e.revision <= NewestPosting(log, doc)
    ensures NewestPosting(log, doc) != 0
        ==> exists e :: e in log && IsPosting(e, doc) && e.revision == NewestPosting(log, doc)
  {
    MaxRevisionBounds(PostingsIn(log, doc, InventoryTable));
    MaxRevisionBounds(PostingsIn(log, doc, FundTable));
    MaxRevisionBounds(PostingsIn(log, doc, PartyTable));
    forall e | e in log && IsPosting(e, doc)
      ensures e.revision <= NewestPosting(log, doc)
    {
      assert e in PostingsIn(log, doc, TableOf(e.dim));
    }
  }

  function Negated(rows: seq<Row>): (r: seq<Row>)
    ensures |r| == |rows|
    ensures forall i :: 0 <= i < |rows| ==> r[i] == rows[i].(delta := -rows[i].delta)
  {
    if |rows| == 0 then []
    else Negated(rows[..|rows| - 1]) + [rows[|rows| - 1].(delta := -rows[|rows| - 1].delta)]
  }

  function RevisedAt(es: Log, revision: nat): Log {
    Filter(es, (e: Entry) => e.revision == revision)
  }

  /** The rows one reverse loop appends: the negated rows of `revision` among `es`. */
  function ReversedIn(es: Log, revision: nat): seq<Row> {
    Negated(RowsOf(RevisedAt(es, revision)))
  }

  /** Everything `reverseDocumentEntries` appends: the newest posting, negated, table by table. */
  function ReversalRows(log: Log, doc: Id): seq<Row> {
    var revision := NewestPosting(log, doc);
    ReversedIn(PostingsIn(log, doc, InventoryTable), revision)
    + ReversedIn(PostingsIn(log, doc, FundTable), revision)
    + ReversedIn(PostingsIn(log, doc, PartyTable), revision)
  }

  lemma {:induction false} SumNegated(rows: seq<Row>, view: View, doc: Id)
    ensures Sum(Negated(rows), RowWeight(view, doc)) == -Sum(rows, RowWeight(view, doc))
  {
    if |rows| != 0 {
      SumNegated(rows[..|rows| - 1], view, doc);
      var r := Negated(rows);
      assert r[..|r| - 1] == Negated(rows[..|rows| - 1]);
    }
  }

  lemma {:induction false} SumRowsOf(es: Log, view: View, doc: Id)
    requires forall e :: e in es ==> e.doc == doc
    ensures Sum(RowsOf(es), RowWeight(view, doc)) == Sum(es, EntryWeight(view))
  {
    if |es| != 0 {
      SumRowsOf(es[..|es| - 1], view, doc);
      var r := RowsOf(es);
      assert r[..|r| - 1] == RowsOf(es[..|es| - 1]);
    }
  }

  predicate ReversedFrom(e: Entry, doc: Id, revision: nat, table: Table) {
    IsPosting(e, doc) && e.revision == revision && TableOf(e.dim) == table
  }

  function ReversedWeight(doc: Id, revision: nat, table: Table, view: View): Entry -> int {
    Where((e: Entry) => ReversedFrom(e, doc, revision, table), EntryWeight(view))
  }

  lemma SumReversedIn(log: Log, doc: Id, table: Table, revision: nat, view: View)
    ensures Sum(ReversedIn(PostingsIn(log, doc, table), revision), RowWeight(view, doc))
         == -Sum(log, ReversedWeight(doc, revision, table, view))
  {
    var listed := PostingsIn(log, doc, table);
    var picked := RevisedAt(listed, revision);
    var inTable := (e: Entry) => IsPosting(e, doc) && TableOf(e.dim) == table;
    var atRevision := (e: Entry) => e.revision == revision;
    SumNegated(RowsOf(picked), view, doc);
    SumRowsOf(picked, view, doc);
    SumFilter(listed, atRevision, EntryWeight(view));
    SumFilter(log, inTable, Where(atRevision, EntryWeight(view)));
    SumEqual(log, Where(inTable, Where(atRevision, EntryWeight(view))), ReversedWeight(doc, revision, table, view));
  }

  lemma SumOverTables(log: Log, doc: Id, revision: nat, view: View)
    ensures Sum(PostingsAt(log, doc, revision), EntryWeight(view))
         == Sum(log, ReversedWeight(doc, revision, InventoryTable, view))
            + Sum(log, ReversedWeight(doc, revision, FundTable, view))
            + Sum(log, ReversedWeight(doc, revision, PartyTable, view))
  {
    var at := (e: Entry) => IsPosting(e, doc) && e.revision == revision;
    var inventory := ReversedWeight(doc, revision, InventoryTable, view);
    var fund := ReversedWeight(doc, revision, FundTable, view);
    var party := ReversedWeight(doc, revision, PartyTable, view);
    SumFilter(log, at, EntryWeight(view));
    var fundOrParty := (e: Entry) => fund(e) + party(e);
    SumSplit(log, fundOrParty, fund, party);
    forall e | e in log
      ensures Where(at, EntryWeight(view))(e) == inventory(e) + fundOrParty(e)
    {
    }
    SumSplit(log, Where(at, EntryWeight(view)), inventory, fundOrParty);
  }

  /** In every view, a reversal takes back exactly what the newest posting of the document put there. */
  lemma ReversalTakesBackPosting(log: Log, doc: Id, view: View)
    ensures Sum(ReversalRows(log, doc), RowWeight(view, doc))
         == -Sum(PostingsAt(log, doc, NewestPosting(log, doc)), EntryWeight(view))
  {
    hide NewestPosting, ReversedIn, PostingsIn, PostingsAt, Sum, ReversedWeight;
    var revision := NewestPosting(log, doc);
    SumReversedIn(log, doc, InventoryTable, revision, view);
    SumReversedIn(log, doc, FundTable, revision, view);
    SumReversedIn(log, doc, PartyTable, revision, view);
    var a := ReversedIn(PostingsIn(log, doc, InventoryTable), revision);
    var b := ReversedIn(PostingsIn(log, doc, FundTable), revision);
    var c := ReversedIn(PostingsIn(log, doc, PartyTable), revision);
    SumAppend(a + b, c, RowWeight(view, doc));
    SumAppend(a, b, RowWeight(view, doc));
    SumOverTables(log, doc, revision, view);
  }
}
