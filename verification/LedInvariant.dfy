/** What every step keeps: the control state, the shape of the active log, and where its rows come from. */
module LedInvariant {
  import opened Results
  import opened Sequences
  import opened LedModel
  import opened LedLog
  import opened LedTimeline
  import opened LedOpening
  import opened LedMachine

  // --------------------------------------------------- the log of a generation

  /** A posted or reversed row belongs to a document, carries one of its past revisions and, if posted, its sign. */
  ghost predicate SourcedFrom(log: Log, d: Document, e: Entry) {
    && d.id == e.doc
    && 1 <= e.revision <= d.revision
    && (e.kind.PostingEntry? ==> e.delta * Sign(d.detail.Entity(), e.dim) > 0)
    && (e.kind.ReversalEntry? ==> exists x :: x in log && IsPosting(x, e.doc))
  }

  ghost predicate Sourced(log: Log, documents: seq<Document>, e: Entry) {
    exists i :: 0 <= i < |documents| && SourcedFrom(log, documents[i], e)
  }

  ghost predicate LogInv(log: Log, cutover: nat, documents: seq<Document>, nextId: Id) {
    && Pairwise(log, Apart)
    && (forall e :: e in log ==> e.id < nextId && e.date >= cutover)
    && (forall e :: e in log && e.kind.OpeningEntry? ==> e.doc == NO_ID)
    && (forall e :: e in log && !e.kind.OpeningEntry? ==> Sourced(log, documents, e))
  }

  /** The rows posted at the document's present revision are the rows a replay would post now. */
  ghost predicate PostedNow(log: Log, d: Document, cutover: nat) {
    && DocumentRows(d, cutover, false).Ok?
    && RowsOf(PostingsAt(log, d.id, d.revision)) == DocumentRows(d, cutover, false).value
  }

  ghost predicate ExecutedPosted(log: Log, documents: seq<Document>, cutover: nat) {
    forall i :: 0 <= i < |documents| && IsExecuted(documents[i]) ==> PostedNow(log, documents[i], cutover)
  }

  /** Every executed document would pass the preflight of an activation. */
  ghost predicate ExecutedPriced(documents: seq<Document>, cutover: nat) {
    forall i :: 0 <= i < |documents| && IsExecuted(documents[i]) ==> Priced(documents[i], cutover)
  }

  // ------------------------------------------------------ growing the log

  lemma StampedApart(log: Log, p: Posting, rows: seq<Row>, id: Id)
    requires Pairwise(log, Apart) && FreshPosting(log, p, id) && Pairwise(rows, ApartInIndex)
    ensures Pairwise(log + Stamped(p, rows, id), Apart)
  {
    var es := Stamped(p, rows, id);
    forall i, j | 0 <= i < j < |es|
      ensures Apart(es[i], es[j])
    {
      assert ApartInIndex(rows[i], rows[j]);
    }
    forall x, y | x in log && y in es
      ensures Apart(x, y)
    {
      var j :| 0 <= j < |es| && y == es[j];
    }
    PairwiseAppend(log, es, Apart);
  }

  /** Later documents and a longer log still source every row. */
  lemma SourcedLater(log: Log, added: Log, documents: seq<Document>, i: nat, d: Document, e: Entry)
    requires Sourced(log, documents, e)
    requires i < |documents| && d.id == documents[i].id && d.revision >= documents[i].revision
    requires d.detail.Entity() == documents[i].detail.Entity()
    ensures Sourced(log + added, documents[i := d], e)
  {
    var k :| 0 <= k < |documents| && SourcedFrom(log, documents[k], e);
    if e.kind.ReversalEntry? {
      var x :| x in log && IsPosting(x, e.doc);
      assert x in log + added && IsPosting(x, e.doc);
    }
    assert SourcedFrom(log + added, documents[i := d][k], e);
  }

  lemma {:induction false} RowsOfStamped(p: Posting, rows: seq<Row>, id: Id)
    ensures RowsOf(Stamped(p, rows, id)) == rows
  {
  }

  /** Appending a posting leaves the postings of other documents and other revisions alone. */
  lemma PostingsAtAppend(log: Log, p: Posting, rows: seq<Row>, id: Id, doc: Id, revision: nat)
    ensures PostingsAt(log + Stamped(p, rows, id), doc, revision)
         == PostingsAt(log, doc, revision)
            + (if p.kind.PostingEntry? && p.doc == doc && p.revision == revision then Stamped(p, rows, id) else [])
  {
    var at := (e: Entry) => IsPosting(e, doc) && e.revision == revision;
    var es := Stamped(p, rows, id);
    FilterAppend(log, es, at);
    if p.kind.PostingEntry? && p.doc == doc && p.revision == revision {
      FilterAll(es, at);
    } else {
      FilterNone(es, at);
    }
  }

  /** Stamping the rows of `d` on `log` gives a well-shaped log. */
  ghost predicate GrownBy(log: Log, d: Document, cutover: nat, p: Posting, rows: seq<Row>, id: Id) {
    && p.doc == d.id && !p.kind.OpeningEntry?
    && Pairwise(log + Stamped(p, rows, id), Apart)
    && (forall e :: e in Stamped(p, rows, id) ==>
          e.date >= cutover && SourcedFrom(log + Stamped(p, rows, id), d, e))
  }

  lemma StampedGrows(log: Log, d: Document, cutover: nat, rows: seq<Row>, id: Id)
    requires d.revision >= 1 && Pairwise(log, Apart) && FreshPosting(log, PostingFor(d), id)
    requires Pairwise(rows, ApartInIndex)
    requires forall r :: r in rows ==> SignedRow(d.detail.Entity(), cutover, r)
    ensures GrownBy(log, d, cutover, PostingFor(d), rows, id)
  {
    var added := Stamped(PostingFor(d), rows, id);
    StampedApart(log, PostingFor(d), rows, id);
    forall e | e in added
      ensures e.date >= cutover && SourcedFrom(log + added, d, e)
    {
      var k :| 0 <= k < |added| && e == added[k];
      assert rows[k] in rows && SignedRow(d.detail.Entity(), cutover, rows[k]);
    }
  }

  lemma StampedPosts(log: Log, d: Document, rows: seq<Row>, id: Id)
    requires FreshPosting(log, PostingFor(d), id)
    ensures RowsOf(PostingsAt(log + Stamped(PostingFor(d), rows, id), d.id, d.revision)) == rows
  {
    var added := Stamped(PostingFor(d), rows, id);
    PostingsAtAppend(log, PostingFor(d), rows, id, d.id, d.revision);
    FilterNone(log, (e: Entry) => IsPosting(e, d.id) && e.revision == d.revision);
    assert PostingsAt(log + added, d.id, d.revision) == added;
    RowsOfStamped(PostingFor(d), rows, id);
  }

  lemma RevisionIsSet(d: Document)
    requires WellFormed(d)
    ensures d.revision >= 1
  {
  }

  lemma SignedIsNotZero(entity: Entity, cutover: nat, row: Row)
    requires SignedRow(entity, cutover, row)
    ensures row.delta != 0
  {
  }

  /** All rows of a document whose revision is new are appended, none is swallowed, and the log keeps its shape. */
  lemma PostDocumentExtends(log: Log, d: Document, cutover: nat, live: bool, id: Id)
    requires WellFormed(d) && Pairwise(log, Apart) && FreshPosting(log, PostingFor(d), id)
    requires PostDocument(log, d, cutover, live, id).Ok?
    ensures DocumentRows(d, cutover, false).Ok?
    ensures var rows := DocumentRows(d, cutover, false).value;
            var after := log + Stamped(PostingFor(d), rows, id);
            && PostDocument(log, d, cutover, live, id) == Ok(Posted(after, id + |rows|))
            && GrownBy(log, d, cutover, PostingFor(d), rows, id)
            && PostedNow(after, d, cutover)
  {
    hide DocumentRows, InsertRows, GrownBy, Pairwise, FreshPosting, WellFormed, SignedRow, RowsOf, PostingsAt,
      Stamped;
    var rows := DocumentRows(d, cutover, live).value;
    if live {
      ReplayEqualsLive(d, cutover);
    }
    DocumentRowsSound(d, cutover, live);
    assert d.revision >= 1 by {
      RevisionIsSet(d);
    }
    forall r | r in rows
      ensures r.delta != 0
    {
      SignedIsNotZero(d.detail.Entity(), cutover, r);
    }
    InsertRowsAppends(log, PostingFor(d), rows, id);
    StampedGrows(log, d, cutover, rows, id);
    StampedPosts(log, d, rows, id);
  }

  // ----------------------------------------------------- reversal of a log

  /** `r` takes back some row of that posting of the document. */
  ghost predicate Negates(log: Log, doc: Id, revision: nat, r: Row) {
    exists e :: e in log && IsPosting(e, doc) && e.revision == revision && r == RowOf(e).(delta := -e.delta)
  }

  /** The rows a reversal appends are those of one posting, so they never collide with each other. */
  lemma ReversedInFrom(log: Log, doc: Id, table: Table, revision: nat)
    requires Pairwise(log, Apart)
    ensures var rows := ReversedIn(PostingsIn(log, doc, table), revision);
            && Pairwise(rows, ApartInIndex)
            && (forall r :: r in rows ==> TableOf(r.dim) == table && Negates(log, doc, revision, r))
  {
    var listed := PostingsIn(log, doc, table);
    var picked := RevisedAt(listed, revision);
    var rows := ReversedIn(listed, revision);
    PairwiseFilter(log, (e: Entry) => IsPosting(e, doc) && TableOf(e.dim) == table, Apart);
    PairwiseFilter(listed, (e: Entry) => e.revision == revision, Apart);
    forall i, j | 0 <= i < j < |rows|
      ensures ApartInIndex(rows[i], rows[j])
    {
      assert picked[i] in picked && picked[j] in picked && Apart(picked[i], picked[j]);
    }
    forall r | r in rows
      ensures TableOf(r.dim) == table
      ensures Negates(log, doc, revision, r)
    {
      var i :| 0 <= i < |rows| && r == rows[i];
      assert picked[i] in picked;
    }
  }

  lemma TablesApart(x: Row, y: Row)
    requires TableOf(x.dim) != TableOf(y.dim)
    ensures ApartInIndex(x, y)
  {
  }

  lemma ReversalRowsFrom(log: Log, doc: Id)
    requires Pairwise(log, Apart)
    ensures Pairwise(ReversalRows(log, doc), ApartInIndex)
    ensures forall r :: r in ReversalRows(log, doc) ==> Negates(log, doc, NewestPosting(log, doc), r)
  {
    hide ReversedIn, NewestPosting, PostingsIn, Negates, Pairwise, ApartInIndex;
    var revision := NewestPosting(log, doc);
    ReversedInFrom(log, doc, InventoryTable, revision);
    ReversedInFrom(log, doc, FundTable, revision);
    ReversedInFrom(log, doc, PartyTable, revision);
    var a := ReversedIn(PostingsIn(log, doc, InventoryTable), revision);
    var b := ReversedIn(PostingsIn(log, doc, FundTable), revision);
    var c := ReversedIn(PostingsIn(log, doc, PartyTable), revision);
    forall x: Row, y: Row | TableOf(x.dim) != TableOf(y.dim)
      ensures ApartInIndex(x, y)
    {
      TablesApart(x, y);
    }
    PairwiseAppend(a, b, ApartInIndex);
    PairwiseAppend(a + b, c, ApartInIndex);
  }

  function ReversalFor(d: Document, now: nat): Posting {
    Posting(ReversalEntry, d.id, d.revision, now)
  }

  /** The document's next revision is new to the log. */
  lemma NextRevisionIsFresh(log: Log, cutover: nat, documents: seq<Document>, i: nat, p: Posting, id: Id)
    requires DocumentsInv(documents) && i < |documents| && LogInv(log, cutover, documents, id)
    requires p.doc == documents[i].id && p.revision > documents[i].revision
    ensures FreshPosting(log, p, id)
  {
    forall x | x in log && !x.kind.OpeningEntry?
      ensures x.doc != p.doc || x.revision != p.revision
    {
      var k :| 0 <= k < |documents| && SourcedFrom(log, documents[k], x);
      assert k != i ==> documents[k].id != documents[i].id;
    }
    assert WellFormed(documents[i]);
  }

  lemma ReversalRowsSound(log: Log, cutover: nat, documents: seq<Document>, doc: Id, id: Id)
    requires LogInv(log, cutover, documents, id)
    ensures forall r :: r in ReversalRows(log, doc) ==> r.delta != 0 && r.date >= cutover
    ensures ReversalRows(log, doc) != [] ==> exists x :: x in log && IsPosting(x, doc)
  {
    ReversalRowsFrom(log, doc);
    forall r | r in ReversalRows(log, doc)
      ensures r.delta != 0 && r.date >= cutover
      ensures exists x :: x in log && IsPosting(x, doc)
    {
      var e :| e in log && IsPosting(e, doc) && e.revision == NewestPosting(log, doc)
            && r == RowOf(e).(delta := -e.delta);
      var k :| 0 <= k < |documents| && SourcedFrom(log, documents[k], e);
      assert e.delta != 0;
    }
    var rows := ReversalRows(log, doc);
    if rows != [] {
      assert rows[0] in rows;
    }
  }

  lemma ReversalGrows(log: Log, d: Document, cutover: nat, now: nat, id: Id)
    requires d.revision >= 1 && Pairwise(log, Apart) && FreshPosting(log, ReversalFor(d, now), id)
    requires var rows := ReversalRows(log, d.id);
             && Pairwise(rows, ApartInIndex)
             && (forall r :: r in rows ==> r.date >= cutover)
             && (rows != [] ==> exists x :: x in log && IsPosting(x, d.id))
    ensures GrownBy(log, d, cutover, ReversalFor(d, now), ReversalRows(log, d.id), id)
  {
    hide ReversalRows;
    var rows := ReversalRows(log, d.id);
    var added := Stamped(ReversalFor(d, now), rows, id);
    StampedApart(log, ReversalFor(d, now), rows, id);
    forall e | e in added
      ensures e.date >= cutover && SourcedFrom(log + added, d, e)
    {
      var k :| 0 <= k < |added| && e == added[k];
      assert rows[k] in rows;
      var x :| x in log && IsPosting(x, d.id);
      assert x in log + added;
    }
  }

  /** Unexecuting a document appends exactly the negation of its newest posting, and the log keeps its shape. */
  lemma ReverseExtends(log: Log, cutover: nat, documents: seq<Document>, i: nat, now: nat, id: Id)
    requires DocumentsInv(documents) && i < |documents| && LogInv(log, cutover, documents, id)
    ensures var d := UnexecutedDocument(documents[i], now);
            var rows := ReversalRows(log, d.id);
            && InsertRows(log, ReversalFor(d, now), rows, id) == Ok(log + Stamped(ReversalFor(d, now), rows, id))
            && GrownBy(log, d, cutover, ReversalFor(d, now), rows, id)
  {
    hide ReversalRows, InsertRows, GrownBy, Sourced, ApartInIndex;
    var d := UnexecutedDocument(documents[i], now);
    ReversalRowsFrom(log, d.id);
    ReversalRowsSound(log, cutover, documents, d.id, id);
    NextRevisionIsFresh(log, cutover, documents, i, ReversalFor(d, now), id);
    InsertRowsAppends(log, ReversalFor(d, now), ReversalRows(log, d.id), id);
    ReversalGrows(log, d, cutover, now, id);
  }

  // ------------------------------------------------------- the whole state

  ghost predicate GenerationInv(s: State, g: Generation) {
    && g.active
    && ValidDraft(g.opening, s.nextId)
    && LogInv(g.entries, g.cutover, s.documents, s.nextId)
    && ExecutedPosted(g.entries, s.documents, g.cutover)
    && ExecutedPriced(s.documents, g.cutover)
    && !HasNegativeTimeline(g.entries)
  }

  ghost predicate HasActive(s: State) {
    s.control.activeGeneration.Some? && s.control.activeGeneration.value in s.generations
  }

  function ActiveGeneration(s: State): Generation
    requires HasActive(s)
  {
    s.generations[s.control.activeGeneration.value]
  }

  /** The control row, the generations and the draft fit together, and the active log is sound. */
  ghost predicate Inv(s: State) {
    && s.nextId >= 1 && s.control.revision >= 1
    && DocumentsInv(s.documents)
    && ValidDraft(s.draft, s.nextId)
    && (forall g :: g in s.generations ==> g < s.nextId)
    && (forall g :: g in s.generations && s.generations[g].active ==> s.control.activeGeneration == Some(g))
    && (if s.control.status.DraftLedger? then s.control.activeGeneration.None? && s.generations == map[]
        else HasActive(s) && GenerationInv(s, ActiveGeneration(s)))
    && (s.control.status.ActiveLedger? ==> s.draft == [] && s.control.cutover == Some(ActiveGeneration(s).cutover))
  }
}
