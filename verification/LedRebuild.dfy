/** Exactly when a generation can be built: the condition over the opening and the documents executed now. */
module LedRebuild {
  import opened Results
  import opened Sequences
  import opened LedModel
  import opened LedLog
  import opened LedTimeline
  import opened LedOpening
  import opened LedMachine
  import opened LedInvariant
  import opened LedPreservation
  import opened LedTheorems

  // ------------------------------------------------- the movements of a replay

  /** One row of an executed document, when the document was executed, and the place of the row in the replay. */
  datatype Move = Move(row: Row, occurredAt: nat, place: nat)

  function MovesOf(rows: seq<Row>, occurredAt: nat, place: nat): (moves: seq<Move>)
    ensures |moves| == |rows|
    ensures forall i :: 0 <= i < |rows| ==> moves[i] == Move(rows[i], occurredAt, place + i)
  {
    if |rows| == 0 then []
    else MovesOf(rows[..|rows| - 1], occurredAt, place) + [Move(rows[|rows| - 1], occurredAt, place + |rows| - 1)]
  }

  function RowsNow(d: Document, cutover: nat): seq<Row> {
    if DocumentRows(d, cutover, false).Ok? then DocumentRows(d, cutover, false).value else []
  }

  /** The rows of the documents, in order. */
  function Moves(documents: seq<Document>, cutover: nat): seq<Move> {
    if |documents| == 0 then []
    else
      var front, last := Moves(documents[..|documents| - 1], cutover), documents[|documents| - 1];
      front + MovesOf(RowsNow(last, cutover), OccurredAt(last), |front|)
  }

  /** `x` is a movement of the same stock that is not after `m`, by date, execution time and place in the replay. */
  predicate NotAfterMove(x: Move, m: Move) {
    && x.row.dim == m.row.dim
    && (x.row.date < m.row.date || (x.row.date == m.row.date && (
          x.occurredAt < m.occurredAt || (x.occurredAt == m.occurredAt && x.place <= m.place))))
  }

  function MovedUpTo(m: Move): Move -> int {
    (x: Move) => if NotAfterMove(x, m) then x.row.delta else 0
  }

  function OpeningStock(dim: Dim): OpeningRow -> int {
    (row: OpeningRow) => if DimOf(row) == dim then row.amount else 0
  }

  /** What was opened with and everything not after it cover each movement of stock. */
  ghost predicate StockSuffices(opening: seq<OpeningRow>, documents: seq<Document>, cutover: nat) {
    var moves := Moves(ListExecuted(documents), cutover);
    forall m ::
      m in moves && m.row.dim.Inventory? ==> Sum(opening, OpeningStock(m.row.dim)) + Sum(moves, MovedUpTo(m)) >= 0
  }

  ghost predicate RowsValid(documents: seq<Document>, cutover: nat) {
    forall i :: 0 <= i < |documents| && IsExecuted(documents[i]) ==> DocumentRows(documents[i], cutover, false).Ok?
  }

  // ------------------------------------------------ a replay writes the moves

  /** The entry is the posting of the movement. */
  ghost predicate Writes(e: Entry, m: Move, id: Id) {
    && e.kind.PostingEntry? && e.id == id + m.place && e.date == m.row.date && e.occurredAt == m.occurredAt
    && e.dim == m.row.dim && e.delta == m.row.delta
  }

  ghost predicate WritesAll(es: Log, moves: seq<Move>, id: Id) {
    |es| == |moves| && forall k :: 0 <= k < |es| ==> moves[k].place == k && Writes(es[k], moves[k], id)
  }

  lemma StampedWrites(es: Log, moves: seq<Move>, d: Document, rows: seq<Row>, id: Id)
    requires WritesAll(es, moves, id)
    ensures WritesAll(es + Stamped(PostingFor(d), rows, id + |moves|),
                      moves + MovesOf(rows, OccurredAt(d), |moves|), id)
  {
  }

  lemma ReplayOneMore(entries: Log, documents: seq<Document>, cutover: nat, id: Id)
    requires |documents| > 0
    requires ReplayDocuments(entries, documents[..|documents| - 1], cutover, id).Ok?
    requires DocumentRows(documents[|documents| - 1], cutover, false).Ok?
    ensures var n := |documents| - 1;
            var before := ReplayDocuments(entries, documents[..n], cutover, id).value;
            && ReplayDocuments(entries, documents, cutover, id)
               == PostDocument(before.entries, documents[n], cutover, false, before.nextId)
            && var moves := Moves(documents[..n], cutover);
               Moves(documents, cutover)
               == moves + MovesOf(DocumentRows(documents[n], cutover, false).value, OccurredAt(documents[n]), |moves|)
  {
    hide DocumentRows, PostDocument;
  }

  /** A replay over sound openings fails only on a document whose rows are invalid; otherwise it writes the moves. */
  lemma {:induction false} ReplayWrites(entries: Log, documents: seq<Document>, cutover: nat, id: Id) returns (es: Log)
    requires ReplayReady(entries, documents, cutover, id)
    requires forall i :: 0 <= i < |documents| ==> DocumentRows(documents[i], cutover, false).Ok?
    ensures ReplayDocuments(entries, documents, cutover, id)
         == Ok(Posted(entries + es, id + |Moves(documents, cutover)|))
    ensures WritesAll(es, Moves(documents, cutover), id)
  {
    hide DocumentRows, ReplayDocuments, Moves, ReplayReady, WritesAll;
    if |documents| == 0 {
      es := [];
      NothingWritten(entries, documents, cutover, id);
    } else {
      var n := |documents| - 1;
      ReadyFront(entries, documents, cutover, id);
      var before := ReplayWrites(entries, documents[..n], cutover, id);
      es := ReplayWritesOn(entries, documents, cutover, id, before);
    }
  }

  lemma ReplayWritesOn(entries: Log, documents: seq<Document>, cutover: nat, id: Id, before: Log) returns (es: Log)
    requires ReplayReady(entries, documents, cutover, id) && |documents| > 0
    requires DocumentRows(documents[|documents| - 1], cutover, false).Ok?
    requires var moves := Moves(documents[..|documents| - 1], cutover);
             && ReplayDocuments(entries, documents[..|documents| - 1], cutover, id)
                == Ok(Posted(entries + before, id + |moves|))
             && WritesAll(before, moves, id)
    ensures ReplayDocuments(entries, documents, cutover, id)
         == Ok(Posted(entries + es, id + |Moves(documents, cutover)|))
    ensures WritesAll(es, Moves(documents, cutover), id)
  {
    hide DocumentRows, PostDocument, ReplayDocuments, Moves, ReplayReady, DocumentsInv, Replayed, WritesAll;
    var n := |documents| - 1;
    var front, d := documents[..n], documents[n];
    assert documents == front + [d];
    FrontReplayed(entries, documents, cutover, id);
    ReplayOneMore(entries, documents, cutover, id);
    var posted := ReplayDocuments(entries, front, cutover, id).value;
    var added, more := WritesOne(posted, front, d, cutover, id, before, Moves(front, cutover));
    es := before + added;
    assert entries + before + added == entries + es;
  }

  lemma WritesOne(
    before: Posted, front: seq<Document>, d: Document, cutover: nat, id: Id, es: Log, moves: seq<Move>)
    returns (added: Log, more: seq<Move>)
    requires Replayed(front, cutover, id, before) && DocumentsInv(front + [d]) && DocumentRows(d, cutover, false).Ok?
    requires WritesAll(es, moves, id) && before.nextId == id + |moves|
    ensures more == MovesOf(DocumentRows(d, cutover, false).value, OccurredAt(d), |moves|)
    ensures PostDocument(before.entries, d, cutover, false, before.nextId)
         == Ok(Posted(before.entries + added, id + |moves + more|))
    ensures WritesAll(es + added, moves + more, id)
  {
    hide DocumentRows, PostDocument, Replayed, WritesAll, DocumentsInv;
    var rows := DocumentRows(d, cutover, false).value;
    PostsOne(before, front, d, cutover, id);
    StampedWrites(es, moves, d, rows, id);
    added, more := Stamped(PostingFor(d), rows, before.nextId), MovesOf(rows, OccurredAt(d), |moves|);
  }

  lemma NothingWritten(entries: Log, documents: seq<Document>, cutover: nat, id: Id)
    requires documents == []
    ensures ReplayDocuments(entries, documents, cutover, id) == Ok(Posted(entries + [], id))
    ensures Moves(documents, cutover) == [] && WritesAll([], [], id)
  {
    assert entries + [] == entries;
  }

  lemma FrontReplayed(entries: Log, documents: seq<Document>, cutover: nat, id: Id)
    requires ReplayReady(entries, documents, cutover, id) && |documents| > 0
    requires ReplayDocuments(entries, documents[..|documents| - 1], cutover, id).Ok?
    ensures var front := documents[..|documents| - 1];
            Replayed(front, cutover, id, ReplayDocuments(entries, front, cutover, id).value)
    ensures DocumentsInv(documents)
  {
    hide ReplayDocuments, Replayed, DocumentsInv;
    ReadyFront(entries, documents, cutover, id);
    ReplayPosts(entries, documents[..|documents| - 1], cutover, id);
  }

  lemma ReadyFront(entries: Log, documents: seq<Document>, cutover: nat, id: Id)
    requires ReplayReady(entries, documents, cutover, id) && |documents| > 0
    ensures ReplayReady(entries, documents[..|documents| - 1], cutover, id)
  {
    hide WellFormed, Pairwise;
  }

  lemma PostsOne(before: Posted, front: seq<Document>, d: Document, cutover: nat, id: Id)
    requires Replayed(front, cutover, id, before) && DocumentsInv(front + [d]) && DocumentRows(d, cutover, false).Ok?
    ensures var rows := DocumentRows(d, cutover, false).value;
            PostDocument(before.entries, d, cutover, false, before.nextId)
            == Ok(Posted(before.entries + Stamped(PostingFor(d), rows, before.nextId), before.nextId + |rows|))
  {
    hide DocumentRows, InsertRows, Replayed, Pairwise, FreshPosting, SignedRow, Stamped;
    var rows := DocumentRows(d, cutover, false).value;
    ReplayIsFresh(before, front, d, cutover, id);
    assert WellFormed((front + [d])[|front|]);
    DocumentRowsSound(d, cutover, false);
    forall r | r in rows
      ensures r.delta != 0
    {
      SignedIsNotZero(d.detail.Entity(), cutover, r);
    }
    InsertRowsAppends(before.entries, PostingFor(d), rows, before.nextId);
  }

  /** Conversely, a replay that succeeds found the rows of every document valid. */
  lemma {:induction false} ReplayedIsValid(entries: Log, documents: seq<Document>, cutover: nat, id: Id, i: nat)
    requires ReplayDocuments(entries, documents, cutover, id).Ok? && i < |documents|
    ensures DocumentRows(documents[i], cutover, false).Ok?
  {
    hide DocumentRows, InsertRows;
    if i < |documents| - 1 {
      ReplayedIsValid(entries, documents[..|documents| - 1], cutover, id, i);
    }
  }

  lemma ReplaySucceeds(s: State, cutover: nat)
    requires Inv(s)
    ensures Rebuild(s, cutover).Ok? <==> RowsValid(s.documents, cutover)
  {
    hide GenerationInv, DocumentRows, ReplayDocuments, ListExecuted, ValidDraft, OpeningEntries, DocumentsInv, Moves;
    var listed := ListExecuted(s.documents);
    ListExecutedIs(s.documents);
    if Rebuild(s, cutover).Ok? {
      forall i | 0 <= i < |s.documents| && IsExecuted(s.documents[i])
        ensures DocumentRows(s.documents[i], cutover, false).Ok?
      {
        assert s.documents[i] in listed;
        var k :| 0 <= k < |listed| && listed[k] == s.documents[i];
        ReplayedIsValid(OpeningEntries(s.draft, cutover), listed, cutover, s.nextId + 1, k);
      }
    } else if RowsValid(s.documents, cutover) {
      ListedIsValid(s.documents, cutover);
      OpeningReady(s.draft, s.documents, cutover, s.nextId);
      var es := ReplayWrites(OpeningEntries(s.draft, cutover), listed, cutover, s.nextId + 1);
    }
  }

  lemma ListedIsValid(documents: seq<Document>, cutover: nat)
    requires DocumentsInv(documents) && RowsValid(documents, cutover)
    ensures forall k ::
              0 <= k < |ListExecuted(documents)| ==> DocumentRows(ListExecuted(documents)[k], cutover, false).Ok?
  {
    hide DocumentRows, ListExecuted, DocumentsInv;
    ListExecutedIs(documents);
    var listed := ListExecuted(documents);
    forall k | 0 <= k < |listed|
      ensures DocumentRows(listed[k], cutover, false).Ok?
    {
      assert listed[k] in listed;
      var i :| 0 <= i < |documents| && documents[i] == listed[k];
    }
  }

  // ------------------------------------------------- the timeline of a rebuild

  /** In a rebuilt log the running quantity at the posting of a movement is the opening and the movements up to it. */
  lemma {:induction false} MovedSum(es: Log, moves: seq<Move>, id: Id, n: nat, e: Entry, m: Move)
    requires WritesAll(es, moves, id) && n <= |es| && Writes(e, m, id)
    ensures Sum(es[..n], UpTo(e)) == Sum(moves[..n], MovedUpTo(m))
  {
    if n != 0 {
      MovedSum(es, moves, id, n - 1, e, m);
      assert es[..n][..n - 1] == es[..n - 1] && moves[..n][..n - 1] == moves[..n - 1];
      assert Writes(es[n - 1], moves[n - 1], id);
    }
  }

  /** All that was opened with precedes every posting. */
  lemma OpeningSum(opening: seq<OpeningRow>, cutover: nat, e: Entry)
    requires e.kind.PostingEntry? && e.date >= cutover
    ensures Sum(OpeningEntries(opening, cutover), UpTo(e)) == Sum(opening, OpeningStock(e.dim))
  {
    hide Sum;
    OpeningEntriesAre(opening, cutover);
    SumEqual(OpeningEntries(opening, cutover), UpTo(e), EntryWeight(OfDim(e.dim)));
    SumOpeningEntries(opening, cutover, OfDim(e.dim));
    SumEqual(opening, OpeningWeight(OfDim(e.dim), cutover), OpeningStock(e.dim));
  }

  lemma QuantityAtMove(opening: seq<OpeningRow>, es: Log, moves: seq<Move>, id: Id, cutover: nat, k: nat)
    requires WritesAll(es, moves, id) && k < |es| && es[k].date >= cutover
    ensures QuantityAt(OpeningEntries(opening, cutover) + es, es[k])
         == Sum(opening, OpeningStock(moves[k].row.dim)) + Sum(moves, MovedUpTo(moves[k]))
  {
    hide Sum;
    assert Writes(es[k], moves[k], id);
    SumAppend(OpeningEntries(opening, cutover), es, UpTo(es[k]));
    OpeningSum(opening, cutover, es[k]);
    MovedSum(es, moves, id, |es|, es[k], moves[k]);
    assert es[..|es|] == es && moves[..|es|] == moves;
  }

  /** At an opening row there is only stock that was opened with, which is never negative. */
  lemma QuantityAtOpening(opening: seq<OpeningRow>, es: Log, cutover: nat, e: Entry, nextId: Id)
    requires ValidDraft(opening, nextId) && e in OpeningEntries(opening, cutover) && e.dim.Inventory?
    requires forall x :: x in es ==> x.kind.PostingEntry? && x.date >= cutover
    ensures QuantityAt(OpeningEntries(opening, cutover) + es, e) >= 0
  {
    hide Sum;
    OpeningEntriesAre(opening, cutover);
    SumAppend(OpeningEntries(opening, cutover), es, UpTo(e));
    SumZero(es, UpTo(e));
    SumNonNegative(OpeningEntries(opening, cutover), UpTo(e));
  }

  lemma WrittenInOrder(es: Log, moves: seq<Move>, id: Id)
    requires WritesAll(es, moves, id)
    ensures |es| == |moves| && forall k :: 0 <= k < |es| ==> Writes(es[k], moves[k], id)
  {
  }

  /** A movement that the stock does not cover is a posting with a negative running quantity. */
  lemma UncoveredMove(opening: seq<OpeningRow>, es: Log, moves: seq<Move>, id: Id, cutover: nat, m: Move)
    returns (e: Entry)
    requires WritesAll(es, moves, id) && m in moves && forall x :: x in es ==> x.date >= cutover
    ensures e in OpeningEntries(opening, cutover) + es && e.dim == m.row.dim
    ensures QuantityAt(OpeningEntries(opening, cutover) + es, e)
         == Sum(opening, OpeningStock(m.row.dim)) + Sum(moves, MovedUpTo(m))
  {
    hide Sum, QuantityAt, OpeningEntries, WritesAll;
    WrittenInOrder(es, moves, id);
    var k :| 0 <= k < |moves| && moves[k] == m;
    e := es[k];
    assert Writes(es[k], moves[k], id);
    QuantityAtMove(opening, es, moves, id, cutover, k);
  }

  /** And a negative running quantity is found at such a posting only, since nothing was opened below zero. */
  lemma UncoveredEntry(
    opening: seq<OpeningRow>, es: Log, moves: seq<Move>, id: Id, cutover: nat, nextId: Id, e: Entry)
    returns (m: Move)
    requires ValidDraft(opening, nextId) && WritesAll(es, moves, id) && forall x :: x in es ==> x.date >= cutover
    requires e in OpeningEntries(opening, cutover) + es && e.dim.Inventory?
    requires QuantityAt(OpeningEntries(opening, cutover) + es, e) < 0
    ensures m in moves && m.row.dim == e.dim && Sum(opening, OpeningStock(m.row.dim)) + Sum(moves, MovedUpTo(m)) < 0
  {
    hide Sum, QuantityAt, OpeningEntries, WritesAll, ValidDraft;
    WrittenInOrder(es, moves, id);
    forall k | 0 <= k < |es|
      ensures es[k].kind.PostingEntry?
    {
      assert Writes(es[k], moves[k], id);
    }
    if e in OpeningEntries(opening, cutover) {
      QuantityAtOpening(opening, es, cutover, e, nextId);
    }
    var k :| 0 <= k < |es| && es[k] == e;
    assert Writes(es[k], moves[k], id);
    QuantityAtMove(opening, es, moves, id, cutover, k);
    m := moves[k];
  }

  lemma RebuiltTimeline(opening: seq<OpeningRow>, es: Log, moves: seq<Move>, id: Id, cutover: nat, nextId: Id)
    requires ValidDraft(opening, nextId) && WritesAll(es, moves, id)
    requires DistinctIds(OpeningEntries(opening, cutover) + es)
    requires forall x :: x in es ==> x.date >= cutover
    ensures !HasNegativeTimeline(OpeningEntries(opening, cutover) + es)
       <==> forall m :: m in moves && m.row.dim.Inventory? ==>
              Sum(opening, OpeningStock(m.row.dim)) + Sum(moves, MovedUpTo(m)) >= 0
  {
    var log := OpeningEntries(opening, cutover) + es;
    TimelineUnsorted(log);
    hide Sum, HasNegativeTimeline, QuantityAt, DistinctIds, ValidDraft, OpeningEntries, WritesAll, OpeningStock,
      MovedUpTo;
    if HasNegativeTimeline(log) {
      var e :| e in log && e.dim.Inventory? && QuantityAt(log, e) < 0;
      var m := UncoveredEntry(opening, es, moves, id, cutover, nextId, e);
    } else {
      forall m | m in moves && m.row.dim.Inventory?
        ensures Sum(opening, OpeningStock(m.row.dim)) + Sum(moves, MovedUpTo(m)) >= 0
      {
        var e := UncoveredMove(opening, es, moves, id, cutover, m);
      }
    }
  }

  lemma RebuildTimelineExactly(s: State, cutover: nat)
    requires Inv(s) && Rebuild(s, cutover).Ok?
    ensures !HasNegativeTimeline(Rebuild(s, cutover).value.entries) <==> StockSuffices(s.draft, s.documents, cutover)
  {
    hide GenerationInv, DocumentRows, ReplayDocuments, ListExecuted, OpeningEntries, HasNegativeTimeline, Moves, Sum,
      WritesAll, HasActive, ValidDraft, LogInv, ExecutedPosted, DocumentsInv;
    ReplaySucceeds(s, cutover);
    ListedIsValid(s.documents, cutover);
    OpeningReady(s.draft, s.documents, cutover, s.nextId);
    var opening := OpeningEntries(s.draft, cutover);
    var es := ReplayWrites(opening, ListExecuted(s.documents), cutover, s.nextId + 1);
    RebuildKeepsLog(s, cutover);
    EntriesOfLog(opening, es, cutover, s.documents, Rebuild(s, cutover).value.nextId);
    RebuiltTimeline(s.draft, es, Moves(ListExecuted(s.documents), cutover), s.nextId + 1, cutover, s.nextId);
  }

  lemma EntriesOfLog(opening: Log, es: Log, cutover: nat, documents: seq<Document>, id: Id)
    requires LogInv(opening + es, cutover, documents, id)
    ensures DistinctIds(opening + es) && forall x :: x in es ==> x.date >= cutover
  {
    hide Sourced;
    ApartIsDistinct(opening + es);
    forall x | x in es
      ensures x.date >= cutover
    {
      assert x in opening + es;
    }
  }

  // -------------------------------------------------------------- the theorems

  /** An activation asked for in time succeeds exactly when the purchase prices are complete, every executed document
      has valid rows from the cutover on, and the stock suffices. */
  lemma ActivateExactly(s: State, cutover: nat)
    requires Inv(s) && !s.control.status.ActiveLedger? && s.control.cutover == Some(cutover)
    ensures Activate(s, s.control.revision).Ok?
       <==> && ExecutedPriced(s.documents, cutover) && RowsValid(s.documents, cutover)
            && StockSuffices(s.draft, s.documents, cutover)
  {
    hide GenerationInv, PricesComplete, ListExecuted, Rebuild, HasNegativeTimeline, StockSuffices, RowsValid,
      ExecutedPriced, DocumentsInv, ValidDraft, Archived;
    ListedIsPriced(s.documents, cutover);
    ReplaySucceeds(s, cutover);
    if Rebuild(s, cutover).Ok? {
      RebuildTimelineExactly(s, cutover);
    }
  }

  /** An active ledger can be rebuilt as it stands exactly when its opening and the documents executed now never take
      out more stock than there is; nothing else stops it. */
  lemma RebuildExactly(s: State, revision: nat)
    requires Inv(s) && Reopen(s, revision).Ok?
    ensures HasActive(s)
    ensures Activate(Reopen(s, revision).value, revision + 1).Ok?
       <==> StockSuffices(ActiveGeneration(s).opening, s.documents, ActiveGeneration(s).cutover)
  {
    hide Activate, StockSuffices, LogInv, HasNegativeTimeline, ValidDraft, DocumentsInv, Priced;
    ReopenKeepsInv(s, revision);
    var g := ActiveGeneration(s);
    ActivateExactly(Reopen(s, revision).value, g.cutover);
    PostedIsValid(g.entries, s.documents, g.cutover);
  }

  lemma PostedIsValid(log: Log, documents: seq<Document>, cutover: nat)
    requires ExecutedPosted(log, documents, cutover)
    ensures RowsValid(documents, cutover)
  {
    hide DocumentRows;
    forall i | 0 <= i < |documents| && IsExecuted(documents[i])
      ensures DocumentRows(documents[i], cutover, false).Ok?
    {
      assert PostedNow(log, documents[i], cutover);
    }
  }

  /** The same for every state a run reaches. */
  lemma RebuildExactlyInRun(s: State, actions: seq<Action>, revision: nat)
    requires Initial(s) && Reopen(Run(s, actions), revision).Ok?
    ensures var live := Run(s, actions);
            && HasActive(live)
            && (Activate(Reopen(live, revision).value, revision + 1).Ok?
                <==> StockSuffices(ActiveGeneration(live).opening, live.documents, ActiveGeneration(live).cutover))
  {
    hide Run, Inv, Initial, Activate, StockSuffices, Reopen;
    RunKeepsInv(s, actions);
    RebuildExactly(Run(s, actions), revision);
  }
}
