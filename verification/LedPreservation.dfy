/** Every step of the ledger keeps its invariant, over every run. */
module LedPreservation {
  import opened Results
  import opened Sequences
  import opened LedModel
  import opened LedLog
  import opened LedTimeline
  import opened LedOpening
  import opened LedMachine
  import opened LedInvariant

  // --------------------------------------------------- documents that change

  /** `d` is a later state of `was`. */
  ghost predicate LaterDocument(was: Document, d: Document) {
    d.id == was.id && d.revision >= was.revision && d.detail.Entity() == was.detail.Entity() && WellFormed(d)
  }

  lemma DocumentsLater(documents: seq<Document>, i: nat, d: Document)
    requires DocumentsInv(documents) && i < |documents| && LaterDocument(documents[i], d)
    ensures DocumentsInv(documents[i := d])
  {
  }

  lemma ExecutedIsLater(d: Document, date: nat, lines: seq<LineExecution>, now: nat)
    requires WellFormed(d) && ValidExecution(d, date, lines)
    ensures LaterDocument(d, ExecutedDocument(d, date, lines, now))
  {
    var after := ExecutedDocument(d, date, lines, now);
    if d.detail.HasLines() {
      forall i | 0 <= i < |after.lines|
        ensures WellFormedLine(after.lines[i]) && after.lines[i].id == d.lines[i].id
      {
        assert WellFormedLine(d.lines[i]);
        assert lines[i] in lines;
      }
    }
  }

  lemma ExecutedIsPriced(d: Document, date: nat, lines: seq<LineExecution>, now: nat, cutover: nat)
    requires ValidExecution(d, date, lines) && AttributesComplete(d)
    ensures Priced(ExecutedDocument(d, date, lines, now), cutover)
  {
    var after := ExecutedDocument(d, date, lines, now);
    if after.detail.IntermediarySale? {
      forall line | line in after.lines
        ensures line.purchaseUnitPrice.Some?
      {
        var i :| 0 <= i < |after.lines| && line == after.lines[i];
        assert d.lines[i] in d.lines;
      }
    }
  }

  lemma UnexecutedIsLater(d: Document, now: nat)
    requires WellFormed(d)
    ensures LaterDocument(d, UnexecutedDocument(d, now))
  {
    var after := UnexecutedDocument(d, now);
    forall i | 0 <= i < |after.lines|
      ensures WellFormedLine(after.lines[i]) && after.lines[i].id == d.lines[i].id
    {
      assert WellFormedLine(d.lines[i]);
    }
  }

  /** The log keeps its invariant when document `i` changes and rows sourced from it are appended. */
  lemma LogGrows(log: Log, p: Posting, rows: seq<Row>, cutover: nat, documents: seq<Document>, i: nat, d: Document,
      id: Id)
    requires LogInv(log, cutover, documents, id)
    requires i < |documents| && LaterDocument(documents[i], d) && GrownBy(log, d, cutover, p, rows, id)
    ensures LogInv(log + Stamped(p, rows, id), cutover, documents[i := d], id + |rows|)
  {
    var added := Stamped(p, rows, id);
    forall e | e in log + added && !e.kind.OpeningEntry?
      ensures Sourced(log + added, documents[i := d], e)
    {
      if e in log {
        SourcedLater(log, added, documents, i, d, e);
      } else {
        assert documents[i := d][i] == d;
      }
    }
  }

  /** Executed documents other than document `i` stay posted when rows of document `i` are appended. */
  lemma OthersStayPosted(log: Log, p: Posting, rows: seq<Row>, id: Id, documents: seq<Document>, i: nat, d: Document,
      cutover: nat)
    requires DocumentsInv(documents) && ExecutedPosted(log, documents, cutover)
    requires i < |documents| && d.id == documents[i].id && p.doc == d.id
    requires IsExecuted(d) ==> PostedNow(log + Stamped(p, rows, id), d, cutover)
    ensures ExecutedPosted(log + Stamped(p, rows, id), documents[i := d], cutover)
  {
    var after := documents[i := d];
    forall k | 0 <= k < |after| && IsExecuted(after[k])
      ensures PostedNow(log + Stamped(p, rows, id), after[k], cutover)
    {
      if k != i {
        assert documents[k].id != documents[i].id;
        PostingsAtAppend(log, p, rows, id, documents[k].id, documents[k].revision);
        assert PostedNow(log, documents[k], cutover);
      }
    }
  }

  // ------------------------------------------------------------------ steps

  /** Issuing ids does not disturb a generation. */
  lemma GenerationInvLater(s: State, after: State, g: Generation)
    requires GenerationInv(s, g) && after.documents == s.documents && after.nextId >= s.nextId
    ensures GenerationInv(after, g)
  {
    hide ExecutedPosted, HasNegativeTimeline, Sourced, Pairwise;
  }

  lemma SaveOpeningKeepsInv(
    s: State, revision: nat, cutover: Option<nat>, items: seq<OpeningItem>, effective: map<Key, Snapshot>)
    requires Inv(s) && SaveOpening(s, revision, cutover, items, effective).Ok?
    ensures Inv(SaveOpening(s, revision, cutover, items, effective).value)
  {
    hide GenerationInv, DocumentsInv, Replaces, ReplaceOpening, ValidItems, ValidDraft;
    SaveOpeningPreservesSnapshots(s.draft, items, effective, s.nextId);
    if !s.control.status.DraftLedger? {
      GenerationInvLater(s, SaveOpening(s, revision, cutover, items, effective).value, ActiveGeneration(s));
    }
  }

  lemma ReopenKeepsInv(s: State, revision: nat)
    requires Inv(s) && Reopen(s, revision).Ok?
    ensures Inv(Reopen(s, revision).value)
  {
  }

  lemma CancelReopenKeepsInv(s: State, revision: nat)
    requires Inv(s) && CancelReopen(s, revision).Ok?
    ensures Inv(CancelReopen(s, revision).value)
  {
  }

  lemma EditDocumentKeepsInv(s: State, i: nat, d: Document)
    requires Inv(s) && EditDocument(s, i, d).Ok?
    ensures Inv(EditDocument(s, i, d).value)
  {
    DocumentsLater(s.documents, i, d);
    if !s.control.status.DraftLedger? {
      var g := ActiveGeneration(s);
      assert g.entries + Stamped(PostingFor(d), [], s.nextId) == g.entries;
      LogGrows(g.entries, PostingFor(d), [], g.cutover, s.documents, i, d, s.nextId);
    }
  }

  lemma LogSourcedFromMore(log: Log, cutover: nat, documents: seq<Document>, d: Document, id: Id)
    requires LogInv(log, cutover, documents, id)
    ensures LogInv(log, cutover, documents + [d], id)
  {
    hide Pairwise;
    forall e | e in log && !e.kind.OpeningEntry?
      ensures Sourced(log, documents + [d], e)
    {
      var k :| 0 <= k < |documents| && SourcedFrom(log, documents[k], e);
      assert SourcedFrom(log, (documents + [d])[k], e);
    }
  }

  lemma MoreStayPosted(log: Log, documents: seq<Document>, d: Document, cutover: nat)
    requires ExecutedPosted(log, documents, cutover) && ExecutedPriced(documents, cutover) && !IsExecuted(d)
    ensures ExecutedPosted(log, documents + [d], cutover) && ExecutedPriced(documents + [d], cutover)
  {
    hide PostedNow, Priced;
  }

  lemma DocumentAdded(documents: seq<Document>, d: Document)
    requires DocumentsInv(documents) && WellFormed(d) && forall x :: x in documents ==> x.id != d.id
    ensures DocumentsInv(documents + [d])
  {
    hide WellFormed;
  }

  lemma AddDocumentKeepsInv(s: State, d: Document)
    requires Inv(s) && AddDocument(s, d).Ok?
    ensures Inv(AddDocument(s, d).value)
  {
    hide LogInv, ExecutedPosted, ExecutedPriced, HasNegativeTimeline, DocumentsInv, WellFormed, ValidDraft;
    DocumentAdded(s.documents, d);
    if !s.control.status.DraftLedger? {
      var g := ActiveGeneration(s);
      LogSourcedFromMore(g.entries, g.cutover, s.documents, d, s.nextId);
      MoreStayPosted(g.entries, s.documents, d, g.cutover);
    }
  }

  /** `s` after document and ledger changed together. */
  function WithLog(s: State, i: nat, d: Document, entries: Log, nextId: Id): State
    requires HasActive(s) && i < |s.documents|
  {
    var g := s.control.activeGeneration.value;
    s.(documents := s.documents[i := d], generations := s.generations[g := s.generations[g].(entries := entries)],
       nextId := nextId)
  }

  lemma WithLogKeepsInv(s: State, i: nat, d: Document, entries: Log, nextId: Id)
    requires Inv(s) && s.control.status.ActiveLedger? && i < |s.documents| && s.nextId <= nextId
    requires LaterDocument(s.documents[i], d)
    requires LogInv(entries, ActiveGeneration(s).cutover, s.documents[i := d], nextId)
    requires ExecutedPosted(entries, s.documents[i := d], ActiveGeneration(s).cutover)
    requires !HasNegativeTimeline(entries) && (IsExecuted(d) ==> Priced(d, ActiveGeneration(s).cutover))
    ensures Inv(WithLog(s, i, d, entries, nextId))
  {
    DocumentsLater(s.documents, i, d);
  }

  /** A committed execution: the rows of the executed document are appended to the active log. */
  lemma ExecuteForm(s: State, i: nat, revision: nat, date: nat, lines: seq<LineExecution>, now: nat)
    requires Inv(s) && Execute(s, i, revision, date, lines, now).Ok?
    ensures s.control.status.ActiveLedger? && HasActive(s) && i < |s.documents|
    ensures ValidExecution(s.documents[i], date, lines)
    ensures var d := ExecutedDocument(s.documents[i], date, lines, now);
            var g := ActiveGeneration(s);
            && LaterDocument(s.documents[i], d) && Priced(d, g.cutover)
            && DocumentRows(d, g.cutover, false).Ok?
            && var rows := DocumentRows(d, g.cutover, false).value;
               var after := g.entries + Stamped(PostingFor(d), rows, s.nextId);
               && GrownBy(g.entries, d, g.cutover, PostingFor(d), rows, s.nextId)
               && PostedNow(after, d, g.cutover)
               && !HasNegativeTimeline(after)
               && Execute(s, i, revision, date, lines, now) == Ok(WithLog(s, i, d, after, s.nextId + |rows|))
  {
    hide HasNegativeTimeline, PostedNow, GrownBy, ValidDraft, ExecutedPosted, ExecutedPriced;
    var d := ExecutedDocument(s.documents[i], date, lines, now);
    assert WellFormed(s.documents[i]);
    ExecutedIsLater(s.documents[i], date, lines, now);
    ExecutedIsPriced(s.documents[i], date, lines, now, ActiveGeneration(s).cutover);
    var g := ActiveGeneration(s);
    NextRevisionIsFresh(g.entries, g.cutover, s.documents, i, PostingFor(d), s.nextId);
    PostDocumentExtends(g.entries, d, g.cutover, true, s.nextId);
  }

  lemma AppendKeepsInv(s: State, i: nat, d: Document, p: Posting, rows: seq<Row>)
    requires Inv(s) && s.control.status.ActiveLedger? && i < |s.documents| && LaterDocument(s.documents[i], d)
    requires GrownBy(ActiveGeneration(s).entries, d, ActiveGeneration(s).cutover, p, rows, s.nextId)
    requires var after := ActiveGeneration(s).entries + Stamped(p, rows, s.nextId);
             && !HasNegativeTimeline(after)
             && (IsExecuted(d) ==>
                 PostedNow(after, d, ActiveGeneration(s).cutover) && Priced(d, ActiveGeneration(s).cutover))
    ensures Inv(WithLog(s, i, d, ActiveGeneration(s).entries + Stamped(p, rows, s.nextId), s.nextId + |rows|))
  {
    hide LogInv, ExecutedPosted, HasNegativeTimeline, PostedNow, ValidDraft, WellFormed;
    var g := ActiveGeneration(s);
    LogGrows(g.entries, p, rows, g.cutover, s.documents, i, d, s.nextId);
    OthersStayPosted(g.entries, p, rows, s.nextId, s.documents, i, d, g.cutover);
    WithLogKeepsInv(s, i, d, g.entries + Stamped(p, rows, s.nextId), s.nextId + |rows|);
  }

  lemma ExecuteKeepsInv(s: State, i: nat, revision: nat, date: nat, lines: seq<LineExecution>, now: nat)
    requires Inv(s) && Execute(s, i, revision, date, lines, now).Ok?
    ensures Inv(Execute(s, i, revision, date, lines, now).value)
  {
    hide Inv, Execute, HasNegativeTimeline, PostedNow, LaterDocument, GrownBy, WithLog, DocumentRows, ValidExecution,
      ExecutedDocument, Priced;
    ExecuteForm(s, i, revision, date, lines, now);
    var d := ExecutedDocument(s.documents[i], date, lines, now);
    AppendKeepsInv(s, i, d, PostingFor(d), DocumentRows(d, ActiveGeneration(s).cutover, false).value);
  }

  lemma ReverseForm(s: State, doc: Id, revision: nat, now: nat)
    requires HasActive(s) && HandleUnexecuted(s, doc, revision, now).Ok? && !s.control.status.DraftLedger?
    ensures s.control.status.ActiveLedger? && HasEntriesForSource(ActiveGeneration(s).entries, doc)
    ensures var entries := ActiveGeneration(s).entries;
            var rows := ReversalRows(entries, doc);
            var after := InsertRows(entries, Posting(ReversalEntry, doc, revision, now), rows, s.nextId);
            && after.Ok? && !HasNegativeTimeline(after.value)
            && var g := s.control.activeGeneration.value;
               HandleUnexecuted(s, doc, revision, now)
               == Ok(s.(generations := s.generations[g := s.generations[g].(entries := after.value)],
                        nextId := s.nextId + |rows|))
  {
  }

  /** A committed withdrawal from an active ledger: the newest posting of the document is appended, negated. */
  lemma UnexecuteForm(s: State, i: nat, revision: nat, now: nat)
    requires Inv(s) && Unexecute(s, i, revision, now).Ok? && !s.control.status.DraftLedger?
    ensures s.control.status.ActiveLedger? && HasActive(s) && i < |s.documents|
    ensures var d := UnexecutedDocument(s.documents[i], now);
            var entries := ActiveGeneration(s).entries;
            var rows := ReversalRows(entries, d.id);
            && LaterDocument(s.documents[i], d)
            && HasEntriesForSource(entries, d.id)
            && !HasNegativeTimeline(entries + Stamped(ReversalFor(d, now), rows, s.nextId))
            && GrownBy(entries, d, ActiveGeneration(s).cutover, ReversalFor(d, now), rows, s.nextId)
            && Unexecute(s, i, revision, now)
               == Ok(WithLog(s, i, d, entries + Stamped(ReversalFor(d, now), rows, s.nextId), s.nextId + |rows|))
  {
    hide HasNegativeTimeline, GrownBy, HandleUnexecuted, LogInv, InsertRows, ReversalRows, ExecutedPosted,
      ValidDraft;
    assert WellFormed(s.documents[i]);
    UnexecutedIsLater(s.documents[i], now);
    var d := UnexecutedDocument(s.documents[i], now);
    var s' := s.(documents := s.documents[i := d]);
    ReverseForm(s', d.id, d.revision, now);
    ReverseExtends(ActiveGeneration(s).entries, ActiveGeneration(s).cutover, s.documents, i, now, s.nextId);
  }

  lemma UnexecuteDraftKeepsInv(s: State, i: nat, revision: nat, now: nat)
    requires Inv(s) && Unexecute(s, i, revision, now).Ok? && s.control.status.DraftLedger?
    ensures Inv(Unexecute(s, i, revision, now).value)
  {
    assert WellFormed(s.documents[i]);
    UnexecutedIsLater(s.documents[i], now);
    DocumentsLater(s.documents, i, UnexecutedDocument(s.documents[i], now));
  }

  lemma UnexecuteActiveKeepsInv(s: State, i: nat, revision: nat, now: nat)
    requires Inv(s) && Unexecute(s, i, revision, now).Ok? && !s.control.status.DraftLedger?
    ensures Inv(Unexecute(s, i, revision, now).value)
  {
    hide Inv, Unexecute, HasNegativeTimeline, LaterDocument, GrownBy, WithLog, ReversalRows;
    UnexecuteForm(s, i, revision, now);
    var d := UnexecutedDocument(s.documents[i], now);
    AppendKeepsInv(s, i, d, ReversalFor(d, now), ReversalRows(ActiveGeneration(s).entries, d.id));
  }

  // ------------------------------------------------------------- activation

  ghost predicate ReplayReady(entries: Log, documents: seq<Document>, cutover: nat, id: Id) {
    && Pairwise(entries, Apart)
    && (forall e :: e in entries ==> e.kind.OpeningEntry? && e.doc == NO_ID && e.id < id && e.date >= cutover)
    && DocumentsInv(documents)
  }

  /** The row was posted by the revision its document has now. */
  ghost predicate PostedAtPresent(documents: seq<Document>, e: Entry) {
    exists i :: 0 <= i < |documents| && documents[i].id == e.doc && documents[i].revision == e.revision
  }

  /** The replayed log: openings, and postings of the replayed documents at their present revisions. */
  ghost predicate Replayed(documents: seq<Document>, cutover: nat, id: Id, posted: Posted) {
    && id <= posted.nextId
    && Pairwise(posted.entries, Apart)
    && (forall e :: e in posted.entries ==> e.id < posted.nextId && e.date >= cutover)
    && (forall e :: e in posted.entries && e.kind.OpeningEntry? ==> e.doc == NO_ID)
    && (forall e :: e in posted.entries && !e.kind.OpeningEntry? ==>
          e.kind.PostingEntry? && Sourced(posted.entries, documents, e) && PostedAtPresent(documents, e))
    && (forall k :: 0 <= k < |documents| ==> PostedNow(posted.entries, documents[k], cutover))
  }

  lemma {:induction false} ReplayPosts(entries: Log, documents: seq<Document>, cutover: nat, id: Id)
    requires ReplayReady(entries, documents, cutover, id)
    requires ReplayDocuments(entries, documents, cutover, id).Ok?
    ensures Replayed(documents, cutover, id, ReplayDocuments(entries, documents, cutover, id).value)
  {
    hide Replayed, PostDocument, Pairwise;
    if |documents| != 0 {
      var n := |documents| - 1;
      var front, d := documents[..n], documents[n];
      assert documents == front + [d];
      ReplayPosts(entries, front, cutover, id);
      ReplayOne(ReplayDocuments(entries, front, cutover, id).value, front, d, cutover, id);
    } else {
      NothingReplayed(entries, documents, cutover, id);
    }
  }

  lemma NothingReplayed(entries: Log, documents: seq<Document>, cutover: nat, id: Id)
    requires ReplayReady(entries, documents, cutover, id) && |documents| == 0
    ensures Replayed(documents, cutover, id, Posted(entries, id))
  {
  }

  lemma ReplayIsFresh(before: Posted, front: seq<Document>, d: Document, cutover: nat, id: Id)
    requires Replayed(front, cutover, id, before) && DocumentsInv(front + [d])
    ensures forall x :: x in before.entries ==> x.doc != d.id
    ensures FreshPosting(before.entries, PostingFor(d), before.nextId)
  {
    var all := front + [d];
    assert all[|front|] == d && WellFormed(all[|front|]);
    forall x | x in before.entries && !x.kind.OpeningEntry?
      ensures x.doc != d.id
    {
      var k :| 0 <= k < |front| && SourcedFrom(before.entries, front[k], x);
      assert all[k] == front[k];
    }
  }

  lemma ReplaySources(before: Posted, front: seq<Document>, d: Document, rows: seq<Row>, cutover: nat, id: Id)
    requires Replayed(front, cutover, id, before)
    requires GrownBy(before.entries, d, cutover, PostingFor(d), rows, before.nextId)
    ensures var after := before.entries + Stamped(PostingFor(d), rows, before.nextId);
            forall e :: e in after && !e.kind.OpeningEntry? ==>
              e.kind.PostingEntry? && Sourced(after, front + [d], e) && PostedAtPresent(front + [d], e)
  {
    var all := front + [d];
    var after := before.entries + Stamped(PostingFor(d), rows, before.nextId);
    forall e | e in after && !e.kind.OpeningEntry?
      ensures e.kind.PostingEntry? && Sourced(after, all, e) && PostedAtPresent(all, e)
    {
      if e in before.entries {
        var k :| 0 <= k < |front| && SourcedFrom(before.entries, front[k], e);
        assert SourcedFrom(after, all[k], e);
        var l :| 0 <= l < |front| && front[l].id == e.doc && front[l].revision == e.revision;
        assert all[l] == front[l];
      } else {
        assert SourcedFrom(after, all[|front|], e);
      }
    }
  }

  lemma ReplayKeepsPosted(before: Posted, front: seq<Document>, d: Document, rows: seq<Row>, cutover: nat, id: Id)
    requires Replayed(front, cutover, id, before) && DocumentsInv(front + [d])
    requires PostedNow(before.entries + Stamped(PostingFor(d), rows, before.nextId), d, cutover)
    ensures var after := before.entries + Stamped(PostingFor(d), rows, before.nextId);
            forall k :: 0 <= k < |front + [d]| ==> PostedNow(after, (front + [d])[k], cutover)
  {
    var all := front + [d];
    var after := before.entries + Stamped(PostingFor(d), rows, before.nextId);
    forall k | 0 <= k < |front|
      ensures PostedNow(after, all[k], cutover)
    {
      assert all[k] == front[k] && all[k].id != all[|front|].id;
      PostingsAtAppend(before.entries, PostingFor(d), rows, before.nextId, front[k].id, front[k].revision);
      assert PostedNow(before.entries, front[k], cutover);
    }
  }

  lemma ReplayOne(before: Posted, front: seq<Document>, d: Document, cutover: nat, id: Id)
    requires Replayed(front, cutover, id, before) && DocumentsInv(front + [d])
    requires PostDocument(before.entries, d, cutover, false, before.nextId).Ok?
    ensures Replayed(front + [d], cutover, id, PostDocument(before.entries, d, cutover, false, before.nextId).value)
  {
    hide PostDocument, DocumentRows, FreshPosting, PostedNow, Sourced, PostedAtPresent;
    assert WellFormed((front + [d])[|front|]);
    ReplayIsFresh(before, front, d, cutover, id);
    PostDocumentExtends(before.entries, d, cutover, false, before.nextId);
    var rows := DocumentRows(d, cutover, false).value;
    ReplaySources(before, front, d, rows, cutover, id);
    ReplayKeepsPosted(before, front, d, rows, cutover, id);
  }

  /** The replay order lists exactly the executed documents, each once. */
  lemma ListExecutedIs(documents: seq<Document>)
    requires DocumentsInv(documents)
    ensures DocumentsInv(ListExecuted(documents))
    ensures forall d :: d in ListExecuted(documents) <==> d in documents && IsExecuted(d)
  {
    var executed, listed := Filter(documents, IsExecuted), ListExecuted(documents);
    SameElements(listed, executed);
    DistinctExecuted(documents);
    DistinctRearranged(executed, listed);
    hide WellFormed;
    forall i | 0 <= i < |listed|
      ensures WellFormed(listed[i])
    {
      assert listed[i] in executed;
      var k :| 0 <= k < |documents| && documents[k] == listed[i];
    }
    forall i, j | 0 <= i < j < |listed|
      ensures listed[i].id != listed[j].id
    {
      assert listed[i] in executed && listed[j] in executed;
      var k :| 0 <= k < |documents| && documents[k] == listed[i];
      var l :| 0 <= l < |documents| && documents[l] == listed[j];
    }
  }

  lemma DistinctExecuted(documents: seq<Document>)
    requires DocumentsInv(documents)
    ensures Distinct(Filter(documents, IsExecuted))
  {
    hide WellFormed;
    var executed := Filter(documents, IsExecuted);
    var differ := (a: Document, b: Document) => a.id != b.id;
    PairwiseFilter(documents, IsExecuted, differ);
    assert forall i, j :: 0 <= i < j < |executed| ==> differ(executed[i], executed[j]);
  }

  lemma OpeningReady(draft: seq<OpeningRow>, documents: seq<Document>, cutover: nat, nextId: Id)
    requires ValidDraft(draft, nextId) && DocumentsInv(documents)
    ensures ReplayReady(OpeningEntries(draft, cutover), ListExecuted(documents), cutover, nextId + 1)
  {
    OpeningEntriesApart(draft, cutover);
    OpeningEntriesAre(draft, cutover);
    ListExecutedIs(documents);
  }

  /** A log replayed from the listed documents is a log of the document table. */
  lemma ReplayedIsLog(documents: seq<Document>, cutover: nat, id: Id, posted: Posted)
    requires DocumentsInv(documents) && Replayed(ListExecuted(documents), cutover, id, posted)
    ensures LogInv(posted.entries, cutover, documents, posted.nextId)
    ensures ExecutedPosted(posted.entries, documents, cutover)
  {
    hide PostedNow, Pairwise;
    var listed := ListExecuted(documents);
    ListExecutedIs(documents);
    forall e | e in posted.entries && !e.kind.OpeningEntry?
      ensures Sourced(posted.entries, documents, e)
    {
      var k :| 0 <= k < |listed| && SourcedFrom(posted.entries, listed[k], e);
      assert listed[k] in documents;
    }
    forall i | 0 <= i < |documents| && IsExecuted(documents[i])
      ensures PostedNow(posted.entries, documents[i], cutover)
    {
      assert documents[i] in listed;
    }
  }

  lemma RebuildKeepsLog(s: State, cutover: nat)
    requires Inv(s) && Rebuild(s, cutover).Ok?
    ensures var posted := Rebuild(s, cutover).value;
            && s.nextId < posted.nextId
            && LogInv(posted.entries, cutover, s.documents, posted.nextId)
            && ExecutedPosted(posted.entries, s.documents, cutover)
            && (forall e :: e in posted.entries && !e.kind.OpeningEntry? ==>
                  e.kind.PostingEntry? && PostedAtPresent(ListExecuted(s.documents), e))
  {
    hide LogInv, ExecutedPosted, ListExecuted, DocumentsInv, GenerationInv, ReplayDocuments, ReplayReady,
      OpeningEntries, ValidDraft, HasActive;
    OpeningReady(s.draft, s.documents, cutover, s.nextId);
    ReplayPosts(OpeningEntries(s.draft, cutover), ListExecuted(s.documents), cutover, s.nextId + 1);
    ReplayedIsLog(s.documents, cutover, s.nextId + 1, Rebuild(s, cutover).value);
  }

  lemma DraftLater(draft: seq<OpeningRow>, id: Id, later: Id)
    requires ValidDraft(draft, id) && id <= later
    ensures ValidDraft(draft, later) && ValidDraft([], later)
  {
    hide ValidKey, DimensionOf;
  }

  lemma ActivateKeepsInv(s: State, revision: nat)
    requires Inv(s) && Activate(s, revision).Ok?
    ensures Inv(Activate(s, revision).value)
  {
    hide LogInv, ExecutedPosted, ExecutedPriced, HasNegativeTimeline, DocumentsInv, Rebuild, PricesComplete,
      ListExecuted, ValidDraft;
    RebuildKeepsLog(s, s.control.cutover.value);
    DraftLater(s.draft, s.nextId, Activate(s, revision).value.nextId);
    ListedIsPriced(s.documents, s.control.cutover.value);
  }

  lemma ListedIsPriced(documents: seq<Document>, cutover: nat)
    requires DocumentsInv(documents)
    ensures PricesComplete(ListExecuted(documents), cutover) <==> ExecutedPriced(documents, cutover)
  {
    hide ListExecuted, Priced, DocumentsInv;
    ListExecutedIs(documents);
    if ExecutedPriced(documents, cutover) {
      forall d | d in ListExecuted(documents)
        ensures Priced(d, cutover)
      {
        var i :| 0 <= i < |documents| && documents[i] == d;
      }
    }
  }

  // --------------------------------------------------------------- all runs

  /** Whatever is asked, in whatever order: the control row, generations, draft and log stay consistent. */
  lemma StepKeepsInv(s: State, a: Action)
    requires Inv(s)
    ensures Inv(Next(s, a))
  {
    if Step(s, a).Ok? {
      match a
      case SaveOpeningAction(revision, cutover, items, effective) =>
        SaveOpeningKeepsInv(s, revision, cutover, items, effective);
      case ActivateAction(revision) => ActivateKeepsInv(s, revision);
      case ReopenAction(revision) => ReopenKeepsInv(s, revision);
      case CancelReopenAction(revision) => CancelReopenKeepsInv(s, revision);
      case ExecuteAction(i, revision, date, lines, now) => ExecuteKeepsInv(s, i, revision, date, lines, now);
      case UnexecuteAction(i, revision, now) =>
        if s.control.status.DraftLedger? {
          UnexecuteDraftKeepsInv(s, i, revision, now);
        } else {
          UnexecuteActiveKeepsInv(s, i, revision, now);
        }
      case EditAction(i, document) => EditDocumentKeepsInv(s, i, document);
      case AddAction(document) => AddDocumentKeepsInv(s, document);
    }
  }

  lemma {:induction false} RunKeepsInv(s: State, actions: seq<Action>)
    requires Initial(s)
    ensures Inv(Run(s, actions))
  {
    if |actions| != 0 {
      RunKeepsInv(s, actions[..|actions| - 1]);
      StepKeepsInv(Run(s, actions[..|actions| - 1]), actions[|actions| - 1]);
    }
  }
}
