/** The incrementally kept ledger against its plain meaning: the opening plus the documents executed now. */
module LedAgreement {
  import opened Results
  import opened Sequences
  import opened LedModel
  import opened LedLog
  import opened LedTimeline
  import opened LedOpening
  import opened LedMachine
  import opened LedInvariant
  import opened LedPreservation

  /** What a document contributes to a view: its rows, cut at the cutover, while it is executed. */
  function DocumentWeight(view: View, cutover: nat): Document -> int {
    (d: Document) =>
      if IsExecuted(d) && DocumentRows(d, cutover, false).Ok?
      then Sum(DocumentRows(d, cutover, false).value, RowWeight(view, d.id)) else 0
  }

  /** In this view, the active ledger is the opening plus the effects of the documents executed now. */
  ghost predicate AgreesOn(s: State, view: View)
    requires HasActive(s)
  {
    var g := ActiveGeneration(s);
    Sum(g.entries, EntryWeight(view))
    == Sum(g.opening, OpeningWeight(view, g.cutover)) + Sum(s.documents, DocumentWeight(view, g.cutover))
  }

  /** Every balance, for every dimension and every date, is right. */
  ghost predicate Agrees(s: State)
    requires HasActive(s)
  {
    forall dim: Dim, asOf: nat :: AgreesOn(s, AsOf(dim, asOf))
  }

  // -------------------------------------------------- the newest posting

  /** While a document that posts rows is executed, those rows are its newest posting. */
  lemma NewestIsPresent(log: Log, cutover: nat, documents: seq<Document>, i: nat, id: Id)
    requires DocumentsInv(documents) && LogInv(log, cutover, documents, id)
    requires i < |documents| && PostedNow(log, documents[i], cutover)
    requires DocumentRows(documents[i], cutover, false).value != []
    ensures NewestPosting(log, documents[i].id) == documents[i].revision
  {
    var d := documents[i];
    var present := PostingsAt(log, d.id, d.revision);
    assert |present| > 0 && present[0] in present;
    assert present[0] in log && IsPosting(present[0], d.id) && present[0].revision == d.revision;
    NewestPostingBounds(log, d.id);
    forall e | e in log && IsPosting(e, d.id)
      ensures e.revision <= d.revision
    {
      var k :| 0 <= k < |documents| && SourcedFrom(log, documents[k], e);
      assert k != i ==> documents[k].id != documents[i].id;
    }
    assert WellFormed(d);
  }

  /** The reversal of an executed document that posts rows takes back exactly those rows. */
  lemma ReversalIsExact(log: Log, cutover: nat, documents: seq<Document>, i: nat, id: Id, view: View)
    requires DocumentsInv(documents) && LogInv(log, cutover, documents, id)
    requires i < |documents| && PostedNow(log, documents[i], cutover)
    requires DocumentRows(documents[i], cutover, false).value != []
    ensures Sum(ReversalRows(log, documents[i].id), RowWeight(view, documents[i].id))
         == -Sum(DocumentRows(documents[i], cutover, false).value, RowWeight(view, documents[i].id))
  {
    NewestIsPresent(log, cutover, documents, i, id);
    ReversalTakesBackPosting(log, documents[i].id, view);
    SumRowsOf(PostingsAt(log, documents[i].id, documents[i].revision), view, documents[i].id);
  }

  // ---------------------------------------------- which executions post rows

  lemma {:induction false} LinesRowsEmpty(d: Document, scope: Scope, lines: seq<Line>)
    requires d.detail.HasLines() && LinesRows(d, scope, lines).Ok?
    ensures LinesRows(d, scope, lines).value == []
       <==> forall i :: 0 <= i < |lines| ==> LineRows(d, scope, lines[i]) == Ok([])
  {
    if |lines| != 0 {
      LinesRowsEmpty(d, scope, lines[..|lines| - 1]);
      assert forall i :: 0 <= i < |lines| - 1 ==> lines[..|lines| - 1][i] == lines[i];
    }
  }

  /** Some line of an intermediary sale was signed for. Other documents always count as signed. */
  predicate SomethingSigned(d: Document, lines: seq<LineExecution>) {
    d.detail.IntermediarySale? ==> exists i :: 0 <= i < |d.lines| && SignedFor(lines, d.lines[i].id)
  }

  predicate SignedFor(lines: seq<LineExecution>, line: Id) {
    FindExecution(lines, line).Some? && FindExecution(lines, line).value.signed != 0
  }

  lemma IntermediaryLineEmpty(d: Document, scope: Scope, line: Line)
    requires d.detail.IntermediarySale? && scope.party && line.signed.Some? && LineRows(d, scope, line).Ok?
    ensures LineRows(d, scope, line) == Ok([]) <==> line.signed.value == 0
  {
  }

  lemma StockLineNotEmpty(d: Document, scope: Scope, line: Line)
    requires d.detail.Sale? || d.detail.Purchase?
    requires scope.inventory && LineRows(d, scope, line).Ok?
    ensures LineRows(d, scope, line) != Ok([])
  {
  }

  /** A live execution posts no row at all exactly when it is an intermediary sale nothing of which was signed for. */
  lemma PostsUnlessNothingSigned(d: Document, date: nat, lines: seq<LineExecution>, now: nat, cutover: nat)
    requires ValidExecution(d, date, lines)
    requires DocumentRows(ExecutedDocument(d, date, lines, now), cutover, true).Ok?
    ensures DocumentRows(ExecutedDocument(d, date, lines, now), cutover, true).value != []
       <==> SomethingSigned(d, lines)
  {
    hide LinesRows, LineRows;
    var after := ExecutedDocument(d, date, lines, now);
    var scope := EffectScope(after, cutover, true).value;
    LiveLinesRows(after, cutover);
    hide EffectScope;
    if after.detail.HasLines() {
      LinesRowsEmpty(after, scope, after.lines);
      if after.detail.IntermediarySale? {
        forall i | 0 <= i < |d.lines|
          ensures LineRows(after, scope, after.lines[i]) == Ok([]) <==> !SignedFor(lines, d.lines[i].id)
        {
          LinesRowsOk(after, scope, after.lines, i);
          IntermediaryLineEmpty(after, scope, after.lines[i]);
        }
      } else {
        LinesRowsOk(after, scope, after.lines, 0);
        StockLineNotEmpty(after, scope, after.lines[0]);
      }
    }
  }

  lemma LiveLinesRows(d: Document, cutover: nat)
    requires EffectScope(d, cutover, true).Ok?
    ensures EffectScope(d, cutover, true).value.party
    ensures d.detail.Sale? || d.detail.Purchase? ==> EffectScope(d, cutover, true).value.inventory
  {
  }

  lemma {:induction false} LinesRowsOk(d: Document, scope: Scope, lines: seq<Line>, i: nat)
    requires d.detail.HasLines() && LinesRows(d, scope, lines).Ok? && i < |lines|
    ensures LineRows(d, scope, lines[i]).Ok?
  {
    if i < |lines| - 1 {
      LinesRowsOk(d, scope, lines[..|lines| - 1], i);
    }
  }

  // ------------------------------------------------- agreement, step by step

  ghost predicate PostsNothing(d: Document, cutover: nat) {
    IsExecuted(d) && DocumentRows(d, cutover, false) == Ok([])
  }

  /** An executed document that posts nothing has nothing in the active log that a reversal could find. */
  ghost predicate NoStalePostings(s: State)
    requires HasActive(s)
  {
    NothingStale(ActiveGeneration(s).entries, s.documents, ActiveGeneration(s).cutover)
  }

  ghost predicate NothingStale(log: Log, documents: seq<Document>, cutover: nat) {
    forall i ::
      0 <= i < |documents| && PostsNothing(documents[i], cutover) ==> !HasEntriesForSource(log, documents[i].id)
  }

  ghost predicate Faithful(s: State, view: View) {
    HasActive(s) ==> AgreesOn(s, view) && NoStalePostings(s)
  }

  lemma ExecuteAgrees(s: State, i: nat, revision: nat, date: nat, lines: seq<LineExecution>, now: nat, view: View)
    requires Inv(s) && Execute(s, i, revision, date, lines, now).Ok?
    ensures HasActive(s) && HasActive(Execute(s, i, revision, date, lines, now).value)
    ensures AgreesOn(s, view) <==> AgreesOn(Execute(s, i, revision, date, lines, now).value, view)
  {
    hide Execute, Inv, HasNegativeTimeline, GrownBy, PostedNow, LaterDocument;
    ExecuteForm(s, i, revision, date, lines, now);
    var d := ExecutedDocument(s.documents[i], date, lines, now);
    var g := ActiveGeneration(s);
    var rows := DocumentRows(d, g.cutover, false).value;
    SumAppend(g.entries, Stamped(PostingFor(d), rows, s.nextId), EntryWeight(view));
    SumStamped(PostingFor(d), rows, s.nextId, view);
    SumUpdate(s.documents, i, d, DocumentWeight(view, g.cutover));
    ExecuteStarted(s, i, revision, date, lines, now);
  }

  lemma ExecuteStarted(s: State, i: nat, revision: nat, date: nat, lines: seq<LineExecution>, now: nat)
    requires Execute(s, i, revision, date, lines, now).Ok?
    ensures i < |s.documents| && !IsExecuted(s.documents[i]) && ValidExecution(s.documents[i], date, lines)
  {
  }

  /** Rows of one document are entries of no other. */
  lemma EntriesOfOthers(log: Log, p: Posting, rows: seq<Row>, id: Id, doc: Id)
    requires p.doc != doc
    ensures HasEntriesForSource(log + Stamped(p, rows, id), doc) <==> HasEntriesForSource(log, doc)
  {
    var added := Stamped(p, rows, id);
    if e :| e in log && e.doc == doc {
      assert e in log + added;
    }
  }

  lemma OtherIds(documents: seq<Document>, i: nat, k: nat)
    requires DocumentsInv(documents) && i < |documents| && k < |documents| && i != k
    ensures documents[k].id != documents[i].id
  {
    hide WellFormed;
  }

  lemma NoStaleAppend(log: Log, p: Posting, rows: seq<Row>, id: Id, documents: seq<Document>, i: nat, d: Document,
      cutover: nat)
    requires DocumentsInv(documents) && i < |documents| && p.doc == documents[i].id
    requires !PostsNothing(d, cutover) && NothingStale(log, documents, cutover)
    ensures NothingStale(log + Stamped(p, rows, id), documents[i := d], cutover)
  {
    hide DocumentsInv, PostsNothing, HasEntriesForSource, Stamped;
    var after := documents[i := d];
    forall k | 0 <= k < |after| && PostsNothing(after[k], cutover)
      ensures !HasEntriesForSource(log + Stamped(p, rows, id), after[k].id)
    {
      OtherIds(documents, i, k);
      EntriesOfOthers(log, p, rows, id, documents[k].id);
    }
  }

  lemma ExecutePosts(s: State, i: nat, revision: nat, date: nat, lines: seq<LineExecution>, now: nat)
    requires Inv(s) && Execute(s, i, revision, date, lines, now).Ok? && HasActive(s) && i < |s.documents|
    requires ValidExecution(s.documents[i], date, lines)
    ensures PostsNothing(ExecutedDocument(s.documents[i], date, lines, now), ActiveGeneration(s).cutover)
       <==> !SomethingSigned(s.documents[i], lines)
  {
    hide Inv, Execute, DocumentRows, SomethingSigned, ValidExecution;
    LiveRows(s, i, revision, date, lines, now);
    PostsUnlessNothingSigned(s.documents[i], date, lines, now, ActiveGeneration(s).cutover);
  }

  lemma ExecuteNoStale(s: State, i: nat, revision: nat, date: nat, lines: seq<LineExecution>, now: nat)
    requires Inv(s) && Execute(s, i, revision, date, lines, now).Ok? && HasActive(s) && NoStalePostings(s)
    requires SomethingSigned(s.documents[i], lines)
    ensures HasActive(Execute(s, i, revision, date, lines, now).value)
    ensures NoStalePostings(Execute(s, i, revision, date, lines, now).value)
  {
    hide Execute, HasNegativeTimeline, GrownBy, GenerationInv, SomethingSigned, DocumentRows, NothingStale,
      PostedNow, LaterDocument, DocumentsInv, ValidExecution;
    ExecuteForm(s, i, revision, date, lines, now);
    ExecutePosts(s, i, revision, date, lines, now);
    var d := ExecutedDocument(s.documents[i], date, lines, now);
    var g := ActiveGeneration(s);
    NoStaleAppend(g.entries, PostingFor(d), DocumentRows(d, g.cutover, false).value, s.nextId, s.documents, i, d,
        g.cutover);
  }

  /** The rows a committed execution posts are the live rows. */
  lemma LiveRows(s: State, i: nat, revision: nat, date: nat, lines: seq<LineExecution>, now: nat)
    requires Inv(s) && Execute(s, i, revision, date, lines, now).Ok?
    ensures var d := ExecutedDocument(s.documents[i], date, lines, now);
            && HasActive(s)
            && DocumentRows(d, ActiveGeneration(s).cutover, true).Ok?
            && DocumentRows(d, ActiveGeneration(s).cutover, true) == DocumentRows(d, ActiveGeneration(s).cutover, false)
  {
    hide HasNegativeTimeline, LogInv, ExecutedPosted;
    var d := ExecutedDocument(s.documents[i], date, lines, now);
    ReplayEqualsLive(d, ActiveGeneration(s).cutover);
  }

  lemma UnexecuteSum(s: State, i: nat, revision: nat, now: nat, view: View)
    requires Inv(s) && Unexecute(s, i, revision, now).Ok? && !s.control.status.DraftLedger?
    ensures HasActive(s) && HasActive(Unexecute(s, i, revision, now).value)
    ensures var g := ActiveGeneration(s);
            var after := Unexecute(s, i, revision, now).value;
            && ActiveGeneration(after).cutover == g.cutover && ActiveGeneration(after).opening == g.opening
            && Sum(ActiveGeneration(after).entries, EntryWeight(view))
               == Sum(g.entries, EntryWeight(view))
                  + Sum(ReversalRows(g.entries, s.documents[i].id), RowWeight(view, s.documents[i].id))
            && Sum(after.documents, DocumentWeight(view, g.cutover))
               == Sum(s.documents, DocumentWeight(view, g.cutover)) - DocumentWeight(view, g.cutover)(s.documents[i])
  {
    hide Unexecute, HasNegativeTimeline, GrownBy, LaterDocument, LogInv, ExecutedPosted;
    UnexecuteForm(s, i, revision, now);
    var d := UnexecutedDocument(s.documents[i], now);
    var g := ActiveGeneration(s);
    var rows := ReversalRows(g.entries, d.id);
    SumAppend(g.entries, Stamped(ReversalFor(d, now), rows, s.nextId), EntryWeight(view));
    SumStamped(ReversalFor(d, now), rows, s.nextId, view);
    SumUpdate(s.documents, i, d, DocumentWeight(view, g.cutover));
  }

  lemma UnexecuteStarted(s: State, i: nat, revision: nat, now: nat)
    requires Inv(s) && Unexecute(s, i, revision, now).Ok? && !s.control.status.DraftLedger?
    ensures HasActive(s) && i < |s.documents| && IsExecuted(s.documents[i])
    ensures PostedNow(ActiveGeneration(s).entries, s.documents[i], ActiveGeneration(s).cutover)
    ensures HasEntriesForSource(ActiveGeneration(s).entries, s.documents[i].id)
  {
    hide HasNegativeTimeline, LogInv, PostedNow;
  }

  /** Withdrawing a document that posts rows keeps every view right. */
  lemma UnexecuteAgrees(s: State, i: nat, revision: nat, now: nat, view: View)
    requires Inv(s) && Unexecute(s, i, revision, now).Ok? && HasActive(s)
    requires DocumentRows(s.documents[i], ActiveGeneration(s).cutover, false) != Ok([])
    ensures HasActive(Unexecute(s, i, revision, now).value)
    ensures AgreesOn(s, view) <==> AgreesOn(Unexecute(s, i, revision, now).value, view)
  {
    hide Unexecute, HasNegativeTimeline, ExecutedPosted;
    UnexecuteStarted(s, i, revision, now);
    UnexecuteSum(s, i, revision, now, view);
    var g := ActiveGeneration(s);
    ReversalIsExact(g.entries, g.cutover, s.documents, i, s.nextId, view);
  }

  lemma UnexecuteNoStale(s: State, i: nat, revision: nat, now: nat)
    requires Inv(s) && Unexecute(s, i, revision, now).Ok? && HasActive(s) && NoStalePostings(s)
    ensures HasActive(Unexecute(s, i, revision, now).value)
    ensures NoStalePostings(Unexecute(s, i, revision, now).value)
  {
    hide Unexecute, HasNegativeTimeline, GrownBy, GenerationInv, DocumentRows, NothingStale, LaterDocument,
      DocumentsInv;
    UnexecuteForm(s, i, revision, now);
    var d := UnexecutedDocument(s.documents[i], now);
    var g := ActiveGeneration(s);
    NoStaleAppend(g.entries, ReversalFor(d, now), ReversalRows(g.entries, d.id), s.nextId, s.documents, i, d,
        g.cutover);
  }

  // ---------------------------------------------- withdrawal without a posting

  /** Postings of one document have the signs its entity gives them. */
  lemma PostingSigned(log: Log, cutover: nat, documents: seq<Document>, i: nat, x: Entry, id: Id)
    requires DocumentsInv(documents) && LogInv(log, cutover, documents, id) && i < |documents|
    requires x in log && IsPosting(x, documents[i].id)
    ensures x.delta * Sign(documents[i].detail.Entity(), x.dim) > 0
  {
    var k :| 0 <= k < |documents| && SourcedFrom(log, documents[k], x);
    assert k == i;
  }

  lemma PostingWeightSigned(
    log: Log, cutover: nat, documents: seq<Document>, i: nat, x: Entry, dim: Dim, asOf: nat, id: Id)
    requires DocumentsInv(documents) && LogInv(log, cutover, documents, id) && i < |documents|
    requires x in log && IsPosting(x, documents[i].id)
    ensures var scaled := Scaled(Sign(documents[i].detail.Entity(), dim), EntryWeight(AsOf(dim, asOf)));
            scaled(x) >= 0 && (x.dim == dim && x.date <= asOf ==> scaled(x) > 0)
  {
    hide LogInv, DocumentsInv, Sign;
    PostingSigned(log, cutover, documents, i, x, id);
  }

  /** The rows of one posting that touch one dimension cannot cancel out. */
  lemma PostingMovesBalance(log: Log, cutover: nat, documents: seq<Document>, e: Entry, id: Id)
    requires DocumentsInv(documents) && LogInv(log, cutover, documents, id)
    requires e in log && e.kind.PostingEntry?
    ensures Sum(PostingsAt(log, e.doc, e.revision), EntryWeight(AsOf(e.dim, e.date))) != 0
  {
    var i :| 0 <= i < |documents| && SourcedFrom(log, documents[i], e);
    hide LogInv, SourcedFrom, DocumentsInv, Sign, Scaled, EntryWeight, AsOf;
    var group := PostingsAt(log, e.doc, e.revision);
    var w := EntryWeight(AsOf(e.dim, e.date));
    var sign := Sign(documents[i].detail.Entity(), e.dim);
    forall x | x in group
      ensures Scaled(sign, w)(x) >= 0
    {
      PostingWeightSigned(log, cutover, documents, i, x, e.dim, e.date, id);
    }
    SumNonNegative(group, Scaled(sign, w));
    PostingWeightSigned(log, cutover, documents, i, e, e.dim, e.date, id);
    assert e in group;
    SumScaled(group, sign, w);
  }

  lemma HasPosting(log: Log, cutover: nat, documents: seq<Document>, doc: Id, id: Id) returns (e: Entry)
    requires DocumentsInv(documents) && LogInv(log, cutover, documents, id)
    requires doc != NO_ID && HasEntriesForSource(log, doc)
    ensures e in log && IsPosting(e, doc) && e.revision == NewestPosting(log, doc)
  {
    var x :| x in log && x.doc == doc;
    var i :| 0 <= i < |documents| && SourcedFrom(log, documents[i], x);
    var y := x;
    if x.kind.ReversalEntry? {
      y :| y in log && IsPosting(y, doc);
    }
    var k :| 0 <= k < |documents| && SourcedFrom(log, documents[k], y);
    NewestPostingBounds(log, doc);
    e :| e in log && IsPosting(e, doc) && e.revision == NewestPosting(log, doc);
  }

  /** The balance that a committed withdrawal of a document without present rows gets wrong. */
  lemma StaleReversal(s: State, i: nat, revision: nat, now: nat) returns (dim: Dim, asOf: nat)
    requires Inv(s) && Unexecute(s, i, revision, now).Ok? && HasActive(s)
    requires PostsNothing(s.documents[i], ActiveGeneration(s).cutover)
    ensures HasActive(Unexecute(s, i, revision, now).value)
    ensures AgreesOn(s, AsOf(dim, asOf)) ==> !AgreesOn(Unexecute(s, i, revision, now).value, AsOf(dim, asOf))
  {
    hide Unexecute, HasNegativeTimeline, ExecutedPosted, LogInv;
    UnexecuteStarted(s, i, revision, now);
    var g := ActiveGeneration(s);
    var doc := s.documents[i].id;
    assert WellFormed(s.documents[i]);
    var e := HasPosting(g.entries, g.cutover, s.documents, doc, s.nextId);
    dim, asOf := e.dim, e.date;
    UnexecuteSum(s, i, revision, now, AsOf(dim, asOf));
    ReversalTakesBackPosting(g.entries, doc, AsOf(dim, asOf));
    PostingMovesBalance(g.entries, g.cutover, s.documents, e, s.nextId);
  }

  /** From a right ledger, a committed withdrawal leaves every balance right exactly when the withdrawn
      document posts rows: otherwise the newest posting is an old one, already reversed, and is reversed again. */
  lemma UnexecuteExact(s: State, i: nat, revision: nat, now: nat)
    requires Inv(s) && Unexecute(s, i, revision, now).Ok? && HasActive(s) && Agrees(s)
    ensures HasActive(Unexecute(s, i, revision, now).value)
    ensures Agrees(Unexecute(s, i, revision, now).value)
       <==> DocumentRows(s.documents[i], ActiveGeneration(s).cutover, false) != Ok([])
  {
    hide Unexecute, HasNegativeTimeline, ExecutedPosted, LogInv, AgreesOn, PostedNow;
    UnexecuteStarted(s, i, revision, now);
    if PostsNothing(s.documents[i], ActiveGeneration(s).cutover) {
      var dim, asOf := StaleReversal(s, i, revision, now);
      assert AgreesOn(s, AsOf(dim, asOf));
    } else {
      UnexecuteAgrees(s, i, revision, now, AsOf(Inventory(0, 0), 0));
      forall dim, asOf
        ensures AgreesOn(Unexecute(s, i, revision, now).value, AsOf(dim, asOf))
      {
        assert AgreesOn(s, AsOf(dim, asOf));
        UnexecuteAgrees(s, i, revision, now, AsOf(dim, asOf));
      }
    }
  }

  // ------------------------------------------------------------- activation

  lemma SumListExecuted(documents: seq<Document>, view: View, cutover: nat)
    ensures Sum(ListExecuted(documents), DocumentWeight(view, cutover)) == Sum(documents, DocumentWeight(view, cutover))
  {
    var w := DocumentWeight(view, cutover);
    SumSortBy(ExecutedNotAfter, Filter(documents, IsExecuted), w);
    SumFilter(documents, IsExecuted, w);
    SumEqual(documents, Where(IsExecuted, w), w);
  }

  lemma {:induction false} SumReplay(entries: Log, documents: seq<Document>, cutover: nat, id: Id, view: View)
    requires ReplayReady(entries, documents, cutover, id)
    requires forall d :: d in documents ==> IsExecuted(d)
    requires ReplayDocuments(entries, documents, cutover, id).Ok?
    ensures Sum(ReplayDocuments(entries, documents, cutover, id).value.entries, EntryWeight(view))
         == Sum(entries, EntryWeight(view)) + Sum(documents, DocumentWeight(view, cutover))
  {
    hide Replayed, PostDocument, Pairwise, GrownBy, PostedNow, FreshPosting;
    if |documents| != 0 {
      var n := |documents| - 1;
      var front, d := documents[..n], documents[n];
      assert documents == front + [d];
      var before := ReplayDocuments(entries, front, cutover, id).value;
      SumReplay(entries, front, cutover, id, view);
      ReplayPosts(entries, front, cutover, id);
      ReplayIsFresh(before, front, d, cutover, id);
      assert Pairwise(before.entries, Apart) by {
        ReplayedApart(front, cutover, id, before);
      }
      PostDocumentExtends(before.entries, d, cutover, false, before.nextId);
      var rows := DocumentRows(d, cutover, false).value;
      SumAppend(before.entries, Stamped(PostingFor(d), rows, before.nextId), EntryWeight(view));
      SumStamped(PostingFor(d), rows, before.nextId, view);
    }
  }

  lemma ReplayedApart(documents: seq<Document>, cutover: nat, id: Id, posted: Posted)
    requires Replayed(documents, cutover, id, posted)
    ensures Pairwise(posted.entries, Apart)
  {
  }

  lemma RebuildSum(s: State, cutover: nat, view: View)
    requires Inv(s) && Rebuild(s, cutover).Ok?
    ensures Sum(Rebuild(s, cutover).value.entries, EntryWeight(view))
         == Sum(s.draft, OpeningWeight(view, cutover)) + Sum(s.documents, DocumentWeight(view, cutover))
  {
    hide GenerationInv, ReplayDocuments;
    OpeningReady(s.draft, s.documents, cutover, s.nextId);
    ListExecutedIs(s.documents);
    SumReplay(OpeningEntries(s.draft, cutover), ListExecuted(s.documents), cutover, s.nextId + 1, view);
    SumListExecuted(s.documents, view, cutover);
    SumOpeningEntries(s.draft, cutover, view);
  }

  /** All rows of a replayed document were posted by its present revision. */
  lemma ReplayedAtPresent(documents: seq<Document>, cutover: nat, id: Id, posted: Posted, k: nat)
    requires DocumentsInv(documents) && Replayed(documents, cutover, id, posted) && k < |documents|
    ensures forall e :: e in posted.entries && e.doc == documents[k].id ==>
              e in PostingsAt(posted.entries, documents[k].id, documents[k].revision)
  {
    assert WellFormed(documents[k]);
    forall e | e in posted.entries && e.doc == documents[k].id
      ensures e in PostingsAt(posted.entries, documents[k].id, documents[k].revision)
    {
      var l :| 0 <= l < |documents| && documents[l].id == e.doc && documents[l].revision == e.revision;
      assert l == k;
    }
  }

  lemma ReplayedNoStale(documents: seq<Document>, cutover: nat, id: Id, posted: Posted, i: nat)
    requires DocumentsInv(documents) && Replayed(ListExecuted(documents), cutover, id, posted)
    requires i < |documents| && PostsNothing(documents[i], cutover)
    ensures !HasEntriesForSource(posted.entries, documents[i].id)
  {
    var listed, d := ListExecuted(documents), documents[i];
    ListExecutedIs(documents);
    assert d in listed;
    var k :| 0 <= k < |listed| && listed[k] == d;
    ReplayedAtPresent(listed, cutover, id, posted, k);
    assert PostedNow(posted.entries, listed[k], cutover);
    assert PostingsAt(posted.entries, d.id, d.revision) == [];
  }

  /** An activation builds a generation in which every view is right. */
  lemma ActivateFaithful(s: State, revision: nat, view: View)
    requires Inv(s) && Activate(s, revision).Ok?
    ensures HasActive(Activate(s, revision).value)
    ensures AgreesOn(Activate(s, revision).value, view) && NoStalePostings(Activate(s, revision).value)
  {
    hide GenerationInv, HasNegativeTimeline, ReplayDocuments, Replayed, PostsNothing, PricesComplete;
    var cutover := s.control.cutover.value;
    RebuildSum(s, cutover, view);
    OpeningReady(s.draft, s.documents, cutover, s.nextId);
    ReplayPosts(OpeningEntries(s.draft, cutover), ListExecuted(s.documents), cutover, s.nextId + 1);
    forall i | 0 <= i < |s.documents| && PostsNothing(s.documents[i], cutover)
      ensures !HasEntriesForSource(Rebuild(s, cutover).value.entries, s.documents[i].id)
    {
      ReplayedNoStale(s.documents, cutover, s.nextId + 1, Rebuild(s, cutover).value, i);
    }
  }

  // ---------------------------------------------------------------- all runs

  /** The only executions a run must avoid: intermediary sales nothing of which was signed for. */
  ghost predicate SignedAction(s: State, a: Action) {
    a.ExecuteAction? && Step(s, a).Ok? && a.i < |s.documents| ==> SomethingSigned(s.documents[a.i], a.lines)
  }

  ghost predicate SignedRun(s: State, actions: seq<Action>) {
    |actions| != 0 ==>
      SignedRun(s, actions[..|actions| - 1]) && SignedAction(Run(s, actions[..|actions| - 1]), actions[|actions| - 1])
  }

  lemma EditFaithful(s: State, i: nat, d: Document, view: View)
    requires Inv(s) && Faithful(s, view) && EditDocument(s, i, d).Ok?
    ensures Faithful(EditDocument(s, i, d).value, view)
  {
    hide GenerationInv, HasEntriesForSource, DocumentRows, WellFormed, DocumentsInv, ValidDraft;
    if HasActive(s) {
      SumUpdate(s.documents, i, d, DocumentWeight(view, ActiveGeneration(s).cutover));
    }
  }

  lemma AddFaithful(s: State, d: Document, view: View)
    requires Inv(s) && Faithful(s, view) && AddDocument(s, d).Ok?
    ensures Faithful(AddDocument(s, d).value, view)
  {
    hide GenerationInv, HasEntriesForSource, DocumentRows, WellFormed, DocumentsInv, ValidDraft;
    if HasActive(s) {
      SumAppend(s.documents, [d], DocumentWeight(view, ActiveGeneration(s).cutover));
    }
  }

  /** Steps that leave entries, opening and documents alone. */
  lemma ControlStepFaithful(s: State, a: Action, view: View)
    requires Inv(s) && Faithful(s, view) && Step(s, a).Ok?
    requires a.SaveOpeningAction? || a.ReopenAction? || a.CancelReopenAction?
    ensures Faithful(Step(s, a).value, view)
  {
    hide GenerationInv, ValidItems, ReplaceOpening, PostsNothing, HasEntriesForSource, DocumentsInv, ValidDraft;
  }

  lemma StepFaithful(s: State, a: Action, view: View)
    requires Inv(s) && Faithful(s, view) && SignedAction(s, a)
    ensures Faithful(Next(s, a), view)
  {
    hide Inv, AgreesOn, NoStalePostings, Activate, Execute, Unexecute, SaveOpening, Reopen, CancelReopen,
      EditDocument, AddDocument;
    if Step(s, a).Ok? {
      match a
      case ActivateAction(revision) => ActivateFaithful(s, revision, view);
      case ExecuteAction(i, revision, date, lines, now) =>
        ExecuteAgrees(s, i, revision, date, lines, now, view);
        ExecuteStarted(s, i, revision, date, lines, now);
        ExecuteNoStale(s, i, revision, date, lines, now);
      case UnexecuteAction(i, revision, now) => UnexecuteFaithful(s, i, revision, now, view);
      case EditAction(i, document) => EditFaithful(s, i, document, view);
      case AddAction(document) => AddFaithful(s, document, view);
      case _ => ControlStepFaithful(s, a, view);
    }
  }

  lemma UnexecuteFaithful(s: State, i: nat, revision: nat, now: nat, view: View)
    requires Inv(s) && Faithful(s, view) && Unexecute(s, i, revision, now).Ok?
    ensures Faithful(Unexecute(s, i, revision, now).value, view)
  {
    hide GenerationInv, AgreesOn, HasNegativeTimeline;
    if HasActive(s) {
      UnexecuteStarted(s, i, revision, now);
      assert !PostsNothing(s.documents[i], ActiveGeneration(s).cutover);
      UnexecuteAgrees(s, i, revision, now, view);
      UnexecuteNoStale(s, i, revision, now);
    }
  }

  lemma {:induction false} RunFaithful(s: State, actions: seq<Action>, view: View)
    requires Initial(s) && SignedRun(s, actions)
    ensures Faithful(Run(s, actions), view)
  {
    hide Inv, Faithful, Initial, Next, SignedAction;
    if |actions| != 0 {
      RunFaithful(s, actions[..|actions| - 1], view);
      RunKeepsInv(s, actions[..|actions| - 1]);
      StepFaithful(Run(s, actions[..|actions| - 1]), actions[|actions| - 1], view);
    } else {
      InitialFaithful(s, view);
    }
  }

  lemma InitialFaithful(s: State, view: View)
    requires Initial(s)
    ensures Faithful(s, view)
  {
  }

  /** After any number of executions, withdrawals, edits, savings, reopenings and activations, every balance of
      the active ledger, for every dimension and date, is the opening plus the documents executed now. */
  lemma LedgerAgrees(s: State, actions: seq<Action>)
    requires Initial(s) && SignedRun(s, actions)
    ensures HasActive(Run(s, actions)) ==> Agrees(Run(s, actions))
  {
    hide Initial, SignedRun, AgreesOn, NoStalePostings, Run;
    forall dim: Dim, asOf: nat | HasActive(Run(s, actions))
      ensures AgreesOn(Run(s, actions), AsOf(dim, asOf))
    {
      RunFaithful(s, actions, AsOf(dim, asOf));
    }
  }

  // ------------------------------------------------ exactly which runs agree

  /** An intermediary sale of which nothing was signed for. */
  predicate NothingSigned(d: Document) {
    d.detail.IntermediarySale? && forall line :: line in d.lines ==> line.signed == Some(0)
  }

  /** An executed document that posts nothing and yet has entries to reverse is one of which nothing was signed for. */
  ghost predicate UnsignedIfStale(log: Log, documents: seq<Document>, cutover: nat) {
    forall i ::
      0 <= i < |documents| && PostsNothing(documents[i], cutover) && HasEntriesForSource(log, documents[i].id) ==>
        NothingSigned(documents[i])
  }

  ghost predicate StaleIsUnsigned(s: State) {
    HasActive(s) ==> UnsignedIfStale(ActiveGeneration(s).entries, s.documents, ActiveGeneration(s).cutover)
  }

  lemma UnsignedAppend(log: Log, p: Posting, rows: seq<Row>, id: Id, documents: seq<Document>, i: nat, d: Document,
      cutover: nat)
    requires DocumentsInv(documents) && i < |documents| && p.doc == documents[i].id
    requires PostsNothing(d, cutover) ==> NothingSigned(d)
    requires UnsignedIfStale(log, documents, cutover)
    ensures UnsignedIfStale(log + Stamped(p, rows, id), documents[i := d], cutover)
  {
    hide DocumentsInv, PostsNothing, HasEntriesForSource, Stamped, NothingSigned;
    var after := documents[i := d];
    forall k | 0 <= k < |after| && PostsNothing(after[k], cutover)
        && HasEntriesForSource(log + Stamped(p, rows, id), after[k].id)
      ensures NothingSigned(after[k])
    {
      if k != i {
        OtherIds(documents, i, k);
        EntriesOfOthers(log, p, rows, id, documents[k].id);
      }
    }
  }

  lemma ExecutedUnsigned(d: Document, date: nat, lines: seq<LineExecution>, now: nat)
    requires ValidExecution(d, date, lines)
    ensures NothingSigned(ExecutedDocument(d, date, lines, now)) <==> !SomethingSigned(d, lines)
  {
    var after := ExecutedDocument(d, date, lines, now);
    if d.detail.IntermediarySale? {
      forall i | 0 <= i < |d.lines|
        ensures after.lines[i].signed == Some(0) <==> !SignedFor(lines, d.lines[i].id)
        ensures after.lines[i] in after.lines
      {
      }
    }
  }

  lemma ExecuteUnsigned(s: State, i: nat, revision: nat, date: nat, lines: seq<LineExecution>, now: nat)
    requires Inv(s) && Execute(s, i, revision, date, lines, now).Ok? && StaleIsUnsigned(s)
    ensures StaleIsUnsigned(Execute(s, i, revision, date, lines, now).value)
  {
    hide Execute, HasNegativeTimeline, GrownBy, GenerationInv, SomethingSigned, DocumentRows, UnsignedIfStale,
      PostedNow, LaterDocument, DocumentsInv, ValidExecution, PostsNothing, NothingSigned;
    ExecuteForm(s, i, revision, date, lines, now);
    ExecutePosts(s, i, revision, date, lines, now);
    ExecutedUnsigned(s.documents[i], date, lines, now);
    var d := ExecutedDocument(s.documents[i], date, lines, now);
    var g := ActiveGeneration(s);
    UnsignedAppend(g.entries, PostingFor(d), DocumentRows(d, g.cutover, false).value, s.nextId, s.documents, i, d,
        g.cutover);
  }

  lemma UnexecuteUnsigned(s: State, i: nat, revision: nat, now: nat)
    requires Inv(s) && Unexecute(s, i, revision, now).Ok? && StaleIsUnsigned(s)
    ensures StaleIsUnsigned(Unexecute(s, i, revision, now).value)
  {
    hide Unexecute, HasNegativeTimeline, GrownBy, GenerationInv, DocumentRows, UnsignedIfStale, LaterDocument,
      DocumentsInv, NothingSigned;
    if HasActive(s) {
      UnexecuteForm(s, i, revision, now);
      var d := UnexecutedDocument(s.documents[i], now);
      var g := ActiveGeneration(s);
      UnsignedAppend(g.entries, ReversalFor(d, now), ReversalRows(g.entries, d.id), s.nextId, s.documents, i, d,
          g.cutover);
    } else {
      DraftWithdrawal(s, i, revision, now);
    }
  }

  lemma DraftWithdrawal(s: State, i: nat, revision: nat, now: nat)
    requires Inv(s) && !HasActive(s) && Unexecute(s, i, revision, now).Ok?
    ensures !HasActive(Unexecute(s, i, revision, now).value)
  {
    hide GenerationInv, HasNegativeTimeline, InsertRows, ReversalRows, DocumentsInv, ValidDraft;
  }

  lemma QuietUnsigned(s: State, a: Action)
    requires Inv(s) && Step(s, a).Ok? && !a.ActivateAction? && !a.ExecuteAction? && !a.UnexecuteAction?
    requires StaleIsUnsigned(s)
    ensures StaleIsUnsigned(Next(s, a))
  {
    hide GenerationInv, ValidItems, ReplaceOpening, DocumentRows, WellFormed, DocumentsInv, ValidDraft,
      NothingSigned, HasEntriesForSource;
  }

  /** In every state a run reaches, an executed document without rows of its own that the ledger would still reverse is
      an intermediary sale of which nothing was signed for. */
  lemma StepKeepsUnsigned(s: State, a: Action)
    requires Inv(s) && StaleIsUnsigned(s)
    ensures StaleIsUnsigned(Next(s, a))
  {
    hide Inv, StaleIsUnsigned, NothingStale, AgreesOn, Activate, Execute, Unexecute, SaveOpening, Reopen,
      CancelReopen, EditDocument, AddDocument;
    if Step(s, a).Ok? {
      match a
      case ActivateAction(revision) =>
        ActivateFaithful(s, revision, AsOf(Inventory(0, 0), 0));
        NoneIsUnsigned(Activate(s, revision).value);
      case ExecuteAction(i, revision, date, lines, now) => ExecuteUnsigned(s, i, revision, date, lines, now);
      case UnexecuteAction(i, revision, now) => UnexecuteUnsigned(s, i, revision, now);
      case _ => QuietUnsigned(s, a);
    }
  }

  lemma NoneIsUnsigned(s: State)
    requires HasActive(s) && NoStalePostings(s)
    ensures StaleIsUnsigned(s)
  {
    hide PostsNothing, HasEntriesForSource, NothingSigned;
  }

  lemma {:induction false} RunKeepsUnsigned(s: State, actions: seq<Action>)
    requires Initial(s)
    ensures StaleIsUnsigned(Run(s, actions))
  {
    hide Inv, StaleIsUnsigned, Initial, Next;
    if |actions| != 0 {
      RunKeepsUnsigned(s, actions[..|actions| - 1]);
      RunKeepsInv(s, actions[..|actions| - 1]);
      StepKeepsUnsigned(Run(s, actions[..|actions| - 1]), actions[|actions| - 1]);
    } else {
      InitiallyUnsigned(s);
    }
  }

  lemma InitiallyUnsigned(s: State)
    requires Initial(s)
    ensures StaleIsUnsigned(s)
  {
  }

  /** Of the documents a run can still withdraw, those without rows are exactly the intermediary sales of which nothing
      was signed for. */
  lemma EmptyIsUnsigned(s: State, i: nat, revision: nat, now: nat)
    requires Inv(s) && StaleIsUnsigned(s) && HasActive(s) && Unexecute(s, i, revision, now).Ok?
    ensures i < |s.documents|
    ensures DocumentRows(s.documents[i], ActiveGeneration(s).cutover, false) == Ok([])
       <==> NothingSigned(s.documents[i])
  {
    hide Inv, Unexecute, HasEntriesForSource, DocumentRows;
    var cutover := ActiveGeneration(s).cutover;
    assert !s.control.status.DraftLedger? by {
      ActiveIsNotDraft(s);
    }
    UnexecuteStarted(s, i, revision, now);
    assert DocumentRows(s.documents[i], cutover, false).Ok?;
    if NothingSigned(s.documents[i]) {
      UnsignedPostsNothing(s.documents[i], cutover);
    }
  }

  lemma ActiveIsNotDraft(s: State)
    requires Inv(s) && HasActive(s)
    ensures !s.control.status.DraftLedger?
  {
  }

  lemma UnsignedPostsNothing(d: Document, cutover: nat)
    requires NothingSigned(d) && DocumentRows(d, cutover, false).Ok?
    ensures DocumentRows(d, cutover, false) == Ok([])
  {
    hide LineAmountCents;
    var scope := EffectScope(d, cutover, false).value;
    LinesRowsEmpty(d, scope, d.lines);
    forall i | 0 <= i < |d.lines|
      ensures LineRows(d, scope, d.lines[i]) == Ok([])
    {
      assert d.lines[i] in d.lines;
    }
  }

  /** Of a right ledger in any state a run reaches, a committed withdrawal makes some balance wrong exactly when it
      withdraws an intermediary sale of which nothing was signed for. */
  lemma WithdrawalExact(s: State, actions: seq<Action>, i: nat, revision: nat, now: nat)
    requires Initial(s) && HasActive(Run(s, actions)) && Agrees(Run(s, actions))
    requires Unexecute(Run(s, actions), i, revision, now).Ok?
    ensures i < |Run(s, actions).documents|
    ensures var after := Unexecute(Run(s, actions), i, revision, now).value;
            HasActive(after) && (Agrees(after) <==> !NothingSigned(Run(s, actions).documents[i]))
  {
    hide Run, Inv, StaleIsUnsigned, Initial, Agrees, Unexecute, NothingSigned, DocumentRows;
    RunKeepsInv(s, actions);
    RunKeepsUnsigned(s, actions);
    EmptyIsUnsigned(Run(s, actions), i, revision, now);
    UnexecuteExact(Run(s, actions), i, revision, now);
  }

  /** A committed withdrawal never withdraws an intermediary sale of which nothing was signed for. */
  ghost predicate CleanAction(s: State, a: Action) {
    a.UnexecuteAction? && Step(s, a).Ok? && HasActive(s) && a.i < |s.documents| ==> !NothingSigned(s.documents[a.i])
  }

  ghost predicate CleanRun(s: State, actions: seq<Action>) {
    |actions| != 0 ==>
      CleanRun(s, actions[..|actions| - 1]) && CleanAction(Run(s, actions[..|actions| - 1]), actions[|actions| - 1])
  }

  ghost predicate Right(s: State) {
    HasActive(s) ==> Agrees(s)
  }

  ghost predicate RightThroughout(s: State, actions: seq<Action>) {
    Right(Run(s, actions)) && (|actions| != 0 ==> RightThroughout(s, actions[..|actions| - 1]))
  }

  lemma QuietStepAgrees(s: State, a: Action, view: View)
    requires Inv(s) && Step(s, a).Ok? && !a.ActivateAction? && !a.ExecuteAction? && !a.UnexecuteAction?
    ensures HasActive(Next(s, a)) <==> HasActive(s)
    ensures HasActive(s) ==> (AgreesOn(Next(s, a), view) <==> AgreesOn(s, view))
  {
    hide GenerationInv, ValidItems, ReplaceOpening, DocumentRows, WellFormed, DocumentsInv, ValidDraft;
    if HasActive(s) {
      var weight := DocumentWeight(view, ActiveGeneration(s).cutover);
      if a.EditAction? {
        SumUpdate(s.documents, a.i, a.document, weight);
      } else if a.AddAction? {
        SumAppend(s.documents, [a.document], weight);
      }
    }
  }

  lemma StepRightExactly(s: State, a: Action)
    requires Inv(s) && Right(s) && StaleIsUnsigned(s)
    ensures Right(Next(s, a)) <==> CleanAction(s, a)
  {
    hide Inv, AgreesOn, NoStalePostings, NothingSigned, StaleIsUnsigned, Activate, Execute, Unexecute, SaveOpening,
      Reopen, CancelReopen, EditDocument, AddDocument;
    if Step(s, a).Ok? {
      if a.UnexecuteAction? {
        UnexecuteRightExactly(s, a);
      } else {
        forall dim: Dim, asOf: nat | HasActive(Next(s, a))
          ensures AgreesOn(Next(s, a), AsOf(dim, asOf))
        {
          match a
          case ActivateAction(revision) => ActivateFaithful(s, revision, AsOf(dim, asOf));
          case ExecuteAction(i, revision, date, lines, now) =>
            ExecuteAgrees(s, i, revision, date, lines, now, AsOf(dim, asOf));
          case _ => QuietStepAgrees(s, a, AsOf(dim, asOf));
        }
      }
    }
  }

  lemma UnexecuteRightExactly(s: State, a: Action)
    requires Inv(s) && Right(s) && StaleIsUnsigned(s) && a.UnexecuteAction? && Step(s, a).Ok?
    ensures Right(Next(s, a)) <==> CleanAction(s, a)
  {
    hide Inv, Agrees, Unexecute, DocumentRows, NothingSigned, StaleIsUnsigned;
    if HasActive(s) {
      EmptyIsUnsigned(s, a.i, a.revision, a.now);
      UnexecuteExact(s, a.i, a.revision, a.now);
    } else {
      DraftWithdrawal(s, a.i, a.revision, a.now);
    }
  }

  /** The ledger is right after every step of a run exactly when no step withdraws an intermediary sale of which nothing
      was signed for. */
  lemma {:induction false} LedgerAgreesExactly(s: State, actions: seq<Action>)
    requires Initial(s)
    ensures RightThroughout(s, actions) <==> CleanRun(s, actions)
  {
    hide Inv, Right, CleanAction, Next, Initial, StaleIsUnsigned;
    if |actions| != 0 {
      LedgerAgreesExactly(s, actions[..|actions| - 1]);
      RunKeepsInv(s, actions[..|actions| - 1]);
      RunKeepsUnsigned(s, actions[..|actions| - 1]);
      if RightThroughout(s, actions[..|actions| - 1]) {
        StepRightExactly(Run(s, actions[..|actions| - 1]), actions[|actions| - 1]);
      }
    } else {
      InitiallyRight(s);
    }
  }

  lemma InitiallyRight(s: State)
    requires Initial(s)
    ensures Right(s)
  {
  }

  // ------------------------------------------------------- every view, after clean runs

  lemma CleanWithdrawalAgrees(s: State, a: Action, view: View)
    requires Inv(s) && StaleIsUnsigned(s) && CleanAction(s, a) && a.UnexecuteAction? && Step(s, a).Ok?
    requires HasActive(s) ==> AgreesOn(s, view)
    ensures HasActive(Next(s, a)) ==> AgreesOn(Next(s, a), view)
  {
    hide Inv, AgreesOn, Unexecute, DocumentRows, NothingSigned, StaleIsUnsigned;
    if HasActive(s) {
      ActiveIsNotDraft(s);
      UnexecuteStarted(s, a.i, a.revision, a.now);
      EmptyIsUnsigned(s, a.i, a.revision, a.now);
      UnexecuteAgrees(s, a.i, a.revision, a.now, view);
    } else {
      DraftWithdrawal(s, a.i, a.revision, a.now);
    }
  }

  lemma CleanStepAgrees(s: State, a: Action, view: View)
    requires Inv(s) && StaleIsUnsigned(s) && CleanAction(s, a) && (HasActive(s) ==> AgreesOn(s, view))
    ensures HasActive(Next(s, a)) ==> AgreesOn(Next(s, a), view)
  {
    hide Inv, AgreesOn, NoStalePostings, CleanAction, StaleIsUnsigned, Activate, Execute, Unexecute, SaveOpening,
      Reopen, CancelReopen, EditDocument, AddDocument;
    if Step(s, a).Ok? {
      match a
      case UnexecuteAction(_, _, _) => CleanWithdrawalAgrees(s, a, view);
      case ActivateAction(revision) => ActivateFaithful(s, revision, view);
      case ExecuteAction(i, revision, date, lines, now) => ExecuteAgrees(s, i, revision, date, lines, now, view);
      case _ => QuietStepAgrees(s, a, view);
    }
  }

  /** After every clean run, every view of the active ledger, not only the balances, is the opening and the documents
      executed now. */
  lemma {:induction false} CleanRunAgrees(s: State, actions: seq<Action>, view: View)
    requires Initial(s) && CleanRun(s, actions)
    ensures HasActive(Run(s, actions)) ==> AgreesOn(Run(s, actions), view)
  {
    hide Inv, AgreesOn, CleanAction, Next, StaleIsUnsigned, DocumentsInv;
    if |actions| != 0 {
      CleanRunAgrees(s, actions[..|actions| - 1], view);
      RunKeepsInv(s, actions[..|actions| - 1]);
      RunKeepsUnsigned(s, actions[..|actions| - 1]);
      CleanStepAgrees(Run(s, actions[..|actions| - 1]), actions[|actions| - 1], view);
    }
  }

  lemma {:induction false} SignedIsRight(s: State, actions: seq<Action>)
    requires Initial(s) && SignedRun(s, actions)
    ensures RightThroughout(s, actions)
  {
    hide Agrees, Run, Initial, SignedAction;
    LedgerAgrees(s, actions);
    if |actions| != 0 {
      SignedIsRight(s, actions[..|actions| - 1]);
    }
  }

  /** A run that signs for something in every intermediary sale it executes is clean. */
  lemma SignedIsClean(s: State, actions: seq<Action>)
    requires Initial(s) && SignedRun(s, actions)
    ensures CleanRun(s, actions)
  {
    hide Initial, SignedRun, RightThroughout, CleanRun;
    SignedIsRight(s, actions);
    LedgerAgreesExactly(s, actions);
  }
}
