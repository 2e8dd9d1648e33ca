/** What the ledger promises, over all runs and all states they reach. */
module LedTheorems {
  import opened Results
  import opened Sequences
  import opened LedModel
  import opened LedLog
  import opened LedTimeline
  import opened LedOpening
  import opened LedMachine
  import opened LedInvariant
  import opened LedPreservation
  import opened LedAgreement

  // ---------------------------------------------------- rebuild against live

  /** Reopening and activating again, without an edit, keeps a view of the ledger exactly when the view was right,
      although all reversed postings and their reversals are gone. */
  lemma RebuildAgreesOn(s: State, reopening: nat, activation: nat, view: View)
    requires Inv(s) && HasActive(s)
    requires Reopen(s, reopening).Ok? && Activate(Reopen(s, reopening).value, activation).Ok?
    ensures var after := Activate(Reopen(s, reopening).value, activation).value;
            && HasActive(after)
            && var before := Sum(ActiveGeneration(s).entries, EntryWeight(view));
               Sum(ActiveGeneration(after).entries, EntryWeight(view)) == before <==> AgreesOn(s, view)
  {
    hide GenerationInv, NoStalePostings, HasNegativeTimeline, ReplayDocuments, PricesComplete;
    var reopened := Reopen(s, reopening).value;
    ReopenKeepsInv(s, reopening);
    RebuildSum(reopened, ActiveGeneration(s).cutover, view);
  }

  ghost predicate SameBalances(a: Log, b: Log) {
    forall dim: Dim, asOf: nat :: Balance(a, dim, asOf) == Balance(b, dim, asOf)
  }

  /** The rebuilt balances equal the live ones, for every dimension and every date, exactly when the live ones are
      right. */
  lemma RebuildAgreesExactly(s: State, reopening: nat, activation: nat)
    requires Inv(s) && HasActive(s)
    requires Reopen(s, reopening).Ok? && Activate(Reopen(s, reopening).value, activation).Ok?
    ensures var rebuilt := Activate(Reopen(s, reopening).value, activation).value;
            && HasActive(rebuilt)
            && (SameBalances(ActiveGeneration(rebuilt).entries, ActiveGeneration(s).entries) <==> Agrees(s))
  {
    hide Inv, Activate, Reopen, AgreesOn, Sum;
    var rebuilt := Activate(Reopen(s, reopening).value, activation).value;
    RebuildAgreesOn(s, reopening, activation, AsOf(Fund(NO_ID, ""), 0));
    forall dim: Dim, asOf: nat
      ensures Balance(ActiveGeneration(rebuilt).entries, dim, asOf) == Balance(ActiveGeneration(s).entries, dim, asOf)
         <==> AgreesOn(s, AsOf(dim, asOf))
    {
      RebuildAgreesOn(s, reopening, activation, AsOf(dim, asOf));
    }
  }

  /** After every clean run a successful rebuild gives the live balances again. */
  lemma RebuildAgreesWithLive(s: State, actions: seq<Action>, reopening: nat, activation: nat, dim: Dim, asOf: nat)
    requires Initial(s) && CleanRun(s, actions)
    requires var live := Run(s, actions);
             Reopen(live, reopening).Ok? && Activate(Reopen(live, reopening).value, activation).Ok?
    ensures var live := Run(s, actions);
            var rebuilt := Activate(Reopen(live, reopening).value, activation).value;
            && HasActive(live) && HasActive(rebuilt)
            && Balance(ActiveGeneration(rebuilt).entries, dim, asOf)
                == Balance(ActiveGeneration(live).entries, dim, asOf)
  {
    hide Run, CleanRun, Inv, Activate, AgreesOn, Sum;
    RunKeepsInv(s, actions);
    CleanRunAgrees(s, actions, AsOf(dim, asOf));
    RebuildAgreesOn(Run(s, actions), reopening, activation, AsOf(dim, asOf));
  }

  // ------------------------------------------------------- one document alone

  /** What one document contributes to a balance. */
  function OfDocument(doc: Id, dim: Dim, asOf: nat): View {
    (d, dimension, date) => d == doc && dimension == dim && date <= asOf
  }

  lemma DocumentAlone(d: Document, cutover: nat, doc: Id, dim: Dim, asOf: nat)
    ensures DocumentWeight(OfDocument(doc, dim, asOf), cutover)(d)
         == if d.id == doc then DocumentWeight(AsOf(dim, asOf), cutover)(d) else 0
  {
    hide DocumentRows;
    if DocumentRows(d, cutover, false).Ok? {
      var rows, weight := DocumentRows(d, cutover, false).value, RowWeight(OfDocument(doc, dim, asOf), d.id);
      if d.id == doc {
        SumEqual(rows, weight, RowWeight(AsOf(dim, asOf), d.id));
      } else {
        SumZero(rows, weight);
      }
    }
  }

  /** After any run that withdraws no intermediary sale of which nothing was signed for, a document's own rows amount to
      its effect while it is executed and to nothing otherwise: no execution is counted twice and none is reversed
      twice. */
  lemma DocumentCountsOnce(s: State, actions: seq<Action>, i: nat, dim: Dim, asOf: nat)
    requires Initial(s) && CleanRun(s, actions) && HasActive(Run(s, actions)) && i < |Run(s, actions).documents|
    ensures var after := Run(s, actions);
            var g := ActiveGeneration(after);
            Sum(g.entries, EntryWeight(OfDocument(after.documents[i].id, dim, asOf)))
            == DocumentWeight(AsOf(dim, asOf), g.cutover)(after.documents[i])
  {
    hide Run, CleanRun, Initial, GenerationInv, WellFormed, DocumentWeight;
    var after := Run(s, actions);
    var g, doc := ActiveGeneration(after), after.documents[i].id;
    var view := OfDocument(doc, dim, asOf);
    RunKeepsInv(s, actions);
    CleanRunAgrees(s, actions, view);
    assert doc != NO_ID by {
      IdIsSet(after.documents, i);
    }
    SumZero(g.opening, OpeningWeight(view, g.cutover));
    forall j | 0 <= j < |after.documents|
      ensures DocumentWeight(view, g.cutover)(after.documents[j])
           == if j == i then DocumentWeight(AsOf(dim, asOf), g.cutover)(after.documents[i]) else 0
    {
      DocumentAlone(after.documents[j], g.cutover, doc, dim, asOf);
      IdIsOwn(after.documents, i, j);
    }
    SumOnly(after.documents, i, DocumentWeight(view, g.cutover));
  }

  lemma IdIsSet(documents: seq<Document>, i: nat)
    requires DocumentsInv(documents) && i < |documents|
    ensures documents[i].id != NO_ID
  {
    assert WellFormed(documents[i]);
  }

  lemma IdIsOwn(documents: seq<Document>, i: nat, j: nat)
    requires DocumentsInv(documents) && i < |documents| && j < |documents|
    ensures documents[i].id == documents[j].id <==> i == j
  {
    hide WellFormed;
  }

  // ------------------------------------------------- execute, then withdraw

  /** Executing and withdrawing a document that posts rows restores every view of the ledger. */
  lemma WithdrawalRestores(
    s: State, i: nat, revision: nat, date: nat, lines: seq<LineExecution>, now: nat, later: nat, view: View)
    requires Inv(s) && Execute(s, i, revision, date, lines, now).Ok?
    requires Unexecute(Execute(s, i, revision, date, lines, now).value, i, revision + 1, later).Ok?
    requires i < |s.documents| && SomethingSigned(s.documents[i], lines)
    ensures var after := Unexecute(Execute(s, i, revision, date, lines, now).value, i, revision + 1, later).value;
            && HasActive(s) && HasActive(after)
            && Sum(ActiveGeneration(after).entries, EntryWeight(view))
                == Sum(ActiveGeneration(s).entries, EntryWeight(view))
  {
    hide Inv, Execute, Unexecute, GrownBy, HasNegativeTimeline, LaterDocument;
    var middle := Execute(s, i, revision, date, lines, now).value;
    ExecuteStarted(s, i, revision, date, lines, now);
    ExecuteForm(s, i, revision, date, lines, now);
    ExecuteKeepsInv(s, i, revision, date, lines, now);
    LiveRows(s, i, revision, date, lines, now);
    var d := ExecutedDocument(s.documents[i], date, lines, now);
    var g := ActiveGeneration(s);
    PostsUnlessNothingSigned(s.documents[i], date, lines, now, g.cutover);
    var rows := DocumentRows(d, g.cutover, false).value;
    SumAppend(g.entries, Stamped(PostingFor(d), rows, s.nextId), EntryWeight(view));
    SumStamped(PostingFor(d), rows, s.nextId, view);
    UnexecuteSum(middle, i, revision + 1, later, view);
    ReversalOfExecuted(middle, i, view);
  }

  lemma ReversalOfExecuted(s: State, i: nat, view: View)
    requires Inv(s) && HasActive(s) && i < |s.documents| && IsExecuted(s.documents[i])
    requires DocumentRows(s.documents[i], ActiveGeneration(s).cutover, false) != Ok([])
    ensures DocumentRows(s.documents[i], ActiveGeneration(s).cutover, false).Ok?
    ensures Sum(ReversalRows(ActiveGeneration(s).entries, s.documents[i].id), RowWeight(view, s.documents[i].id))
         == -Sum(DocumentRows(s.documents[i], ActiveGeneration(s).cutover, false).value,
             RowWeight(view, s.documents[i].id))
  {
    hide HasNegativeTimeline, LogInv;
    var g := ActiveGeneration(s);
    assert PostedNow(g.entries, s.documents[i], g.cutover);
    ReversalIsExact(g.entries, g.cutover, s.documents, i, s.nextId, view);
  }

  // -------------------------------------------------------- strict inventory

  lemma ApartIsDistinct(log: Log)
    requires Pairwise(log, Apart)
    ensures DistinctIds(log)
  {
    forall i, j | 0 <= i < j < |log| && TableOf(log[i].dim) == TableOf(log[j].dim)
      ensures log[i].id != log[j].id
    {
      assert Apart(log[i], log[j]);
    }
  }

  /** In every state a run reaches, no stock of the active ledger is negative on any date. */
  lemma StockNeverNegativeInRun(s: State, actions: seq<Action>, warehouse: Id, product: Id, asOf: nat)
    requires Initial(s)
    ensures HasActive(Run(s, actions)) ==>
              Balance(ActiveGeneration(Run(s, actions)).entries, Inventory(warehouse, product), asOf) >= 0
  {
    RunKeepsInv(s, actions);
    if HasActive(Run(s, actions)) {
      ActiveStockNonNegative(Run(s, actions), warehouse, product, asOf);
    }
  }

  lemma ActiveStockNonNegative(s: State, warehouse: Id, product: Id, asOf: nat)
    requires Inv(s) && HasActive(s)
    ensures Balance(ActiveGeneration(s).entries, Inventory(warehouse, product), asOf) >= 0
  {
    hide HasNegativeTimeline, Balance, ExecutedPosted, ValidDraft;
    ApartIsDistinct(ActiveGeneration(s).entries);
    StockNeverNegative(ActiveGeneration(s).entries, Inventory(warehouse, product), asOf);
  }

  /** Rows of a document whose entity never takes stock out. */
  lemma IncomingStamped(log: Log, d: Document, cutover: nat, p: Posting, rows: seq<Row>, id: Id)
    requires GrownBy(log, d, cutover, p, rows, id) && !HasNegativeTimeline(log)
    requires forall r :: r in rows && r.dim.Inventory? ==> r.delta >= 0
    ensures !HasNegativeTimeline(log + Stamped(p, rows, id))
  {
    hide HasNegativeTimeline;
    var added := Stamped(p, rows, id);
    ApartIsDistinct(log + added);
    forall e | e in added && e.dim.Inventory?
      ensures e.delta >= 0
    {
      var k :| 0 <= k < |added| && e == added[k];
      assert rows[k] in rows;
    }
    IncomingKeepsTimeline(log, added);
  }

  lemma PostingAccepted(log: Log, d: Document, cutover: nat, id: Id)
    requires WellFormed(d) && !d.detail.Sale?
    requires Pairwise(log, Apart) && FreshPosting(log, PostingFor(d), id) && !HasNegativeTimeline(log)
    requires DocumentRows(d, cutover, true).Ok?
    ensures PostDocument(log, d, cutover, true, id).Ok?
    ensures !HasNegativeTimeline(PostDocument(log, d, cutover, true, id).value.entries)
  {
    hide HasNegativeTimeline, DocumentRows, InsertRows, GrownBy, WellFormed, FreshPosting, Pairwise, SignedRow,
      Stamped;
    var rows := DocumentRows(d, cutover, true).value;
    DocumentRowsSound(d, cutover, true);
    RevisionIsSet(d);
    forall r | r in rows
      ensures r.delta != 0 && (r.dim.Inventory? ==> r.delta >= 0)
    {
      SignedIsNotZero(d.detail.Entity(), cutover, r);
      if r.dim.Inventory? {
        SignedIncoming(d, cutover, r);
      }
    }
    InsertRowsAppends(log, PostingFor(d), rows, id);
    StampedGrows(log, d, cutover, rows, id);
    IncomingStamped(log, d, cutover, PostingFor(d), rows, id);
  }

  lemma SignedIncoming(d: Document, cutover: nat, row: Row)
    requires !d.detail.Sale? && SignedRow(d.detail.Entity(), cutover, row) && row.dim.Inventory?
    ensures row.delta >= 0
  {
  }

  lemma ExecutionStarts(s: State, i: nat, revision: nat, date: nat, lines: seq<LineExecution>, now: nat)
    requires Inv(s) && s.control.status.ActiveLedger?
    requires i < |s.documents| && s.documents[i].revision == revision && s.documents[i].status == Approved
    requires AttributesComplete(s.documents[i]) && ValidExecution(s.documents[i], date, lines)
    ensures var d := ExecutedDocument(s.documents[i], date, lines, now);
            var g := ActiveGeneration(s);
            && HasActive(s) && WellFormed(d)
            && Pairwise(g.entries, Apart) && FreshPosting(g.entries, PostingFor(d), s.nextId)
            && !HasNegativeTimeline(g.entries)
            && (Execute(s, i, revision, date, lines, now).Ok? <==>
                  && PostDocument(g.entries, d, g.cutover, true, s.nextId).Ok?
                  && !HasNegativeTimeline(PostDocument(g.entries, d, g.cutover, true, s.nextId).value.entries))
  {
    hide HasNegativeTimeline, PostDocument, ExecutedPosted;
    assert WellFormed(s.documents[i]);
    ExecutedIsLater(s.documents[i], date, lines, now);
    NextRevisionIsFresh(ActiveGeneration(s).entries, ActiveGeneration(s).cutover, s.documents, i,
                        PostingFor(ExecutedDocument(s.documents[i], date, lines, now)), s.nextId);
  }

  /** The timeline never refuses the execution of anything but a sale: it is accepted exactly when its rows are
      valid. */
  lemma OnlySalesAreRefusedByTimeline(s: State, i: nat, revision: nat, date: nat, lines: seq<LineExecution>, now: nat)
    requires Inv(s) && s.control.status.ActiveLedger?
    requires i < |s.documents| && s.documents[i].revision == revision && s.documents[i].status == Approved
    requires AttributesComplete(s.documents[i]) && ValidExecution(s.documents[i], date, lines)
    requires !s.documents[i].detail.Sale?
    ensures Execute(s, i, revision, date, lines, now).Ok?
       <==> DocumentRows(ExecutedDocument(s.documents[i], date, lines, now), ActiveGeneration(s).cutover, true).Ok?
  {
    hide Inv, HasNegativeTimeline, Execute, DocumentRows, WellFormed, FreshPosting, Pairwise;
    ExecutionStarts(s, i, revision, date, lines, now);
    var d := ExecutedDocument(s.documents[i], date, lines, now);
    if DocumentRows(d, ActiveGeneration(s).cutover, true).Ok? {
      PostingAccepted(ActiveGeneration(s).entries, d, ActiveGeneration(s).cutover, s.nextId);
    }
  }

  lemma NegatedIncoming(log: Log, cutover: nat, documents: seq<Document>, i: nat, id: Id, r: Row)
    requires DocumentsInv(documents) && LogInv(log, cutover, documents, id)
    requires i < |documents| && !documents[i].detail.Purchase? && r.dim.Inventory?
    requires Negates(log, documents[i].id, NewestPosting(log, documents[i].id), r)
    ensures r.delta >= 0
  {
    hide LogInv, DocumentsInv, NewestPosting;
    var doc := documents[i].id;
    var e :| e in log && IsPosting(e, doc) && e.revision == NewestPosting(log, doc)
        && r == RowOf(e).(delta := -e.delta);
    PostingSigned(log, cutover, documents, i, e, id);
  }

  lemma ReversalIncoming(log: Log, cutover: nat, documents: seq<Document>, i: nat, id: Id)
    requires DocumentsInv(documents) && LogInv(log, cutover, documents, id)
    requires i < |documents| && !documents[i].detail.Purchase?
    ensures forall r :: r in ReversalRows(log, documents[i].id) && r.dim.Inventory? ==> r.delta >= 0
  {
    hide LogInv, DocumentsInv, ReversalRows, Negates, NewestPosting;
    LogIsApart(log, cutover, documents, id);
    ReversalRowsFrom(log, documents[i].id);
    forall r | r in ReversalRows(log, documents[i].id) && r.dim.Inventory?
      ensures r.delta >= 0
    {
      NegatedIncoming(log, cutover, documents, i, id, r);
    }
  }

  lemma LogIsApart(log: Log, cutover: nat, documents: seq<Document>, id: Id)
    requires LogInv(log, cutover, documents, id)
    ensures Pairwise(log, Apart)
  {
  }

  lemma WithdrawalStarts(s: State, i: nat, revision: nat, now: nat)
    requires Inv(s) && s.control.status.ActiveLedger?
    requires i < |s.documents| && s.documents[i].revision == revision && IsExecuted(s.documents[i])
    ensures var d := UnexecutedDocument(s.documents[i], now);
            var entries := ActiveGeneration(s).entries;
            var inserted := InsertRows(entries, ReversalFor(d, now), ReversalRows(entries, d.id), s.nextId);
            && !HasNegativeTimeline(entries)
            && LogInv(entries, ActiveGeneration(s).cutover, s.documents, s.nextId)
            && (Unexecute(s, i, revision, now).Ok? <==>
                  HasEntriesForSource(entries, d.id) && inserted.Ok? && !HasNegativeTimeline(inserted.value))
  {
    hide HasNegativeTimeline, InsertRows, ReversalRows, LogInv, ExecutedPosted;
  }

  /** The timeline never refuses the withdrawal of anything but a purchase: it is accepted exactly when the
      active generation knows the document. */
  lemma OnlyPurchasesAreKeptByTimeline(s: State, i: nat, revision: nat, now: nat)
    requires Inv(s) && s.control.status.ActiveLedger?
    requires i < |s.documents| && s.documents[i].revision == revision && IsExecuted(s.documents[i])
    requires !s.documents[i].detail.Purchase?
    ensures Unexecute(s, i, revision, now).Ok? <==> HasEntriesForSource(ActiveGeneration(s).entries, s.documents[i].id)
  {
    WithdrawalStarts(s, i, revision, now);
    hide GenerationInv, HasNegativeTimeline, Unexecute, LogInv, InsertRows, ReversalRows, GrownBy;
    var g := ActiveGeneration(s);
    var d := UnexecutedDocument(s.documents[i], now);
    ReverseExtends(g.entries, g.cutover, s.documents, i, now, s.nextId);
    ReversalIncoming(g.entries, g.cutover, s.documents, i, s.nextId);
    IncomingStamped(g.entries, d, g.cutover, ReversalFor(d, now), ReversalRows(g.entries, d.id), s.nextId);
  }

  // ------------------------------------------------------ maintenance mode

  /** A reopening ledger refuses every execution and every withdrawal. */
  lemma ReopeningRefuses(s: State, a: Action)
    requires s.control.status.ReopeningLedger? && (a.ExecuteAction? || a.UnexecuteAction?)
    ensures Step(s, a).Err?
  {
    hide PostDocument, InsertRows, ReversalRows, HasNegativeTimeline, ValidExecution;
  }

  /** Whatever is tried while the ledger is reopening, short of ending it, leaves generations and executed
      documents as they are. */
  lemma ReopeningIsQuiet(s: State, a: Action)
    requires Inv(s) && s.control.status.ReopeningLedger? && !a.ActivateAction? && !a.CancelReopenAction?
    ensures var after := Next(s, a);
            && after.control.status.ReopeningLedger? && after.control.activeGeneration == s.control.activeGeneration
            && after.generations == s.generations
            && Filter(after.documents, IsExecuted) == Filter(s.documents, IsExecuted)
  {
    hide Inv, ValidItems, ReplaceOpening, Execute, Unexecute, WellFormed, Filter;
    if Step(s, a).Ok? {
      match a
      case ExecuteAction(_, _, _, _, _) => ReopeningRefuses(s, a);
      case UnexecuteAction(_, _, _) => ReopeningRefuses(s, a);
      case EditAction(i, document) => FilterUpdate(s.documents, i, document, IsExecuted);
      case AddAction(document) =>
        FilterAppend(s.documents, [document], IsExecuted);
        FilterNone([document], IsExecuted);
      case _ =>
    }
  }

  lemma {:induction false} ReopeningRunIsQuiet(s: State, actions: seq<Action>)
    requires Inv(s) && s.control.status.ReopeningLedger?
    requires forall a :: a in actions ==> !a.ActivateAction? && !a.CancelReopenAction?
    ensures var after := Run(s, actions);
            && Inv(after)
            && after.control.status.ReopeningLedger? && after.control.activeGeneration == s.control.activeGeneration
            && after.generations == s.generations
            && Filter(after.documents, IsExecuted) == Filter(s.documents, IsExecuted)
  {
    hide Inv, Next;
    if |actions| != 0 {
      var n := |actions| - 1;
      assert forall a :: a in actions[..n] ==> a in actions;
      ReopeningRunIsQuiet(s, actions[..n]);
      ReopeningIsQuiet(Run(s, actions[..n]), actions[n]);
      StepKeepsInv(Run(s, actions[..n]), actions[n]);
    }
  }

  /** Reopening, saving the opening at will and cancelling gives back the cutover, every generation with all its
      entries, the empty draft and the executed documents. */
  lemma CancelReopenRestores(s: State, reopening: nat, actions: seq<Action>, cancelling: nat)
    requires Inv(s) && Reopen(s, reopening).Ok?
    requires forall a :: a in actions ==> !a.ActivateAction? && !a.CancelReopenAction?
    requires CancelReopen(Run(Reopen(s, reopening).value, actions), cancelling).Ok?
    ensures var after := CancelReopen(Run(Reopen(s, reopening).value, actions), cancelling).value;
            && after.control.(revision := s.control.revision) == s.control
            && after.generations == s.generations && after.draft == s.draft
            && Filter(after.documents, IsExecuted) == Filter(s.documents, IsExecuted)
  {
    hide GenerationInv, Run;
    ReopenKeepsInv(s, reopening);
    ReopeningRunIsQuiet(Reopen(s, reopening).value, actions);
  }

  /** Saving the opening as it is shown, with the cutover of choice, is accepted while the ledger can be edited at all,
      and leaves the draft as it was. */
  lemma ResaveKeepsDraft(s: State, cutover: nat, effective: map<Key, Snapshot>)
    requires Inv(s) && !s.control.status.ActiveLedger?
    ensures var after := SaveOpening(s, s.control.revision, Some(cutover), ItemsOf(s.draft), effective);
            && after.Ok?
            && after.value.draft == s.draft && after.value.control.cutover == Some(cutover)
            && after.value.generations == s.generations && after.value.documents == s.documents
  {
    hide ValidDraft, ValidItems, ReplaceOpening, ItemsOf, GenerationInv, DocumentsInv;
    ResaveIsIdentity(s.draft, effective, s.nextId);
  }

  // ------------------------------------------------- optimistic concurrency

  /** What a write expects to find, and uses up. */
  datatype Token = ControlToken(revision: nat) | DocumentToken(i: nat, revision: nat)

  function TokenOf(a: Action): Option<Token> {
    match a
    case SaveOpeningAction(revision, _, _, _) => Some(ControlToken(revision))
    case ActivateAction(revision) => Some(ControlToken(revision))
    case ReopenAction(revision) => Some(ControlToken(revision))
    case CancelReopenAction(revision) => Some(ControlToken(revision))
    case ExecuteAction(i, revision, _, _, _) => Some(DocumentToken(i, revision))
    case UnexecuteAction(i, revision, _) => Some(DocumentToken(i, revision))
    case _ => None
  }

  ghost predicate Spent(s: State, token: Token) {
    match token
    case ControlToken(revision) => s.control.revision > revision
    case DocumentToken(i, revision) => i < |s.documents| && s.documents[i].revision > revision
  }

  lemma StepSpends(s: State, a: Action)
    requires Step(s, a).Ok? && TokenOf(a).Some?
    ensures Spent(Next(s, a), TokenOf(a).value)
  {
    hide PostDocument, InsertRows, ReversalRows, HasNegativeTimeline, ValidExecution, ValidItems, ReplaceOpening,
      Rebuild, PricesComplete, Archived;
  }

  lemma SpentStays(s: State, a: Action, token: Token)
    requires Spent(s, token)
    ensures Spent(Next(s, a), token)
  {
    hide PostDocument, InsertRows, ReversalRows, HasNegativeTimeline, ValidExecution, ValidItems, ReplaceOpening,
      Rebuild, PricesComplete, Archived, WellFormed, HasEntriesForSource;
  }

  lemma {:induction false} SpentForever(s: State, actions: seq<Action>, token: Token)
    requires Spent(s, token)
    ensures Spent(Run(s, actions), token)
  {
    hide Spent, Next;
    if |actions| != 0 {
      SpentForever(s, actions[..|actions| - 1], token);
      SpentStays(Run(s, actions[..|actions| - 1]), actions[|actions| - 1], token);
    }
  }

  lemma SpentIsRefused(s: State, a: Action, token: Token)
    requires Spent(s, token) && TokenOf(a) == Some(token)
    ensures Step(s, a).Err?
  {
    hide PostDocument, InsertRows, ReversalRows, HasNegativeTimeline, ValidExecution, ValidItems, ReplaceOpening,
      Rebuild, PricesComplete, Archived;
  }

  /** A control or document revision that one write used up never lets another write through. */
  lemma RevisionIsUsedOnce(s: State, a: Action, actions: seq<Action>, again: Action)
    requires Step(s, a).Ok? && TokenOf(a).Some? && TokenOf(again) == TokenOf(a)
    ensures Step(Run(Next(s, a), actions), again).Err?
  {
    hide Step, Next, Run, Spent, TokenOf;
    StepSpends(s, a);
    SpentForever(Next(s, a), actions, TokenOf(a).value);
    SpentIsRefused(Run(Next(s, a), actions), again, TokenOf(a).value);
  }
}
