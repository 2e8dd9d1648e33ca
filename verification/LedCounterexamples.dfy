/** Where the ledger falls short: a run that reverses one posting twice. */
module LedCounterexamples {
  import opened Results
  import opened Sequences
  import opened LedModel
  import opened LedLog
  import opened LedTimeline
  import opened LedOpening
  import opened LedMachine
  import opened LedInvariant
  import opened LedPreservation
  import opened LedAgreement
  import opened LedTheorems

  // ------------------------------------------------------- double reversal

  /** An approved intermediary sale of one unit. */
  const SALE := Document(
    1, Approved, 3, 10, "CNY", 1200, None, 0, true, IntermediarySale(2, 3),
    [Line(4, 5, MICROS, 1200, Some(1000), None, None, None)])

  const SIGNED := LineExecution(4, MICROS, MICROS, 0, 0, 0)
  const REJECTED := LineExecution(4, MICROS, 0, MICROS, 0, 0)

  const DEPLOYMENT := Deployed([SALE])

  /** The ledger in its first state, beside some documents. */
  function Deployed(documents: seq<Document>): State {
    State(Control(DraftLedger, None, None, 1), map[], [], documents, 1)
  }

  /** Open the books with nothing, from the first day on. */
  function Open(): seq<Action> {
    [SaveOpeningAction(1, Some(0), [], map[]), ActivateAction(2)]
  }

  /** Execute and withdraw the sale, then execute it again with every unit rejected. */
  function Cycle(): seq<Action> {
    Open() + [ExecuteAction(0, 3, 10, [SIGNED], 20), UnexecuteAction(0, 4, 21), ExecuteAction(0, 5, 10, [REJECTED], 22)]
  }

  lemma RunPrefix(s: State, actions: seq<Action>, k: nat)
    requires k < |actions|
    ensures Run(s, actions[..k + 1]) == Next(Run(s, actions[..k]), actions[k])
  {
    hide Next;
    assert actions[..k + 1][..k] == actions[..k];
  }

  /** With no document executed yet, the books open empty. */
  lemma Opens(documents: seq<Document>)
    requires forall d :: d in documents ==> !IsExecuted(d)
    ensures var s := Deployed(documents);
            && Run(s, Open()) == State(Control(ActiveLedger, Some(0), Some(1), 3),
                                       map[1 := Generation(0, true, [], [])], [], documents, 2)
            && Step(Run(s, Open()[..0]), Open()[0]).Ok? && Step(Run(s, Open()[..1]), Open()[1]).Ok?
  {
    var s := Deployed(documents);
    RunPrefix(s, Open(), 0);
    RunPrefix(s, Open(), 1);
    assert Open()[..2] == Open();
    var saved := s.(control := Control(DraftLedger, Some(0), None, 2));
    assert ValidItems([]);
    assert SaveOpening(s, 1, Some(0), [], map[]) == Ok(saved);
    FilterNone(documents, IsExecuted);
    assert ListExecuted(documents) == [];
    assert Rebuild(saved, 0) == Ok(Posted([], 2));
    assert !HasNegativeTimeline([]);
    assert Activate(saved, 2).Ok?;
  }

  lemma SaleRows(d: Document, signed: int)
    requires d.detail == SALE.detail && d.businessDate == 10 && (signed == 0 || signed == MICROS)
    requires d.lines == [SALE.lines[0].(outbound := Some(MICROS), signed := Some(signed))]
    ensures DocumentRows(d, 0, true).Ok? && (DocumentRows(d, 0, true).value == [] <==> signed == 0)
  {
    assert LineAmountCents(MICROS, 1200) == Some(1200) && LineAmountCents(MICROS, 1000) == Some(1000);
    var scope := EffectScope(d, 0, true).value;
    assert d.lines[..0] == [];
    assert LinesRows(d, scope, d.lines[..0]) == Ok([]);
  }

  /** What is brought to execute the sale: its unit, signed for or not. */
  predicate Delivers(l: LineExecution) {
    l.line == 4 && l.outbound == MICROS && ReconciledSale(l) && (l.signed == 0 || l.signed == MICROS)
  }

  /** The sale as it stands executed. */
  function SoldLines(l: LineExecution): seq<Line> {
    [SALE.lines[0].(outbound := Some(MICROS), signed := Some(l.signed))]
  }

  lemma OnlyExecution(l: LineExecution)
    ensures FindExecution([l], l.line) == Some(l)
  {
  }

  /** Either execution of the sale brings all that is asked for. */
  lemma SaleIsValid(d: Document, l: LineExecution, now: nat)
    requires d.detail == SALE.detail && d.businessDate == 10 && d.lines == SALE.lines && d.staffed && Delivers(l)
    ensures AttributesComplete(d) && ValidExecution(d, 10, [l])
    ensures ExecutedDocument(d, 10, [l], now).lines == SoldLines(l)
    ensures SomethingSigned(d, [l]) <==> l.signed != 0
  {
  }

  /** Any execution of the sale that is due is accepted, whatever was signed for. */
  lemma SaleAccepted(s: State, l: LineExecution, now: nat)
    requires Inv(s) && s.control.status.ActiveLedger? && HasActive(s) && ActiveGeneration(s).cutover == 0
    requires |s.documents| == 1 && s.documents[0].status == Approved && s.documents[0].detail == SALE.detail
    requires s.documents[0].businessDate == 10 && s.documents[0].lines == SALE.lines && s.documents[0].staffed
    requires Delivers(l)
    ensures Execute(s, 0, s.documents[0].revision, 10, [l], now).Ok?
  {
    hide Inv, Execute, DocumentRows, ValidExecution, AttributesComplete;
    SaleIsValid(s.documents[0], l, now);
    SaleRows(ExecutedDocument(s.documents[0], 10, [l], now), l.signed);
    OnlySalesAreRefusedByTimeline(s, 0, s.documents[0].revision, 10, [l], now);
  }

  /** The sale stands approved, and the ledger holds rows of it. */
  ghost predicate Standing(s: State, revision: nat, lines: seq<Line>, posted: bool) {
    && Inv(s) && s.control.status.ActiveLedger? && HasActive(s) && ActiveGeneration(s).cutover == 0
    && |s.documents| == 1
    && s.documents[0].id == SALE.id && s.documents[0].revision == revision && s.documents[0].detail == SALE.detail
    && s.documents[0].businessDate == 10 && s.documents[0].lines == lines && s.documents[0].staffed
    && (posted ==> HasEntriesForSource(ActiveGeneration(s).entries, SALE.id))
  }

  lemma Executes(s: State, revision: nat, l: LineExecution, now: nat, posted: bool) returns (after: State)
    requires Standing(s, revision, SALE.lines, posted) && s.documents[0].status == Approved
    requires Delivers(l) && (l.signed == 0 ==> posted)
    ensures Execute(s, 0, revision, 10, [l], now) == Ok(after)
    ensures Standing(after, revision + 1, SoldLines(l), true)
    ensures IsExecuted(after.documents[0])
    ensures DocumentRows(after.documents[0], 0, false) == Ok([]) <==> l.signed == 0
  {
    hide Inv, Execute, DocumentRows, HasEntriesForSource, Stamped, ValidExecution, ExecutedLines;
    SaleAccepted(s, l, now);
    SaleIsValid(s.documents[0], l, now);
    ExecutedState(s, revision, [l], now);
    after := Execute(s, 0, revision, 10, [l], now).value;
    ExecuteKeepsInv(s, 0, revision, 10, [l], now);
    var d := ExecutedDocument(s.documents[0], 10, [l], now);
    SoldRows(d, l);
    EntriesOf(ActiveGeneration(s).entries, d, DocumentRows(d, 0, false).value, s.nextId);
  }

  lemma ExecutedState(s: State, revision: nat, lines: seq<LineExecution>, now: nat)
    requires Inv(s) && |s.documents| == 1 && Execute(s, 0, revision, 10, lines, now).Ok?
    ensures ValidExecution(s.documents[0], 10, lines) && s.control.status.ActiveLedger? && HasActive(s)
    ensures var d := ExecutedDocument(s.documents[0], 10, lines, now);
            var after := Execute(s, 0, revision, 10, lines, now).value;
            && after.control == s.control && HasActive(after) && after.documents == [d]
            && ActiveGeneration(after).cutover == ActiveGeneration(s).cutover
            && DocumentRows(d, ActiveGeneration(s).cutover, false).Ok?
            && ActiveGeneration(after).entries
               == ActiveGeneration(s).entries
                  + Stamped(PostingFor(d), DocumentRows(d, ActiveGeneration(s).cutover, false).value, s.nextId)
  {
    hide Inv, Execute, HasNegativeTimeline, GrownBy, LaterDocument, PostedNow, DocumentRows, Stamped;
    ExecuteForm(s, 0, revision, 10, lines, now);
  }

  lemma SoldRows(d: Document, l: LineExecution)
    requires d.detail == SALE.detail && d.businessDate == 10 && d.lines == SoldLines(l) && Delivers(l)
    ensures DocumentRows(d, 0, false).Ok? && (DocumentRows(d, 0, false).value == [] <==> l.signed == 0)
  {
    SaleRows(d, l.signed);
    ReplayEqualsLive(d, 0);
  }

  lemma EntriesOf(log: Log, d: Document, rows: seq<Row>, id: Id)
    ensures rows != [] || HasEntriesForSource(log, d.id) ==>
          HasEntriesForSource(log + Stamped(PostingFor(d), rows, id), d.id)
  {
    var added := Stamped(PostingFor(d), rows, id);
    if rows != [] {
      assert added[0] in log + added;
    }
  }

  lemma Withdraws(s: State, revision: nat, l: LineExecution, now: nat) returns (after: State)
    requires Standing(s, revision, SoldLines(l), true) && IsExecuted(s.documents[0])
    ensures Unexecute(s, 0, revision, now) == Ok(after)
    ensures Standing(after, revision + 1, SALE.lines, true) && after.documents[0].status == Approved
  {
    OnlyPurchasesAreKeptByTimeline(s, 0, revision, now);
    hide Inv, Unexecute, HasNegativeTimeline, GrownBy, LaterDocument;
    after := Unexecute(s, 0, revision, now).value;
    UnexecuteForm(s, 0, revision, now);
    UnexecuteActiveKeepsInv(s, 0, revision, now);
    assert after.documents[0].lines == SALE.lines;
  }

  lemma BothDeliver()
    ensures Delivers(SIGNED) && SIGNED.signed != 0 && Delivers(REJECTED) && REJECTED.signed == 0
  {
  }

  lemma StandingActive(s: State, revision: nat, lines: seq<Line>, posted: bool)
    requires Standing(s, revision, lines, posted)
    ensures Inv(s) && HasActive(s) && ActiveGeneration(s).cutover == 0 && |s.documents| > 0
  {
  }

  lemma OpenedStands() returns (s: State)
    ensures s == Run(DEPLOYMENT, Cycle()[..2])
    ensures Initial(DEPLOYMENT) && Standing(s, 3, SALE.lines, false) && s.documents[0].status == Approved
  {
    assert Cycle()[..2] == Open();
    Opens([SALE]);
    assert Initial(DEPLOYMENT);
    RunKeepsInv(DEPLOYMENT, Cycle()[..2]);
    s := Run(DEPLOYMENT, Cycle()[..2]);
  }

  lemma OpenedIsSigned()
    ensures SignedRun(DEPLOYMENT, Cycle()[..2])
  {
    assert Cycle()[..2][..1] == Cycle()[..1] && Cycle()[..1][..0] == [];
    assert SignedRun(DEPLOYMENT, []);
    assert SignedRun(DEPLOYMENT, Cycle()[..1]);
  }

  /** Executing a document that posts rows, withdrawing it and executing it again keeps a right ledger right. */
  lemma CycleAgrees(
    s: State, a: Action, executed: State, b: Action, withdrawn: State, c: Action, again: State)
    requires Inv(s) && Inv(executed) && Inv(withdrawn) && HasActive(s) && Agrees(s)
    requires a.ExecuteAction? && Step(s, a) == Ok(executed) && HasActive(executed)
    requires b.UnexecuteAction? && Step(executed, b) == Ok(withdrawn) && HasActive(withdrawn)
    requires b.i < |executed.documents|
    requires DocumentRows(executed.documents[b.i], ActiveGeneration(executed).cutover, false) != Ok([])
    requires c.ExecuteAction? && Step(withdrawn, c) == Ok(again) && HasActive(again)
    ensures Agrees(again)
  {
    hide Inv, Execute, Unexecute, AgreesOn, DocumentRows;
    forall dim: Dim, asOf: nat
      ensures AgreesOn(again, AsOf(dim, asOf))
    {
      assert AgreesOn(s, AsOf(dim, asOf));
      ExecuteAgrees(s, a.i, a.revision, a.date, a.lines, a.now, AsOf(dim, asOf));
      UnexecuteAgrees(executed, b.i, b.revision, b.now, AsOf(dim, asOf));
      ExecuteAgrees(withdrawn, c.i, c.revision, c.date, c.lines, c.now, AsOf(dim, asOf));
    }
  }

  lemma CycleSteps()
    ensures |Cycle()| == 5 && Cycle()[..5] == Cycle()
    ensures Cycle()[2] == ExecuteAction(0, 3, 10, [SIGNED], 20) && Cycle()[3] == UnexecuteAction(0, 4, 21)
    ensures Cycle()[4] == ExecuteAction(0, 5, 10, [REJECTED], 22)
  {
    assert |Open()| == 2;
  }

  /** A run of accepted steps after which the ledger agrees with its documents, and one more accepted withdrawal
      after which it does not: the first posting of the sale has been reversed twice. */
  lemma DoubleReversal()
    ensures Initial(DEPLOYMENT)
    ensures var before := Run(DEPLOYMENT, Cycle());
            && HasActive(before) && Agrees(before)
            && Unexecute(before, 0, 6, 23).Ok?
            && HasActive(Unexecute(before, 0, 6, 23).value) && !Agrees(Unexecute(before, 0, 6, 23).value)
  {
    hide Run, Inv, SignedRun, Initial, Execute, Unexecute, Agrees, DocumentRows, Standing, Delivers, SoldLines,
      HasActive, Cycle;
    var s2 := OpenedStands();
    OpenedIsSigned();
    BothDeliver();
    CycleSteps();
    RunPrefix(DEPLOYMENT, Cycle(), 2);
    RunPrefix(DEPLOYMENT, Cycle(), 3);
    RunPrefix(DEPLOYMENT, Cycle(), 4);
    var s3 := Executes(s2, 3, SIGNED, 20, false);
    var s4 := Withdraws(s3, 4, SIGNED, 21);
    var s5 := Executes(s4, 5, REJECTED, 22, true);
    StandingActive(s2, 3, SALE.lines, false);
    StandingActive(s3, 4, SoldLines(SIGNED), true);
    StandingActive(s4, 5, SALE.lines, true);
    StandingActive(s5, 6, SoldLines(REJECTED), true);
    LedgerAgrees(DEPLOYMENT, Cycle()[..2]);
    CycleAgrees(s2, Cycle()[2], s3, Cycle()[3], s4, Cycle()[4], s5);
    var s6 := Withdraws(s5, 6, REJECTED, 23);
    UnexecuteExact(s5, 0, 6, 23);
  }
}
