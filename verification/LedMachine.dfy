/** The ledger and the documents that feed it as a state machine: one step per committed transaction. */
module LedMachine {
  import opened Results
  import opened Sequences
  import opened LedModel
  import opened LedLog
  import opened LedTimeline
  import opened LedOpening

  datatype LedgerStatus = DraftLedger | ActiveLedger | ReopeningLedger

  datatype Control = Control(status: LedgerStatus, cutover: Option<nat>, activeGeneration: Option<Id>, revision: nat)

  /** `active` distinguishes the generation statuses ACTIVE and ARCHIVED. */
  datatype Generation = Generation(cutover: nat, active: bool, opening: seq<OpeningRow>, entries: Log)

  datatype State = State(
    control: Control, generations: map<Id, Generation>, draft: seq<OpeningRow>,
    documents: seq<Document>, nextId: Id)

  // ----------------------------------------------------- opening lifecycle

  function SaveOpening(
    s: State, revision: nat, cutover: Option<nat>, items: seq<OpeningItem>, effective: map<Key, Snapshot>)
    : Result<State>
  {
    if revision < 1 || cutover.None? || !ValidItems(items) then Err(Validation)
    else if s.control.revision != revision || s.control.status.ActiveLedger? then Err(Conflict)
    else
      var draft :- ReplaceOpening(s.draft, items, effective, s.nextId);
      Ok(s.(draft := draft, nextId := s.nextId + |items|,
            control := s.control.(cutover := cutover, revision := revision + 1)))
  }

  function Reopen(s: State, revision: nat): Result<State> {
    if revision < 1 then Err(Validation)
    else if !s.control.status.ActiveLedger? || s.control.revision != revision || s.control.activeGeneration.None?
            || s.control.activeGeneration.value !in s.generations then Err(Conflict)
    else Ok(s.(draft := s.generations[s.control.activeGeneration.value].opening,
               control := s.control.(status := ReopeningLedger, revision := revision + 1)))
  }

  function CancelReopen(s: State, revision: nat): Result<State> {
    if revision < 1 then Err(Validation)
    else if !s.control.status.ReopeningLedger? || s.control.revision != revision || s.control.activeGeneration.None?
            || s.control.activeGeneration.value !in s.generations then Err(Conflict)
    else
      var cutover := s.generations[s.control.activeGeneration.value].cutover;
      var control := s.control.(status := ActiveLedger, cutover := Some(cutover), revision := revision + 1);
      Ok(s.(draft := [], control := control))
  }

  // ------------------------------------------------------------ activation

  datatype Posted = Posted(entries: Log, nextId: Id)

  /** When a document counts as posted: its execution time, or its last update when that is missing. */
  function OccurredAt(d: Document): nat {
    if d.executedAt.Some? then d.executedAt.value else d.updatedAt
  }

  function PostingFor(d: Document): Posting {
    Posting(PostingEntry, d.id, d.revision, OccurredAt(d))
  }

  function PostDocument(entries: Log, d: Document, cutover: nat, live: bool, id: Id): Result<Posted> {
    var rows :- DocumentRows(d, cutover, live);
    var entries :- InsertRows(entries, PostingFor(d), rows, id);
    Ok(Posted(entries, id + |rows|))
  }

  function ReplayDocuments(entries: Log, documents: seq<Document>, cutover: nat, id: Id): Result<Posted> {
    if |documents| == 0 then Ok(Posted(entries, id))
    else
      var before :- ReplayDocuments(entries, documents[..|documents| - 1], cutover, id);
      PostDocument(before.entries, documents[|documents| - 1], cutover, false, before.nextId)
  }

  /** ORDER BY executed_at, id with the nulls last. */
  predicate ExecutedNotAfter(a: Document, b: Document) {
    match (a.executedAt, b.executedAt)
    case (Some(x), Some(y)) => x < y || (x == y && a.id <= b.id)
    case (Some(_), None) => true
    case (None, Some(_)) => false
    case (None, None) => a.id <= b.id
  }

  predicate IsExecuted(d: Document) {
    d.status == DocumentStatus.Executed
  }

  function ListExecuted(documents: seq<Document>): seq<Document> {
    SortBy(ExecutedNotAfter, Filter(documents, IsExecuted))
  }

  /** An intermediary sale from the cutover on has all its purchase prices. */
  predicate Priced(d: Document, cutover: nat) {
    d.detail.IntermediarySale? && d.businessDate >= cutover ==>
      forall line :: line in d.lines ==> line.purchaseUnitPrice.Some?
  }

  /** `preflightActivation`. */
  predicate PricesComplete(documents: seq<Document>, cutover: nat) {
    forall d :: d in documents ==> Priced(d, cutover)
  }

  /** The generation `Activate` builds from the draft and the executed documents. */
  function Rebuild(s: State, cutover: nat): Result<Posted> {
    ReplayDocuments(OpeningEntries(s.draft, cutover), ListExecuted(s.documents), cutover, s.nextId + 1)
  }

  function Archived(s: State): map<Id, Generation> {
    match s.control.activeGeneration
    case None => s.generations
    case Some(g) => if g in s.generations then s.generations[g := s.generations[g].(active := false)] else s.generations
  }

  function Activate(s: State, revision: nat): Result<State> {
    if revision < 1 then Err(Validation)
    else if s.control.revision != revision || s.control.status.ActiveLedger? || s.control.cutover.None?
        then Err(Conflict)
    else
      var cutover := s.control.cutover.value;
      if !PricesComplete(ListExecuted(s.documents), cutover) then Err(Conflict)
      else
        var posted :- Rebuild(s, cutover);
        if HasNegativeTimeline(posted.entries) then Err(Conflict)
        else
          Ok(s.(control := Control(ActiveLedger, Some(cutover), Some(s.nextId), revision + 1),
                generations := Archived(s)[s.nextId := Generation(cutover, true, s.draft, posted.entries)],
                draft := [], nextId := posted.nextId))
  }

  // ---------------------------------------------------- documents, executed

  /** What an execution says of one product line: what left, and of that what was signed for, refused or lost; or what
      came in. */
  datatype LineExecution = LineExecution(line: Id, outbound: nat, signed: nat, rejected: nat, loss: nat, inbound: nat)

  /** `validateStoredAttributes`: nothing the entity demands is missing, purchase prices included. */
  predicate AttributesComplete(d: Document) {
    match d.detail
    case Sale(_, warehouse, _) => d.staffed && warehouse.Some?
    case Purchase(_, warehouse, _) => d.staffed && warehouse.Some?
    case IntermediarySale(_, _) => d.staffed && forall line :: line in d.lines ==> line.purchaseUnitPrice.Some?
    case Expense(_) => true
    case _ => d.staffed
  }

  /** The execution of a line, found by its id. */
  function FindExecution(ls: seq<LineExecution>, line: Id): (r: Option<LineExecution>)
    ensures r.Some? ==> r.value in ls && r.value.line == line
  {
    if |ls| == 0 then None
    else if ls[|ls| - 1].line == line then Some(ls[|ls| - 1])
    else FindExecution(ls[..|ls| - 1], line)
  }

  predicate ValidLineIds(ls: seq<LineExecution>) {
    && (forall i :: 0 <= i < |ls| ==> ls[i].line != NO_ID)
    && (forall i, j :: 0 <= i < j < |ls| ==> ls[i].line != ls[j].line)
  }

  /** Every line of the document has its execution, within the ordered quantity. */
  predicate MatchesOrder(purchase: bool, lines: seq<Line>, ls: seq<LineExecution>) {
    && |lines| == |ls| > 0
    && forall i :: 0 <= i < |lines| ==>
         && FindExecution(ls, lines[i].id).Some?
         && var l := FindExecution(ls, lines[i].id).value;
            (if purchase then l.inbound else l.outbound) <= lines[i].ordered
  }

  predicate ReconciledSale(l: LineExecution) {
    l.outbound > 0 && l.signed + l.rejected + l.loss == l.outbound
  }

  /** What the voucher service demands of the data an execution brings. */
  predicate ValidExecution(d: Document, date: nat, ls: seq<LineExecution>) {
    match d.detail
    case Purchase(_, _, _) =>
      && date >= d.businessDate && ValidLineIds(ls) && MatchesOrder(true, d.lines, ls)
      && forall l :: l in ls ==> l.inbound > 0
    case Sale(_, _, _) =>
      && date >= d.businessDate && ValidLineIds(ls) && MatchesOrder(false, d.lines, ls)
      && forall l :: l in ls ==> ReconciledSale(l)
    case IntermediarySale(_, _) =>
      && date >= d.businessDate && ValidLineIds(ls) && MatchesOrder(false, d.lines, ls)
      && forall l :: l in ls ==> ReconciledSale(l)
    case _ => ls == []
  }

  function ExecutedLine(detail: Detail, line: Line, ls: seq<LineExecution>): Line
    requires FindExecution(ls, line.id).Some?
  {
    var l := FindExecution(ls, line.id).value;
    if detail.Purchase? then line.(inbound := Some(l.inbound))
    else line.(outbound := Some(l.outbound), signed := Some(l.signed))
  }

  function ExecutedLines(detail: Detail, lines: seq<Line>, ls: seq<LineExecution>): (r: seq<Line>)
    requires forall i :: 0 <= i < |lines| ==> FindExecution(ls, lines[i].id).Some?
    ensures |r| == |lines|
    ensures forall i :: 0 <= i < |lines| ==> r[i] == ExecutedLine(detail, lines[i], ls)
  {
    if |lines| == 0 then []
    else
      var n := |lines| - 1;
      ExecutedLines(detail, lines[..n], ls) + [ExecutedLine(detail, lines[n], ls)]
  }

  function ExecutedDetail(detail: Detail, date: Option<nat>): Detail {
    match detail
    case Sale(_, _, _) => detail.(outboundDate := date)
    case Purchase(_, _, _) => detail.(inboundDate := date)
    case _ => detail
  }

  function ExecutedDocument(d: Document, date: nat, lines: seq<LineExecution>, now: nat): Document
    requires ValidExecution(d, date, lines)
  {
    d.(status := DocumentStatus.Executed, revision := d.revision + 1, executedAt := Some(now), updatedAt := now,
       detail := ExecutedDetail(d.detail, Some(date)),
       lines := if d.detail.HasLines() then ExecutedLines(d.detail, d.lines, lines) else d.lines)
  }

  function ClearedLines(lines: seq<Line>): (r: seq<Line>)
    ensures |r| == |lines|
    ensures forall i :: 0 <= i < |lines| ==> r[i] == lines[i].(outbound := None, signed := None, inbound := None)
  {
    if |lines| == 0 then []
    else ClearedLines(lines[..|lines| - 1]) + [lines[|lines| - 1].(outbound := None, signed := None, inbound := None)]
  }

  function UnexecutedDocument(d: Document, now: nat): Document {
    d.(status := Approved, revision := d.revision + 1, executedAt := None, updatedAt := now,
       detail := ExecutedDetail(d.detail, None), lines := ClearedLines(d.lines))
  }

  /** `HandleDocumentExecuted`: posts the rows of the document just executed. */
  function HandleExecuted(s: State, d: Document): Result<State> {
    if !s.control.status.ActiveLedger? || s.control.activeGeneration.None? || s.control.cutover.None?
       || s.control.activeGeneration.value !in s.generations then Err(Rejected)
    else
      var g := s.control.activeGeneration.value;
      match PostDocument(s.generations[g].entries, d, s.control.cutover.value, true, s.nextId)
      case Err(_) => Err(Rejected)
      case Ok(posted) =>
        if HasNegativeTimeline(posted.entries) then Err(Rejected)
        else
          var after := s.generations[g].(entries := posted.entries);
          Ok(s.(generations := s.generations[g := after], nextId := posted.nextId))
  }

  /** `HandleDocumentUnexecuted`: reverses the newest posting of the document, whose new revision is `revision`. */
  function HandleUnexecuted(s: State, doc: Id, revision: nat, now: nat): Result<State> {
    if s.control.status.DraftLedger? && s.control.activeGeneration.None? then Ok(s)
    else if !s.control.status.ActiveLedger? || s.control.activeGeneration.None?
            || s.control.activeGeneration.value !in s.generations then Err(Rejected)
    else
      var g := s.control.activeGeneration.value;
      var entries := s.generations[g].entries;
      if !HasEntriesForSource(entries, doc) then Err(Rejected)
      else
        var rows := ReversalRows(entries, doc);
        match InsertRows(entries, Posting(ReversalEntry, doc, revision, now), rows, s.nextId)
        case Err(_) => Err(Rejected)
        case Ok(entries) =>
          if HasNegativeTimeline(entries) then Err(Rejected)
          else
            var after := s.generations[g].(entries := entries);
            Ok(s.(generations := s.generations[g := after], nextId := s.nextId + |rows|))
  }

  /** The voucher service's `Execute`: the document and the ledger change together or not at all. */
  function Execute(s: State, i: nat, revision: nat, date: nat, lines: seq<LineExecution>, now: nat): Result<State> {
    if i >= |s.documents| then Err(Validation)
    else if s.documents[i].revision != revision || s.documents[i].status != Approved then Err(Conflict)
    else if !AttributesComplete(s.documents[i]) then Err(Conflict)
    else if !ValidExecution(s.documents[i], date, lines) then Err(Validation)
    else
      var d := ExecutedDocument(s.documents[i], date, lines, now);
      HandleExecuted(s.(documents := s.documents[i := d]), d)
  }

  /** The voucher service's `Unexecute`. */
  function Unexecute(s: State, i: nat, revision: nat, now: nat): Result<State> {
    if i >= |s.documents| then Err(Validation)
    else if s.documents[i].revision != revision || !IsExecuted(s.documents[i]) then Err(Conflict)
    else
      var d := UnexecutedDocument(s.documents[i], now);
      HandleUnexecuted(s.(documents := s.documents[i := d]), d.id, d.revision, now)
  }

  // ------------------------------------------------- documents, not executed

  /** Any saving, review, approval or withdrawal of a document that is not executed. */
  function EditDocument(s: State, i: nat, d: Document): Result<State> {
    if i >= |s.documents| || IsExecuted(s.documents[i]) || IsExecuted(d) || !WellFormed(d)
       || d.id != s.documents[i].id || d.detail.Entity() != s.documents[i].detail.Entity()
       || d.revision != s.documents[i].revision + 1 then Err(Conflict)
    else Ok(s.(documents := s.documents[i := d]))
  }

  function AddDocument(s: State, d: Document): Result<State> {
    if IsExecuted(d) || !WellFormed(d) || d.revision != 1 then Err(Conflict)
    else if exists x :: x in s.documents && x.id == d.id then Err(Conflict)
    else Ok(s.(documents := s.documents + [d]))
  }

  // --------------------------------------------------------------- the runs

  datatype Action =
    | SaveOpeningAction(revision: nat, cutover: Option<nat>, items: seq<OpeningItem>, effective: map<Key, Snapshot>)
    | ActivateAction(revision: nat)
    | ReopenAction(revision: nat)
    | CancelReopenAction(revision: nat)
    | ExecuteAction(i: nat, revision: nat, date: nat, lines: seq<LineExecution>, now: nat)
    | UnexecuteAction(i: nat, revision: nat, now: nat)
    | EditAction(i: nat, document: Document)
    | AddAction(document: Document)

  function Step(s: State, a: Action): Result<State> {
    match a
    case SaveOpeningAction(revision, cutover, items, effective) => SaveOpening(s, revision, cutover, items, effective)
    case ActivateAction(revision) => Activate(s, revision)
    case ReopenAction(revision) => Reopen(s, revision)
    case CancelReopenAction(revision) => CancelReopen(s, revision)
    case ExecuteAction(i, revision, date, lines, now) => Execute(s, i, revision, date, lines, now)
    case UnexecuteAction(i, revision, now) => Unexecute(s, i, revision, now)
    case EditAction(i, document) => EditDocument(s, i, document)
    case AddAction(document) => AddDocument(s, document)
  }

  /** A refused action rolls its transaction back. */
  function Next(s: State, a: Action): State {
    var r := Step(s, a);
    if r.Ok? then r.value else s
  }

  function Run(s: State, actions: seq<Action>): State {
    if |actions| == 0 then s else Next(Run(s, actions[..|actions| - 1]), actions[|actions| - 1])
  }

  /** A deployment: the ledger in its first state, beside any documents. */
  ghost predicate Initial(s: State) {
    && s.control == Control(DraftLedger, None, None, 1)
    && s.generations == map[] && s.draft == [] && s.nextId == 1
    && DocumentsInv(s.documents)
  }

  ghost predicate DocumentsInv(documents: seq<Document>) {
    && (forall i :: 0 <= i < |documents| ==> WellFormed(documents[i]))
    && (forall i, j :: 0 <= i < j < |documents| ==> documents[i].id != documents[j].id)
  }
}
