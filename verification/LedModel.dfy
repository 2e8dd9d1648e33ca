/** The entities of the LED ledger and the rows each kind of VOU document posts. */
module LedModel {
  import opened Results
  import opened Sequences

  const MICROS: int := 1_000_000

  // ------------------------------------------------------------ documents

  datatype PartyKind = Customer | Supplier

  datatype Party = Party(kind: PartyKind, id: Id)

  datatype Entity =
    | SaleOrder | PurchaseOrder | IntermediarySaleOrder
    | ReceiptOrder | PaymentOrder | ExpenseReimbursement | OtherIncomeOrder

  /** The detail row of a document. The dates of a sale and of a purchase are set when it is executed. */
  datatype Detail =
    | Sale(customer: Id, warehouse: Option<Id>, outboundDate: Option<nat>)
    | Purchase(supplier: Id, warehouse: Option<Id>, inboundDate: Option<nat>)
    | IntermediarySale(customer: Id, supplier: Id)
    | Receipt(account: Id, counterparty: Party)
    | Payment(account: Id, counterparty: Party)
    | Expense(account: Id)
    | OtherIncome(account: Id)
  {
    function Entity(): Entity {
      match this
      case Sale(_, _, _) => SaleOrder
      case Purchase(_, _, _) => PurchaseOrder
      case IntermediarySale(_, _) => IntermediarySaleOrder
      case Receipt(_, _) => ReceiptOrder
      case Payment(_, _) => PaymentOrder
      case Expense(_) => ExpenseReimbursement
      case OtherIncome(_) => OtherIncomeOrder
    }

    predicate HasLines() {
      Sale? || Purchase? || IntermediarySale?
    }
  }

  datatype Line = Line(
    id: Id, product: Id, ordered: int, unitPrice: int, purchaseUnitPrice: Option<int>,
    outbound: Option<int>, signed: Option<int>, inbound: Option<int>)

  datatype DocumentStatus = Draft | Reviewed | Approved | Executed

  /** `staffed`: whether the people and settlement methods that the entity demands are set. */
  datatype Document = Document(
    id: Id, status: DocumentStatus, revision: nat, businessDate: nat, currency: string, total: int,
    executedAt: Option<nat>, updatedAt: nat, staffed: bool, detail: Detail, lines: seq<Line>)

  /** The column constraints of the document tables. */
  predicate WellFormedLine(line: Line) {
    && line.id != NO_ID
    && (line.outbound.Some? ==> line.outbound.value > 0)
    && (line.signed.Some? ==> line.signed.value >= 0)
    && (line.inbound.Some? ==> line.inbound.value > 0)
  }

  predicate WellFormed(d: Document) {
    && d.id != NO_ID
    && d.revision >= 1
    && d.total > 0
    && (forall i :: 0 <= i < |d.lines| ==> WellFormedLine(d.lines[i]))
    && (forall i, j :: 0 <= i < j < |d.lines| ==> d.lines[i].id != d.lines[j].id)
  }

  // ----------------------------------------------------------- dimensions

  /** What a balance is kept for. The constructor also names the entry table of a row. */
  datatype Dim =
    | Inventory(warehouse: Id, product: Id)
    | Fund(account: Id, currency: string)
    | Counterparty(kind: PartyKind, party: Id, currency: string)

  datatype Table = InventoryTable | FundTable | PartyTable

  function TableOf(dim: Dim): Table {
    match dim
    case Inventory(_, _) => InventoryTable
    case Fund(_, _) => FundTable
    case Counterparty(_, _, _) => PartyTable
  }

  /** The part of a row's dimension that takes part in the unique index of its table. */
  datatype Slot = InventorySlot | FundSlot | PartySlot(kind: PartyKind)

  function SlotOf(dim: Dim): Slot {
    match dim
    case Inventory(_, _) => InventorySlot
    case Fund(_, _) => FundSlot
    case Counterparty(kind, _, _) => PartySlot(kind)
  }

  // -------------------------------------------------------- line amounts

  function TruncatedQuotient(a: int, b: int): int
    requires b > 0
  {
    if a >= 0 then a / b else -(-a / b)
  }

  /** Quantity times unit price in cents, rounded half up; absent when not a positive 64-bit integer. */
  function LineAmountCents(quantityMicros: int, unitPrice: int): Option<int> {
    var product := quantityMicros * unitPrice;
    var quotient := TruncatedQuotient(product, MICROS);
    var remainder := product - quotient * MICROS;
    var rounded := if 2 * remainder >= MICROS then quotient + 1 else quotient;
    if 0 < rounded <= MAX_INT64 then Some(rounded) else None
  }

  ghost predicate NearestCents(product: int, amount: int) {
    2 * product - MICROS < 2 * MICROS * amount <= 2 * product + MICROS
  }

  /** The amount is the nearest number of cents, halves rounded up, whenever that is positive and fits. */
  lemma LineAmountIsNearest(quantityMicros: int, unitPrice: int, amount: int)
    ensures LineAmountCents(quantityMicros, unitPrice) == Some(amount)
       <==> 0 < amount <= MAX_INT64 && NearestCents(quantityMicros * unitPrice, amount)
  {
    var product := quantityMicros * unitPrice;
    if product >= 0 {
      assert product == product / MICROS * MICROS + product % MICROS;
    } else {
      assert -product == -product / MICROS * MICROS + -product % MICROS;
      assert TruncatedQuotient(product, MICROS) <= 0;
    }
  }

  // ------------------------------------------------------- posting rules

  /** One ledger row of a document, before it is given an id and a source revision. */
  datatype Row = Row(line: Id, date: nat, dim: Dim, delta: int)

  /** Whether an effect of that date is posted: refused when live and before the cutover, else skipped. */
  function RequireEffectiveDate(live: bool, cutover: nat, date: Option<nat>): Result<bool> {
    if date.None? then Err(Conflict)
    else if live && date.value < cutover then Err(Conflict)
    else Ok(date.value >= cutover)
  }

  datatype Scope = Scope(inventory: bool, party: bool)

  function EffectScope(d: Document, cutover: nat, live: bool): Result<Scope> {
    match d.detail
    case Sale(_, _, outboundDate) =>
      var inventory :- RequireEffectiveDate(live, cutover, outboundDate);
      var party :- RequireEffectiveDate(live, cutover, Some(d.businessDate));
      Ok(Scope(inventory, party))
    case Purchase(_, _, inboundDate) =>
      var inventory :- RequireEffectiveDate(live, cutover, inboundDate);
      var party :- RequireEffectiveDate(live, cutover, Some(d.businessDate));
      Ok(Scope(inventory, party))
    case _ =>
      var party :- RequireEffectiveDate(live, cutover, Some(d.businessDate));
      Ok(Scope(false, party))
  }

  function AmountRow(d: Document, line: Line, party: Party, quantity: int, unitPrice: int, sign: int)
    : Result<seq<Row>>
  {
    match LineAmountCents(quantity, unitPrice)
    case None => Err(Conflict)
    case Some(amount) =>
      Ok([Row(line.id, d.businessDate, Counterparty(party.kind, party.id, d.currency), sign * amount)])
  }

  function SaleLineRows(d: Document, scope: Scope, line: Line): Result<seq<Row>>
    requires d.detail.Sale?
  {
    var stock :-
      if !scope.inventory then Ok([])
      else if line.outbound.None? || d.detail.warehouse.None? || d.detail.outboundDate.None? then Err(Conflict)
      else Ok([Row(line.id, d.detail.outboundDate.value,
                   Inventory(d.detail.warehouse.value, line.product), -line.outbound.value)]);
    var receivable :-
      if scope.party && line.signed.Some? && line.signed.value > 0
      then AmountRow(d, line, Party(Customer, d.detail.customer), line.signed.value, line.unitPrice, 1)
      else Ok([]);
    Ok(stock + receivable)
  }

  function PurchaseLineRows(d: Document, scope: Scope, line: Line): Result<seq<Row>>
    requires d.detail.Purchase?
  {
    if line.inbound.None? then Err(Conflict)
    else
      var stock :-
        if !scope.inventory then Ok([])
        else if d.detail.warehouse.None? || d.detail.inboundDate.None? then Err(Conflict)
        else Ok([Row(line.id, d.detail.inboundDate.value,
                     Inventory(d.detail.warehouse.value, line.product), line.inbound.value)]);
      var payable :-
        if scope.party
        then AmountRow(d, line, Party(Supplier, d.detail.supplier), line.inbound.value, line.unitPrice, -1)
        else Ok([]);
      Ok(stock + payable)
  }

  function IntermediaryLineRows(d: Document, scope: Scope, line: Line): Result<seq<Row>>
    requires d.detail.IntermediarySale?
  {
    if !scope.party || line.signed.None? || line.signed.value == 0 then Ok([])
    else if line.purchaseUnitPrice.None? then Err(Conflict)
    else
      var receivable :-
        AmountRow(d, line, Party(Customer, d.detail.customer), line.signed.value, line.unitPrice, 1);
      var payable :-
        AmountRow(d, line, Party(Supplier, d.detail.supplier), line.signed.value, line.purchaseUnitPrice.value, -1);
      Ok(receivable + payable)
  }

  function LineRows(d: Document, scope: Scope, line: Line): Result<seq<Row>>
    requires d.detail.HasLines()
  {
    match d.detail
    case Sale(_, _, _) => SaleLineRows(d, scope, line)
    case Purchase(_, _, _) => PurchaseLineRows(d, scope, line)
    case IntermediarySale(_, _) => IntermediaryLineRows(d, scope, line)
  }

  function LinesRows(d: Document, scope: Scope, lines: seq<Line>): Result<seq<Row>>
    requires d.detail.HasLines()
  {
    if |lines| == 0 then Ok([])
    else
      var front :- LinesRows(d, scope, lines[..|lines| - 1]);
      var last :- LineRows(d, scope, lines[|lines| - 1]);
      Ok(front + last)
  }

  /** The rows of a document without product lines. */
  function HeaderRows(d: Document): seq<Row>
    requires !d.detail.HasLines()
  {
    var fund := (account, sign) => [Row(NO_ID, d.businessDate, Fund(account, d.currency), sign * d.total)];
    var party := (p: Party, sign) =>
      [Row(NO_ID, d.businessDate, Counterparty(p.kind, p.id, d.currency), sign * d.total)];
    match d.detail
    case Receipt(account, counterparty) => fund(account, 1) + party(counterparty, -1)
    case Payment(account, counterparty) => fund(account, -1) + party(counterparty, 1)
    case Expense(account) => fund(account, -1)
    case OtherIncome(account) => fund(account, 1)
  }

  /** Everything `postDocument` writes for a document, in order. */
  function DocumentRows(d: Document, cutover: nat, live: bool): Result<seq<Row>> {
    var scope :- EffectScope(d, cutover, live);
    if d.detail.HasLines() then LinesRows(d, scope, d.lines)
    else Ok(if scope.party then HeaderRows(d) else [])
  }

  // --------------------------------------------- properties of the rows

  /** The sign every row of an entity has in a dimension; zero where the entity posts nothing. */
  function Sign(entity: Entity, dim: Dim): int {
    match entity
    case SaleOrder => if dim.Inventory? then -1 else if dim.Counterparty? then 1 else 0
    case PurchaseOrder => if dim.Inventory? then 1 else if dim.Counterparty? then -1 else 0
    case IntermediarySaleOrder => if !dim.Counterparty? then 0 else if dim.kind.Customer? then 1 else -1
    case ReceiptOrder => if dim.Fund? then 1 else if dim.Counterparty? then -1 else 0
    case PaymentOrder => if dim.Fund? then -1 else if dim.Counterparty? then 1 else 0
    case ExpenseReimbursement => if dim.Fund? then -1 else 0
    case OtherIncomeOrder => if dim.Fund? then 1 else 0
  }

  ghost predicate SignedRow(entity: Entity, cutover: nat, row: Row) {
    row.delta * Sign(entity, row.dim) > 0 && row.date >= cutover
  }

  /** Distinct rows of one posting never collide in a unique index. */
  ghost predicate ApartInIndex(a: Row, b: Row) {
    a.line != b.line || SlotOf(a.dim) != SlotOf(b.dim)
  }

  lemma AmountRowSound(d: Document, line: Line, party: Party, quantity: int, unitPrice: int, sign: int)
    requires AmountRow(d, line, party, quantity, unitPrice, sign).Ok?
    ensures var rows := AmountRow(d, line, party, quantity, unitPrice, sign).value;
            exists amount :: amount > 0
              && rows == [Row(line.id, d.businessDate, Counterparty(party.kind, party.id, d.currency), sign * amount)]
  {
    LineAmountIsNearest(quantity, unitPrice, LineAmountCents(quantity, unitPrice).value);
    hide LineAmountCents;
  }

  ghost predicate SoundRows(d: Document, cutover: nat, line: Line, rows: seq<Row>) {
    && (forall r :: r in rows ==> SignedRow(d.detail.Entity(), cutover, r) && r.line == line.id)
    && Pairwise(rows, ApartInIndex)
  }

  lemma SaleLineSound(d: Document, cutover: nat, live: bool, line: Line)
    requires d.detail.Sale? && WellFormedLine(line)
    requires EffectScope(d, cutover, live).Ok? && SaleLineRows(d, EffectScope(d, cutover, live).value, line).Ok?
    ensures SoundRows(d, cutover, line, SaleLineRows(d, EffectScope(d, cutover, live).value, line).value)
  {
    hide AmountRow;
    if EffectScope(d, cutover, live).value.party && line.signed.Some? && line.signed.value > 0 {
      AmountRowSound(d, line, Party(Customer, d.detail.customer), line.signed.value, line.unitPrice, 1);
    }
  }

  lemma PurchaseLineSound(d: Document, cutover: nat, live: bool, line: Line)
    requires d.detail.Purchase? && WellFormedLine(line)
    requires EffectScope(d, cutover, live).Ok? && PurchaseLineRows(d, EffectScope(d, cutover, live).value, line).Ok?
    ensures SoundRows(d, cutover, line, PurchaseLineRows(d, EffectScope(d, cutover, live).value, line).value)
  {
    hide AmountRow;
    if EffectScope(d, cutover, live).value.party {
      AmountRowSound(d, line, Party(Supplier, d.detail.supplier), line.inbound.value, line.unitPrice, -1);
    }
  }

  lemma IntermediaryLineSound(d: Document, cutover: nat, live: bool, line: Line)
    requires d.detail.IntermediarySale?
    requires EffectScope(d, cutover, live).Ok? && IntermediaryLineRows(d, EffectScope(d, cutover, live).value, line).Ok?
    ensures SoundRows(d, cutover, line, IntermediaryLineRows(d, EffectScope(d, cutover, live).value, line).value)
  {
    hide AmountRow;
    if IntermediaryLineRows(d, EffectScope(d, cutover, live).value, line).value != [] {
      AmountRowSound(d, line, Party(Customer, d.detail.customer), line.signed.value, line.unitPrice, 1);
      AmountRowSound(d, line, Party(Supplier, d.detail.supplier), line.signed.value, line.purchaseUnitPrice.value, -1);
    }
  }

  lemma LineRowsSound(d: Document, cutover: nat, live: bool, line: Line)
    requires d.detail.HasLines() && WellFormedLine(line)
    requires EffectScope(d, cutover, live).Ok? && LineRows(d, EffectScope(d, cutover, live).value, line).Ok?
    ensures SoundRows(d, cutover, line, LineRows(d, EffectScope(d, cutover, live).value, line).value)
  {
    hide EffectScope, SaleLineRows, PurchaseLineRows, IntermediaryLineRows, SoundRows;
    match d.detail
    case Sale(_, _, _) => SaleLineSound(d, cutover, live, line);
    case Purchase(_, _, _) => PurchaseLineSound(d, cutover, live, line);
    case IntermediarySale(_, _) => IntermediaryLineSound(d, cutover, live, line);
  }

  lemma {:induction false} LinesRowsSound(d: Document, cutover: nat, live: bool, lines: seq<Line>)
    requires d.detail.HasLines()
    requires forall i :: 0 <= i < |lines| ==> WellFormedLine(lines[i])
    requires forall i, j :: 0 <= i < j < |lines| ==> lines[i].id != lines[j].id
    requires EffectScope(d, cutover, live).Ok? && LinesRows(d, EffectScope(d, cutover, live).value, lines).Ok?
    ensures var rows := LinesRows(d, EffectScope(d, cutover, live).value, lines).value;
            && (forall r :: r in rows ==> SignedRow(d.detail.Entity(), cutover, r))
            && (forall r :: r in rows ==> exists i :: 0 <= i < |lines| && r.line == lines[i].id)
            && Pairwise(rows, ApartInIndex)
  {
    if |lines| != 0 {
      var scope := EffectScope(d, cutover, live).value;
      var front, last := lines[..|lines| - 1], lines[|lines| - 1];
      LinesRowsSound(d, cutover, live, front);
      LineRowsSound(d, cutover, live, last);
      var a, b := LinesRows(d, scope, front).value, LineRows(d, scope, last).value;
      forall r | r in a
        ensures exists i :: 0 <= i < |lines| && r.line == lines[i].id
        ensures r.line != last.id
      {
        var i :| 0 <= i < |front| && r.line == front[i].id;
        assert lines[i] == front[i];
      }
      assert forall r :: r in b ==> r.line == lines[|lines| - 1].id;
      PairwiseAppend(a, b, ApartInIndex);
    }
  }

  /** Every row a well-formed document posts has its entity's sign, is not before the cutover and is unique in its
      index. */
  lemma DocumentRowsSound(d: Document, cutover: nat, live: bool)
    requires WellFormed(d) && DocumentRows(d, cutover, live).Ok?
    ensures var rows := DocumentRows(d, cutover, live).value;
            && (forall r :: r in rows ==> SignedRow(d.detail.Entity(), cutover, r))
            && Pairwise(rows, ApartInIndex)
  {
    if d.detail.HasLines() {
      LinesRowsSound(d, cutover, live, d.lines);
    }
  }

  /** Replaying a document that was accepted live posts the same rows. */
  lemma ReplayEqualsLive(d: Document, cutover: nat)
    requires DocumentRows(d, cutover, true).Ok?
    ensures DocumentRows(d, cutover, false) == DocumentRows(d, cutover, true)
  {
    assert EffectScope(d, cutover, false) == EffectScope(d, cutover, true);
  }
}
