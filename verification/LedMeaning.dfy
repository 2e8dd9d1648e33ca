/** What an executed document means for one balance, said without its rows. */
module LedMeaning {
  import opened Results
  import opened Sequences
  import opened LedModel
  import opened LedLog
  import opened LedTimeline
  import opened LedOpening
  import opened LedMachine
  import opened LedInvariant
  import opened LedPreservation
  import opened LedAgreement
  import opened LedConservation

  /** The date counts for a balance of `asOf` in a ledger cut at `cutover`. */
  predicate Counts(date: Option<nat>, cutover: nat, asOf: nat) {
    date.Some? && cutover <= date.value <= asOf
  }

  function ValueOrZero(quantity: Option<int>): int {
    if quantity.Some? then quantity.value else 0
  }

  /** Stock leaves the warehouse of a sale on its outbound date and enters that of a purchase on its inbound date. */
  function StockEffect(d: Document, line: Line, warehouse: Id, product: Id, cutover: nat, asOf: nat): int {
    match d.detail
    case Sale(_, from, date) =>
      if from == Some(warehouse) && line.product == product && Counts(date, cutover, asOf)
      then -ValueOrZero(line.outbound) else 0
    case Purchase(_, to, date) =>
      if to == Some(warehouse) && line.product == product && Counts(date, cutover, asOf)
      then ValueOrZero(line.inbound) else 0
    case _ => 0
  }

  /** A customer owes what was signed for, a supplier is owed what came in or was bought for the customer. */
  function PartyEffect(d: Document, line: Line, party: Party): int {
    match d.detail
    case Sale(customer, _, _) =>
      if party == Party(Customer, customer) then AmountOrZero(line.signed, Some(line.unitPrice)) else 0
    case Purchase(supplier, _, _) =>
      if party == Party(Supplier, supplier) then -AmountOrZero(line.inbound, Some(line.unitPrice)) else 0
    case IntermediarySale(customer, supplier) =>
      if party == Party(Customer, customer) then AmountOrZero(line.signed, Some(line.unitPrice))
      else if party == Party(Supplier, supplier) then -AmountOrZero(line.signed, line.purchaseUnitPrice)
      else 0
    case _ => 0
  }

  function LineEffect(d: Document, dim: Dim, cutover: nat, asOf: nat): Line -> int {
    (line: Line) =>
      match dim
      case Inventory(warehouse, product) => StockEffect(d, line, warehouse, product, cutover, asOf)
      case Fund(_, _) => 0
      case Counterparty(kind, party, currency) =>
        if currency == d.currency && Counts(Some(d.businessDate), cutover, asOf)
        then PartyEffect(d, line, Party(kind, party)) else 0
  }

  /** Money comes into or leaves a fund account; what is received lowers, and what is paid raises, a party's debt. */
  function HeaderEffect(d: Document, dim: Dim): int {
    match d.detail
    case Receipt(account, party) =>
      if dim == Fund(account, d.currency) then d.total
      else if dim == Counterparty(party.kind, party.id, d.currency) then -d.total else 0
    case Payment(account, party) =>
      if dim == Fund(account, d.currency) then -d.total
      else if dim == Counterparty(party.kind, party.id, d.currency) then d.total else 0
    case Expense(account) => if dim == Fund(account, d.currency) then -d.total else 0
    case OtherIncome(account) => if dim == Fund(account, d.currency) then d.total else 0
    case _ => 0
  }

  /** The effect of a document on a balance. */
  function Effect(d: Document, dim: Dim, cutover: nat, asOf: nat): int {
    if d.detail.HasLines() then Sum(d.lines, LineEffect(d, dim, cutover, asOf))
    else if Counts(Some(d.businessDate), cutover, asOf) then HeaderEffect(d, dim)
    else 0
  }

  function EffectNow(dim: Dim, cutover: nat, asOf: nat): Document -> int {
    (d: Document) => if IsExecuted(d) then Effect(d, dim, cutover, asOf) else 0
  }

  // ------------------------------------------------------ rows have the effect

  ghost predicate ScopeOf(d: Document, scope: Scope, cutover: nat) {
    && (scope.party <==> d.businessDate >= cutover)
    && (d.detail.Sale? ==> d.detail.outboundDate.Some? && (scope.inventory <==> d.detail.outboundDate.value >= cutover))
    && (d.detail.Purchase? ==>
        d.detail.inboundDate.Some? && (scope.inventory <==> d.detail.inboundDate.value >= cutover))
  }

  lemma ScopeIs(d: Document, cutover: nat, live: bool)
    requires EffectScope(d, cutover, live).Ok?
    ensures ScopeOf(d, EffectScope(d, cutover, live).value, cutover)
  {
  }

  lemma SaleLineEffect(d: Document, scope: Scope, line: Line, dim: Dim, cutover: nat, asOf: nat)
    requires d.detail.Sale? && SaleLineRows(d, scope, line).Ok? && WellFormedLine(line) && ScopeOf(d, scope, cutover)
    ensures Sum(SaleLineRows(d, scope, line).value, RowWeight(AsOf(dim, asOf), d.id))
         == LineEffect(d, dim, cutover, asOf)(line)
  {
    hide LineAmountCents, Sum;
    NoAmountForZero(line.unitPrice);
    SumShort(SaleLineRows(d, scope, line).value, RowWeight(AsOf(dim, asOf), d.id));
    SumZero([], RowWeight(AsOf(dim, asOf), d.id));
  }

  lemma PurchaseLineEffect(d: Document, scope: Scope, line: Line, dim: Dim, cutover: nat, asOf: nat)
    requires d.detail.Purchase? && PurchaseLineRows(d, scope, line).Ok? && ScopeOf(d, scope, cutover)
    ensures Sum(PurchaseLineRows(d, scope, line).value, RowWeight(AsOf(dim, asOf), d.id))
         == LineEffect(d, dim, cutover, asOf)(line)
  {
    hide LineAmountCents, Sum;
    SumShort(PurchaseLineRows(d, scope, line).value, RowWeight(AsOf(dim, asOf), d.id));
    SumZero([], RowWeight(AsOf(dim, asOf), d.id));
  }

  lemma IntermediaryLineEffect(d: Document, scope: Scope, line: Line, dim: Dim, cutover: nat, asOf: nat)
    requires d.detail.IntermediarySale? && IntermediaryLineRows(d, scope, line).Ok? && ScopeOf(d, scope, cutover)
    ensures Sum(IntermediaryLineRows(d, scope, line).value, RowWeight(AsOf(dim, asOf), d.id))
         == LineEffect(d, dim, cutover, asOf)(line)
  {
    hide LineAmountCents, Sum;
    NoAmountForZero(line.unitPrice);
    if line.purchaseUnitPrice.Some? {
      NoAmountForZero(line.purchaseUnitPrice.value);
    }
    SumShort(IntermediaryLineRows(d, scope, line).value, RowWeight(AsOf(dim, asOf), d.id));
    SumZero([], RowWeight(AsOf(dim, asOf), d.id));
  }

  lemma {:induction false} LinesEffect(d: Document, scope: Scope, lines: seq<Line>, dim: Dim, cutover: nat, asOf: nat)
    requires d.detail.HasLines() && LinesRows(d, scope, lines).Ok? && ScopeOf(d, scope, cutover)
    requires forall i :: 0 <= i < |lines| ==> WellFormedLine(lines[i])
    ensures Sum(LinesRows(d, scope, lines).value, RowWeight(AsOf(dim, asOf), d.id))
         == Sum(lines, LineEffect(d, dim, cutover, asOf))
  {
    hide SaleLineRows, PurchaseLineRows, IntermediaryLineRows, LineEffect;
    if |lines| != 0 {
      var n := |lines| - 1;
      LinesEffect(d, scope, lines[..n], dim, cutover, asOf);
      match d.detail {
        case Sale(_, _, _) => SaleLineEffect(d, scope, lines[n], dim, cutover, asOf);
        case Purchase(_, _, _) => PurchaseLineEffect(d, scope, lines[n], dim, cutover, asOf);
        case IntermediarySale(_, _) => IntermediaryLineEffect(d, scope, lines[n], dim, cutover, asOf);
      }
      SumAppend(LinesRows(d, scope, lines[..n]).value, LineRows(d, scope, lines[n]).value,
          RowWeight(AsOf(dim, asOf), d.id));
    }
  }

  lemma HeaderRowsEffect(d: Document, dim: Dim, asOf: nat)
    requires !d.detail.HasLines()
    ensures Sum(HeaderRows(d), RowWeight(AsOf(dim, asOf), d.id))
         == if d.businessDate <= asOf then HeaderEffect(d, dim) else 0
  {
    SumShort(HeaderRows(d), RowWeight(AsOf(dim, asOf), d.id));
  }

  /** The rows posted for a document move every balance, on every date, by exactly its effect. */
  lemma RowsHaveEffect(d: Document, cutover: nat, live: bool, dim: Dim, asOf: nat)
    requires WellFormed(d) && DocumentRows(d, cutover, live).Ok?
    ensures Sum(DocumentRows(d, cutover, live).value, RowWeight(AsOf(dim, asOf), d.id)) == Effect(d, dim, cutover, asOf)
  {
    hide LinesRows, HeaderRows, LineEffect, HeaderEffect, Sum;
    ScopeIs(d, cutover, live);
    var scope := EffectScope(d, cutover, live).value;
    if d.detail.HasLines() {
      LinesEffect(d, scope, d.lines, dim, cutover, asOf);
    } else if scope.party {
      HeaderRowsEffect(d, dim, asOf);
    } else {
      SumZero([], RowWeight(AsOf(dim, asOf), d.id));
    }
  }

  // ------------------------------------------------------------ the balances

  lemma EffectIsWeight(s: State, d: Document, dim: Dim, asOf: nat)
    requires Inv(s) && HasActive(s) && d in s.documents
    ensures DocumentWeight(AsOf(dim, asOf), ActiveGeneration(s).cutover)(d)
         == EffectNow(dim, ActiveGeneration(s).cutover, asOf)(d)
  {
    hide LogInv, Sum, Effect, DocumentRows, HasNegativeTimeline;
    var i :| 0 <= i < |s.documents| && s.documents[i] == d;
    if IsExecuted(d) {
      assert PostedNow(ActiveGeneration(s).entries, s.documents[i], ActiveGeneration(s).cutover)
          && WellFormed(s.documents[i]);
      RowsHaveEffect(d, ActiveGeneration(s).cutover, false, dim, asOf);
    }
  }

  /** After any run that withdraws no intermediary sale of which nothing was signed for, each balance of the active
      ledger is the opening and the effects of the documents executed now. */
  lemma BalanceIsOpeningAndEffects(s: State, actions: seq<Action>, dim: Dim, asOf: nat)
    requires Initial(s) && CleanRun(s, actions) && HasActive(Run(s, actions))
    ensures var after := Run(s, actions);
            var g := ActiveGeneration(after);
            Balance(g.entries, dim, asOf)
            == Sum(g.opening, OpeningWeight(AsOf(dim, asOf), g.cutover))
                + Sum(after.documents, EffectNow(dim, g.cutover, asOf))
  {
    hide Initial, CleanRun, Run, Inv, DocumentWeight, EffectNow;
    var after := Run(s, actions);
    RunKeepsInv(s, actions);
    CleanRunAgrees(s, actions, AsOf(dim, asOf));
    forall d | d in after.documents
      ensures DocumentWeight(AsOf(dim, asOf), ActiveGeneration(after).cutover)(d)
           == EffectNow(dim, ActiveGeneration(after).cutover, asOf)(d)
    {
      EffectIsWeight(after, d, dim, asOf);
    }
    SumEqual(after.documents, DocumentWeight(AsOf(dim, asOf), ActiveGeneration(after).cutover),
             EffectNow(dim, ActiveGeneration(after).cutover, asOf));
  }
}
