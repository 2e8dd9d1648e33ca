/** Money: what all funds and all parties of a currency hold together. */
module LedConservation {
  import opened Results
  import opened Sequences
  import opened LedModel
  import opened LedLog
  import opened LedOpening
  import opened LedMachine
  import opened LedInvariant
  import opened LedPreservation
  import opened LedAgreement

  function InCurrency(currency: string): View {
    (doc: Id, dim: Dim, date: nat) => !dim.Inventory? && dim.currency == currency
  }

  /** All fund and party deltas of a currency. */
  function MoneyIn(log: Log, currency: string): int {
    Sum(log, EntryWeight(InCurrency(currency)))
  }

  function OpeningMoney(g: Generation, currency: string): int {
    Sum(g.opening, OpeningWeight(InCurrency(currency), g.cutover))
  }

  function AmountOrZero(quantity: Option<int>, unitPrice: Option<int>): int {
    if quantity.None? || unitPrice.None? then 0
    else
      match LineAmountCents(quantity.value, unitPrice.value)
      case Some(amount) => amount
      case None => 0
  }

  /** What a product line earns: sales in, purchases out, and the margin of an intermediary sale. */
  function LineMargin(d: Document): Line -> int {
    (line: Line) =>
      match d.detail
      case Sale(_, _, _) => AmountOrZero(line.signed, Some(line.unitPrice))
      case Purchase(_, _, _) => -AmountOrZero(line.inbound, Some(line.unitPrice))
      case IntermediarySale(_, _) =>
        AmountOrZero(line.signed, Some(line.unitPrice)) - AmountOrZero(line.signed, line.purchaseUnitPrice)
      case _ => 0
  }

  /** The profit or loss a document books. Receipts and payments only move money. */
  function NetCents(d: Document): int {
    match d.detail
    case Expense(_) => -d.total
    case OtherIncome(_) => d.total
    case Receipt(_, _) => 0
    case Payment(_, _) => 0
    case _ => Sum(d.lines, LineMargin(d))
  }

  /** The profit or loss of a document while it is executed, from the cutover on. */
  function NetWeight(currency: string, cutover: nat): Document -> int {
    (d: Document) => if IsExecuted(d) && d.currency == currency && d.businessDate >= cutover then NetCents(d) else 0
  }

  lemma NoAmountForZero(unitPrice: int)
    ensures LineAmountCents(0, unitPrice).None?
  {
  }

  lemma SumShort(rows: seq<Row>, w: Row -> int)
    ensures |rows| == 1 ==> Sum(rows, w) == w(rows[0])
    ensures |rows| == 2 ==> Sum(rows, w) == w(rows[0]) + w(rows[1])
  {
    if |rows| == 2 {
      assert rows == [rows[0]] + [rows[1]];
      SumAppend([rows[0]], [rows[1]], w);
    }
  }

  lemma SaleLineMoney(d: Document, scope: Scope, line: Line, currency: string)
    requires d.detail.Sale? && SaleLineRows(d, scope, line).Ok? && WellFormedLine(line)
    ensures Sum(SaleLineRows(d, scope, line).value, RowWeight(InCurrency(currency), d.id))
         == if scope.party && d.currency == currency then LineMargin(d)(line) else 0
  {
    hide LineAmountCents, Sum;
    NoAmountForZero(line.unitPrice);
    var w := RowWeight(InCurrency(currency), d.id);
    SumShort(SaleLineRows(d, scope, line).value, w);
    SumZero([], w);
  }

  lemma PurchaseLineMoney(d: Document, scope: Scope, line: Line, currency: string)
    requires d.detail.Purchase? && PurchaseLineRows(d, scope, line).Ok?
    ensures Sum(PurchaseLineRows(d, scope, line).value, RowWeight(InCurrency(currency), d.id))
         == if scope.party && d.currency == currency then LineMargin(d)(line) else 0
  {
    hide LineAmountCents, Sum;
    var w := RowWeight(InCurrency(currency), d.id);
    SumShort(PurchaseLineRows(d, scope, line).value, w);
    SumZero([], w);
  }

  lemma IntermediaryLineMoney(d: Document, scope: Scope, line: Line, currency: string)
    requires d.detail.IntermediarySale? && IntermediaryLineRows(d, scope, line).Ok?
    ensures Sum(IntermediaryLineRows(d, scope, line).value, RowWeight(InCurrency(currency), d.id))
         == if scope.party && d.currency == currency then LineMargin(d)(line) else 0
  {
    hide LineAmountCents, Sum;
    NoAmountForZero(line.unitPrice);
    if line.purchaseUnitPrice.Some? {
      NoAmountForZero(line.purchaseUnitPrice.value);
    }
    var w := RowWeight(InCurrency(currency), d.id);
    SumShort(IntermediaryLineRows(d, scope, line).value, w);
    SumZero([], w);
  }

  lemma LineRowsMoney(d: Document, scope: Scope, line: Line, currency: string)
    requires d.detail.HasLines() && LineRows(d, scope, line).Ok? && WellFormedLine(line)
    ensures Sum(LineRows(d, scope, line).value, RowWeight(InCurrency(currency), d.id))
         == if scope.party && d.currency == currency then LineMargin(d)(line) else 0
  {
    hide SaleLineRows, PurchaseLineRows, IntermediaryLineRows, Sum, LineMargin;
    match d.detail
    case Sale(_, _, _) => SaleLineMoney(d, scope, line, currency);
    case Purchase(_, _, _) => PurchaseLineMoney(d, scope, line, currency);
    case IntermediarySale(_, _) => IntermediaryLineMoney(d, scope, line, currency);
  }

  lemma {:induction false} LinesRowsMoney(d: Document, scope: Scope, lines: seq<Line>, currency: string)
    requires d.detail.HasLines() && LinesRows(d, scope, lines).Ok?
    requires forall i :: 0 <= i < |lines| ==> WellFormedLine(lines[i])
    ensures Sum(LinesRows(d, scope, lines).value, RowWeight(InCurrency(currency), d.id))
         == if scope.party && d.currency == currency then Sum(lines, LineMargin(d)) else 0
  {
    if |lines| != 0 {
      var n := |lines| - 1;
      LinesRowsMoney(d, scope, lines[..n], currency);
      LineRowsMoney(d, scope, lines[n], currency);
      SumAppend(LinesRows(d, scope, lines[..n]).value, LineRows(d, scope, lines[n]).value,
          RowWeight(InCurrency(currency), d.id));
    }
  }

  lemma HeaderRowsMoney(d: Document, currency: string)
    requires !d.detail.HasLines()
    ensures Sum(HeaderRows(d), RowWeight(InCurrency(currency), d.id))
         == if d.currency == currency then NetCents(d) else 0
  {
    SumShort(HeaderRows(d), RowWeight(InCurrency(currency), d.id));
  }

  lemma DocumentMoney(d: Document, cutover: nat, currency: string)
    requires WellFormed(d) && IsExecuted(d) && DocumentRows(d, cutover, false).Ok?
    ensures DocumentWeight(InCurrency(currency), cutover)(d) == NetWeight(currency, cutover)(d)
  {
    var scope := EffectScope(d, cutover, false).value;
    assert scope.party <==> d.businessDate >= cutover;
    if d.detail.HasLines() {
      LinesRowsMoney(d, scope, d.lines, currency);
    } else if scope.party {
      HeaderRowsMoney(d, currency);
    }
  }

  /** In a ledger that agrees with its documents, the money of a currency is what it opened with plus the
      sales, intermediary margins and other incomes less the purchases and expenses executed now. */
  lemma MoneyIsConserved(s: State, currency: string)
    requires Inv(s) && HasActive(s) && AgreesOn(s, InCurrency(currency))
    ensures MoneyIn(ActiveGeneration(s).entries, currency)
         == OpeningMoney(ActiveGeneration(s), currency)
            + Sum(s.documents, NetWeight(currency, ActiveGeneration(s).cutover))
  {
    var g := ActiveGeneration(s);
    forall d | d in s.documents
      ensures DocumentWeight(InCurrency(currency), g.cutover)(d) == NetWeight(currency, g.cutover)(d)
    {
      var i :| 0 <= i < |s.documents| && s.documents[i] == d;
      if IsExecuted(d) {
        assert PostedNow(g.entries, s.documents[i], g.cutover) && WellFormed(s.documents[i]);
        DocumentMoney(d, g.cutover, currency);
      }
    }
    SumEqual(s.documents, DocumentWeight(InCurrency(currency), g.cutover), NetWeight(currency, g.cutover));
  }

  /** The conservation of money over every run that withdraws no intermediary sale of which nothing was signed for. */
  lemma MoneyIsConservedInRun(s: State, actions: seq<Action>, currency: string)
    requires Initial(s) && CleanRun(s, actions)
    ensures HasActive(Run(s, actions)) ==>
              var g := ActiveGeneration(Run(s, actions));
              MoneyIn(g.entries, currency)
              == OpeningMoney(g, currency) + Sum(Run(s, actions).documents, NetWeight(currency, g.cutover))
  {
    hide Inv, Initial, CleanRun, Run, AgreesOn;
    RunKeepsInv(s, actions);
    CleanRunAgrees(s, actions, InCurrency(currency));
    if HasActive(Run(s, actions)) {
      MoneyIsConserved(Run(s, actions), currency);
    }
  }
}
