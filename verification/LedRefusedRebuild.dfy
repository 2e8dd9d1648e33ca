/** A live ledger that cannot be rebuilt: the run that leads there, and the activation that is refused. */
module LedRefusedRebuild {
  import opened Results
  import opened Sequences
  import opened LedModel
  import opened LedLog
  import opened LedTimeline
  import opened LedMachine
  import opened LedInvariant
  import opened LedPreservation
  import opened LedAgreement
  import opened LedTheorems
  import opened LedRebuild
  import opened LedCounterexamples

  // ------------------------------------------------------- unit documents

  const SHELF: Dim := Inventory(5, 7)

  /** A purchase or a sale of one unit of the product, over the shelf. */
  predicate Unit(d: Document) {
    && d.businessDate == 10 && d.currency == "CNY" && d.staffed
    && |d.lines| == 1 && d.lines[0].id == 4 && d.lines[0].product == 7
    && d.lines[0].ordered == MICROS && d.lines[0].unitPrice == 100
    && (d.detail.Purchase? || d.detail.Sale?) && d.detail.warehouse == Some(5)
  }

  function UnitExecution(d: Document): seq<LineExecution> {
    [if d.detail.Purchase? then LineExecution(4, 0, 0, 0, 0, MICROS) else LineExecution(4, MICROS, MICROS, 0, 0, 0)]
  }

  function Flow(d: Document): int {
    if d.detail.Purchase? then MICROS else -MICROS
  }

  function UnitRows(d: Document): seq<Row>
    requires Unit(d)
  {
    var party := if d.detail.Purchase? then Counterparty(Supplier, d.detail.supplier, "CNY")
                 else Counterparty(Customer, d.detail.customer, "CNY");
    [Row(4, 10, SHELF, Flow(d)), Row(4, 10, party, if d.detail.Purchase? then -100 else 100)]
  }

  /** A unit document as its execution leaves it. */
  predicate UnitExecuted(d: Document) {
    && Unit(d) && d.executedAt.Some?
    && (d.detail.Purchase? ==> d.lines[0].inbound == Some(MICROS) && d.detail.inboundDate == Some(10))
    && (d.detail.Sale? ==>
          d.lines[0].outbound == d.lines[0].signed == Some(MICROS) && d.detail.outboundDate == Some(10))
  }

  lemma UnitLineRows(d: Document, live: bool)
    requires UnitExecuted(d)
    ensures EffectScope(d, 0, live) == Ok(Scope(true, true))
    ensures LineRows(d, Scope(true, true), d.lines[0]) == Ok(UnitRows(d))
  {
    assert LineAmountCents(MICROS, 100) == Some(100);
    var rows := UnitRows(d);
    assert rows == [rows[0]] + [rows[1]];
    if d.detail.Purchase? {
      assert LineRows(d, Scope(true, true), d.lines[0]) == Ok([rows[0]] + [rows[1]]);
    } else {
      assert LineRows(d, Scope(true, true), d.lines[0]) == Ok([rows[0]] + [rows[1]]);
    }
  }

  lemma UnitPosts(d: Document, live: bool)
    requires UnitExecuted(d)
    ensures Unit(d) && DocumentRows(d, 0, live) == Ok(UnitRows(d))
  {
    hide LineRows, EffectScope, UnitRows;
    UnitLineRows(d, live);
    assert d.lines[..0] == [];
    assert LinesRows(d, Scope(true, true), d.lines[..0]) == Ok([]);
    assert [] + UnitRows(d) == UnitRows(d);
  }

  lemma UnitIsValid(d: Document, now: nat)
    requires Unit(d)
    ensures AttributesComplete(d) && ValidExecution(d, 10, UnitExecution(d))
    ensures UnitExecuted(ExecutedDocument(d, 10, UnitExecution(d), now))
  {
    var l := UnitExecution(d)[0];
    OnlyExecution(l);
    assert UnitExecution(d) == [l];
    hide FindExecution;
  }

  lemma WithdrawnIsNotExecuted(d: Document, now: nat)
    ensures !IsExecuted(UnexecutedDocument(d, now))
  {
  }

  // ------------------------------------------------------------- the ledger

  /** All rows of the day, nothing later than `now`, and that much on the shelf. */
  ghost predicate ShelfLog(log: Log, now: nat, stock: int) {
    && (forall e :: e in log ==> e.date == 10 && e.occurredAt <= now && (e.dim.Inventory? ==> e.dim == SHELF))
    && Sum(log, EntryWeight(OfDim(SHELF))) == stock
  }

  ghost predicate ShelfRows(rows: seq<Row>, doc: Id, stock: int) {
    && (forall r :: r in rows ==> r.date == 10 && (r.dim.Inventory? ==> r.dim == SHELF))
    && Sum(rows, RowWeight(OfDim(SHELF), doc)) == stock
  }

  lemma ShelfGrows(log: Log, p: Posting, rows: seq<Row>, id: Id, now: nat, stock: int, change: int)
    requires ShelfLog(log, now, stock) && ShelfRows(rows, p.doc, change) && p.occurredAt >= now
    ensures ShelfLog(log + Stamped(p, rows, id), p.occurredAt, stock + change)
  {
    hide Sum;
    SumAppend(log, Stamped(p, rows, id), EntryWeight(OfDim(SHELF)));
    SumStamped(p, rows, id, OfDim(SHELF));
    var added := Stamped(p, rows, id);
    forall e | e in added
      ensures e.date == 10 && e.occurredAt <= p.occurredAt && (e.dim.Inventory? ==> e.dim == SHELF)
    {
      var k :| 0 <= k < |added| && e == added[k];
      assert rows[k] in rows;
    }
  }

  lemma StampedLater(log: Log, p: Posting, rows: seq<Row>, id: Id, now: nat, stock: int, change: int)
    requires ShelfLog(log, now, stock) && ShelfRows(rows, p.doc, change) && p.occurredAt > now && !p.kind.OpeningEntry?
    requires forall r :: r in rows && r.dim.Inventory? ==> r.delta <= 0
    ensures Later(log, Stamped(p, rows, id))
    ensures forall e :: e in Stamped(p, rows, id) && e.dim.Inventory? ==> e.dim == SHELF && e.delta <= 0
  {
    hide Sum;
    var added := Stamped(p, rows, id);
    forall e | e in added
      ensures e.date == 10 && e.occurredAt == p.occurredAt && (e.dim.Inventory? ==> e.dim == SHELF && e.delta <= 0)
    {
      var k :| 0 <= k < |added| && e == added[k];
      assert rows[k] in rows;
    }
  }

  /** Taking out in time what is on the shelf is accepted. */
  lemma ShelfSuffices(
    log: Log, d: Document, p: Posting, rows: seq<Row>, id: Id, now: nat, stock: int, change: int)
    requires ShelfLog(log, now, stock) && ShelfRows(rows, p.doc, change) && p.occurredAt > now && stock + change >= 0
    requires GrownBy(log, d, 0, p, rows, id) && !HasNegativeTimeline(log)
    requires forall r :: r in rows && r.dim.Inventory? ==> r.delta <= 0
    ensures !HasNegativeTimeline(log + Stamped(p, rows, id))
  {
    hide HasNegativeTimeline, Sum, Later, Stamped, ShelfRows, DistinctIds;
    var added := Stamped(p, rows, id);
    ApartIsDistinct(log + added);
    ShelfGrows(log, p, rows, id, now, stock, change);
    StampedLater(log, p, rows, id, now, stock, change);
    LatestKeepsTimeline(log, added);
  }

  /** An active ledger opened with nothing, beside these documents. */
  ghost predicate Shop(s: State, documents: seq<Document>, now: nat, stock: int) {
    && Inv(s) && s.control.status.ActiveLedger? && s.control.revision == 3 && HasActive(s) && s.documents == documents
    && ActiveGeneration(s).cutover == 0 && ActiveGeneration(s).opening == []
    && ShelfLog(ActiveGeneration(s).entries, now, stock)
  }

  lemma UnitRowsShelved(d: Document)
    requires Unit(d)
    ensures ShelfRows(UnitRows(d), d.id, Flow(d))
  {
    var rows, weight := UnitRows(d), RowWeight(OfDim(SHELF), d.id);
    assert Sum(rows[..1], weight) == weight(rows[0]);
  }

  lemma UnitPosted(log: Log, d: Document, id: Id)
    requires WellFormed(d) && UnitExecuted(d) && Pairwise(log, Apart) && FreshPosting(log, PostingFor(d), id)
    ensures PostDocument(log, d, 0, true, id) == Ok(Posted(log + Stamped(PostingFor(d), UnitRows(d), id), id + 2))
    ensures GrownBy(log, d, 0, PostingFor(d), UnitRows(d), id)
  {
    hide DocumentRows, InsertRows, GrownBy, WellFormed, FreshPosting, Pairwise, SignedRow, Stamped;
    var rows := UnitRows(d);
    UnitPosts(d, true);
    DocumentRowsSound(d, 0, true);
    RevisionIsSet(d);
    forall r | r in rows
      ensures r.delta != 0
    {
      SignedIsNotZero(d.detail.Entity(), 0, r);
    }
    InsertRowsAppends(log, PostingFor(d), rows, id);
    StampedGrows(log, d, 0, rows, id);
  }

  lemma UnitKeepsTimeline(log: Log, d: Document, id: Id, now: nat, stock: int)
    requires UnitExecuted(d) && d.executedAt.value > now && stock + Flow(d) >= 0
    requires ShelfLog(log, now, stock) && !HasNegativeTimeline(log)
    requires GrownBy(log, d, 0, PostingFor(d), UnitRows(d), id)
    ensures !HasNegativeTimeline(log + Stamped(PostingFor(d), UnitRows(d), id))
  {
    hide HasNegativeTimeline, GrownBy, ShelfLog, ShelfRows, Stamped;
    UnitRowsShelved(d);
    if d.detail.Purchase? {
      IncomingStamped(log, d, 0, PostingFor(d), UnitRows(d), id);
    } else {
      ShelfSuffices(log, d, PostingFor(d), UnitRows(d), id, now, stock, Flow(d));
    }
  }

  /** `d` executed at `now`. */
  function Done(d: Document, now: nat): Document
    requires Unit(d) && ValidExecution(d, 10, UnitExecution(d))
  {
    ExecutedDocument(d, 10, UnitExecution(d), now)
  }

  /** A purchase, or a sale of what is on the shelf, is accepted. */
  lemma UnitAccepted(
    s: State, i: nat, lines: seq<LineExecution>, d: Document, now: nat, before: nat, stock: int)
    requires Shop(s, s.documents, before, stock) && i < |s.documents| && s.documents[i].status == Approved
    requires AttributesComplete(s.documents[i]) && ValidExecution(s.documents[i], 10, lines)
    requires d == ExecutedDocument(s.documents[i], 10, lines, now) && UnitExecuted(d)
    requires d.executedAt == Some(now) && now > before && stock + Flow(d) >= 0
    ensures Execute(s, i, s.documents[i].revision, 10, lines, now).Ok?
  {
    hide Inv, Execute, HasNegativeTimeline, GrownBy, PostDocument, DocumentRows, Unit, UnitRows, ShelfLog,
      ValidExecution, AttributesComplete, UnitExecuted, ExecutedDocument, FreshPosting, Pairwise, WellFormed, Stamped;
    ExecutionStarts(s, i, s.documents[i].revision, 10, lines, now);
    UnitPosted(ActiveGeneration(s).entries, d, s.nextId);
    UnitKeepsTimeline(ActiveGeneration(s).entries, d, s.nextId, before, stock);
  }

  lemma ShopAfter(
    s: State, i: nat, lines: seq<LineExecution>, d: Document, after: State, now: nat, before: nat, stock: int)
    requires Shop(s, s.documents, before, stock) && now > before
    requires i < |s.documents| && ValidExecution(s.documents[i], 10, lines)
    requires d == ExecutedDocument(s.documents[i], 10, lines, now) && UnitExecuted(d) && d.executedAt == Some(now)
    requires Execute(s, i, s.documents[i].revision, 10, lines, now) == Ok(after)
    ensures Shop(after, s.documents[i := d], now, stock + Flow(d))
  {
    hide Inv, Execute, HasNegativeTimeline, GrownBy, DocumentRows, Unit, UnitRows, ShelfLog, ValidExecution,
      LaterDocument, PostedNow, UnitExecuted, ExecutedDocument, Priced, Stamped;
    ExecuteForm(s, i, s.documents[i].revision, 10, lines, now);
    ExecuteKeepsInv(s, i, s.documents[i].revision, 10, lines, now);
    UnitPosts(d, false);
    UnitRowsShelved(d);
    ShelfGrows(ActiveGeneration(s).entries, PostingFor(d), UnitRows(d), s.nextId, before, stock, Flow(d));
  }

  lemma Executes(s: State, i: nat, now: nat, before: nat, stock: int)
    requires Shop(s, s.documents, before, stock) && now > before
    requires i < |s.documents| && Unit(s.documents[i]) && s.documents[i].status == Approved
    requires stock + Flow(s.documents[i]) >= 0
    ensures ValidExecution(s.documents[i], 10, UnitExecution(s.documents[i]))
    ensures var d := Done(s.documents[i], now);
            var after := Execute(s, i, s.documents[i].revision, 10, UnitExecution(s.documents[i]), now);
            after.Ok? && UnitExecuted(d) && Shop(after.value, s.documents[i := d], now, stock + Flow(d))
  {
    hide Execute, Unit, Shop, UnitExecution, ValidExecution, AttributesComplete, UnitExecuted, ExecutedLines;
    UnitIsValid(s.documents[i], now);
    var d := Done(s.documents[i], now);
    var lines := UnitExecution(s.documents[i]);
    UnitAccepted(s, i, lines, d, now, before, stock);
    var after := Execute(s, i, s.documents[i].revision, 10, lines, now).value;
    ShopAfter(s, i, lines, d, after, now, before, stock);
  }

  lemma ReversedOnShelf(log: Log, documents: seq<Document>, i: nat, id: Id, now: nat, stock: int, r: Row)
    requires DocumentsInv(documents) && LogInv(log, 0, documents, id) && i < |documents|
          && documents[i].detail.Purchase?
    requires ShelfLog(log, now, stock) && Negates(log, documents[i].id, NewestPosting(log, documents[i].id), r)
    ensures r.date == 10 && (r.dim.Inventory? ==> r.dim == SHELF && r.delta <= 0)
  {
    hide DocumentsInv, LogInv, Sum, NewestPosting;
    var doc := documents[i].id;
    var e :| e in log && IsPosting(e, doc) && e.revision == NewestPosting(log, doc)
        && r == RowOf(e).(delta := -e.delta);
    PostingSigned(log, 0, documents, i, e, id);
  }

  lemma ReversalShelved(log: Log, documents: seq<Document>, i: nat, id: Id, now: nat, stock: int)
    requires DocumentsInv(documents) && LogInv(log, 0, documents, id) && i < |documents|
    requires PostedNow(log, documents[i], 0) && UnitExecuted(documents[i]) && documents[i].detail.Purchase?
    requires ShelfLog(log, now, stock)
    ensures var rows := ReversalRows(log, documents[i].id);
            && ShelfRows(rows, documents[i].id, -MICROS)
            && forall r :: r in rows && r.dim.Inventory? ==> r.delta <= 0
    ensures HasEntriesForSource(log, documents[i].id)
  {
    hide DocumentsInv, LogInv, ReversalRows, UnitExecuted, Unit, DocumentRows, Sum, ShelfLog, Negates;
    var doc := documents[i].id;
    UnitPosts(documents[i], false);
    UnitRowsShelved(documents[i]);
    ReversalIsExact(log, 0, documents, i, id, OfDim(SHELF));
    LogIsApart(log, 0, documents, id);
    ReversalRowsFrom(log, doc);
    forall r | r in ReversalRows(log, doc)
      ensures r.date == 10 && (r.dim.Inventory? ==> r.dim == SHELF && r.delta <= 0)
    {
      ReversedOnShelf(log, documents, i, id, now, stock, r);
    }
    assert PostingsAt(log, doc, documents[i].revision)[0] in PostingsAt(log, doc, documents[i].revision);
  }

  /** Withdrawing a purchase while there is a unit on the shelf is accepted. */
  lemma Withdraws(s: State, i: nat, now: nat, before: nat, stock: int)
    requires Shop(s, s.documents, before, stock) && now > before && stock >= MICROS
    requires i < |s.documents| && IsExecuted(s.documents[i])
    requires UnitExecuted(s.documents[i]) && s.documents[i].detail.Purchase?
    ensures var d := UnexecutedDocument(s.documents[i], now);
            var after := Unexecute(s, i, s.documents[i].revision, now);
            after.Ok? && Shop(after.value, s.documents[i := d], now, stock - MICROS)
  {
    hide Unexecute, HasNegativeTimeline, GrownBy, InsertRows, ReversalRows, DocumentRows, UnitExecuted, ShelfLog,
      ShelfRows, LogInv, DocumentsInv, LaterDocument;
    var d := UnexecutedDocument(s.documents[i], now);
    var g, revision := ActiveGeneration(s), s.documents[i].revision;
    var rows := ReversalRows(g.entries, d.id);
    WithdrawalStarts(s, i, revision, now);
    ReversalShelved(g.entries, s.documents, i, s.nextId, before, stock);
    ReverseExtends(g.entries, 0, s.documents, i, now, s.nextId);
    ShelfSuffices(g.entries, d, ReversalFor(d, now), rows, s.nextId, before, stock, -MICROS);
    UnexecuteForm(s, i, revision, now);
    UnexecuteActiveKeepsInv(s, i, revision, now);
    ShelfGrows(g.entries, ReversalFor(d, now), rows, s.nextId, before, stock, -MICROS);
  }

  // ---------------------------------------------------------------- the run

  function UnitDocument(id: Id, detail: Detail): Document {
    Document(id, Approved, 3, 10, "CNY", 100, None, 0, true, detail, [Line(4, 7, MICROS, 100, None, None, None, None)])
  }

  const FIRST := UnitDocument(1, Purchase(2, Some(5), None))
  const SOLD := UnitDocument(2, Sale(3, Some(5), None))
  const SECOND := UnitDocument(3, Purchase(2, Some(5), None))

  const STALL := Deployed([FIRST, SOLD, SECOND])

  /** A unit comes in, goes out and comes in again; then the first purchase is withdrawn. */
  function Trading(): seq<Action> {
    Open() + [ExecuteAction(0, 3, 10, UnitExecution(FIRST), 20), ExecuteAction(1, 3, 10, UnitExecution(SOLD), 21),
              ExecuteAction(2, 3, 10, UnitExecution(SECOND), 22), UnexecuteAction(0, 4, 23)]
  }

  lemma UnitIsWellFormed(id: Id, detail: Detail)
    requires id != NO_ID
    ensures WellFormed(UnitDocument(id, detail))
  {
  }

  lemma StallIsInitial()
    ensures Initial(STALL)
  {
    hide WellFormed;
    UnitIsWellFormed(1, Purchase(2, Some(5), None));
    UnitIsWellFormed(2, Sale(3, Some(5), None));
    UnitIsWellFormed(3, Purchase(2, Some(5), None));
  }

  lemma StallOpens()
    ensures Initial(STALL) && Shop(Run(STALL, Open()), STALL.documents, 0, 0)
    ensures Step(Run(STALL, Open()[..0]), Open()[0]).Ok? && Step(Run(STALL, Open()[..1]), Open()[1]).Ok?
  {
    hide Run, Step, Inv, Initial, Open;
    StallIsInitial();
    assert forall d :: d in STALL.documents ==> d == FIRST || d == SOLD || d == SECOND;
    Opens(STALL.documents);
    RunKeepsInv(STALL, Open());
  }

  lemma TradingStarts()
    ensures Trading()[..0] == Open()[..0] && Trading()[..1] == Open()[..1] && Trading()[..2] == Open()
  {
    hide UnitExecution;
  }

  lemma ListsInOrder(gone: Document, sold: Document, second: Document)
    requires !IsExecuted(gone) && IsExecuted(sold) && IsExecuted(second)
    requires sold.executedAt.Some? && second.executedAt.Some? && sold.executedAt.value < second.executedAt.value
    ensures ListExecuted([gone, sold, second]) == [sold, second]
  {
    hide Filter, SortBy;
    var documents := [gone, sold, second];
    assert documents == [gone] + [sold, second];
    FilterAppend([gone], [sold, second], IsExecuted);
    FilterNone([gone], IsExecuted);
    FilterAll([sold, second], IsExecuted);
    assert Filter(documents, IsExecuted) == [sold, second];
    SortsTwo(sold, second);
  }

  lemma SortsTwo(sold: Document, second: Document)
    requires ExecutedNotAfter(sold, second)
    ensures SortBy(ExecutedNotAfter, [sold, second]) == [sold, second]
  {
    hide ExecutedNotAfter;
    assert [sold, second][1..] == [second] && [second][1..] == [];
    assert SortBy(ExecutedNotAfter, [second]) == [second];
    assert InsertSorted(ExecutedNotAfter, sold, [second]) == [sold] + [second];
  }

  /** The movements of the sale and of the purchase after it. */
  function TwoMoves(sold: Document, second: Document): seq<Move>
    requires Unit(sold) && Unit(second)
  {
    MovesOf(UnitRows(sold), OccurredAt(sold), 0) + MovesOf(UnitRows(second), OccurredAt(second), 2)
  }

  lemma MovesInOrder(sold: Document, second: Document)
    requires UnitExecuted(sold) && UnitExecuted(second)
    ensures Moves([sold, second], 0) == TwoMoves(sold, second)
  {
    hide DocumentRows, UnitExecuted, Unit, MovesOf, OccurredAt;
    UnitPosts(sold, false);
    UnitPosts(second, false);
    var first := MovesOf(UnitRows(sold), OccurredAt(sold), 0);
    assert [sold, second][..1] == [sold] && [sold][..0] == [];
    assert Moves([sold], 0) == [] + first == first;
    assert |Moves([sold], 0)| == 2;
    assert Moves([sold, second], 0) == first + MovesOf(UnitRows(second), OccurredAt(second), 2);
  }

  lemma ShelfIsEmptyAtSale(sold: Document, second: Document)
    requires UnitExecuted(sold) && sold.detail.Sale? && UnitExecuted(second)
    requires sold.executedAt.value < second.executedAt.value
    ensures var moves := TwoMoves(sold, second);
            moves[0].row.dim == SHELF && Sum(moves, MovedUpTo(moves[0])) == -MICROS
  {
    hide Sum;
    var moves := TwoMoves(sold, second);
    SumOnly(moves, 0, MovedUpTo(moves[0]));
  }

  /** What a rebuild has to post: the sale first, and nothing on the shelf before it. */
  lemma SaleComesFirst(gone: Document, sold: Document, second: Document)
    requires !IsExecuted(gone) && IsExecuted(sold) && IsExecuted(second)
    requires UnitExecuted(sold) && sold.detail.Sale? && UnitExecuted(second)
    requires sold.executedAt.value < second.executedAt.value
    ensures !StockSuffices([], [gone, sold, second], 0)
  {
    hide Unit, ListExecuted, Moves, MovedUpTo, MovesOf;
    ListsInOrder(gone, sold, second);
    MovesInOrder(sold, second);
    ShelfIsEmptyAtSale(sold, second);
    var moves := TwoMoves(sold, second);
    assert moves[0] in moves;
  }

  lemma TradeExecutes(k: nat, i: nat, documents: seq<Document>, now: nat, before: nat, stock: int)
    requires k < |Trading()| && Shop(Run(STALL, Trading()[..k]), documents, before, stock) && now > before
    requires i < |documents| && Unit(documents[i]) && documents[i].status == Approved && documents[i].revision == 3
    requires Trading()[k] == ExecuteAction(i, 3, 10, UnitExecution(documents[i]), now)
          && stock + Flow(documents[i]) >= 0
    ensures ValidExecution(documents[i], 10, UnitExecution(documents[i])) && UnitExecuted(Done(documents[i], now))
    ensures Step(Run(STALL, Trading()[..k]), Trading()[k]).Ok?
    ensures Shop(Run(STALL, Trading()[..k + 1]), documents[i := Done(documents[i], now)], now,
                 stock + Flow(documents[i]))
  {
    hide Run, Trading, Execute, ShelfLog, Inv, ValidExecution, UnitExecution, UnitExecuted, Unit, ExecutedLines;
    RunPrefix(STALL, Trading(), k);
    Executes(Run(STALL, Trading()[..k]), i, now, before, stock);
  }

  lemma TradeWithdraws(k: nat, documents: seq<Document>, now: nat, before: nat, stock: int)
    requires k < |Trading()| && Shop(Run(STALL, Trading()[..k]), documents, before, stock) && now > before
    requires |documents| > 0 && IsExecuted(documents[0]) && documents[0].revision == 4
    requires UnitExecuted(documents[0]) && documents[0].detail.Purchase?
    requires Trading()[k] == UnexecuteAction(0, 4, now) && stock >= MICROS
    ensures Step(Run(STALL, Trading()[..k]), Trading()[k]).Ok?
    ensures Shop(Run(STALL, Trading()[..k + 1]), documents[0 := UnexecutedDocument(documents[0], now)], now,
                 stock - MICROS)
  {
    hide Run, Trading, Unexecute, ShelfLog, Inv, UnitExecuted, UnexecutedDocument;
    RunPrefix(STALL, Trading(), k);
    Withdraws(Run(STALL, Trading()[..k]), 0, now, before, stock);
  }

  lemma DoneIs(d: Document, now: nat)
    requires Unit(d) && ValidExecution(d, 10, UnitExecution(d))
    ensures var after := Done(d, now);
            && IsExecuted(after) && after.revision == d.revision + 1 && after.executedAt == Some(now)
            && after.detail.Entity() == d.detail.Entity()
  {
    hide ValidExecution, ExecutedLines;
  }

  /** What the trading steps leave of the documents. */
  ghost predicate Traded(documents: seq<Document>) {
    && |documents| == 3 && !IsExecuted(documents[0]) && IsExecuted(documents[1]) && IsExecuted(documents[2])
    && UnitExecuted(documents[1]) && documents[1].detail.Sale? && UnitExecuted(documents[2])
    && documents[1].executedAt.value < documents[2].executedAt.value
  }

  /** Every trading step is accepted. */
  lemma Trades() returns (documents: seq<Document>)
    ensures Initial(STALL)
    ensures forall k :: 0 <= k < |Trading()| ==> Step(Run(STALL, Trading()[..k]), Trading()[k]).Ok?
    ensures Shop(Run(STALL, Trading()), documents, 23, 0) && Traded(documents)
  {
    hide Run, Step, Initial, Shop, ValidExecution, UnitExecution, UnexecutedDocument, UnitExecuted, Done;
    StallOpens();
    TradingStarts();
    TradeExecutes(2, 0, STALL.documents, 20, 0, 0);
    DoneIs(FIRST, 20);
    var bought := STALL.documents[0 := Done(FIRST, 20)];
    TradeExecutes(3, 1, bought, 21, 20, MICROS);
    DoneIs(SOLD, 21);
    var sold := bought[1 := Done(SOLD, 21)];
    TradeExecutes(4, 2, sold, 22, 21, 0);
    DoneIs(SECOND, 22);
    var full := sold[2 := Done(SECOND, 22)];
    TradeWithdraws(5, full, 23, 22, MICROS);
    WithdrawnIsNotExecuted(Done(FIRST, 20), 23);
    documents := full[0 := UnexecutedDocument(Done(FIRST, 20), 23)];
    assert Trading()[..6] == Trading();
  }

  /** A run of accepted steps to a live ledger that cannot be rebuilt: the sale used up the first purchase, and its
      withdrawal was accepted because a second purchase had come in meanwhile; replayed without the first purchase,
      the sale finds nothing on the shelf. */
  lemma RebuildCanBeRefused()
    ensures Initial(STALL)
    ensures forall k :: 0 <= k < |Trading()| ==> Step(Run(STALL, Trading()[..k]), Trading()[k]).Ok?
    ensures var live := Run(STALL, Trading());
            Reopen(live, 3).Ok? && Activate(Reopen(live, 3).value, 4).Err?
  {
    hide Run, Step, Inv, Activate, StockSuffices, UnitExecuted, ShelfLog;
    var documents := Trades();
    RebuildExactly(Run(STALL, Trading()), 3);
    assert documents == [documents[0], documents[1], documents[2]];
    SaleComesFirst(documents[0], documents[1], documents[2]);
  }
}
