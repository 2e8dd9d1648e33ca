/** The ledger service as it runs: tables updated in place, rolled back as a whole when a step is refused. */
module LedService {
  import opened Results
  import opened Sequences
  import opened LedModel
  import opened LedLog
  import opened LedTimeline
  import opened LedOpening
  import opened LedMachine
  import opened LedInvariant
  import opened LedPreservation

  // ------------------------------------------------------------ validation

  /** `validateSave`: the sets of seen dimensions refuse a second row for any of them. */
  method ValidateSave(items: seq<OpeningItem>) returns (ok: bool)
    ensures ok <==> ValidItems(items)
  {
    hide ValidItem, DimensionOf;
    if !WithinLimits(ItemKeys(items)) {
      return false;
    }
    var seen: set<Dimension> := {};
    for k := 0 to |items|
      invariant forall i :: 0 <= i < k ==> ValidItem(items[i])
      invariant forall i, j :: 0 <= i < j < k ==> DimensionOf(items[i].key) != DimensionOf(items[j].key)
      invariant forall d :: d in seen <==> exists i :: 0 <= i < k && DimensionOf(items[i].key) == d
    {
      if !ValidItem(items[k]) || DimensionOf(items[k].key) in seen {
        return false;
      }
      seen := seen + {DimensionOf(items[k].key)};
    }
    return true;
  }

  /** `maxSourceRevision`: a running maximum over the rows listed from the three tables. */
  method MaxSourceRevision(inventory: Log, fund: Log, party: Log) returns (newest: nat)
    ensures newest == Max(Max(MaxRevision(inventory), MaxRevision(fund)), MaxRevision(party))
  {
    newest := 0;
    for k := 0 to |inventory|
      invariant newest == MaxRevision(inventory[..k])
    {
      assert inventory[..k + 1][..k] == inventory[..k];
      if inventory[k].revision > newest {
        newest := inventory[k].revision;
      }
    }
    assert inventory[..|inventory|] == inventory;
    for k := 0 to |fund|
      invariant newest == Max(MaxRevision(inventory), MaxRevision(fund[..k]))
    {
      assert fund[..k + 1][..k] == fund[..k];
      if fund[k].revision > newest {
        newest := fund[k].revision;
      }
    }
    assert fund[..|fund|] == fund;
    for k := 0 to |party|
      invariant newest == Max(Max(MaxRevision(inventory), MaxRevision(fund)), MaxRevision(party[..k]))
    {
      assert party[..k + 1][..k] == party[..k];
      if party[k].revision > newest {
        newest := party[k].revision;
      }
    }
    assert party[..|party|] == party;
  }

  // ------------------------------------------------- how the loops progress

  /** The lines before `k` have been posted, and nothing else. */
  ghost predicate PostedUpTo(before: Log, first: Id, d: Document, scope: Scope, k: nat, entries: Log, nextId: Id)
    requires d.detail.HasLines() && k <= |d.lines|
  {
    && LinesRows(d, scope, d.lines[..k]).Ok?
    && var rows := LinesRows(d, scope, d.lines[..k]).value;
       InsertRows(before, PostingFor(d), rows, first) == Ok(entries) && nextId == first + |rows|
  }

  /** One line more: `rows` are its rows and `after` the log with them. */
  lemma PostedStep(before: Log, first: Id, d: Document, scope: Scope, k: nat, entries: Log, nextId: Id, rows: seq<Row>,
      after: Log)
    requires d.detail.HasLines() && k < |d.lines| && PostedUpTo(before, first, d, scope, k, entries, nextId)
    requires LineRows(d, scope, d.lines[k]) == Ok(rows)
    requires InsertRows(entries, PostingFor(d), rows, nextId) == Ok(after)
    ensures PostedUpTo(before, first, d, scope, k + 1, after, nextId + |rows|)
  {
    hide LineRows;
    assert d.lines[..k + 1][..k] == d.lines[..k];
    InsertRowsPrefix(before, PostingFor(d), LinesRows(d, scope, d.lines[..k]).value, rows, first);
  }

  /** The rows exist and can all be inserted. */
  ghost predicate CanInsert(log: Log, p: Posting, rows: Result<seq<Row>>, id: Id) {
    rows.Ok? && InsertRows(log, p, rows.value, id).Ok?
  }

  lemma InsertNone(log: Log, p: Posting, id: Id)
    ensures InsertRows(log, p, [], id) == Ok(log)
  {
  }

  lemma {:induction false} LinesRowsUpTo(d: Document, scope: Scope, lines: seq<Line>, k: nat) returns (rest: seq<Row>)
    requires d.detail.HasLines() && k < |lines| && LinesRows(d, scope, lines).Ok?
    ensures LinesRows(d, scope, lines[..k]).Ok? && LineRows(d, scope, lines[k]).Ok?
    ensures LinesRows(d, scope, lines).value
         == LinesRows(d, scope, lines[..k]).value + LineRows(d, scope, lines[k]).value + rest
  {
    hide LineRows;
    if k == |lines| - 1 {
      rest := [];
    } else {
      var front := lines[..|lines| - 1];
      rest := LinesRowsUpTo(d, scope, front, k);
      assert front[..k] == lines[..k];
      rest := rest + LineRows(d, scope, lines[|lines| - 1]).value;
    }
  }

  /** A line whose rows are invalid or cannot be inserted makes the whole document impossible to post. */
  lemma PostedFails(before: Log, first: Id, d: Document, scope: Scope, k: nat, entries: Log, nextId: Id)
    requires d.detail.HasLines() && k < |d.lines| && PostedUpTo(before, first, d, scope, k, entries, nextId)
    requires !CanInsert(entries, PostingFor(d), LineRows(d, scope, d.lines[k]), nextId)
    ensures !CanInsert(before, PostingFor(d), LinesRows(d, scope, d.lines), first)
  {
    hide LineRows;
    if LinesRows(d, scope, d.lines).Ok? {
      var rest := LinesRowsUpTo(d, scope, d.lines, k);
      var front, rows := LinesRows(d, scope, d.lines[..k]).value, LineRows(d, scope, d.lines[k]).value;
      InsertRowsPrefix(before, PostingFor(d), front, rows, first);
      InsertRowsPrefix(before, PostingFor(d), front + rows, rest, first);
    }
  }

  lemma InsertOne(log: Log, p: Posting, row: Row, id: Id)
    ensures InsertRows(log, p, [row], id) == Insert(log, EntryOf(p, row, id))
  {
    assert [row][..0] == [];
    assert InsertRows(log, p, [row][..0], id) == Ok(log);
  }

  lemma {:induction false} LinesRowsConflict(d: Document, scope: Scope, lines: seq<Line>)
    requires d.detail.HasLines() && LinesRows(d, scope, lines).Err?
    ensures LinesRows(d, scope, lines).failure == Conflict
  {
    var n := |lines| - 1;
    if LinesRows(d, scope, lines[..n]).Err? {
      LinesRowsConflict(d, scope, lines[..n]);
    }
  }

  lemma {:induction false} InsertRowsConflict(log: Log, p: Posting, rows: seq<Row>, id: Id)
    requires InsertRows(log, p, rows, id).Err?
    ensures InsertRows(log, p, rows, id).failure == Conflict
  {
    if InsertRows(log, p, rows[..|rows| - 1], id).Err? {
      InsertRowsConflict(log, p, rows[..|rows| - 1], id);
    }
  }

  /** Whatever stops a posting is a conflict. */
  lemma PostDocumentConflict(entries: Log, d: Document, cutover: nat, live: bool, id: Id)
    requires PostDocument(entries, d, cutover, live, id).Err?
    ensures PostDocument(entries, d, cutover, live, id).failure == Conflict
  {
    hide LinesRows, InsertRows;
    if DocumentRows(d, cutover, live).Ok? {
      InsertRowsConflict(entries, PostingFor(d), DocumentRows(d, cutover, live).value, id);
    } else if EffectScope(d, cutover, live).Ok? {
      LinesRowsConflict(d, EffectScope(d, cutover, live).value, d.lines);
    }
  }

  lemma {:induction false} ReplayConflict(entries: Log, documents: seq<Document>, cutover: nat, id: Id)
    requires ReplayDocuments(entries, documents, cutover, id).Err?
    ensures ReplayDocuments(entries, documents, cutover, id).failure == Conflict
  {
    hide PostDocument;
    var front, last := documents[..|documents| - 1], documents[|documents| - 1];
    if ReplayDocuments(entries, front, cutover, id).Err? {
      ReplayConflict(entries, front, cutover, id);
    } else {
      var before := ReplayDocuments(entries, front, cutover, id).value;
      PostDocumentConflict(before.entries, last, cutover, false, before.nextId);
    }
  }

  lemma {:induction false} ReplayStops(entries: Log, documents: seq<Document>, cutover: nat, id: Id, k: nat)
    requires k <= |documents| && ReplayDocuments(entries, documents[..k], cutover, id).Err?
    ensures ReplayDocuments(entries, documents, cutover, id).Err?
    decreases |documents|
  {
    hide PostDocument;
    if k < |documents| {
      var front := documents[..|documents| - 1];
      assert front[..k] == documents[..k];
      ReplayStops(entries, front, cutover, id, k);
    } else {
      assert documents[..k] == documents;
    }
  }

  lemma IdsAreIssued(s: State)
    requires Inv(s)
    ensures forall g :: g in s.generations ==> g < s.nextId
    ensures s.control.activeGeneration.Some? ==> s.control.activeGeneration.value < s.nextId
  {
    hide GenerationInv, DocumentsInv, ValidDraft;
  }

  /** Archiving the old generation before or after inserting the new one makes no difference. */
  lemma ArchivedAfterInsert(s: State, g: Id, generation: Generation)
    requires s.control.activeGeneration != Some(g)
    ensures forall t: State :: t.control == s.control && t.generations == s.generations[g := generation] ==>
              Archived(t) == Archived(s)[g := generation]
  {
  }

  lemma ReplayNone(entries: Log, cutover: nat, id: Id)
    ensures ReplayDocuments(entries, [], cutover, id) == Ok(Posted(entries, id))
  {
  }

  lemma ReplaySnoc(entries: Log, documents: seq<Document>, cutover: nat, id: Id, k: nat)
    requires k < |documents| && ReplayDocuments(entries, documents[..k], cutover, id).Ok?
    ensures var before := ReplayDocuments(entries, documents[..k], cutover, id).value;
            ReplayDocuments(entries, documents[..k + 1], cutover, id)
            == LedMachine.PostDocument(before.entries, documents[k], cutover, false, before.nextId)
  {
    hide LedMachine.PostDocument;
    assert documents[..k + 1][..k] == documents[..k];
  }

  lemma HandleExecutedRejects(s: State, d: Document)
    ensures HandleExecuted(s, d).Err? ==> HandleExecuted(s, d).failure == Rejected
  {
    hide LedMachine.PostDocument, HasNegativeTimeline;
  }

  lemma HandleUnexecutedRejects(s: State, doc: Id, revision: nat, now: nat)
    ensures HandleUnexecuted(s, doc, revision, now).Err? ==> HandleUnexecuted(s, doc, revision, now).failure == Rejected
  {
    hide InsertRows, ReversalRows, HasNegativeTimeline;
  }

  /** The `oldByKey` map of a replace loop. */
  method OldByKey(stored: seq<OpeningRow>) returns (oldByKey: map<Key, OpeningRow>)
    ensures forall key :: FindOld(stored, key) == if key in oldByKey then Some(oldByKey[key]) else None
  {
    oldByKey := map[];
    for k := 0 to |stored|
      invariant forall key :: FindOld(stored[..k], key) == if key in oldByKey then Some(oldByKey[key]) else None
    {
      assert stored[..k + 1][..k] == stored[..k];
      oldByKey := oldByKey[stored[k].key := stored[k]];
    }
    assert stored[..|stored|] == stored;
  }

  /** One item more: either the draft grows by its row, or the whole replacement fails. */
  lemma ReplaceStep(stored: seq<OpeningRow>, items: seq<OpeningItem>, effective: map<Key, Snapshot>, first: Id, k: nat)
    requires k < |items| && ReplaceOpening(stored, items[..k], effective, first).Ok?
    ensures ReplaceItem(stored, items[k], effective, first + k).Ok?
        ==> ReplaceOpening(stored, items[..k + 1], effective, first)
            == Ok(ReplaceOpening(stored, items[..k], effective, first).value
                  + [ReplaceItem(stored, items[k], effective, first + k).value])
    ensures ReplaceItem(stored, items[k], effective, first + k).Err?
        ==> ReplaceOpening(stored, items, effective, first) == Err(Conflict)
  {
    hide FindOld;
    assert items[..k + 1][..k] == items[..k];
    if ReplaceItem(stored, items[k], effective, first + k).Err? {
      ReplaceStops(stored, items, effective, first, k + 1);
    }
  }

  lemma {:induction false} ReplaceStops(
    stored: seq<OpeningRow>, items: seq<OpeningItem>, effective: map<Key, Snapshot>, first: Id, k: nat)
    requires k <= |items| && ReplaceOpening(stored, items[..k], effective, first) == Err(Conflict)
    ensures ReplaceOpening(stored, items, effective, first) == Err(Conflict)
    decreases |items|
  {
    hide FindOld;
    if k < |items| {
      assert items[..|items| - 1][..k] == items[..k];
      ReplaceStops(stored, items[..|items| - 1], effective, first, k);
    } else {
      assert items[..k] == items;
    }
  }

  /** `preflightActivation`: looks for an intermediary sale with an unpriced line. */
  method PreflightActivation(documents: seq<Document>, cutover: nat) returns (ok: bool)
    ensures ok <==> PricesComplete(documents, cutover)
  {
    for k := 0 to |documents|
      invariant PricesComplete(documents[..k], cutover)
    {
      var d := documents[k];
      assert d in documents;
      if d.detail.IntermediarySale? && d.businessDate >= cutover {
        for j := 0 to |d.lines|
          invariant forall line :: line in d.lines[..j] ==> line.purchaseUnitPrice.Some?
        {
          assert d.lines[j] in d.lines;
          if d.lines[j].purchaseUnitPrice.None? {
            return false;
          }
        }
        assert d.lines[..|d.lines|] == d.lines;
      }
      assert documents[..k + 1] == documents[..k] + [d];
    }
    assert documents[..|documents|] == documents;
    return true;
  }

  // ------------------------------------------------------------ the service

  /** The state after a transaction: its result, or the state it was rolled back to. */
  ghost function Committed(s: State, r: Result<State>): State {
    if r.Ok? then r.value else s
  }

  class Ledger {
    var control: Control
    var generations: map<Id, Generation>
    var draft: seq<OpeningRow>
    var documents: seq<Document>
    var nextId: Id

    ghost function State(): State
      reads this
    {
      LedMachine.State(control, generations, draft, documents, nextId)
    }

    /** The invariant of `LedInvariant`, which every transaction keeps. */
    ghost predicate Valid()
      reads this
    {
      Inv(State())
    }

    /** The tables as the migrations create them, beside the documents that exist already. */
    constructor (existing: seq<Document>)
      requires DocumentsInv(existing)
      ensures Initial(State()) && documents == existing && Valid()
    {
      control := Control(DraftLedger, None, None, 1);
      generations := map[];
      draft := [];
      documents := existing;
      nextId := 1;
    }

    method Rollback(c: Control, g: map<Id, Generation>, dr: seq<OpeningRow>, ds: seq<Document>, id: Id)
      modifies this
      ensures State() == LedMachine.State(c, g, dr, ds, id)
    {
      control, generations, draft, documents, nextId := c, g, dr, ds, id;
    }

    // ------------------------------------------------------------ postings

    /** Inserts one row with a new id. */
    method InsertEntry(g: Id, p: Posting, row: Row) returns (ok: bool)
      requires g in generations
      modifies this`generations, this`nextId
      ensures ok <==> InsertRows(old(generations)[g].entries, p, [row], old(nextId)).Ok?
      ensures ok ==> PostedRows(g, p, [row])
    {
      var e := EntryOf(p, row, nextId);
      InsertOne(generations[g].entries, p, row, nextId);
      nextId := nextId + 1;
      if e.delta == 0 {
        return false;
      }
      var entries := generations[g].entries;
      if !exists x :: x in entries && Collide(x, e) {
        generations := generations[g := generations[g].(entries := entries + [e])];
      }
      return true;
    }

    /** The effect of posting rows of `d` on generation `g`. */
    twostate predicate PostedRows(g: Id, p: Posting, rows: seq<Row>)
      requires old(g in generations)
      reads this
    {
      && InsertRows(old(generations)[g].entries, p, rows, old(nextId)).Ok?
      && generations == old(generations)[g := old(generations)[g].(entries :=
           InsertRows(old(generations)[g].entries, p, rows, old(nextId)).value)]
      && nextId == old(nextId) + |rows|
    }

    /** One iteration of `postSale`. */
    method PostSaleLine(g: Id, d: Document, scope: Scope, line: Line) returns (ok: bool)
      requires g in generations && d.detail.Sale?
      modifies this`generations, this`nextId
      ensures ok <==> CanInsert(old(generations)[g].entries, PostingFor(d), SaleLineRows(d, scope, line), old(nextId))
      ensures ok ==> PostedRows(g, PostingFor(d), SaleLineRows(d, scope, line).value)
    {
      hide InsertRows, LineAmountCents;
      ghost var entries, id, posted := generations[g].entries, nextId, [];
      InsertNone(entries, PostingFor(d), id);
      assert generations == generations[g := generations[g].(entries := entries)];
      if scope.inventory {
        if line.outbound.None? || d.detail.warehouse.None? || d.detail.outboundDate.None? {
          return false;
        }
        var stock := Row(line.id, d.detail.outboundDate.value,
                         Inventory(d.detail.warehouse.value, line.product), -line.outbound.value);
        ok := InsertEntry(g, PostingFor(d), stock);
        posted := [stock];
        if !ok {
          FirstInsertFails(entries, PostingFor(d), stock, SaleLineRows(d, scope, line), id);
          return false;
        }
      }
      if scope.party && line.signed.Some? && line.signed.value > 0 {
        var amount := LineAmountCents(line.signed.value, line.unitPrice);
        if amount.None? {
          return false;
        }
        var receivable :=
            Row(line.id, d.businessDate, Counterparty(Customer, d.detail.customer, d.currency), amount.value);
        InsertRowsPrefix(entries, PostingFor(d), posted, [receivable], id);
        assert SaleLineRows(d, scope, line).value == posted + [receivable];
        ok := InsertEntry(g, PostingFor(d), receivable);
        return ok;
      }
      assert SaleLineRows(d, scope, line).value == posted;
      return true;
    }

    /** One iteration of `postPurchase`. */
    method PostPurchaseLine(g: Id, d: Document, scope: Scope, line: Line) returns (ok: bool)
      requires g in generations && d.detail.Purchase?
      modifies this`generations, this`nextId
      ensures ok
         <==> CanInsert(old(generations)[g].entries, PostingFor(d), PurchaseLineRows(d, scope, line), old(nextId))
      ensures ok ==> PostedRows(g, PostingFor(d), PurchaseLineRows(d, scope, line).value)
    {
      hide InsertRows, LineAmountCents;
      ghost var entries, id, posted := generations[g].entries, nextId, [];
      InsertNone(entries, PostingFor(d), id);
      assert generations == generations[g := generations[g].(entries := entries)];
      if line.inbound.None? {
        return false;
      }
      if scope.inventory {
        if d.detail.warehouse.None? || d.detail.inboundDate.None? {
          return false;
        }
        var stock := Row(line.id, d.detail.inboundDate.value,
                         Inventory(d.detail.warehouse.value, line.product), line.inbound.value);
        ok := InsertEntry(g, PostingFor(d), stock);
        posted := [stock];
        if !ok {
          FirstInsertFails(entries, PostingFor(d), stock, PurchaseLineRows(d, scope, line), id);
          return false;
        }
      }
      if scope.party {
        var amount := LineAmountCents(line.inbound.value, line.unitPrice);
        if amount.None? {
          return false;
        }
        var payable :=
            Row(line.id, d.businessDate, Counterparty(Supplier, d.detail.supplier, d.currency), -amount.value);
        InsertRowsPrefix(entries, PostingFor(d), posted, [payable], id);
        assert PurchaseLineRows(d, scope, line).value == posted + [payable];
        ok := InsertEntry(g, PostingFor(d), payable);
        return ok;
      }
      assert PurchaseLineRows(d, scope, line).value == posted;
      return true;
    }

    /** One iteration of `postIntermediarySale`. */
    method PostIntermediaryLine(g: Id, d: Document, scope: Scope, line: Line) returns (ok: bool)
      requires g in generations && d.detail.IntermediarySale?
      modifies this`generations, this`nextId
      ensures ok
         <==> CanInsert(old(generations)[g].entries, PostingFor(d), IntermediaryLineRows(d, scope, line),
                old(nextId))
      ensures ok ==> PostedRows(g, PostingFor(d), IntermediaryLineRows(d, scope, line).value)
    {
      hide InsertRows, LineAmountCents;
      ghost var entries, id := generations[g].entries, nextId;
      InsertNone(entries, PostingFor(d), id);
      assert generations == generations[g := generations[g].(entries := entries)];
      if !scope.party || line.signed.None? || line.signed.value == 0 {
        return true;
      }
      if line.purchaseUnitPrice.None? {
        return false;
      }
      var sale := LineAmountCents(line.signed.value, line.unitPrice);
      var purchase := LineAmountCents(line.signed.value, line.purchaseUnitPrice.value);
      if sale.None? || purchase.None? {
        return false;
      }
      var receivable := Row(line.id, d.businessDate, Counterparty(Customer, d.detail.customer, d.currency), sale.value);
      var payable :=
          Row(line.id, d.businessDate, Counterparty(Supplier, d.detail.supplier, d.currency), -purchase.value);
      assert IntermediaryLineRows(d, scope, line).value == [receivable] + [payable];
      InsertRowsPrefix(entries, PostingFor(d), [receivable], [payable], id);
      ok := InsertEntry(g, PostingFor(d), receivable);
      if ok {
        ok := InsertEntry(g, PostingFor(d), payable);
      }
    }

    /** The loop over the product lines of a document. */
    method PostLines(g: Id, d: Document, scope: Scope) returns (ok: bool)
      requires g in generations && d.detail.HasLines()
      modifies this`generations, this`nextId
      ensures ok <==> CanInsert(old(generations)[g].entries, PostingFor(d), LinesRows(d, scope, d.lines), old(nextId))
      ensures ok ==> PostedRows(g, PostingFor(d), LinesRows(d, scope, d.lines).value)
    {
      hide SaleLineRows, PurchaseLineRows, IntermediaryLineRows;
      ghost var before, first := generations[g].entries, nextId;
      for k := 0 to |d.lines|
        invariant g in generations
            && generations == old(generations)[g := old(generations)[g].(entries := generations[g].entries)]
        invariant PostedUpTo(before, first, d, scope, k, generations[g].entries, nextId)
      {
        ghost var entries, id := generations[g].entries, nextId;
        if d.detail.Sale? {
          ok := PostSaleLine(g, d, scope, d.lines[k]);
        } else if d.detail.Purchase? {
          ok := PostPurchaseLine(g, d, scope, d.lines[k]);
        } else {
          ok := PostIntermediaryLine(g, d, scope, d.lines[k]);
        }
        if !ok {
          PostedFails(before, first, d, scope, k, entries, id);
          return false;
        }
        PostedStep(before, first, d, scope, k, entries, id, LineRows(d, scope, d.lines[k]).value,
            generations[g].entries);
      }
      assert d.lines[..|d.lines|] == d.lines;
      return true;
    }

    /** Receipts, payments, expenses and other incomes: one fund row, and a party row for the first two. */
    method PostMoney(g: Id, d: Document) returns (ok: bool)
      requires g in generations && !d.detail.HasLines()
      modifies this`generations, this`nextId
      ensures ok <==> InsertRows(old(generations)[g].entries, PostingFor(d), HeaderRows(d), old(nextId)).Ok?
      ensures ok ==> PostedRows(g, PostingFor(d), HeaderRows(d))
    {
      var p := PostingFor(d);
      var incoming := d.detail.Receipt? || d.detail.OtherIncome?;
      var fund :=
          Row(NO_ID, d.businessDate, Fund(d.detail.account, d.currency), (if incoming then 1 else -1) * d.total);
      ghost var entries, id := generations[g].entries, nextId;
      if d.detail.Receipt? || d.detail.Payment? {
        var party :=
          Row(NO_ID, d.businessDate, Counterparty(d.detail.counterparty.kind, d.detail.counterparty.id, d.currency),
                         (if incoming then -1 else 1) * d.total);
        assert HeaderRows(d) == [fund] + [party];
        InsertRowsPrefix(entries, p, [fund], [party], id);
        ok := InsertEntry(g, p, fund);
        if ok {
          ok := InsertEntry(g, p, party);
        }
      } else {
        assert HeaderRows(d) == [fund];
        ok := InsertEntry(g, p, fund);
      }
    }

    /** `postDocument`: dispatches on the entity. */
    method PostDocument(g: Id, d: Document, cutover: nat, live: bool) returns (ok: bool)
      requires g in generations
      modifies this`generations, this`nextId
      ensures ok <==> LedMachine.PostDocument(old(generations)[g].entries, d, cutover, live, old(nextId)).Ok?
      ensures ok ==> var posted :=
            LedMachine.PostDocument(old(generations)[g].entries, d, cutover, live, old(nextId)).value;
                     && generations == old(generations)[g := old(generations)[g].(entries := posted.entries)]
                     && nextId == posted.nextId
    {
      var scope := EffectScope(d, cutover, live);
      if scope.Err? {
        return false;
      }
      if d.detail.HasLines() {
        ok := PostLines(g, d, scope.value);
      } else if scope.value.party {
        ok := PostMoney(g, d);
      } else {
        assert generations == generations[g := generations[g].(entries := generations[g].entries)];
        ok := true;
      }
    }

    // ------------------------------------------------------------ reversal

    /** One reverse loop: rows of other revisions are skipped, the others are inserted negated. */
    method ReverseEntries(g: Id, listed: Log, revision: nat, p: Posting) returns (ok: bool)
      requires g in generations
      modifies this`generations, this`nextId
      ensures ok <==> CanInsert(old(generations)[g].entries, p, Ok(ReversedIn(listed, revision)), old(nextId))
      ensures ok ==> PostedRows(g, p, ReversedIn(listed, revision))
    {
      hide InsertRows, ReversedIn;
      ghost var before, first := generations[g].entries, nextId;
      ReversedNone(revision);
      InsertNone(before, p, first);
      for k := 0 to |listed|
        invariant g in generations
            && generations == old(generations)[g := old(generations)[g].(entries := generations[g].entries)]
        invariant InsertRows(before, p, ReversedIn(listed[..k], revision), first) == Ok(generations[g].entries)
        invariant nextId == first + |ReversedIn(listed[..k], revision)|
      {
        var row := listed[k];
        ReversedSnoc(listed, k, revision);
        if row.revision == revision {
          var negated := Row(row.line, row.date, row.dim, -row.delta);
          InsertRowsPrefix(before, p, ReversedIn(listed[..k], revision), [negated], first);
          var inserted := InsertEntry(g, p, negated);
          if !inserted {
            ReversedStops(before, p, listed, k + 1, revision, first);
            return false;
          }
        }
      }
      assert listed[..|listed|] == listed;
      return true;
    }

    /** `reverseDocumentEntries`: the three loops over the newest revision the three tables hold. */
    method ReverseDocumentEntries(g: Id, p: Posting) returns (ok: bool)
      requires g in generations
      modifies this`generations, this`nextId
      ensures ok
         <==> CanInsert(old(generations)[g].entries, p, Ok(ReversalRows(old(generations)[g].entries, p.doc)),
                old(nextId))
      ensures ok ==> PostedRows(g, p, ReversalRows(old(generations)[g].entries, p.doc))
    {
      hide InsertRows, ReversedIn, PostingsIn, MaxRevision;
      ghost var before, first := generations[g].entries, nextId;
      var inventory := PostingsIn(generations[g].entries, p.doc, InventoryTable);
      var fund := PostingsIn(generations[g].entries, p.doc, FundTable);
      var party := PostingsIn(generations[g].entries, p.doc, PartyTable);
      var revision := MaxSourceRevision(inventory, fund, party);
      ghost var a, b, c := ReversedIn(inventory, revision), ReversedIn(fund, revision), ReversedIn(party, revision);
      InsertRowsPrefix(before, p, a, b, first);
      InsertRowsPrefix(before, p, a + b, c, first);
      ok := ReverseEntries(g, inventory, revision, p);
      if ok {
        ok := ReverseEntries(g, fund, revision, p);
      }
      if ok {
        ok := ReverseEntries(g, party, revision, p);
      }
    }

    // ------------------------------------------------------- transactions

    /** How a transaction ended: the tables hold the result of the step, or what they held before it. */
    ghost predicate Ended(before: State, r: Result<State>, failure: Option<Failure>)
      reads this
    {
      && State() == Committed(before, r)
      && failure == (if r.Ok? then None else Some(r.failure))
    }

    /** Clears the draft and fills it again, row by row. */
    method ReplaceDraft(items: seq<OpeningItem>, effective: map<Key, Snapshot>) returns (ok: bool)
        modifies this`draft, this`nextId
      ensures ReplaceOpening(old(draft), items, effective, old(nextId))
           == if ok then Ok(draft) else Err(Conflict)
      ensures ok ==> nextId == old(nextId) + |items|
    {
      hide FindOld;
      var stored, first := draft, nextId;
      var oldByKey := OldByKey(stored);
      draft := [];
      for k := 0 to |items|
        invariant ReplaceOpening(stored, items[..k], effective, first) == Ok(draft) && nextId == first + k
      {
        ReplaceStep(stored, items, effective, first, k);
        var key, amount := items[k].key, SignedAmount(items[k]);
        if key in oldByKey {
          draft := draft + [oldByKey[key].(amount := amount)];
        } else if key in effective {
          draft := draft + [OpeningRow(nextId, key, effective[key], amount)];
        } else {
          return false;
        }
        nextId := nextId + 1;
      }
      assert items[..|items|] == items;
      return true;
    }

    method SaveOpening(revision: nat, cutover: Option<nat>, items: seq<OpeningItem>, effective: map<Key, Snapshot>)
      returns (failure: Option<Failure>)
      requires Valid()
      modifies this
      ensures Valid()
      ensures Ended(old(State()), LedMachine.SaveOpening(old(State()), revision, cutover, items, effective), failure)
    {
      hide Inv, ReplaceOpening, WithinLimits;
      StepKeepsInv(State(), SaveOpeningAction(revision, cutover, items, effective));
      var valid := ValidateSave(items);
      if revision < 1 || cutover.None? || !valid {
        return Some(Validation);
      }
      if control.revision != revision || control.status.ActiveLedger? {
        return Some(Conflict);
      }
      var stored, first := draft, nextId;
      var ok := ReplaceDraft(items, effective);
      if !ok {
        draft, nextId := stored, first;
        return Some(Conflict);
      }
      control := control.(cutover := cutover, revision := revision + 1);
      return None;
    }

    method Reopen(revision: nat) returns (failure: Option<Failure>)
      requires Valid()
      modifies this
      ensures Valid()
      ensures Ended(old(State()), LedMachine.Reopen(old(State()), revision), failure)
    {
      hide Inv;
      StepKeepsInv(State(), ReopenAction(revision));
      if revision < 1 {
        return Some(Validation);
      }
      if !control.status.ActiveLedger? || control.revision != revision || control.activeGeneration.None?
         || control.activeGeneration.value !in generations {
        return Some(Conflict);
      }
      draft := [];
      draft := draft + generations[control.activeGeneration.value].opening;
      control := control.(status := ReopeningLedger, revision := revision + 1);
      assert State() == Next(old(State()), ReopenAction(revision));
      return None;
    }

    method CancelReopen(revision: nat) returns (failure: Option<Failure>)
      requires Valid()
      modifies this
      ensures Valid()
      ensures Ended(old(State()), LedMachine.CancelReopen(old(State()), revision), failure)
    {
      hide Inv;
      StepKeepsInv(State(), CancelReopenAction(revision));
      if revision < 1 {
        return Some(Validation);
      }
      if !control.status.ReopeningLedger? || control.revision != revision || control.activeGeneration.None?
         || control.activeGeneration.value !in generations {
        return Some(Conflict);
      }
      var cutover := generations[control.activeGeneration.value].cutover;
      control := control.(status := ActiveLedger, cutover := Some(cutover), revision := revision + 1);
      draft := [];
      return None;
    }

    /** `replayVouDocuments`: posts the executed documents one after the other, skipping what is before the cutover. */
    method ReplayVouDocuments(g: Id, listed: seq<Document>, cutover: nat) returns (ok: bool)
      requires g in generations
      modifies this`generations, this`nextId
      ensures ok <==> ReplayDocuments(old(generations)[g].entries, listed, cutover, old(nextId)).Ok?
      ensures ok ==> var posted := ReplayDocuments(old(generations)[g].entries, listed, cutover, old(nextId)).value;
                     && generations == old(generations)[g := old(generations)[g].(entries := posted.entries)]
                     && nextId == posted.nextId
    {
      hide ReplayDocuments, LedMachine.PostDocument;
      ghost var opening, first := generations[g].entries, nextId;
      assert listed[..0] == [];
      ReplayNone(opening, cutover, first);
      for k := 0 to |listed|
        invariant g in generations
            && generations == old(generations)[g := old(generations)[g].(entries := generations[g].entries)]
        invariant ReplayDocuments(opening, listed[..k], cutover, first) == Ok(Posted(generations[g].entries, nextId))
      {
        ReplaySnoc(opening, listed, cutover, first, k);
        ok := PostDocument(g, listed[k], cutover, false);
        if !ok {
          ReplayStops(opening, listed, cutover, first, k + 1);
          return false;
        }
      }
      assert listed[..|listed|] == listed;
      return true;
    }

    /** Builds a new generation beside the others, replays every executed document into it and switches over. */
    method Activate(revision: nat) returns (failure: Option<Failure>)
      requires Valid()
      modifies this
      ensures Valid()
      ensures Ended(old(State()), LedMachine.Activate(old(State()), revision), failure)
    {
      hide Inv, ReplayDocuments, HasNegativeTimeline, PricesComplete, ListExecuted, OpeningEntries, Archived;
      IdsAreIssued(State());
      StepKeepsInv(State(), ActivateAction(revision));
      if revision < 1 {
        return Some(Validation);
      }
      if control.revision != revision || control.status.ActiveLedger? || control.cutover.None? {
        return Some(Conflict);
      }
      var cutover, listed := control.cutover.value, ListExecuted(documents);
      var complete := PreflightActivation(listed, cutover);
      if !complete {
        return Some(Conflict);
      }
      var c, gs, dr, ds, g := control, generations, draft, documents, nextId;
      nextId := g + 1;
      generations := generations[g := Generation(cutover, true, dr, OpeningEntries(dr, cutover))];
      var ok := ReplayVouDocuments(g, listed, cutover);
      if !ok {
        ReplayConflict(OpeningEntries(dr, cutover), listed, cutover, g + 1);
        Rollback(c, gs, dr, ds, g);
        return Some(Conflict);
      }
      ArchivedAfterInsert(old(State()), g, generations[g]);
      ok := FinalizeActivation(g, cutover, revision);
      if !ok {
        Rollback(c, gs, dr, ds, g);
        return Some(Conflict);
      }
      return None;
    }

    /** `finalizeActivation`: the timeline check, then the switch from the old generation to the new one. */
    method FinalizeActivation(g: Id, cutover: nat, revision: nat) returns (ok: bool)
      requires g in generations && control.activeGeneration != Some(g)
      modifies this`control, this`generations, this`draft
      ensures ok <==> !HasNegativeTimeline(old(generations)[g].entries)
      ensures ok ==> && control == Control(ActiveLedger, Some(cutover), Some(g), revision + 1) && draft == []
                     && generations == Archived(old(State()))
    {
      hide HasNegativeTimeline;
      if HasNegativeTimeline(generations[g].entries) {
        return false;
      }
      if control.activeGeneration.Some? && control.activeGeneration.value in generations {
        var was := control.activeGeneration.value;
        generations := generations[was := generations[was].(active := false)];
      }
      control := Control(ActiveLedger, Some(cutover), Some(g), revision + 1);
      draft := [];
      return true;
    }

    /** `HandleDocumentExecuted`, inside the transaction that executed the document. */
    method HandleDocumentExecuted(d: Document) returns (ok: bool)
      modifies this`generations, this`nextId
      ensures ok <==> HandleExecuted(old(State()), d).Ok?
      ensures ok ==> State() == HandleExecuted(old(State()), d).value
    {
      hide LedMachine.PostDocument, HasNegativeTimeline;
      if !control.status.ActiveLedger? || control.activeGeneration.None? || control.cutover.None?
         || control.activeGeneration.value !in generations {
        return false;
      }
      var g := control.activeGeneration.value;
      ok := PostDocument(g, d, control.cutover.value, true);
      if ok {
        ok := !HasNegativeTimeline(generations[g].entries);
      }
    }

    /** `HandleDocumentUnexecuted`, inside the transaction that withdrew the document. */
    method HandleDocumentUnexecuted(doc: Id, revision: nat, now: nat) returns (ok: bool)
      modifies this`generations, this`nextId
      ensures ok <==> HandleUnexecuted(old(State()), doc, revision, now).Ok?
      ensures ok ==> State() == HandleUnexecuted(old(State()), doc, revision, now).value
    {
      hide InsertRows, ReversalRows, HasNegativeTimeline;
      if control.status.DraftLedger? && control.activeGeneration.None? {
        return true;
      }
      if !control.status.ActiveLedger? || control.activeGeneration.None?
          || control.activeGeneration.value !in generations {
        return false;
      }
      var g := control.activeGeneration.value;
      if !HasEntriesForSource(generations[g].entries, doc) {
        return false;
      }
      ok := ReverseDocumentEntries(g, Posting(ReversalEntry, doc, revision, now));
      if ok {
        ok := !HasNegativeTimeline(generations[g].entries);
      }
    }

    /** The document is updated first; a refusing ledger rolls that back too. */
    method Execute(i: nat, revision: nat, date: nat, lines: seq<LineExecution>, now: nat)
      returns (failure: Option<Failure>)
      requires Valid()
      modifies this
      ensures Valid()
      ensures Ended(old(State()), LedMachine.Execute(old(State()), i, revision, date, lines, now), failure)
    {
      hide Inv, LedMachine.PostDocument, HasNegativeTimeline;
      StepKeepsInv(State(), ExecuteAction(i, revision, date, lines, now));
      if i >= |documents| {
        return Some(Validation);
      }
      if documents[i].revision != revision || documents[i].status != Approved || !AttributesComplete(documents[i]) {
        return Some(Conflict);
      }
      if !ValidExecution(documents[i], date, lines) {
        return Some(Validation);
      }
      var c, gs, dr, ds, id := control, generations, draft, documents, nextId;
      var d := ExecutedDocument(documents[i], date, lines, now);
      documents := documents[i := d];
      HandleExecutedRejects(State(), d);
      var ok := HandleDocumentExecuted(d);
      if !ok {
        Rollback(c, gs, dr, ds, id);
        return Some(Rejected);
      }
      return None;
    }

    method Unexecute(i: nat, revision: nat, now: nat) returns (failure: Option<Failure>)
      requires Valid()
      modifies this
      ensures Valid()
      ensures Ended(old(State()), LedMachine.Unexecute(old(State()), i, revision, now), failure)
    {
      hide Inv, InsertRows, ReversalRows, HasNegativeTimeline;
      StepKeepsInv(State(), UnexecuteAction(i, revision, now));
      if i >= |documents| {
        return Some(Validation);
      }
      if documents[i].revision != revision || !IsExecuted(documents[i]) {
        return Some(Conflict);
      }
      var c, gs, dr, ds, id := control, generations, draft, documents, nextId;
      var d := UnexecutedDocument(documents[i], now);
      documents := documents[i := d];
      HandleUnexecutedRejects(State(), d.id, d.revision, now);
      var ok := HandleDocumentUnexecuted(d.id, d.revision, now);
      if !ok {
        Rollback(c, gs, dr, ds, id);
        return Some(Rejected);
      }
      return None;
    }
  }

  lemma ReversedNone(revision: nat)
    ensures ReversedIn([], revision) == []
  {
  }

  /** What one iteration of a reverse loop adds to the rows it has produced. */
  lemma ReversedSnoc(listed: Log, k: nat, revision: nat)
    requires k < |listed|
    ensures listed[..0] == []
    ensures ReversedIn(listed[..k + 1], revision)
         == if listed[k].revision != revision then ReversedIn(listed[..k], revision)
            else ReversedIn(listed[..k], revision) + [RowOf(listed[k]).(delta := -listed[k].delta)]
  {
    assert listed[..k + 1][..k] == listed[..k];
    var before, after := RevisedAt(listed[..k], revision), RevisedAt(listed[..k + 1], revision);
    if listed[k].revision == revision {
      assert after[..|after| - 1] == before;
      var rows := RowsOf(after);
      assert rows[..|rows| - 1] == RowsOf(before);
    }
  }

  lemma {:induction false} ReversedStops(before: Log, p: Posting, listed: Log, k: nat, revision: nat, first: Id)
    requires k <= |listed| && InsertRows(before, p, ReversedIn(listed[..k], revision), first).Err?
    ensures InsertRows(before, p, ReversedIn(listed, revision), first).Err?
    decreases |listed| - k
  {
    hide InsertRows, ReversedIn;
    if k < |listed| {
      ReversedSnoc(listed, k, revision);
      var last := RowOf(listed[k]).(delta := -listed[k].delta);
      InsertRowsPrefix(before, p, ReversedIn(listed[..k], revision), [last], first);
      ReversedStops(before, p, listed, k + 1, revision, first);
    } else {
      assert listed[..k] == listed;
    }
  }

  /** A line whose first row cannot be inserted cannot be posted. */
  lemma FirstInsertFails(log: Log, p: Posting, row: Row, rows: Result<seq<Row>>, id: Id)
    requires InsertRows(log, p, [row], id).Err?
    requires rows.Ok? ==> |rows.value| > 0 && rows.value[0] == row
    ensures rows.Ok? ==> InsertRows(log, p, rows.value, id).Err?
  {
    if rows.Ok? {
      assert rows.value == [row] + rows.value[1..];
      InsertRowsPrefix(log, p, [row], rows.value[1..], id);
    }
  }
}
