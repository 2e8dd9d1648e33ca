/** The opening draft: validation and snapshot-preserving replacement. */
module LedOpening {
  import opened Results
  import opened Sequences
  import opened LedModel
  import opened LedLog
  import opened LedDecimal

  /** What identifies an opening row, versions included. */
  datatype Key =
    | InventoryKey(warehouse: Id, warehouseVersion: Id, product: Id, productVersion: Id)
    | FundKey(account: Id, accountVersion: Id)
    | PartyKey(kind: PartyKind, party: Id, partyVersion: Id, currency: string)

  /** Codes, names and unit as they were when the row was first saved, and the currency of an account. */
  datatype Snapshot = Snapshot(text: string, currency: string)

  datatype OpeningRow = OpeningRow(id: Id, key: Key, snapshot: Snapshot, amount: int)

  /** Which side of zero an input row is on; an inventory row has no such field. */
  datatype BalanceType = Positive | Overdraft | Receivable | Payable | OtherBalance

  const QUANTITY_SCALE := 6
  const MONEY_SCALE := 2

  function ScaleOf(key: Key): nat {
    if key.InventoryKey? then QUANTITY_SCALE else MONEY_SCALE
  }

  /** An input row, with its amount as text. */
  datatype OpeningItem = OpeningItem(key: Key, balance: BalanceType, text: string) {
    function Amount(): Option<nat> {
      ParsePositive(text, ScaleOf(key), true)
    }
  }

  /** What must be unique in a draft table: the key without versions. */
  datatype Dimension =
    | InventoryDimension(warehouse: Id, product: Id)
    | FundDimension(account: Id)
    | PartyDimension(kind: PartyKind, party: Id, currency: string)

  function DimensionOf(key: Key): Dimension {
    match key
    case InventoryKey(warehouse, _, product, _) => InventoryDimension(warehouse, product)
    case FundKey(account, _) => FundDimension(account)
    case PartyKey(kind, party, _, currency) => PartyDimension(kind, party, currency)
  }

  function DimOf(row: OpeningRow): Dim {
    match row.key
    case InventoryKey(warehouse, _, product, _) => Inventory(warehouse, product)
    case FundKey(account, _) => Fund(account, row.snapshot.currency)
    case PartyKey(kind, party, _, currency) => Counterparty(kind, party, currency)
  }

  const MAX_ITEMS := 1000

  predicate WithinLimits(keys: seq<Key>) {
    && |Filter(keys, (k: Key) => k.InventoryKey?)| <= MAX_ITEMS
    && |Filter(keys, (k: Key) => k.FundKey?)| <= MAX_ITEMS
    && |Filter(keys, (k: Key) => k.PartyKey?)| <= MAX_ITEMS
  }

  function ItemKeys(items: seq<OpeningItem>): seq<Key> {
    seq(|items|, i requires 0 <= i < |items| => items[i].key)
  }

  function RowKeys(rows: seq<OpeningRow>): seq<Key> {
    seq(|rows|, i requires 0 <= i < |rows| => rows[i].key)
  }

  /** The references are set, and a currency is three capitals. */
  predicate ValidKey(key: Key) {
    match key
    case InventoryKey(warehouse, warehouseVersion, product, productVersion) =>
      warehouse != NO_ID && warehouseVersion != NO_ID && product != NO_ID && productVersion != NO_ID
    case FundKey(account, accountVersion) => account != NO_ID && accountVersion != NO_ID
    case PartyKey(_, party, partyVersion, currency) =>
      party != NO_ID && partyVersion != NO_ID && |currency| == 3 && forall c :: c in currency ==> 'A' <= c <= 'Z'
  }

  predicate ValidBalance(key: Key, balance: BalanceType) {
    match key
    case InventoryKey(_, _, _, _) => true
    case FundKey(_, _) => balance.Positive? || balance.Overdraft?
    case PartyKey(_, _, _, _) => balance.Receivable? || balance.Payable?
  }

  predicate ValidItem(item: OpeningItem) {
    ValidKey(item.key) && ValidBalance(item.key, item.balance) && item.Amount().Some?
  }

  /** What `validateSave` accepts: valid rows and no dimension twice. */
  predicate ValidItems(items: seq<OpeningItem>) {
    && WithinLimits(ItemKeys(items))
    && (forall i :: 0 <= i < |items| ==> ValidItem(items[i]))
    && (forall i, j :: 0 <= i < j < |items| ==> DimensionOf(items[i].key) != DimensionOf(items[j].key))
  }

  /** The amount a row is stored with; text that was not validated would count as zero. */
  function SignedAmount(item: OpeningItem): int {
    var amount: int := if item.Amount().Some? then item.Amount().value else 0;
    if (item.key.FundKey? && item.balance.Overdraft?) || (item.key.PartyKey? && item.balance.Payable?) then -amount
    else amount
  }

  lemma SignedAmountFits(item: OpeningItem)
    ensures -MAX_INT64 < SignedAmount(item) < MAX_INT64
    ensures item.key.InventoryKey? ==> SignedAmount(item) >= 0
  {
    hide ParsePositive;
  }

  /** The `oldByKey` map: the last row stored under a key. */
  function FindOld(stored: seq<OpeningRow>, key: Key): (r: Option<OpeningRow>)
    ensures r.Some? <==> exists row :: row in stored && row.key == key
    ensures r.Some? ==> r.value in stored && r.value.key == key
  {
    if |stored| == 0 then None
    else if stored[|stored| - 1].key == key then Some(stored[|stored| - 1])
    else FindOld(stored[..|stored| - 1], key)
  }

  /** One iteration of a replace loop: keep its id and snapshot, or resolve the reference. */
  function ReplaceItem(stored: seq<OpeningRow>, item: OpeningItem, effective: map<Key, Snapshot>, id: Id)
    : Result<OpeningRow>
  {
    match FindOld(stored, item.key)
    case Some(row) => Ok(row.(amount := SignedAmount(item)))
    case None =>
      if item.key in effective then Ok(OpeningRow(id, item.key, effective[item.key], SignedAmount(item)))
      else Err(Conflict)
  }

  function ReplaceOpening(stored: seq<OpeningRow>, items: seq<OpeningItem>, effective: map<Key, Snapshot>, id: Id)
    : Result<seq<OpeningRow>>
  {
    if |items| == 0 then Ok([])
    else
      var n := |items| - 1;
      var front :- ReplaceOpening(stored, items[..n], effective, id);
      var last :- ReplaceItem(stored, items[n], effective, id + n);
      Ok(front + [last])
  }

  /** A stored draft: as many rows as can be saved, distinct issued ids, one row per dimension, amounts that fit and no
      negative stock. */
  ghost predicate ValidDraft(draft: seq<OpeningRow>, nextId: Id) {
    && WithinLimits(RowKeys(draft))
    && (forall i :: 0 <= i < |draft| ==> NO_ID < draft[i].id < nextId)
    && (forall i :: 0 <= i < |draft| ==> ValidKey(draft[i].key) && -MAX_INT64 < draft[i].amount < MAX_INT64)
    && (forall i :: 0 <= i < |draft| && draft[i].key.InventoryKey? ==> draft[i].amount >= 0)
    && (forall i, j :: 0 <= i < j < |draft| ==>
          draft[i].id != draft[j].id && DimensionOf(draft[i].key) != DimensionOf(draft[j].key))
  }

  /** Row for row: the draft repeats the input, and a key that was stored keeps its id and its snapshot. */
  ghost predicate Replaces(
    stored: seq<OpeningRow>, item: OpeningItem, effective: map<Key, Snapshot>, id: Id, row: OpeningRow)
  {
    && row.key == item.key
    && row.amount == SignedAmount(item)
    && (forall was :: was in stored && was.key == item.key ==> row.id == was.id && row.snapshot == was.snapshot)
    && ((forall was :: was in stored ==> was.key != item.key) ==>
          row.id == id && item.key in effective && row.snapshot == effective[item.key])
  }

  lemma OneStoredRow(stored: seq<OpeningRow>, was: OpeningRow, nextId: Id)
    requires ValidDraft(stored, nextId) && was in stored
    ensures FindOld(stored, was.key) == Some(was)
  {
    hide ValidKey, DimensionOf;
    var kept := FindOld(stored, was.key).value;
    var a, b :| 0 <= a < |stored| && 0 <= b < |stored| && was == stored[a] && kept == stored[b];
    assert DimensionOf(was.key) == DimensionOf(kept.key);
  }

  lemma ReplacedItem(stored: seq<OpeningRow>, item: OpeningItem, effective: map<Key, Snapshot>, id: Id, nextId: Id)
    requires ValidDraft(stored, nextId) && ReplaceItem(stored, item, effective, id).Ok?
    ensures Replaces(stored, item, effective, id, ReplaceItem(stored, item, effective, id).value)
  {
    hide SignedAmount, ValidDraft;
    forall was | was in stored && was.key == item.key
      ensures FindOld(stored, item.key) == Some(was)
    {
      OneStoredRow(stored, was, nextId);
    }
  }

  lemma {:induction false} ReplaceOpeningRows(
    stored: seq<OpeningRow>, items: seq<OpeningItem>, effective: map<Key, Snapshot>, id: Id, nextId: Id)
    requires ValidDraft(stored, nextId)
    requires ReplaceOpening(stored, items, effective, id).Ok?
    ensures var rows := ReplaceOpening(stored, items, effective, id).value;
            |rows| == |items| && forall i :: 0 <= i < |items| ==> Replaces(stored, items[i], effective, id + i, rows[i])
  {
    hide ReplaceItem, Replaces, ValidDraft;
    if |items| != 0 {
      var n := |items| - 1;
      ReplaceOpeningRows(stored, items[..n], effective, id, nextId);
      ReplacedItem(stored, items[n], effective, id + n, nextId);
      var front, rows :=
        ReplaceOpening(stored, items[..n], effective, id).value, ReplaceOpening(stored, items, effective, id).value;
      forall i | 0 <= i < |items|
        ensures Replaces(stored, items[i], effective, id + i, rows[i])
      {
        assert i < n ==> rows[i] == front[i] && items[..n][i] == items[i];
      }
    }
  }

  /** A row that repeats its item keeps an id that was stored, or has the one that was issued for it. */
  ghost predicate IssuedOrKept(stored: seq<OpeningRow>, item: OpeningItem, id: Id, row: OpeningRow) {
    row.id == id || exists k :: 0 <= k < |stored| && stored[k].key == item.key && stored[k].id == row.id
  }

  lemma ReplacedRow(stored: seq<OpeningRow>, item: OpeningItem, effective: map<Key, Snapshot>, id: Id, row: OpeningRow)
    requires Replaces(stored, item, effective, id, row) && ValidItem(item)
    ensures IssuedOrKept(stored, item, id, row)
    ensures ValidKey(row.key) && -MAX_INT64 < row.amount < MAX_INT64 && (row.key.InventoryKey? ==> row.amount >= 0)
  {
    hide ParsePositive, SignedAmount;
    SignedAmountFits(item);
    if was :| was in stored && was.key == item.key {
      var k :| 0 <= k < |stored| && stored[k] == was;
    }
  }

  lemma IdsApart(
    stored: seq<OpeningRow>, id: Id, a: OpeningItem, i: nat, x: OpeningRow, b: OpeningItem, j: nat, y: OpeningRow)
    requires ValidDraft(stored, id) && i != j
    requires IssuedOrKept(stored, a, id + i, x) && IssuedOrKept(stored, b, id + j, y)
    requires DimensionOf(a.key) != DimensionOf(b.key)
    ensures x.id != y.id
  {
    hide ValidKey, DimensionOf;
  }

  /** `SaveOpening`: the draft matches the input row for row, keeps ids and snapshots of unchanged keys,
      and satisfies every constraint of the draft tables. */
  lemma SaveOpeningPreservesSnapshots(
    stored: seq<OpeningRow>, items: seq<OpeningItem>, effective: map<Key, Snapshot>, id: Id)
    requires ValidDraft(stored, id) && id != NO_ID && ValidItems(items)
    requires ReplaceOpening(stored, items, effective, id).Ok?
    ensures var rows := ReplaceOpening(stored, items, effective, id).value;
            && |rows| == |items|
            && (forall i :: 0 <= i < |items| ==> Replaces(stored, items[i], effective, id + i, rows[i]))
            && ValidDraft(rows, id + |items|)
  {
    hide ValidItem, WithinLimits, Replaces, ReplaceOpening, ValidKey, DimensionOf, IssuedOrKept, ParsePositive;
    ReplaceOpeningRows(stored, items, effective, id, id);
    var rows := ReplaceOpening(stored, items, effective, id).value;
    forall i | 0 <= i < |rows|
      ensures NO_ID < rows[i].id < id + |items| && IssuedOrKept(stored, items[i], id + i, rows[i])
      ensures ValidKey(rows[i].key) && -MAX_INT64 < rows[i].amount < MAX_INT64
      ensures rows[i].key.InventoryKey? ==> rows[i].amount >= 0
    {
      assert Replaces(stored, items[i], effective, id + i, rows[i]);
      ReplacedRow(stored, items[i], effective, id + i, rows[i]);
      IssuedBefore(stored, items[i], id, i, rows[i]);
    }
    forall i, j | 0 <= i < j < |rows|
      ensures rows[i].id != rows[j].id && DimensionOf(rows[i].key) != DimensionOf(rows[j].key)
    {
      assert Replaces(stored, items[i], effective, id + i, rows[i])
          && Replaces(stored, items[j], effective, id + j, rows[j]);
      ReplacesKey(stored, items[i], effective, id + i, rows[i]);
      ReplacesKey(stored, items[j], effective, id + j, rows[j]);
      IdsApart(stored, id, items[i], i, rows[i], items[j], j, rows[j]);
    }
    forall i | 0 <= i < |rows|
      ensures rows[i].key == items[i].key
    {
      ReplacesKey(stored, items[i], effective, id + i, rows[i]);
    }
    assert RowKeys(rows) == ItemKeys(items);
  }

  lemma IssuedBefore(stored: seq<OpeningRow>, item: OpeningItem, id: Id, i: nat, row: OpeningRow)
    requires ValidDraft(stored, id) && id != NO_ID && IssuedOrKept(stored, item, id + i, row)
    ensures NO_ID < row.id <= id + i
  {
    hide ValidKey, DimensionOf;
  }

  lemma ReplacesKey(stored: seq<OpeningRow>, item: OpeningItem, effective: map<Key, Snapshot>, id: Id, row: OpeningRow)
    requires Replaces(stored, item, effective, id, row)
    ensures row.key == item.key
  {
    hide ParsePositive;
  }

  /** A stored row as the opening view shows it, and as it can be sent back. */
  function ItemOf(row: OpeningRow): OpeningItem {
    match row.key
    case InventoryKey(_, _, _, _) => OpeningItem(row.key, OtherBalance, FormatSigned(row.amount, QUANTITY_SCALE))
    case FundKey(_, _) =>
      OpeningItem(row.key, if row.amount < 0 then Overdraft else Positive, FormatAbsolute(row.amount, MONEY_SCALE))
    case PartyKey(_, _, _, _) =>
      OpeningItem(row.key, if row.amount < 0 then Payable else Receivable, FormatAbsolute(row.amount, MONEY_SCALE))
  }

  /** What the view shows of a stored row is parsed to the row's amount again. */
  lemma ShownIsParsed(row: OpeningRow)
    requires ValidKey(row.key) && -MAX_INT64 < row.amount < MAX_INT64 && (row.key.InventoryKey? ==> row.amount >= 0)
    ensures ItemOf(row).key == row.key && ValidItem(ItemOf(row)) && SignedAmount(ItemOf(row)) == row.amount
  {
    hide ParsePositive, FormatSigned, FormatAbsolute, ValidKey;
    PrintedIsParsed(row.amount, ScaleOf(row.key), true);
  }

  function ItemsOf(draft: seq<OpeningRow>): seq<OpeningItem> {
    seq(|draft|, i requires 0 <= i < |draft| => ItemOf(draft[i]))
  }

  lemma StoredIsShown(stored: seq<OpeningRow>, i: nat, id: Id)
    requires ValidDraft(stored, id) && i < |stored|
    ensures ValidItem(ItemOf(stored[i])) && ItemOf(stored[i]).key == stored[i].key
  {
    hide ItemOf, ValidKey, ParsePositive;
    ShownIsParsed(stored[i]);
  }

  lemma ReplaceStoredItem(stored: seq<OpeningRow>, i: nat, effective: map<Key, Snapshot>, id: Id, newId: Id)
    requires ValidDraft(stored, id) && i < |stored|
    ensures ReplaceItem(stored, ItemOf(stored[i]), effective, newId) == Ok(stored[i])
  {
    hide ItemOf, ValidKey, ParsePositive, SignedAmount, FindOld, DimensionOf;
    assert stored[i] in stored;
    OneStoredRow(stored, stored[i], id);
    ShownIsParsed(stored[i]);
  }

  lemma {:induction false} ReplaceStored(draft: seq<OpeningRow>, k: nat, effective: map<Key, Snapshot>, id: Id)
    requires ValidDraft(draft, id) && k <= |draft|
    ensures ReplaceOpening(draft, ItemsOf(draft)[..k], effective, id) == Ok(draft[..k])
  {
    hide ValidDraft, ReplaceItem, ItemOf, ParsePositive;
    if k != 0 {
      var items := ItemsOf(draft);
      ReplaceStored(draft, k - 1, effective, id);
      assert items[..k][..k - 1] == items[..k - 1];
      ReplaceStoredItem(draft, k - 1, effective, id, id + k - 1);
      assert draft[..k] == draft[..k - 1] + [draft[k - 1]];
    }
  }

  lemma ShownKeys(draft: seq<OpeningRow>)
    ensures ItemKeys(ItemsOf(draft)) == RowKeys(draft)
  {
  }

  /** Sending back the opening as it is shown, amounts and all as text, is accepted and changes no row, whatever has
      become of the references since. */
  lemma ResaveIsIdentity(draft: seq<OpeningRow>, effective: map<Key, Snapshot>, id: Id)
    requires ValidDraft(draft, id)
    ensures ValidItems(ItemsOf(draft))
    ensures ReplaceOpening(draft, ItemsOf(draft), effective, id) == Ok(draft)
  {
    hide WithinLimits, ItemOf, ValidItem, ReplaceOpening, ValidKey, DimensionOf;
    ShownKeys(draft);
    forall i | 0 <= i < |draft|
      ensures ValidItem(ItemsOf(draft)[i]) && ItemsOf(draft)[i].key == draft[i].key
    {
      StoredIsShown(draft, i, id);
    }
    ReplaceStored(draft, |draft|, effective, id);
    assert ItemsOf(draft)[..|draft|] == ItemsOf(draft) && draft[..|draft|] == draft;
  }

  // ------------------------------------------------------ opening entries

  const DAY_MICROS: nat := 86_400_000_000

  function OpeningEntryOf(row: OpeningRow, cutover: nat): Entry {
    Entry(row.id, OpeningEntry, NO_ID, row.id, 0, cutover, cutover * DAY_MICROS, DimOf(row), row.amount)
  }

  /** The OPENING rows of a generation: one per draft row whose amount is not zero. */
  function OpeningEntries(draft: seq<OpeningRow>, cutover: nat): Log {
    if |draft| == 0 then []
    else
      var front, last := OpeningEntries(draft[..|draft| - 1], cutover), draft[|draft| - 1];
      if last.amount == 0 then front else front + [OpeningEntryOf(last, cutover)]
  }

  function OpeningWeight(view: View, cutover: nat): OpeningRow -> int {
    (row: OpeningRow) => if view(NO_ID, DimOf(row), cutover) then row.amount else 0
  }

  lemma {:induction false} OpeningEntriesAre(draft: seq<OpeningRow>, cutover: nat)
    ensures forall e :: e in OpeningEntries(draft, cutover) ==>
              exists i :: 0 <= i < |draft| && draft[i].amount != 0 && e == OpeningEntryOf(draft[i], cutover)
  {
    if |draft| != 0 {
      var front := draft[..|draft| - 1];
      OpeningEntriesAre(front, cutover);
      forall e | e in OpeningEntries(front, cutover)
        ensures exists i :: 0 <= i < |draft| && draft[i].amount != 0 && e == OpeningEntryOf(draft[i], cutover)
      {
        var i :| 0 <= i < |front| && front[i].amount != 0 && e == OpeningEntryOf(front[i], cutover);
        assert draft[i] == front[i];
      }
    }
  }

  lemma {:induction false} OpeningEntriesApart(draft: seq<OpeningRow>, cutover: nat)
    requires forall i, j :: 0 <= i < j < |draft| ==> draft[i].id != draft[j].id
    ensures Pairwise(OpeningEntries(draft, cutover), Apart)
  {
    if |draft| != 0 {
      var n := |draft| - 1;
      OpeningEntriesApart(draft[..n], cutover);
      var front := OpeningEntries(draft[..n], cutover);
      OpeningEntriesAre(draft[..n], cutover);
      forall x | x in front
        ensures Apart(x, OpeningEntryOf(draft[n], cutover))
      {
        var i :| 0 <= i < n && draft[..n][i].amount != 0 && x == OpeningEntryOf(draft[..n][i], cutover);
        assert draft[..n][i] == draft[i];
      }
      PairwiseAppend(front, [OpeningEntryOf(draft[n], cutover)], Apart);
    }
  }

  lemma {:induction false} SumOpeningEntries(draft: seq<OpeningRow>, cutover: nat, view: View)
    ensures Sum(OpeningEntries(draft, cutover), EntryWeight(view)) == Sum(draft, OpeningWeight(view, cutover))
  {
    if |draft| != 0 {
      var n := |draft| - 1;
      SumOpeningEntries(draft[..n], cutover, view);
      SumAppend(OpeningEntries(draft[..n], cutover), [OpeningEntryOf(draft[n], cutover)], EntryWeight(view));
    }
  }
}
