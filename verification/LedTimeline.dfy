/** The strict inventory timeline: the window query, and what an accepted timeline guarantees. */
module LedTimeline {
  import opened Sequences
  import opened LedModel
  import opened LedLog

  /** ORDER BY effective_date, opening first, occurred_at, id. */
  predicate NotAfter(x: Entry, y: Entry) {
    var rx, ry := if x.kind.OpeningEntry? then 0 else 1, if y.kind.OpeningEntry? then 0 else 1;
    x.date < y.date || (x.date == y.date && (
      rx < ry || (rx == ry && (
        x.occurredAt < y.occurredAt || (x.occurredAt == y.occurredAt && x.id <= y.id)))))
  }

  function Delta(e: Entry): int {
    e.delta
  }

  function InDim(dim: Dim): Entry -> bool {
    (e: Entry) => e.dim == dim
  }

  function Partition(log: Log, dim: Dim): Log {
    Filter(log, InDim(dim))
  }

  /** sum(...) OVER (... ROWS BETWEEN UNBOUNDED PRECEDING AND CURRENT ROW) of one ordered partition. */
  function RunningTotals(es: Log): (totals: seq<int>)
    ensures |totals| == |es|
    ensures forall i :: 0 <= i < |es| ==> totals[i] == Sum(es[..i + 1], Delta)
  {
    if |es| == 0 then []
    else
      var front := RunningTotals(es[..|es| - 1]);
      assert forall i {:trigger front[i]} :: 0 <= i < |front| ==> es[..|es| - 1][..i + 1] == es[..i + 1];
      assert es[..|es|] == es;
      front + [Sum(es, Delta)]
  }

  /** `HasNegativeLedInventoryTimeline`. */
  predicate HasNegativeTimeline(log: Log) {
    exists e :: e in log && e.dim.Inventory? && HasNegativeTotal(SortBy(NotAfter, Partition(log, e.dim)))
  }

  predicate HasNegativeTotal(es: Log) {
    exists q :: q in RunningTotals(es) && q < 0
  }

  // -------------------------------------------- the window query, unsorted

  predicate Precedes(x: Entry, e: Entry) {
    x.dim == e.dim && NotAfter(x, e)
  }

  /** The delta of a row as far as it counts at `e`. */
  function UpTo(e: Entry): Entry -> int {
    (x: Entry) => if Precedes(x, e) then x.delta else 0
  }

  /** The running quantity at `e`, without sorting: all rows of its dimension that are not after it. */
  function QuantityAt(log: Log, e: Entry): int {
    Sum(log, UpTo(e))
  }

  ghost predicate DistinctIds(log: Log) {
    forall i, j :: 0 <= i < j < |log| && TableOf(log[i].dim) == TableOf(log[j].dim) ==> log[i].id != log[j].id
  }

  lemma NotAfterIsOrder()
    ensures Transitive(NotAfter)
    ensures forall s: Log :: TotalOn(NotAfter, s)
  {
  }

  lemma {:induction false} PartitionDistinct(log: Log, dim: Dim)
    requires DistinctIds(log)
    ensures forall i, j :: 0 <= i < j < |Partition(log, dim)| ==> Partition(log, dim)[i].id != Partition(log, dim)[j].id
  {
    var apart := (x: Entry, y: Entry) => TableOf(x.dim) == TableOf(y.dim) ==> x.id != y.id;
    assert Pairwise(log, apart);
    PairwiseFilter(log, InDim(dim), apart);
    var es := Partition(log, dim);
    forall i, j | 0 <= i < j < |es|
      ensures es[i].id != es[j].id
    {
      assert es[i] in es && es[j] in es && apart(es[i], es[j]);
    }
  }

  function Until(e: Entry): Entry -> bool {
    (x: Entry) => NotAfter(x, e)
  }

  lemma OrderedSides(es: Log, i: nat)
    requires Sorted(NotAfter, es) && i < |es|
    requires forall a, b :: 0 <= a < b < |es| ==> es[a].id != es[b].id
    ensures forall x :: x in es[..i + 1] ==> NotAfter(x, es[i])
    ensures forall x :: x in es[i + 1..] ==> !NotAfter(x, es[i])
  {
    forall x | x in es[..i + 1]
      ensures NotAfter(x, es[i])
    {
      var k :| 0 <= k <= i && x == es[k];
      assert k == i || NotAfter(es[k], es[i]);
    }
    forall x | x in es[i + 1..]
      ensures !NotAfter(x, es[i])
    {
      var k :| i < k < |es| && x == es[k];
      assert NotAfter(es[i], es[k]) && es[i].id != es[k].id;
    }
  }

  /** In an ordered partition without equal ids, the rows up to position `i` are those not after row `i`. */
  lemma PrefixIsNotAfter(es: Log, i: nat)
    requires Sorted(NotAfter, es) && i < |es|
    requires forall a, b :: 0 <= a < b < |es| ==> es[a].id != es[b].id
    ensures Sum(es[..i + 1], Delta) == Sum(es, Where(Until(es[i]), Delta))
  {
    hide Sum, Sorted, NotAfter;
    var w := Where(Until(es[i]), Delta);
    var front, back := es[..i + 1], es[i + 1..];
    OrderedSides(es, i);
    SumEqual(front, w, Delta);
    SumZero(back, w);
    assert es == front + back;
    SumAppend(front, back, w);
  }

  lemma OrderedQuantity(log: Log, dim: Dim, i: nat)
    requires DistinctIds(log)
    requires i < |SortBy(NotAfter, Partition(log, dim))|
    ensures var es := SortBy(NotAfter, Partition(log, dim));
            es[i] in log && es[i].dim == dim && RunningTotals(es)[i] == QuantityAt(log, es[i])
  {
    hide Sum, DistinctIds, Sorted;
    var part := Partition(log, dim);
    var es := SortBy(NotAfter, part);
    NotAfterIsOrder();
    SortBySorts(NotAfter, part);
    SameElements(es, part);
    assert es[i] in part;
    PartitionDistinct(log, dim);
    SortedIds(part);
    PrefixIsNotAfter(es, i);
    SumSortBy(NotAfter, part, Where(Until(es[i]), Delta));
    SumFilter(log, InDim(dim), Where(Until(es[i]), Delta));
    SumEqual(log, Where(InDim(dim), Where(Until(es[i]), Delta)), UpTo(es[i]));
  }

  lemma SortedIds(part: Log)
    requires forall i, j :: 0 <= i < j < |part| ==> part[i].id != part[j].id
    ensures var es := SortBy(NotAfter, part);
            forall i, j :: 0 <= i < j < |es| ==> es[i].id != es[j].id
  {
    var es := SortBy(NotAfter, part);
    assert Distinct(part);
    DistinctRearranged(part, es);
    SameElements(es, part);
    forall i, j | 0 <= i < j < |es|
      ensures es[i].id != es[j].id
    {
      assert es[i] in part && es[j] in part && es[i] != es[j];
    }
  }

  /** The window query finds a negative quantity exactly when some inventory row has one before or at it. */
  lemma TimelineUnsorted(log: Log)
    requires DistinctIds(log)
    ensures HasNegativeTimeline(log) <==> exists e :: e in log && e.dim.Inventory? && QuantityAt(log, e) < 0
  {
    hide SortBy, DistinctIds, QuantityAt, NotAfter, RunningTotals;
    if HasNegativeTimeline(log) {
      var e :| e in log && e.dim.Inventory? && HasNegativeTotal(SortBy(NotAfter, Partition(log, e.dim)));
      var es := SortBy(NotAfter, Partition(log, e.dim));
      var q :| q in RunningTotals(es) && q < 0;
      var i :| 0 <= i < |es| && RunningTotals(es)[i] == q;
      OrderedQuantity(log, e.dim, i);
    }
    if e :| e in log && e.dim.Inventory? && QuantityAt(log, e) < 0 {
      var part := Partition(log, e.dim);
      var es := SortBy(NotAfter, part);
      SameElements(es, part);
      assert e in es;
      var i :| 0 <= i < |es| && es[i] == e;
      OrderedQuantity(log, e.dim, i);
      assert RunningTotals(es)[i] in RunningTotals(es);
      assert HasNegativeTotal(es);
    }
  }

  // --------------------------------- what an accepted timeline guarantees

  /** The last row, in timeline order, of the rows of `log` that satisfy `p`. */
  lemma {:induction false} LastWhere(log: Log, p: Entry -> bool) returns (m: Entry)
    requires exists e :: e in log && p(e)
    ensures m in log && p(m)
    ensures forall e :: e in log && p(e) ==> NotAfter(e, m)
  {
    var front, last := log[..|log| - 1], log[|log| - 1];
    if exists e :: e in front && p(e) {
      m := LastWhere(front, p);
      if p(last) && !NotAfter(last, m) {
        m := last;
      }
    } else {
      m := last;
    }
  }

  ghost predicate DownClosed(log: Log, dim: Dim, cut: Entry -> bool) {
    forall x, y :: x in log && y in log && x.dim == dim && y.dim == dim && cut(y) && NotAfter(x, y) ==> cut(x)
  }

  /** The delta of a row of `dim` that lies before the cut. */
  function CutWeight(dim: Dim, cut: Entry -> bool): Entry -> int {
    (e: Entry) => if e.dim == dim && cut(e) then e.delta else 0
  }

  /** However the timeline of an accepted log is cut, the quantity before the cut is not negative. */
  lemma CutIsNonNegative(log: Log, dim: Dim, cut: Entry -> bool)
    requires DistinctIds(log) && !HasNegativeTimeline(log) && dim.Inventory?
    requires DownClosed(log, dim, cut)
    ensures Sum(log, CutWeight(dim, cut)) >= 0
  {
    TimelineUnsorted(log);
    hide Sum, HasNegativeTimeline, DistinctIds;
    var before := (e: Entry) => e.dim == dim && cut(e);
    if exists e :: e in log && before(e) {
      var m := LastWhere(log, before);
      assert QuantityAt(log, m) >= 0;
      SumEqual(log, CutWeight(dim, cut), UpTo(m));
    } else {
      SumZero(log, CutWeight(dim, cut));
    }
  }

  function NotLater(asOf: nat): Entry -> bool {
    (e: Entry) => e.date <= asOf
  }

  /** The stock of every warehouse and product is never negative, whatever date the balance is asked for. */
  lemma StockNeverNegative(log: Log, dim: Dim, asOf: nat)
    requires DistinctIds(log) && !HasNegativeTimeline(log) && dim.Inventory?
    ensures Balance(log, dim, asOf) >= 0
  {
    hide HasNegativeTimeline, Sum;
    CutIsNonNegative(log, dim, NotLater(asOf));
    SumEqual(log, EntryWeight(AsOf(dim, asOf)), CutWeight(dim, NotLater(asOf)));
  }

  lemma IncomingQuantity(log: Log, added: Log, e: Entry)
    requires DistinctIds(log) && !HasNegativeTimeline(log) && e.dim.Inventory?
    requires forall x :: x in added && x.dim.Inventory? ==> x.delta >= 0
    ensures QuantityAt(log + added, e) >= 0
  {
    hide HasNegativeTimeline, DistinctIds, Sum;
    SumAppend(log, added, UpTo(e));
    assert DownClosed(log, e.dim, Until(e)) by {
      NotAfterIsOrder();
    }
    CutIsNonNegative(log, e.dim, Until(e));
    SumEqual(log, UpTo(e), CutWeight(e.dim, Until(e)));
    SumNonNegative(added, UpTo(e));
  }

  /** Incoming stock is never refused, however far back its date lies. */
  lemma IncomingKeepsTimeline(log: Log, added: Log)
    requires DistinctIds(log + added) && !HasNegativeTimeline(log)
    requires forall e :: e in added && e.dim.Inventory? ==> e.delta >= 0
    ensures !HasNegativeTimeline(log + added)
  {
    assert DistinctIds(log) by {
      assert forall i :: 0 <= i < |log| ==> (log + added)[i] == log[i];
    }
    TimelineUnsorted(log + added);
    forall e | e in log + added && e.dim.Inventory?
      ensures QuantityAt(log + added, e) >= 0
    {
      IncomingQuantity(log, added, e);
    }
  }

  function OfDim(dim: Dim): View {
    (doc, d, date) => d == dim
  }

  /** Every row of `added` comes after every row of its dimension in the log. */
  ghost predicate Later(log: Log, added: Log) {
    forall x, y :: x in log && y in added && x.dim == y.dim ==> NotAfter(x, y) && !NotAfter(y, x)
  }

  lemma EarlierQuantity(log: Log, added: Log, e: Entry)
    requires Later(log, added) && e in log
    ensures QuantityAt(log + added, e) == QuantityAt(log, e)
  {
    hide Sum, NotAfter;
    SumAppend(log, added, UpTo(e));
    SumZero(added, UpTo(e));
  }

  lemma LaterQuantity(log: Log, added: Log, e: Entry)
    requires Later(log, added) && e in added
    requires forall y :: y in added && y.dim == e.dim ==> y.delta <= 0
    ensures QuantityAt(log + added, e) >= Sum(log + added, EntryWeight(OfDim(e.dim)))
  {
    hide Sum, NotAfter;
    SumAppend(log, added, UpTo(e));
    SumAppend(log, added, EntryWeight(OfDim(e.dim)));
    SumEqual(log, UpTo(e), EntryWeight(OfDim(e.dim)));
    SumAtMost(added, EntryWeight(OfDim(e.dim)), UpTo(e));
  }

  /** What is taken out after everything else is accepted as long as the totals cover it. */
  lemma LatestKeepsTimeline(log: Log, added: Log)
    requires DistinctIds(log + added) && !HasNegativeTimeline(log) && Later(log, added)
    requires forall y :: y in added && y.dim.Inventory? ==>
               y.delta <= 0 && Sum(log + added, EntryWeight(OfDim(y.dim))) >= 0
    ensures !HasNegativeTimeline(log + added)
  {
    assert DistinctIds(log) by {
      assert forall i :: 0 <= i < |log| ==> (log + added)[i] == log[i];
    }
    TimelineUnsorted(log);
    TimelineUnsorted(log + added);
    hide Later, QuantityAt, HasNegativeTimeline, DistinctIds, Sum;
    forall e | e in log + added && e.dim.Inventory?
      ensures QuantityAt(log + added, e) >= 0
    {
      if e in log {
        EarlierQuantity(log, added, e);
      } else {
        LaterQuantity(log, added, e);
      }
    }
  }
}
