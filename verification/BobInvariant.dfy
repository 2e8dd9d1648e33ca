/** What every lifecycle step keeps: the pointers and counters of objects, the audit trail of versions, and the
    references between them. */
module BobInvariant {
  import opened Results
  import opened Sequences
  import opened BobModel

  // -------------------------------------------------------- audit histories

  /** What an audit history says its version looks like, and whether it began with the creation of the object. */
  datatype Trace = Nothing | Broken | Reached(created: bool, review: Review)

  /** The first event: a version begins as a draft of revision one. */
  function Started(trace: Trace, e: Event, created: bool): Trace {
    if trace.Nothing? && e.from.None? && e.to.Draft? then Reached(created, Review(Draft, 1, None, None)) else Broken
  }

  /** One audit event read as a step of the lifecycle. */
  function Advance(trace: Trace, e: Event): Trace {
    match e.kind
    case Created => Started(trace, e, true)
    case EditStarted => Started(trace, e, false)
    case _ =>
      if !trace.Reached? || e.from != Some(trace.review.status) then Broken
      else
        match AdvanceFrom(trace.review, e)
        case Some(review) => Reached(trace.created, review)
        case None => Broken
  }

  /** One event after the first. */
  function AdvanceFrom(r: Review, e: Event): Option<Review> {
    match e.kind
    case Saved =>
      if Open(r.status) && e.to == r.status then Some(r.(revision := r.revision + 1)) else None
    case Submitted =>
      if Open(r.status) && e.to.Pending? then Some(Review(Pending, r.revision + 1, Some(e.actor), None)) else None
    case ApprovedEvent =>
      if r.status.Pending? && r.submittedBy.Some? && r.submittedBy != Some(e.actor) && e.to.Effective?
      then Some(Review(Effective, r.revision + 1, r.submittedBy, Some(e.actor))) else None
    case RejectedEvent =>
      if r.status.Pending? && r.submittedBy.Some? && r.submittedBy != Some(e.actor) && e.to == Status.Rejected
      then Some(Review(Status.Rejected, r.revision + 1, r.submittedBy, Some(e.actor))) else None
    case _ =>
      if r.status.Effective? && e.to.Invalid? then Some(r.(status := Invalid, revision := r.revision + 1)) else None
  }

  function Replay(history: seq<Event>): Trace {
    if |history| == 0 then Nothing else Advance(Replay(history[..|history| - 1]), history[|history| - 1])
  }

  function OfVersion(v: Id): Event -> bool {
    (e: Event) => e.version == v
  }

  /** The audit events of a version, oldest first. */
  function History(audit: seq<Event>, v: Id): seq<Event> {
    Filter(audit, OfVersion(v))
  }

  /** Each event starts where the one before it ended; the first starts from nothing. */
  ghost predicate Connected(history: seq<Event>) {
    && |history| > 0 && history[0].from.None?
    && forall k :: 0 < k < |history| ==> history[k].from == Some(history[k - 1].to)
  }

  /** The columns a version has by its status. */
  ghost predicate ReviewedByOther(r: Review) {
    && (r.status.Draft? ==> r.submittedBy.None? && r.reviewedBy.None?)
    && (r.status.Pending? ==> r.submittedBy.Some? && r.reviewedBy.None?)
    && (!r.status.Draft? && !r.status.Pending? ==>
          r.submittedBy.Some? && r.reviewedBy.Some? && r.submittedBy != r.reviewedBy)
  }

  /** A history that reaches a state is a connected path that ends in it, is as long as the revision says and was
      decided by someone other than who submitted it. */
  lemma {:induction false} ReachedByPath(history: seq<Event>)
    requires Replay(history).Reached?
    ensures Connected(history)
    ensures var r := Replay(history).review;
            && history[|history| - 1].to == r.status
            && r.revision == |history|
            && ReviewedByOther(r)
  {
    var n := |history| - 1;
    if Replay(history[..n]).Reached? {
      ReachedByPath(history[..n]);
      assert history[n - 1] == history[..n][n - 1];
      assert forall k :: 0 <= k < n ==> history[..n][k] == history[k];
    } else {
      OnlyEmptyIsNothing(history[..n]);
    }
  }

  lemma OnlyEmptyIsNothing(history: seq<Event>)
    requires Replay(history).Nothing?
    ensures history == []
  {
  }

  // ------------------------------------------------------------ the tables

  ghost predicate ObjectInv(s: State, o: Id) {
    && o in s.objects
    && var x := s.objects[o];
    && x.nextNo >= 2
    && x.current in s.versions && s.versions[x.current].owner == o && s.versions[x.current].no == x.nextNo - 1
    && (x.effective == if s.versions[x.current].review.status.Effective? then Some(x.current) else None)
    && x.revision == 2 * (x.nextNo - 1) - (if x.effective.Some? then 0 else 1)
    && forall k :: 1 <= k < x.nextNo ==> HasNumber(s.versions, o, k)
  }

  ghost predicate HasNumber(versions: map<Id, Version>, o: Id, k: nat) {
    exists v :: v in versions && versions[v].owner == o && versions[v].no == k
  }

  ghost predicate VersionInv(s: State, v: Id) {
    && v in s.versions
    && var row := s.versions[v];
    && row.owner in s.objects && s.objects[row.owner].entity == row.entity
    && 1 <= row.no < s.objects[row.owner].nextNo
    && (row.review.status.Invalid? <==> s.objects[row.owner].current != v)
    && Traced(s.audit, v, row.no, row.review)
  }

  /** The audit log accounts for the lifecycle columns of the version. */
  ghost predicate Traced(audit: seq<Event>, v: Id, no: nat, review: Review) {
    Replay(History(audit, v)) == Reached(no == 1, review)
  }

  /** An object that was effective at some time: it is, or it has a later version. */
  predicate EverEffective(x: BobObject) {
    x.effective.Some? || x.nextNo > 2
  }

  /** What a category classifies, by its current version. */
  function TargetOf(s: State, c: Id): Option<Entity> {
    if c in s.objects && s.objects[c].current in s.details then s.details[s.objects[c].current].target else None
  }

  /** All references of a detail row are to objects that were effective, and categories still classify what they are
      used for. */
  ghost predicate DetailInv(s: State, v: Id) {
    && v in s.versions && v in s.details
    && var d := s.details[v];
    && ValidFields(s.versions[v].entity, d)
    && (forall id :: Cites(d, id) ==> id in s.objects && EverEffective(s.objects[id]))
    && (d.category.Some? ==> TargetOf(s, d.category.value) == Some(s.versions[v].entity))
    && (d.parent.Some? ==> TargetOf(s, d.parent.value) == d.target)
  }

  ghost predicate Issued(s: State) {
    && s.nextId >= 1
    && (forall o :: o in s.objects ==> o < s.nextId)
    && (forall v :: v in s.versions ==> v < s.nextId)
    && (forall e :: e in s.audit ==> e.version in s.versions && s.versions[e.version].owner == e.owner)
    && (forall id :: id in s.cited ==> id in s.objects && EverEffective(s.objects[id]))
  }

  ghost predicate Numbered(versions: map<Id, Version>) {
    forall v, w | v in versions && w in versions ::
      versions[v].owner == versions[w].owner && versions[v].no == versions[w].no ==> v == w
  }

  ghost predicate Coded(objects: map<Id, BobObject>) {
    forall a, b | a in objects && b in objects ::
      objects[a].entity == objects[b].entity && objects[a].code == objects[b].code ==> a == b
  }

  ghost predicate Inv(s: State) {
    && Issued(s) && Numbered(s.versions) && Coded(s.objects)
    && s.details.Keys == s.versions.Keys
    && (forall o {:trigger ObjectInv(s, o)} :: o in s.objects ==> ObjectInv(s, o))
    && (forall v {:trigger VersionInv(s, v)} :: v in s.versions ==> VersionInv(s, v))
    && (forall v {:trigger DetailInv(s, v)} :: v in s.versions ==> DetailInv(s, v))
  }

  // ------------------------------------------------------- consequences

  /** The conditions of the reference queries reduce to the effective pointer. */
  lemma EffectiveIsPointer(s: State, id: Id)
    requires Inv(s)
    ensures EffectiveNow(s, id) <==> id in s.objects && s.objects[id].effective.Some?
  {
    if id in s.objects {
      assert ObjectInv(s, id);
    }
  }

  lemma EffectiveHasPointer(s: State, entity: Entity, id: Id)
    ensures EffectiveReference(s, entity, id) ==> id in s.objects && s.objects[id].effective.Some?
  {
  }

  /** Whatever a checked detail cites was effective at some time. */
  lemma CheckedDetail(s: State, entity: Entity, self: Id, d: Detail)
    requires ValidFields(entity, d) && DetailFailure(s, entity, self, d).None?
    ensures forall id :: Cites(d, id) ==> id in s.objects && s.objects[id].effective.Some?
    ensures d.category.Some? ==> EffectiveCategory(s, d.category.value, Some(entity))
    ensures d.parent.Some? ==> EffectiveCategory(s, d.parent.value, d.target)
    ensures d.parent != Some(self) && (forall x :: x in d.references ==> x.id != self)
  {
    hide EffectiveReference, ReferencesFailure, SortBy;
    SameElements(SortBy(ReferenceNotAfter, d.references), d.references);
    forall id | Cites(d, id)
      ensures id in s.objects && s.objects[id].effective.Some?
    {
      if d.platform == Some(id) {
        EffectiveHasPointer(s, Supplier, id);
      } else if d.category == Some(id) || d.parent == Some(id) {
        EffectiveHasPointer(s, Category, id);
      } else {
        var x :| x in d.references && x.id == id;
        EffectiveHasPointer(s, x.entity, id);
      }
    }
  }
}
