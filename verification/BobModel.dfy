/** Business objects, their versions and the review lifecycle: one step per committed transaction. */
module BobModel {
  import opened Results
  import opened Sequences

  // --------------------------------------------------------------- tables

  datatype Entity =
    | Customer | Supplier | Employee | Product | Service | Warehouse | Vehicle
    | FundAccount | Category | Department | Position | SettlementMethod

  datatype Status = Draft | Pending | Rejected | Effective | Invalid

  /** A row of `bob_objects`. */
  datatype BobObject = BobObject(
    entity: Entity, code: string, current: Id, effective: Option<Id>, nextNo: nat, revision: nat)

  /** The columns of a version that its lifecycle changes. */
  datatype Review = Review(status: Status, revision: nat, submittedBy: Option<Id>, reviewedBy: Option<Id>)

  /** A row of `bob_versions`. */
  datatype Version = Version(owner: Id, entity: Entity, no: nat, review: Review)

  datatype Reference = Reference(entity: Entity, id: Id)

  /** The detail row of a version: its name and everything in it that refers to another object.
      `target` is the entity a category classifies, `logistics` marks a logistics platform. */
  datatype Detail = Detail(
    name: string, target: Option<Entity>, logistics: bool, platform: Option<Id>,
    category: Option<Id>, references: seq<Reference>, parent: Option<Id>)

  datatype EventKind = Created | EditStarted | Saved | Submitted | ApprovedEvent | RejectedEvent | Invalidated

  /** A row of `bob_audit_events`. */
  datatype Event = Event(owner: Id, version: Id, kind: EventKind, from: Option<Status>, to: Status, actor: Id)

  /** The tables, and the objects that VOU documents cite. */
  datatype State = State(
    objects: map<Id, BobObject>, versions: map<Id, Version>, details: map<Id, Detail>,
    audit: seq<Event>, cited: set<Id>, nextId: Id)

  // ----------------------------------------------------------- references

  /** `o.current_version_id = o.effective_version_id` and that version is EFFECTIVE. */
  predicate EffectiveNow(s: State, id: Id) {
    && id in s.objects
    && s.objects[id].effective == Some(s.objects[id].current)
    && s.objects[id].current in s.versions
    && s.objects[id].current in s.details
    && s.versions[s.objects[id].current].owner == id
    && s.versions[s.objects[id].current].review.status.Effective?
  }

  predicate EffectiveReference(s: State, entity: Entity, id: Id) {
    EffectiveNow(s, id) && s.objects[id].entity == entity
  }

  predicate EffectiveCategory(s: State, id: Id, target: Option<Entity>) {
    EffectiveReference(s, Category, id) && s.details[s.objects[id].current].target == target
  }

  predicate EffectivePlatform(s: State, id: Id) {
    EffectiveReference(s, Supplier, id) && s.details[s.objects[id].current].logistics
  }

  predicate ReferenceNotAfter(a: Reference, b: Reference) {
    a.id <= b.id
  }

  /** The loop over the references, in the order of their ids. */
  function ReferencesFailure(s: State, self: Id, references: seq<Reference>): (r: Option<Failure>)
    ensures r.None? <==> forall x :: x in references ==> x.id != self && EffectiveReference(s, x.entity, x.id)
  {
    if |references| == 0 then None
    else
      var first := references[0];
      if first.id == self then Some(Validation)
      else if !EffectiveReference(s, first.entity, first.id) then Some(Conflict)
      else
        assert forall x :: x in references <==> x == first || x in references[1..];
        ReferencesFailure(s, self, references[1..])
  }

  /** `validateDetailReferences`. */
  function DetailFailure(s: State, entity: Entity, self: Id, d: Detail): Option<Failure> {
    if entity.Vehicle? && d.platform.None? then Some(Validation)
    else if entity.Vehicle? && !EffectivePlatform(s, d.platform.value) then Some(Conflict)
    else if d.category.Some? && !EffectiveCategory(s, d.category.value, Some(entity)) then Some(Conflict)
    else
      match ReferencesFailure(s, self, SortBy(ReferenceNotAfter, d.references))
      case Some(failure) => Some(failure)
      case None =>
        if !entity.Category? || d.parent.None? then None
        else if d.parent.value == self then Some(Validation)
        else if !EffectiveCategory(s, d.parent.value, d.target) then Some(Conflict)
        else None
  }

  /** The objects a detail row refers to. */
  predicate Cites(d: Detail, id: Id) {
    || d.platform == Some(id)
    || d.category == Some(id)
    || d.parent == Some(id)
    || exists x :: x in d.references && x.id == id
  }

  /** `BobObjectHasExternalReferences`. */
  predicate HasReferences(s: State, id: Id) {
    id in s.cited || exists v :: v in s.details && Cites(s.details[v], id)
  }

  const MAX_NAME := 200

  /** The reference fields an entity has, by the entity they refer to. */
  predicate AllowedReference(entity: Entity, target: Entity) {
    match entity
    case Customer => target.SettlementMethod? || target.Employee?
    case Supplier => target.SettlementMethod? || target.Employee?
    case Employee => target.Department? || target.Position?
    case Warehouse => target.Employee?
    case Department => target.Department?
    case _ => false
  }

  /** What the field checks demand of the columns modelled here. */
  predicate ValidFields(entity: Entity, d: Detail) {
    && 1 <= |d.name| <= MAX_NAME
    && (entity.Category? <==> d.target.Some?)
    && (d.target.Some? ==> !d.target.value.Category? && !d.target.value.SettlementMethod?)
    && (d.parent.Some? ==> entity.Category?)
    && (d.category.Some? ==> !entity.Category? && !entity.SettlementMethod?)
    && (d.platform.Some? <==> entity.Vehicle?)
    && (d.logistics ==> entity.Supplier?)
    && (forall x :: x in d.references ==> AllowedReference(entity, x.entity))
    && (forall i, j :: 0 <= i < j < |d.references| ==> d.references[i].entity != d.references[j].entity)
    && (entity.Customer? || entity.Supplier? ==> exists x :: x in d.references && x.entity.Employee?)
  }

  // ------------------------------------------------------------ lifecycle

  /** What a request names: the version, and the revision it expects. */
  datatype Target = Target(entity: Entity, owner: Id, version: Id, revision: nat)

  /** `lockTarget`. */
  predicate Locked(s: State, t: Target) {
    && t.owner in s.objects && s.objects[t.owner].entity == t.entity
    && t.version in s.versions && t.version in s.details
    && s.versions[t.version].owner == t.owner && s.versions[t.version].entity == t.entity
  }

  /** The guard shared by the writes to a version: it is the current one, none is effective, and its revision is
      known. */
  predicate Writable(s: State, t: Target)
    requires Locked(s, t)
  {
    && s.objects[t.owner].current == t.version
    && s.objects[t.owner].effective.None?
    && s.versions[t.version].review.revision == t.revision
  }

  predicate Open(status: Status) {
    status.Draft? || status.Rejected?
  }

  function Create(s: State, entity: Entity, code: string, d: Detail, actor: Id): Result<State> {
    if !ValidFields(entity, d) then Err(Validation)
    else
      match DetailFailure(s, entity, s.nextId, d)
      case Some(failure) => Err(failure)
      case None =>
        if CodeTaken(s, entity, code) then Err(Conflict) else Ok(WithNewObject(s, entity, code, d, actor))
  }

  /** The unique index over entity and code. */
  predicate CodeTaken(s: State, entity: Entity, code: string) {
    exists x :: x in s.objects && s.objects[x].entity == entity && s.objects[x].code == code
  }

  function WithNewObject(s: State, entity: Entity, code: string, d: Detail, actor: Id): State {
    var o, v := s.nextId, s.nextId + 1;
    s.(objects := s.objects[o := BobObject(entity, code, v, None, 2, 1)],
       versions := s.versions[v := Version(o, entity, 1, Review(Draft, 1, None, None))],
       details := s.details[v := d],
       audit := s.audit + [Event(o, v, Created, None, Draft, actor)],
       nextId := s.nextId + 2)
  }

  /** One review step of a version: its lifecycle columns and its object change, and the audit log grows. */
  function Reviewed(s: State, t: Target, x: BobObject, review: Review, d: Detail, kind: EventKind, actor: Id): State
    requires Locked(s, t)
  {
    var row := s.versions[t.version];
    s.(objects := s.objects[t.owner := x],
       versions := s.versions[t.version := row.(review := review)],
       details := s.details[t.version := d],
       audit := s.audit + [Event(t.owner, t.version, kind, Some(row.review.status), review.status, actor)])
  }

  function Save(s: State, t: Target, d: Detail, actor: Id): Result<State> {
    if t.revision < 1 || !Locked(s, t) then Err(Validation)
    else
      var x, review := s.objects[t.owner], s.versions[t.version].review;
      if !Writable(s, t) || !Open(review.status) then Err(Conflict)
      else if !ValidFields(t.entity, d) then Err(Validation)
      else if t.entity.Category? && d.target != s.details[t.version].target && HasReferences(s, t.owner)
          then Err(Conflict)
      else
        match DetailFailure(s, t.entity, t.owner, d)
        case Some(failure) => Err(failure)
        case None => Ok(Reviewed(s, t, x, review.(revision := review.revision + 1), d, Saved, actor))
  }

  function Submit(s: State, t: Target, actor: Id): Result<State> {
    if t.revision < 1 || !Locked(s, t) then Err(Validation)
    else
      var x, review, d := s.objects[t.owner], s.versions[t.version].review, s.details[t.version];
      if !Writable(s, t) || !Open(review.status) then Err(Conflict)
      else if !ValidFields(t.entity, d) then Err(Validation)
      else
        match DetailFailure(s, t.entity, t.owner, d)
        case Some(failure) => Err(failure)
        case None => Ok(Reviewed(s, t, x, Review(Pending, review.revision + 1, Some(actor), None), d, Submitted, actor))
  }

  function Approve(s: State, t: Target, actor: Id): Result<State> {
    if t.revision < 1 || !Locked(s, t) then Err(Validation)
    else
      var x, review, d := s.objects[t.owner], s.versions[t.version].review, s.details[t.version];
      if !Writable(s, t) || !review.status.Pending? then Err(Conflict)
      else if review.submittedBy.None? || review.submittedBy.value == actor then Err(Conflict)
      else if !ValidFields(t.entity, d) then Err(Validation)
      else
        match DetailFailure(s, t.entity, t.owner, d)
        case Some(failure) => Err(failure)
        case None =>
          var effective := x.(effective := Some(t.version), revision := x.revision + 1);
          var after := review.(status := Effective, revision := review.revision + 1, reviewedBy := Some(actor));
          Ok(Reviewed(s, t, effective, after, d, ApprovedEvent, actor))
  }

  function Reject(s: State, t: Target, actor: Id): Result<State> {
    if t.revision < 1 || !Locked(s, t) then Err(Validation)
    else
      var x, review, d := s.objects[t.owner], s.versions[t.version].review, s.details[t.version];
      if !Writable(s, t) || !review.status.Pending? then Err(Conflict)
      else if review.submittedBy.None? || review.submittedBy.value == actor then Err(Conflict)
      else
        var after := review.(status := Status.Rejected, revision := review.revision + 1, reviewedBy := Some(actor));
        Ok(Reviewed(s, t, x, after, d, RejectedEvent, actor))
  }

  /** Opens a new draft on an effective object; the effective version becomes invalid. */
  function Edit(s: State, entity: Entity, owner: Id, objectRevision: nat, actor: Id): Result<State> {
    if objectRevision < 1 || owner !in s.objects || s.objects[owner].entity != entity then Err(Validation)
    else
      var x := s.objects[owner];
      if x.revision != objectRevision || x.effective != Some(x.current)
         || x.current !in s.versions || x.current !in s.details || s.versions[x.current].owner != owner
         || !s.versions[x.current].review.status.Effective? then Err(Conflict)
      else Ok(WithNewDraft(s, owner, actor))
  }

  function WithNewDraft(s: State, owner: Id, actor: Id): State
    requires owner in s.objects && s.objects[owner].current in s.versions && s.objects[owner].current in s.details
  {
    var x, v := s.objects[owner], s.nextId;
    var row := s.versions[x.current];
    var invalid := row.review.(status := Invalid, revision := row.review.revision + 1);
    var after := x.(current := v, effective := None, nextNo := x.nextNo + 1, revision := x.revision + 1);
    s.(objects := s.objects[owner := after],
       versions := s.versions[x.current := row.(review := invalid)]
                             [v := Version(owner, x.entity, x.nextNo, Review(Draft, 1, None, None))],
       details := s.details[v := s.details[x.current]],
       audit := s.audit + [Event(owner, x.current, Invalidated, Some(row.review.status), Invalid, actor)]
                        + [Event(owner, v, EditStarted, None, Draft, actor)],
       nextId := s.nextId + 1)
  }

  /** The versions of an object. */
  function VersionsOf(s: State, owner: Id): set<Id> {
    set v | v in s.versions && s.versions[v].owner == owner
  }

  predicate IsOf(e: Event, owner: Id, version: Id) {
    e.owner == owner && e.version == version
  }

  /** `BobDraftAuditIsDeletable`. */
  predicate AuditIsDeletable(audit: seq<Event>, owner: Id, version: Id) {
    var mine := Filter(audit, (e: Event) => IsOf(e, owner, version));
    && |mine| >= 1
    && |Filter(mine, (e: Event) => e.kind.Created?)| == 1
    && forall e :: e in mine ==> e.kind.Created? || e.kind.Saved?
  }

  /** `DeleteBobAuditEventsForDraft`. */
  function AuditWithout(audit: seq<Event>, owner: Id, version: Id): seq<Event> {
    Filter(audit, (e: Event) => !(IsOf(e, owner, version) && (e.kind.Created? || e.kind.Saved?)))
  }

  /** The guard of `Delete`: a first draft that was never submitted. */
  predicate FirstDraft(s: State, t: Target, objectRevision: nat)
    requires Locked(s, t)
  {
    var x, row := s.objects[t.owner], s.versions[t.version];
    && x.revision == objectRevision && x.current == t.version && x.effective.None? && x.nextNo == 2
    && row.no == 1 && row.review == Review(Draft, t.revision, None, None)
  }

  function Delete(s: State, t: Target, objectRevision: nat): Result<State> {
    if t.revision < 1 || objectRevision < 1 || !Locked(s, t) then Err(Validation)
    else if !FirstDraft(s, t, objectRevision) then Err(Conflict)
    else if |VersionsOf(s, t.owner)| != 1 then Err(Conflict)
    else if !AuditIsDeletable(s.audit, t.owner, t.version) then Err(Conflict)
    else if HasReferences(s, t.owner) then Err(Conflict)
    else
      Ok(Without(s, t))
  }

  function Without(s: State, t: Target): State {
    s.(objects := s.objects - {t.owner}, versions := s.versions - {t.version}, details := s.details - {t.version},
       audit := AuditWithout(s.audit, t.owner, t.version))
  }

  /** A VOU document starts to cite an object, which must be effective; or the last one stops citing it. */
  function Cite(s: State, id: Id): Result<State> {
    if EffectiveNow(s, id) then Ok(s.(cited := s.cited + {id})) else Err(Conflict)
  }

  function Uncite(s: State, id: Id): State {
    s.(cited := s.cited - {id})
  }

  // ------------------------------------------------------------- the runs

  datatype Action =
    | CreateAction(entity: Entity, code: string, detail: Detail, actor: Id)
    | SaveAction(t: Target, detail: Detail, actor: Id)
    | SubmitAction(t: Target, actor: Id)
    | ApproveAction(t: Target, actor: Id)
    | RejectAction(t: Target, actor: Id)
    | EditAction(entity: Entity, owner: Id, objectRevision: nat, actor: Id)
    | DeleteAction(t: Target, objectRevision: nat)
    | CiteAction(id: Id)
    | UnciteAction(id: Id)

  function Step(s: State, a: Action): Result<State> {
    match a
    case CreateAction(entity, code, detail, actor) => Create(s, entity, code, detail, actor)
    case SaveAction(t, detail, actor) => Save(s, t, detail, actor)
    case SubmitAction(t, actor) => Submit(s, t, actor)
    case ApproveAction(t, actor) => Approve(s, t, actor)
    case RejectAction(t, actor) => Reject(s, t, actor)
    case EditAction(entity, owner, objectRevision, actor) => Edit(s, entity, owner, objectRevision, actor)
    case DeleteAction(t, objectRevision) => Delete(s, t, objectRevision)
    case CiteAction(id) => Cite(s, id)
    case UnciteAction(id) => Ok(Uncite(s, id))
  }

  /** A refused action rolls its transaction back. */
  function Next(s: State, a: Action): State {
    var r := Step(s, a);
    if r.Ok? then r.value else s
  }

  function Run(s: State, actions: seq<Action>): State {
    if |actions| == 0 then s else Next(Run(s, actions[..|actions| - 1]), actions[|actions| - 1])
  }

  const EMPTY := State(map[], map[], map[], [], {}, 1)
}
