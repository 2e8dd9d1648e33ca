/** The business object service as it runs: checks first, then guarded updates of the tables. Once the checks have
    passed under the object's lock, every guarded update finds its row, so nothing is left to roll back. */
module BobService {
  import opened Results
  import opened Sequences
  import opened BobModel
  import opened BobInvariant
  import opened BobPreservation

  /** The state after a transaction: its result, or the state before it. */
  ghost function Committed(s: State, r: Result<State>): State {
    if r.Ok? then r.value else s
  }

  class Store {
    var objects: map<Id, BobObject>
    var versions: map<Id, Version>
    var details: map<Id, Detail>
    var audit: seq<Event>
    var cited: set<Id>
    var nextId: Id

    function Tables(): State
      reads this
    {
      State(objects, versions, details, audit, cited, nextId)
    }

    ghost predicate Valid()
      reads this
    {
      Inv(Tables())
    }

    /** How a transaction ended: the tables hold the result of the step, or what they held before it. */
    ghost predicate Ended(before: State, r: Result<State>, failure: Option<Failure>)
      reads this
    {
      && Tables() == Committed(before, r)
      && failure == (if r.Ok? then None else Some(r.failure))
    }

    constructor ()
      ensures Tables() == EMPTY && Valid()
    {
      objects, versions, details, audit, cited, nextId := map[], map[], map[], [], {}, 1;
      new;
      EmptyIsSound();
    }

    // ---------------------------------------------------------- statements

    method InsertAudit(owner: Id, version: Id, kind: EventKind, from: Option<Status>, to: Status, actor: Id)
      modifies this`audit
      ensures audit == old(audit) + [Event(owner, version, kind, from, to, actor)]
    {
      audit := audit + [Event(owner, version, kind, from, to, actor)];
    }

    /** An UPDATE of one version row under the revision and status its caller read; counts the rows it changed. */
    method UpdateVersion(v: Id, owner: Id, entity: Entity, revision: nat, expected: set<Status>, after: Review)
      returns (rows: nat)
      modifies this`versions
      ensures var hit := v in old(versions) && old(versions)[v].owner == owner && old(versions)[v].entity == entity
                         && old(versions)[v].review.revision == revision && old(versions)[v].review.status in expected;
              && rows == (if hit then 1 else 0)
              && versions == if hit then old(versions)[v := old(versions)[v].(review := after)] else old(versions)
    {
      if v in versions && versions[v].owner == owner && versions[v].entity == entity
         && versions[v].review.revision == revision && versions[v].review.status in expected {
        versions := versions[v := versions[v].(review := after)];
        return 1;
      }
      return 0;
    }

    /** `SetBobObjectEffective`. */
    method SetEffective(o: Id, entity: Entity, v: Id, revision: nat) returns (rows: nat)
      modifies this`objects
      ensures var hit := o in old(objects) && old(objects)[o].entity == entity && old(objects)[o].current == v
                         && old(objects)[o].effective.None? && old(objects)[o].revision == revision;
              && rows == (if hit then 1 else 0)
              && objects == if hit
                  then old(objects)[o := old(objects)[o].(effective := Some(v), revision := revision + 1)]
                            else old(objects)
    {
      if o in objects && objects[o].entity == entity && objects[o].current == v && objects[o].effective.None?
         && objects[o].revision == revision {
        objects := objects[o := objects[o].(effective := Some(v), revision := revision + 1)];
        return 1;
      }
      return 0;
    }

    /** `AdvanceBobObjectForEdit`. */
    method AdvanceForEdit(o: Id, entity: Entity, newVersion: Id, oldVersion: Id, revision: nat) returns (rows: nat)
      modifies this`objects
      ensures var hit := o in old(objects) && old(objects)[o].entity == entity && old(objects)[o].current == oldVersion
                         && old(objects)[o].effective == Some(oldVersion) && old(objects)[o].revision == revision;
              && rows == (if hit then 1 else 0)
              && objects == if !hit then old(objects)
                            else old(objects)[o := old(objects)[o].(current := newVersion, effective := None,
                                   nextNo := old(objects)[o].nextNo + 1, revision := revision + 1)]
    {
      if o in objects && objects[o].entity == entity && objects[o].current == oldVersion
         && objects[o].effective == Some(oldVersion) && objects[o].revision == revision {
        objects := objects[o := objects[o].(current := newVersion, effective := None,
                                            nextNo := objects[o].nextNo + 1, revision := revision + 1)];
        return 1;
      }
      return 0;
    }

    /** `DeleteBobAuditEventsForDraft`. */
    method DeleteAudit(o: Id, v: Id) returns (rows: nat)
      modifies this`audit
      ensures audit == AuditWithout(old(audit), o, v) && rows == |old(audit)| - |audit|
    {
      FilterShortens(audit, (e: Event) => !(IsOf(e, o, v) && (e.kind.Created? || e.kind.Saved?)));
      var kept := AuditWithout(audit, o, v);
      rows := |audit| - |kept|;
      audit := kept;
    }

    method DeleteDetail(v: Id) returns (rows: nat)
      modifies this`details
      ensures rows == (if v in old(details) then 1 else 0) && details == old(details) - {v}
    {
      rows := if v in details then 1 else 0;
      details := details - {v};
    }

    /** `DeleteBobFirstVersion`. */
    method DeleteFirstVersion(v: Id, owner: Id, entity: Entity, revision: nat) returns (rows: nat)
      modifies this`versions
      ensures var hit := v in old(versions) && old(versions)[v].owner == owner && old(versions)[v].entity == entity
                         && old(versions)[v].no == 1 && old(versions)[v].review == Review(Draft, revision, None, None);
              rows == (if hit then 1 else 0) && versions == if hit then old(versions) - {v} else old(versions)
    {
      if v in versions && versions[v].owner == owner && versions[v].entity == entity && versions[v].no == 1
         && versions[v].review == Review(Draft, revision, None, None) {
        versions := versions - {v};
        return 1;
      }
      return 0;
    }

    /** `DeleteBobObject`. */
    method DeleteObject(o: Id, entity: Entity, version: Id, revision: nat) returns (rows: nat)
      modifies this`objects
      ensures var hit := o in old(objects) && old(objects)[o].entity == entity && old(objects)[o].current == version
                         && old(objects)[o].effective.None? && old(objects)[o].nextNo == 2
                         && old(objects)[o].revision == revision;
              rows == (if hit then 1 else 0) && objects == if hit then old(objects) - {o} else old(objects)
    {
      if o in objects && objects[o].entity == entity && objects[o].current == version && objects[o].effective.None?
         && objects[o].nextNo == 2 && objects[o].revision == revision {
        objects := objects - {o};
        return 1;
      }
      return 0;
    }

    // --------------------------------------------------------- transactions

    method Create(entity: Entity, code: string, d: Detail, actor: Id) returns (failure: Option<Failure>)
      requires Valid()
      modifies this
      ensures Valid()
      ensures Ended(old(Tables()), BobModel.Create(old(Tables()), entity, code, d, actor), failure)
    {
      hide Inv, DetailFailure, ValidFields;
      StepKeepsInv(Tables(), CreateAction(entity, code, d, actor));
      if !ValidFields(entity, d) {
        return Some(Validation);
      }
      var o, v := nextId, nextId + 1;
      var refused := DetailFailure(Tables(), entity, o, d);
      if refused.Some? {
        return refused;
      }
      if CodeTaken(Tables(), entity, code) {
        return Some(Conflict);
      }
      nextId := nextId + 2;
      objects := objects[o := BobObject(entity, code, v, None, 2, 1)];
      versions := versions[v := Version(o, entity, 1, Review(Draft, 1, None, None))];
      details := details[v := d];
      InsertAudit(o, v, Created, None, Draft, actor);
      return None;
    }

    method Save(t: Target, d: Detail, actor: Id) returns (failure: Option<Failure>)
      requires Valid()
      modifies this
      ensures Valid()
      ensures Ended(old(Tables()), BobModel.Save(old(Tables()), t, d, actor), failure)
    {
      hide Inv, DetailFailure, ValidFields, HasReferences;
      StepKeepsInv(Tables(), SaveAction(t, d, actor));
      if t.revision < 1 || !Locked(Tables(), t) {
        return Some(Validation);
      }
      var before, review := Tables(), versions[t.version].review;
      if !Writable(before, t) || !Open(review.status) {
        return Some(Conflict);
      }
      if !ValidFields(t.entity, d) {
        return Some(Validation);
      }
      if t.entity.Category? && d.target != details[t.version].target && HasReferences(before, t.owner) {
        return Some(Conflict);
      }
      var refused := DetailFailure(before, t.entity, t.owner, d);
      if refused.Some? {
        return refused;
      }
      details := details[t.version := d];
      var after := review.(revision := review.revision + 1);
      var rows := UpdateVersion(t.version, t.owner, t.entity, t.revision, {Draft, Status.Rejected}, after);
      assert rows == 1;
      InsertAudit(t.owner, t.version, Saved, Some(review.status), review.status, actor);
      SameObject(before, t);
      return None;
    }

    method Submit(t: Target, actor: Id) returns (failure: Option<Failure>)
      requires Valid()
      modifies this
      ensures Valid()
      ensures Ended(old(Tables()), BobModel.Submit(old(Tables()), t, actor), failure)
    {
      hide Inv, DetailFailure, ValidFields;
      StepKeepsInv(Tables(), SubmitAction(t, actor));
      if t.revision < 1 || !Locked(Tables(), t) {
        return Some(Validation);
      }
      var before, review := Tables(), versions[t.version].review;
      if !Writable(before, t) || !Open(review.status) {
        return Some(Conflict);
      }
      if !ValidFields(t.entity, details[t.version]) {
        return Some(Validation);
      }
      var refused := DetailFailure(before, t.entity, t.owner, details[t.version]);
      if refused.Some? {
        return refused;
      }
      var after := Review(Pending, review.revision + 1, Some(actor), None);
      var rows := UpdateVersion(t.version, t.owner, t.entity, t.revision, {Draft, Status.Rejected}, after);
      assert rows == 1;
      InsertAudit(t.owner, t.version, Submitted, Some(review.status), Pending, actor);
      SameObject(before, t);
      return None;
    }

    method Approve(t: Target, actor: Id) returns (failure: Option<Failure>)
      requires Valid()
      modifies this
      ensures Valid()
      ensures Ended(old(Tables()), BobModel.Approve(old(Tables()), t, actor), failure)
    {
      hide Inv, DetailFailure, ValidFields;
      StepKeepsInv(Tables(), ApproveAction(t, actor));
      if t.revision < 1 || !Locked(Tables(), t) {
        return Some(Validation);
      }
      var before, review := Tables(), versions[t.version].review;
      if !Writable(before, t) || !review.status.Pending? {
        return Some(Conflict);
      }
      if review.submittedBy.None? || review.submittedBy.value == actor {
        return Some(Conflict);
      }
      if !ValidFields(t.entity, details[t.version]) {
        return Some(Validation);
      }
      var refused := DetailFailure(before, t.entity, t.owner, details[t.version]);
      if refused.Some? {
        return refused;
      }
      var after := review.(status := Effective, revision := review.revision + 1, reviewedBy := Some(actor));
      var rows := UpdateVersion(t.version, t.owner, t.entity, t.revision, {Pending}, after);
      assert rows == 1;
      rows := SetEffective(t.owner, t.entity, t.version, objects[t.owner].revision);
      assert rows == 1;
      InsertAudit(t.owner, t.version, ApprovedEvent, Some(Pending), Effective, actor);
      SameObject(before, t);
      return None;
    }

    method Reject(t: Target, actor: Id) returns (failure: Option<Failure>)
      requires Valid()
      modifies this
      ensures Valid()
      ensures Ended(old(Tables()), BobModel.Reject(old(Tables()), t, actor), failure)
    {
      hide Inv;
      StepKeepsInv(Tables(), RejectAction(t, actor));
      if t.revision < 1 || !Locked(Tables(), t) {
        return Some(Validation);
      }
      var before, review := Tables(), versions[t.version].review;
      if !Writable(before, t) || !review.status.Pending? {
        return Some(Conflict);
      }
      if review.submittedBy.None? || review.submittedBy.value == actor {
        return Some(Conflict);
      }
      var after := review.(status := Status.Rejected, revision := review.revision + 1, reviewedBy := Some(actor));
      var rows := UpdateVersion(t.version, t.owner, t.entity, t.revision, {Pending}, after);
      assert rows == 1;
      InsertAudit(t.owner, t.version, RejectedEvent, Some(Pending), Status.Rejected, actor);
      SameObject(before, t);
      return None;
    }

    method Edit(entity: Entity, o: Id, objectRevision: nat, actor: Id) returns (failure: Option<Failure>)
      requires Valid()
      modifies this
      ensures Valid()
      ensures Ended(old(Tables()), BobModel.Edit(old(Tables()), entity, o, objectRevision, actor), failure)
    {
      hide Inv;
      StepKeepsInv(Tables(), EditAction(entity, o, objectRevision, actor));
      OnlyOldIds(Tables());
      if objectRevision < 1 || o !in objects || objects[o].entity != entity {
        return Some(Validation);
      }
      var before, x := Tables(), objects[o];
      if x.revision != objectRevision || x.effective != Some(x.current)
         || x.current !in versions || x.current !in details || versions[x.current].owner != o
         || !versions[x.current].review.status.Effective? {
        return Some(Conflict);
      }
      EntityOfCurrent(before, o);
      StartDraft(o, entity, actor);
      return None;
    }

    /** The writes of an edit. */
    method StartDraft(o: Id, entity: Entity, actor: Id)
      requires Editable(Tables(), o) && nextId !in versions
      requires objects[o].entity == entity == versions[objects[o].current].entity
      modifies this
      ensures Tables() == WithNewDraft(old(Tables()), o, actor)
    {
      var x := objects[o];
      var row, v := versions[x.current], nextId;
      nextId := nextId + 1;
      versions := versions[v := Version(o, entity, x.nextNo, Review(Draft, 1, None, None))];
      details := details[v := details[x.current]];
      var invalid := row.review.(status := Invalid, revision := row.review.revision + 1);
      var rows := UpdateVersion(x.current, o, entity, row.review.revision, {Effective}, invalid);
      assert rows == 1;
      rows := AdvanceForEdit(o, entity, v, x.current, x.revision);
      assert rows == 1;
      InsertAudit(o, x.current, Invalidated, Some(Effective), Invalid, actor);
      InsertAudit(o, v, EditStarted, None, Draft, actor);
      assert versions == WithNewDraft(old(Tables()), o, actor).versions;
      assert audit == WithNewDraft(old(Tables()), o, actor).audit;
    }

    method Delete(t: Target, objectRevision: nat) returns (failure: Option<Failure>)
      requires Valid()
      modifies this
      ensures Valid()
      ensures Ended(old(Tables()), BobModel.Delete(old(Tables()), t, objectRevision), failure)
    {
      hide Inv, AuditIsDeletable, HasReferences, AuditWithout;
      StepKeepsInv(Tables(), DeleteAction(t, objectRevision));
      if t.revision < 1 || objectRevision < 1 || !Locked(Tables(), t) {
        return Some(Validation);
      }
      var before := Tables();
      if !FirstDraft(before, t, objectRevision) {
        return Some(Conflict);
      }
      if |VersionsOf(before, t.owner)| != 1 {
        return Some(Conflict);
      }
      if !AuditIsDeletable(audit, t.owner, t.version) {
        return Some(Conflict);
      }
      if HasReferences(before, t.owner) {
        return Some(Conflict);
      }
      DraftHasAudit(audit, t.owner, t.version);
      var rows := DeleteAudit(t.owner, t.version);
      assert rows >= 1;
      rows := DeleteDetail(t.version);
      assert rows == 1;
      rows := DeleteFirstVersion(t.version, t.owner, t.entity, t.revision);
      assert rows == 1;
      rows := DeleteObject(t.owner, t.entity, t.version, objectRevision);
      assert rows == 1;
      return None;
    }
  }

  /** `TouchBobObject` changes no column of the model. */
  lemma SameObject(s: State, t: Target)
    requires Locked(s, t)
    ensures s.objects[t.owner := s.objects[t.owner]] == s.objects
    ensures s.details[t.version := s.details[t.version]] == s.details
  {
  }

  /** What may be deleted has audit events to delete. */
  lemma DraftHasAudit(audit: seq<Event>, owner: Id, version: Id)
    requires AuditIsDeletable(audit, owner, version)
    ensures |AuditWithout(audit, owner, version)| < |audit|
  {
    var mine := Filter(audit, (e: Event) => IsOf(e, owner, version));
    assert mine[0] in mine;
    FilterShortens(audit, (e: Event) => !(IsOf(e, owner, version) && (e.kind.Created? || e.kind.Saved?)));
  }

  lemma OnlyOldIds(s: State)
    requires Inv(s)
    ensures s.nextId !in s.versions
  {
    hide ObjectInv, VersionInv, DetailInv, Numbered, Coded;
  }
}
