/** Every lifecycle step keeps the invariant. */
module BobPreservation {
  import opened Results
  import opened Sequences
  import opened BobModel
  import opened BobInvariant

  // ----------------------------------------------------- one review step

  /** An object after a review step: only an approval moves its effective pointer, and counts it. */
  ghost predicate ObjectAfter(x: BobObject, after: BobObject, v: Id, status: Status) {
    after == if status.Effective? then x.(effective := Some(v), revision := x.revision + 1) else x
  }

  /** A detail row a step may leave behind: the stored one, or a checked one that retargets only an uncited category. */
  ghost predicate DetailAfter(s: State, t: Target, d: Detail)
    requires Locked(s, t)
  {
    || d == s.details[t.version]
    || (&& ValidFields(t.entity, d) && DetailFailure(s, t.entity, t.owner, d).None?
        && (d.target != s.details[t.version].target ==> !HasReferences(s, t.owner)))
  }

  /** An event after the first leads from one review state to the other. */
  ghost predicate Advances(r: Review, e: Event, after: Review) {
    !e.kind.Created? && !e.kind.EditStarted? && e.from == Some(r.status) && AdvanceFrom(r, e) == Some(after)
  }

  ghost predicate ReviewStep(s: State, t: Target, x: BobObject, review: Review, d: Detail, kind: EventKind, actor: Id) {
    && Locked(s, t) && Writable(s, t)
    && Advances(s.versions[t.version].review, Reviewed(s, t, x, review, d, kind, actor).audit[|s.audit|], review)
    && ObjectAfter(s.objects[t.owner], x, t.version, review.status)
    && !review.status.Invalid?
    && DetailAfter(s, t, d)
  }

  lemma HistoryGrows(audit: seq<Event>, e: Event, v: Id)
    ensures History(audit + [e], v) == if e.version == v then History(audit, v) + [e] else History(audit, v)
  {
    FilterAppend(audit, [e], OfVersion(v));
    assert [e][..0] == [];
    assert Filter([e], OfVersion(v)) == if e.version == v then [e] else [];
  }

  lemma ReplayAdvances(history: seq<Event>, e: Event)
    ensures Replay(history + [e]) == Advance(Replay(history), e)
  {
    assert (history + [e])[..|history + [e]| - 1] == history;
  }

  /** A version row and its history advance together. */
  lemma VersionAdvances(audit: seq<Event>, e: Event, v: Id, no: nat, review: Review, after: Review)
    requires Traced(audit, v, no, review)
    requires if e.version == v then Advances(review, e, after) else after == review
    ensures Traced(audit + [e], v, no, after)
  {
    hide Replay, AdvanceFrom, History;
    HistoryGrows(audit, e, v);
    ReplayAdvances(History(audit, v), e);
  }

  lemma ReviewedVersion(s: State, t: Target, x: BobObject, review: Review, d: Detail, kind: EventKind, actor: Id, v: Id)
    requires Inv(s) && ReviewStep(s, t, x, review, d, kind, actor) && v in s.versions
    ensures VersionInv(Reviewed(s, t, x, review, d, kind, actor), v)
  {
    hide DetailAfter, Advances, Numbered, Coded, ObjectInv, DetailInv, Traced, Issued;
    var after := Reviewed(s, t, x, review, d, kind, actor);
    assert VersionInv(s, v);
    VersionAdvances(s.audit, after.audit[|s.audit|], v, s.versions[v].no, s.versions[v].review,
        after.versions[v].review);
  }

  lemma ReviewedObject(s: State, t: Target, x: BobObject, review: Review, d: Detail, kind: EventKind, actor: Id, o: Id)
    requires Inv(s) && ReviewStep(s, t, x, review, d, kind, actor) && o in s.objects
    ensures ObjectInv(Reviewed(s, t, x, review, d, kind, actor), o)
  {
    hide DetailAfter, Advances, Numbered, Coded, VersionInv, DetailInv;
    var after := Reviewed(s, t, x, review, d, kind, actor);
    assert ObjectInv(s, o) && ObjectInv(s, t.owner);
    forall k | 1 <= k < s.objects[o].nextNo
      ensures HasNumber(after.versions, o, k)
    {
      assert HasNumber(s.versions, o, k);
      var v :| v in s.versions && s.versions[v].owner == o && s.versions[v].no == k;
      assert after.versions[v].owner == o && after.versions[v].no == k;
    }
  }

  /** What a step must leave alone for a detail row to stay sound. */
  ghost predicate CitesKept(s: State, after: State, d: Detail) {
    forall c :: Cites(d, c) && c in s.objects && EverEffective(s.objects[c]) ==>
      c in after.objects && EverEffective(after.objects[c]) && TargetOf(after, c) == TargetOf(s, c)
  }

  /** A detail row stays sound where it is, and so does a copy of it under a new version of the same entity. */
  lemma DetailCopied(s: State, after: State, v: Id, w: Id)
    requires DetailInv(s, v)
    requires w in after.versions && w in after.details
    requires after.versions[w].entity == s.versions[v].entity && after.details[w] == s.details[v]
    requires CitesKept(s, after, s.details[v])
    ensures DetailInv(after, w)
  {
    hide ValidFields, TargetOf, EverEffective;
    var d := s.details[v];
    assert d.category.Some? ==> Cites(d, d.category.value);
    assert d.parent.Some? ==> Cites(d, d.parent.value);
  }

  lemma DetailKept(s: State, after: State, v: Id)
    requires DetailInv(s, v)
    requires v in after.versions && v in after.details
    requires after.versions[v].entity == s.versions[v].entity && after.details[v] == s.details[v]
    requires CitesKept(s, after, s.details[v])
    ensures DetailInv(after, v)
  {
    hide ValidFields, TargetOf, EverEffective, CitesKept, Cites;
    DetailCopied(s, after, v, v);
  }

  lemma ReviewedDetail(s: State, t: Target, x: BobObject, review: Review, d: Detail, kind: EventKind, actor: Id, v: Id)
    requires Inv(s) && ReviewStep(s, t, x, review, d, kind, actor) && v in s.versions
    ensures DetailInv(Reviewed(s, t, x, review, d, kind, actor), v)
  {
    hide Advances, Numbered, Coded, ObjectInv, VersionInv, DetailInv, ValidFields, DetailFailure, TargetOf;
    var after := Reviewed(s, t, x, review, d, kind, actor);
    assert SamePointers(s, after);
    if v == t.version && d != s.details[t.version] {
      CheckedTargets(s, t, after, d);
    } else {
      forall c | Cites(s.details[v], c)
        ensures TargetOf(after, c) == TargetOf(s, c)
      {
        TargetsKept(s, t, after, d, c, v);
      }
      DetailKept(s, after, v);
    }
  }

  ghost predicate SamePointers(s: State, after: State) {
    && after.objects.Keys == s.objects.Keys
    && forall o :: o in s.objects ==> after.objects[o].current == s.objects[o].current
  }

  lemma EffectiveIsCounted(s: State, c: Id)
    ensures c in s.objects && s.objects[c].effective.Some? ==> EverEffective(s.objects[c])
    ensures EffectiveReference(s, Category, c) ==>
          c in s.objects && s.objects[c].effective.Some? && s.objects[c].current in s.details
  {
  }

  lemma CheckedTargets(s: State, t: Target, after: State, d: Detail)
    requires Inv(s) && Locked(s, t) && Writable(s, t)
    requires SamePointers(s, after) && after.details == s.details[t.version := d]
    requires forall o :: o in s.objects && EverEffective(s.objects[o]) ==> EverEffective(after.objects[o])
    requires t.version in after.versions && after.versions[t.version].entity == t.entity
    requires ValidFields(t.entity, d) && DetailFailure(s, t.entity, t.owner, d).None?
    ensures DetailInv(after, t.version)
  {
    hide ValidFields, DetailFailure, Numbered, Coded, VersionInv, Cites, Issued, EverEffective, EffectiveNow;
    forall c
      ensures c in s.objects && s.objects[c].effective.Some? ==> EverEffective(s.objects[c])
      ensures EffectiveReference(s, Category, c) ==>
            c in s.objects && s.objects[c].effective.Some? && s.objects[c].current in s.details
    {
      EffectiveIsCounted(s, c);
    }
    CheckedDetail(s, t.entity, t.owner, d);
    forall c | c in s.objects && s.objects[c].effective.Some?
      ensures s.objects[c].current != t.version
    {
      assert ObjectInv(s, c);
    }
  }

  lemma TargetsKept(s: State, t: Target, after: State, d: Detail, c: Id, v: Id)
    requires Inv(s) && Locked(s, t) && Writable(s, t) && v in s.details && Cites(s.details[v], c)
    requires SamePointers(s, after) && after.details == s.details[t.version := d]
    requires DetailAfter(s, t, d)
    ensures TargetOf(after, c) == TargetOf(s, c)
  {
    hide ValidFields, DetailFailure, Numbered, Coded, VersionInv, DetailInv;
    if c in s.objects && s.objects[c].current == t.version {
      assert ObjectInv(s, c);
      assert HasReferences(s, t.owner);
    }
  }

  lemma ReviewedIssued(s: State, t: Target, x: BobObject, review: Review, d: Detail, kind: EventKind, actor: Id)
    requires Inv(s) && ReviewStep(s, t, x, review, d, kind, actor)
    ensures var after := Reviewed(s, t, x, review, d, kind, actor);
            && Issued(after) && Numbered(after.versions) && Coded(after.objects)
            && after.details.Keys == after.versions.Keys
            && after.versions.Keys == s.versions.Keys && after.objects.Keys == s.objects.Keys
  {
    hide ObjectInv, VersionInv, DetailInv, DetailAfter, Advances, Writable;
    var after := Reviewed(s, t, x, review, d, kind, actor);
    assert after.details.Keys == s.details.Keys && after.versions.Keys == s.versions.Keys
        && after.objects.Keys == s.objects.Keys;
  }

  lemma ReviewedKeepsInv(s: State, t: Target, x: BobObject, review: Review, d: Detail, kind: EventKind, actor: Id)
    requires Inv(s) && ReviewStep(s, t, x, review, d, kind, actor)
    ensures Inv(Reviewed(s, t, x, review, d, kind, actor))
  {
    hide Locked, Writable, ObjectAfter, DetailAfter, Advances, ObjectInv, VersionInv, DetailInv, Issued, Numbered,
      Coded;
    var after := Reviewed(s, t, x, review, d, kind, actor);
    ReviewedIssued(s, t, x, review, d, kind, actor);
    forall v | v in after.versions
      ensures VersionInv(after, v)
      ensures DetailInv(after, v)
    {
      ReviewedVersion(s, t, x, review, d, kind, actor, v);
      ReviewedDetail(s, t, x, review, d, kind, actor, v);
    }
    forall o | o in after.objects
      ensures ObjectInv(after, o)
    {
      ReviewedObject(s, t, x, review, d, kind, actor, o);
    }
  }

  lemma StoredFields(s: State, v: Id)
    requires Inv(s) && v in s.versions
    ensures v in s.details && s.versions[v].owner in s.objects && ValidFields(s.versions[v].entity, s.details[v])
  {
    assert VersionInv(s, v) && DetailInv(s, v);
    hide *;
  }

  lemma SaveKeepsInv(s: State, t: Target, d: Detail, actor: Id)
    requires Inv(s) && Save(s, t, d, actor).Ok?
    ensures Inv(Save(s, t, d, actor).value)
  {
    hide Inv, DetailFailure, HasReferences;
    var review := s.versions[t.version].review;
    StoredFields(s, t.version);
    ReviewedKeepsInv(s, t, s.objects[t.owner], review.(revision := review.revision + 1), d, Saved, actor);
  }

  lemma SubmitKeepsInv(s: State, t: Target, actor: Id)
    requires Inv(s) && Submit(s, t, actor).Ok?
    ensures Inv(Submit(s, t, actor).value)
  {
    hide Inv, DetailFailure, HasReferences;
    var review := s.versions[t.version].review;
    ReviewedKeepsInv(s, t, s.objects[t.owner], Review(Pending, review.revision + 1, Some(actor), None),
        s.details[t.version], Submitted, actor);
  }

  lemma ApproveKeepsInv(s: State, t: Target, actor: Id)
    requires Inv(s) && Approve(s, t, actor).Ok?
    ensures Inv(Approve(s, t, actor).value)
  {
    hide Inv, DetailFailure, HasReferences;
    var x, review := s.objects[t.owner], s.versions[t.version].review;
    ReviewedKeepsInv(s, t, x.(effective := Some(t.version), revision := x.revision + 1),
                     review.(status := Effective, revision := review.revision + 1, reviewedBy := Some(actor)),
                     s.details[t.version], ApprovedEvent, actor);
  }

  lemma RejectKeepsInv(s: State, t: Target, actor: Id)
    requires Inv(s) && Reject(s, t, actor).Ok?
    ensures Inv(Reject(s, t, actor).value)
  {
    hide Inv, DetailFailure, HasReferences;
    var x, review := s.objects[t.owner], s.versions[t.version].review;
    ReviewedKeepsInv(s, t, x,
        review.(status := Status.Rejected, revision := review.revision + 1, reviewedBy := Some(actor)),
                     s.details[t.version], RejectedEvent, actor);
  }

  // ----------------------------------------------- rows a step leaves alone

  lemma ObjectKept(s: State, after: State, o: Id)
    requires o in s.objects && ObjectInv(s, o)
    requires o in after.objects && after.objects[o] == s.objects[o]
    requires forall v ::
               v in s.versions && s.versions[v].owner == o ==> v in after.versions && after.versions[v] == s.versions[v]
    ensures ObjectInv(after, o)
  {
    forall k | 1 <= k < s.objects[o].nextNo
      ensures HasNumber(after.versions, o, k)
    {
      assert HasNumber(s.versions, o, k);
      var v :| v in s.versions && s.versions[v].owner == o && s.versions[v].no == k;
      assert after.versions[v].owner == o && after.versions[v].no == k;
    }
  }

  lemma VersionKept(s: State, after: State, v: Id)
    requires v in s.versions && VersionInv(s, v)
    requires v in after.versions && after.versions[v] == s.versions[v]
    requires var o := s.versions[v].owner;
             && o in after.objects && after.objects[o].entity == s.objects[o].entity
             && after.objects[o].nextNo >= s.objects[o].nextNo
             && (after.objects[o].current == v <==> s.objects[o].current == v)
    requires Traced(s.audit, v, s.versions[v].no, s.versions[v].review) ==>
          Traced(after.audit, v, s.versions[v].no, s.versions[v].review)
    ensures VersionInv(after, v)
  {
    hide Traced;
  }

  /** The first event of a new version. */
  lemma FirstEvent(audit: seq<Event>, e: Event, no: nat)
    requires forall x :: x in audit ==> x.version != e.version
    requires (e.kind.Created? || e.kind.EditStarted?) && e.from.None? && e.to.Draft?
    requires e.kind.Created? <==> no == 1
    ensures Traced(audit + [e], e.version, no, Review(Draft, 1, None, None))
  {
    HistoryGrows(audit, e, e.version);
    FilterNone(audit, OfVersion(e.version));
    assert [] + [e] == [e];
    ReplayAdvances([], e);
  }

  // --------------------------------------------------------------- create

  /** Every id in the tables was handed out before. */
  ghost predicate OnlyOld(s: State) {
    && (forall o :: o in s.objects ==> o < s.nextId && s.objects[o].current < s.nextId)
    && (forall v :: v in s.versions ==> v < s.nextId && s.versions[v].owner < s.nextId)
    && (forall e :: e in s.audit ==> e.version < s.nextId)
    && s.details.Keys == s.versions.Keys
  }

  lemma IdsAreOld(s: State)
    requires Inv(s)
    ensures OnlyOld(s)
  {
    hide ObjectInv, VersionInv, DetailInv, Numbered, Coded;
    forall o | o in s.objects
      ensures s.objects[o].current < s.nextId
    {
      CurrentExists(s, o);
    }
    forall v | v in s.versions
      ensures s.versions[v].owner < s.nextId
    {
      OwnerExists(s, v);
    }
  }

  lemma CurrentExists(s: State, o: Id)
    requires Inv(s) && o in s.objects
    ensures s.objects[o].current in s.versions && s.versions[s.objects[o].current].owner == o
          && s.objects[o].nextNo >= 2
  {
    assert ObjectInv(s, o);
    hide VersionInv, DetailInv, Issued, Numbered, Coded;
  }

  lemma CreateIssues(s: State, entity: Entity, code: string, d: Detail, actor: Id)
    requires Inv(s) && !CodeTaken(s, entity, code)
    ensures var after := WithNewObject(s, entity, code, d, actor);
            Issued(after) && Numbered(after.versions) && Coded(after.objects)
                && after.details.Keys == after.versions.Keys
  {
    hide ObjectInv, VersionInv, DetailInv;
    IdsAreOld(s);
    var after := WithNewObject(s, entity, code, d, actor);
    assert after.details.Keys == s.details.Keys + {s.nextId + 1}
        && after.versions.Keys == s.versions.Keys + {s.nextId + 1};
  }

  lemma CreateOld(s: State, entity: Entity, code: string, d: Detail, actor: Id, v: Id)
    requires Inv(s) && v in s.versions
    ensures var after := WithNewObject(s, entity, code, d, actor);
            VersionInv(after, v) && DetailInv(after, v)
  {
    hide Inv, DetailInv, VersionInv, Advances, Traced;
    IdsAreOld(s);
    RowIsSound(s, v);
    var after := WithNewObject(s, entity, code, d, actor);
    VersionAdvances(s.audit, Event(s.nextId, s.nextId + 1, Created, None, Draft, actor), v, s.versions[v].no,
        s.versions[v].review, s.versions[v].review);
    VersionKept(s, after, v);
    assert CitesKept(s, after, s.details[v]) by {
      hide Cites, EverEffective;
    }
    DetailKept(s, after, v);
  }

  lemma RowIsSound(s: State, v: Id)
    requires Inv(s) && v in s.versions
    ensures VersionInv(s, v) && DetailInv(s, v)
    ensures s.versions[v].owner in s.objects && v in s.details
          && Traced(s.audit, v, s.versions[v].no, s.versions[v].review)
  {
    hide DetailInv, Traced, Issued, Numbered, Coded, ObjectInv;
    assert VersionInv(s, v);
  }

  lemma OwnerExists(s: State, v: Id)
    requires Inv(s) && v in s.versions
    ensures s.versions[v].owner in s.objects
  {
    assert VersionInv(s, v);
  }

  /** A new detail row that passed the reference checks. */
  lemma NewDetail(s: State, after: State, entity: Entity, self: Id, d: Detail, v: Id)
    requires ValidFields(entity, d) && DetailFailure(s, entity, self, d).None?
    requires v in after.versions && after.versions[v].entity == entity && v in after.details && after.details[v] == d
    requires forall o :: o in s.objects ==> o in after.objects && after.objects[o] == s.objects[o]
    requires forall w :: w in s.details ==> w in after.details && after.details[w] == s.details[w]
    ensures DetailInv(after, v)
  {
    hide ValidFields, DetailFailure, EffectiveNow, Cites;
    CheckedDetail(s, entity, self, d);
    forall c
      ensures EffectiveReference(s, Category, c) ==>
            c in s.objects && s.objects[c].effective.Some? && s.objects[c].current in s.details
    {
      EffectiveIsCounted(s, c);
    }
  }

  lemma CreateNew(s: State, entity: Entity, code: string, d: Detail, actor: Id)
    requires Inv(s) && ValidFields(entity, d) && DetailFailure(s, entity, s.nextId, d).None?
    ensures var after := WithNewObject(s, entity, code, d, actor);
            ObjectInv(after, s.nextId) && VersionInv(after, s.nextId + 1) && DetailInv(after, s.nextId + 1)
  {
    hide Inv, DetailInv, ValidFields, DetailFailure, Traced;
    IdsAreOld(s);
    var after := WithNewObject(s, entity, code, d, actor);
    var o, v := s.nextId, s.nextId + 1;
    FirstEvent(s.audit, Event(o, v, Created, None, Draft, actor), 1);
    NewDetail(s, after, entity, o, d, v);
    assert after.versions[v].owner == o && after.versions[v].no == 1;
    assert HasNumber(after.versions, o, 1);
  }

  lemma CreateKeepsInv(s: State, entity: Entity, code: string, d: Detail, actor: Id)
    requires Inv(s) && Create(s, entity, code, d, actor).Ok?
    ensures Inv(Create(s, entity, code, d, actor).value)
  {
    hide DetailFailure, ValidFields, CodeTaken, Issued, Numbered, Coded, ObjectInv, VersionInv, DetailInv;
    var after := WithNewObject(s, entity, code, d, actor);
    IdsAreOld(s);
    CreateIssues(s, entity, code, d, actor);
    CreateNew(s, entity, code, d, actor);
    forall v | v in s.versions
      ensures VersionInv(after, v) && DetailInv(after, v)
    {
      CreateOld(s, entity, code, d, actor, v);
    }
    forall o | o in s.objects
      ensures ObjectInv(after, o)
    {
      ObjectKept(s, after, o);
    }
  }

  // ----------------------------------------------------------------- edit

  /** Where an edit may start: the current version is the effective one. */
  ghost predicate Editable(s: State, o: Id) {
    && o in s.objects
    && s.objects[o].current in s.versions && s.objects[o].current in s.details
    && s.versions[s.objects[o].current].owner == o
    && s.objects[o].effective == Some(s.objects[o].current)
    && s.versions[s.objects[o].current].review.status.Effective?
  }

  lemma EditIssues(s: State, o: Id, actor: Id)
    requires Inv(s) && Editable(s, o)
    ensures var after := WithNewDraft(s, o, actor);
            Issued(after) && Coded(after.objects) && after.details.Keys == after.versions.Keys
  {
    hide ObjectInv, VersionInv, DetailInv, Numbered;
    IdsAreOld(s);
    CurrentExists(s, o);
    var after := WithNewDraft(s, o, actor);
    assert after.details.Keys == s.details.Keys + {s.nextId} && after.versions.Keys == s.versions.Keys + {s.nextId};
  }

  lemma EditNumbers(s: State, o: Id, actor: Id)
    requires Inv(s) && Editable(s, o)
    ensures Numbered(WithNewDraft(s, o, actor).versions)
  {
    hide ObjectInv, DetailInv, Issued, Coded, Traced;
    IdsAreOld(s);
    forall v | v in s.versions && s.versions[v].owner == o
      ensures s.versions[v].no < s.objects[o].nextNo
    {
      assert VersionInv(s, v);
    }
  }

  lemma EditObject(s: State, o: Id, actor: Id)
    requires Inv(s) && Editable(s, o)
    ensures ObjectInv(WithNewDraft(s, o, actor), o)
  {
    hide VersionInv, DetailInv, Issued, Coded, Numbered;
    IdsAreOld(s);
    assert ObjectInv(s, o);
    var after := WithNewDraft(s, o, actor);
    forall k | 1 <= k < after.objects[o].nextNo
      ensures HasNumber(after.versions, o, k)
    {
      if k < s.objects[o].nextNo {
        assert HasNumber(s.versions, o, k);
        var v :| v in s.versions && s.versions[v].owner == o && s.versions[v].no == k;
        assert after.versions[v].owner == o && after.versions[v].no == k;
      } else {
        assert after.versions[s.nextId].owner == o && after.versions[s.nextId].no == k;
      }
    }
  }

  /** Traces of the two versions an edit touches, and of the others. */
  lemma EditTraces(s: State, o: Id, actor: Id, v: Id)
    requires Inv(s) && Editable(s, o) && (v in s.versions || v == s.nextId)
    ensures var after := WithNewDraft(s, o, actor);
            Traced(after.audit, v, after.versions[v].no, after.versions[v].review)
  {
    hide Inv, VersionInv, DetailInv, Traced;
    IdsAreOld(s);
    var after := WithNewDraft(s, o, actor);
    var row := s.versions[s.objects[o].current];
    var first := Event(o, s.objects[o].current, Invalidated, Some(row.review.status), Invalid, actor);
    var second := Event(o, s.nextId, EditStarted, None, Draft, actor);
    if v == s.nextId {
      CurrentExists(s, o);
      FirstEvent(s.audit + [first], second, s.objects[o].nextNo);
    } else {
      RowIsSound(s, v);
      VersionAdvances(s.audit, first, v, s.versions[v].no, s.versions[v].review, after.versions[v].review);
      VersionAdvances(s.audit + [first], second, v, s.versions[v].no, after.versions[v].review,
        after.versions[v].review);
    }
  }

  lemma EditVersion(s: State, o: Id, actor: Id, v: Id)
    requires Inv(s) && Editable(s, o) && (v in s.versions || v == s.nextId)
    ensures VersionInv(WithNewDraft(s, o, actor), v)
  {
    hide ObjectInv, DetailInv, Coded, Numbered, Traced;
    IdsAreOld(s);
    EditTraces(s, o, actor, v);
    assert VersionInv(s, s.objects[o].current);
    if v != s.nextId {
      assert VersionInv(s, v);
    }
  }

  lemma EditDetail(s: State, o: Id, actor: Id, v: Id)
    requires Inv(s) && Editable(s, o) && (v in s.versions || v == s.nextId)
    ensures DetailInv(WithNewDraft(s, o, actor), v)
  {
    hide Inv, DetailInv;
    IdsAreOld(s);
    var after := WithNewDraft(s, o, actor);
    var source := if v == s.nextId then s.objects[o].current else v;
    RowIsSound(s, source);
    RowIsSound(s, s.objects[o].current);
    EntityOfCurrent(s, o);
    assert CitesKept(s, after, s.details[source]) by {
      hide Cites;
    }
    DetailCopied(s, after, source, v);
  }

  lemma EntityOfCurrent(s: State, o: Id)
    requires Inv(s) && Editable(s, o)
    ensures s.versions[s.objects[o].current].entity == s.objects[o].entity
  {
    assert VersionInv(s, s.objects[o].current);
    hide *;
  }

  lemma EditKeepsInv(s: State, entity: Entity, o: Id, objectRevision: nat, actor: Id)
    requires Inv(s) && Edit(s, entity, o, objectRevision, actor).Ok?
    ensures Inv(Edit(s, entity, o, objectRevision, actor).value)
  {
    hide Issued, Numbered, Coded, ObjectInv, VersionInv, DetailInv;
    var after := WithNewDraft(s, o, actor);
    EditIssues(s, o, actor);
    EditNumbers(s, o, actor);
    forall v | v in after.versions
      ensures VersionInv(after, v) && DetailInv(after, v)
    {
      EditVersion(s, o, actor, v);
      EditDetail(s, o, actor, v);
    }
    forall x | x in after.objects
      ensures ObjectInv(after, x)
    {
      if x == o {
        EditObject(s, o, actor);
      } else {
        IdsAreOld(s);
        ObjectKept(s, after, x);
      }
    }
  }

  // --------------------------------------------------------------- delete

  /** What the guard of a deletion finds in every reachable state: nothing else belongs to the object. */
  lemma OnlyVersion(s: State, t: Target, objectRevision: nat)
    requires Inv(s) && Locked(s, t) && FirstDraft(s, t, objectRevision)
    ensures forall v :: v in s.versions && s.versions[v].owner == t.owner ==> v == t.version
  {
    hide ObjectInv, DetailInv, Issued, Coded, Traced;
    forall v | v in s.versions && s.versions[v].owner == t.owner
      ensures v == t.version
    {
      assert VersionInv(s, v);
    }
  }

  /** A draft's history is its creation and any number of savings. */
  lemma {:induction false} DraftHistory(history: seq<Event>)
    requires Replay(history).Reached? && Replay(history).review.status.Draft?
    ensures (history[0].kind.Created? || history[0].kind.EditStarted?) && |history| >= 1
    ensures forall k :: 1 <= k < |history| ==> history[k].kind.Saved?
  {
    var n := |history| - 1;
    if n > 0 {
      var front := history[..n];
      assert Replay(front).Reached? by {
        if !Replay(front).Reached? && !Replay(front).Broken? {
          OnlyEmptyIsNothing(front);
        }
      }
      DraftHistory(front);
      assert forall k :: 0 <= k < n ==> front[k] == history[k];
    }
  }

  lemma WithoutIssues(s: State, t: Target, objectRevision: nat)
    requires Inv(s) && Locked(s, t) && FirstDraft(s, t, objectRevision)
    requires forall e :: e in s.audit && e.version == t.version ==> e.kind.Created? || e.kind.Saved?
    ensures var after := Without(s, t);
            Issued(after) && Numbered(after.versions) && Coded(after.objects)
                && after.details.Keys == after.versions.Keys
  {
    hide ObjectInv, VersionInv, DetailInv;
    var after := Without(s, t);
    assert after.details.Keys == s.details.Keys - {t.version} && after.versions.Keys == s.versions.Keys - {t.version};
  }

  lemma HistoryWithout(audit: seq<Event>, owner: Id, version: Id, v: Id)
    requires v != version
    ensures History(AuditWithout(audit, owner, version), v) == History(audit, v)
  {
    FilterWithin(audit, (e: Event) => !(IsOf(e, owner, version) && (e.kind.Created? || e.kind.Saved?)), OfVersion(v));
  }

  /** Nothing cites an object that was never effective. */
  lemma NeverCited(s: State, o: Id)
    requires Inv(s) && o in s.objects && !EverEffective(s.objects[o])
    ensures !HasReferences(s, o)
  {
    hide ObjectInv, VersionInv, Numbered, Coded, Cites, ValidFields, TargetOf;
    forall v | v in s.details
      ensures !Cites(s.details[v], o)
    {
      assert DetailInv(s, v);
    }
  }

  lemma WithoutRow(s: State, t: Target, objectRevision: nat, v: Id)
    requires Inv(s) && Locked(s, t) && FirstDraft(s, t, objectRevision)
    requires v in s.versions && v != t.version
    ensures VersionInv(Without(s, t), v) && DetailInv(Without(s, t), v)
  {
    hide Inv, VersionInv, DetailInv, History, Replay, AuditWithout;
    OnlyVersion(s, t, objectRevision);
    RowIsSound(s, v);
    HistoryWithout(s.audit, t.owner, t.version, v);
    var after := Without(s, t);
    VersionKept(s, after, v);
    NeverCited(s, t.owner);
    forall c | c in s.objects && c != t.owner
      ensures s.objects[c].current != t.version
    {
      CurrentExists(s, c);
    }
    assert CitesKept(s, after, s.details[v]) by {
      hide Cites;
    }
    DetailKept(s, after, v);
  }

  lemma DraftEvents(s: State, t: Target)
    requires Inv(s) && t.version in s.versions && s.versions[t.version].review.status.Draft?
          && s.versions[t.version].no == 1
    requires AuditIsDeletable(s.audit, t.owner, t.version) && s.versions[t.version].owner == t.owner
    ensures forall e :: e in s.audit && e.version == t.version ==> e.kind.Created? || e.kind.Saved?
  {
    hide ObjectInv, VersionInv, DetailInv, Numbered, Coded;
  }

  lemma DeleteKeepsInv(s: State, t: Target, objectRevision: nat)
    requires Inv(s) && Delete(s, t, objectRevision).Ok?
    ensures Inv(Delete(s, t, objectRevision).value)
  {
    hide Issued, Numbered, Coded, ObjectInv, VersionInv, DetailInv, HasReferences, AuditIsDeletable;
    var after := Without(s, t);
    DraftEvents(s, t);
    WithoutIssues(s, t, objectRevision);
    OnlyVersion(s, t, objectRevision);
    forall v | v in after.versions
      ensures VersionInv(after, v) && DetailInv(after, v)
    {
      WithoutRow(s, t, objectRevision, v);
    }
    forall o | o in after.objects
      ensures ObjectInv(after, o)
    {
      ObjectKept(s, after, o);
    }
  }

  // ----------------------------------------------------------------- runs

  lemma CitingKeepsInv(s: State, cited: set<Id>)
    requires Inv(s) && forall id :: id in cited ==> id in s.objects && EverEffective(s.objects[id])
    ensures Inv(s.(cited := cited))
  {
    hide ObjectInv, VersionInv, DetailInv, Traced, Numbered, Coded;
    var after := s.(cited := cited);
    forall o | o in s.objects
      ensures ObjectInv(after, o)
    {
      ObjectKept(s, after, o);
    }
    forall v | v in s.versions
      ensures VersionInv(after, v) && DetailInv(after, v)
    {
      OwnerExists(s, v);
      VersionKept(s, after, v);
      DetailKept(s, after, v);
    }
  }

  lemma StepKeepsInv(s: State, a: Action)
    requires Inv(s)
    ensures Inv(Next(s, a))
  {
    hide Inv, Create, Save, Submit, Approve, Reject, Edit, Delete;
    if Step(s, a).Ok? {
      match a
      case CreateAction(entity, code, detail, actor) => CreateKeepsInv(s, entity, code, detail, actor);
      case SaveAction(t, detail, actor) => SaveKeepsInv(s, t, detail, actor);
      case SubmitAction(t, actor) => SubmitKeepsInv(s, t, actor);
      case ApproveAction(t, actor) => ApproveKeepsInv(s, t, actor);
      case RejectAction(t, actor) => RejectKeepsInv(s, t, actor);
      case EditAction(entity, owner, objectRevision, actor) => EditKeepsInv(s, entity, owner, objectRevision, actor);
      case DeleteAction(t, objectRevision) => DeleteKeepsInv(s, t, objectRevision);
      case CiteAction(id) =>
        CitedIsCounted(s);
        CitingKeepsInv(s, s.cited + {id});
      case UnciteAction(id) =>
        CitedIsCounted(s);
        CitingKeepsInv(s, s.cited - {id});
    }
  }

  lemma CitedIsCounted(s: State)
    requires Inv(s)
    ensures forall id :: id in s.cited ==> id in s.objects && EverEffective(s.objects[id])
  {
    hide ObjectInv, VersionInv, DetailInv;
  }

  /** Every reachable state satisfies the invariant. */
  lemma {:induction false} RunKeepsInv(actions: seq<Action>)
    ensures Inv(Run(EMPTY, actions))
  {
    hide Inv, Next;
    if |actions| != 0 {
      RunKeepsInv(actions[..|actions| - 1]);
      StepKeepsInv(Run(EMPTY, actions[..|actions| - 1]), actions[|actions| - 1]);
    } else {
      EmptyIsSound();
    }
  }

  lemma EmptyIsSound()
    ensures Inv(EMPTY)
  {
  }
}
