/** What the review lifecycle promises, over all runs from empty tables. */
module BobTheorems {
  import opened Results
  import opened Sequences
  import opened BobModel
  import opened BobInvariant
  import opened BobPreservation

  // ------------------------------------------------------------ lifecycle

  /** Every version but the current one is invalid, and the effective pointer is set exactly while the current
      version is effective. */
  lemma OnlyCurrentIsAlive(actions: seq<Action>, o: Id)
    requires o in Run(EMPTY, actions).objects
    ensures var s := Run(EMPTY, actions);
            var x := s.objects[o];
            && x.current in s.versions && s.versions[x.current].owner == o
            && (forall v :: v in s.versions && s.versions[v].owner == o ==>
                  (s.versions[v].review.status.Invalid? <==> v != x.current))
            && (x.effective.Some? <==> s.versions[x.current].review.status.Effective?)
            && (x.effective.Some? ==> x.effective.value == x.current)
  {
    hide Run, Issued, Numbered, Coded, DetailInv, Traced;
    RunKeepsInv(actions);
    var s := Run(EMPTY, actions);
    assert ObjectInv(s, o);
    forall v | v in s.versions && s.versions[v].owner == o
      ensures s.versions[v].review.status.Invalid? <==> v != s.objects[o].current
    {
      assert VersionInv(s, v);
    }
  }

  /** With n versions they are numbered 1 to n, each number once, the next is n + 1, and the object revision is
      2n - 1, plus one while a version is effective. */
  lemma NumbersAndRevision(actions: seq<Action>, o: Id)
    requires o in Run(EMPTY, actions).objects
    ensures var s := Run(EMPTY, actions);
            var x := s.objects[o];
            && (forall k: nat :: HasNumber(s.versions, o, k) <==> 1 <= k < x.nextNo)
            && Numbered(s.versions)
            && x.revision == 2 * (x.nextNo - 1) - 1 + (if x.effective.Some? then 1 else 0)
  {
    hide Run, Issued, Coded, DetailInv, Traced;
    RunKeepsInv(actions);
    var s := Run(EMPTY, actions);
    assert ObjectInv(s, o);
    forall k: nat | HasNumber(s.versions, o, k)
      ensures 1 <= k < s.objects[o].nextNo
    {
      var v :| v in s.versions && s.versions[v].owner == o && s.versions[v].no == k;
      assert VersionInv(s, v);
    }
  }

  // ------------------------------------------------------------- history

  /** Who submitted last, according to the audit log. */
  function LatestSubmittedBy(history: seq<Event>): Option<Id> {
    if |history| == 0 then None
    else
      var last := history[|history| - 1];
      if last.kind.Submitted? then Some(last.actor) else LatestSubmittedBy(history[..|history| - 1])
  }

  /** Who decided the latest submission, according to the audit log. */
  function LatestReviewedBy(history: seq<Event>): Option<Id> {
    if |history| == 0 then None
    else
      var last := history[|history| - 1];
      if last.kind.ApprovedEvent? || last.kind.RejectedEvent? then Some(last.actor)
      else if last.kind.Submitted? then None
      else LatestReviewedBy(history[..|history| - 1])
  }

  lemma {:induction false} ColumnsFromHistory(history: seq<Event>)
    requires Replay(history).Reached?
    ensures Replay(history).review.submittedBy == LatestSubmittedBy(history)
    ensures Replay(history).review.reviewedBy == LatestReviewedBy(history)
  {
    var n := |history| - 1;
    if Replay(history[..n]).Reached? {
      ColumnsFromHistory(history[..n]);
    } else if Replay(history[..n]).Nothing? {
      OnlyEmptyIsNothing(history[..n]);
    }
  }

  /** The audit events of every version form one connected path to its status, one event a revision; who submitted
      and who decided it are those of the log, and nobody decided what they submitted. */
  lemma AuditAccountsForVersion(actions: seq<Action>, v: Id)
    requires v in Run(EMPTY, actions).versions
    ensures var s := Run(EMPTY, actions);
            var history, review := History(s.audit, v), s.versions[v].review;
            && Connected(history)
            && history[|history| - 1].to == review.status
            && |history| == review.revision
            && review.submittedBy == LatestSubmittedBy(history) && review.reviewedBy == LatestReviewedBy(history)
            && ReviewedByOther(review)
            && (history[0].kind.Created? <==> s.versions[v].no == 1)
  {
    hide Run, Inv, Connected, ReviewedByOther, History, LatestSubmittedBy, LatestReviewedBy, Replay;
    RunKeepsInv(actions);
    var s := Run(EMPTY, actions);
    RowIsSound(s, v);
    ReachedByPath(History(s.audit, v));
    ColumnsFromHistory(History(s.audit, v));
    BeginsAsSaid(History(s.audit, v));
  }

  lemma {:induction false} BeginsAsSaid(history: seq<Event>)
    requires Replay(history).Reached?
    ensures |history| > 0 && (history[0].kind.Created? <==> Replay(history).created)
  {
    var n := |history| - 1;
    if Replay(history[..n]).Reached? {
      BeginsAsSaid(history[..n]);
    } else if Replay(history[..n]).Nothing? {
      OnlyEmptyIsNothing(history[..n]);
    }
  }

  // ------------------------------------------------- optimistic concurrency

  /** What a write expects to find, and uses up. */
  datatype Token = VersionToken(version: Id, revision: nat) | ObjectToken(owner: Id, revision: nat)

  function Tokens(a: Action): set<Token> {
    match a
    case SaveAction(t, _, _) => {VersionToken(t.version, t.revision)}
    case SubmitAction(t, _) => {VersionToken(t.version, t.revision)}
    case ApproveAction(t, _) => {VersionToken(t.version, t.revision)}
    case RejectAction(t, _) => {VersionToken(t.version, t.revision)}
    case EditAction(_, owner, objectRevision, _) => {ObjectToken(owner, objectRevision)}
    case DeleteAction(t, objectRevision) => {VersionToken(t.version, t.revision), ObjectToken(t.owner, objectRevision)}
    case _ => {}
  }

  ghost predicate Spent(s: State, token: Token) {
    match token
    case VersionToken(v, revision) => v < s.nextId && (v in s.versions ==> s.versions[v].review.revision > revision)
    case ObjectToken(o, revision) => o < s.nextId && (o in s.objects ==> s.objects[o].revision > revision)
  }

  lemma StepSpends(s: State, a: Action, token: Token)
    requires Inv(s) && Step(s, a).Ok? && token in Tokens(a)
    ensures Spent(Next(s, a), token)
  {
    hide ObjectInv, VersionInv, DetailInv, DetailFailure, ValidFields, HasReferences, AuditIsDeletable, AuditWithout,
      Numbered, Coded;
  }

  lemma SpentStays(s: State, a: Action, token: Token)
    requires Spent(s, token)
    ensures Spent(Next(s, a), token)
  {
    hide DetailFailure, ValidFields, HasReferences, AuditIsDeletable, AuditWithout, EffectiveNow, CodeTaken;
  }

  lemma {:induction false} SpentForever(s: State, actions: seq<Action>, token: Token)
    requires Spent(s, token)
    ensures Spent(Run(s, actions), token)
  {
    hide Spent, Next;
    if |actions| != 0 {
      SpentForever(s, actions[..|actions| - 1], token);
      SpentStays(Run(s, actions[..|actions| - 1]), actions[|actions| - 1], token);
    }
  }

  lemma SpentIsRefused(s: State, a: Action, token: Token)
    requires Spent(s, token) && token in Tokens(a)
    ensures Step(s, a).Err?
  {
    hide DetailFailure, ValidFields, HasReferences, AuditIsDeletable, AuditWithout;
  }

  /** A revision that one write used up never lets another write through, whatever happens in between. */
  lemma RevisionIsUsedOnce(s: State, a: Action, actions: seq<Action>, b: Action)
    requires Inv(s) && Step(s, a).Ok? && Tokens(a) * Tokens(b) != {}
    ensures Step(Run(Next(s, a), actions), b).Err?
  {
    hide Inv, Step, Next, Run, Spent, Tokens;
    var token :| token in Tokens(a) * Tokens(b);
    StepSpends(s, a, token);
    SpentForever(Next(s, a), actions, token);
    SpentIsRefused(Run(Next(s, a), actions), b, token);
  }

  // ------------------------------------------------------------- deletion

  lemma MineIsHistory(s: State, o: Id, v: Id)
    requires Inv(s) && v in s.versions && s.versions[v].owner == o
    ensures Filter(s.audit, (e: Event) => IsOf(e, o, v)) == History(s.audit, v)
  {
    hide ObjectInv, VersionInv, DetailInv, Numbered, Coded;
    FilterEqual(s.audit, (e: Event) => IsOf(e, o, v), OfVersion(v));
  }

  lemma DraftIsDeletable(s: State, v: Id)
    requires Inv(s) && v in s.versions && s.versions[v].no == 1 && s.versions[v].review.status.Draft?
    ensures AuditIsDeletable(s.audit, s.versions[v].owner, v)
  {
    hide Inv, History, Replay;
    RowIsSound(s, v);
    var h := History(s.audit, v);
    DraftHistory(h);
    BeginsAsSaid(h);
    MineIsHistory(s, s.versions[v].owner, v);
    var created := (e: Event) => e.kind.Created?;
    assert h == [h[0]] + h[1..];
    FilterAppend([h[0]], h[1..], created);
    FilterAll([h[0]], created);
    FilterNone(h[1..], created);
  }

  lemma DeleteReduces(s: State, t: Target, objectRevision: nat)
    requires Inv(s) && t.revision >= 1 && objectRevision >= 1 && Locked(s, t)
    ensures Delete(s, t, objectRevision).Ok? <==> FirstDraft(s, t, objectRevision)
  {
    hide Inv, AuditIsDeletable, HasReferences;
    if FirstDraft(s, t, objectRevision) {
      OnlyVersion(s, t, objectRevision);
      assert VersionsOf(s, t.owner) == {t.version};
      DraftIsDeletable(s, t.version);
      NeverCited(s, t.owner);
    }
  }

  lemma FirstDraftReduces(s: State, t: Target, objectRevision: nat)
    requires Inv(s) && Locked(s, t)
    ensures FirstDraft(s, t, objectRevision)
       <==> s.versions[t.version].no == 1 && s.versions[t.version].review.status.Draft?
            && s.versions[t.version].review.revision == t.revision && s.objects[t.owner].revision == objectRevision
  {
    hide Issued, Numbered, Coded, DetailInv, Replay, History;
    assert VersionInv(s, t.version) && ObjectInv(s, t.owner);
    ReachedByPath(History(s.audit, t.version));
  }

  /** In every reachable state a deletion succeeds exactly when it names the first version, still a draft, with the
      two present revisions. The counts, the shape of the audit log and the search for references refuse nothing. */
  lemma DeleteExactly(actions: seq<Action>, t: Target, objectRevision: nat)
    requires t.revision >= 1 && objectRevision >= 1
    ensures var s := Run(EMPTY, actions);
            Delete(s, t, objectRevision).Ok?
            <==> Locked(s, t) && s.versions[t.version].no == 1 && s.versions[t.version].review.status.Draft?
                 && s.versions[t.version].review.revision == t.revision && s.objects[t.owner].revision == objectRevision
  {
    hide Run, Inv, FirstDraft, Locked;
    RunKeepsInv(actions);
    var s := Run(EMPTY, actions);
    if Locked(s, t) {
      DeleteReduces(s, t, objectRevision);
      FirstDraftReduces(s, t, objectRevision);
    }
  }

  /** A deletion leaves no row of the object in any table, and every row of the others as it was. */
  lemma DeleteLeavesNothing(s: State, t: Target, objectRevision: nat)
    requires Inv(s) && Delete(s, t, objectRevision).Ok?
    ensures var after := Delete(s, t, objectRevision).value;
            && after.objects == s.objects - {t.owner}
            && (forall v :: v in after.versions ==> after.versions[v].owner != t.owner)
            && (forall v :: v in s.versions && s.versions[v].owner != t.owner ==>
                  v in after.versions && after.versions[v] == s.versions[v] && v in after.details
                      && after.details[v] == s.details[v])
            && after.details.Keys == after.versions.Keys
            && (forall e :: e in after.audit ==> e.owner != t.owner)
            && Filter(s.audit, (e: Event) => e.owner != t.owner) == after.audit
            && !HasReferences(after, t.owner)
  {
    hide Issued, Numbered, Coded, ObjectInv, VersionInv, DetailInv, HasReferences, AuditIsDeletable, EverEffective;
    OnlyVersion(s, t, objectRevision);
    DraftEvents(s, t);
    OwnedByOnly(s, t);
    FilterEqual(s.audit, (e: Event) => !(IsOf(e, t.owner, t.version) && (e.kind.Created? || e.kind.Saved?)),
        (e: Event) => e.owner != t.owner);
    NothingCites(s, t, objectRevision);
  }

  lemma OwnedByOnly(s: State, t: Target)
    requires Inv(s) && forall v :: v in s.versions && s.versions[v].owner == t.owner ==> v == t.version
    ensures forall e :: e in s.audit && e.owner == t.owner ==> e.version == t.version
  {
    hide ObjectInv, VersionInv, DetailInv, Numbered, Coded;
  }

  lemma NothingCites(s: State, t: Target, objectRevision: nat)
    requires Inv(s) && Locked(s, t) && FirstDraft(s, t, objectRevision)
    ensures !HasReferences(Without(s, t), t.owner)
  {
    hide Inv, Cites, AuditWithout;
    NeverCited(s, t.owner);
  }

  // ------------------------------------------------------------ references

  /** No detail row of any version, however old, cites an object that is gone or was never effective; a category
      classifies, by its current version, the entity of everything filed under it, and a parent category the same
      entity as its children. */
  lemma ReferencesAreSound(actions: seq<Action>, v: Id)
    requires v in Run(EMPTY, actions).versions
    ensures var s := Run(EMPTY, actions);
            && v in s.details
            && (forall id :: Cites(s.details[v], id) ==> id in s.objects && EverEffective(s.objects[id]))
            && (s.details[v].category.Some? ==> TargetOf(s, s.details[v].category.value) == Some(s.versions[v].entity))
            && (s.details[v].parent.Some? ==> TargetOf(s, s.details[v].parent.value) == s.details[v].target)
  {
    hide Run, Inv, Cites, EverEffective, TargetOf, ValidFields;
    RunKeepsInv(actions);
    RowIsSound(Run(EMPTY, actions), v);
  }

  // --------------------------------------------------------------- content

  /** The content of a version after a step: what the step saved or created, the effective content for the draft of an
      edit, and otherwise what it was. */
  function ContentAfter(s: State, a: Action, v: Id): Option<Detail> {
    if a.SaveAction? && a.t.version == v then Some(a.detail)
    else if v in s.details then Some(s.details[v])
    else if a.CreateAction? then Some(a.detail)
    else if a.EditAction? && a.owner in s.objects && s.objects[a.owner].effective.Some?
            && s.objects[a.owner].effective.value in s.details then Some(s.details[s.objects[a.owner].effective.value])
    else None
  }

  /** Content changes by saving only, a new draft starts from what is effective, and no step changes the entity, code,
      owner or number of anything. */
  lemma ContentComesFrom(s: State, a: Action, v: Id)
    requires Inv(s) && Step(s, a).Ok? && v in Next(s, a).versions
    ensures var after := Next(s, a);
            && v in after.details && Some(after.details[v]) == ContentAfter(s, a, v)
            && (v in s.versions ==> after.versions[v] == s.versions[v].(review := after.versions[v].review))
            && (forall o :: o in s.objects && o in after.objects ==>
                  after.objects[o].entity == s.objects[o].entity && after.objects[o].code == s.objects[o].code)
  {
    hide ObjectInv, VersionInv, DetailInv, DetailFailure, ValidFields, HasReferences, AuditIsDeletable, AuditWithout,
      Numbered, Coded, EffectiveNow, CodeTaken;
  }

  /** A submitted version keeps its content for as long as it is not rejected. */
  lemma SubmittedIsFrozen(s: State, a: Action, v: Id)
    requires Inv(s) && v in s.versions && !Open(s.versions[v].review.status)
    ensures var after := Next(s, a);
            && v in s.details && v in after.versions && v in after.details && after.details[v] == s.details[v]
            && (after.versions[v].review.status == Status.Rejected ==> s.versions[v].review.status.Pending?)
            && !after.versions[v].review.status.Draft?
  {
    hide ObjectInv, VersionInv, DetailInv, DetailFailure, ValidFields, HasReferences, AuditIsDeletable, AuditWithout,
      Numbered, Coded, EffectiveNow, CodeTaken;
  }

  /** What was approved never changes: an effective or invalid version keeps its content in every run. */
  lemma {:induction false} ApprovedIsFinal(s: State, actions: seq<Action>, v: Id)
    requires Inv(s) && v in s.versions
          && (s.versions[v].review.status.Effective? || s.versions[v].review.status.Invalid?)
    ensures var after := Run(s, actions);
            && Inv(after) && v in s.details && v in after.versions && v in after.details
            && after.details[v] == s.details[v]
            && (after.versions[v].review.status.Effective? || after.versions[v].review.status.Invalid?)
  {
    hide Inv, Next;
    if |actions| != 0 {
      var before := Run(s, actions[..|actions| - 1]);
      ApprovedIsFinal(s, actions[..|actions| - 1], v);
      StepKeepsInv(before, actions[|actions| - 1]);
      SubmittedIsFrozen(before, actions[|actions| - 1], v);
      DecidedStays(before, actions[|actions| - 1], v);
    } else {
      RowIsSound(s, v);
    }
  }

  lemma DecidedStays(s: State, a: Action, v: Id)
    requires Inv(s) && v in s.versions
          && (s.versions[v].review.status.Effective? || s.versions[v].review.status.Invalid?)
    ensures v in Next(s, a).versions
    ensures !Next(s, a).versions[v].review.status.Pending?
  {
    hide ObjectInv, VersionInv, DetailInv, DetailFailure, ValidFields, HasReferences, AuditIsDeletable, AuditWithout,
      Numbered, Coded, EffectiveNow, CodeTaken;
  }
}
