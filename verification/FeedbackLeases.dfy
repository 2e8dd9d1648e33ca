/** What the leases are good for: which steps of the workers must be taken in time. */
module FeedbackLeases {
  import opened Sequences
  import opened FeedbackPublisher
  import opened FeedbackIssues

  /** The steps a worker takes on a feedback it has claimed. */
  datatype Kind = Searching | Creating | Marking | Rescheduling

  const ALL_KINDS := {Searching, Creating, Marking, Rescheduling}

  function KindOf(a: Action): Option<Kind> {
    match a
    case SearchAction(_, _) => Some(Searching)
    case CreateAction(_, _) => Some(Creating)
    case MarkAction(_) => Some(Marking)
    case RescheduleAction(_, _) => Some(Rescheduling)
    case _ => None
  }

  predicate WorkerInTime(s: State, w: nat) {
    !WorkerAt(s, w).Idle? && s.now <= WorkerAt(s, w).lease
  }

  /** A step of one of these kinds is taken within the lease of its worker. */
  predicate InTime(s: State, a: Action, kinds: set<Kind>) {
    Enabled(s, a) && WorkerOf(a).Some? && KindOf(a).Some? && KindOf(a).value in kinds ==>
      WorkerInTime(s, WorkerOf(a).value)
  }

  ghost predicate TimelyIn(actions: seq<Action>, kinds: set<Kind>) {
    forall k :: 0 <= k < |actions| ==> InTime(Run(EMPTY, actions[..k]), actions[k], kinds)
  }

  /** The kinds of step that must be in time. */
  const DECISIVE := {Creating, Rescheduling}

  /** Within its lease a worker has its feedback to itself, or the feedback is published. */
  ghost predicate LeaseInv(s: State, w: nat) {
    && (!WorkerAt(s, w).Idle? ==>
          WorkerAt(s, w).id in s.feedback && WorkerAt(s, w).attempt <= s.feedback[WorkerAt(s, w).id].attempts)
    && (WorkerAt(s, w).Found? ==> WorkerAt(s, w).id in s.issues)
    && (WorkerInTime(s, w) ==>
          var worker, f := WorkerAt(s, w), s.feedback[WorkerAt(s, w).id];
          || (f.status.Published? && worker.id in s.issues && !worker.Absent?)
          || (f.status.Processing? && f.leaseUntil == Some(worker.lease) && f.attempts == worker.attempt
              && (worker.Absent? ==> worker.id !in s.issues)))
  }

  /** No two workers have claimed the same attempt. */
  ghost predicate ApartInv(s: State, w: nat, x: nat) {
    w != x && !WorkerAt(s, w).Idle? && !WorkerAt(s, x).Idle? && WorkerAt(s, w).id == WorkerAt(s, x).id ==>
      WorkerAt(s, w).attempt != WorkerAt(s, x).attempt
  }

  ghost predicate LeasedInv(s: State) {
    (forall w: nat :: LeaseInv(s, w)) && (forall w: nat, x: nat :: ApartInv(s, w, x)) && Distinct(s.issues)
  }

  /** A step in time of one worker leaves the feedback of another that is in time alone. */
  lemma LeasesApart(s: State, a: Action, w: nat)
    requires LeasedInv(s) && Enabled(s, a) && InTime(s, a, DECISIVE) && WorkerOf(a) != Some(w)
    ensures LeaseInv(Next(s, a), w)
  {
    hide Shift, FirstIssue, RetryDelay, Distinct;
    OthersStay(s, a, w);
    assert LeaseInv(s, w);
    if WorkerOf(a).Some? {
      var x := WorkerOf(a).value;
      assert LeaseInv(s, x) && ApartInv(s, w, x);
    }
  }

  lemma OwnLease(s: State, a: Action, w: nat)
    requires LeasedInv(s) && Enabled(s, a) && InTime(s, a, DECISIVE) && WorkerOf(a) == Some(w)
    ensures LeaseInv(Next(s, a), w)
  {
    hide Shift, FirstIssue, RetryDelay, Distinct;
    assert LeaseInv(s, w);
  }

  lemma ClaimsApart(s: State, a: Action, w: nat, x: nat)
    requires LeasedInv(s) && Enabled(s, a) && WorkerOf(a) == Some(w) && w != x
    ensures ApartInv(Next(s, a), w, x) && ApartInv(Next(s, a), x, w)
  {
    hide Shift, FirstIssue, RetryDelay, Distinct, Claimable;
    OthersStay(s, a, x);
    assert LeaseInv(s, x) && LeaseInv(s, w) && ApartInv(s, w, x);
  }

  lemma IssuesApart(s: State, a: Action)
    requires LeasedInv(s) && Enabled(s, a) && InTime(s, a, DECISIVE)
    ensures Distinct(Next(s, a).issues)
  {
    hide Shift, FirstIssue, RetryDelay, Claimable;
    if a.CreateAction? {
      assert LeaseInv(s, a.w);
    }
  }

  lemma TimelyStep(s: State, a: Action)
    requires LeasedInv(s) && InTime(s, a, DECISIVE)
    ensures LeasedInv(Next(s, a))
  {
    if Enabled(s, a) {
      hide Next, Enabled, InTime, LeaseInv, Distinct;
      forall w: nat
        ensures LeaseInv(Next(s, a), w)
      {
        if WorkerOf(a) == Some(w) {
          OwnLease(s, a, w);
        } else {
          LeasesApart(s, a, w);
        }
      }
      forall w: nat, x: nat
        ensures ApartInv(Next(s, a), w, x)
      {
        if WorkerOf(a) == Some(w) && w != x {
          ClaimsApart(s, a, w, x);
        } else if WorkerOf(a) == Some(x) && w != x {
          ClaimsApart(s, a, x, w);
        } else if w != x {
          OthersStay(s, a, w);
          OthersStay(s, a, x);
          assert ApartInv(s, w, x);
        }
      }
      IssuesApart(s, a);
    }
  }

  lemma TimelyFront(actions: seq<Action>, kinds: set<Kind>)
    requires |actions| > 0 && TimelyIn(actions, kinds)
    ensures TimelyIn(actions[..|actions| - 1], kinds)
    ensures InTime(Run(EMPTY, actions[..|actions| - 1]), actions[|actions| - 1], kinds)
  {
    hide Run, InTime;
    var front := actions[..|actions| - 1];
    forall k | 0 <= k < |front|
      ensures InTime(Run(EMPTY, front[..k]), front[k], kinds)
    {
      assert front[..k] == actions[..k];
    }
  }

  lemma {:induction false} TimelyIsLeased(actions: seq<Action>)
    requires TimelyIn(actions, DECISIVE)
    ensures LeasedInv(Run(EMPTY, actions))
  {
    hide Next, InTime, LeasedInv, TimelyIn;
    if |actions| != 0 {
      TimelyFront(actions, DECISIVE);
      TimelyIsLeased(actions[..|actions| - 1]);
      TimelyStep(Run(EMPTY, actions[..|actions| - 1]), actions[|actions| - 1]);
    } else {
      EmptyIsLeased();
    }
  }

  lemma EmptyIsLeased()
    ensures LeasedInv(EMPTY)
  {
  }

  /** However many workers there are, as long as each creates issues and reschedules within the lease of its claim,
      each feedback has at most one issue; searches and marks may be late. */
  lemma LeasesSuffice(actions: seq<Action>)
    requires TimelyIn(actions, DECISIVE)
    ensures Distinct(Run(EMPTY, actions).issues)
  {
    hide Run, TimelyIn, LeaseInv, ApartInv, Distinct;
    TimelyIsLeased(actions);
  }

  // -------------------------------------------------- what late steps can do

  /** A run that has been followed: what it reached, in time in these kinds of step. */
  ghost predicate Reaches(actions: seq<Action>, s: State, kinds: set<Kind>) {
    Run(EMPTY, actions) == s && TimelyIn(actions, kinds)
  }

  lemma ReachesNothing(kinds: set<Kind>)
    ensures Reaches([], EMPTY, kinds)
  {
  }

  lemma ReachesNext(kinds: set<Kind>, actions: seq<Action>, s: State, a: Action)
    requires Reaches(actions, s, kinds) && InTime(s, a, kinds)
    ensures Reaches(actions + [a], Next(s, a), kinds)
  {
    hide Run, Next, InTime;
    RunSnoc(EMPTY, actions, a);
    var after := actions + [a];
    forall k | 0 <= k < |after|
      ensures InTime(Run(EMPTY, after[..k]), after[k], kinds)
    {
      if k < |actions| {
        assert after[..k] == actions[..k];
      } else {
        assert after[..k] == actions;
      }
    }
  }

  lemma {:induction false} TimelyInFewer(actions: seq<Action>, kinds: set<Kind>, fewer: set<Kind>)
    requires TimelyIn(actions, kinds) && fewer <= kinds
    ensures TimelyIn(actions, fewer)
  {
    hide Run, Enabled, WorkerInTime;
    forall k | 0 <= k < |actions|
      ensures InTime(Run(EMPTY, actions[..k]), actions[k], fewer)
    {
      assert InTime(Run(EMPTY, actions[..k]), actions[k], kinds);
    }
  }

  lemma ReachesInFewer(actions: seq<Action>, s: State, kinds: set<Kind>, fewer: set<Kind>)
    requires Reaches(actions, s, kinds) && fewer <= kinds
    ensures Reaches(actions, s, fewer)
  {
    hide Run, TimelyIn;
    TimelyInFewer(actions, kinds, fewer);
  }

  lemma ReachesIs(actions: seq<Action>, s: State, kinds: set<Kind>)
    requires Reaches(actions, s, kinds)
    ensures Run(EMPTY, actions) == s && TimelyIn(actions, kinds)
  {
  }

  /** Two workers, the first stalled for longer than its lease, with what it was told by the search. */
  lemma SecondClaim(failure: Option<(bool, nat)>) returns (actions: seq<Action>, s: State)
    requires failure.None? || failure.value == (true, 0)
    ensures Reaches(actions, s, ALL_KINDS)
    ensures s.feedback == map[1 := Feedback(Processing, 2, 0, Some(2 * LEASE + 1), None)] && s.issues == []
    ensures s.now == LEASE + 1 && s.workers.Keys == {0, 1} && WorkerAt(s, 1) == Absent(1, 2, 2 * LEASE + 1)
    ensures WorkerAt(s, 0) == if failure.None? then Absent(1, 1, LEASE) else Errored(1, 1, LEASE, true, 0)
  {
    hide Reaches, Run;
    var f := Feedback(Processing, 1, 0, Some(LEASE), None);
    ReachesNothing(ALL_KINDS);
    ReachesNext(ALL_KINDS, [], EMPTY, SubmitAction(1));
    var a := [] + [SubmitAction(1)];
    var submitted := State(map[1 := Feedback(Pending, 0, 0, None, None)], [], map[], 0);
    assert Next(EMPTY, SubmitAction(1)) == submitted;
    ReachesNext(ALL_KINDS, a, submitted, ClaimAction(0, 1));
    var claimed := State(map[1 := f], [], map[0 := Claimed(1, 1, LEASE)], 0);
    assert Next(submitted, ClaimAction(0, 1)) == claimed;
    ReachesNext(ALL_KINDS, a + [ClaimAction(0, 1)], claimed, SearchAction(0, failure));
    var worker := if failure.None? then Absent(1, 1, LEASE) else Errored(1, 1, LEASE, true, 0);
    var searched := State(map[1 := f], [], map[0 := worker], 0);
    assert Next(claimed, SearchAction(0, failure)) == searched;
    actions := a + [ClaimAction(0, 1)] + [SearchAction(0, failure)];
    ReachesNext(ALL_KINDS, actions, searched, TickAction(LEASE + 1));
    actions := actions + [TickAction(LEASE + 1)];
    var late := searched.(now := LEASE + 1);
    assert Next(searched, TickAction(LEASE + 1)) == late;
    ReachesNext(ALL_KINDS, actions, late, ClaimAction(1, 1));
    actions := actions + [ClaimAction(1, 1)];
    var again := Next(late, ClaimAction(1, 1));
    assert WorkerAt(again, 1) == Claimed(1, 2, 2 * LEASE + 1);
    ReachesNext(ALL_KINDS, actions, again, SearchAction(1, None));
    actions := actions + [SearchAction(1, None)];
    s := Next(again, SearchAction(1, None));
  }

  /** With two workers, one that stalls between its search and its creation adds a second issue, although nothing but
      that creation is late. */
  lemma TwoWorkersCanDuplicate() returns (actions: seq<Action>)
    ensures TimelyIn(actions, ALL_KINDS - {Creating}) && Run(EMPTY, actions).issues == [1, 1]
  {
    hide Run, Reaches;
    var kinds := ALL_KINDS - {Creating};
    var s: State;
    actions, s := SecondClaim(None);
    ReachesInFewer(actions, s, ALL_KINDS, kinds);
    ReachesNext(kinds, actions, s, CreateAction(1, Made));
    actions, s := actions + [CreateAction(1, Made)], Next(s, CreateAction(1, Made));
    assert s.issues == [1] && WorkerAt(s, 0) == Absent(1, 1, LEASE);
    ReachesNext(kinds, actions, s, CreateAction(0, Made));
    actions, s := actions + [CreateAction(0, Made)], Next(s, CreateAction(0, Made));
    ReachesIs(actions, s, kinds);
  }

  /** After a late reschedule of the first worker, a third one has looked for the issue before the second made one. */
  lemma ThirdClaim(kinds: set<Kind>) returns (actions: seq<Action>, s: State)
    requires kinds == ALL_KINDS - {Rescheduling}
    ensures Reaches(actions, s, kinds) && s.issues == []
    ensures WorkerAt(s, 1) == Absent(1, 2, 2 * LEASE + 1) && WorkerInTime(s, 1)
    ensures WorkerAt(s, 2).Absent? && WorkerAt(s, 2).id == 1 && WorkerInTime(s, 2)
  {
    hide Run, Reaches;
    actions, s := SecondClaim(Some((true, 0)));
    ReachesInFewer(actions, s, ALL_KINDS, kinds);
    assert Shift(0) == 1;
    ReachesNext(kinds, actions, s, RescheduleAction(0, 0));
    actions, s := actions + [RescheduleAction(0, 0)], Next(s, RescheduleAction(0, 0));
    assert s.feedback == map[1 := Feedback(Pending, 2, LEASE + 1 + MINUTE, None, None)];
    assert WorkerAt(s, 1) == Absent(1, 2, 2 * LEASE + 1) && s.issues == [] && WorkerAt(s, 2).Idle?;
    ReachesNext(kinds, actions, s, TickAction(MINUTE));
    actions, s := actions + [TickAction(MINUTE)], Next(s, TickAction(MINUTE));
    ReachesNext(kinds, actions, s, ClaimAction(2, 1));
    actions, s := actions + [ClaimAction(2, 1)], Next(s, ClaimAction(2, 1));
    assert WorkerAt(s, 2).Claimed? && WorkerAt(s, 2).id == 1 && WorkerInTime(s, 2);
    ReachesNext(kinds, actions, s, SearchAction(2, None));
    actions, s := actions + [SearchAction(2, None)], Next(s, SearchAction(2, None));
  }

  /** A late reschedule of one worker takes the feedback from another, and a third one claims it before the other has
      created its issue: both create one, although nothing but the reschedule is late. */
  lemma LateRescheduleDuplicates() returns (actions: seq<Action>)
    ensures TimelyIn(actions, ALL_KINDS - {Rescheduling}) && Run(EMPTY, actions).issues == [1, 1]
  {
    hide Run, Reaches;
    var kinds := ALL_KINDS - {Rescheduling};
    var s: State;
    actions, s := ThirdClaim(kinds);
    ReachesNext(kinds, actions, s, CreateAction(2, Made));
    actions, s := actions + [CreateAction(2, Made)], Next(s, CreateAction(2, Made));
    assert s.issues == [1] && WorkerAt(s, 1) == Absent(1, 2, 2 * LEASE + 1) && WorkerInTime(s, 1);
    ReachesNext(kinds, actions, s, CreateAction(1, Made));
    actions, s := actions + [CreateAction(1, Made)], Next(s, CreateAction(1, Made));
    ReachesIs(actions, s, kinds);
  }

  /** Which kinds of step must be in time for each feedback to have at most one issue, over all runs of all workers:
      exactly the creations and the reschedules. */
  lemma TimelyKindsExactly(kinds: set<Kind>)
    ensures (forall actions :: TimelyIn(actions, kinds) ==> Distinct(Run(EMPTY, actions).issues)) <==> DECISIVE <= kinds
  {
    hide Run, TimelyIn;
    if DECISIVE <= kinds {
      forall actions | TimelyIn(actions, kinds)
        ensures Distinct(Run(EMPTY, actions).issues)
      {
        TimelyInFewer(actions, kinds, DECISIVE);
        LeasesSuffice(actions);
      }
    } else {
      var actions := LateDuplicate(kinds);
      assert Run(EMPTY, actions).issues[0] == Run(EMPTY, actions).issues[1];
    }
  }

  lemma NoOtherKinds(kinds: set<Kind>)
    ensures kinds <= ALL_KINDS
  {
    forall kind | kind in kinds
      ensures kind in ALL_KINDS
    {
      match kind
      case Searching =>
      case Creating =>
      case Marking =>
      case Rescheduling =>
    }
  }

  lemma LateDuplicate(kinds: set<Kind>) returns (actions: seq<Action>)
    requires !(DECISIVE <= kinds)
    ensures TimelyIn(actions, kinds) && Run(EMPTY, actions).issues == [1, 1]
  {
    hide Run, TimelyIn;
    NoOtherKinds(kinds);
    if Creating !in kinds {
      actions := TwoWorkersCanDuplicate();
      TimelyInFewer(actions, ALL_KINDS - {Creating}, kinds);
    } else {
      actions := LateRescheduleDuplicates();
      TimelyInFewer(actions, ALL_KINDS - {Rescheduling}, kinds);
    }
  }
}
