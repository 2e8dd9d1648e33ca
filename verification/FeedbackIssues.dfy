/** How many issues the tracker may come to hold for one feedback. */
module FeedbackIssues {
  import opened Results
  import opened Sequences
  import opened FeedbackPublisher

  // ---------------------------------------------- exactly when a second issue can come

  function IssueCount(s: State, id: Id): nat {
    multiset(s.issues)[id]
  }

  /** The worker may still create an issue for the feedback. */
  predicate Making(s: State, w: nat, id: Id) {
    (WorkerAt(s, w).Claimed? || WorkerAt(s, w).Absent?) && WorkerAt(s, w).id == id
  }

  predicate FoundNothing(s: State, w: nat, id: Id) {
    WorkerAt(s, w).Absent? && WorkerAt(s, w).id == id
  }

  /** How often the feedback can still be claimed. */
  function ClaimsLeft(s: State, id: Id): nat {
    if id !in s.feedback || Final(s.feedback[id].status) || s.feedback[id].attempts >= MAX_ATTEMPTS then 0
    else MAX_ATTEMPTS - s.feedback[id].attempts
  }

  /** No second issue can come of it: there is at most one now, nobody is about to create one beside it, and while there
      is none, at most one worker may come to create one. */
  ghost predicate Safe(s: State, id: Id, pool: set<nat>) {
    && IssueCount(s, id) <= 1
    && (IssueCount(s, id) == 1 ==> forall w: nat :: !FoundNothing(s, w, id))
    && (IssueCount(s, id) == 0 && |pool| >= 2 ==>
          && (forall w: nat, x: nat :: Making(s, w, id) && Making(s, x, id) ==> w == x)
          && ClaimsLeft(s, id) <= 1
          && (ClaimsLeft(s, id) == 1 ==> forall w: nat :: !Making(s, w, id)))
  }

  /** Everybody at work is in the pool. */
  ghost predicate Staffed(s: State, pool: set<nat>) {
    forall w: nat :: WorkerAt(s, w).Idle? || w in pool
  }

  predicate ByPool(actions: seq<Action>, pool: set<nat>) {
    forall a :: a in actions && WorkerOf(a).Some? ==> WorkerOf(a).value in pool
  }

  lemma OthersStay(s: State, a: Action, w: nat)
    requires WorkerOf(a) != Some(w)
    ensures WorkerAt(Next(s, a), w) == WorkerAt(s, w)
  {
    hide Shift, FirstIssue, RetryDelay, Claimable;
  }

  lemma StaysStaffed(s: State, a: Action, pool: set<nat>)
    requires Staffed(s, pool) && (WorkerOf(a).Some? ==> WorkerOf(a).value in pool)
    ensures Staffed(Next(s, a), pool)
  {
    hide Next;
    forall w: nat
      ensures WorkerAt(Next(s, a), w).Idle? || w in pool
    {
      if WorkerOf(a) != Some(w) {
        OthersStay(s, a, w);
      }
    }
  }

  lemma CountAfter(issues: seq<Id>, made: Id, id: Id)
    ensures multiset(issues + [made])[id] == multiset(issues)[id] + (if made == id then 1 else 0)
  {
  }

  lemma CountIsPresence(issues: seq<Id>, id: Id)
    ensures id in issues <==> multiset(issues)[id] > 0
  {
    assert id in issues <==> id in multiset(issues);
  }

  /** No step adds to the claims left, and a claim takes one. */
  lemma CountsStay(s: State, a: Action, id: Id)
    requires id in s.feedback || !a.SubmitAction?
    ensures ClaimsLeft(Next(s, a), id)
         <= ClaimsLeft(s, id) - (if a.ClaimAction? && a.id == id && Enabled(s, a) then 1 else 0)
  {
    hide Shift, FirstIssue, RetryDelay;
  }

  /** Only a claim brings a worker to the feedback, and only a search that finds no issue lets it create one. */
  lemma MakingComes(s: State, a: Action, w: nat, id: Id)
    ensures Making(Next(s, a), w, id) ==> Making(s, w, id) || (Enabled(s, a) && a == ClaimAction(w, id))
    ensures FoundNothing(Next(s, a), w, id) ==>
              FoundNothing(s, w, id) || (a.SearchAction? && Making(s, w, id) && id !in s.issues)
  {
    hide Shift, FirstIssue, RetryDelay, Claimable;
  }

  lemma CreationIs(s: State, a: Action)
    requires a.CreateAction? && Enabled(s, a)
    ensures FoundNothing(s, a.w, WorkerAt(s, a.w).id) && !Making(Next(s, a), a.w, WorkerAt(s, a.w).id)
    ensures a.reply.Refused? ==> Next(s, a).issues == s.issues
    ensures !a.reply.Refused? ==> Next(s, a).issues == s.issues + [WorkerAt(s, a.w).id]
  {
  }

  lemma TwoMakeAPool(pool: set<nat>, w: nat, x: nat)
    requires w in pool && x in pool && w != x
    ensures |pool| >= 2
  {
    assert {w, x} <= pool;
    assert |pool| == |{w, x}| + |pool - {w, x}|;
  }

  lemma FoundIsMaking(s: State, w: nat, id: Id)
    ensures FoundNothing(s, w, id) ==> Making(s, w, id)
  {
  }

  /** As long as no issue is made and nobody new comes, what was safe stays safe. */
  lemma StaysSafe(s: State, after: State, id: Id, pool: set<nat>)
    requires Safe(s, id, pool)
    requires IssueCount(after, id) == IssueCount(s, id) && ClaimsLeft(after, id) <= ClaimsLeft(s, id)
    requires forall w: nat :: Making(after, w, id) ==> Making(s, w, id)
    requires forall w: nat :: FoundNothing(after, w, id) ==> FoundNothing(s, w, id) || IssueCount(s, id) == 0
    ensures Safe(after, id, pool)
  {
    hide Making, FoundNothing, IssueCount, ClaimsLeft;
  }

  lemma CreationIsSafe(s: State, a: Action, id: Id, pool: set<nat>)
    requires Safe(s, id, pool) && Staffed(s, pool) && a.CreateAction? && Enabled(s, a)
    ensures Safe(Next(s, a), id, pool)
  {
    hide Next, Enabled, Making, FoundNothing;
    CreationIs(s, a);
    CountsStay(s, a, id);
    forall w: nat
      ensures Making(Next(s, a), w, id) ==> Making(s, w, id)
      ensures FoundNothing(Next(s, a), w, id) ==> FoundNothing(s, w, id)
      ensures FoundNothing(s, w, id) ==> Making(s, w, id)
    {
      MakingComes(s, a, w, id);
      FoundIsMaking(s, w, id);
    }
    if a.reply.Refused? || WorkerAt(s, a.w).id != id {
      CountAfter(s.issues, WorkerAt(s, a.w).id, id);
      StaysSafe(s, Next(s, a), id, pool);
    } else {
      CountAfter(s.issues, id, id);
      forall w: nat
        ensures !FoundNothing(Next(s, a), w, id)
      {
        LastCreator(s, a, w, id, pool);
      }
    }
  }

  /** Whoever creates the first issue was the only one about to. */
  lemma LastCreator(s: State, a: Action, w: nat, id: Id, pool: set<nat>)
    requires Safe(s, id, pool) && Staffed(s, pool) && a.CreateAction? && Enabled(s, a) && WorkerAt(s, a.w).id == id
    ensures !FoundNothing(Next(s, a), w, id)
  {
    hide Next, Enabled, ClaimsLeft;
    CreationIs(s, a);
    MakingComes(s, a, w, id);
    assert FoundNothing(s, a.w, id) && Making(s, a.w, id);
    if FoundNothing(Next(s, a), w, id) && w != a.w {
      assert FoundNothing(s, w, id) && Making(s, w, id);
      TwoMakeAPool(pool, w, a.w);
    }
  }

  lemma ClaimIsSafe(s: State, a: Action, id: Id, pool: set<nat>)
    requires Safe(s, id, pool) && Staffed(s, pool) && a.ClaimAction? && Enabled(s, a)
    ensures Safe(Next(s, a), id, pool)
  {
    hide Making, FoundNothing, Staffed;
    CountsStay(s, a, id);
    hide Next, Enabled, ClaimsLeft;
    forall w: nat
      ensures Making(Next(s, a), w, id) ==> Making(s, w, id) || (a.w == w && a.id == id)
      ensures FoundNothing(Next(s, a), w, id) ==> FoundNothing(s, w, id)
    {
      MakingComes(s, a, w, id);
    }
    if a.id != id {
      StaysSafe(s, Next(s, a), id, pool);
    }
  }

  lemma StepKeepsSafe(s: State, a: Action, id: Id, pool: set<nat>)
    requires Safe(s, id, pool) && Staffed(s, pool) && (id in s.feedback || |pool| < 2)
    ensures Safe(Next(s, a), id, pool)
  {
    hide Making, FoundNothing, ClaimsLeft, Enabled, Staffed;
    if Enabled(s, a) && a.CreateAction? {
      CreationIsSafe(s, a, id, pool);
    } else if Enabled(s, a) && a.ClaimAction? {
      ClaimIsSafe(s, a, id, pool);
    } else if Enabled(s, a) {
      OtherIsSafe(s, a, id, pool);
    }
  }

  lemma OtherIsSafe(s: State, a: Action, id: Id, pool: set<nat>)
    requires Safe(s, id, pool) && (id in s.feedback || |pool| < 2) && !a.CreateAction? && !a.ClaimAction?
    ensures Safe(Next(s, a), id, pool)
  {
    hide Making, FoundNothing, Enabled, ClaimsLeft, Next;
    IssuesStay(s, a);
    CountIsPresence(s.issues, id);
    forall w: nat
      ensures Making(Next(s, a), w, id) ==> Making(s, w, id)
      ensures FoundNothing(Next(s, a), w, id) ==> FoundNothing(s, w, id) || IssueCount(s, id) == 0
    {
      MakingComes(s, a, w, id);
    }
    if id in s.feedback {
      CountsStay(s, a, id);
      StaysSafe(s, Next(s, a), id, pool);
    }
  }

  lemma IssuesStay(s: State, a: Action)
    requires !a.CreateAction?
    ensures Next(s, a).issues == s.issues
  {
    hide Shift, FirstIssue, RetryDelay, Claimable;
  }

  lemma FeedbackStays(s: State, a: Action, id: Id)
    requires id in s.feedback
    ensures id in Next(s, a).feedback
  {
    hide Shift, FirstIssue, RetryDelay, Claimable;
  }

  lemma {:induction false} RunKeepsSafe(s: State, actions: seq<Action>, id: Id, pool: set<nat>)
    requires Safe(s, id, pool) && Staffed(s, pool) && (id in s.feedback || |pool| < 2) && ByPool(actions, pool)
    ensures Safe(Run(s, actions), id, pool) && Staffed(Run(s, actions), pool)
    ensures id in Run(s, actions).feedback || |pool| < 2
  {
    hide Safe, Staffed, Next, WorkerOf;
    if |actions| != 0 {
      var n := |actions| - 1;
      assert actions[n] in actions;
      RunKeepsSafe(s, actions[..n], id, pool);
      StepKeepsSafe(Run(s, actions[..n]), actions[n], id, pool);
      StaysStaffed(Run(s, actions[..n]), actions[n], pool);
      if id in Run(s, actions[..n]).feedback {
        FeedbackStays(Run(s, actions[..n]), actions[n], id);
      }
    }
  }

  // A second issue is made.

  /** The actions, all by the pool, lead from one state to the other. */
  ghost predicate Leads(s: State, actions: seq<Action>, pool: set<nat>, after: State) {
    Run(s, actions) == after && ByPool(actions, pool)
  }

  lemma LeadsNowhere(s: State, pool: set<nat>)
    ensures Leads(s, [], pool, s)
  {
  }

  lemma LeadsOn(s: State, actions: seq<Action>, pool: set<nat>, after: State, a: Action)
    requires Leads(s, actions, pool, after) && (WorkerOf(a).Some? ==> WorkerOf(a).value in pool)
    ensures Leads(s, actions + [a], pool, Next(after, a))
  {
    hide Run, Next, WorkerOf;
    RunSnoc(s, actions, a);
  }

  lemma LeadsFurther(s: State, a: seq<Action>, pool: set<nat>, middle: State, b: seq<Action>, after: State)
    requires Leads(s, a, pool, middle) && Leads(middle, b, pool, after)
    ensures Leads(s, a + b, pool, after)
  {
    hide Run, WorkerOf;
    RunAppend(s, a, b);
  }

  /** A worker on its way to create an issue asks the tracker, which has none. */
  lemma FindsNothing(s: State, w: nat, id: Id)
    requires Making(s, w, id) && IssueCount(s, id) == 0
    ensures var after := Next(s, SearchAction(w, None));
            && after.issues == s.issues && FoundNothing(after, w, id)
            && forall x: nat :: x != w ==> WorkerAt(after, x) == WorkerAt(s, x)
  {
    CountIsPresence(s.issues, id);
  }

  lemma Creates(s: State, w: nat, id: Id)
    requires FoundNothing(s, w, id)
    ensures var after := Next(s, CreateAction(w, Made));
            && IssueCount(after, id) == IssueCount(s, id) + 1
            && forall x: nat :: x != w ==> WorkerAt(after, x) == WorkerAt(s, x)
  {
    CountAfter(s.issues, id, id);
  }

  /** Two workers both find no issue, and both create one. */
  lemma BothCreate(s: State, w: nat, x: nat, id: Id, pool: set<nat>) returns (actions: seq<Action>, after: State)
    requires Making(s, w, id) && Making(s, x, id) && w != x && w in pool && x in pool && IssueCount(s, id) == 0
    ensures Leads(s, actions, pool, after) && IssueCount(after, id) >= 2
  {
    hide Leads, Next;
    LeadsNowhere(s, pool);
    LeadsOn(s, [], pool, s, SearchAction(w, None));
    FindsNothing(s, w, id);
    var one := Next(s, SearchAction(w, None));
    actions := [] + [SearchAction(w, None)];
    LeadsOn(s, actions, pool, one, SearchAction(x, None));
    FindsNothing(one, x, id);
    var both := Next(one, SearchAction(x, None));
    actions := actions + [SearchAction(x, None)];
    LeadsOn(s, actions, pool, both, CreateAction(w, Made));
    Creates(both, w, id);
    var made := Next(both, CreateAction(w, Made));
    actions := actions + [CreateAction(w, Made)];
    LeadsOn(s, actions, pool, made, CreateAction(x, Made));
    Creates(made, x, id);
    actions := actions + [CreateAction(x, Made)];
    after := Next(made, CreateAction(x, Made));
  }

  lemma ClaimedNow(s: State, w: nat, id: Id)
    requires WorkerAt(s, w).Idle? && id in s.feedback && Claimable(s.feedback[id], s.now)
    ensures var after := Next(s, ClaimAction(w, id));
            && Making(after, w, id) && WorkerAt(after, w).Claimed?
            && id in after.feedback && after.feedback[id].status.Processing? && after.issues == s.issues
            && ClaimsLeft(after, id) == ClaimsLeft(s, id) - 1
            && forall x: nat :: x != w ==> WorkerAt(after, x) == WorkerAt(s, x)
  {
  }

  /** Whatever a worker was at, it can crash, and claim the feedback when its time has come. */
  lemma ClaimLater(s: State, w: nat, id: Id, pool: set<nat>) returns (actions: seq<Action>, after: State)
    requires Inv(s) && id in s.feedback && ClaimsLeft(s, id) >= 1 && w in pool
    ensures Leads(s, actions, pool, after) && Inv(after) && id in after.feedback
    ensures Making(after, w, id) && WorkerAt(after, w).Claimed? && after.feedback[id].status.Processing?
    ensures after.issues == s.issues && ClaimsLeft(after, id) == ClaimsLeft(s, id) - 1
    ensures forall x: nat :: x != w ==> WorkerAt(after, x) == WorkerAt(s, x)
  {
    hide Leads, Inv, Claimable, Making, ClaimsLeft;
    LeadsNowhere(s, pool);
    LeadsOn(s, [], pool, s, CrashAction(w));
    StepKeepsInv(s, CrashAction(w));
    var idle := Next(s, CrashAction(w));
    actions := [] + [CrashAction(w)];
    StillClaimable(s, idle, id);
    var later := ClaimableAt(idle, id);
    var due := Next(idle, TickAction(later - idle.now));
    LeadsOn(s, actions, pool, idle, TickAction(later - idle.now));
    StepKeepsInv(idle, TickAction(later - idle.now));
    actions := actions + [TickAction(later - idle.now)];
    StillClaimable(s, due, id);
    LeadsOn(s, actions, pool, due, ClaimAction(w, id));
    StepKeepsInv(due, ClaimAction(w, id));
    ClaimedNow(due, w, id);
    FeedbackStays(due, ClaimAction(w, id), id);
    actions := actions + [ClaimAction(w, id)];
    after := Next(due, ClaimAction(w, id));
  }

  lemma StillClaimable(s: State, after: State, id: Id)
    requires after.feedback == s.feedback && id in s.feedback
    ensures ClaimsLeft(after, id) == ClaimsLeft(s, id)
    ensures ClaimsLeft(s, id) >= 1 ==> !Final(s.feedback[id].status) && s.feedback[id].attempts < MAX_ATTEMPTS
  {
  }

  /** A second worker joins one that is on its way. */
  lemma JoinsOne(s: State, y: nat, id: Id, pool: set<nat>) returns (actions: seq<Action>, after: State)
    requires Inv(s) && id in s.feedback && ClaimsLeft(s, id) >= 1 && Making(s, y, id) && y in pool && |pool| >= 2
    requires IssueCount(s, id) == 0
    ensures Leads(s, actions, pool, after) && IssueCount(after, id) >= 2
  {
    hide Leads, Inv, ClaimsLeft;
    var z := Another(pool, y);
    var first, middle := ClaimLater(s, z, id, pool);
    var second: seq<Action>;
    second, after := BothCreate(middle, y, z, id, pool);
    LeadsFurther(s, first, pool, middle, second, after);
    actions := first + second;
  }

  lemma OnlyOne(pool: set<nat>, y: nat)
    requires forall x :: x in pool ==> x == y
    ensures |pool| <= 1
  {
    assert pool <= {y};
    assert |{y}| == |pool| + |{y} - pool|;
  }

  lemma Another(pool: set<nat>, y: nat) returns (z: nat)
    requires |pool| >= 2
    ensures z in pool && z != y
  {
    if forall x :: x in pool ==> x == y {
      OnlyOne(pool, y);
    }
    z :| z in pool && z != y;
  }

  lemma Duplicates(s: State, id: Id, pool: set<nat>) returns (actions: seq<Action>, after: State)
    requires Inv(s) && id in s.feedback && Staffed(s, pool) && !Safe(s, id, pool)
    ensures Leads(s, actions, pool, after) && IssueCount(after, id) >= 2
  {
    hide Leads, Inv, ClaimsLeft, Making, FoundNothing;
    if IssueCount(s, id) >= 2 {
      LeadsNowhere(s, pool);
      actions, after := [], s;
    } else if IssueCount(s, id) == 1 {
      var w: nat :| FoundNothing(s, w, id);
      actions, after := CreatesBeside(s, w, id, pool);
    } else if w: nat, x: nat :| Making(s, w, id) && Making(s, x, id) && w != x {
      MakersAreStaff(s, w, id, pool);
      MakersAreStaff(s, x, id, pool);
      actions, after := BothCreate(s, w, x, id, pool);
    } else if y: nat :| Making(s, y, id) {
      MakersAreStaff(s, y, id, pool);
      actions, after := JoinsOne(s, y, id, pool);
    } else {
      var y := Another(pool, 0);
      var first, middle := ClaimLater(s, y, id, pool);
      var second: seq<Action>;
      second, after := JoinsOne(middle, y, id, pool);
      LeadsFurther(s, first, pool, middle, second, after);
      actions := first + second;
    }
  }

  lemma MakersAreStaff(s: State, w: nat, id: Id, pool: set<nat>)
    requires Staffed(s, pool) && Making(s, w, id)
    ensures w in pool
  {
  }

  lemma CreatesBeside(s: State, w: nat, id: Id, pool: set<nat>) returns (actions: seq<Action>, after: State)
    requires Staffed(s, pool) && FoundNothing(s, w, id) && IssueCount(s, id) == 1
    ensures Leads(s, actions, pool, after) && IssueCount(after, id) >= 2
  {
    hide Leads, Next;
    LeadsNowhere(s, pool);
    LeadsOn(s, [], pool, s, CreateAction(w, Made));
    Creates(s, w, id);
    actions, after := [] + [CreateAction(w, Made)], Next(s, CreateAction(w, Made));
  }

  ghost predicate DuplicatedBy(s: State, actions: seq<Action>, id: Id, pool: set<nat>) {
    ByPool(actions, pool) && IssueCount(Run(s, actions), id) >= 2
  }

  /** Exactly when some further run of a pool of workers ends with two issues for a feedback: when there are two, or one
      beside which a worker is about to create another, or none yet and, with two workers or more, the claims left and
      the workers on their way to create one are two together, or more. */
  lemma DuplicateExactly(s: State, id: Id, pool: set<nat>)
    requires Inv(s) && id in s.feedback && Staffed(s, pool)
    ensures (exists actions :: DuplicatedBy(s, actions, id, pool)) <==> !Safe(s, id, pool)
  {
    hide Inv, Safe, Staffed, ByPool, Run, IssueCount;
    if Safe(s, id, pool) {
      forall actions | ByPool(actions, pool)
        ensures IssueCount(Run(s, actions), id) <= 1
      {
        RunKeepsSafe(s, actions, id, pool);
        SafeIsOne(Run(s, actions), id, pool);
      }
    } else {
      var actions, after := Duplicates(s, id, pool);
      assert DuplicatedBy(s, actions, id, pool);
    }
  }

  lemma SafeIsOne(s: State, id: Id, pool: set<nat>)
    requires Safe(s, id, pool)
    ensures IssueCount(s, id) <= 1
  {
  }

  // -------------------------------------------------------------- from the start

  lemma {:induction false} DistinctExactly(issues: seq<Id>)
    ensures Distinct(issues) <==> forall id :: multiset(issues)[id] <= 1
  {
    if i, j :| 0 <= i < j < |issues| && issues[i] == issues[j] {
      assert issues == issues[..i] + [issues[i]] + issues[i + 1..j] + [issues[j]] + issues[j + 1..];
      assert multiset(issues)[issues[i]] >= 2;
    } else {
      assert Distinct(issues);
      forall id
        ensures multiset(issues)[id] <= 1
      {
        DistinctOccursOnce(issues, id);
      }
    }
  }

  lemma EmptyIsSafe(id: Id, pool: set<nat>)
    requires |pool| < 2
    ensures Safe(EMPTY, id, pool) && Staffed(EMPTY, pool)
  {
  }

  /** With one worker, crashing anywhere, losing replies and being retried, each feedback has at most one issue. */
  lemma OneIssueEach(actions: seq<Action>, pool: set<nat>)
    requires |pool| < 2 && ByPool(actions, pool)
    ensures Distinct(Run(EMPTY, actions).issues)
  {
    hide Safe, Staffed, ByPool, Run;
    forall id
      ensures multiset(Run(EMPTY, actions).issues)[id] <= 1
    {
      EmptyIsSafe(id, pool);
      RunKeepsSafe(EMPTY, actions, id, pool);
      SafeIsOne(Run(EMPTY, actions), id, pool);
    }
    DistinctExactly(Run(EMPTY, actions).issues);
  }

  lemma SubmittedIsUnsafe(pool: set<nat>)
    requires |pool| >= 2
    ensures var s := Next(EMPTY, SubmitAction(1)); Inv(s) && 1 in s.feedback && Staffed(s, pool) && !Safe(s, 1, pool)
  {
    EmptyIsSound();
    StepKeepsInv(EMPTY, SubmitAction(1));
    hide Inv;
  }

  /** A pool of workers makes at most one issue for each feedback in all its runs exactly when it has no two workers. */
  lemma OneWorkerExactly(pool: set<nat>)
    ensures (forall actions :: ByPool(actions, pool) ==> Distinct(Run(EMPTY, actions).issues)) <==> |pool| < 2
  {
    hide Run, ByPool, Safe, Inv, Staffed, Distinct;
    if |pool| < 2 {
      forall actions | ByPool(actions, pool)
        ensures Distinct(Run(EMPTY, actions).issues)
      {
        OneIssueEach(actions, pool);
      }
    } else {
      var actions := TwoIssues(pool);
      DistinctExactly(Run(EMPTY, actions).issues);
    }
  }

  lemma TwoIssues(pool: set<nat>) returns (actions: seq<Action>)
    requires |pool| >= 2
    ensures ByPool(actions, pool) && multiset(Run(EMPTY, actions).issues)[1] >= 2
  {
    hide Run, ByPool, Safe, Inv, Staffed;
    SubmittedIsUnsafe(pool);
    LeadsNowhere(EMPTY, pool);
    LeadsOn(EMPTY, [], pool, EMPTY, SubmitAction(1));
    var s := Next(EMPTY, SubmitAction(1));
    var rest, after := Duplicates(s, 1, pool);
    LeadsFurther(EMPTY, [] + [SubmitAction(1)], pool, s, rest, after);
    actions := [] + [SubmitAction(1)] + rest;
  }
}
