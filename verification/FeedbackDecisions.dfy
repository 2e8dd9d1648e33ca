/** Whether a feedback still comes to be published or failed. */
module FeedbackDecisions {
  import opened Results
  import opened Sequences
  import opened FeedbackPublisher
  import opened FeedbackIssues

  // ------------------------------------------------- what can still be decided

  /** The worker can still have the feedback published or failed: unless its error is to be retried before the last
      attempt. */
  predicate CanSettle(s: State, w: nat, id: Id) {
    var worker := WorkerAt(s, w);
    && !worker.Idle? && worker.id == id
    && (worker.Errored? ==> !worker.retryable || worker.attempt >= MAX_ATTEMPTS)
  }

  /** It is decided, or it can be claimed again, or it is claimed and a worker at work on it can settle it. */
  ghost predicate Decidable(s: State, id: Id)
    requires id in s.feedback
  {
    var f := s.feedback[id];
    Final(f.status) || f.attempts < MAX_ATTEMPTS || (f.status.Processing? && exists w: nat :: CanSettle(s, w, id))
  }

  ghost predicate Undecidable(s: State, id: Id) {
    id in s.feedback && !Decidable(s, id)
  }

  ghost predicate DecidedAfter(s: State, actions: seq<Action>, id: Id) {
    var after := Run(s, actions);
    id in after.feedback && Final(after.feedback[id].status)
  }

  /** Who can settle a feedback that cannot be claimed any more could do so before. */
  lemma NobodyComes(s: State, a: Action, w: nat, id: Id)
    requires id in s.feedback && s.feedback[id].attempts >= MAX_ATTEMPTS && CanSettle(Next(s, a), w, id)
    ensures CanSettle(s, w, id)
  {
    hide Shift, FirstIssue, RetryDelay;
  }

  /** What a step can do to a feedback that was claimed ten times. */
  lemma SpentRow(s: State, a: Action, id: Id)
    requires id in s.feedback && s.feedback[id].attempts >= MAX_ATTEMPTS && !Final(s.feedback[id].status)
    ensures id in Next(s, a).feedback && Next(s, a).feedback[id].attempts == s.feedback[id].attempts
    ensures var f := Next(s, a).feedback[id];
            || f.status == s.feedback[id].status
            || (s.feedback[id].status.Processing? && f.status.Pending?)
            || (s.feedback[id].status.Processing? && WorkerOf(a).Some? && CanSettle(s, WorkerOf(a).value, id))
  {
    hide Shift, FirstIssue;
  }

  lemma UndecidableStep(s: State, a: Action, id: Id)
    requires Undecidable(s, id)
    ensures Undecidable(Next(s, a), id)
  {
    hide Next, CanSettle;
    SpentRow(s, a, id);
    if w: nat :| CanSettle(Next(s, a), w, id) {
      NobodyComes(s, a, w, id);
    }
  }

  lemma {:induction false} UndecidableStays(s: State, actions: seq<Action>, id: Id)
    requires Undecidable(s, id)
    ensures Undecidable(Run(s, actions), id)
  {
    hide Next, Undecidable;
    if |actions| != 0 {
      UndecidableStays(s, actions[..|actions| - 1], id);
      UndecidableStep(Run(s, actions[..|actions| - 1]), actions[|actions| - 1], id);
    }
  }

  lemma UndecidableIsOpen(s: State, id: Id)
    requires Undecidable(s, id)
    ensures id in s.feedback && !Final(s.feedback[id].status)
  {
  }

  /** An attempt that fails for good decides its feedback. */
  lemma FailsForGood(s: State, w: nat, id: Id)
    requires id in s.feedback && s.feedback[id].status.Processing?
    requires WorkerAt(s, w).Errored? && CanSettle(s, w, id)
    ensures var after := Next(s, RescheduleAction(w, 0)); id in after.feedback && Final(after.feedback[id].status)
  {
  }

  lemma GivesUp(s: State, w: nat, id: Id)
    requires id in s.feedback && s.feedback[id].status.Processing? && CanSettle(s, w, id)
    ensures WorkerAt(s, w).Claimed? ==>
              var after := Next(s, SearchAction(w, Some((false, 0))));
              after.feedback == s.feedback && WorkerAt(after, w).Errored? && CanSettle(after, w, id)
    ensures WorkerAt(s, w).Absent? ==>
              var after := Next(s, CreateAction(w, Refused(false, 0)));
              after.feedback == s.feedback && WorkerAt(after, w).Errored? && CanSettle(after, w, id)
    ensures WorkerAt(s, w).Found? ==>
              var after := Next(s, MarkAction(w)); id in after.feedback && Final(after.feedback[id].status)
  {
  }

  /** A worker that can settle a claimed feedback does. */
  lemma Settles(s: State, w: nat, id: Id) returns (actions: seq<Action>)
    requires id in s.feedback && s.feedback[id].status.Processing? && CanSettle(s, w, id)
    ensures DecidedAfter(s, actions, id)
  {
    hide Run, Next, CanSettle;
    GivesUp(s, w, id);
    RunNothing(s);
    if WorkerAt(s, w).Errored? {
      FailsForGood(s, w, id);
      actions := [] + [RescheduleAction(w, 0)];
      RunSnoc(s, [], RescheduleAction(w, 0));
    } else if WorkerAt(s, w).Found? {
      actions := [] + [MarkAction(w)];
      RunSnoc(s, [], MarkAction(w));
    } else {
      IsAsking(s, w, id);
      var a :=
        if WorkerAt(s, w).Claimed? then SearchAction(w, Some((false, 0))) else CreateAction(w, Refused(false, 0));
      RunSnoc(s, [], a);
      FailsForGood(Next(s, a), w, id);
      RunSnoc(s, [] + [a], RescheduleAction(w, 0));
      actions := [] + [a] + [RescheduleAction(w, 0)];
    }
  }

  lemma IsAsking(s: State, w: nat, id: Id)
    requires CanSettle(s, w, id) && !WorkerAt(s, w).Errored? && !WorkerAt(s, w).Found?
    ensures WorkerAt(s, w).Claimed? || WorkerAt(s, w).Absent?
  {
  }

  lemma RunNothing(s: State)
    ensures Run(s, []) == s
  {
  }

  /** With attempts left, some worker can crash, claim the feedback in time and give up. */
  lemma FailedAttempt(s: State, id: Id) returns (actions: seq<Action>)
    requires Inv(s) && id in s.feedback && !Final(s.feedback[id].status) && s.feedback[id].attempts < MAX_ATTEMPTS
    ensures DecidedAfter(s, actions, id)
  {
    hide Inv, Run, ByPool;
    var first, middle := ClaimLater(s, 0, id, {0});
    assert CanSettle(middle, 0, id);
    var second := Settles(middle, 0, id);
    RunAppend(s, first, second);
    actions := first + second;
  }

  /** A feedback can still come to be published or failed exactly when it is decided already, has attempts left, or is
      claimed by a worker that can still settle it. */
  lemma DecidedExactly(s: State, id: Id)
    requires Inv(s) && id in s.feedback
    ensures (exists actions :: DecidedAfter(s, actions, id)) <==> Decidable(s, id)
  {
    hide Inv, Next, CanSettle, Undecidable;
    if !Decidable(s, id) {
      StartsUndecidable(s, id);
      forall actions
        ensures !DecidedAfter(s, actions, id)
      {
        UndecidableStays(s, actions, id);
        UndecidableIsOpen(Run(s, actions), id);
      }
    } else if Final(s.feedback[id].status) {
      assert DecidedAfter(s, [], id);
    } else if s.feedback[id].attempts < MAX_ATTEMPTS {
      var actions := FailedAttempt(s, id);
      assert DecidedAfter(s, actions, id);
    } else {
      var w: nat :| CanSettle(s, w, id);
      var actions := Settles(s, w, id);
      assert DecidedAfter(s, actions, id);
    }
  }

  lemma StartsUndecidable(s: State, id: Id)
    requires id in s.feedback && !Decidable(s, id)
    ensures Undecidable(s, id)
  {
  }

  // ----------------------------------------------- feedback nobody decides

  /** No worker is busy with the feedback. */
  ghost predicate Unattended(s: State, id: Id) {
    forall w :: WorkerAt(s, w).Idle? || WorkerAt(s, w).id != id
  }

  /** Claimed ten times, still not decided, and nobody at work on it. */
  ghost predicate Abandoned(s: State, id: Id) {
    id in s.feedback && !Final(s.feedback[id].status) && s.feedback[id].attempts >= MAX_ATTEMPTS && Unattended(s, id)
  }

  lemma AbandonedStep(s: State, a: Action, id: Id)
    requires Abandoned(s, id)
    ensures Abandoned(Next(s, a), id) && Next(s, a).feedback[id] == s.feedback[id]
  {
    hide Shift, FirstIssue, RetryDelay;
    forall w
      ensures WorkerAt(Next(s, a), w).Idle? || WorkerAt(Next(s, a), w).id != id
    {
      assert WorkerAt(s, w).Idle? || WorkerAt(s, w).id != id;
    }
  }

  /** A feedback whose tenth attempt crashed stays as it is for ever: it is neither published nor failed. */
  lemma {:induction false} AbandonedStays(s: State, actions: seq<Action>, id: Id)
    requires Abandoned(s, id)
    ensures Abandoned(Run(s, actions), id) && Run(s, actions).feedback[id] == s.feedback[id]
  {
    hide Next;
    if |actions| != 0 {
      AbandonedStays(s, actions[..|actions| - 1], id);
      AbandonedStep(Run(s, actions[..|actions| - 1]), actions[|actions| - 1], id);
    }
  }

  /** One worker that claims and crashes, `attempts` times over. */
  lemma {:induction false} ClaimAndCrash(attempts: nat) returns (actions: seq<Action>)
    requires 1 <= attempts <= MAX_ATTEMPTS
    ensures ByPool(actions, {0})
    ensures var s := Run(EMPTY, actions);
            && s.feedback.Keys == {1} && s.workers.Keys <= {0} && WorkerAt(s, 0).Idle?
            && s.feedback[1].status.Processing? && s.feedback[1].attempts == attempts
            && s.feedback[1].leaseUntil == Some(s.now + LEASE) && s.feedback[1].nextAttemptAt <= s.now
  {
    if attempts == 1 {
      actions := [SubmitAction(1)];
      RunSnoc(EMPTY, [], SubmitAction(1));
      assert [] + [SubmitAction(1)] == actions;
    } else {
      actions := ClaimAndCrash(attempts - 1);
      RunSnoc(EMPTY, actions, TickAction(LEASE + 1));
      actions := actions + [TickAction(LEASE + 1)];
    }
    RunSnoc(EMPTY, actions, ClaimAction(0, 1));
    actions := actions + [ClaimAction(0, 1)];
    RunSnoc(EMPTY, actions, CrashAction(0));
    actions := actions + [CrashAction(0)];
  }

  /** Such a feedback is reachable with a single worker. */
  lemma AbandonedIsReachable() returns (actions: seq<Action>)
    ensures ByPool(actions, {0}) && Abandoned(Run(EMPTY, actions), 1)
  {
    hide Run;
    actions := ClaimAndCrash(MAX_ATTEMPTS);
  }

  /** The worker of the ninth attempt has run into an error when the tenth attempt is claimed. */
  lemma TenthClaim() returns (actions: seq<Action>)
    ensures var s := Run(EMPTY, actions);
            && s.feedback.Keys == {1} && s.feedback[1].status.Processing? && s.feedback[1].attempts == MAX_ATTEMPTS
            && WorkerAt(s, 0).Errored? && WorkerAt(s, 0).id == 1 && WorkerAt(s, 0).retryable
            && WorkerAt(s, 0).attempt == MAX_ATTEMPTS - 1
            && WorkerAt(s, 1).Claimed? && WorkerAt(s, 1).id == 1 && s.now <= WorkerAt(s, 1).lease
  {
    hide Run;
    actions := ClaimAndCrash(MAX_ATTEMPTS - 2);
    RunSnoc(EMPTY, actions, TickAction(LEASE + 1));
    actions := actions + [TickAction(LEASE + 1)];
    RunSnoc(EMPTY, actions, ClaimAction(0, 1));
    actions := actions + [ClaimAction(0, 1)];
    RunSnoc(EMPTY, actions, SearchAction(0, Some((true, 0))));
    actions := actions + [SearchAction(0, Some((true, 0)))];
    RunSnoc(EMPTY, actions, TickAction(LEASE + 1));
    actions := actions + [TickAction(LEASE + 1)];
    assert WorkerAt(Run(EMPTY, actions), 1).Idle?;
    RunSnoc(EMPTY, actions, ClaimAction(1, 1));
    actions := actions + [ClaimAction(1, 1)];
  }

  /** A late reschedule leaves a feedback PENDING with all its attempts used up, undecidable although the worker of the
      tenth attempt is still at work on it, within its lease. */
  lemma PendingForEverIsReachable() returns (actions: seq<Action>)
    ensures var s := Run(EMPTY, actions);
            && Undecidable(s, 1) && s.feedback[1].status.Pending?
            && WorkerAt(s, 1).Claimed? && WorkerAt(s, 1).id == 1 && s.now <= WorkerAt(s, 1).lease
  {
    hide Run;
    actions := TenthClaim();
    RunSnoc(EMPTY, actions, RescheduleAction(0, 0));
    actions := actions + [RescheduleAction(0, 0)];
  }

  // ------------------------------------------------------------ retry delays

  /** The tenth attempt is the last. Before it, what is waited doubles from a minute with each attempt, with at most a
      quarter on top, up to the hour; only the tracker can ask for more. */
  lemma RetryDelayBounds(attempt: nat, retryable: bool, retryAfter: nat, jitter: nat)
    requires attempt >= 1
    ensures RetryDelay(attempt, retryable, retryAfter, jitter).None? <==> !retryable || attempt >= MAX_ATTEMPTS
    ensures RetryDelay(attempt, retryable, retryAfter, jitter).Some? ==>
              var delay := RetryDelay(attempt, retryable, retryAfter, jitter).value;
              var base := MINUTE * Shift(attempt - 1);
              && delay >= Min(base, HOUR) && delay >= retryAfter
              && (delay == retryAfter || delay <= Min(base + base / 4, HOUR))
  {
    ShiftGrows(6, attempt - 1);
    assert Shift(6) == 64 by {
      assert Shift(2) == 4 && Shift(4) == 16;
    }
  }

  lemma {:induction false} ShiftGrows(n: nat, m: nat)
    ensures n <= m ==> Shift(n) <= Shift(m)
  {
    if n < m {
      ShiftGrows(n, m - 1);
    }
  }
}
