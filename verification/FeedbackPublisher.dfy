/** Publishing user feedback as issues: claims with a lease, retries with a growing delay, workers that may crash. */
module FeedbackPublisher {
  import opened Results
  import opened Sequences

  // Times are in seconds.
  const MINUTE: nat := 60
  const HOUR: nat := 3600
  const LEASE: nat := 2 * MINUTE
  const MAX_ATTEMPTS: nat := 10

  datatype Status = Pending | Processing | Published | Failed

  /** A row of `app_feedback`; `number` is the number of its issue. */
  datatype Feedback = Feedback(
    status: Status, attempts: nat, nextAttemptAt: nat, leaseUntil: Option<nat>, number: Option<nat>)

  /** Where a worker is in `publishOne`, the attempt it has claimed and the lease it got for it. */
  datatype Worker =
    | Idle
    | Claimed(id: Id, attempt: nat, lease: nat)
    | Absent(id: Id, attempt: nat, lease: nat)
    | Found(id: Id, attempt: nat, lease: nat, number: nat)
    | Errored(id: Id, attempt: nat, lease: nat, retryable: bool, retryAfter: nat)

  /** The table, the tracker's issues by the feedback their marker names, the workers and the clock. */
  datatype State = State(feedback: map<Id, Feedback>, issues: seq<Id>, workers: map<nat, Worker>, now: nat)

  function WorkerAt(s: State, w: nat): Worker {
    if w in s.workers then s.workers[w] else Idle
  }

  // ------------------------------------------------------------- statements

  /** The condition of `ClaimAppFeedbackForPublishing`. */
  predicate Claimable(f: Feedback, now: nat) {
    && (f.status.Pending? || (f.status.Processing? && f.leaseUntil.Some? && f.leaseUntil.value < now))
    && f.nextAttemptAt <= now
    && f.attempts < MAX_ATTEMPTS
  }

  function ClaimedFeedback(f: Feedback, now: nat): Feedback {
    f.(status := Processing, attempts := f.attempts + 1, leaseUntil := Some(now + LEASE))
  }

  function Shift(n: nat): nat {
    if n == 0 then 1 else 2 * Shift(n - 1)
  }

  function Min(a: nat, b: nat): nat {
    if a < b then a else b
  }

  /** `feedbackFailure`: whether the attempt was the last one, and otherwise how long to wait. */
  function RetryDelay(attempt: nat, retryable: bool, retryAfter: nat, jitter: nat): Option<nat> {
    if !retryable || attempt >= MAX_ATTEMPTS then None
    else
      var delay := MINUTE * Shift(if attempt == 0 then 0 else Min(attempt - 1, 6));
      var jittered := delay + Min(jitter, delay / 4);
      var capped := Min(jittered, HOUR);
      Some(if retryAfter > capped then retryAfter else capped)
  }

  // ------------------------------------------------------------------ steps

  datatype Reply = Made | Refused(retryable: bool, retryAfter: nat) | MadeButLost(retryable: bool, retryAfter: nat)

  datatype Action =
    | SubmitAction(id: Id)
    | TickAction(seconds: nat)
    | ClaimAction(w: nat, id: Id)
    | SearchAction(w: nat, failure: Option<(bool, nat)>)
    | CreateAction(w: nat, reply: Reply)
    | MarkAction(w: nat)
    | RescheduleAction(w: nat, jitter: nat)
    | CrashAction(w: nat)

  function FirstIssue(issues: seq<Id>, id: Id): (n: nat)
    requires id in issues
    ensures n < |issues| && issues[n] == id
  {
    if issues[0] == id then 0 else FirstIssue(issues[1..], id) + 1
  }

  predicate Enabled(s: State, a: Action) {
    match a
    case SubmitAction(id) => id !in s.feedback
    case TickAction(_) => true
    case ClaimAction(w, id) => WorkerAt(s, w).Idle? && id in s.feedback && Claimable(s.feedback[id], s.now)
    case SearchAction(w, _) => WorkerAt(s, w).Claimed?
    case CreateAction(w, _) => WorkerAt(s, w).Absent?
    case MarkAction(w) => WorkerAt(s, w).Found? && WorkerAt(s, w).id in s.feedback
    case RescheduleAction(w, _) => WorkerAt(s, w).Errored? && WorkerAt(s, w).id in s.feedback
    case CrashAction(_) => true
  }

  function Searched(s: State, w: nat, failure: Option<(bool, nat)>): State
    requires WorkerAt(s, w).Claimed?
  {
    var worker := WorkerAt(s, w);
    var next :=
      if failure.Some? then Errored(worker.id, worker.attempt, worker.lease, failure.value.0, failure.value.1)
      else if worker.id in s.issues then Found(worker.id, worker.attempt, worker.lease, FirstIssue(s.issues, worker.id))
      else Absent(worker.id, worker.attempt, worker.lease);
    s.(workers := s.workers[w := next])
  }

  function Created(s: State, w: nat, reply: Reply): State
    requires WorkerAt(s, w).Absent?
  {
    var worker := WorkerAt(s, w);
    match reply
    case Made =>
      var next := Found(worker.id, worker.attempt, worker.lease, |s.issues|);
      s.(issues := s.issues + [worker.id], workers := s.workers[w := next])
    case Refused(retryable, retryAfter) =>
      s.(workers := s.workers[w := Errored(worker.id, worker.attempt, worker.lease, retryable, retryAfter)])
    case MadeButLost(retryable, retryAfter) =>
      var next := Errored(worker.id, worker.attempt, worker.lease, retryable, retryAfter);
      s.(issues := s.issues + [worker.id], workers := s.workers[w := next])
  }

  /** `MarkAppFeedbackPublished`, guarded by the status only. */
  function Marked(s: State, w: nat): State
    requires WorkerAt(s, w).Found? && WorkerAt(s, w).id in s.feedback
  {
    var worker := WorkerAt(s, w);
    var f := s.feedback[worker.id];
    var after :=
      if f.status.Processing? then f.(status := Published, leaseUntil := None, number := Some(worker.number)) else f;
    s.(feedback := s.feedback[worker.id := after], workers := s.workers[w := Idle])
  }

  /** `RescheduleAppFeedback`, guarded by the status only. */
  function Rescheduled(s: State, w: nat, jitter: nat): State
    requires WorkerAt(s, w).Errored? && WorkerAt(s, w).id in s.feedback
  {
    var worker := WorkerAt(s, w);
    var f := s.feedback[worker.id];
    var delay := RetryDelay(worker.attempt, worker.retryable, worker.retryAfter, jitter);
    var after :=
      if !f.status.Processing? then f
      else if delay.None? then f.(status := Failed, nextAttemptAt := s.now, leaseUntil := None)
      else f.(status := Pending, nextAttemptAt := s.now + delay.value, leaseUntil := None);
    s.(feedback := s.feedback[worker.id := after], workers := s.workers[w := Idle])
  }

  function Next(s: State, a: Action): State {
    if !Enabled(s, a) then s
    else
      match a
      case SubmitAction(id) => s.(feedback := s.feedback[id := Feedback(Pending, 0, s.now, None, None)])
      case TickAction(seconds) => s.(now := s.now + seconds)
      case ClaimAction(w, id) =>
        s.(feedback := s.feedback[id := ClaimedFeedback(s.feedback[id], s.now)],
           workers := s.workers[w := Claimed(id, s.feedback[id].attempts + 1, s.now + LEASE)])
      case SearchAction(w, failure) => Searched(s, w, failure)
      case CreateAction(w, reply) => Created(s, w, reply)
      case MarkAction(w) => Marked(s, w)
      case RescheduleAction(w, jitter) => Rescheduled(s, w, jitter)
      case CrashAction(w) => s.(workers := s.workers[w := Idle])
  }

  function Run(s: State, actions: seq<Action>): State {
    if |actions| == 0 then s else Next(Run(s, actions[..|actions| - 1]), actions[|actions| - 1])
  }

  const EMPTY := State(map[], [], map[], 0)

  function WorkerOf(a: Action): Option<nat> {
    match a
    case SubmitAction(_) => None
    case TickAction(_) => None
    case ClaimAction(w, _) => Some(w)
    case SearchAction(w, _) => Some(w)
    case CreateAction(w, _) => Some(w)
    case MarkAction(w) => Some(w)
    case RescheduleAction(w, _) => Some(w)
    case CrashAction(w) => Some(w)
  }

  lemma RunSnoc(s: State, actions: seq<Action>, a: Action)
    ensures Run(s, actions + [a]) == Next(Run(s, actions), a)
  {
    assert (actions + [a])[..|actions|] == actions;
  }

  lemma {:induction false} RunAppend(s: State, a: seq<Action>, b: seq<Action>)
    ensures Run(s, a + b) == Run(Run(s, a), b)
  {
    hide Next;
    if |b| == 0 {
      assert a + b == a;
    } else {
      RunAppend(s, a, b[..|b| - 1]);
      assert (a + b)[..|a + b| - 1] == a + b[..|b| - 1];
    }
  }

  // ------------------------------------------------------- a worker at work

  /** One undisturbed `publishOne` as steps of the only worker; the steps that do not apply do nothing. */
  function Attempt(id: Id, search: Option<(bool, nat)>, reply: Reply, jitter: nat): seq<Action> {
    [ClaimAction(0, id), SearchAction(0, search), CreateAction(0, reply), MarkAction(0), RescheduleAction(0, jitter)]
  }

  lemma RunOfFive(s: State, actions: seq<Action>)
    requires |actions| == 5
    ensures Run(s, actions)
         == Next(Next(Next(Next(Next(s, actions[0]), actions[1]), actions[2]), actions[3]), actions[4])
  {
    hide Next;
    assert actions[..4][..3] == actions[..3] && actions[..3][..2] == actions[..2] && actions[..2][..1] == actions[..1];
    assert actions[..1][..0] == [] && Run(s, []) == s;
    assert Run(s, actions[..1]) == Next(s, actions[0]);
    assert Run(s, actions[..2]) == Next(Run(s, actions[..1]), actions[1]);
    assert Run(s, actions[..3]) == Next(Run(s, actions[..2]), actions[2]);
    assert Run(s, actions[..4]) == Next(Run(s, actions[..3]), actions[3]);
  }

  /** What the tracker holds and answers when all is asked of it: the issue number, or the error. */
  function Answer(issues: seq<Id>, id: Id, search: Option<(bool, nat)>, reply: Reply)
    : (seq<Id>, Option<nat>, (bool, nat))
  {
    if search.Some? then (issues, None, search.value)
    else if id in issues then (issues, Some(FirstIssue(issues, id)), (true, 0))
    else
      match reply
      case Made => (issues + [id], Some(|issues|), (true, 0))
      case Refused(retryable, retryAfter) => (issues, None, (retryable, retryAfter))
      case MadeButLost(retryable, retryAfter) => (issues + [id], None, (retryable, retryAfter))
  }

  function SettledFeedback(f: Feedback, now: nat, number: Option<nat>, error: (bool, nat), jitter: nat): Feedback {
    if number.Some? then f.(status := Published, leaseUntil := None, number := number)
    else
      match RetryDelay(f.attempts, error.0, error.1, jitter)
      case None => f.(status := Failed, nextAttemptAt := now, leaseUntil := None)
      case Some(delay) => f.(status := Pending, nextAttemptAt := now + delay, leaseUntil := None)
  }

  lemma AttemptSettles(s: State, id: Id, search: Option<(bool, nat)>, reply: Reply, jitter: nat)
    requires s.workers == map[0 := Idle] && id in s.feedback && Claimable(s.feedback[id], s.now)
    ensures var (issues, number, error) := Answer(s.issues, id, search, reply);
            var f := SettledFeedback(ClaimedFeedback(s.feedback[id], s.now), s.now, number, error, jitter);
            Run(s, Attempt(id, search, reply, jitter)) == s.(feedback := s.feedback[id := f], issues := issues)
  {
    hide Run, RetryDelay, FirstIssue, Next, Answer, Claimable;
    RunOfFive(s, Attempt(id, search, reply, jitter));
    var f := ClaimedFeedback(s.feedback[id], s.now);
    ClaimStep(s, id);
    AskSteps(Next(s, ClaimAction(0, id)), id, search, reply);
    SettleSteps(Next(Next(Next(s, ClaimAction(0, id)), SearchAction(0, search)), CreateAction(0, reply)), id, jitter);
  }

  lemma ClaimStep(s: State, id: Id)
    requires s.workers == map[0 := Idle] && id in s.feedback && Claimable(s.feedback[id], s.now)
    ensures var f := ClaimedFeedback(s.feedback[id], s.now);
            Next(s, ClaimAction(0, id))
                == State(s.feedback[id := f], s.issues, map[0 := Claimed(id, f.attempts, s.now + LEASE)], s.now)
  {
  }

  lemma AskSteps(s: State, id: Id, search: Option<(bool, nat)>, reply: Reply)
    requires 0 in s.workers && s.workers.Keys == {0} && s.workers[0].Claimed? && s.workers[0].id == id
    ensures var (issues, number, error) := Answer(s.issues, id, search, reply);
            var attempt, lease := s.workers[0].attempt, s.workers[0].lease;
            var worker := if number.Some? then Found(id, attempt, lease, number.value)
                          else Errored(id, attempt, lease, error.0, error.1);
            Next(Next(s, SearchAction(0, search)), CreateAction(0, reply))
                == s.(issues := issues, workers := map[0 := worker])
  {
    hide FirstIssue;
    forall worker: Worker
      ensures s.workers[0 := worker] == map[0 := worker]
    {
    }
  }

  lemma SettleSteps(s: State, id: Id, jitter: nat)
    requires 0 in s.workers && s.workers.Keys == {0} && id in s.feedback && s.feedback[id].status.Processing?
    requires var worker := s.workers[0];
             (worker.Found? || worker.Errored?) && worker.id == id && worker.attempt == s.feedback[id].attempts
    ensures var worker := s.workers[0];
            var number := if worker.Found? then Some(worker.number) else None;
            var error := if worker.Errored? then (worker.retryable, worker.retryAfter) else (true, 0);
            Next(Next(s, MarkAction(0)), RescheduleAction(0, jitter))
            == s.(feedback := s.feedback[id := SettledFeedback(s.feedback[id], s.now, number, error, jitter)],
                  workers := map[0 := Idle])
  {
    hide RetryDelay;
    assert s.workers[0 := Idle] == map[0 := Idle];
  }

  class Publisher {
    var feedback: map<Id, Feedback>
    var issues: seq<Id>
    var now: nat

    ghost function Tables(): State
      reads this
    {
      State(feedback, issues, map[0 := Idle], now)
    }

    constructor ()
      ensures Tables() == EMPTY.(workers := map[0 := Idle])
    {
      feedback, issues, now := map[], [], 0;
    }

    /** `publishOne`, with the candidate the claim query finds and the answers of the tracker as inputs. */
    method PublishOne(candidate: Option<Id>, search: Option<(bool, nat)>, reply: Reply, jitter: nat)
      returns (processed: bool)
      requires candidate.Some? ==> candidate.value in feedback && Claimable(feedback[candidate.value], now)
      modifies this
      ensures processed <==> candidate.Some?
      ensures Tables() == if candidate.None? then old(Tables())
                          else Run(old(Tables()), Attempt(candidate.value, search, reply, jitter))
    {
      hide Run, RetryDelay;
      if candidate.None? {
        return false;
      }
      var id := candidate.value;
      AttemptSettles(Tables(), id, search, reply, jitter);
      feedback := feedback[id := ClaimedFeedback(feedback[id], now)];
      var number, error := AskTracker(id, search, reply);
      if number.Some? {
        feedback := feedback[id := feedback[id].(status := Published, leaseUntil := None, number := number)];
        return true;
      }
      var delay := RetryDelay(feedback[id].attempts, error.0, error.1, jitter);
      if delay.None? {
        feedback := feedback[id := feedback[id].(status := Failed, nextAttemptAt := now, leaseUntil := None)];
      } else {
        feedback :=
          feedback[id := feedback[id].(status := Pending, nextAttemptAt := now + delay.value, leaseUntil := None)];
      }
      return true;
    }

    /** Searches for the marker first, and creates an issue only if there is none. */
    method AskTracker(id: Id, search: Option<(bool, nat)>, reply: Reply)
      returns (number: Option<nat>, error: (bool, nat))
      modifies this`issues
      ensures (issues, number, error) == Answer(old(issues), id, search, reply)
    {
      number, error := None, (true, 0);
      if search.Some? {
        return None, search.value;
      }
      if id in issues {
        return Some(FirstIssue(issues, id)), error;
      }
      match reply {
        case Made =>
          number := Some(|issues|);
          issues := issues + [id];
        case Refused(retryable, retryAfter) =>
          error := (retryable, retryAfter);
        case MadeButLost(retryable, retryAfter) =>
          error := (retryable, retryAfter);
          issues := issues + [id];
      }
    }
  }

  // -------------------------------------------------------------- the claims

  predicate Final(status: Status) {
    status.Published? || status.Failed?
  }

  /** How often a run has claimed a feedback. */
  function Claims(s: State, actions: seq<Action>, id: Id): nat {
    if |actions| == 0 then 0
    else
      var before := Run(s, actions[..|actions| - 1]);
      var last := actions[|actions| - 1];
      Claims(s, actions[..|actions| - 1], id)
          + (if last.ClaimAction? && last.id == id && Enabled(before, last) then 1 else 0)
  }

  /** What any number of workers keep. */
  ghost predicate RowInv(s: State, id: Id) {
    id in s.feedback ==>
      var f := s.feedback[id];
      && f.attempts <= MAX_ATTEMPTS
      && (f.status.Processing? <==> f.leaseUntil.Some?)
      && (f.status.Published? <==> f.number.Some?)
      && (f.number.Some? ==> f.number.value < |s.issues| && s.issues[f.number.value] == id)
  }

  ghost predicate WorkerInv(s: State, w: nat) {
    && (!WorkerAt(s, w).Idle? ==> WorkerAt(s, w).id in s.feedback)
    && (WorkerAt(s, w).Found? ==>
        WorkerAt(s, w).number < |s.issues| && s.issues[WorkerAt(s, w).number] == WorkerAt(s, w).id)
  }

  ghost predicate Inv(s: State) {
    && (forall id :: RowInv(s, id)) && (forall w :: WorkerInv(s, w))
    && (forall id :: id in s.issues ==> id in s.feedback)
  }

  lemma StepKeepsInv(s: State, a: Action)
    requires Inv(s)
    ensures Inv(Next(s, a))
  {
    hide Shift, FirstIssue;
    var after := Next(s, a);
    if Enabled(s, a) {
      forall id
        ensures RowInv(after, id)
      {
        assert RowInv(s, id);
        if a.MarkAction? {
          assert WorkerInv(s, a.w);
        }
      }
      forall w
        ensures WorkerInv(after, w)
      {
        assert WorkerInv(s, w);
      }
      if a.CreateAction? {
        assert WorkerInv(s, a.w);
      }
    }
  }

  lemma {:induction false} RunKeepsInv(s: State, actions: seq<Action>)
    requires Inv(s)
    ensures Inv(Run(s, actions))
  {
    hide Inv, Next;
    if |actions| != 0 {
      RunKeepsInv(s, actions[..|actions| - 1]);
      StepKeepsInv(Run(s, actions[..|actions| - 1]), actions[|actions| - 1]);
    }
  }

  lemma EmptyIsSound()
    ensures Inv(EMPTY)
  {
  }

  /** The attempt counter of a feedback counts its claims, so it is claimed at most ten times, by however many
      workers and with however many crashes. */
  lemma {:induction false} ClaimedAtMostTenTimes(actions: seq<Action>, id: Id)
    requires id in Run(EMPTY, actions).feedback
    ensures Claims(EMPTY, actions, id) == Run(EMPTY, actions).feedback[id].attempts <= MAX_ATTEMPTS
  {
    EmptyIsSound();
    RunKeepsInv(EMPTY, actions);
    assert RowInv(Run(EMPTY, actions), id);
    ClaimsAreAttempts(actions, id);
  }

  lemma {:induction false} ClaimsAreAttempts(actions: seq<Action>, id: Id)
    ensures var s := Run(EMPTY, actions);
            Claims(EMPTY, actions, id) == if id in s.feedback then s.feedback[id].attempts else 0
  {
    hide Shift, FirstIssue, RetryDelay, Claimable;
    if |actions| != 0 {
      ClaimsAreAttempts(actions[..|actions| - 1], id);
    }
  }

  /** A published or failed feedback never changes again. */
  lemma {:induction false} FinalStays(s: State, actions: seq<Action>, id: Id)
    requires id in s.feedback && Final(s.feedback[id].status)
    ensures id in Run(s, actions).feedback && Run(s, actions).feedback[id] == s.feedback[id]
  {
    hide Shift, FirstIssue, RetryDelay;
    if |actions| != 0 {
      FinalStays(s, actions[..|actions| - 1], id);
    }
  }

  /** The issue number stored with a published feedback is an issue that carries its marker. */
  lemma PublishedHasItsIssue(actions: seq<Action>, id: Id)
    requires id in Run(EMPTY, actions).feedback && Run(EMPTY, actions).feedback[id].status.Published?
    ensures var s := Run(EMPTY, actions);
            var number := s.feedback[id].number;
            number.Some? && number.value < |s.issues| && s.issues[number.value] == id
  {
    EmptyIsSound();
    RunKeepsInv(EMPTY, actions);
    assert RowInv(Run(EMPTY, actions), id);
  }

  /** A feedback with attempts left becomes claimable. */
  lemma ClaimableAt(s: State, id: Id) returns (later: nat)
    requires Inv(s) && id in s.feedback && !Final(s.feedback[id].status) && s.feedback[id].attempts < MAX_ATTEMPTS
    ensures later >= s.now && Claimable(s.feedback[id], later)
  {
    var f := s.feedback[id];
    assert RowInv(s, id);
    later := s.now + f.nextAttemptAt + (if f.leaseUntil.Some? then f.leaseUntil.value + 1 else 0);
  }
}
