/** The sign-in limiter: a bounded table of fixed windows, against the history of what it admitted. */
module SigninLimiter {
  import opened Sequences

  // Times are nanoseconds on a clock that never goes back.
  const WINDOW: int := 60_000_000_000
  const WINDOW_LIMIT: nat := 30
  const CLEANUP_SIZE: nat := 10_000
  const MIN_USERNAME := 3
  const MAX_USERNAME := 64

  datatype Entry = Entry(startedAt: int, count: nat)

  type Table = map<string, Entry>

  /** The key of a normalised user name. */
  function KeyOf(username: string): string {
    if MIN_USERNAME <= |username| <= MAX_USERNAME then username else "<invalid>"
  }

  predicate IsLive(e: Entry, now: int) {
    now - e.startedAt < WINDOW
  }

  function Cleaned(table: Table, now: int): Table {
    map k | k in table && IsLive(table[k], now) :: table[k]
  }

  datatype Outcome = Outcome(table: Table, admitted: bool)

  /** `allow`, for a key. */
  function Allow(table: Table, key: string, now: int): Outcome {
    if key in table && IsLive(table[key], now) then
      if table[key].count >= WINDOW_LIMIT then Outcome(table, false)
      else Outcome(table[key := Entry(table[key].startedAt, table[key].count + 1)], true)
    else
      var room := if |table| >= CLEANUP_SIZE then Cleaned(table, now) else table;
      if |room| >= CLEANUP_SIZE then Outcome(room, false) else Outcome(room[key := Entry(now, 1)], true)
  }

  class Limiter {
    var entries: Table

    constructor ()
      ensures entries == map[]
    {
      entries := map[];
    }

    method AllowSignin(username: string, now: int) returns (admitted: bool)
      modifies this
      ensures Outcome(entries, admitted) == Allow(old(entries), KeyOf(username), now)
    {
      var key := KeyOf(username);
      if key in entries && now - entries[key].startedAt < WINDOW {
        if entries[key].count >= WINDOW_LIMIT {
          return false;
        }
        var entry := entries[key];
        entries := entries[key := entry.(count := entry.count + 1)];
        return true;
      }
      if |entries| >= CLEANUP_SIZE {
        Cleanup(now);
        if |entries| >= CLEANUP_SIZE {
          return false;
        }
      }
      entries := entries[key := Entry(now, 1)];
      return true;
    }

    /** Visits the entries in any order and deletes the expired ones. */
    method Cleanup(now: int)
      modifies this
      ensures entries == Cleaned(old(entries), now)
    {
      var visited := entries;
      var rest := visited.Keys;
      while rest != {}
        invariant rest <= visited.Keys
        invariant entries == map k | k in visited && (k in rest || IsLive(visited[k], now)) :: visited[k]
        decreases rest
      {
        var k :| k in rest;
        rest := rest - {k};
        if now - visited[k].startedAt >= WINDOW {
          entries := entries - {k};
        }
      }
    }
  }

  // ------------------------------------------------- the history semantics

  /** An admitted sign-in, and the start of the window it was counted in. */
  datatype Admission = Admission(key: string, at: int, start: int)

  datatype Call = Call(key: string, at: int)

  function InWindow(key: string, start: int): Admission -> int {
    (a: Admission) => if a.key == key && a.start == start then 1 else 0
  }

  function Opens(key: string, now: int): Admission -> bool {
    (a: Admission) => a.key == key && now - a.start < WINDOW
  }

  /** The keys with an unexpired window. */
  function LiveKeys(log: seq<Admission>, now: int): set<string> {
    set a | a in log && now - a.start < WINDOW :: a.key
  }

  /** The limiter without its table: a key with an unexpired window has 30 admissions in it, and a new window opens
      while fewer than 10,000 keys have one. */
  function Admit(log: seq<Admission>, call: Call): (r: Option<Admission>) {
    var open := Filter(log, Opens(call.key, call.at));
    if |open| > 0 then
      var start := open[|open| - 1].start;
      if CountIn(log, call.key, start) < WINDOW_LIMIT then Some(Admission(call.key, call.at, start)) else None
    else if |LiveKeys(log, call.at)| < CLEANUP_SIZE then Some(Admission(call.key, call.at, call.at))
    else None
  }

  function Admissions(calls: seq<Call>): seq<Admission> {
    if |calls| == 0 then []
    else
      var before := Admissions(calls[..|calls| - 1]);
      match Admit(before, calls[|calls| - 1])
      case Some(a) => before + [a]
      case None => before
  }

  function TableAfter(calls: seq<Call>): Table {
    if |calls| == 0 then map[]
    else Allow(TableAfter(calls[..|calls| - 1]), calls[|calls| - 1].key, calls[|calls| - 1].at).table
  }

  ghost predicate Ordered(calls: seq<Call>) {
    forall i, j :: 0 <= i <= j < |calls| ==> calls[i].at <= calls[j].at
  }

  /** Every admission lies in its window, and every window begins with an admission. */
  ghost predicate Timed(log: seq<Admission>, now: int) {
    forall a :: a in log ==> a.start <= a.at < a.start + WINDOW && a.at <= now && Opening(a) in log
  }

  function Opening(a: Admission): Admission {
    a.(at := a.start)
  }

  /** Windows of a key do not overlap. */
  ghost predicate Spaced(log: seq<Admission>) {
    forall a, b :: a in log && b in log && a.key == b.key ==>
      a.start == b.start || a.start + WINDOW <= b.start || b.start + WINDOW <= a.start
  }

  /** How many admissions were counted in a window. */
  function CountIn(log: seq<Admission>, key: string, start: int): nat {
    SumNonNegative(log, InWindow(key, start));
    Sum(log, InWindow(key, start))
  }

  ghost predicate Limited(log: seq<Admission>) {
    forall key, start :: CountIn(log, key, start) <= WINDOW_LIMIT
  }

  ghost predicate LogInv(log: seq<Admission>, now: int) {
    Timed(log, now) && Spaced(log) && Limited(log)
  }

  /** Every entry is a window of the log, with its count. */
  ghost predicate Holds(table: Table, log: seq<Admission>) {
    forall k ::
      k in table ==> HasWindow(log, k, table[k].startedAt) && CountIn(log, k, table[k].startedAt) == table[k].count
  }

  /** Every unexpired window of the log is an entry. */
  ghost predicate Newest(table: Table, log: seq<Admission>, now: int) {
    forall a :: a in log ==> a.start + WINDOW <= now || (a.key in table && table[a.key].startedAt == a.start)
  }

  /** The table holds the newest window of every key, expired ones possibly missing. */
  ghost predicate Represents(table: Table, log: seq<Admission>, now: int) {
    |table| <= CLEANUP_SIZE && Holds(table, log) && Newest(table, log, now)
  }

  ghost predicate HasWindow(log: seq<Admission>, key: string, start: int) {
    exists a :: a in log && a.key == key && a.start == start
  }

  // ----------------------------------------------------------- refinement

  /** Time passing keeps the representation. */
  lemma Later(table: Table, log: seq<Admission>, now: int, later: int)
    requires LogInv(log, now) && Represents(table, log, now) && now <= later
    ensures LogInv(log, later) && Represents(table, log, later)
  {
    hide CountIn, Holds, Spaced, Limited;
  }

  lemma CountAppend(log: seq<Admission>, a: Admission, key: string, start: int)
    ensures CountIn(log + [a], key, start)
         == CountIn(log, key, start) + (if a.key == key && a.start == start then 1 else 0)
  {
    SumAppend(log, [a], InWindow(key, start));
    assert [a][..0] == [];
  }

  lemma NoWindowCountsZero(log: seq<Admission>, key: string, start: int)
    requires !HasWindow(log, key, start)
    ensures CountIn(log, key, start) == 0
  {
    SumZero(log, InWindow(key, start));
  }

  lemma LoggedIsHeld(table: Table, log: seq<Admission>, now: int, a: Admission)
    requires Newest(table, log, now) && a in log && now - a.start < WINDOW
    ensures a.key in table && table[a.key].startedAt == a.start
  {
  }

  lemma HeldIsLogged(table: Table, log: seq<Admission>, key: string) returns (a: Admission)
    requires Holds(table, log) && key in table
    ensures a in log && a.key == key && a.start == table[key].startedAt
  {
    hide CountIn;
    a :| a in log && a.key == key && a.start == table[key].startedAt;
  }

  /** A key has an unexpired window in the log exactly when the table has it live. */
  lemma SameWindow(table: Table, log: seq<Admission>, key: string, now: int)
    requires Represents(table, log, now)
    ensures var open := Filter(log, Opens(key, now));
            && (|open| > 0 <==> key in table && IsLive(table[key], now))
            && (|open| > 0 ==> open[|open| - 1].start == table[key].startedAt)
  {
    hide Holds, Newest, Filter;
    var open := Filter(log, Opens(key, now));
    if |open| > 0 {
      assert open[|open| - 1] in open;
      LoggedIsHeld(table, log, now, open[|open| - 1]);
    }
    if key in table && IsLive(table[key], now) {
      var a := HeldIsLogged(table, log, key);
      assert a in open;
    }
  }

  lemma SameLiveKeys(table: Table, log: seq<Admission>, now: int)
    requires LogInv(log, now) && Represents(table, log, now)
    ensures LiveKeys(log, now) == Cleaned(table, now).Keys
  {
    hide CountIn, LogInv;
    forall k | k in Cleaned(table, now)
      ensures k in LiveKeys(log, now)
    {
      var a := HeldIsLogged(table, log, k);
    }
  }

  lemma KeysCount(table: Table, now: int)
    ensures |Cleaned(table, now)| == |Cleaned(table, now).Keys|
    ensures |Cleaned(table, now)| <= |table|
  {
    SubsetIsSmaller(Cleaned(table, now).Keys, table.Keys);
  }

  lemma SubsetIsSmaller<T>(a: set<T>, b: set<T>)
    requires a <= b
    ensures |a| <= |b|
  {
    assert b == a + (b - a);
  }

  /** What one more admission adds to the log, whichever window it is counted in. */
  lemma LogGrows(log: seq<Admission>, a: Admission)
    requires LogInv(log, a.at) && a.start <= a.at < a.start + WINDOW
    requires a.at == a.start || Opening(a) in log
    requires CountIn(log, a.key, a.start) < WINDOW_LIMIT
    requires forall x :: x in log && x.key == a.key ==> x.start == a.start || x.start + WINDOW <= a.start
    ensures LogInv(log + [a], a.at)
  {
    assert Timed(log + [a], a.at) && Spaced(log + [a]) by {
      hide CountIn, Limited;
    }
    hide Timed, Spaced, CountIn;
    forall key, start
      ensures CountIn(log + [a], key, start) <= WINDOW_LIMIT
    {
      CountAppend(log, a, key, start);
    }
  }

  lemma HoldsGrows(table: Table, log: seq<Admission>, a: Admission)
    requires Holds(table, log)
    ensures Holds(table[a.key := Entry(a.start, CountIn(log + [a], a.key, a.start))], log + [a])
  {
    hide CountIn;
    var after := table[a.key := Entry(a.start, CountIn(log + [a], a.key, a.start))];
    forall k | k in after
      ensures HasWindow(log + [a], k, after[k].startedAt) && CountIn(log + [a], k, after[k].startedAt) == after[k].count
    {
      if k == a.key {
        assert a in log + [a];
      } else {
        var x :| x in log && x.key == k && x.start == table[k].startedAt;
        assert x in log + [a];
        CountAppend(log, a, k, table[k].startedAt);
      }
    }
  }

  lemma TableGrows(table: Table, log: seq<Admission>, a: Admission)
    requires Represents(table, log, a.at) && (a.key in table || |table| < CLEANUP_SIZE)
    requires forall x :: x in log && x.key == a.key ==> x.start == a.start || x.start + WINDOW <= a.at
    ensures Represents(table[a.key := Entry(a.start, CountIn(log + [a], a.key, a.start))], log + [a], a.at)
  {
    hide CountIn, Holds;
    HoldsGrows(table, log, a);
    assert table[a.key := Entry(a.start, CountIn(log + [a], a.key, a.start))].Keys == table.Keys + {a.key};
  }

  /** One more admission in the open window of the key. */
  lemma CountedInWindow(table: Table, log: seq<Admission>, call: Call)
    requires LogInv(log, call.at) && Represents(table, log, call.at)
    requires call.key in table && IsLive(table[call.key], call.at) && table[call.key].count < WINDOW_LIMIT
    ensures var start := table[call.key].startedAt;
            var after := log + [Admission(call.key, call.at, start)];
            && LogInv(after, call.at)
            && Represents(table[call.key := Entry(start, table[call.key].count + 1)], after, call.at)
  {
    hide CountIn, LogInv, Represents;
    var start := table[call.key].startedAt;
    var a := Admission(call.key, call.at, start);
    OpenWindow(table, log, call);
    LogGrows(log, a);
    TableGrows(table, log, a);
    CountAppend(log, a, call.key, start);
  }

  lemma OpenWindow(table: Table, log: seq<Admission>, call: Call)
    requires LogInv(log, call.at) && Represents(table, log, call.at)
    requires call.key in table && IsLive(table[call.key], call.at)
    ensures var start := table[call.key].startedAt;
            && CountIn(log, call.key, start) == table[call.key].count
            && Opening(Admission(call.key, call.at, start)) in log && start <= call.at
            && forall x :: x in log && x.key == call.key ==> x.start == start || x.start + WINDOW <= start
  {
    hide CountIn, Limited;
    var start := table[call.key].startedAt;
    var was :| was in log && was.key == call.key && was.start == start;
    assert Opening(was) == Opening(Admission(call.key, call.at, start));
    assert Opening(was).start == Opening(was).at;
  }

  /** The first admission of a new window. */
  lemma WindowOpened(table: Table, log: seq<Admission>, call: Call)
    requires LogInv(log, call.at) && Represents(table, log, call.at) && |table| < CLEANUP_SIZE
    requires call.key in table ==> !IsLive(table[call.key], call.at)
    ensures var after := log + [Admission(call.key, call.at, call.at)];
            && LogInv(after, call.at) && Represents(table[call.key := Entry(call.at, 1)], after, call.at)
  {
    hide CountIn, Limited, Spaced, Holds;
    var a := Admission(call.key, call.at, call.at);
    assert !HasWindow(log, call.key, call.at);
    NoWindowCountsZero(log, call.key, call.at);
    LogGrows(log, a);
    TableGrows(table, log, a);
    CountAppend(log, a, call.key, call.at);
  }

  lemma CleanedRepresents(table: Table, log: seq<Admission>, now: int)
    requires Represents(table, log, now)
    ensures Represents(Cleaned(table, now), log, now)
  {
    hide CountIn;
    KeysCount(table, now);
  }

  lemma StepRefines(table: Table, log: seq<Admission>, call: Call)
    requires LogInv(log, call.at) && Represents(table, log, call.at)
    ensures var r := Allow(table, call.key, call.at);
            var a := Admit(log, call);
            && r.admitted == a.Some?
            && LogInv(if a.Some? then log + [a.value] else log, call.at)
            && Represents(r.table, if a.Some? then log + [a.value] else log, call.at)
  {
    hide Represents, LogInv, Filter, CountIn, LiveKeys, Cleaned;
    SameWindow(table, log, call.key, call.at);
    if call.key in table && IsLive(table[call.key], call.at) {
      CountOf(table, log, call.key, call.at);
      if table[call.key].count < WINDOW_LIMIT {
        CountedInWindow(table, log, call);
      }
    } else {
      SameLiveKeys(table, log, call.at);
      KeysCount(table, call.at);
      CleanedRepresents(table, log, call.at);
      TableFits(table, log, call.at);
      var room := if |table| >= CLEANUP_SIZE then Cleaned(table, call.at) else table;
      if |room| < CLEANUP_SIZE {
        StaysExpired(table, call.key, call.at);
        WindowOpened(room, log, call);
      }
    }
  }

  lemma TableFits(table: Table, log: seq<Admission>, now: int)
    requires Represents(table, log, now)
    ensures |table| <= CLEANUP_SIZE
  {
  }

  lemma StaysExpired(table: Table, key: string, now: int)
    requires key in table ==> !IsLive(table[key], now)
    ensures key !in Cleaned(table, now)
  {
  }

  lemma CountOf(table: Table, log: seq<Admission>, key: string, now: int)
    requires Represents(table, log, now) && key in table
    ensures CountIn(log, key, table[key].startedAt) == table[key].count
  {
  }

  ghost predicate Refined(calls: seq<Call>, now: int) {
    LogInv(Admissions(calls), now) && Represents(TableAfter(calls), Admissions(calls), now)
  }

  lemma {:induction false} RunRefines(calls: seq<Call>, now: int)
    requires Ordered(calls) && forall c :: c in calls ==> c.at <= now
    ensures Refined(calls, now)
  {
    hide LogInv, Represents, Admit, Allow;
    if |calls| != 0 {
      var front, last := calls[..|calls| - 1], calls[|calls| - 1];
      RunRefines(front, last.at);
      StepRefines(TableAfter(front), Admissions(front), last);
      Later(TableAfter(calls), Admissions(calls), last.at, now);
    } else {
      NothingRepresented(now);
    }
  }

  lemma NothingRepresented(now: int)
    ensures LogInv([], now) && Represents(map[], [], now)
  {
  }

  // -------------------------------------------------------------- theorems

  /** The table never matters: every answer is the one the history of admissions gives, and there are never more
      than 10,000 entries. */
  lemma TableRefinesHistory(calls: seq<Call>, call: Call)
    requires Ordered(calls + [call])
    ensures Allow(TableAfter(calls), call.key, call.at).admitted <==> Admit(Admissions(calls), call).Some?
    ensures |TableAfter(calls)| <= CLEANUP_SIZE
  {
    hide LogInv, Admit, Allow;
    assert forall i :: 0 <= i < |calls| ==> (calls + [call])[i] == calls[i];
    assert (calls + [call])[|calls|] == call;
    RunRefines(calls, call.at);
    StepRefines(TableAfter(calls), Admissions(calls), call);
  }

  function InInterval(key: string, from: int): Admission -> int {
    (a: Admission) => if a.key == key && from <= a.at < from + WINDOW then 1 else 0
  }

  function InIntervalBefore(key: string, from: int): Admission -> int {
    (a: Admission) => if a.key == key && from <= a.at < from + WINDOW && a.start <= from then 1 else 0
  }

  function InIntervalAfter(key: string, from: int): Admission -> int {
    (a: Admission) => if a.key == key && from <= a.at < from + WINDOW && a.start > from then 1 else 0
  }

  function IsOpening(key: string, start: int): Admission -> int {
    (a: Admission) => if a == Admission(key, start, start) then 1 else 0
  }

  /** Admissions that all belong to one window are at most 30, and at most 29 without the one that opened it. */
  lemma OneWindow(log: seq<Admission>, now: int, key: string, f: Admission -> int, start: int)
    requires LogInv(log, now)
    requires forall a :: a in log ==> f(a) == 0 || (f(a) == 1 && a.key == key && a.start == start)
    ensures Sum(log, f) <= WINDOW_LIMIT
    ensures f(Admission(key, start, start)) == 0 ==> Sum(log, f) < WINDOW_LIMIT
  {
    SumAtMost(log, f, InWindow(key, start));
    assert CountIn(log, key, start) <= WINDOW_LIMIT;
    if a :| a in log && f(a) == 1 {
      var opening := Admission(key, start, start);
      assert Opening(a) == opening;
      if f(opening) == 0 {
        var either := (x: Admission) => f(x) + IsOpening(key, start)(x);
        SumSplit(log, either, f, IsOpening(key, start));
        SumAtMost(log, either, InWindow(key, start));
        SumNonNegative(log, IsOpening(key, start));
        assert IsOpening(key, start)(opening) == 1;
      }
    } else {
      SumZero(log, f);
    }
  }

  /** All admissions that `f` counts come from one window of the key. */
  ghost predicate FromOneWindow(log: seq<Admission>, key: string, f: Admission -> int, start: int) {
    forall a :: a in log ==> f(a) == 0 || (f(a) == 1 && a.key == key && a.start == start)
  }

  lemma IntervalMeetsTwo(log: seq<Admission>, now: int, key: string, from: int) returns (first: int, second: int)
    requires LogInv(log, now)
    ensures first <= from < second
    ensures FromOneWindow(log, key, InIntervalBefore(key, from), first)
    ensures FromOneWindow(log, key, InIntervalAfter(key, from), second)
    ensures first == from ==> forall a :: a in log ==> InIntervalAfter(key, from)(a) == 0
  {
    hide Limited;
    first, second := from - 1, from + 1;
    if a :| a in log && InIntervalAfter(key, from)(a) == 1 {
      second := a.start;
    }
    if a :| a in log && InIntervalBefore(key, from)(a) == 1 {
      first := a.start;
      if first == from {
        assert forall b :: b in log && b.key == key && b.start > from ==> b.start >= from + WINDOW;
      }
    }
  }

  /** Over every run, any interval as long as a window admits at most 59 sign-ins for a key: it meets at most two
      windows, and never both openings. */
  lemma AtMostTwoWindows(calls: seq<Call>, key: string, from: int)
    requires Ordered(calls)
    ensures Sum(Admissions(calls), InInterval(key, from)) < 2 * WINDOW_LIMIT
  {
    if |calls| != 0 {
      var log, now := Admissions(calls), calls[|calls| - 1].at;
      RunRefines(calls, now);
      hide Admissions, Represents, TableAfter, LogInv;
      SumSplit(log, InInterval(key, from), InIntervalBefore(key, from), InIntervalAfter(key, from));
      var first, second := IntervalMeetsTwo(log, now, key, from);
      OneWindow(log, now, key, InIntervalBefore(key, from), first);
      OneWindow(log, now, key, InIntervalAfter(key, from), second);
      if first == from {
        SumZero(log, InIntervalAfter(key, from));
      }
    }
  }

  lemma AtMostOneWindow(calls: seq<Call>, key: string, from: int)
    requires Ordered(calls)
    requires forall a :: a in Admissions(calls) && a.key == key ==> !(a.start < from < a.start + WINDOW)
    ensures Sum(Admissions(calls), InInterval(key, from)) <= WINDOW_LIMIT
  {
    if |calls| != 0 {
      var log, now := Admissions(calls), calls[|calls| - 1].at;
      RunRefines(calls, now);
      hide Admissions, Represents, TableAfter;
      SumSplit(log, InInterval(key, from), InIntervalBefore(key, from), InIntervalAfter(key, from));
      var first, second := IntervalMeetsTwo(log, now, key, from);
      hide Timed, Spaced, Limited;
      if first == from {
        OneWindow(log, now, key, InIntervalBefore(key, from), first);
        SumZero(log, InIntervalAfter(key, from));
      } else {
        OneWindow(log, now, key, InIntervalAfter(key, from), second);
        StraddlesNothing(log, now, key, from, first);
        SumZero(log, InIntervalBefore(key, from));
      }
    }
  }

  lemma StraddlesNothing(log: seq<Admission>, now: int, key: string, from: int, first: int)
    requires Timed(log, now) && FromOneWindow(log, key, InIntervalBefore(key, from), first) && first < from
    requires forall a :: a in log && a.key == key ==> !(a.start < from < a.start + WINDOW)
    ensures forall a :: a in log ==> InIntervalBefore(key, from)(a) == 0
  {
    forall a | a in log
      ensures InIntervalBefore(key, from)(a) == 0
    {
      if InIntervalBefore(key, from)(a) == 1 {
        assert a.start == first && a.start <= a.at < a.start + WINDOW;
      }
    }
  }

  // ----------------------------------------- exactly when 30 are exceeded

  /** Calls that may follow, from `from` on. */
  ghost predicate Follows(calls: seq<Call>, more: seq<Call>, from: int) {
    Ordered(calls + more) && forall c :: c in more ==> c.at >= from
  }

  predicate OpenAndFree(table: Table, key: string, from: int) {
    key in table && IsLive(table[key], from) && table[key].count < WINDOW_LIMIT
  }

  lemma AdmittedAsCalled(log: seq<Admission>, call: Call)
    ensures Admit(log, call).Some? ==> Admit(log, call).value.key == call.key && Admit(log, call).value.at == call.at
  {
  }

  lemma {:induction false} AdmissionsOn(calls: seq<Call>, more: seq<Call>, from: int) returns (rest: seq<Admission>)
    requires forall c :: c in more ==> c.at >= from
    ensures Admissions(calls + more) == Admissions(calls) + rest
    ensures forall a :: a in rest ==> a.at >= from
  {
    hide Admit;
    if |more| == 0 {
      rest := [];
      assert calls + more == calls;
    } else {
      var front, last := more[..|more| - 1], more[|more| - 1];
      rest := AdmissionsOn(calls, front, from);
      assert (calls + more)[..|calls + more| - 1] == calls + front;
      AdmittedAsCalled(Admissions(calls + front), last);
      if Admit(Admissions(calls + front), last).Some? {
        rest := rest + [Admit(Admissions(calls + front), last).value];
      }
    }
  }

  /** The run so far, one nanosecond before the interval, and the run that follows it. */
  lemma BothRefined(calls: seq<Call>, more: seq<Call>, from: int) returns (now: int)
    requires Follows(calls, more, from) && forall c :: c in calls ==> c.at < from
    ensures Ordered(calls) && Refined(calls, from - 1)
    ensures LogInv(Admissions(calls + more), now)
  {
    hide Refined;
    assert forall i :: 0 <= i < |calls| ==> (calls + more)[i] == calls[i];
    RunRefines(calls, from - 1);
    if |calls + more| == 0 {
      now := from;
    } else {
      now := (calls + more)[|calls + more| - 1].at;
    }
    RunRefines(calls + more, now);
    RefinedIsSound(calls + more, now);
  }

  lemma RefinedIsSound(calls: seq<Call>, now: int)
    requires Refined(calls, now)
    ensures LogInv(Admissions(calls), now)
  {
  }

  /** A window that is open at `from` from before was opened by then, and the table has it. */
  lemma OpenedBefore(calls: seq<Call>, rest: seq<Admission>, now: int, from: int, a: Admission)
    requires Refined(calls, from - 1) && LogInv(Admissions(calls) + rest, now)
    requires forall x :: x in rest ==> x.at >= from
    requires a in Admissions(calls) + rest && a.start < from < a.start + WINDOW
    ensures a.key in TableAfter(calls) && TableAfter(calls)[a.key].startedAt == a.start
  {
    hide CountIn, Spaced, Limited, Admissions, TableAfter, Holds;
    assert Opening(a) in Admissions(calls) + rest;
    assert Opening(a) in Admissions(calls);
  }

  /** With no window of the key open at `from`, at most 30 follow in time. */
  lemma ClosedAdmits(calls: seq<Call>, more: seq<Call>, key: string, from: int)
    requires Follows(calls, more, from) && forall c :: c in calls ==> c.at < from
    requires key in TableAfter(calls) ==> !IsLive(TableAfter(calls)[key], from)
    ensures Sum(Admissions(calls + more), InInterval(key, from)) <= WINDOW_LIMIT
  {
    hide Admissions, TableAfter, Refined, Sum, LogInv;
    var now := BothRefined(calls, more, from);
    var rest := AdmissionsOn(calls, more, from);
    forall a | a in Admissions(calls + more) && a.key == key
      ensures !(a.start < from < a.start + WINDOW)
    {
      if a.start < from < a.start + WINDOW {
        OpenedBefore(calls, rest, now, from, a);
      }
    }
    AtMostOneWindow(calls + more, key, from);
  }

  lemma HeldCount(calls: seq<Call>, key: string, now: int)
    requires Refined(calls, now) && key in TableAfter(calls)
    ensures var e := TableAfter(calls)[key];
            && CountIn(Admissions(calls), key, e.startedAt) == e.count <= WINDOW_LIMIT
            && HasWindow(Admissions(calls), key, e.startedAt) && e.startedAt <= now
  {
    hide Admissions, TableAfter;
  }

  lemma CountGrows(log: seq<Admission>, rest: seq<Admission>, a: Admission)
    requires a in rest
    ensures CountIn(log + rest, a.key, a.start) > CountIn(log, a.key, a.start)
  {
    hide Sum;
    SumAppend(log, rest, InWindow(a.key, a.start));
    SumNonNegative(rest, InWindow(a.key, a.start));
    assert InWindow(a.key, a.start)(a) == 1;
  }

  lemma CountIsLimited(log: seq<Admission>, now: int, key: string, start: int)
    requires LogInv(log, now)
    ensures CountIn(log, key, start) <= WINDOW_LIMIT
  {
    hide Timed, Spaced, CountIn;
  }

  /** Two windows of a key that have a moment in common are one. */
  lemma WindowsApart(log: seq<Admission>, now: int, a: Admission, b: Admission, moment: int)
    requires LogInv(log, now) && a in log && b in log && a.key == b.key
    requires a.start <= moment < a.start + WINDOW && b.start <= moment < b.start + WINDOW
    ensures a.start == b.start
  {
    hide Limited, Timed;
  }

  /** While a full window is open at `from`, none is admitted to it any more. */
  lemma FullIsOver(
    calls: seq<Call>, rest: seq<Admission>, now: int, key: string, from: int, a: Admission)
    requires Refined(calls, from - 1) && LogInv(Admissions(calls) + rest, now)
    requires forall x :: x in rest ==> x.at >= from
    requires key in TableAfter(calls) && IsLive(TableAfter(calls)[key], from)
    requires TableAfter(calls)[key].count >= WINDOW_LIMIT
    requires a in Admissions(calls) + rest
    ensures InIntervalBefore(key, from)(a) == 0
  {
    hide Admissions, TableAfter, LogInv, Refined, CountIn;
    if InIntervalBefore(key, from)(a) == 1 {
      HeldCount(calls, key, from - 1);
      var start := TableAfter(calls)[key].startedAt;
      var log := Admissions(calls);
      var was :| was in log && was.key == key && was.start == start;
      AdmittedByThen(calls, from - 1);
      assert a in rest;
      InItsWindow(log + rest, now, a);
      WindowsApart(log + rest, now, a, was, from);
      CountIsLimited(log + rest, now, key, start);
      CountGrows(log, rest, a);
    }
  }

  lemma AdmittedByThen(calls: seq<Call>, now: int)
    requires Refined(calls, now)
    ensures forall a :: a in Admissions(calls) ==> a.at <= now
  {
    hide Admissions, TableAfter, Represents, Spaced, Limited;
  }

  lemma InItsWindow(log: seq<Admission>, now: int, a: Admission)
    requires LogInv(log, now) && a in log
    ensures a.start <= a.at < a.start + WINDOW
  {
    hide Spaced, Limited;
  }

  /** With a full window of the key open at `from`, at most 30 follow in time: those of the next window. */
  lemma FullAdmits(calls: seq<Call>, more: seq<Call>, key: string, from: int)
    requires Follows(calls, more, from) && forall c :: c in calls ==> c.at < from
    requires key in TableAfter(calls) && IsLive(TableAfter(calls)[key], from)
    requires TableAfter(calls)[key].count >= WINDOW_LIMIT
    ensures Sum(Admissions(calls + more), InInterval(key, from)) <= WINDOW_LIMIT
  {
    hide Admissions, TableAfter, Refined, Sum, LogInv;
    var now := BothRefined(calls, more, from);
    var rest := AdmissionsOn(calls, more, from);
    var log := Admissions(calls + more);
    forall a | a in log
      ensures InIntervalBefore(key, from)(a) == 0
    {
      FullIsOver(calls, rest, now, key, from, a);
    }
    SumSplit(log, InInterval(key, from), InIntervalBefore(key, from), InIntervalAfter(key, from));
    SumZero(log, InIntervalBefore(key, from));
    var first, second := IntervalMeetsTwo(log, now, key, from);
    OneWindow(log, now, key, InIntervalAfter(key, from), second);
  }

  // An open window that is not full is exceeded.

  function Repeat(call: Call, n: nat): seq<Call> {
    if n == 0 then [] else Repeat(call, n - 1) + [call]
  }

  lemma IntervalAppend(log: seq<Admission>, a: Admission, from: int)
    ensures Sum(log + [a], InInterval(a.key, from))
         == Sum(log, InInterval(a.key, from)) + (if from <= a.at < from + WINDOW then 1 else 0)
  {
    SumAppend(log, [a], InInterval(a.key, from));
    assert [a][..0] == [];
  }

  lemma OneMoreOrdered(calls: seq<Call>, call: Call)
    requires Ordered(calls) && (forall c :: c in calls ==> c.at <= call.at)
    ensures Ordered(calls + [call])
  {
  }

  lemma OneMore(calls: seq<Call>, call: Call, from: int)
    requires Ordered(calls) && (forall c :: c in calls ==> c.at <= call.at)
    requires Allow(TableAfter(calls), call.key, call.at).admitted
    ensures Ordered(calls + [call])
    ensures TableAfter(calls + [call]) == Allow(TableAfter(calls), call.key, call.at).table
    ensures Sum(Admissions(calls + [call]), InInterval(call.key, from))
         == Sum(Admissions(calls), InInterval(call.key, from)) + (if from <= call.at < from + WINDOW then 1 else 0)
  {
    hide Admit, Allow, Sum, Ordered;
    assert (calls + [call])[..|calls|] == calls;
    OneMoreOrdered(calls, call);
    TableRefinesHistory(calls, call);
    AdmittedAsCalled(Admissions(calls), call);
    IntervalAppend(Admissions(calls), Admit(Admissions(calls), call).value, from);
  }

  /** Calls to an open window, while it has room, are all admitted. */
  lemma {:induction false} Burst(calls: seq<Call>, call: Call, from: int, n: nat) returns (after: seq<Call>)
    requires Ordered(calls) && (forall c :: c in calls ==> c.at <= call.at)
    requires var table := TableAfter(calls);
             call.key in table && IsLive(table[call.key], call.at) && table[call.key].count + n <= WINDOW_LIMIT
    ensures after == calls + Repeat(call, n) && Ordered(after) && (forall c :: c in after ==> c.at <= call.at)
    ensures var e := TableAfter(calls)[call.key];
            TableAfter(after) == TableAfter(calls)[call.key := e.(count := e.count + n)]
    ensures Sum(Admissions(after), InInterval(call.key, from))
         == Sum(Admissions(calls), InInterval(call.key, from)) + (if from <= call.at < from + WINDOW then n else 0)
  {
    hide TableAfter, Admissions, Ordered, Sum;
    if n == 0 {
      after := calls;
    } else {
      var before := Burst(calls, call, from, n - 1);
      OneMore(before, call, from);
      after := before + [call];
    }
  }

  /** A window that has expired makes room for the next one, even when the table is full. */
  lemma Reopens(table: Table, key: string, now: int)
    requires |table| <= CLEANUP_SIZE && key in table && now == table[key].startedAt + WINDOW
    ensures var r := Allow(table, key, now);
            r.admitted && key in r.table && r.table[key] == Entry(now, 1)
  {
    var room := Cleaned(table, now);
    assert key !in room && room.Keys <= table.Keys - {key};
    SubsetIsSmaller(room.Keys, table.Keys - {key});
    assert |room| == |room.Keys| && |table| == |table.Keys|;
  }

  lemma {:induction false} RepeatedAt(call: Call, n: nat)
    ensures forall c :: c in Repeat(call, n) ==> c == call
  {
    if n != 0 {
      RepeatedAt(call, n - 1);
    }
  }

  lemma NoneYet(calls: seq<Call>, key: string, from: int)
    requires Ordered(calls) && forall c :: c in calls ==> c.at < from
    ensures Sum(Admissions(calls), InInterval(key, from)) == 0
  {
    hide Admissions, TableAfter, Refined;
    RunRefines(calls, from - 1);
    AdmittedByThen(calls, from - 1);
    SumZero(Admissions(calls), InInterval(key, from));
  }

  /** What is left of the open window, and then the 30 of the next one. */
  function Overrun(calls: seq<Call>, key: string, from: int): seq<Call>
    requires OpenAndFree(TableAfter(calls), key, from)
  {
    var e := TableAfter(calls)[key];
    Repeat(Call(key, from), WINDOW_LIMIT - e.count) + Repeat(Call(key, e.startedAt + WINDOW), WINDOW_LIMIT)
  }

  lemma {:induction false} RepeatFirst(call: Call, n: nat)
    requires n > 0
    ensures Repeat(call, n) == [call] + Repeat(call, n - 1)
  {
    if n > 1 {
      RepeatFirst(call, n - 1);
    }
  }

  /** 30 sign-ins at the moment the old window of the key ends. */
  lemma NextWindow(calls: seq<Call>, key: string, from: int) returns (after: seq<Call>)
    requires Ordered(calls) && key in TableAfter(calls)
    requires var end := TableAfter(calls)[key].startedAt + WINDOW;
             from <= end < from + WINDOW && forall c :: c in calls ==> c.at <= end
    ensures after == calls + Repeat(Call(key, TableAfter(calls)[key].startedAt + WINDOW), WINDOW_LIMIT)
    ensures Ordered(after)
    ensures Sum(Admissions(after), InInterval(key, from))
         == Sum(Admissions(calls), InInterval(key, from)) + WINDOW_LIMIT
  {
    hide TableAfter, Admissions, Ordered, Sum, Repeat, Refined;
    var call := Call(key, TableAfter(calls)[key].startedAt + WINDOW);
    RunRefines(calls, call.at);
    TableIsSmall(calls, call.at);
    Reopens(TableAfter(calls), key, call.at);
    OneMore(calls, call, from);
    after := Burst(calls + [call], call, from, WINDOW_LIMIT - 1);
    RepeatFirst(call, WINDOW_LIMIT);
    assert calls + [call] + Repeat(call, WINDOW_LIMIT - 1) == calls + ([call] + Repeat(call, WINDOW_LIMIT - 1));
  }

  lemma TableIsSmall(calls: seq<Call>, now: int)
    requires Refined(calls, now)
    ensures |TableAfter(calls)| <= CLEANUP_SIZE
  {
    hide TableAfter, Admissions, LogInv;
  }

  /** An open window with room lets its room and another 30 through. */
  lemma OverrunAdmits(calls: seq<Call>, key: string, from: int)
    requires Ordered(calls) && (forall c :: c in calls ==> c.at < from) && OpenAndFree(TableAfter(calls), key, from)
    ensures Follows(calls, Overrun(calls, key, from), from)
    ensures Sum(Admissions(calls + Overrun(calls, key, from)), InInterval(key, from))
         == 2 * WINDOW_LIMIT - TableAfter(calls)[key].count
  {
    hide TableAfter, Admissions, Ordered, Sum, Repeat, Refined;
    var e := TableAfter(calls)[key];
    var end := e.startedAt + WINDOW;
    NoneYet(calls, key, from);
    RunRefines(calls, from - 1);
    HeldCount(calls, key, from - 1);
    var filled := Burst(calls, Call(key, from), from, WINDOW_LIMIT - e.count);
    var after := NextWindow(filled, key, from);
    RepeatedAt(Call(key, from), WINDOW_LIMIT - e.count);
    RepeatedAt(Call(key, end), WINDOW_LIMIT);
    assert after == calls + Overrun(calls, key, from);
  }

  /** Exactly when the interval from `from` on may still admit more than 30 sign-ins for a key: when the key has a
      window open at `from` that is not full. */
  lemma ThirtyExceededExactly(calls: seq<Call>, key: string, from: int)
    requires Ordered(calls) && forall c :: c in calls ==> c.at < from
    ensures (exists more ::
               Follows(calls, more, from) && Sum(Admissions(calls + more), InInterval(key, from)) > WINDOW_LIMIT)
       <==> OpenAndFree(TableAfter(calls), key, from)
  {
    hide TableAfter, Admissions, Ordered, Sum, Follows, Overrun;
    if OpenAndFree(TableAfter(calls), key, from) {
      OverrunAdmits(calls, key, from);
      assert Follows(calls, Overrun(calls, key, from), from);
    } else {
      forall more | Follows(calls, more, from)
        ensures Sum(Admissions(calls + more), InInterval(key, from)) <= WINDOW_LIMIT
      {
        if key in TableAfter(calls) && IsLive(TableAfter(calls)[key], from) {
          FullAdmits(calls, more, key, from);
        } else {
          ClosedAdmits(calls, more, key, from);
        }
      }
    }
  }

  lemma FirstCall(key: string)
    ensures Ordered([Call(key, 0)]) && TableAfter([Call(key, 0)]) == map[key := Entry(0, 1)]
  {
    assert [Call(key, 0)][..0] == [];
  }

  /** One sign-in, 29 more just before its window ends and 30 when it has ended: 59 within one window length. */
  lemma BoundIsReached(key: string) returns (calls: seq<Call>, from: int)
    ensures Ordered(calls) && Sum(Admissions(calls), InInterval(key, from)) == 2 * WINDOW_LIMIT - 1
  {
    hide Sum, TableAfter, Admissions, Ordered;
    from := WINDOW - 1;
    FirstCall(key);
    OverrunAdmits([Call(key, 0)], key, from);
    calls := [Call(key, 0)] + Overrun([Call(key, 0)], key, from);
  }
}
