/** The experiment runner: what its single collector may do, as a log of happenings,
    and what every such log guarantees. */
module RunnerLog {
  import opened Basics
  import opened Collections

  datatype StopReason = Canceled | TokenLimit | LiveModelDisabled | CallbackPanic | StoreError

  /** An attempt record; `ran` is whether it has an outcome. */
  datatype Record = Record(index: nat, ran: bool, notRun: Option<StopReason>, tokens: int, judgeTokens: int,
      liveModelDisabled: bool)

  datatype Happening =
    | Dispatched(index: nat)
    | Finished(record: Record)
    | Observed(record: Record)
    | Panicked
    | Stopped(reason: StopReason)

  /** A validated configuration and the dispatch order; no limit is written zero. */
  datatype Plan = Plan(order: seq<nat>, concurrency: nat, maxTokens: nat)

  function Butlast(log: seq<Happening>): seq<Happening>
    requires log != []
  {
    log[..|log| - 1]
  }

  function Last(log: seq<Happening>): Happening
    requires log != []
  {
    log[|log| - 1]
  }

  /** How many attempts were handed out. */
  function Dispatches(log: seq<Happening>): nat {
    if log == [] then 0 else Dispatches(Butlast(log)) + (if Last(log).Dispatched? then 1 else 0)
  }

  /** How many attempts came back. */
  function Returns(log: seq<Happening>): nat {
    if log == [] then 0 else Returns(Butlast(log)) + (if Last(log).Finished? then 1 else 0)
  }

  function Running(log: seq<Happening>): int {
    Dispatches(log) - Returns(log)
  }

  /** The tokens of everything that ran. */
  function Spent(log: seq<Happening>): int {
    if log == [] then 0
    else Spent(Butlast(log)) +
         (if Last(log).Finished? && Last(log).record.notRun.None? then
           Last(log).record.tokens + Last(log).record.judgeTokens else 0)
  }

  function FirstStop(log: seq<Happening>): Option<StopReason> {
    if log == [] then None
    else if FirstStop(Butlast(log)).Some? then FirstStop(Butlast(log))
    else if Last(log).Stopped? then Some(Last(log).reason)
    else None
  }

  predicate NeverCrossed(plan: Plan, log: seq<Happening>) {
    plan.maxTokens > 0 ==> forall k :: 0 <= k <= |log| ==> Spent(log[..k]) < plan.maxTokens
  }

  /** What may come next: an attempt starts in order, below the concurrency bound,
      before any stop and before the token limit was ever reached; it returns once; a
      record is shown to the observer once, and not after the observer panicked; only
      the first stop reason counts. */
  predicate Allowed(plan: Plan, before: seq<Happening>, e: Happening) {
    match e
    case Dispatched(i) =>
      && FirstStop(before).None?
      && Dispatches(before) < |plan.order| && i == plan.order[Dispatches(before)]
      && Running(before) < plan.concurrency
      && NeverCrossed(plan, before)
    case Finished(r) =>
      Dispatched(r.index) in before && forall j :: 0 <= j < |before| && before[j].Finished? ==>
        before[j].record.index != r.index
    case Observed(r) =>
      Panicked !in before && forall j :: 0 <= j < |before| && before[j].Observed? ==> before[j].record.index != r.index
    case Panicked => true
    case Stopped(_) => FirstStop(before).None?
  }

  predicate Legal(plan: Plan, log: seq<Happening>) {
    log == [] || (Legal(plan, Butlast(log)) && Allowed(plan, Butlast(log), Last(log)))
  }

  lemma Appended(plan: Plan, log: seq<Happening>, e: Happening)
    ensures Butlast(log + [e]) == log && Last(log + [e]) == e
    ensures Dispatches(log + [e]) == Dispatches(log) + (if e.Dispatched? then 1 else 0)
    ensures Returns(log + [e]) == Returns(log) + (if e.Finished? then 1 else 0)
    ensures Spent(log + [e]) ==
            Spent(log) + (if e.Finished? && e.record.notRun.None? then e.record.tokens + e.record.judgeTokens else 0)
    ensures FirstStop(log + [e]) ==
            if FirstStop(log).Some? then FirstStop(log) else if e.Stopped? then Some(e.reason) else None
    ensures Legal(plan, log + [e]) <==> Legal(plan, log) && Allowed(plan, log, e)
    ensures NeverCrossed(plan, log + [e]) <==>
            NeverCrossed(plan, log) && (plan.maxTokens > 0 ==> Spent(log + [e]) < plan.maxTokens)
    ensures Spent(log + [e]) == Spent(log) ==> (NeverCrossed(plan, log + [e]) <==> NeverCrossed(plan, log))
  {
    assert (log + [e])[..|log|] == log;
    assert (log + [e])[..|log| + 1] == log + [e];
    assert log[..|log|] == log;
    assert forall k :: 0 <= k <= |log| ==> (log + [e])[..k] == log[..k];
  }

  lemma {:induction false} PrefixIsLegal(plan: Plan, log: seq<Happening>, k: nat)
    requires Legal(plan, log) && k <= |log|
    ensures Legal(plan, log[..k])
    ensures k < |log| ==> Allowed(plan, log[..k], log[k])
  {
    if k < |log| {
      if k + 1 < |log| {
        PrefixIsLegal(plan, Butlast(log), k);
        assert Butlast(log)[..k] == log[..k];
      }
    } else {
      assert log[..k] == log;
    }
  }

  // ---------------------------------------------------------------- in-flight work

  function Started(log: seq<Happening>): set<nat> {
    if log == [] then {} else Started(Butlast(log)) + (if Last(log).Dispatched? then {Last(log).index} else {})
  }

  function Returned(log: seq<Happening>): set<nat> {
    if log == [] then {} else Returned(Butlast(log)) + (if Last(log).Finished? then {Last(log).record.index} else {})
  }

  lemma {:induction false} StartedExactly(log: seq<Happening>)
    ensures forall i :: i in Started(log) <==> Dispatched(i) in log
    ensures |Started(log)| <= Dispatches(log)
  {
    if log != [] {
      StartedExactly(Butlast(log));
      assert log == Butlast(log) + [Last(log)];
    }
  }

  lemma {:induction false} ReturnedHas(log: seq<Happening>, j: nat)
    requires j < |log| && log[j].Finished?
    ensures log[j].record.index in Returned(log)
  {
    if j < |log| - 1 { ReturnedHas(Butlast(log), j); }
  }

  lemma {:induction false} ReturnedFrom(log: seq<Happening>, i: nat) returns (j: nat)
    requires i in Returned(log)
    ensures j < |log| && log[j].Finished? && log[j].record.index == i
  {
    if i in Returned(Butlast(log)) {
      j := ReturnedFrom(Butlast(log), i);
    } else {
      j := |log| - 1;
    }
  }

  lemma {:induction false} ReturnedExactly(plan: Plan, log: seq<Happening>)
    requires Legal(plan, log)
    ensures |Returned(log)| == Returns(log)
    ensures Returned(log) <= Started(log)
  {
    if log != [] {
      ReturnedExactly(plan, Butlast(log));
      StartedExactly(Butlast(log));
      if Last(log).Finished? && Last(log).record.index in Returned(Butlast(log)) {
        var j := ReturnedFrom(Butlast(log), Last(log).record.index);
        assert false;
      }
    }
  }

  /** At every moment of every run at most `concurrency` attempts are in flight. */
  lemma {:induction false} InFlightBounded(plan: Plan, log: seq<Happening>)
    requires Legal(plan, log)
    ensures 0 <= Running(log) <= plan.concurrency
  {
    ReturnedExactly(plan, log);
    StartedExactly(log);
    SubsetSize(Returned(log), Started(log));
    if log != [] { InFlightBounded(plan, Butlast(log)); }
  }

  lemma {:induction false} CountsGrow(log: seq<Happening>, k: nat)
    requires k <= |log|
    ensures Dispatches(log[..k]) <= Dispatches(log) && Returns(log[..k]) <= Returns(log)
  {
    if k < |log| {
      CountsGrow(Butlast(log), k);
      assert Butlast(log)[..k] == log[..k];
    } else {
      assert log[..k] == log;
    }
  }

  /** No planned attempt is handed out twice, and attempts start in schedule order. */
  lemma DispatchedOnce(plan: Plan, log: seq<Happening>, j: nat, k: nat)
    requires Legal(plan, log) && Distinct(plan.order)
    requires j < k < |log| && log[j].Dispatched? && log[k].Dispatched?
    ensures log[j].index != log[k].index
    ensures exists p, q :: 0 <= p < q < |plan.order| && log[j].index == plan.order[p] && log[k].index == plan.order[q]
  {
    PrefixIsLegal(plan, log, j);
    PrefixIsLegal(plan, log, k);
    CountsGrow(log[..k], j + 1);
    assert log[..k][..j + 1] == log[..j] + [log[j]];
    Appended(plan, log[..j], log[j]);
    assert log[..k][..j + 1] == log[..j + 1];
    var p, q := Dispatches(log[..j]), Dispatches(log[..k]);
    assert p < q && log[j].index == plan.order[p] && log[k].index == plan.order[q];
  }

  lemma {:induction false} DispatchedPrefix(plan: Plan, log: seq<Happening>)
    requires Legal(plan, log)
    ensures Dispatches(log) <= |plan.order|
    ensures forall p :: 0 <= p < Dispatches(log) ==> Dispatched(plan.order[p]) in log
  {
    if log != [] {
      DispatchedPrefix(plan, Butlast(log));
      assert log == Butlast(log) + [Last(log)];
    }
  }

  // ---------------------------------------------------------------- the token limit

  /** Every attempt starts below the limit. */
  lemma DispatchedBelowLimit(plan: Plan, log: seq<Happening>, k: nat)
    requires Legal(plan, log) && k < |log| && log[k].Dispatched? && plan.maxTokens > 0
    ensures Spent(log[..k]) < plan.maxTokens
  {
    PrefixIsLegal(plan, log, k);
    assert log[..k][..k] == log[..k];
  }

  lemma {:induction false} NothingStartsAfterCrossing(plan: Plan, log: seq<Happening>, k: nat)
    requires Legal(plan, log) && k <= |log| && plan.maxTokens > 0 && Spent(log[..k]) >= plan.maxTokens
    ensures Dispatches(log) == Dispatches(log[..k])
  {
    if k < |log| {
      assert Butlast(log)[..k] == log[..k];
      NothingStartsAfterCrossing(plan, Butlast(log), k);
    } else {
      assert log[..k] == log;
    }
  }

  /** The first moment the limit is reached is the return of an attempt that ran. */
  lemma {:induction false} FirstCrossing(plan: Plan, log: seq<Happening>, k: nat) returns (c: nat)
    requires k <= |log| && plan.maxTokens > 0 && Spent(log[..k]) >= plan.maxTokens
    ensures 0 < c <= k && log[c - 1].Finished?
    ensures Spent(log[..c]) >= plan.maxTokens > Spent(log[..c - 1])
    decreases k
  {
    assert k > 0;
    assert Butlast(log[..k]) == log[..k - 1] && Last(log[..k]) == log[k - 1];
    if Spent(log[..k - 1]) >= plan.maxTokens {
      c := FirstCrossing(plan, log, k - 1);
    } else {
      c := k;
    }
  }

  /** Once the limit is reached, at most `concurrency - 1` attempts still come back:
      the ones already in flight beside the crossing one. */
  lemma LateReturnsBounded(plan: Plan, log: seq<Happening>, k: nat)
    requires Legal(plan, log) && k <= |log| && plan.maxTokens > 0 && Spent(log[..k]) >= plan.maxTokens
    ensures Returns(log) - Returns(log[..k]) <= plan.concurrency - 1
  {
    var c := FirstCrossing(plan, log, k);
    PrefixIsLegal(plan, log, c - 1);
    InFlightBounded(plan, log[..c - 1]);
    InFlightBounded(plan, log);
    assert Butlast(log[..c]) == log[..c - 1] && Last(log[..c]) == log[c - 1];
    assert Running(log[..c]) <= plan.concurrency - 1;
    NothingStartsAfterCrossing(plan, log, c);
    CountsGrow(log[..k], c);
    assert log[..k][..c] == log[..c];
  }

  // ---------------------------------------------------------------- observation and stopping

  /** The observer sees each record at most once and nothing after it panicked. */
  lemma ObservedOnce(plan: Plan, log: seq<Happening>, j: nat, k: nat)
    requires Legal(plan, log) && j < k < |log| && log[k].Observed?
    ensures !log[j].Panicked?
    ensures log[j].Observed? ==> log[j].record.index != log[k].record.index
  {
    PrefixIsLegal(plan, log, k);
    assert log[..k][j] == log[j];
  }

  lemma {:induction false} StopStays(log: seq<Happening>, k: nat)
    requires k <= |log| && FirstStop(log[..k]).Some?
    ensures FirstStop(log) == FirstStop(log[..k])
  {
    if k < |log| {
      assert Butlast(log)[..k] == log[..k];
      StopStays(Butlast(log), k);
    } else {
      assert log[..k] == log;
    }
  }

  /** One stop is recorded, the first, and nothing starts after it. */
  lemma StoppedOnce(plan: Plan, log: seq<Happening>, j: nat, k: nat)
    requires Legal(plan, log) && j < k < |log| && log[j].Stopped?
    ensures !log[k].Stopped? && !log[k].Dispatched?
    ensures FirstStop(log) == Some(log[j].reason)
  {
    PrefixIsLegal(plan, log, j);
    PrefixIsLegal(plan, log, k);
    Appended(plan, log[..j], log[j]);
    assert log[..j + 1] == log[..j] + [log[j]];
    assert log[..k][..j + 1] == log[..j + 1];
    StopStays(log, j + 1);
    StopStays(log[..k], j + 1);
  }

  // ---------------------------------------------------------------- the schedule

  /** Whether timeout `x` sorts strictly before `y`: none first, then longer ones. */
  predicate Earlier(x: nat, y: nat) {
    x != y && (x == 0 || (y != 0 && x > y))
  }

  /** Puts index `i` behind everything that does not sort strictly after it. */
  function Insert(timeouts: seq<nat>, order: seq<nat>, i: nat): seq<nat>
    requires i < |timeouts| && forall k :: 0 <= k < |order| ==> order[k] < |timeouts|
  {
    if order == [] then [i]
    else if Earlier(timeouts[i], timeouts[order[|order| - 1]]) then
      Insert(timeouts, order[..|order| - 1], i) + [order[|order| - 1]]
    else order + [i]
  }

  /** The stable sort of the first `n` plan indices. */
  function Sorted(timeouts: seq<nat>, n: nat): (order: seq<nat>)
    requires n <= |timeouts|
    ensures |order| == n && forall k :: 0 <= k < n ==> order[k] < n
  {
    if n == 0 then []
    else
      InsertKeeps(timeouts, Sorted(timeouts, n - 1), n - 1);
      Insert(timeouts, Sorted(timeouts, n - 1), n - 1)
  }

  lemma {:induction false} InsertKeeps(timeouts: seq<nat>, order: seq<nat>, i: nat)
    requires i < |timeouts| && forall k :: 0 <= k < |order| ==> order[k] < i
    ensures |Insert(timeouts, order, i)| == |order| + 1
    ensures forall k :: 0 <= k <= |order| ==> Insert(timeouts, order, i)[k] <= i
    ensures forall x :: x in Insert(timeouts, order, i) <==> x in order || x == i
  {
    if order != [] && Earlier(timeouts[i], timeouts[order[|order| - 1]]) {
      InsertKeeps(timeouts, order[..|order| - 1], i);
      assert order == order[..|order| - 1] + [order[|order| - 1]];
    }
  }

  /** Attempt `a` is scheduled before `b`: an earlier timeout, or an equal one and a
      smaller index. */
  predicate Precedes(timeouts: seq<nat>, a: nat, b: nat)
    requires a < |timeouts| && b < |timeouts|
  {
    Earlier(timeouts[a], timeouts[b]) || (timeouts[a] == timeouts[b] && a < b)
  }

  predicate Scheduled(timeouts: seq<nat>, order: seq<nat>)
    requires forall k :: 0 <= k < |order| ==> order[k] < |timeouts|
  {
    forall p, q :: 0 <= p < q < |order| ==> Precedes(timeouts, order[p], order[q])
  }

  lemma ScheduledSnoc(timeouts: seq<nat>, order: seq<nat>, last: nat)
    requires last < |timeouts| && (forall k :: 0 <= k < |order| ==> order[k] < |timeouts|) && Scheduled(timeouts, order)
    requires forall k :: 0 <= k < |order| ==> Precedes(timeouts, order[k], last)
    ensures Scheduled(timeouts, order + [last])
  {
  }

  lemma {:induction false} InsertSchedules(timeouts: seq<nat>, order: seq<nat>, i: nat)
    requires i < |timeouts| && forall k :: 0 <= k < |order| ==> order[k] < i
    requires Scheduled(timeouts, order)
    ensures forall k :: 0 <= k < |Insert(timeouts, order, i)| ==> Insert(timeouts, order, i)[k] < |timeouts|
    ensures Scheduled(timeouts, Insert(timeouts, order, i))
  {
    if order != [] && Earlier(timeouts[i], timeouts[order[|order| - 1]]) {
      var rest, last := order[..|order| - 1], order[|order| - 1];
      InsertSchedules(timeouts, rest, i);
      InsertKeeps(timeouts, rest, i);
      var r := Insert(timeouts, rest, i);
      forall k | 0 <= k < |r|
        ensures Precedes(timeouts, r[k], last)
      {
        assert r[k] in r;
        if r[k] != i {
          var p :| 0 <= p < |rest| && rest[p] == r[k];
          assert Precedes(timeouts, order[p], order[|order| - 1]);
        }
      }
      ScheduledSnoc(timeouts, r, last);
    } else {
      forall k | 0 <= k < |order|
        ensures Precedes(timeouts, order[k], i)
      {
        assert k < |order| - 1 ==> Precedes(timeouts, order[k], order[|order| - 1]);
      }
      ScheduledSnoc(timeouts, order, i);
    }
  }

  lemma {:induction false} SortedHasAll(timeouts: seq<nat>, n: nat)
    requires n <= |timeouts|
    ensures forall i :: 0 <= i < n ==> i in Sorted(timeouts, n)
  {
    if n > 0 {
      SortedHasAll(timeouts, n - 1);
      InsertKeeps(timeouts, Sorted(timeouts, n - 1), n - 1);
    }
  }

  lemma {:induction false} SortedInOrder(timeouts: seq<nat>, n: nat)
    requires n <= |timeouts|
    ensures Scheduled(timeouts, Sorted(timeouts, n))
  {
    if n > 0 {
      SortedInOrder(timeouts, n - 1);
      InsertSchedules(timeouts, Sorted(timeouts, n - 1), n - 1);
    }
  }

  /** The schedule is every planned index once, unbounded attempts first, then longer
      timeouts before shorter ones, ties in plan order. */
  lemma SortedIsSchedule(timeouts: seq<nat>)
    ensures var order := Sorted(timeouts, |timeouts|);
            Scheduled(timeouts, order) && Distinct(order) && forall i :: 0 <= i < |timeouts| ==> i in order
  {
    SortedInOrder(timeouts, |timeouts|);
    SortedHasAll(timeouts, |timeouts|);
  }
}

/** The collector: bounded dispatch, stop decisions, accounting and all callbacks. */
module Runner {
  import opened Basics
  import opened Collections
  import opened RunnerLog

  /** Tokens of the attempts that ran. */
  function SumRan(attempts: seq<Record>): int {
    if attempts == [] then 0
    else SumRan(attempts[..|attempts| - 1]) +
         (if attempts[|attempts| - 1].ran then attempts[|attempts| - 1].tokens + attempts[|attempts| - 1].judgeTokens
           else 0)
  }

  lemma {:induction false} SumReplaced(attempts: seq<Record>, i: nat, r: Record)
    requires i < |attempts| && !attempts[i].ran
    ensures SumRan(attempts[i := r]) == SumRan(attempts) + (if r.ran then r.tokens + r.judgeTokens else 0)
  {
    var n := |attempts| - 1;
    if i == n {
      assert attempts[i := r][..n] == attempts[..n];
    } else {
      SumReplaced(attempts[..n], i, r);
      assert attempts[i := r][..n] == attempts[..n][i := r];
    }
  }

  /** What a worker may hand back for a job: an attempt that ran, or, once the context
      is done, one it did not start. */
  predicate WorkerMayReturn(r: Record, index: nat, contextDone: bool) {
    && r.index == index
    && (if r.ran then r.notRun.None? else contextDone && r.notRun == Some(Canceled))
  }

  /** The collector's state. `running` are the jobs workers hold; `failed` is whether
      the run will return an error; `watched` whether an observer was configured. */
  datatype State = State(
    attempts: seq<Record>, tokens: int, stop: Option<StopReason>, watched: bool, observing: bool,
    contextDone: bool, running: seq<nat>, failed: bool, log: seq<Happening>)

  /** The ledger agrees with what happened. While a returned attempt is being
      accounted (`crossing`) the limit may be reached and the stop not yet set. */
  ghost predicate Accounts(plan: Plan, s: State, crossing: bool) {
    && Legal(plan, s.log)
    && s.stop == FirstStop(s.log)
    && s.tokens == Spent(s.log) == SumRan(s.attempts)
    && (s.stop.None? ==> NeverCrossed(plan, s.log) || (crossing && 0 < plan.maxTokens <= s.tokens))
    && (s.failed ==> s.stop.Some?)
    && (s.stop.Some? && s.stop != Some(TokenLimit) ==> s.failed)
  }

  ghost predicate Jobs(plan: Plan, s: State) {
    && |plan.order| == |s.attempts|
    && (forall p :: 0 <= p < |plan.order| ==> plan.order[p] < |s.attempts|)
    && |s.running| == Running(s.log)
    && Distinct(s.running)
    && (forall i :: i in s.running ==> i < |s.attempts| && Dispatched(i) in s.log && Finished(s.attempts[i]) !in s.log)
    && (forall i: nat :: Dispatched(i) in s.log ==>
      i in s.running || (i < |s.attempts| && Finished(s.attempts[i]) in s.log))
  }

  /** A slot holds what its worker returned, or the blank it started with. */
  ghost predicate Records(s: State) {
    && (forall i :: 0 <= i < |s.attempts| ==> s.attempts[i].index == i)
    && (forall i :: 0 <= i < |s.attempts| && s.attempts[i].ran ==>
      s.attempts[i].notRun.None? && Finished(s.attempts[i]) in s.log)
    && (forall j :: 0 <= j < |s.log| && s.log[j].Finished? ==>
          s.log[j].record.index < |s.attempts| && s.attempts[s.log[j].record.index] == s.log[j].record)
    && (forall i :: 0 <= i < |s.attempts| && !s.attempts[i].ran && Finished(s.attempts[i]) in s.log ==> s.contextDone)
  }

  /** The observer saw records as the report has them, and every one that ran except
      the one being delivered. */
  ghost predicate Shown(s: State, except: Option<nat>) {
    && (s.observing <==> s.watched && Panicked !in s.log)
    && (forall j :: 0 <= j < |s.log| && s.log[j].Observed? ==>
          && s.log[j].record.index < |s.attempts|
          && s.attempts[s.log[j].record.index] == s.log[j].record
          && s.log[j].record.ran && except != Some(s.log[j].record.index))
    && (s.observing ==> forall i :: 0 <= i < |s.attempts| && s.attempts[i].ran && except != Some(i) ==>
      Observed(s.attempts[i]) in s.log)
  }

  ghost predicate Collecting(plan: Plan, s: State, crossing: bool, except: Option<nat>) {
    Accounts(plan, s, crossing) && Jobs(plan, s) && Records(s) && Shown(s, except)
  }

  // ---------------------------------------------------------------- the collector's moves

  /** Stopping keeps the first reason; every reason but the token limit is an error. */
  function Halt(s: State, reason: StopReason): State {
    s.(stop := if s.stop.None? then Some(reason) else s.stop,
       failed := s.failed || reason != TokenLimit,
       log := if s.stop.None? then s.log + [Stopped(reason)] else s.log)
  }

  function Dispatch(s: State, index: nat): State {
    s.(running := s.running + [index], log := s.log + [Dispatched(index)])
  }

  /** The returned record is stored and counted; one that did not run costs nothing. */
  function Store(s: State, slot: nat, r: Record): State
    requires slot < |s.running| && s.running[slot] == r.index < |s.attempts|
  {
    s.(attempts := s.attempts[r.index := r],
       tokens := if r.notRun.Some? then s.tokens else s.tokens + (r.tokens + r.judgeTokens),
       running := s.running[..slot] + s.running[slot + 1..],
       log := s.log + [Finished(r)])
  }

  function Show(s: State, r: Record): State {
    s.(log := s.log + [Observed(r)])
  }

  function Disable(s: State): State {
    s.(observing := false, log := s.log + [Panicked])
  }

  /** One record is persisted, which may fail, and shown, which may panic. */
  function Notified(s: State, r: Record, broken: bool, panics: bool): State {
    var persisted := if broken then Halt(s, StoreError) else s;
    if !persisted.observing then persisted
    else if panics then Halt(Disable(Show(persisted, r)), CallbackPanic)
    else Show(persisted, r)
  }

  /** The stop decisions about a record that ran. */
  function Decided(plan: Plan, s: State, r: Record): State {
    var s := if r.liveModelDisabled then Halt(s, LiveModelDisabled) else s;
    if s.stop.None? && plan.maxTokens > 0 && s.tokens >= plan.maxTokens then Halt(s, TokenLimit) else s
  }

  function Accepted(plan: Plan, s: State, slot: nat, r: Record, broken: bool, panics: bool): State
    requires slot < |s.running| && s.running[slot] == r.index < |s.attempts|
  {
    if r.notRun.Some? then Store(s, slot, r)
    else Notified(Decided(plan, Store(s, slot, r), r), r, broken, panics)
  }

  /** A happening that starts and returns nothing leaves the jobs and records alone. */
  lemma QuietKeeps(plan: Plan, s: State, s': State, e: Happening)
    requires Jobs(plan, s) && Records(s) && !e.Dispatched? && !e.Finished?
    requires s'.attempts == s.attempts && s'.running == s.running && s'.contextDone == s.contextDone
             && s'.log == s.log + [e]
    ensures Jobs(plan, s') && Records(s')
  {
    Appended(plan, s.log, e);
  }

  lemma StopKeepsShown(s: State, s': State, reason: StopReason, except: Option<nat>)
    requires Shown(s, except)
    requires s'.attempts == s.attempts && s'.watched == s.watched && s'.observing == s.observing
             && s'.log == s.log + [Stopped(reason)]
    ensures Shown(s', except)
  {
  }

  lemma HaltKeeps(plan: Plan, s: State, reason: StopReason, crossing: bool, except: Option<nat>)
    requires Collecting(plan, s, crossing, except)
    ensures Collecting(plan, Halt(s, reason), crossing, except)
    ensures Collecting(plan, Halt(s, reason), false, except)
    ensures Halt(s, reason).stop.Some?
  {
    if s.stop.None? {
      Appended(plan, s.log, Stopped(reason));
      QuietKeeps(plan, s, Halt(s, reason), Stopped(reason));
      StopKeepsShown(s, Halt(s, reason), reason, except);
    }
  }

  lemma NotYetReturned(plan: Plan, log: seq<Happening>, i: nat, r: Record)
    requires Legal(plan, log) && Dispatched(i) !in log && r.index == i
    ensures Finished(r) !in log
  {
    if Finished(r) in log {
      var j :| 0 <= j < |log| && log[j] == Finished(r);
      ReturnedHas(log, j);
      ReturnedExactly(plan, log);
      StartedExactly(log);
      assert false;
    }
  }

  lemma DispatchKeepsJobs(plan: Plan, s: State, i: nat)
    requires Jobs(plan, s) && i < |s.attempts| && Dispatched(i) !in s.log && Finished(s.attempts[i]) !in s.log
    ensures Jobs(plan, Dispatch(s, i))
  {
    Appended(plan, s.log, Dispatched(i));
    assert i !in s.running;
  }

  lemma DispatchKeeps(plan: Plan, s: State)
    requires Collecting(plan, s, false, None) && Distinct(plan.order)
    requires s.stop.None? && Dispatches(s.log) < |plan.order| && |s.running| < plan.concurrency
    ensures Collecting(plan, Dispatch(s, plan.order[Dispatches(s.log)]), false, None)
  {
    var i := plan.order[Dispatches(s.log)];
    Appended(plan, s.log, Dispatched(i));
    NotYetDispatched(plan, s.log);
    NotYetReturned(plan, s.log, i, s.attempts[i]);
    DispatchKeepsJobs(plan, s, i);
  }

  lemma {:induction false} NotYetDispatched(plan: Plan, log: seq<Happening>)
    requires Legal(plan, log) && Distinct(plan.order)
    ensures forall p :: Dispatches(log) <= p < |plan.order| ==> Dispatched(plan.order[p]) !in log
  {
    if log != [] {
      NotYetDispatched(plan, Butlast(log));
      assert log == Butlast(log) + [Last(log)];
    }
  }

  lemma StoreKeepsAccounts(plan: Plan, s: State, slot: nat, r: Record)
    requires Accounts(plan, s, false) && Jobs(plan, s) && Records(s)
    requires slot < |s.running| && r.index < |s.attempts| && WorkerMayReturn(r, s.running[slot], s.contextDone)
    ensures Accounts(plan, Store(s, slot, r), r.ran)
  {
    Appended(plan, s.log, Finished(r));
    assert r.index in s.running;
    SumReplaced(s.attempts, r.index, r);
  }

  lemma StoreKeepsRecords(plan: Plan, s: State, slot: nat, r: Record)
    requires Jobs(plan, s) && Records(s)
    requires slot < |s.running| && r.index < |s.attempts| && WorkerMayReturn(r, s.running[slot], s.contextDone)
    ensures Records(Store(s, slot, r)) && !s.attempts[r.index].ran
  {
    assert r.index in s.running;
  }

  lemma StoreKeeps(plan: Plan, s: State, slot: nat, r: Record)
    requires Collecting(plan, s, false, None)
    requires slot < |s.running| && r.index < |s.attempts| && WorkerMayReturn(r, s.running[slot], s.contextDone)
    ensures Collecting(plan, Store(s, slot, r), r.ran, if r.ran then Some(r.index) else None)
  {
    StoreKeepsAccounts(plan, s, slot, r);
    StoreKeepsRecords(plan, s, slot, r);
    StoreKeepsJobs(plan, s, slot, r);
    StoreKeepsShown(s, slot, r);
  }

  lemma StoreKeepsShown(s: State, slot: nat, r: Record)
    requires Shown(s, None) && Records(s)
    requires slot < |s.running| && s.running[slot] == r.index < |s.attempts| && !s.attempts[r.index].ran
    ensures Shown(Store(s, slot, r), if r.ran then Some(r.index) else None)
  {
  }

  lemma Removed(s: seq<nat>, slot: nat)
    requires Distinct(s) && slot < |s|
    ensures var rest := s[..slot] + s[slot + 1..];
            Distinct(rest) && |rest| == |s| - 1 && forall i :: i in rest <==> i in s && i != s[slot]
  {
    var rest := s[..slot] + s[slot + 1..];
    forall i | i in s && i != s[slot]
      ensures i in rest
    {
      var k :| 0 <= k < |s| && s[k] == i;
      assert rest[if k < slot then k else k - 1] == i;
    }
  }

  lemma StoreKeepsJobs(plan: Plan, s: State, slot: nat, r: Record)
    requires Jobs(plan, s) && Records(s)
    requires slot < |s.running| && s.running[slot] == r.index < |s.attempts|
    ensures Jobs(plan, Store(s, slot, r))
  {
    Appended(plan, s.log, Finished(r));
    Removed(s.running, slot);
  }

  lemma RunningIsPlanned(plan: Plan, s: State, slot: nat)
    requires Jobs(plan, s) && slot < |s.running|
    ensures s.running[slot] < |s.attempts|
  {
    assert s.running[slot] in s.running;
  }

  /** After the token check the limit is either unreached or the run is stopped. */
  lemma LimitSettles(plan: Plan, s: State, except: Option<nat>)
    requires Collecting(plan, s, true, except)
    requires s.stop.None? ==> !(0 < plan.maxTokens <= s.tokens)
    ensures Collecting(plan, s, false, except)
  {
  }

  lemma ShowKeeps(plan: Plan, s: State, r: Record)
    requires Collecting(plan, s, false, Some(r.index)) && s.observing && r.ran
    requires r.index < |s.attempts| && s.attempts[r.index] == r
    ensures Collecting(plan, Show(s, r), false, None)
  {
    Appended(plan, s.log, Observed(r));
    QuietKeeps(plan, s, Show(s, r), Observed(r));
  }

  lemma DisableKeeps(plan: Plan, s: State)
    requires Collecting(plan, s, false, None)
    ensures Collecting(plan, Disable(s), false, None)
  {
    Appended(plan, s.log, Panicked);
    QuietKeeps(plan, s, Disable(s), Panicked);
  }

  lemma UnwatchedKeeps(plan: Plan, s: State, except: Option<nat>)
    requires Collecting(plan, s, false, except) && !s.observing
    ensures Collecting(plan, s, false, None)
  {
  }

  lemma NotifiedKeeps(plan: Plan, s: State, r: Record, broken: bool, panics: bool)
    requires Collecting(plan, s, false, Some(r.index)) && r.ran
    requires r.index < |s.attempts| && s.attempts[r.index] == r
    ensures Collecting(plan, Notified(s, r, broken, panics), false, None)
  {
    var persisted := if broken then Halt(s, StoreError) else s;
    HaltKeeps(plan, s, StoreError, false, Some(r.index));
    if !persisted.observing {
      UnwatchedKeeps(plan, persisted, Some(r.index));
    } else {
      ShowKeeps(plan, persisted, r);
      DisableKeeps(plan, Show(persisted, r));
      HaltKeeps(plan, Disable(Show(persisted, r)), CallbackPanic, false, None);
    }
  }

  lemma DecidedKeeps(plan: Plan, s: State, r: Record)
    requires Collecting(plan, s, true, Some(r.index))
    ensures Collecting(plan, Decided(plan, s, r), false, Some(r.index))
    ensures Decided(plan, s, r).attempts == s.attempts
  {
    HaltKeeps(plan, s, LiveModelDisabled, true, Some(r.index));
    var t := if r.liveModelDisabled then Halt(s, LiveModelDisabled) else s;
    HaltKeeps(plan, t, TokenLimit, true, Some(r.index));
    if Decided(plan, s, r) == t { LimitSettles(plan, t, Some(r.index)); }
  }

  /** Accounting a returned record, with whatever the store and the observer do. */
  lemma AcceptedKeeps(plan: Plan, s: State, slot: nat, r: Record, broken: bool, panics: bool)
    requires Collecting(plan, s, false, None)
    requires slot < |s.running| && r.index < |s.attempts| && WorkerMayReturn(r, s.running[slot], s.contextDone)
    ensures Collecting(plan, Accepted(plan, s, slot, r, broken, panics), false, None)
  {
    StoreKeeps(plan, s, slot, r);
    if r.notRun.None? {
      DecidedKeeps(plan, Store(s, slot, r), r);
      NotifiedKeeps(plan, Decided(plan, Store(s, slot, r), r), r, broken, panics);
    }
  }

  /** What stopping and showing leave alone. */
  lemma HaltFrame(plan: Plan, s: State, reason: StopReason)
    ensures var t := Halt(s, reason);
            && t.attempts == s.attempts && t.running == s.running && t.contextDone == s.contextDone
            && Dispatches(t.log) == Dispatches(s.log) && (s.stop.Some? ==> t.stop == s.stop)
  {
    Appended(plan, s.log, Stopped(reason));
  }

  lemma NotifiedFrame(plan: Plan, s: State, r: Record, broken: bool, panics: bool)
    ensures var t := Notified(s, r, broken, panics);
            && t.attempts == s.attempts && t.running == s.running && t.contextDone == s.contextDone
            && Dispatches(t.log) == Dispatches(s.log) && (s.stop.Some? ==> t.stop == s.stop)
  {
    var persisted := if broken then Halt(s, StoreError) else s;
    HaltFrame(plan, s, StoreError);
    Appended(plan, persisted.log, Observed(r));
    Appended(plan, Show(persisted, r).log, Panicked);
    HaltFrame(plan, Disable(Show(persisted, r)), CallbackPanic);
  }

  lemma DecidedFrame(plan: Plan, s: State, r: Record)
    ensures var t := Decided(plan, s, r);
            && t.attempts == s.attempts && t.running == s.running && t.contextDone == s.contextDone
            && Dispatches(t.log) == Dispatches(s.log) && (s.stop.Some? ==> t.stop == s.stop)
  {
    HaltFrame(plan, s, LiveModelDisabled);
    HaltFrame(plan, if r.liveModelDisabled then Halt(s, LiveModelDisabled) else s, TokenLimit);
  }

  lemma AcceptedFrame(plan: Plan, s: State, slot: nat, r: Record, broken: bool, panics: bool)
    requires slot < |s.running| && s.running[slot] == r.index < |s.attempts|
    ensures var t := Accepted(plan, s, slot, r, broken, panics);
            && |t.attempts| == |s.attempts| && |t.running| == |s.running| - 1 && t.contextDone == s.contextDone
            && Dispatches(t.log) == Dispatches(s.log) && (s.stop.Some? ==> t.stop == s.stop)
  {
    var stored := Store(s, slot, r);
    assert |stored.running| == |s.running| - 1;
    assert Dispatches(stored.log) == Dispatches(s.log) by { Appended(plan, s.log, Finished(r)); }
    DecidedFrame(plan, stored, r);
    NotifiedFrame(plan, Decided(plan, stored, r), r, broken, panics);
  }

  // ---------------------------------------------------------------- finishing

  /** Slots ran, or were skipped for the stop reason (once filled in, below `n`). */
  ghost predicate Slots(s: State, n: nat) {
    && (forall i :: 0 <= i < |s.attempts| ==> s.attempts[i].index == i)
    && (forall i :: 0 <= i < |s.attempts| && s.attempts[i].ran ==>
      s.attempts[i].notRun.None? && Finished(s.attempts[i]) in s.log)
    && (forall i :: 0 <= i < |s.attempts| && !s.attempts[i].ran ==>
      s.stop.Some? && (i < n ==> s.attempts[i].notRun == s.stop))
  }

  /** The observer saw records in their final form: those that ran, then the skipped
      ones below `n`; all of them unless it panicked. */
  ghost predicate Seen(s: State, n: nat) {
    && (s.observing <==> s.watched && Panicked !in s.log)
    && (forall j :: 0 <= j < |s.log| && s.log[j].Observed? ==>
          && s.log[j].record.index < |s.attempts|
          && s.attempts[s.log[j].record.index] == s.log[j].record
          && (s.log[j].record.ran || s.log[j].record.index < n))
    && (s.observing ==> forall i :: 0 <= i < |s.attempts| && (s.attempts[i].ran || i < n) ==>
      Observed(s.attempts[i]) in s.log)
  }

  /** The report while skipped slots below `n` have been filled in. */
  ghost predicate Finishing(plan: Plan, s: State, n: nat) {
    Accounts(plan, s, false) && Slots(s, n) && Seen(s, n)
  }

  lemma AllReturned(plan: Plan, s: State)
    requires Legal(plan, s.log) && Jobs(plan, s) && s.running == [] && Dispatches(s.log) == |plan.order|
    requires forall i :: 0 <= i < |s.attempts| ==> i in plan.order
    ensures forall i :: 0 <= i < |s.attempts| ==> Finished(s.attempts[i]) in s.log
  {
    DispatchedPrefix(plan, s.log);
    forall i | 0 <= i < |s.attempts|
      ensures Finished(s.attempts[i]) in s.log
    {
      assert i in plan.order;
      var p :| 0 <= p < |plan.order| && plan.order[p] == i;
      assert Dispatched(plan.order[p]) in s.log;
    }
  }

  /** When nothing is in flight and nothing more will start, every skipped slot has a
      reason: an undispatched one the stop, a refused one the cancellation. */
  lemma CollectedIsFinishing(plan: Plan, s: State)
    requires Collecting(plan, s, false, None) && s.running == []
    requires forall i :: 0 <= i < |s.attempts| ==> i in plan.order
    requires s.stop.Some? || (Dispatches(s.log) == |plan.order| && !s.contextDone)
    ensures Finishing(plan, s, 0)
  {
    if s.stop.None? { AllReturned(plan, s); }
  }

  function Skip(s: State, n: nat): State
    requires n < |s.attempts|
  {
    s.(attempts := s.attempts[n := s.attempts[n].(notRun := s.stop)])
  }

  lemma SkipSums(attempts: seq<Record>, n: nat, reason: Option<StopReason>)
    requires n < |attempts| && !attempts[n].ran
    ensures SumRan(attempts[n := attempts[n].(notRun := reason)]) == SumRan(attempts)
  {
    SumReplaced(attempts, n, attempts[n].(notRun := reason));
  }

  lemma SkipKeepsSlots(s: State, n: nat)
    requires Slots(s, n) && n < |s.attempts| && !s.attempts[n].ran
    ensures Slots(Skip(s, n), n + 1)
  {
  }

  lemma SkipKeepsSeen(s: State, n: nat)
    requires Seen(s, n) && n < |s.attempts| && !s.attempts[n].ran && s.attempts[n].index == n
    ensures !s.observing ==> Seen(Skip(s, n), n + 1)
    ensures Seen(Show(Skip(s, n), Skip(s, n).attempts[n]), n + 1)
  {
    var r := Skip(s, n).attempts[n];
    var t := Show(Skip(s, n), r);
    assert t.log[|s.log|] == Observed(r);
    assert forall j :: 0 <= j < |s.log| ==> t.log[j] == s.log[j];
    if s.observing {
      forall i | 0 <= i < |t.attempts| && (t.attempts[i].ran || i <= n)
        ensures Observed(t.attempts[i]) in t.log
      {
        if i != n { assert Observed(s.attempts[i]) in s.log; }
      }
    }
  }

  lemma NotYetShown(plan: Plan, s: State, n: nat, r: Record)
    requires Seen(s, n) && n < |s.attempts| && !s.attempts[n].ran && s.observing && r.index == n
    ensures Allowed(plan, s.log, Observed(r))
  {
  }

  /** Filling in one skipped slot and showing it to an observer that still listens. */
  lemma SkipKeeps(plan: Plan, s: State, n: nat)
    requires Finishing(plan, s, n) && n < |s.attempts| && !s.attempts[n].ran
    ensures !s.observing ==> Finishing(plan, Skip(s, n), n + 1)
    ensures s.observing ==> Finishing(plan, Show(Skip(s, n), Skip(s, n).attempts[n]), n + 1)
  {
    SkipSums(s.attempts, n, s.stop);
    SkipKeepsSlots(s, n);
    SkipKeepsSeen(s, n);
    if s.observing {
      NotYetShown(plan, s, n, Skip(s, n).attempts[n]);
      Appended(plan, s.log, Observed(Skip(s, n).attempts[n]));
    }
  }

  lemma RanNeedsNothing(plan: Plan, s: State, n: nat)
    requires Finishing(plan, s, n) && n < |s.attempts| && s.attempts[n].ran
    ensures Finishing(plan, s, n + 1)
  {
  }

  lemma FinishingHalts(plan: Plan, s: State, n: nat, reason: StopReason)
    requires Finishing(plan, s, n) && s.stop.Some?
    ensures Finishing(plan, Halt(s, reason), n)
  {
  }

  lemma FinishingDisables(plan: Plan, s: State, n: nat)
    requires Finishing(plan, s, n)
    ensures Finishing(plan, Disable(s), n)
  {
    Appended(plan, s.log, Panicked);
  }

  lemma FinishingPanics(plan: Plan, s: State, n: nat)
    requires Finishing(plan, s, n) && s.stop.Some?
    ensures Finishing(plan, Halt(Disable(s), CallbackPanic), n)
  {
    FinishingDisables(plan, s, n);
    FinishingHalts(plan, Disable(s), n, CallbackPanic);
  }

  lemma SkipAndHaltCommute(s: State, n: nat, reason: StopReason)
    requires n < |s.attempts| && s.stop.Some?
    ensures Halt(Skip(s, n), reason) == Skip(Halt(s, reason), n)
  {
  }

  lemma SkippedShown(plan: Plan, s: State, n: nat, panics: bool)
    requires Finishing(plan, s, n) && n < |s.attempts| && !s.attempts[n].ran
    ensures Finishing(plan, Notified(Skip(s, n), Skip(s, n).attempts[n], false, panics), n + 1)
  {
    SkipKeeps(plan, s, n);
    if s.observing { FinishingPanics(plan, Show(Skip(s, n), Skip(s, n).attempts[n]), n + 1); }
  }

  /** Filling in a skipped slot, with whatever the store and the observer do. */
  lemma SkippedKeeps(plan: Plan, s: State, n: nat, broken: bool, panics: bool)
    requires Finishing(plan, s, n) && n < |s.attempts| && !s.attempts[n].ran
    ensures Finishing(plan, Notified(Skip(s, n), Skip(s, n).attempts[n], broken, panics), n + 1)
  {
    if broken {
      FinishingHalts(plan, s, n, StoreError);
      SkipAndHaltCommute(s, n, StoreError);
      SkippedShown(plan, Halt(s, StoreError), n, panics);
    } else {
      SkippedShown(plan, s, n, panics);
    }
  }

  // ---------------------------------------------------------------- why it stops

  predicate Disabled(r: Record) {
    r.ran && r.liveModelDisabled
  }

  /** The reason a run stopped for is true of it: its context ended, the token limit was
      reached, an attempt that ran found the live model disabled, the observer panicked,
      or there is a store to fail. Without a reason none of those it must stop for
      happened. */
  ghost predicate Reasons(plan: Plan, persists: bool, s: State) {
    match s.stop
    case None => Panicked !in s.log && forall i :: 0 <= i < |s.attempts| ==> !Disabled(s.attempts[i])
    case Some(Canceled) => s.contextDone
    case Some(TokenLimit) => !NeverCrossed(plan, s.log)
    case Some(LiveModelDisabled) => exists i :: 0 <= i < |s.attempts| && Disabled(s.attempts[i])
    case Some(CallbackPanic) => Panicked in s.log
    case Some(StoreError) => persists
  }

  /** More happens, without a new reason to stop. */
  lemma ReasonsStay(plan: Plan, persists: bool, s: State, t: State, e: Happening)
    requires Reasons(plan, persists, s) && t.stop == s.stop && (s.contextDone ==> t.contextDone)
    requires t.attempts == s.attempts && t.log == s.log + [e] && (e.Panicked? ==> s.stop.Some?)
    ensures Reasons(plan, persists, t)
  {
    Appended(plan, s.log, e);
    assert forall x :: x in t.log <==> x in s.log || x == e;
  }

  /** A record takes the place of one that did not run. */
  lemma ReasonsReplaced(plan: Plan, persists: bool, s: State, t: State, i: nat)
    requires Reasons(plan, persists, s) && i < |s.attempts| == |t.attempts| && !s.attempts[i].ran
    requires t.stop == s.stop && t.log == s.log && t.contextDone == s.contextDone
    requires forall j :: 0 <= j < |s.attempts| && j != i ==> t.attempts[j] == s.attempts[j]
    requires Disabled(t.attempts[i]) ==> s.stop.Some?
    ensures Reasons(plan, persists, t)
  {
    if s.stop == Some(LiveModelDisabled) {
      var j :| 0 <= j < |s.attempts| && Disabled(s.attempts[j]);
      assert Disabled(t.attempts[j]);
    }
  }

  lemma HaltReasons(plan: Plan, persists: bool, s: State, reason: StopReason)
    requires s.stop.Some? ==> Reasons(plan, persists, s)
    requires s.stop.None? ==>
               match reason
               case Canceled => s.contextDone
               case TokenLimit => !NeverCrossed(plan, s.log)
               case LiveModelDisabled => exists i :: 0 <= i < |s.attempts| && Disabled(s.attempts[i])
               case CallbackPanic => Panicked in s.log
               case StoreError => persists
    ensures Reasons(plan, persists, Halt(s, reason))
  {
    Appended(plan, s.log, Stopped(reason));
  }

  lemma ShownReasons(plan: Plan, persists: bool, s: State, r: Record, panics: bool)
    requires Reasons(plan, persists, s) && s.observing
    ensures Reasons(plan, persists, if panics then Halt(Disable(Show(s, r)), CallbackPanic) else Show(s, r))
  {
    var shown := Show(s, r);
    ReasonsStay(plan, persists, s, shown, Observed(r));
    if panics {
      var t := Disable(shown);
      if shown.stop.Some? { ReasonsStay(plan, persists, shown, t, Panicked); }
      assert t.log[|shown.log|] == Panicked;
      HaltReasons(plan, persists, t, CallbackPanic);
    }
  }

  lemma NotifiedReasons(plan: Plan, persists: bool, s: State, r: Record, broken: bool, panics: bool)
    requires Reasons(plan, persists, s) && (broken ==> persists)
    ensures Reasons(plan, persists, Notified(s, r, broken, panics))
  {
    if broken { HaltReasons(plan, persists, s, StoreError); }
    var persisted := if broken then Halt(s, StoreError) else s;
    if persisted.observing { ShownReasons(plan, persists, persisted, r, panics); }
  }

  /** Storing and deciding about a record that ran. */
  lemma DecidedReasons(plan: Plan, persists: bool, s: State, slot: nat, r: Record)
    requires Reasons(plan, persists, s) && s.tokens == Spent(s.log) && r.ran && r.notRun.None?
    requires slot < |s.running| && s.running[slot] == r.index < |s.attempts| && !s.attempts[r.index].ran
    ensures Reasons(plan, persists, Decided(plan, Store(s, slot, r), r))
  {
    var t := Store(s, slot, r);
    Appended(plan, s.log, Finished(r));
    if s.stop.Some? || !r.liveModelDisabled {
      var placed := s.(attempts := t.attempts);
      ReasonsReplaced(plan, persists, s, placed, r.index);
      ReasonsStay(plan, persists, placed, t, Finished(r));
    }
    var u := t;
    if r.liveModelDisabled {
      assert Disabled(t.attempts[r.index]);
      HaltReasons(plan, persists, t, LiveModelDisabled);
      u := Halt(t, LiveModelDisabled);
    }
    if u.stop.None? && plan.maxTokens > 0 && u.tokens >= plan.maxTokens {
      assert !NeverCrossed(plan, u.log) by { assert u.log[..|u.log|] == u.log; }
      HaltReasons(plan, persists, u, TokenLimit);
    }
  }

  /** Taking a record back keeps the reasons, whatever the store and the observer do. */
  lemma AcceptedReasons(plan: Plan, persists: bool, s: State, slot: nat, r: Record, broken: bool, panics: bool)
    requires Collecting(plan, s, false, None) && Reasons(plan, persists, s) && (broken ==> persists)
    requires slot < |s.running| && WorkerMayReturn(r, s.running[slot], s.contextDone) && r.index < |s.attempts|
    ensures Reasons(plan, persists, Accepted(plan, s, slot, r, broken, panics))
  {
    assert s.running[slot] in s.running;
    assert !s.attempts[r.index].ran;
    if r.ran {
      DecidedReasons(plan, persists, s, slot, r);
      NotifiedReasons(plan, persists, Decided(plan, Store(s, slot, r), r), r, broken, panics);
    } else {
      var placed := s.(attempts := s.attempts[r.index := r]);
      ReasonsReplaced(plan, persists, s, placed, r.index);
      ReasonsStay(plan, persists, placed, Store(s, slot, r), Finished(r));
    }
  }

  /** What accounting a record that ran decides: the first of the reasons, in this order. */
  lemma AcceptedDecides(plan: Plan, s: State, slot: nat, r: Record, broken: bool, panics: bool)
    requires slot < |s.running| && s.running[slot] == r.index < |s.attempts| && s.stop.None? && r.notRun.None?
    ensures var t := Accepted(plan, s, slot, r, broken, panics);
            && t.tokens == s.tokens + r.tokens + r.judgeTokens && t.attempts == s.attempts[r.index := r]
            && t.stop == if r.liveModelDisabled then Some(LiveModelDisabled)
                         else if 0 < plan.maxTokens <= t.tokens then Some(TokenLimit)
                         else if broken then Some(StoreError)
                         else if s.observing && panics then Some(CallbackPanic)
                         else None
  {
  }

  /** The run returns an error once anything but the token limit stops it, even when that
      is not the reason kept. */
  lemma AcceptedFails(plan: Plan, s: State, slot: nat, r: Record, broken: bool, panics: bool)
    requires slot < |s.running| && s.running[slot] == r.index < |s.attempts| && r.notRun.None?
    ensures Accepted(plan, s, slot, r, broken, panics).failed <==>
            s.failed || r.liveModelDisabled || broken || (s.observing && panics)
    ensures s.stop.Some? ==> Accepted(plan, s, slot, r, broken, panics).stop == s.stop
  {
  }

  // ---------------------------------------------------------------- the runner

  /** The collector and the report it owns. The environment chooses when the context
      ends, which job returns and with what, whether the store fails and whether the
      observer panics. */
  class Collector {
    const plan: Plan
    const persists: bool
    var attempts: seq<Record>
    var tokens: int
    var stop: Option<StopReason>
    const watched: bool
    var observing: bool
    var contextDone: bool
    var running: seq<nat>
    var failed: bool
    ghost var log: seq<Happening>

    ghost function Now(): State
      reads this
    {
      State(attempts, tokens, stop, watched, observing, contextDone, running, failed, log)
    }

    /** A blank record per planned attempt, scheduled by timeout. */
    constructor (timeouts: seq<nat>, concurrency: nat, maxTokens: nat, persists: bool, watched: bool)
      ensures this.plan == Plan(Sorted(timeouts, |timeouts|), if concurrency == 0 then 1 else concurrency, maxTokens)
      ensures |attempts| == |timeouts| && running == [] && log == [] && this.watched == watched
      ensures plan.concurrency > 0 && Distinct(plan.order) && forall i :: 0 <= i < |attempts| ==> i in plan.order
      ensures Collecting(plan, Now(), false, None) && Reasons(plan, persists, Now())
    {
      SortedIsSchedule(timeouts);
      this.plan := Plan(Sorted(timeouts, |timeouts|), if concurrency == 0 then 1 else concurrency, maxTokens);
      this.persists, this.watched, observing := persists, watched, watched;
      attempts := seq(|timeouts|, i requires 0 <= i < |timeouts| => Record(i, false, None, 0, 0, false));
      tokens, stop, contextDone, running, failed := 0, None, false, [], false;
      log := [];
      new;
      BlankSum(attempts);
    }

    /** Keeps the first reason for stopping. */
    method Stop(reason: StopReason)
      modifies this`stop, this`failed, this`log
      ensures Now() == Halt(old(Now()), reason)
    {
      if stop.None? {
        stop := Some(reason);
        log := log + [Stopped(reason)];
      }
      failed := failed || reason != TokenLimit;
    }

    /** The context may end at any time and stays ended. */
    method Wait()
      requires Collecting(plan, Now(), false, None) && Reasons(plan, persists, Now())
      modifies this`contextDone
      ensures old(contextDone) ==> contextDone
      ensures Collecting(plan, Now(), false, None) && Reasons(plan, persists, Now())
    {
      var ended: bool := *;
      contextDone := contextDone || ended;
    }

    /** Persists and shows one record; a panicking observer is disabled. */
    method Notify(r: Record) returns (broken: bool, panics: bool)
      modifies this`stop, this`failed, this`observing, this`log
      ensures Now() == Notified(old(Now()), r, broken, panics) && (broken ==> persists)
    {
      broken, panics := false, false;
      if persists {
        broken := *;
        if broken { Stop(StoreError); }
      }
      if !observing { return; }
      log := log + [Observed(r)];
      panics := *;
      if panics {
        observing, log := false, log + [Panicked];
        Stop(CallbackPanic);
      }
    }

    method Decide(r: Record)
      modifies this`stop, this`failed, this`log
      ensures Now() == Decided(plan, old(Now()), r)
    {
      if r.liveModelDisabled { Stop(LiveModelDisabled); }
      if stop.None? && plan.maxTokens > 0 && tokens >= plan.maxTokens { Stop(TokenLimit); }
    }

    /** Accounts one returned record before deciding whether more work may start. */
    method Accept(slot: nat, r: Record) returns (broken: bool, panics: bool)
      requires slot < |running| && running[slot] == r.index < |attempts|
      modifies this
      ensures Now() == Accepted(plan, old(Now()), slot, r, broken, panics) && (broken ==> persists)
    {
      broken, panics := false, false;
      ghost var stored := Store(Now(), slot, r);
      attempts := attempts[r.index := r];
      running := running[..slot] + running[slot + 1..];
      log := log + [Finished(r)];
      if r.notRun.Some? {
        assert Now() == stored;
        return;
      }
      tokens := tokens + (r.tokens + r.judgeTokens);
      assert Now() == stored;
      Decide(r);
      broken, panics := Notify(r);
    }

    /** Stopping while collecting. */
    method Halted(reason: StopReason)
      requires Collecting(plan, Now(), false, None) && Reasons(plan, persists, Now())
      requires (reason == Canceled && contextDone) || (reason == StoreError && persists)
      modifies this`stop, this`failed, this`log
      ensures Collecting(plan, Now(), false, None) && Reasons(plan, persists, Now()) && stop.Some?
      ensures Dispatches(log) == Dispatches(old(log)) && (old(stop).Some? ==> stop == old(stop))
    {
      HaltKeeps(plan, Now(), reason, false, None);
      HaltFrame(plan, Now(), reason);
      HaltReasons(plan, persists, Now(), reason);
      Stop(reason);
    }

    /** Hands the next scheduled job to an idle worker. */
    method Start(next: nat)
      requires Collecting(plan, Now(), false, None) && Reasons(plan, persists, Now()) && Distinct(plan.order)
      requires next == Dispatches(log) < |plan.order| && stop.None? && |running| < plan.concurrency
      modifies this`running, this`log
      ensures Collecting(plan, Now(), false, None) && Reasons(plan, persists, Now())
      ensures Dispatches(log) == next + 1 && |running| == old(|running|) + 1
    {
      ghost var s := Now();
      DispatchKeeps(plan, s);
      Appended(plan, log, Dispatched(plan.order[next]));
      ReasonsStay(plan, persists, s, Dispatch(s, plan.order[next]), Dispatched(plan.order[next]));
      running, log := running + [plan.order[next]], log + [Dispatched(plan.order[next])];
    }

    /** Takes back any job in flight with anything a worker may return for it. */
    method Receive()
      requires Collecting(plan, Now(), false, None) && Reasons(plan, persists, Now()) && |running| > 0
      modifies this
      ensures Collecting(plan, Now(), false, None) && Reasons(plan, persists, Now())
      ensures |attempts| == old(|attempts|) && |running| == old(|running|) - 1 && contextDone == old(contextDone)
      ensures Dispatches(log) == Dispatches(old(log))
      ensures old(stop).Some? ==> stop == old(stop)
    {
      var slot: nat :| slot < |running|;
      assert WorkerMayReturn(Record(running[slot], true, None, 0, 0, false), running[slot], contextDone);
      var r: Record :| WorkerMayReturn(r, running[slot], contextDone);
      RunningIsPlanned(plan, Now(), slot);
      assert WorkerMayReturn(r, running[slot], contextDone);
      assert r.index == running[slot];
      assert running[slot] < |attempts|;
      var broken, panics := Accept(slot, r);
      AcceptedKeeps(plan, old(Now()), slot, r, broken, panics);
      AcceptedFrame(plan, old(Now()), slot, r, broken, panics);
      AcceptedReasons(plan, persists, old(Now()), slot, r, broken, panics);
    }

    /** Notes an ended context, once. */
    method NoteCancellation(armed: bool) returns (still: bool)
      requires Collecting(plan, Now(), false, None) && Reasons(plan, persists, Now()) && (!armed ==> stop.Some?)
      modifies this`stop, this`failed, this`log, this`contextDone
      ensures Collecting(plan, Now(), false, None) && Reasons(plan, persists, Now()) && (!still ==> stop.Some?)
      ensures Dispatches(log) == Dispatches(old(log)) && (still ==> armed)
      ensures stop.None? ==> !contextDone
      ensures old(stop).Some? ==> stop == old(stop)
    {
      Wait();
      still := armed;
      if armed && contextDone {
        Halted(Canceled);
        still := false;
      }
    }

    /** The checks before each choice: cancellation and the store. */
    method Check(armed: bool) returns (still: bool)
      requires Collecting(plan, Now(), false, None) && Reasons(plan, persists, Now()) && (!armed ==> stop.Some?)
      modifies this`stop, this`failed, this`log, this`contextDone
      ensures Collecting(plan, Now(), false, None) && Reasons(plan, persists, Now()) && (!still ==> stop.Some?)
      ensures Dispatches(log) == Dispatches(old(log)) && (still ==> armed)
    {
      still := NoteCancellation(armed);
      var broken: bool := *;
      if persists && broken {
        Halted(StoreError);
      }
    }

    /** One choice among those that are open. While the loop has not ended some choice
        is, so the collector never blocks for good. */
    method Select(next: nat, inFlight: nat, armed: bool) returns (next': nat, inFlight': nat, still: bool)
      requires Collecting(plan, Now(), false, None) && Reasons(plan, persists, Now())
      requires plan.concurrency > 0 && Distinct(plan.order)
      requires next == Dispatches(log) <= |plan.order| && inFlight == |running| && (!armed ==> stop.Some?)
      requires inFlight > 0 || (stop.None? && next < |plan.order|)
      modifies this
      ensures Collecting(plan, Now(), false, None) && Reasons(plan, persists, Now()) && |attempts| == old(|attempts|)
      ensures next' == Dispatches(log) <= |plan.order| && inFlight' == |running| && (!still ==> stop.Some?)
      ensures 2 * (|plan.order| - next') + inFlight' + (if still then 1 else 0) <
              2 * (|plan.order| - next) + inFlight + (if armed then 1 else 0)
    {
      next', inFlight', still := next, inFlight, armed;
      var ready := stop.None? && next < |plan.order| && inFlight < plan.concurrency;
      Wait();
      if
      case armed && contextDone =>
        Halted(Canceled);
        still := false;
      case ready =>
        Start(next);
        next', inFlight' := next + 1, inFlight + 1;
      case inFlight > 0 =>
        Receive();
        inFlight' := inFlight - 1;
    }

    /** Dispatches, accepts and stops until nothing is in flight and nothing will
        start. It ends because every turn starts an attempt, takes one back or notes
        the cancellation. */
    method Collect()
      requires Collecting(plan, Now(), false, None) && Reasons(plan, persists, Now()) && running == [] && log == []
      requires plan.concurrency > 0 && Distinct(plan.order) && forall i :: 0 <= i < |attempts| ==> i in plan.order
      modifies this
      ensures |attempts| == old(|attempts|)
      ensures Finishing(plan, Now(), 0) && Reasons(plan, persists, Now())
    {
      var next, inFlight, armed := 0, 0, true;
      while next < |plan.order| || inFlight > 0
        invariant Collecting(plan, Now(), false, None) && Reasons(plan, persists, Now())
        invariant |attempts| == old(|attempts|)
        invariant next == Dispatches(log) <= |plan.order| && inFlight == |running|
        invariant !armed ==> stop.Some?
        decreases 2 * (|plan.order| - next) + inFlight + (if armed then 1 else 0)
      {
        armed := Check(armed);
        if stop.Some? && inFlight == 0 { break; }
        next, inFlight, armed := Select(next, inFlight, armed);
      }
      // A cancellation delivered by the final callback still counts.
      armed := NoteCancellation(armed);
      CollectedIsFinishing(plan, Now());
    }

    /** Gives one slot the stop reason unless it ran, and delivers it. */
    method FillSlot(n: nat)
      requires n < |attempts| && Finishing(plan, Now(), n) && Reasons(plan, persists, Now())
      modifies this
      ensures |attempts| == old(|attempts|) && Finishing(plan, Now(), n + 1) && Reasons(plan, persists, Now())
    {
      if attempts[n].ran {
        RanNeedsNothing(plan, Now(), n);
      } else {
        ghost var s := Now();
        attempts := attempts[n := attempts[n].(notRun := stop)];
        assert Now() == Skip(s, n);
        var broken, panics := Notify(attempts[n]);
        SkippedKeeps(plan, s, n, broken, panics);
        NotifiedFrame(plan, Skip(s, n), Skip(s, n).attempts[n], broken, panics);
        ReasonsReplaced(plan, persists, s, Skip(s, n), n);
        NotifiedReasons(plan, persists, Skip(s, n), Skip(s, n).attempts[n], broken, panics);
      }
    }

    /** Fills every slot. */
    method FillSkipped()
      requires Finishing(plan, Now(), 0) && Reasons(plan, persists, Now())
      modifies this
      ensures |attempts| == old(|attempts|)
      ensures Finishing(plan, Now(), |attempts|) && Reasons(plan, persists, Now())
    {
      var n := 0;
      while n < |attempts|
        invariant |attempts| == old(|attempts|)
        invariant 0 <= n <= |attempts| && Finishing(plan, Now(), n) && Reasons(plan, persists, Now())
      {
        FillSlot(n);
        n := n + 1;
      }
    }

    /** The whole run: every planned attempt ends with exactly one record, which ran
        with no skip reason or was skipped for the first stop reason; an observer that
        does not panic saw every final record; tokens are those of the attempts that
        ran; the reason to stop is true of the run, and a run without one had none; and
        the history is legal, so all that is proved of legal logs holds. */
    method RunPlan()
      requires Collecting(plan, Now(), false, None) && Reasons(plan, persists, Now()) && running == [] && log == []
      requires plan.concurrency > 0 && Distinct(plan.order) && forall i :: 0 <= i < |attempts| ==> i in plan.order
      modifies this
      ensures |attempts| == old(|attempts|)
      ensures forall i :: 0 <= i < |attempts| ==> attempts[i].index == i
      ensures forall i :: 0 <= i < |attempts| ==>
                if attempts[i].ran then attempts[i].notRun.None? && Finished(attempts[i]) in log
                else stop.Some? && attempts[i].notRun == stop
      ensures tokens == SumRan(attempts) == Spent(log)
      ensures Legal(plan, log) && stop == FirstStop(log) && Reasons(plan, persists, Now())
      ensures forall j :: 0 <= j < |log| && log[j].Observed? ==>
                log[j].record.index < |attempts| && attempts[log[j].record.index] == log[j].record
      ensures watched && Panicked !in log ==> forall i :: 0 <= i < |attempts| ==> Observed(attempts[i]) in log
      ensures (failed ==> stop.Some?) && (stop.Some? && stop != Some(TokenLimit) ==> failed)
    {
      Collect();
      FillSkipped();
    }
  }

  lemma {:induction false} BlankSum(attempts: seq<Record>)
    requires forall i :: 0 <= i < |attempts| ==> !attempts[i].ran
    ensures SumRan(attempts) == 0
  {
    if attempts != [] { BlankSum(attempts[..|attempts| - 1]); }
  }
}
