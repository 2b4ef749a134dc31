/** Under which planner step everything of a run ends up, and in which order. */
module TrajectoryPlaces {
  import opened Basics
  import opened TrajectoryRun
  import opened TrajectoryTree

  // ---------------------------------------------------------------- planner boundaries

  /** Event `k` is a planner boundary that decodes. */
  predicate IsBoundary(run: Run, k: nat) {
    k < |run.events| && run.events[k].PlannerStep? && run.events[k].boundary.Some?
  }

  /** The planner step before event `k`: that of the last boundary, or none yet. */
  function CurrentStep(run: Run, k: nat): int
    requires k <= |run.events|
  {
    if k == 0 then 0 else if IsBoundary(run, k - 1) then run.events[k - 1].boundary.value.step
      else CurrentStep(run, k - 1)
  }

  /** Boundary `k` reaches entry `j`. */
  predicate Reaches(run: Run, k: nat, j: nat)
    requires j < |run.entries|
  {
    IsBoundary(run, k) && run.entries[j].id <= run.events[k].boundary.value.end
  }

  /** One of the first `k` events reaches entry `j`. */
  ghost predicate Reached(run: Run, k: nat, j: nat)
    requires j < |run.entries|
  {
    exists m: nat :: m < k && Reaches(run, m, j)
  }

  /** The planner step that reads entry `j`: that of the first boundary that reaches it,
      or the last one of all when none does. */
  ghost predicate ReadBy(run: Run, j: nat, step: int)
    requires j < |run.entries|
  {
    || (exists k: nat :: Reaches(run, k, j) && !Reached(run, k, j) && step == run.events[k].boundary.value.step)
    || (!Reached(run, |run.events|, j) && step == CurrentStep(run, |run.events|))
  }

  /** The planner step of the model call `key`, the last one recorded under it. */
  ghost predicate MadeIn(run: Run, key: CallKey, step: int) {
    exists i :: 0 <= i < |run.calls| && run.calls[i].key == key && run.calls[i].step == step
                && forall j :: i < j < |run.calls| ==> run.calls[j].key != key
  }

  // ---------------------------------------------------------------- where steps belong

  /** Entry `j` is an assistant entry that calls `tool`. */
  predicate Asks(run: Run, j: nat, tool: ToolId)
    requires j < |run.entries|
  {
    run.entries[j].kind.Assistant?
    && exists r :: r in run.entries[j].kind.calls && r.Some? && r.value.id == tool
  }

  /** A tool call is under the step of the model call that produced its entry, or else
      under the one that reads it. */
  ghost predicate ToolPlaced(run: Run, j: nat, s: Step)
    requires j < |run.entries| && s.ToolStep?
  {
    && run.entries[j].id == s.entry && Asks(run, j, s.tool)
    && if run.entries[j].kind.call.Some? then MadeIn(run, run.entries[j].kind.call.value, s.step)
       else ReadBy(run, j, s.step)
  }

  /** An answer is under the planner step that reads it. */
  ghost predicate AnswerPlaced(run: Run, j: nat, s: Step)
    requires j < |run.entries| && s.AnswerStep?
  {
    run.entries[j].id == s.entry && run.entries[j].kind.Answer? && ReadBy(run, j, s.step)
  }

  /** Where a step belongs: a model call under its own step, an observation under its
      stamp or else the current step. */
  ghost predicate Placed(run: Run, s: Step) {
    match s
    case ModelStep(step, number, attempt) =>
      exists i :: 0 <= i < |run.calls| && run.calls[i].step == step
                  && run.calls[i].number == number && run.calls[i].attempt == attempt
    case ToolStep(_, _, _) => exists j :: 0 <= j < |run.entries| && ToolPlaced(run, j, s)
    case AnswerStep(_, _) => exists j :: 0 <= j < |run.entries| && AnswerPlaced(run, j, s)
    case EventStep(step, k) =>
      && k < |run.events| && run.events[k].Observed? && run.events[k].stamp.Some?
      && var stamp := run.events[k].stamp.value.step;
      step == if stamp.Some? then stamp.value else CurrentStep(run, k)
  }

  ghost predicate AllPlaced(run: Run, steps: seq<Step>) {
    forall i :: 0 <= i < |steps| ==> Placed(run, steps[i])
  }

  lemma PlacedConcat(run: Run, a: seq<Step>, b: seq<Step>)
    requires AllPlaced(run, a) && AllPlaced(run, b)
    ensures AllPlaced(run, a + b)
  {
  }

  lemma {:induction false} ModelsPlaced(run: Run, k: nat)
    requires k <= |run.calls|
    ensures AllPlaced(run, Models(run.calls, k))
  {
    if k > 0 {
      ModelsPlaced(run, k - 1);
      var s := ModelStep(run.calls[k - 1].step, run.calls[k - 1].number, run.calls[k - 1].attempt);
      assert Placed(run, s);
      PlacedConcat(run, Models(run.calls, k - 1), [s]);
    }
  }

  lemma {:induction false} CallStepsAreMade(calls: seq<ModelCall>, k: nat, key: CallKey) returns (i: nat)
    requires k <= |calls| && key in CallSteps(calls, k)
    ensures i < k && calls[i].key == key && calls[i].step == CallSteps(calls, k)[key]
    ensures forall j :: i < j < k ==> calls[j].key != key
  {
    if calls[k - 1].key == key {
      i := k - 1;
    } else {
      i := CallStepsAreMade(calls, k - 1, key);
    }
  }

  /** The tool calls of an entry carry the step they are given, and name its calls. */
  lemma {:induction false} CallStepsOfExactly(step: int, entry: int, calls: seq<Option<Request>>, k: nat, i: nat)
    requires k <= |calls| && i < |CallStepsOf(step, entry, calls, k)|
    ensures var s := CallStepsOf(step, entry, calls, k)[i];
            s.ToolStep? && s.step == step && s.entry == entry
            && exists r :: r in calls && r.Some? && r.value.id == s.tool
  {
    if calls[k - 1].None? {
      CallStepsOfExactly(step, entry, calls, k - 1, i);
    } else if i < |CallStepsOf(step, entry, calls, k - 1)| {
      CallStepsOfExactly(step, entry, calls, k - 1, i);
    } else {
      assert calls[k - 1] in calls;
    }
  }

  /** An entry's steps are placed when it is read by its own planner step. */
  lemma EntryPlaced(run: Run, j: nat, step: int)
    requires j < |run.entries| && ReadBy(run, j, step) && Readable(StepsOfCalls(run), run.entries[j].kind)
    ensures AllPlaced(run, StepsOf(StepsOfCalls(run), step, run.entries[j]))
  {
    var e := run.entries[j];
    var steps := StepsOf(StepsOfCalls(run), step, e);
    if e.kind.Assistant? {
      var producing := step;
      if e.kind.call.Some? {
        var i := CallStepsAreMade(run.calls, |run.calls|, e.kind.call.value);
        producing := run.calls[i].step;
        assert MadeIn(run, e.kind.call.value, producing);
      }
      forall i | 0 <= i < |steps|
        ensures Placed(run, steps[i])
      {
        CallStepsOfExactly(producing, e.id, e.kind.calls, |e.kind.calls|, i);
        assert ToolPlaced(run, j, steps[i]);
      }
    } else if e.kind.Answer? {
      assert AnswerPlaced(run, j, AnswerStep(step, e.id));
    }
  }

  /** The entries from `from` up to `upto` are read by planner step `step`. */
  lemma {:induction false} EntriesPlaced(run: Run, step: int, added: seq<Step>, from: nat, upto: nat)
    requires from <= upto <= |run.entries| && AllPlaced(run, added)
    requires forall j :: from <= j < upto ==> ReadBy(run, j, step)
    requires forall j :: from <= j < upto ==> Readable(StepsOfCalls(run), run.entries[j].kind)
    ensures AllPlaced(run, AddSteps(StepsOfCalls(run), step, run.entries, added, from, upto))
    decreases upto
  {
    if from < upto {
      EntriesPlaced(run, step, added, from, upto - 1);
      EntryPlaced(run, upto - 1, step);
      PlacedConcat(run, AddSteps(StepsOfCalls(run), step, run.entries, added, from, upto - 1),
                   StepsOf(StepsOfCalls(run), step, run.entries[upto - 1]));
    }
  }

  // ---------------------------------------------------------------- along the events

  /** The entries read after `k` events are those a boundary has reached. */
  ghost predicate ReadSoFar(run: Run, k: nat, position: nat) {
    position <= |run.entries| && forall j :: 0 <= j < |run.entries| ==> (j < position <==> Reached(run, k, j))
  }

  lemma {:induction false} ReachStops(entries: seq<Entry>, position: nat, last: int)
    requires AscendingIds(entries) && position <= |entries|
    ensures var upto := Reach(entries, position, last);
            forall j :: position <= j < |entries| ==> (j < upto <==> entries[j].id <= last)
    decreases |entries| - position
  {
    if position < |entries| && entries[position].id <= last { ReachStops(entries, position + 1, last); }
  }

  lemma ReachedNext(run: Run, k: nat, j: nat)
    requires k < |run.events| && j < |run.entries|
    ensures Reached(run, k + 1, j) <==> Reached(run, k, j) || Reaches(run, k, j)
  {
    if Reached(run, k, j) {
      var m: nat :| m < k && Reaches(run, m, j);
      assert m < k + 1;
    }
  }

  /** A boundary reads exactly the entries it reaches first. */
  lemma BoundaryReads(run: Run, k: nat, position: nat)
    requires AscendingIds(run.entries) && IsBoundary(run, k) && ReadSoFar(run, k, position)
    ensures var upto := Reach(run.entries, position, run.events[k].boundary.value.end);
            && ReadSoFar(run, k + 1, upto)
            && forall j :: position <= j < upto ==> ReadBy(run, j, run.events[k].boundary.value.step)
  {
    var end := run.events[k].boundary.value.end;
    var upto := Reach(run.entries, position, end);
    ReachStops(run.entries, position, end);
    var next := k + 1;
    forall j | 0 <= j < |run.entries|
      ensures j < upto <==> Reached(run, next, j)
    {
      ReachedNext(run, k, j);
      if position <= j { assert Reaches(run, k, j) <==> j < upto; }
    }
    forall j | position <= j < upto
      ensures ReadBy(run, j, run.events[k].boundary.value.step)
    {
      assert Reaches(run, k, j) && !Reached(run, k, j);
    }
  }

  lemma OtherReadsNothing(run: Run, k: nat, position: nat)
    requires k < |run.events| && !IsBoundary(run, k) && ReadSoFar(run, k, position)
    ensures ReadSoFar(run, k + 1, position)
  {
    var next := k + 1;
    forall j | 0 <= j < |run.entries|
      ensures j < position <==> Reached(run, next, j)
    {
      ReachedNext(run, k, j);
    }
  }

  /** Every entry that has been read could be. */
  lemma ReadableUpTo(run: Run, upto: nat)
    requires upto <= |run.entries| && AddEntries(StepsOfCalls(run), run.entries, upto).Some?
    ensures forall j :: 0 <= j < upto ==> Readable(StepsOfCalls(run), run.entries[j].kind)
  {
    JoinedIsReadable(StepsOfCalls(run), run.entries, upto);
  }

  lemma EventPlaced(run: Run, k: nat, c: Cursor, added: seq<Step>)
    requires AscendingIds(run.entries) && k < |run.events| && ReadSoFar(run, k, c.position)
             && c.step == CurrentStep(run, k)
    requires AllPlaced(run, added) && ReadEvent(run, c, run.events[k]).Some?
    ensures var d := ReadEvent(run, c, run.events[k]).value;
            && d.position <= |run.entries| && ReadSoFar(run, k + 1, d.position) && d.step == CurrentStep(run, k + 1)
            && AllPlaced(run, AddEvent(run, c, run.events[k], k, added))
  {
    if IsBoundary(run, k) {
      var b := run.events[k].boundary.value;
      var upto := Reach(run.entries, c.position, b.end);
      BoundaryReads(run, k, c.position);
      ReadableUpTo(run, upto);
      EntriesPlaced(run, b.step, added, c.position, upto);
    } else {
      OtherReadsNothing(run, k, c.position);
      if run.events[k].Observed? {
        var stamp := run.events[k].stamp.value.step;
        var s := EventStep(if stamp.Some? then stamp.value else c.step, k);
        assert Placed(run, s);
        PlacedConcat(run, added, [s]);
      }
    }
  }

  lemma {:induction false} EventsPlaced(run: Run, k: nat)
    requires AscendingIds(run.entries) && k <= |run.events| && ReadEvents(run, k).Some?
    ensures var c := ReadEvents(run, k).value;
            ReadSoFar(run, k, c.position) && c.step == CurrentStep(run, k) && AllPlaced(run, Added(run, k))
  {
    if k == 0 {
      ModelsPlaced(run, |run.calls|);
    } else {
      EventsPlaced(run, k - 1);
      EventPlaced(run, k - 1, ReadEvents(run, k - 1).value, Added(run, k - 1));
    }
  }

  lemma TailPlaced(run: Run, c: Cursor, added: seq<Step>)
    requires AscendingIds(run.entries) && ReadSoFar(run, |run.events|, c.position)
             && c.step == CurrentStep(run, |run.events|)
    requires AllPlaced(run, added) && AddEntries(StepsOfCalls(run), run.entries, |run.entries|).Some?
    ensures AllPlaced(run, WithTail(run, c, added))
  {
    if run.entries != [] {
      ReachesEnd(run.entries, c.position);
      ReadableUpTo(run, |run.entries|);
      assert forall j :: c.position <= j < |run.entries| ==> !Reached(run, |run.events|, j);
      EntriesPlaced(run, c.step, added, c.position, |run.entries|);
    }
  }

  /** In a run that is read, every step is where it belongs: model calls under their own
      step, tool calls under the step of the model call that made them, other entries
      under the step that reads them, observations under their stamp or the current
      step. */
  lemma EveryStepIsPlaced(run: Run, s: Step)
    requires AscendingIds(run.entries) && ReadRun(run).Some? && s in AllAdded(run)
    ensures Placed(run, s)
  {
    var n := |run.events|;
    EventsPlaced(run, n);
    ReadExactly(run);
    TailPlaced(run, ReadEvents(run, n).value, Added(run, n));
    var i :| 0 <= i < |AllAdded(run)| && AllAdded(run)[i] == s;
  }

  // ---------------------------------------------------------------- everything, once

  /** The steps of one kind: model calls, entries, observations. */
  function Rank(s: Step): nat {
    match s
    case ModelStep(_, _, _) => 0
    case ToolStep(_, _, _) => 1
    case AnswerStep(_, _) => 1
    case EventStep(_, _) => 2
  }

  function OfRank(steps: seq<Step>, rank: nat): seq<Step> {
    if steps == [] then []
    else OfRank(steps[..|steps| - 1], rank) + if Rank(steps[|steps| - 1]) == rank then [steps[|steps| - 1]] else []
  }

  lemma {:induction false} OfRankConcat(a: seq<Step>, b: seq<Step>, rank: nat)
    ensures OfRank(a + b, rank) == OfRank(a, rank) + OfRank(b, rank)
  {
    if b == [] {
      assert a + b == a;
    } else {
      OfRankConcat(a, b[..|b| - 1], rank);
      assert (a + b)[..|a + b| - 1] == a + b[..|b| - 1];
    }
  }

  lemma {:induction false} OfOneRank(steps: seq<Step>, rank: nat)
    requires forall i :: 0 <= i < |steps| ==> Rank(steps[i]) == rank
    ensures OfRank(steps, rank) == steps && forall other :: other != rank ==> OfRank(steps, other) == []
  {
    if steps != [] {
      OfOneRank(steps[..|steps| - 1], rank);
      assert steps == steps[..|steps| - 1] + [steps[|steps| - 1]];
    }
  }

  /** The observed events among the first `k`, in order. */
  function ObservedUpTo(run: Run, k: nat): seq<nat>
    requires k <= |run.events|
  {
    if k == 0 then [] else ObservedUpTo(run, k - 1) + if run.events[k - 1].Observed? then [k - 1] else []
  }

  function EventNumbers(steps: seq<Step>): seq<nat>
    requires forall i :: 0 <= i < |steps| ==> steps[i].EventStep?
  {
    if steps == [] then [] else EventNumbers(steps[..|steps| - 1]) + [steps[|steps| - 1].event]
  }

  lemma {:induction false} EntriesHaveRankOne(callSteps: map<CallKey, int>, step: int, entries: seq<Entry>,
      added: seq<Step>,
      from: nat, upto: nat)
    requires from <= upto <= |entries|
    ensures var more := AddSteps(callSteps, step, entries, added, from, upto);
            OfRank(more, 0) == OfRank(added, 0) && OfRank(more, 2) == OfRank(added, 2)
    decreases upto
  {
    if from < upto {
      EntriesHaveRankOne(callSteps, step, entries, added, from, upto - 1);
      EntryHasRankOne(callSteps, step, entries[upto - 1]);
      RankOneAppended(AddSteps(callSteps, step, entries, added, from, upto - 1),
        StepsOf(callSteps, step, entries[upto - 1]));
    }
  }

  lemma RankOneAppended(a: seq<Step>, b: seq<Step>)
    requires forall i :: 0 <= i < |b| ==> Rank(b[i]) == 1
    ensures OfRank(a + b, 0) == OfRank(a, 0) && OfRank(a + b, 2) == OfRank(a, 2)
  {
    OfOneRank(b, 1);
    OfRankConcat(a, b, 0);
    OfRankConcat(a, b, 2);
  }

  lemma EntryHasRankOne(callSteps: map<CallKey, int>, step: int, e: Entry)
    ensures forall i :: 0 <= i < |StepsOf(callSteps, step, e)| ==> Rank(StepsOf(callSteps, step, e)[i]) == 1
  {
    if e.kind.Assistant? {
      var producing :=
        if e.kind.call.Some? && e.kind.call.value in callSteps then callSteps[e.kind.call.value] else step;
      forall i | 0 <= i < |StepsOf(callSteps, step, e)|
        ensures Rank(StepsOf(callSteps, step, e)[i]) == 1
      {
        CallStepsOfExactly(producing, e.id, e.kind.calls, |e.kind.calls|, i);
      }
    }
  }

  lemma EventNumbersSnoc(steps: seq<Step>, s: Step)
    requires s.EventStep? && forall i :: 0 <= i < |steps| ==> steps[i].EventStep?
    ensures EventNumbers(steps + [s]) == EventNumbers(steps) + [s.event]
  {
    assert (steps + [s])[..|steps|] == steps;
  }

  /** The model calls are all there, in order, and no observation yet. */
  lemma {:induction false} ModelsHaveRankZero(calls: seq<ModelCall>, k: nat)
    requires k <= |calls|
    ensures |Models(calls, k)| == k
    ensures forall i :: 0 <= i < k ==>
              Models(calls, k)[i] == ModelStep(calls[i].step, calls[i].number, calls[i].attempt)
  {
    if k > 0 { ModelsHaveRankZero(calls, k - 1); }
  }

  ghost predicate KindsKept(run: Run, k: nat, steps: seq<Step>)
    requires k <= |run.events|
  {
    && OfRank(steps, 0) == Models(run.calls, |run.calls|)
    && (forall i :: 0 <= i < |OfRank(steps, 2)| ==> OfRank(steps, 2)[i].EventStep?)
    && EventNumbers(OfRank(steps, 2)) == ObservedUpTo(run, k)
  }

  lemma EventKeepsKinds(run: Run, k: nat, c: Cursor, added: seq<Step>)
    requires k < |run.events| && c.position <= |run.entries| && ReadEvent(run, c, run.events[k]).Some?
    requires KindsKept(run, k, added)
    ensures KindsKept(run, k + 1, AddEvent(run, c, run.events[k], k, added))
  {
    if IsBoundary(run, k) {
      var b := run.events[k].boundary.value;
      EntriesHaveRankOne(StepsOfCalls(run), b.step, run.entries, added, c.position,
        Reach(run.entries, c.position, b.end));
    } else if run.events[k].Observed? {
      var stamp := run.events[k].stamp.value.step;
      var s := EventStep(if stamp.Some? then stamp.value else c.step, k);
      assert (added + [s])[..|added|] == added;
      EventNumbersSnoc(OfRank(added, 2), s);
    }
  }

  lemma {:induction false} EventsKeepKinds(run: Run, k: nat)
    requires k <= |run.events| && ReadEvents(run, k).Some?
    ensures KindsKept(run, k, Added(run, k))
  {
    if k == 0 {
      ModelsHaveRankZero(run.calls, |run.calls|);
      OfOneRank(Models(run.calls, |run.calls|), 0);
    } else {
      EventsKeepKinds(run, k - 1);
      EventKeepsKinds(run, k - 1, ReadEvents(run, k - 1).value, Added(run, k - 1));
    }
  }

  /** A run that is read shows every model call and every observed event exactly once and
      in order; its entries do by `EveryEntryOnce`. */
  lemma EveryCallAndEventOnce(run: Run)
    requires ReadEvents(run, |run.events|).Some?
    ensures KindsKept(run, |run.events|, AllAdded(run))
  {
    EventsKeepKinds(run, |run.events|);
    var c, added := ReadEvents(run, |run.events|).value, Added(run, |run.events|);
    if run.entries != [] {
      EntriesHaveRankOne(StepsOfCalls(run), c.step, run.entries, added, c.position,
                         Reach(run.entries, c.position, run.entries[|run.entries| - 1].id));
    }
  }

  // ---------------------------------------------------------------- the final order

  /** The steps of one kind under planner step `n`, in order. */
  function Only(steps: seq<Step>, n: int, rank: nat): seq<Step> {
    if steps == [] then []
    else
      var rest, last := Only(steps[..|steps| - 1], n, rank), steps[|steps| - 1];
      if last.step == n && Rank(last) == rank then rest + [last] else rest
  }

  lemma {:induction false} OnlyConcat(a: seq<Step>, b: seq<Step>, n: int, rank: nat)
    ensures Only(a + b, n, rank) == Only(a, n, rank) + Only(b, n, rank)
  {
    if b == [] {
      assert a + b == a;
    } else {
      OnlyConcat(a, b[..|b| - 1], n, rank);
      assert (a + b)[..|a + b| - 1] == a + b[..|b| - 1];
    }
  }

  predicate Uniform(steps: seq<Step>, n: int, rank: nat) {
    forall i :: 0 <= i < |steps| ==> steps[i].step == n && Rank(steps[i]) == rank
  }

  lemma {:induction false} OnlyIsUniform(steps: seq<Step>, n: int, rank: nat)
    ensures Uniform(Only(steps, n, rank), n, rank)
  {
    if steps != [] { OnlyIsUniform(steps[..|steps| - 1], n, rank); }
  }

  lemma {:induction false} OnlyOfUniform(steps: seq<Step>, m: int, had: nat, n: int, rank: nat)
    requires Uniform(steps, m, had)
    ensures Only(steps, n, rank) == if m == n && had == rank then steps else []
  {
    if steps != [] {
      OnlyOfUniform(steps[..|steps| - 1], m, had, n, rank);
      assert steps == steps[..|steps| - 1] + [steps[|steps| - 1]];
    }
  }

  /** A group holds the steps of its number, each kind in the order found. */
  ghost predicate Holds(g: Group, steps: seq<Step>, n: int) {
    g.models == Only(steps, n, 0) && g.entries == Only(steps, n, 1) && g.events == Only(steps, n, 2)
  }

  lemma {:induction false} GroupsHold(steps: seq<Step>, n: int)
    ensures Holds(GroupOf(PutAll(map[], steps), n), steps, n)
  {
    if steps != [] { GroupsHold(steps[..|steps| - 1], n); }
  }

  lemma {:induction false} SortedIsUniform(calls: seq<Step>, n: int)
    requires Uniform(calls, n, 0)
    ensures Uniform(SortCalls(calls), n, 0)
  {
    if calls != [] {
      var rest, last := calls[..|calls| - 1], calls[|calls| - 1];
      SortedIsUniform(rest, n);
      InsertCallMembers(SortCalls(rest), last);
    }
  }

  /** Three kinds one after the other. */
  lemma KindsApart(models: seq<Step>, entries: seq<Step>, events: seq<Step>, m: int, n: int, rank: nat)
    requires Uniform(models, m, 0) && Uniform(entries, m, 1) && Uniform(events, m, 2)
    ensures Only(models + entries + events, n, rank) ==
            if m != n then [] else if rank == 0 then models else if rank == 1 then entries
            else if rank == 2 then events else []
  {
    OnlyConcat(models + entries, events, n, rank);
    OnlyConcat(models, entries, n, rank);
    OnlyOfUniform(models, m, 0, n, rank);
    OnlyOfUniform(entries, m, 1, n, rank);
    OnlyOfUniform(events, m, 2, n, rank);
  }

  /** What planner step `n` shows of one kind when it was found in `added`. */
  function Sorted(added: seq<Step>, n: int, rank: nat): seq<Step> {
    if rank == 0 then SortCalls(Only(added, n, 0)) else Only(added, n, rank)
  }

  /** A planner step's segment: its model calls sorted, then its entries, then its
      observations, both as they were found. */
  lemma SegmentHolds(added: seq<Step>, m: int, n: int, rank: nat)
    ensures Only(Segment(GroupOf(PutAll(map[], added), m)), n, rank) == if m != n then [] else Sorted(added, n, rank)
  {
    var g := GroupOf(PutAll(map[], added), m);
    GroupsHold(added, m);
    OnlyIsUniform(added, m, 0);
    OnlyIsUniform(added, m, 1);
    OnlyIsUniform(added, m, 2);
    SortedIsUniform(g.models, m);
    KindsApart(SortCalls(g.models), g.entries, g.events, m, n, rank);
    NoOtherRank(added, n, rank);
  }

  lemma {:induction false} NoOtherRank(steps: seq<Step>, n: int, rank: nat)
    ensures rank > 2 ==> Only(steps, n, rank) == []
  {
    if steps != [] { NoOtherRank(steps[..|steps| - 1], n, rank); }
  }

  lemma FlattenAdds(groups: map<int, Group>, keys: seq<int>, k: nat, n: int, rank: nat)
    requires k < |keys|
    ensures Only(FlattenKeys(groups, keys, k + 1), n, rank) ==
            Only(FlattenKeys(groups, keys, k), n, rank) + Only(Segment(GroupOf(groups, keys[k])), n, rank)
  {
    OnlyConcat(FlattenKeys(groups, keys, k), Segment(GroupOf(groups, keys[k])), n, rank);
  }

  /** Parts that are empty but for one number, strung together, are that number's part. */
  lemma {:induction false} OnePart(shown: seq<seq<Step>>, keys: seq<int>, n: int, part: seq<Step>, k: nat)
    requires |shown| == |keys| + 1 && shown[0] == [] && Increasing(keys) && k <= |keys|
    requires forall i :: 0 <= i < |keys| ==> shown[i + 1] == shown[i] + if keys[i] == n then part else []
    ensures shown[k] == if Occurs(keys, k, n) then part else []
  {
    if k > 0 {
      OnePart(shown, keys, n, part, k - 1);
      OccursSnoc(keys, k, n);
      assert shown[(k - 1) + 1] == shown[k - 1] + if keys[k - 1] == n then part else [];
    }
  }

  lemma FlattenNext(added: seq<Step>, keys: seq<int>, k: nat, n: int, rank: nat)
    requires k < |keys|
    ensures var groups := PutAll(map[], added);
            Only(FlattenKeys(groups, keys, k + 1), n, rank) ==
            Only(FlattenKeys(groups, keys, k), n, rank) + if keys[k] == n then Sorted(added, n, rank) else []
  {
    SegmentHolds(added, keys[k], n, rank);
    FlattenAdds(PutAll(map[], added), keys, k, n, rank);
  }

  /** What the first segments show, one after the other. */
  lemma {:induction false} PartsShown(added: seq<Step>, keys: seq<int>, k: nat, n: int, rank: nat)
      returns (shown: seq<seq<Step>>)
    requires k <= |keys|
    ensures |shown| == k + 1 && shown[0] == []
    ensures shown[k] == Only(FlattenKeys(PutAll(map[], added), keys, k), n, rank)
    ensures forall i :: 0 <= i < k ==> shown[i + 1] == shown[i] + if keys[i] == n then Sorted(added, n, rank) else []
  {
    if k == 0 {
      shown := [[]];
    } else {
      var before := PartsShown(added, keys, k - 1, n, rank);
      FlattenNext(added, keys, k - 1, n, rank);
      shown := before + [before[k - 1] + if keys[k - 1] == n then Sorted(added, n, rank) else []];
    }
  }

  lemma FlattenHolds(added: seq<Step>, keys: seq<int>, n: int, rank: nat)
    requires Increasing(keys)
    ensures Only(FlattenKeys(PutAll(map[], added), keys, |keys|), n, rank) ==
            if n in keys then Sorted(added, n, rank) else []
  {
    var shown := PartsShown(added, keys, |keys|, n, rank);
    OnePart(shown, keys, n, Sorted(added, n, rank), |keys|);
    assert Occurs(keys, |keys|, n) <==> n in keys;
  }

  lemma {:induction false} AbsentNumber(added: seq<Step>, n: int, rank: nat)
    requires n !in PutAll(map[], added)
    ensures Only(added, n, rank) == []
  {
    if added != [] { AbsentNumber(added[..|added| - 1], n, rank); }
  }

  /** In the final order, the entries and the observations of every planner step are those
      found, as they were found, and its model calls are those found, sorted. */
  lemma FlatHolds(added: seq<Step>, n: int)
    ensures Only(Flat(added), n, 0) == SortCalls(Only(added, n, 0))
    ensures Only(Flat(added), n, 1) == Only(added, n, 1)
    ensures Only(Flat(added), n, 2) == Only(added, n, 2)
  {
    var keys := Numbers(added);
    NumbersExactly(added);
    FlattenHolds(added, keys, n, 0);
    FlattenHolds(added, keys, n, 1);
    FlattenHolds(added, keys, n, 2);
    if n !in keys {
      AbsentNumber(added, n, 0);
      AbsentNumber(added, n, 1);
      AbsentNumber(added, n, 2);
    }
  }

  /** Model calls before entries before observations, planner step by planner step. */
  predicate Ranked(steps: seq<Step>) {
    forall i, j :: 0 <= i < j < |steps| ==>
      steps[i].step < steps[j].step || (steps[i].step == steps[j].step && Rank(steps[i]) <= Rank(steps[j]))
  }

  lemma SegmentIsRanked(added: seq<Step>, n: int)
    ensures var segment := Segment(GroupOf(PutAll(map[], added), n)); Ranked(segment) && AllUnder(segment, n)
  {
    var g := GroupOf(PutAll(map[], added), n);
    GroupsHold(added, n);
    OnlyIsUniform(added, n, 0);
    OnlyIsUniform(added, n, 1);
    OnlyIsUniform(added, n, 2);
    SortedIsUniform(g.models, n);
  }

  lemma {:induction false} FlattenRanks(added: seq<Step>, keys: seq<int>, k: nat)
    requires k <= |keys| && Increasing(keys)
    ensures var flat := FlattenKeys(PutAll(map[], added), keys, k);
            Ranked(flat) && (k > 0 ==> NoneAbove(flat, keys[k - 1]))
  {
    if k > 0 {
      FlattenRanks(added, keys, k - 1);
      SegmentIsRanked(added, keys[k - 1]);
      if k > 1 { Widen(FlattenKeys(PutAll(map[], added), keys, k - 1), keys[k - 2], keys[k - 1] - 1); }
    }
  }

  lemma FlatIsRanked(added: seq<Step>)
    ensures Ranked(Flat(added))
  {
    NumbersExactly(added);
    FlattenRanks(added, Numbers(added), |Numbers(added)|);
  }

  // ---------------------------------------------------------------- child links

  /** How many of the first `k` events link a child. */
  function LinksBefore(events: seq<Event>, k: nat): nat
    requires k <= |events|
  {
    if k == 0 then 0 else LinksBefore(events, k - 1) + if events[k - 1].ChildRunLinked? then 1 else 0
  }

  /** The links are those of the linking events, in their order, if all decode. */
  lemma {:induction false} LinksExactly(events: seq<Event>, k: nat)
    requires k <= |events|
    ensures Links(events, k).Some? <==>
            forall i :: 0 <= i < k && events[i].ChildRunLinked? ==> events[i].link.Some?
    ensures Links(events, k).Some? ==>
              && |Links(events, k).value| == LinksBefore(events, k)
              && forall i :: 0 <= i < k && events[i].ChildRunLinked? ==>
                   LinksBefore(events, i) < LinksBefore(events, k)
                   && Links(events, k).value[LinksBefore(events, i)] == events[i].link.value
  {
    if k > 0 { LinksExactly(events, k - 1); }
  }

  /** What is built for a run: its steps in their final order, the ledger of its calls and
      results, and the tree of every child it links, in link order. */
  lemma BuiltExactly(record: map<RunId, Run>, active: set<RunId>, id: RunId, t: Trajectory)
    requires Build(WorldOf(record), active, id) == Some(t)
    requires id in record ==> AscendingIds(record[id].entries)
    ensures id in record && record[id].isSealed && t.run == id && t.steps == Flat(AllAdded(record[id]))
    ensures Reflects(t.ledger, Items(record[id].entries, |record[id].entries|))
    ensures Links(record[id].events, |record[id].events|).Some?
    ensures var links := Links(record[id].events, |record[id].events|).value;
            && |t.children| == |links|
            && forall i :: 0 <= i < |links| ==>
              t.children[i].tool == links[i].tool && t.children[i].child.run == links[i].child
  {
    BuildsExactly(record, active, id, t);
    ReadExactly(record[id]);
    JoinsExactly(StepsOfCalls(record[id]), record[id].entries);
  }
}
