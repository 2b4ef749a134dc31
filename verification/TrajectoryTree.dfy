/** Trajectories of linked runs: recursion over child links that may be cyclic. */
module TrajectoryTree {
  import opened Basics
  import opened TrajectoryRun

  /** A run's ordered steps, its joined tool calls, and the runs its calls started, in
      link order. */
  datatype Trajectory = Trajectory(run: RunId, steps: seq<Step>, ledger: Ledger, children: seq<Linked>)
  datatype Linked = Linked(tool: ToolId, child: Trajectory)

  // ---------------------------------------------------------------- the order of step numbers

  function InsertNumber(keys: seq<int>, n: int): seq<int> {
    if keys == [] || keys[|keys| - 1] < n then keys + [n]
    else if keys[|keys| - 1] == n then keys
    else InsertNumber(keys[..|keys| - 1], n) + [keys[|keys| - 1]]
  }

  /** The planner steps that occur, ascending. */
  function Numbers(steps: seq<Step>): seq<int> {
    if steps == [] then [] else InsertNumber(Numbers(steps[..|steps| - 1]), steps[|steps| - 1].step)
  }

  lemma {:induction false} InsertNumberKeeps(keys: seq<int>, n: int)
    requires Increasing(keys)
    ensures Increasing(InsertNumber(keys, n)) && forall m :: m in InsertNumber(keys, n) <==> m in keys || m == n
  {
    if keys != [] && keys[|keys| - 1] > n {
      var rest, last := keys[..|keys| - 1], keys[|keys| - 1];
      InsertNumberKeeps(rest, n);
      var r := InsertNumber(rest, n);
      assert keys == rest + [last];
      forall i | 0 <= i < |r|
        ensures r[i] < last
      {
        assert r[i] in r;
      }
    }
  }

  lemma {:induction false} NumbersExactly(steps: seq<Step>)
    ensures Increasing(Numbers(steps)) && forall n :: n in Numbers(steps) <==> n in PutAll(map[], steps)
  {
    if steps != [] {
      NumbersExactly(steps[..|steps| - 1]);
      InsertNumberKeeps(Numbers(steps[..|steps| - 1]), steps[|steps| - 1].step);
    }
  }

  lemma FirstIsIn(t: seq<int>)
    requires t != []
    ensures t[0] in t
  {
  }

  lemma {:induction false} IncreasingIsUnique(s: seq<int>, t: seq<int>)
    requires Increasing(s) && Increasing(t) && forall n :: n in s <==> n in t
    ensures s == t
  {
    if s == [] {
      if t != [] {
        FirstIsIn(t);
        assert false;
      }
    } else {
      assert s[|s| - 1] in s;
      assert t != [];
      assert t[|t| - 1] in t;
      var p, q := s[..|s| - 1], t[..|t| - 1];
      assert s == p + [s[|s| - 1]] && t == q + [t[|t| - 1]];
      assert s[|s| - 1] == t[|t| - 1];
      forall n
        ensures n in p <==> n in q
      {
        assert n in p <==> n in s && n != s[|s| - 1];
        assert n in q <==> n in t && n != t[|t| - 1];
      }
      IncreasingIsUnique(p, q);
    }
  }

  /** The steps of a run in their final order. */
  function Flat(added: seq<Step>): seq<Step> {
    FlattenKeys(PutAll(map[], added), Numbers(added), |Numbers(added)|)
  }

  /** Flattening keeps every step as often as it was put and orders by planner step. */
  lemma FlatExactly(added: seq<Step>, x: Step)
    ensures Nondecreasing(Flat(added)) && Count(Flat(added), x) == Count(added, x)
  {
    NumbersExactly(added);
    FlattenExactly(added, Numbers(added), x);
  }

  // ---------------------------------------------------------------- one run

  /** What a run alone contributes; `None` when it is missing, unsealed or unreadable. */
  function Alone(record: map<RunId, Run>, id: RunId): Option<Trajectory> {
    if id !in record || !record[id].isSealed then None
    else
      var c := ReadRun(record[id]);
      var ledger := if c.Some? && c.value.position <= |record[id].entries|
                    then AddEntries(StepsOfCalls(record[id]), record[id].entries, c.value.position) else None;
      if ledger.None? then None else Some(Trajectory(id, Flat(AllAdded(record[id])), ledger.value, []))
  }

  /** The child links among the first `k` events. */
  function Links(events: seq<Event>, k: nat): Option<seq<Link>>
    requires k <= |events|
  {
    if k == 0 then Some([])
    else
      var before := Links(events, k - 1);
      if before.None? then None
      else if !events[k - 1].ChildRunLinked? then before
      else if events[k - 1].link.None? then None
      else Some(before.value + [events[k - 1].link.value])
  }

  // ---------------------------------------------------------------- the tree a record describes

  /** The runs there are, what each contributes alone, and which runs each links. */
  datatype World = World(ids: set<RunId>, alone: RunId -> Option<Trajectory>, links: RunId -> Option<seq<Link>>)

  function WorldOf(record: map<RunId, Run>): World {
    World(record.Keys, id => Alone(record, id),
          id => if id in record then Links(record[id].events, |record[id].events|) else None)
  }

  /** `t` is the unfolding of the record from its root: each node is a sealed readable
      run, and its children are exactly the runs it links, each at one of its calls. */
  ghost predicate Unfolds(w: World, t: Trajectory)
    decreases t
  {
    && t.run in w.ids && w.alone(t.run) == Some(t.(children := []))
    && w.links(t.run).Some?
    && |t.children| == |w.links(t.run).value|
    && forall i :: 0 <= i < |t.children| ==>
         && t.children[i].tool == w.links(t.run).value[i].tool
         && t.children[i].tool in t.ledger.names
         && t.children[i].child.run == w.links(t.run).value[i].child
         && Unfolds(w, t.children[i].child)
  }

  /** No run occurs below itself or below a run in `above`. */
  ghost predicate Acyclic(t: Trajectory, above: set<RunId>)
    decreases t
  {
    t.run !in above && forall i :: 0 <= i < |t.children| ==> Acyclic(t.children[i].child, above + {t.run})
  }

  // ---------------------------------------------------------------- building

  /** The code's recursion; `active` are the runs being built above this one. */
  function Build(w: World, active: set<RunId>, id: RunId): Option<Trajectory>
    decreases w.ids - active, 0
  {
    if id !in w.ids || id in active || w.alone(id).None? || w.links(id).None? then None
    else
      var t := w.alone(id).value;
      var children := BuildChildren(w, active + {id}, t.ledger, w.links(id).value);
      if children.None? then None else Some(t.(children := children.value))
  }

  function BuildChildren(w: World, active: set<RunId>, ledger: Ledger, links: seq<Link>): Option<seq<Linked>>
    decreases w.ids - active, |links|
  {
    if links == [] then Some([])
    else
      var before := BuildChildren(w, active, ledger, links[..|links| - 1]);
      var link := links[|links| - 1];
      if before.None? then None
      else
        var child := Build(w, active, link.child);
        if child.None? || link.tool !in ledger.names then None
        else Some(before.value + [Linked(link.tool, child.value)])
  }

  lemma NextChild(w: World, active: set<RunId>, ledger: Ledger, links: seq<Link>, link: Link)
    ensures BuildChildren(w, active, ledger, links + [link]) ==
            (var built := BuildChildren(w, active, ledger, links);
             if built.None? || Build(w, active, link.child).None? || link.tool !in ledger.names then None
             else Some(built.value + [Linked(link.tool, Build(w, active, link.child).value)]))
  {
    assert (links + [link])[..|links|] == links;
  }

  ghost predicate ChildOf(w: World, active: set<RunId>, ledger: Ledger, link: Link, c: Linked) {
    && c.tool == link.tool && c.tool in ledger.names && c.child.run == link.child
    && Unfolds(w, c.child) && Acyclic(c.child, active)
  }

  /** The children a list of links demands. */
  ghost predicate Children(w: World, active: set<RunId>, ledger: Ledger, links: seq<Link>, children: seq<Linked>) {
    |children| == |links| && forall i :: 0 <= i < |links| ==> ChildOf(w, active, ledger, links[i], children[i])
  }

  lemma ChildrenSnoc(w: World, active: set<RunId>, ledger: Ledger, links: seq<Link>, link: Link, before: seq<Linked>,
      c: Linked)
    requires Children(w, active, ledger, links, before) && ChildOf(w, active, ledger, link, c)
    ensures Children(w, active, ledger, links + [link], before + [c])
  {
    var more, all := links + [link], before + [c];
    forall i | 0 <= i < |more|
      ensures ChildOf(w, active, ledger, more[i], all[i])
    {
      if i < |links| { assert more[i] == links[i] && all[i] == before[i]; }
    }
  }

  lemma ChildrenPrefix(w: World, active: set<RunId>, ledger: Ledger, links: seq<Link>, children: seq<Linked>)
    requires links != [] && Children(w, active, ledger, links, children)
    ensures Children(w, active, ledger, links[..|links| - 1], children[..|children| - 1])
    ensures ChildOf(w, active, ledger, links[|links| - 1], children[|children| - 1])
  {
  }

  /** A node over demanded children is an acyclic unfolding, and conversely. */
  lemma NodeExactly(w: World, active: set<RunId>, t: Trajectory)
    requires t.run in w.ids && w.alone(t.run) == Some(t.(children := [])) && w.links(t.run).Some? && t.run !in active
    ensures Unfolds(w, t) && Acyclic(t, active) <==>
            Children(w, active + {t.run}, t.ledger, w.links(t.run).value, t.children)
  {
    var above := active + {t.run};
    if Children(w, above, t.ledger, w.links(t.run).value, t.children) {
      forall i | 0 <= i < |t.children|
        ensures Unfolds(w, t.children[i].child) && Acyclic(t.children[i].child, above)
      {
        assert ChildOf(w, above, t.ledger, w.links(t.run).value[i], t.children[i]);
      }
    }
  }

  lemma {:induction false} BuildIsUnfolding(w: World, active: set<RunId>, id: RunId)
    requires Build(w, active, id).Some?
    requires w.alone(id).Some? ==> w.alone(id).value.run == id && w.alone(id).value.children == []
    requires Proper(w)
    ensures var t := Build(w, active, id).value; t.run == id && Unfolds(w, t) && Acyclic(t, active)
    decreases w.ids - active, 0
  {
    var t := Build(w, active, id).value;
    BuiltChildren(w, active + {id}, w.alone(id).value.ledger, w.links(id).value);
    assert t.(children := []) == w.alone(id).value;
    NodeExactly(w, active, t);
  }

  /** What a run contributes alone names the run and has no children. */
  ghost predicate Proper(w: World) {
    forall id :: w.alone(id).Some? ==> w.alone(id).value.run == id && w.alone(id).value.children == []
  }

  lemma {:induction false} BuiltChildren(w: World, active: set<RunId>, ledger: Ledger, links: seq<Link>)
    requires Proper(w) && BuildChildren(w, active, ledger, links).Some?
    ensures Children(w, active, ledger, links, BuildChildren(w, active, ledger, links).value)
    decreases w.ids - active, |links|
  {
    if links != [] {
      var before, link := links[..|links| - 1], links[|links| - 1];
      assert links == before + [link];
      NextChild(w, active, ledger, before, link);
      BuiltChildren(w, active, ledger, before);
      BuildIsUnfolding(w, active, link.child);
      ChildrenSnoc(w, active, ledger, before, link, BuildChildren(w, active, ledger, before).value,
                   Linked(link.tool, Build(w, active, link.child).value));
    }
  }

  lemma {:induction false} UnfoldingIsBuilt(w: World, active: set<RunId>, t: Trajectory)
    requires Unfolds(w, t) && Acyclic(t, active)
    ensures Build(w, active, t.run) == Some(t)
    decreases w.ids - active, 0
  {
    NodeExactly(w, active, t);
    ChildrenAreBuilt(w, active + {t.run}, t.ledger, w.links(t.run).value, t.children);
  }

  lemma {:induction false} ChildrenAreBuilt(w: World, active: set<RunId>, ledger: Ledger, links: seq<Link>,
      children: seq<Linked>)
    requires Children(w, active, ledger, links, children)
    ensures BuildChildren(w, active, ledger, links) == Some(children)
    decreases w.ids - active, |links|
  {
    if links != [] {
      var n := |links| - 1;
      ChildrenPrefix(w, active, ledger, links, children);
      ChildrenAreBuilt(w, active, ledger, links[..n], children[..n]);
      UnfoldingIsBuilt(w, active, children[n].child);
      assert links == links[..n] + [links[n]];
      NextChild(w, active, ledger, links[..n], links[n]);
      assert children == children[..n] + [Linked(links[n].tool, children[n].child)];
    }
  }

  lemma RecordIsProper(record: map<RunId, Run>)
    ensures Proper(WorldOf(record))
  {
  }

  /** Building gives `t` exactly when `t` is the unfolding of the record from that run
      and no run occurs below itself; a cyclic record has no such tree, and building
      it ends without one. */
  lemma BuildsExactly(record: map<RunId, Run>, active: set<RunId>, id: RunId, t: Trajectory)
    ensures Build(WorldOf(record), active, id) == Some(t) <==>
            t.run == id && Unfolds(WorldOf(record), t) && Acyclic(t, active)
  {
    var w := WorldOf(record);
    RecordIsProper(record);
    if Build(w, active, id) == Some(t) { BuildIsUnfolding(w, active, id); }
    if t.run == id && Unfolds(w, t) && Acyclic(t, active) { UnfoldingIsBuilt(w, active, t); }
  }
}

/** The builders: one object per run, and one that guards the recursion. */
module TrajectoryBuilder {
  import opened Basics
  import opened Collections
  import opened TrajectoryRun
  import opened TrajectoryTree

  class RunBuilder {
    const run: Run
    var callSteps: map<CallKey, int>
    var groups: map<int, Group>
    var names: map<ToolId, string>
    var results: map<ToolId, int>
    var position: nat
    /** Every step put into a group, in order. */
    ghost var added: seq<Step>

    ghost function Joined(): Ledger
      reads this
    {
      Ledger(names, results)
    }

    /** The entries before `position` have been joined; the groups hold all steps. */
    ghost predicate Valid()
      reads this
    {
      && callSteps == StepsOfCalls(run)
      && groups == PutAll(map[], added)
      && position <= |run.entries|
      && AddEntries(callSteps, run.entries, position) == Some(Joined())
    }

    constructor (run: Run)
      ensures this.run == run && callSteps == map[] && groups == map[] && Joined() == EMPTY && position == 0
              && added == []
    {
      this.run := run;
      callSteps, groups, names, results, position := map[], map[], map[], map[], 0;
      added := [];
    }

    method PutStep(s: Step)
      requires groups == PutAll(map[], added)
      modifies this`groups, this`added
      ensures groups == PutAll(map[], added) && added == old(added) + [s]
    {
      var group := if s.step in groups then groups[s.step] else NO_STEPS;
      if s.ModelStep? {
        group := group.(models := group.models + [s]);
      } else if s.EventStep? {
        group := group.(events := group.events + [s]);
      } else {
        group := group.(entries := group.entries + [s]);
      }
      PutSnoc(map[], added, s);
      groups := groups[s.step := group];
      assert groups == Put1(old(groups), s);
      added := added + [s];
    }

    method ReadModels()
      requires callSteps == map[] && groups == map[] && Joined() == EMPTY && position == 0 && added == []
      modifies this
      ensures Valid() && position == 0 && added == Models(run.calls, |run.calls|)
    {
      for i := 0 to |run.calls|
        invariant callSteps == CallSteps(run.calls, i) && added == Models(run.calls, i)
        invariant groups == PutAll(map[], added) && Joined() == EMPTY && position == 0
      {
        var call := run.calls[i];
        callSteps := callSteps[call.key := call.step];
        PutStep(ModelStep(call.step, call.number, call.attempt));
      }
    }

    /** The first `i` calls of an assistant entry were added to `start` and `base`. */
    ghost predicate CallsRead(step: int, id: int, calls: seq<Option<Request>>, i: nat, start: Ledger, base: seq<Step>)
      requires i <= |calls|
      reads this
    {
      && AddCalls(start, calls, i) == Some(Joined())
      && groups == PutAll(map[], added) && added == base + CallStepsOf(step, id, calls, i)
    }

    method ReadToolCall(step: int, id: int, calls: seq<Option<Request>>, i: nat, ghost start: Ledger,
        ghost base: seq<Step>)
        returns (ok: bool)
      requires i < |calls| && CallsRead(step, id, calls, i, start, base)
      modifies this`names, this`groups, this`added
      ensures ok ==> CallsRead(step, id, calls, i + 1, start, base)
      ensures !ok ==> AddCalls(start, calls, |calls|).None?
    {
      ok := calls[i].Some? && calls[i].value.id !in names;
      if ok {
        names := names[calls[i].value.id := calls[i].value.name];
        PutStep(ToolStep(step, id, calls[i].value.id));
      } else {
        CallsFailEarly(start, calls, i + 1, |calls|);
      }
    }

    method ReadToolCalls(step: int, entry: Entry) returns (ok: bool)
      requires entry.kind.Assistant? && groups == PutAll(map[], added)
      modifies this`names, this`groups, this`added
      ensures ok <==> AddCalls(old(Joined()), entry.kind.calls, |entry.kind.calls|).Some?
      ensures ok ==> Some(Joined()) == AddCalls(old(Joined()), entry.kind.calls, |entry.kind.calls|)
      ensures ok ==> groups == PutAll(map[], added)
      ensures ok ==> added == old(added) + CallStepsOf(step, entry.id, entry.kind.calls, |entry.kind.calls|)
    {
      var calls := entry.kind.calls;
      ghost var start, base := Joined(), added;
      for i := 0 to |calls|
        invariant CallsRead(step, entry.id, calls, i, start, base)
      {
        ok := ReadToolCall(step, entry.id, calls, i, start, base);
        if !ok { return; }
      }
      ok := true;
    }

    method ReadToolResult(output: Option<Output>) returns (ok: bool)
      modifies this`results
      ensures ok <==> AddResult(old(Joined()), output).Some?
      ensures ok ==> Some(Joined()) == AddResult(old(Joined()), output)
    {
      if output.None? || output.value.id !in names || output.value.id in results
        || names[output.value.id] != output.value.name {
        return false;
      }
      results := results[output.value.id := output.value.value];
      ok := true;
    }

    method ReadEntry(step: int, entry: Entry) returns (ok: bool)
      requires groups == PutAll(map[], added)
      modifies this`names, this`results, this`groups, this`added
      ensures ok <==> AddEntry(callSteps, old(Joined()), entry.kind).Some?
      ensures ok ==> Some(Joined()) == AddEntry(callSteps, old(Joined()), entry.kind)
      ensures ok ==> groups == PutAll(map[], added) && added == old(added) + StepsOf(callSteps, step, entry)
    {
      match entry.kind
      case Assistant(call, calls) =>
        var producing := step;
        if call.Some? {
          if call.value !in callSteps { return false; }
          producing := callSteps[call.value];
        }
        ok := ReadToolCalls(producing, entry);
      case Result(output) =>
        ok := ReadToolResult(output);
      case Answer(content) =>
        if content.None? { return false; }
        PutStep(AnswerStep(step, entry.id));
        ok := true;
      case Silent =>
        ok := true;
    }

    /** Entries are being read from `from` up to `end`, behind the steps of `base`. */
    ghost predicate Reading(step: int, base: seq<Step>, from: nat, end: nat)
      reads this
    {
      && Valid() && from <= position <= end <= |run.entries|
      && added == AddSteps(callSteps, step, run.entries, base, from, position)
    }

    /** Joins the entry at the current position. */
    method ReadNext(step: int, ghost base: seq<Step>, ghost from: nat, ghost end: nat) returns (ok: bool)
      requires Reading(step, base, from, end) && position < end
      modifies this`names, this`results, this`groups, this`added, this`position
      ensures ok ==> Reading(step, base, from, end) && position == old(position) + 1
      ensures !ok ==> AddEntries(callSteps, run.entries, end).None?
    {
      ok := ReadEntry(step, run.entries[position]);
      if ok {
        position := position + 1;
      } else {
        EntriesFailEarly(callSteps, run.entries, position + 1, end);
      }
    }

    /** Consumes the next entries up to `last`. */
    method ReadEntries(step: int, last: int) returns (ok: bool)
      requires Valid()
      modifies this`names, this`results, this`groups, this`added, this`position
      ensures ok <==> MoveTo(run, old(position), step, last).Some?
      ensures ok ==> Valid() && position == Reach(run.entries, old(position), last)
      ensures ok ==> added == AddSteps(callSteps, step, run.entries, old(added), old(position), position)
    {
      ghost var base, from, end := added, position, Reach(run.entries, position, last);
      while position < |run.entries| && run.entries[position].id <= last
        invariant Reading(step, base, from, end)
        invariant Reach(run.entries, position, last) == end
        decreases |run.entries| - position
      {
        ReachStep(run.entries, position, last);
        ok := ReadNext(step, base, from, end);
        if !ok { return; }
      }
      ok := true;
    }

    /** One event: a planner boundary reads entries, an observation becomes a step. */
    method ReadEventStep(event: Event, k: nat, step: int) returns (ok: bool, next: int)
      requires Valid()
      modifies this`names, this`results, this`groups, this`added, this`position
      ensures ok <==> ReadEvent(run, Cursor(step, old(position)), event).Some?
      ensures ok ==> Valid() && ReadEvent(run, Cursor(step, old(position)), event) == Some(Cursor(next, position))
      ensures ok ==> added == AddEvent(run, Cursor(step, old(position)), event, k, old(added))
    {
      ok, next := true, step;
      match event
      case PlannerStep(boundary) =>
        if boundary.None? {
          ok := false;
        } else {
          ok := ReadEntries(boundary.value.step, boundary.value.end);
          next := boundary.value.step;
        }
      case Observed(stamp) =>
        if stamp.None? {
          ok := false;
        } else {
          PutStep(EventStep(if stamp.value.step.Some? then stamp.value.step.value else step, k));
        }
      case ChildRunLinked(_) =>
      case Unobserved =>
    }

    /** The first `k` events have been read; the last planner step is `step`. */
    ghost predicate EventsAreRead(k: nat, step: int)
      requires k <= |run.events|
      reads this
    {
      Valid() && ReadEvents(run, k) == Some(Cursor(step, position)) && added == Added(run, k)
    }

    method ReadNextEvent(k: nat, step: int) returns (ok: bool, next: int)
      requires k < |run.events| && EventsAreRead(k, step)
      modifies this`names, this`results, this`groups, this`added, this`position
      ensures ok ==> EventsAreRead(k + 1, next)
      ensures !ok ==> ReadEvents(run, |run.events|).None?
    {
      NextEvent(run, k, Cursor(step, position));
      ok, next := ReadEventStep(run.events[k], k, step);
      if !ok { EventsFailEarly(run, k + 1, |run.events|); }
    }

    /** Walks the events. */
    method ReadAllEvents() returns (ok: bool, step: int)
      requires Valid() && position == 0 && added == Models(run.calls, |run.calls|)
      modifies this`names, this`results, this`groups, this`added, this`position
      ensures ok ==> EventsAreRead(|run.events|, step)
      ensures !ok ==> ReadEvents(run, |run.events|).None?
    {
      ok, step := true, 0;
      for k := 0 to |run.events|
        invariant ok && EventsAreRead(k, step)
      {
        ok, step := ReadNextEvent(k, step);
        if !ok { return; }
      }
    }

    /** The events, then the entries behind the last boundary. */
    method ReadEventsAndEntries() returns (ok: bool)
      requires Valid() && position == 0 && added == Models(run.calls, |run.calls|)
      modifies this`names, this`results, this`groups, this`added, this`position
      ensures ok <==> ReadRun(run).Some?
      ensures ok ==> Valid() && ReadRun(run).value.position == position && added == AllAdded(run)
    {
      var step: int;
      ok, step := ReadAllEvents();
      if !ok || run.entries == [] {
        return;
      }
      ok := ReadEntries(step, run.entries[|run.entries| - 1].id);
    }

    /** Orders the planner steps. */
    method SortedNumbers() returns (keys: seq<int>)
      requires groups == PutAll(map[], added)
      ensures keys == Numbers(added)
    {
      NumbersExactly(added);
      keys := [];
      ghost var all := groups.Keys;
      var rest := groups.Keys;
      while rest != {}
        invariant Increasing(keys) && rest <= all
        invariant forall n :: n in keys <==> n in all && n !in rest
        decreases |rest|
      {
        ghost var some := Pick(rest);
        var n :| n in rest;
        InsertNumberKeeps(keys, n);
        keys, rest := InsertNumber(keys, n), rest - {n};
      }
      IncreasingIsUnique(keys, Numbers(added));
    }

    /** Strings the groups of the sorted planner steps together. */
    method Flatten() returns (steps: seq<Step>)
      requires groups == PutAll(map[], added)
      ensures steps == Flat(added)
    {
      NumbersExactly(added);
      var keys := SortedNumbers();
      steps := [];
      for i := 0 to |keys|
        invariant steps == FlattenKeys(groups, keys, i)
      {
        assert keys[i] in keys;
        steps := steps + Segment(groups[keys[i]]);
      }
    }
  }

  lemma {:induction false} CallsFailEarly(l: Ledger, calls: seq<Option<Request>>, j: nat, k: nat)
    requires j <= k <= |calls| && AddCalls(l, calls, j).None?
    ensures AddCalls(l, calls, k).None?
  {
    if j < k { CallsFailEarly(l, calls, j, k - 1); }
  }

  lemma ReachStep(entries: seq<Entry>, position: nat, last: int)
    requires position < |entries| && entries[position].id <= last
    ensures position < Reach(entries, position, last) == Reach(entries, position + 1, last)
  {
  }

  lemma EntriesFailEarly(callSteps: map<CallKey, int>, entries: seq<Entry>, j: nat, k: nat)
    requires j <= k <= |entries| && AddEntries(callSteps, entries, j).None?
    ensures AddEntries(callSteps, entries, k).None?
  {
    if AddEntries(callSteps, entries, k).Some? { JoinedPrefix(callSteps, entries, j, k); }
  }

  lemma NextEvent(run: Run, k: nat, c: Cursor)
    requires k < |run.events| && ReadEvents(run, k) == Some(c)
    ensures ReadEvents(run, k + 1) == ReadEvent(run, c, run.events[k])
    ensures Added(run, k + 1) == AddEvent(run, c, run.events[k], k, Added(run, k))
  {
  }

  lemma {:induction false} EventsFailEarly(run: Run, j: nat, k: nat)
    requires j <= k <= |run.events| && ReadEvents(run, j).None?
    ensures ReadEvents(run, k).None?
  {
    if j < k { EventsFailEarly(run, j, k - 1); }
  }

  /** Builds runs recursively; `active` are the runs being built. */
  class Builder {
    const record: map<RunId, Run>
    ghost const world: World
    var active: set<RunId>

    ghost predicate Sees(id: RunId) {
      && world.alone(id) == Alone(record, id)
      && (id in record ==> world.links(id) == Links(record[id].events, |record[id].events|))
    }

    /** `world` is the record, run by run. */
    ghost predicate Valid() {
      world.ids == record.Keys && forall id {:trigger Sees(id)} :: Sees(id)
    }

    constructor (record: map<RunId, Run>)
      ensures this.record == record && active == {} && world == WorldOf(record) && Valid()
    {
      this.record, active := record, {};
      world := WorldOf(record);
    }

    /** One run and its children; ends for every record because `active` only grows on
        the way down, and is restored on the way up. */
    method BuildRun(id: RunId) returns (t: Option<Trajectory>)
      requires Valid()
      modifies this`active
      ensures active == old(active) && t == Build(world, active, id)
      decreases record.Keys - active, 0
    {
      assert Sees(id);
      if id !in record || !record[id].isSealed || id in active {
        return None;
      }
      var r, ok := ReadAlone(id);
      if !ok {
        return None;
      }
      active := active + {id};
      var children := LinkChildren(record[id].events, Ledger(r.names, r.results));
      active := active - {id};
      if children.None? {
        return None;
      }
      var steps := r.Flatten();
      t := Some(Trajectory(id, steps, Ledger(r.names, r.results), children.value));
    }

    /** Reads one run by itself. */
    method ReadAlone(id: RunId) returns (r: RunBuilder, ok: bool)
      requires id in record && record[id].isSealed
      ensures fresh(r) && (ok <==> Alone(record, id).Some?)
      ensures ok ==> r.groups == PutAll(map[], r.added)
      ensures ok ==> Alone(record, id) == Some(Trajectory(id, Flat(r.added), r.Joined(), []))
    {
      r := new RunBuilder(record[id]);
      r.ReadModels();
      ok := r.ReadEventsAndEntries();
    }

    /** Builds the linked runs in link order, each for a call of this run. */
    method LinkChildren(events: seq<Event>, ledger: Ledger) returns (children: Option<seq<Linked>>)
      requires Valid()
      modifies this`active
      ensures active == old(active)
      ensures children == ChildrenUpTo(world, active, ledger, events, |events|)
      decreases record.Keys - active, 1
    {
      var built: seq<Linked> := [];
      for k := 0 to |events|
        invariant active == old(active)
        invariant ChildrenUpTo(world, active, ledger, events, k) == Some(built)
      {
        NextEventChild(world, active, ledger, events, k, built);
        if events[k].ChildRunLinked? {
          if events[k].link.None? {
            LinksFailEarly(world, active, ledger, events, k + 1, |events|);
            return None;
          }
          var link := events[k].link.value;
          var child := BuildRun(link.child);
          if child.None? || link.tool !in ledger.names {
            LinksFailEarly(world, active, ledger, events, k + 1, |events|);
            return None;
          }
          built := built + [Linked(link.tool, child.value)];
        }
      }
      children := Some(built);
    }
  }

  /** The children linked by the first `k` events. */
  ghost function ChildrenUpTo(w: World, active: set<RunId>, ledger: Ledger, events: seq<Event>,
      k: nat): Option<seq<Linked>>
    requires k <= |events|
  {
    if Links(events, k).None? then None else BuildChildren(w, active, ledger, Links(events, k).value)
  }

  lemma NextEventChild(w: World, active: set<RunId>, ledger: Ledger, events: seq<Event>, k: nat, built: seq<Linked>)
    requires k < |events| && ChildrenUpTo(w, active, ledger, events, k) == Some(built)
    ensures ChildrenUpTo(w, active, ledger, events, k + 1) ==
            if !events[k].ChildRunLinked? then Some(built)
            else if events[k].link.None? then None
            else
              var link := events[k].link.value;
              var child := Build(w, active, link.child);
              if child.None? || link.tool !in ledger.names then None else Some(built + [Linked(link.tool, child.value)])
  {
    if events[k].ChildRunLinked? && events[k].link.Some? {
      NextChild(w, active, ledger, Links(events, k).value, events[k].link.value);
    }
  }

  lemma {:induction false} LinksFailEarly(w: World, active: set<RunId>, ledger: Ledger, events: seq<Event>, j: nat,
      k: nat)
    requires j <= k <= |events| && ChildrenUpTo(w, active, ledger, events, j).None?
    ensures ChildrenUpTo(w, active, ledger, events, k).None?
  {
    if j < k {
      LinksFailEarly(w, active, ledger, events, j, k - 1);
      if Links(events, k).Some? && events[k - 1].ChildRunLinked? {
        NextChild(w, active, ledger, Links(events, k - 1).value, events[k - 1].link.value);
      }
    }
  }
}
