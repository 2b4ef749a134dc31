/** Reading one sealed run: joining tool calls with results, and ordering steps. */
module TrajectoryRun {
  import opened Basics

  type ToolId = int
  type RunId = int
  type CallKey = int

  datatype Request = Request(id: ToolId, name: string)
  datatype Output = Output(id: ToolId, name: string, value: int)

  /** An entry of the transcript. What is stored by hash is `None` when the record lacks
      it or it does not decode. */
  datatype EntryKind =
    | Assistant(call: Option<CallKey>, calls: seq<Option<Request>>)
    | Result(output: Option<Output>)
    | Answer(content: Option<int>)
    | Silent
  datatype Entry = Entry(id: int, kind: EntryKind)

  datatype Boundary = Boundary(step: int, end: int)
  datatype Stamp = Stamp(step: Option<int>)
  datatype Link = Link(child: RunId, tool: ToolId)
  datatype Event =
    | PlannerStep(boundary: Option<Boundary>)
    | Observed(stamp: Option<Stamp>)
    | ChildRunLinked(link: Option<Link>)
    | Unobserved

  datatype ModelCall = ModelCall(key: CallKey, step: int, number: int, attempt: int)

  datatype Run = Run(isSealed: bool, calls: seq<ModelCall>, events: seq<Event>, entries: seq<Entry>)

  /** One step of a trajectory, under the planner step it belongs to. */
  datatype Step =
    | ModelStep(step: int, number: int, attempt: int)
    | ToolStep(step: int, entry: int, tool: ToolId)
    | AnswerStep(step: int, entry: int)
    | EventStep(step: int, event: nat)

  // ---------------------------------------------------------------- joining calls and results

  /** The tool calls of a run by ID, and the results joined to them. */
  datatype Ledger = Ledger(names: map<ToolId, string>, results: map<ToolId, int>)

  const EMPTY := Ledger(map[], map[])

  function AddCall(l: Ledger, request: Option<Request>): Option<Ledger> {
    if request.None? || request.value.id in l.names then None
    else Some(l.(names := l.names[request.value.id := request.value.name]))
  }

  /** The first `k` calls of an entry. */
  function AddCalls(l: Ledger, calls: seq<Option<Request>>, k: nat): Option<Ledger>
    requires k <= |calls|
  {
    if k == 0 then Some(l)
    else
      var before := AddCalls(l, calls, k - 1);
      if before.None? then None else AddCall(before.value, calls[k - 1])
  }

  function AddResult(l: Ledger, output: Option<Output>): Option<Ledger> {
    if output.None? || output.value.id !in l.names || output.value.id in l.results
      || l.names[output.value.id] != output.value.name
    then None
    else Some(l.(results := l.results[output.value.id := output.value.value]))
  }

  function AddEntry(callSteps: map<CallKey, int>, l: Ledger, e: EntryKind): Option<Ledger> {
    match e
    case Assistant(call, calls) => if call.Some? && call.value !in callSteps then None else AddCalls(l, calls, |calls|)
    case Result(output) => AddResult(l, output)
    case Answer(content) => if content.None? then None else Some(l)
    case Silent => Some(l)
  }

  /** The first `k` entries, in order, each once. */
  function AddEntries(callSteps: map<CallKey, int>, entries: seq<Entry>, k: nat): Option<Ledger>
    requires k <= |entries|
  {
    if k == 0 then Some(EMPTY)
    else
      var before := AddEntries(callSteps, entries, k - 1);
      if before.None? then None else AddEntry(callSteps, before.value, entries[k - 1].kind)
  }

  // ---------------------------------------------------------------- what joins demand

  /** Calls and results as they occur. */
  datatype Item = Called(id: ToolId, name: string) | Answered(id: ToolId, name: string, value: int)

  function CallItems(calls: seq<Option<Request>>, k: nat): seq<Item>
    requires k <= |calls|
  {
    if k == 0 then []
    else if calls[k - 1].None? then CallItems(calls, k - 1)
    else CallItems(calls, k - 1) + [Called(calls[k - 1].value.id, calls[k - 1].value.name)]
  }

  function EntryItems(e: EntryKind): seq<Item> {
    if e.Assistant? then CallItems(e.calls, |e.calls|)
    else if e.Result? && e.output.Some? then [Answered(e.output.value.id, e.output.value.name, e.output.value.value)]
    else []
  }

  function Items(entries: seq<Entry>, k: nat): seq<Item>
    requires k <= |entries|
  {
    if k == 0 then [] else Items(entries, k - 1) + EntryItems(entries[k - 1].kind)
  }

  /** Everything an entry refers to is there. */
  predicate Readable(callSteps: map<CallKey, int>, e: EntryKind) {
    match e
    case Assistant(call, calls) =>
      (call.Some? ==> call.value in callSteps) && forall i :: 0 <= i < |calls| ==> calls[i].Some?
    case Result(output) => output.Some?
    case Answer(content) => content.Some?
    case Silent => true
  }

  /** Whether item `k` fits what came before: a new call, or the first result of an
      earlier call under the same name. */
  predicate Fits(items: seq<Item>, k: nat)
    requires k < |items|
  {
    if items[k].Called? then forall j :: 0 <= j < k ==> items[j].Called? ==> items[j].id != items[k].id
    else
      && Called(items[k].id, items[k].name) in items[..k]
      && forall j :: 0 <= j < k ==> items[j].Answered? ==> items[j].id != items[k].id
  }

  predicate WellJoined(items: seq<Item>) {
    forall k :: 0 <= k < |items| ==> Fits(items, k)
  }

  /** The ledger holds exactly the items seen. */
  ghost predicate Reflects(l: Ledger, items: seq<Item>) {
    && (forall id :: id in l.names <==> exists k :: 0 <= k < |items| && items[k].Called? && items[k].id == id)
    && (forall k :: 0 <= k < |items| && items[k].Called? ==>
      items[k].id in l.names && l.names[items[k].id] == items[k].name)
    && (forall id :: id in l.results <==> exists k :: 0 <= k < |items| && items[k].Answered? && items[k].id == id)
    && (forall k :: 0 <= k < |items| && items[k].Answered? ==>
      items[k].id in l.results && l.results[items[k].id] == items[k].value)
  }

  lemma WellJoinedSnoc(items: seq<Item>, item: Item)
    ensures WellJoined(items + [item]) <==> WellJoined(items) && Fits(items + [item], |items|)
  {
    var more := items + [item];
    forall k | 0 <= k < |items|
      ensures Fits(more, k) <==> Fits(items, k)
    {
      assert more[..k] == items[..k];
    }
  }

  /** A call is accepted exactly when its ID is new. */
  lemma CallFits(l: Ledger, items: seq<Item>, request: Request)
    requires Reflects(l, items) && WellJoined(items)
    ensures var item := Called(request.id, request.name);
            && (AddCall(l, Some(request)).Some? <==> WellJoined(items + [item]))
            && (AddCall(l, Some(request)).Some? ==> Reflects(AddCall(l, Some(request)).value, items + [item]))
  {
    var item := Called(request.id, request.name);
    WellJoinedSnoc(items, item);
    var more := items + [item];
    if request.id !in l.names {
      var l' := AddCall(l, Some(request)).value;
      assert forall k :: 0 <= k < |items| ==> more[k] == items[k];
      assert more[|items|] == item;
      ReflectsCall(l, items, request, l');
    } else {
      var k :| 0 <= k < |items| && items[k].Called? && items[k].id == request.id;
      assert more[k].Called? && more[k].id == more[|items|].id;
    }
  }

  lemma ReflectsCall(l: Ledger, items: seq<Item>, request: Request, l': Ledger)
    requires Reflects(l, items) && request.id !in l.names && l' == l.(names := l.names[request.id := request.name])
    ensures Reflects(l', items + [Called(request.id, request.name)])
  {
    var more := items + [Called(request.id, request.name)];
    assert more[|items|].Called? && more[|items|].id == request.id;
    forall id
      ensures id in l'.names <==> exists k :: 0 <= k < |more| && more[k].Called? && more[k].id == id
    {
      if id in l.names {
        var k :| 0 <= k < |items| && items[k].Called? && items[k].id == id;
        assert more[k].Called? && more[k].id == id;
      }
    }
    forall id
      ensures id in l'.results <==> exists k :: 0 <= k < |more| && more[k].Answered? && more[k].id == id
    {
      if id in l.results {
        var k :| 0 <= k < |items| && items[k].Answered? && items[k].id == id;
        assert more[k].Answered? && more[k].id == id;
      }
    }
  }

  /** A result is accepted exactly when it is the first for an earlier call of its name. */
  lemma ResultFits(l: Ledger, items: seq<Item>, output: Output)
    requires Reflects(l, items) && WellJoined(items)
    ensures var item := Answered(output.id, output.name, output.value);
            && (AddResult(l, Some(output)).Some? <==> WellJoined(items + [item]))
            && (AddResult(l, Some(output)).Some? ==> Reflects(AddResult(l, Some(output)).value, items + [item]))
  {
    var item := Answered(output.id, output.name, output.value);
    var more := items + [item];
    WellJoinedSnoc(items, item);
    assert more[..|items|] == items;
    assert more[|items|] == item;
    if output.id in l.names {
      var k :| 0 <= k < |items| && items[k].Called? && items[k].id == output.id;
      assert items[k] == Called(output.id, l.names[output.id]);
      assert Called(output.id, l.names[output.id]) in items;
    }
    if Called(output.id, output.name) in items {
      var k :| 0 <= k < |items| && items[k] == Called(output.id, output.name);
      assert l.names[output.id] == output.name;
    }
    if AddResult(l, Some(output)).Some? { ReflectsResult(l, items, output, AddResult(l, Some(output)).value); }
  }

  lemma ReflectsResult(l: Ledger, items: seq<Item>, output: Output, l': Ledger)
    requires Reflects(l, items) && output.id !in l.results && l' == l.(results := l.results[output.id := output.value])
    ensures Reflects(l', items + [Answered(output.id, output.name, output.value)])
  {
    var more := items + [Answered(output.id, output.name, output.value)];
    assert more[|items|].Answered? && more[|items|].id == output.id;
    forall id
      ensures id in l'.names <==> exists k :: 0 <= k < |more| && more[k].Called? && more[k].id == id
    {
      if id in l.names {
        var k :| 0 <= k < |items| && items[k].Called? && items[k].id == id;
        assert more[k].Called? && more[k].id == id;
      }
    }
    forall id
      ensures id in l'.results <==> exists k :: 0 <= k < |more| && more[k].Answered? && more[k].id == id
    {
      if id in l.results {
        var k :| 0 <= k < |items| && items[k].Answered? && items[k].id == id;
        assert more[k].Answered? && more[k].id == id;
      }
    }
  }

  lemma {:induction false} WellJoinedPrefix(items: seq<Item>, more: seq<Item>)
    requires WellJoined(items + more)
    ensures WellJoined(items)
  {
    if more != [] {
      var n := |more| - 1;
      assert items + more == (items + more[..n]) + [more[n]];
      WellJoinedSnoc(items + more[..n], more[n]);
      WellJoinedPrefix(items, more[..n]);
    } else {
      assert items + more == items;
    }
  }

  ghost predicate AllDecoded(calls: seq<Option<Request>>, k: nat)
    requires k <= |calls|
  {
    forall i :: 0 <= i < k ==> calls[i].Some?
  }

  lemma {:induction false} CallsFit(l: Ledger, items: seq<Item>, calls: seq<Option<Request>>, k: nat)
    requires k <= |calls| && Reflects(l, items) && WellJoined(items)
    ensures AddCalls(l, calls, k).Some? <==> AllDecoded(calls, k) && WellJoined(items + CallItems(calls, k))
    ensures AddCalls(l, calls, k).Some? ==> Reflects(AddCalls(l, calls, k).value, items + CallItems(calls, k))
  {
    if k == 0 {
      assert items + CallItems(calls, k) == items;
    } else {
      var last := calls[k - 1];
      CallsFit(l, items, calls, k - 1);
      if last.Some? {
        var before, item := items + CallItems(calls, k - 1), Called(last.value.id, last.value.name);
        assert items + CallItems(calls, k) == before + [item];
        if AddCalls(l, calls, k - 1).Some? {
          CallFits(AddCalls(l, calls, k - 1).value, before, last.value);
        } else if WellJoined(before + [item]) {
          WellJoinedPrefix(before, [item]);
        }
      }
    }
  }

  lemma EntryFits(callSteps: map<CallKey, int>, l: Ledger, items: seq<Item>, e: EntryKind)
    requires Reflects(l, items) && WellJoined(items)
    ensures AddEntry(callSteps, l, e).Some? <==> Readable(callSteps, e) && WellJoined(items + EntryItems(e))
    ensures AddEntry(callSteps, l, e).Some? ==> Reflects(AddEntry(callSteps, l, e).value, items + EntryItems(e))
  {
    if e.Assistant? {
      CallsFit(l, items, e.calls, |e.calls|);
    } else if e.Result? && e.output.Some? {
      ResultFits(l, items, e.output.value);
    } else {
      assert items + EntryItems(e) == items;
    }
  }

  /** The entries of a run join exactly when everything they name is present and
      decodes, no call ID occurs twice, and every result is the only one of an earlier
      call with its name; and then the ledger holds exactly those calls and results. */
  lemma JoinsExactly(callSteps: map<CallKey, int>, entries: seq<Entry>)
    ensures AddEntries(callSteps, entries, |entries|).Some? <==>
            (forall i :: 0 <= i < |entries| ==> Readable(callSteps, entries[i].kind))
              && WellJoined(Items(entries, |entries|))
    ensures AddEntries(callSteps, entries, |entries|).Some? ==>
              Reflects(AddEntries(callSteps, entries, |entries|).value, Items(entries, |entries|))
  {
    if AddEntries(callSteps, entries, |entries|).Some? {
      JoinedReflects(callSteps, entries, |entries|);
      JoinedIsReadable(callSteps, entries, |entries|);
      assert AllReadable(callSteps, entries, |entries|);
    } else if AllReadable(callSteps, entries, |entries|) && WellJoined(Items(entries, |entries|)) {
      ReadableJoins(callSteps, entries, |entries|);
    }
  }

  ghost predicate AllReadable(callSteps: map<CallKey, int>, entries: seq<Entry>, k: nat)
    requires k <= |entries|
  {
    forall i :: 0 <= i < k ==> Readable(callSteps, entries[i].kind)
  }

  lemma {:induction false} JoinedReflects(callSteps: map<CallKey, int>, entries: seq<Entry>, k: nat)
    requires k <= |entries| && AddEntries(callSteps, entries, k).Some?
    ensures WellJoined(Items(entries, k)) && Reflects(AddEntries(callSteps, entries, k).value, Items(entries, k))
  {
    if k > 0 {
      JoinedReflects(callSteps, entries, k - 1);
      EntryFits(callSteps, AddEntries(callSteps, entries, k - 1).value, Items(entries, k - 1), entries[k - 1].kind);
    }
  }

  lemma {:induction false} JoinedIsReadable(callSteps: map<CallKey, int>, entries: seq<Entry>, k: nat)
    requires k <= |entries| && AddEntries(callSteps, entries, k).Some?
    ensures AllReadable(callSteps, entries, k)
  {
    if k > 0 {
      JoinedIsReadable(callSteps, entries, k - 1);
      JoinedReflects(callSteps, entries, k - 1);
      EntryFits(callSteps, AddEntries(callSteps, entries, k - 1).value, Items(entries, k - 1), entries[k - 1].kind);
    }
  }

  lemma {:induction false} ReadableJoins(callSteps: map<CallKey, int>, entries: seq<Entry>, k: nat)
    requires k <= |entries| && AllReadable(callSteps, entries, k) && WellJoined(Items(entries, k))
    ensures AddEntries(callSteps, entries, k).Some?
  {
    if k > 0 {
      WellJoinedPrefix(Items(entries, k - 1), EntryItems(entries[k - 1].kind));
      ReadableJoins(callSteps, entries, k - 1);
      JoinedReflects(callSteps, entries, k - 1);
      EntryFits(callSteps, AddEntries(callSteps, entries, k - 1).value, Items(entries, k - 1), entries[k - 1].kind);
    }
  }

  // ---------------------------------------------------------------- steps by planner step

  datatype Group = Group(models: seq<Step>, entries: seq<Step>, events: seq<Step>)

  const NO_STEPS := Group([], [], [])

  function GroupOf(groups: map<int, Group>, step: int): Group {
    if step in groups then groups[step] else NO_STEPS
  }

  /** The steps an entry yields: its tool calls, under the step of the model call that
      produced it, or an input answer under the step that reads it. */
  function StepsOf(callSteps: map<CallKey, int>, step: int, e: Entry): seq<Step> {
    if e.kind.Assistant? then
      var producing :=
        if e.kind.call.Some? && e.kind.call.value in callSteps then callSteps[e.kind.call.value] else step;
      CallStepsOf(producing, e.id, e.kind.calls, |e.kind.calls|)
    else if e.kind.Answer? then [AnswerStep(step, e.id)]
    else []
  }

  function CallStepsOf(step: int, entry: int, calls: seq<Option<Request>>, k: nat): seq<Step>
    requires k <= |calls|
  {
    if k == 0 then []
    else if calls[k - 1].None? then CallStepsOf(step, entry, calls, k - 1)
    else CallStepsOf(step, entry, calls, k - 1) + [ToolStep(step, entry, calls[k - 1].value.id)]
  }

  /** One more step in its group. */
  function Put1(groups: map<int, Group>, s: Step): map<int, Group> {
    var g := GroupOf(groups, s.step);
    groups[s.step := if s.ModelStep? then g.(models := g.models + [s])
                     else if s.EventStep? then g.(events := g.events + [s])
                     else g.(entries := g.entries + [s])]
  }

  function PutAll(groups: map<int, Group>, steps: seq<Step>): map<int, Group> {
    if steps == [] then groups else Put1(PutAll(groups, steps[..|steps| - 1]), steps[|steps| - 1])
  }

  function Count(steps: seq<Step>, x: Step): nat {
    if steps == [] then 0 else Count(steps[..|steps| - 1], x) + (if steps[|steps| - 1] == x then 1 else 0)
  }

  lemma CountSnoc(steps: seq<Step>, s: Step, x: Step)
    ensures Count(steps + [s], x) == Count(steps, x) + (if s == x then 1 else 0)
  {
    assert (steps + [s])[..|steps|] == steps;
  }

  lemma {:induction false} CountConcat(a: seq<Step>, b: seq<Step>, x: Step)
    ensures Count(a + b, x) == Count(a, x) + Count(b, x)
  {
    if b == [] {
      assert a + b == a;
    } else {
      var n := |b| - 1;
      CountConcat(a, b[..n], x);
      CountSnoc(a + b[..n], b[n], x);
      assert a + b == a + b[..n] + [b[n]];
    }
  }

  lemma {:induction false} CountAbsent(steps: seq<Step>, x: Step)
    requires forall i :: 0 <= i < |steps| ==> steps[i] != x
    ensures Count(steps, x) == 0
  {
    if steps != [] { CountAbsent(steps[..|steps| - 1], x); }
  }

  function CountIn(g: Group, x: Step): nat {
    Count(g.models, x) + Count(g.entries, x) + Count(g.events, x)
  }

  predicate AllUnder(steps: seq<Step>, n: int) {
    forall i :: 0 <= i < |steps| ==> steps[i].step == n
  }

  predicate Under(g: Group, n: int) {
    AllUnder(g.models, n) && AllUnder(g.entries, n) && AllUnder(g.events, n)
  }

  ghost predicate Arranged(groups: map<int, Group>) {
    forall n :: n in groups ==> Under(groups[n], n)
  }

  lemma Put1Counts(groups: map<int, Group>, s: Step, x: Step)
    ensures CountIn(GroupOf(Put1(groups, s), x.step), x) ==
            CountIn(GroupOf(groups, x.step), x) + (if s == x then 1 else 0)
  {
    var g := GroupOf(groups, s.step);
    CountSnoc(g.models, s, x);
    CountSnoc(g.entries, s, x);
    CountSnoc(g.events, s, x);
  }

  lemma Put1Arranges(groups: map<int, Group>, s: Step)
    requires Arranged(groups)
    ensures Arranged(Put1(groups, s))
  {
  }

  lemma PutSnoc(groups: map<int, Group>, steps: seq<Step>, s: Step)
    ensures PutAll(groups, steps + [s]) == Put1(PutAll(groups, steps), s)
  {
    assert (steps + [s])[..|steps|] == steps;
  }

  /** Groups hold exactly the steps that were put, each under its own number. */
  lemma {:induction false} PutAllArranges(steps: seq<Step>)
    ensures Arranged(PutAll(map[], steps))
  {
    if steps != [] {
      PutAllArranges(steps[..|steps| - 1]);
      Put1Arranges(PutAll(map[], steps[..|steps| - 1]), steps[|steps| - 1]);
    }
  }

  lemma {:induction false} PutAllCounts(steps: seq<Step>, x: Step)
    ensures CountIn(GroupOf(PutAll(map[], steps), x.step), x) == Count(steps, x)
  {
    if steps != [] {
      PutAllCounts(steps[..|steps| - 1], x);
      Put1Counts(PutAll(map[], steps[..|steps| - 1]), steps[|steps| - 1], x);
    }
  }

  // ---------------------------------------------------------------- flattening

  predicate EarlierCall(a: Step, b: Step) {
    a.ModelStep? && b.ModelStep? && (a.number < b.number || (a.number == b.number && a.attempt < b.attempt))
  }

  /** The stable sort of a group's model calls by sequence number and attempt. */
  function InsertCall(calls: seq<Step>, s: Step): seq<Step> {
    if calls == [] || !EarlierCall(s, calls[|calls| - 1]) then calls + [s]
    else InsertCall(calls[..|calls| - 1], s) + [calls[|calls| - 1]]
  }

  function SortCalls(calls: seq<Step>): seq<Step> {
    if calls == [] then [] else InsertCall(SortCalls(calls[..|calls| - 1]), calls[|calls| - 1])
  }

  predicate CallsInOrder(calls: seq<Step>) {
    forall i, j :: 0 <= i < j < |calls| ==> !EarlierCall(calls[j], calls[i])
  }

  lemma {:induction false} InsertCallCounts(calls: seq<Step>, s: Step, x: Step)
    ensures Count(InsertCall(calls, s), x) == Count(calls, x) + (if s == x then 1 else 0)
  {
    if calls == [] || !EarlierCall(s, calls[|calls| - 1]) {
      CountSnoc(calls, s, x);
    } else {
      var rest, last := calls[..|calls| - 1], calls[|calls| - 1];
      InsertCallCounts(rest, s, x);
      CountSnoc(InsertCall(rest, s), last, x);
    }
  }

  lemma {:induction false} InsertCallMembers(calls: seq<Step>, s: Step)
    ensures forall i :: 0 <= i < |InsertCall(calls, s)| ==>
            InsertCall(calls, s)[i] in calls || InsertCall(calls, s)[i] == s
  {
    if calls != [] && EarlierCall(s, calls[|calls| - 1]) {
      InsertCallMembers(calls[..|calls| - 1], s);
    }
  }

  lemma {:induction false} InsertCallOrders(calls: seq<Step>, s: Step)
    requires CallsInOrder(calls) && s.ModelStep? && forall i :: 0 <= i < |calls| ==> calls[i].ModelStep?
    ensures CallsInOrder(InsertCall(calls, s)) && forall i :: 0 <= i < |InsertCall(calls, s)| ==>
            InsertCall(calls, s)[i].ModelStep?
  {
    if calls != [] && EarlierCall(s, calls[|calls| - 1]) {
      var rest, last := calls[..|calls| - 1], calls[|calls| - 1];
      InsertCallOrders(rest, s);
      InsertCallMembers(rest, s);
      var r := InsertCall(rest, s);
      forall i | 0 <= i < |r|
        ensures !EarlierCall(last, r[i])
      {
        assert r[i] in r;
        if r[i] != s {
          var k :| 0 <= k < |rest| && rest[k] == r[i];
          assert calls[k] == r[i];
        }
      }
    } else if calls != [] {
      forall i | 0 <= i < |calls|
        ensures !EarlierCall(s, calls[i])
      {
        assert i < |calls| - 1 ==> !EarlierCall(calls[|calls| - 1], calls[i]);
      }
    }
  }

  lemma {:induction false} SortCallsCounts(calls: seq<Step>, x: Step)
    ensures Count(SortCalls(calls), x) == Count(calls, x)
  {
    if calls != [] {
      SortCallsCounts(calls[..|calls| - 1], x);
      InsertCallCounts(SortCalls(calls[..|calls| - 1]), calls[|calls| - 1], x);
    }
  }

  lemma {:induction false} SortCallsStayUnder(calls: seq<Step>, n: int)
    requires AllUnder(calls, n)
    ensures AllUnder(SortCalls(calls), n)
  {
    if calls != [] {
      SortCallsStayUnder(calls[..|calls| - 1], n);
      InsertCallMembers(SortCalls(calls[..|calls| - 1]), calls[|calls| - 1]);
    }
  }

  lemma {:induction false} SortCallsOrders(calls: seq<Step>)
    requires forall i :: 0 <= i < |calls| ==> calls[i].ModelStep?
    ensures CallsInOrder(SortCalls(calls)) && forall i :: 0 <= i < |SortCalls(calls)| ==> SortCalls(calls)[i].ModelStep?
  {
    if calls != [] {
      SortCallsOrders(calls[..|calls| - 1]);
      InsertCallOrders(SortCalls(calls[..|calls| - 1]), calls[|calls| - 1]);
    }
  }

  /** A group's steps: model calls in order, then entries, then observations. */
  function Segment(g: Group): seq<Step> {
    SortCalls(g.models) + g.entries + g.events
  }

  /** The segments of the first `k` planner steps. */
  function FlattenKeys(groups: map<int, Group>, keys: seq<int>, k: nat): seq<Step>
    requires k <= |keys|
  {
    if k == 0 then [] else FlattenKeys(groups, keys, k - 1) + Segment(GroupOf(groups, keys[k - 1]))
  }

  predicate Increasing(keys: seq<int>) {
    forall i, j :: 0 <= i < j < |keys| ==> keys[i] < keys[j]
  }

  predicate Nondecreasing(steps: seq<Step>) {
    forall i, j :: 0 <= i < j < |steps| ==> steps[i].step <= steps[j].step
  }

  lemma SegmentKeeps(g: Group, n: int, x: Step)
    requires Under(g, n)
    ensures AllUnder(Segment(g), n) && Count(Segment(g), x) == CountIn(g, x)
  {
    SortCallsCounts(g.models, x);
    SortCallsStayUnder(g.models, n);
    CountConcat(SortCalls(g.models) + g.entries, g.events, x);
    CountConcat(SortCalls(g.models), g.entries, x);
  }

  predicate NoneAbove(steps: seq<Step>, n: int) {
    forall i :: 0 <= i < |steps| ==> steps[i].step <= n
  }

  lemma ConcatOrders(a: seq<Step>, b: seq<Step>, n: int)
    requires Nondecreasing(a) && NoneAbove(a, n) && AllUnder(b, n)
    ensures Nondecreasing(a + b) && NoneAbove(a + b, n)
  {
  }

  lemma SegmentUnder(groups: map<int, Group>, n: int)
    requires Arranged(groups)
    ensures AllUnder(Segment(GroupOf(groups, n)), n)
  {
    SegmentKeeps(GroupOf(groups, n), n, ModelStep(0, 0, 0));
  }

  lemma Widen(steps: seq<Step>, n: int, bound: int)
    requires NoneAbove(steps, n) && n <= bound
    ensures NoneAbove(steps, bound)
  {
  }

  lemma {:induction false} FlattenOrders(groups: map<int, Group>, keys: seq<int>, k: nat)
    requires k <= |keys| && Increasing(keys) && Arranged(groups)
    ensures Nondecreasing(FlattenKeys(groups, keys, k))
    ensures k > 0 ==> NoneAbove(FlattenKeys(groups, keys, k), keys[k - 1])
  {
    if k > 0 {
      var before, segment := FlattenKeys(groups, keys, k - 1), Segment(GroupOf(groups, keys[k - 1]));
      FlattenOrders(groups, keys, k - 1);
      if k > 1 { Widen(before, keys[k - 2], keys[k - 1]); }
      SegmentUnder(groups, keys[k - 1]);
      ConcatOrders(before, segment, keys[k - 1]);
    }
  }

  /** How often a step occurs in one planner step's segment. */
  lemma SegmentCounts(groups: map<int, Group>, n: int, x: Step)
    requires Arranged(groups)
    ensures Count(Segment(GroupOf(groups, n)), x) == if x.step == n then CountIn(GroupOf(groups, n), x) else 0
  {
    SegmentKeeps(GroupOf(groups, n), n, x);
    if x.step != n { CountAbsent(Segment(GroupOf(groups, n)), x); }
  }

  lemma FlattenSnoc(groups: map<int, Group>, keys: seq<int>, k: nat, x: Step)
    requires 0 < k <= |keys| && Arranged(groups)
    ensures Count(FlattenKeys(groups, keys, k), x) == Count(FlattenKeys(groups, keys, k - 1), x) +
            (if x.step == keys[k - 1] then CountIn(GroupOf(groups, x.step), x) else 0)
  {
    SegmentCounts(groups, keys[k - 1], x);
    CountConcat(FlattenKeys(groups, keys, k - 1), Segment(GroupOf(groups, keys[k - 1])), x);
  }

  ghost predicate Occurs(keys: seq<int>, k: nat, n: int)
    requires k <= |keys|
  {
    exists i :: 0 <= i < k && keys[i] == n
  }

  lemma {:induction false} FlattenCounts(groups: map<int, Group>, keys: seq<int>, k: nat, x: Step)
    requires k <= |keys| && Increasing(keys) && Arranged(groups)
    ensures Count(FlattenKeys(groups, keys, k), x) ==
            if Occurs(keys, k, x.step) then CountIn(GroupOf(groups, x.step), x) else 0
  {
    if k > 0 {
      FlattenCounts(groups, keys, k - 1, x);
      FlattenSnoc(groups, keys, k, x);
      OccursSnoc(keys, k, x.step);
    }
  }

  lemma OccursSnoc(keys: seq<int>, k: nat, n: int)
    requires 0 < k <= |keys| && Increasing(keys)
    ensures Occurs(keys, k, n) <==> Occurs(keys, k - 1, n) || keys[k - 1] == n
    ensures !(Occurs(keys, k - 1, n) && keys[k - 1] == n)
  {
    if Occurs(keys, k - 1, n) {
      var i :| 0 <= i < k - 1 && keys[i] == n;
      assert 0 <= i < k && keys[i] == n;
    }
  }

  /** The flattened steps are the steps that were put, each as often as it was put,
      ordered by planner step. */
  lemma FlattenExactly(steps: seq<Step>, keys: seq<int>, x: Step)
    requires Increasing(keys) && forall n :: n in keys <==> n in PutAll(map[], steps)
    ensures Nondecreasing(FlattenKeys(PutAll(map[], steps), keys, |keys|))
    ensures Count(FlattenKeys(PutAll(map[], steps), keys, |keys|), x) == Count(steps, x)
  {
    var groups := PutAll(map[], steps);
    PutAllArranges(steps);
    PutAllCounts(steps, x);
    FlattenOrders(groups, keys, |keys|);
    FlattenCounts(groups, keys, |keys|, x);
    assert Occurs(keys, |keys|, x.step) <==> x.step in keys;
  }

  // ---------------------------------------------------------------- reading a run

  function CallSteps(calls: seq<ModelCall>, k: nat): map<CallKey, int>
    requires k <= |calls|
  {
    if k == 0 then map[] else CallSteps(calls, k - 1)[calls[k - 1].key := calls[k - 1].step]
  }

  function Models(calls: seq<ModelCall>, k: nat): seq<Step>
    requires k <= |calls|
  {
    if k == 0 then []
    else Models(calls, k - 1) + [ModelStep(calls[k - 1].step, calls[k - 1].number, calls[k - 1].attempt)]
  }

  /** The planner steps of a run's model calls. */
  function StepsOfCalls(run: Run): map<CallKey, int> {
    CallSteps(run.calls, |run.calls|)
  }

  /** How far entries are read up to an ID. */
  function Reach(entries: seq<Entry>, position: nat, last: int): (upto: nat)
    requires position <= |entries|
    ensures position <= upto <= |entries|
    decreases |entries| - position
  {
    if position == |entries| || entries[position].id > last then position else Reach(entries, position + 1, last)
  }

  /** What each entry yields when read by planner step `step`. */
  function Chunks(callSteps: map<CallKey, int>, step: int, entries: seq<Entry>): (chunks: seq<seq<Step>>)
    ensures |chunks| == |entries| && forall i :: 0 <= i < |entries| ==>
            chunks[i] == StepsOf(callSteps, step, entries[i])
  {
    seq(|entries|, i requires 0 <= i < |entries| => StepsOf(callSteps, step, entries[i]))
  }

  /** `added` and chunks `from` up to `upto`. */
  function AddChunks(chunks: seq<seq<Step>>, added: seq<Step>, from: nat, upto: nat): seq<Step>
    requires from <= upto <= |chunks|
    decreases upto
  {
    if from == upto then added else AddChunks(chunks, added, from, upto - 1) + chunks[upto - 1]
  }

  /** `added` and the steps of entries `from` up to `upto`, read by one planner step. */
  function AddSteps(callSteps: map<CallKey, int>, step: int, entries: seq<Entry>, added: seq<Step>, from: nat,
      upto: nat): seq<Step>
    requires from <= upto <= |entries|
    decreases upto
  {
    if from == upto then added
    else AddSteps(callSteps, step, entries, added, from, upto - 1) + StepsOf(callSteps, step, entries[upto - 1])
  }

  lemma {:induction false} StepsAreChunks(callSteps: map<CallKey, int>, step: int, entries: seq<Entry>,
      added: seq<Step>, from: nat, upto: nat)
    requires from <= upto <= |entries|
    ensures AddSteps(callSteps, step, entries, added, from, upto) ==
            AddChunks(Chunks(callSteps, step, entries), added, from, upto)
    decreases upto
  {
    if from < upto { StepsAreChunks(callSteps, step, entries, added, from, upto - 1); }
  }

  /** The current planner step and how many entries were read. */
  datatype Cursor = Cursor(step: int, position: nat)

  function MoveTo(run: Run, position: nat, step: int, last: int): Option<Cursor>
    requires position <= |run.entries|
  {
    var upto := Reach(run.entries, position, last);
    if AddEntries(StepsOfCalls(run), run.entries, upto).None? then None else Some(Cursor(step, upto))
  }

  function ReadEvent(run: Run, c: Cursor, event: Event): Option<Cursor>
    requires c.position <= |run.entries|
  {
    match event
    case PlannerStep(boundary) =>
      if boundary.None? then None else MoveTo(run, c.position, boundary.value.step, boundary.value.end)
    case Observed(stamp) => if stamp.None? then None else Some(c)
    case ChildRunLinked(_) => Some(c)
    case Unobserved => Some(c)
  }

  /** The first `k` events. */
  function ReadEvents(run: Run, k: nat): (c: Option<Cursor>)
    requires k <= |run.events|
    ensures c.Some? ==> c.value.position <= |run.entries|
  {
    if k == 0 then Some(Cursor(0, 0))
    else
      var before := ReadEvents(run, k - 1);
      if before.None? then None else ReadEvent(run, before.value, run.events[k - 1])
  }

  /** All events, then the entries behind the last boundary. */
  function ReadRun(run: Run): Option<Cursor> {
    var c := ReadEvents(run, |run.events|);
    if c.None? || run.entries == [] then c
    else MoveTo(run, c.value.position, c.value.step, run.entries[|run.entries| - 1].id)
  }

  /** The steps after one more event. */
  function AddEvent(run: Run, c: Cursor, event: Event, k: nat, added: seq<Step>): seq<Step>
    requires c.position <= |run.entries|
  {
    if event.PlannerStep? && event.boundary.Some? then
      AddSteps(StepsOfCalls(run), event.boundary.value.step, run.entries, added, c.position,
               Reach(run.entries, c.position, event.boundary.value.end))
    else if event.Observed? && event.stamp.Some? then
      added + [EventStep(if event.stamp.value.step.Some? then event.stamp.value.step.value else c.step, k)]
    else added
  }

  /** The steps of the model calls and the first `k` events. */
  function Added(run: Run, k: nat): seq<Step>
    requires k <= |run.events|
  {
    if k == 0 then Models(run.calls, |run.calls|)
    else
      var before := ReadEvents(run, k - 1);
      if before.None? then [] else AddEvent(run, before.value, run.events[k - 1], k - 1, Added(run, k - 1))
  }

  /** All steps of a run, in the order they are found. */
  function AllAdded(run: Run): seq<Step> {
    var c := ReadEvents(run, |run.events|);
    if c.None? then Added(run, |run.events|) else WithTail(run, c.value, Added(run, |run.events|))
  }

  /** The steps with those of the entries behind the last boundary. */
  function WithTail(run: Run, c: Cursor, added: seq<Step>): seq<Step>
    requires c.position <= |run.entries|
  {
    if run.entries == [] then added
    else AddSteps(StepsOfCalls(run), c.step, run.entries, added, c.position,
                  Reach(run.entries, c.position, run.entries[|run.entries| - 1].id))
  }

  predicate AscendingIds(entries: seq<Entry>) {
    forall i, j :: 0 <= i < j < |entries| ==> entries[i].id < entries[j].id
  }

  predicate EventsDecode(run: Run, k: nat)
    requires k <= |run.events|
  {
    forall i :: 0 <= i < k ==>
      (run.events[i].PlannerStep? ==> run.events[i].boundary.Some?)
        && (run.events[i].Observed? ==> run.events[i].stamp.Some?)
  }

  /** Entries that join have joined prefixes. */
  lemma {:induction false} JoinedPrefix(callSteps: map<CallKey, int>, entries: seq<Entry>, j: nat, k: nat)
    requires j <= k <= |entries| && AddEntries(callSteps, entries, k).Some?
    ensures AddEntries(callSteps, entries, j).Some?
  {
    if j < k { JoinedPrefix(callSteps, entries, j, k - 1); }
  }

  lemma {:induction false} ReachesEnd(entries: seq<Entry>, position: nat)
    requires entries != [] && AscendingIds(entries) && position <= |entries|
    ensures Reach(entries, position, entries[|entries| - 1].id) == |entries|
    decreases |entries| - position
  {
    if position < |entries| { ReachesEnd(entries, position + 1); }
  }

  lemma {:induction false} EventsRead(run: Run, k: nat)
    requires k <= |run.events|
    ensures ReadEvents(run, k).Some? ==>
              EventsDecode(run, k) && AddEntries(StepsOfCalls(run), run.entries,
                ReadEvents(run, k).value.position).Some?
    ensures EventsDecode(run, k) && AddEntries(StepsOfCalls(run), run.entries, |run.entries|).Some? ==>
            ReadEvents(run, k).Some?
  {
    if k > 0 {
      EventsRead(run, k - 1);
      var before := ReadEvents(run, k - 1);
      if EventsDecode(run, k) && AddEntries(StepsOfCalls(run), run.entries, |run.entries|).Some?
        && run.events[k - 1].PlannerStep? {
        JoinedPrefix(StepsOfCalls(run), run.entries,
                     Reach(run.entries, before.value.position, run.events[k - 1].boundary.value.end), |run.entries|);
      }
    }
  }

  /** A run is read exactly when its events decode and its entries join; then every
      entry has been read. */
  lemma ReadExactly(run: Run)
    requires AscendingIds(run.entries)
    ensures ReadRun(run).Some? <==>
            EventsDecode(run, |run.events|) && AddEntries(StepsOfCalls(run), run.entries, |run.entries|).Some?
    ensures ReadRun(run).Some? ==> ReadRun(run).value.position == |run.entries|
  {
    EventsRead(run, |run.events|);
    var p := ReadEvents(run, |run.events|);
    if run.entries != [] && p.Some? { ReachesEnd(run.entries, p.value.position); }
  }

  // ---------------------------------------------------------------- every entry once

  /** The entry a step came from and the tool it calls, whatever its planner step. */
  datatype Evidence = Evidence(entry: int, tool: Option<ToolId>)

  function One(s: Step): seq<Evidence> {
    if s.ToolStep? then [Evidence(s.entry, Some(s.tool))] else if s.AnswerStep? then [Evidence(s.entry, None)] else []
  }

  function EvidenceUpTo(steps: seq<Step>, k: nat): seq<Evidence>
    requires k <= |steps|
  {
    if k == 0 then [] else EvidenceUpTo(steps, k - 1) + One(steps[k - 1])
  }

  function EvidenceOf(steps: seq<Step>): seq<Evidence> {
    EvidenceUpTo(steps, |steps|)
  }

  lemma {:induction false} EvidencePrefix(a: seq<Step>, b: seq<Step>, k: nat)
    requires k <= |a|
    ensures EvidenceUpTo(a + b, k) == EvidenceUpTo(a, k)
  {
    if k > 0 { EvidencePrefix(a, b, k - 1); }
  }

  lemma EvidenceSnoc(steps: seq<Step>, s: Step)
    ensures EvidenceOf(steps + [s]) == EvidenceOf(steps) + One(s)
  {
    EvidencePrefix(steps, [s], |steps|);
  }

  /** The first `k` parts, strung together. */
  function Joined(parts: seq<seq<Evidence>>, k: nat): seq<Evidence>
    requires k <= |parts|
  {
    if k == 0 then [] else Joined(parts, k - 1) + parts[k - 1]
  }

  function Parts(entries: seq<Entry>): (parts: seq<seq<Evidence>>)
    ensures |parts| == |entries| && forall i :: 0 <= i < |entries| ==> parts[i] == EvidenceIn(entries[i])
  {
    seq(|entries|, i requires 0 <= i < |entries| => EvidenceIn(entries[i]))
  }

  /** What the first `k` entries hold for a reader, in order. */
  function Expected(entries: seq<Entry>, k: nat): seq<Evidence>
    requires k <= |entries|
  {
    Joined(Parts(entries), k)
  }

  function EvidenceIn(e: Entry): seq<Evidence> {
    if e.kind.Assistant? then CallEvidenceOf(e.id, e.kind.calls, |e.kind.calls|)
    else if e.kind.Answer? then [Evidence(e.id, None)]
    else []
  }

  lemma Glue(left: seq<Evidence>, right: seq<Evidence>, last: seq<Evidence>)
    ensures (left + right) + last == left + (right + last)
  {
  }

  lemma {:induction false} EvidenceConcatUpTo(a: seq<Step>, b: seq<Step>, k: nat)
    requires k <= |b|
    ensures EvidenceUpTo(a + b, |a| + k) == EvidenceOf(a) + EvidenceUpTo(b, k)
  {
    if k == 0 {
      EvidencePrefix(a, b, |a|);
    } else {
      EvidenceConcatUpTo(a, b, k - 1);
      assert (a + b)[|a| + k - 1] == b[k - 1];
      Glue(EvidenceOf(a), EvidenceUpTo(b, k - 1), One(b[k - 1]));
    }
  }

  lemma EvidenceConcat(a: seq<Step>, b: seq<Step>)
    ensures EvidenceOf(a + b) == EvidenceOf(a) + EvidenceOf(b)
  {
    EvidenceConcatUpTo(a, b, |b|);
  }

  function CallEvidenceOf(entry: int, calls: seq<Option<Request>>, k: nat): seq<Evidence>
    requires k <= |calls|
  {
    if k == 0 then []
    else if calls[k - 1].None? then CallEvidenceOf(entry, calls, k - 1)
    else CallEvidenceOf(entry, calls, k - 1) + [Evidence(entry, Some(calls[k - 1].value.id))]
  }

  lemma {:induction false} CallEvidence(step: int, entry: int, calls: seq<Option<Request>>, k: nat)
    requires k <= |calls|
    ensures EvidenceOf(CallStepsOf(step, entry, calls, k)) == CallEvidenceOf(entry, calls, k)
  {
    if k > 0 {
      CallEvidence(step, entry, calls, k - 1);
      if calls[k - 1].Some? {
        EvidenceSnoc(CallStepsOf(step, entry, calls, k - 1), ToolStep(step, entry, calls[k - 1].value.id));
      }
    }
  }

  lemma EntryEvidence(callSteps: map<CallKey, int>, step: int, e: Entry)
    ensures EvidenceOf(StepsOf(callSteps, step, e)) == EvidenceIn(e)
  {
    if e.kind.Assistant? {
      CallEvidence(if e.kind.call.Some? && e.kind.call.value in callSteps then callSteps[e.kind.call.value] else step,
                   e.id, e.kind.calls, |e.kind.calls|);
    } else if e.kind.Answer? {
      assert EvidenceUpTo([AnswerStep(step, e.id)], 1) ==
        EvidenceUpTo([AnswerStep(step, e.id)], 0) + One(AnswerStep(step, e.id));
    }
  }

  lemma {:induction false} ChunkEvidence(chunks: seq<seq<Step>>, parts: seq<seq<Evidence>>, added: seq<Step>, from: nat,
      upto: nat)
    requires |chunks| == |parts| && from <= upto <= |chunks|
    requires forall i :: 0 <= i < |chunks| ==> EvidenceOf(chunks[i]) == parts[i]
    requires EvidenceOf(added) == Joined(parts, from)
    ensures EvidenceOf(AddChunks(chunks, added, from, upto)) == Joined(parts, upto)
    decreases upto
  {
    if from < upto {
      ChunkEvidence(chunks, parts, added, from, upto - 1);
      EvidenceConcat(AddChunks(chunks, added, from, upto - 1), chunks[upto - 1]);
    }
  }

  lemma AddedEvidence(callSteps: map<CallKey, int>, step: int, entries: seq<Entry>, added: seq<Step>, from: nat,
      upto: nat)
    requires from <= upto <= |entries| && EvidenceOf(added) == Expected(entries, from)
    ensures EvidenceOf(AddSteps(callSteps, step, entries, added, from, upto)) == Expected(entries, upto)
  {
    var chunks, parts := Chunks(callSteps, step, entries), Parts(entries);
    forall i | 0 <= i < |entries|
      ensures EvidenceOf(chunks[i]) == parts[i]
    {
      EntryEvidence(callSteps, step, entries[i]);
    }
    ChunkEvidence(chunks, parts, added, from, upto);
    StepsAreChunks(callSteps, step, entries, added, from, upto);
  }

  lemma {:induction false} ModelsHaveNoEvidence(calls: seq<ModelCall>, k: nat)
    requires k <= |calls|
    ensures EvidenceOf(Models(calls, k)) == []
  {
    if k > 0 {
      ModelsHaveNoEvidence(calls, k - 1);
      EvidenceSnoc(Models(calls, k - 1), ModelStep(calls[k - 1].step, calls[k - 1].number, calls[k - 1].attempt));
    }
  }

  lemma {:induction false} EventsEvidence(run: Run, k: nat)
    requires k <= |run.events| && ReadEvents(run, k).Some?
    ensures EvidenceOf(Added(run, k)) == Expected(run.entries, ReadEvents(run, k).value.position)
  {
    if k == 0 {
      ModelsHaveNoEvidence(run.calls, |run.calls|);
    } else {
      EventsEvidence(run, k - 1);
      EventEvidence(run, ReadEvents(run, k - 1).value, run.events[k - 1], k - 1, Added(run, k - 1));
    }
  }

  lemma EventEvidence(run: Run, c: Cursor, event: Event, k: nat, added: seq<Step>)
    requires c.position <= |run.entries| && ReadEvent(run, c, event).Some?
             && EvidenceOf(added) == Expected(run.entries, c.position)
    ensures EvidenceOf(AddEvent(run, c, event, k, added)) ==
            Expected(run.entries, ReadEvent(run, c, event).value.position)
  {
    if event.PlannerStep? {
      AddedEvidence(StepsOfCalls(run), event.boundary.value.step, run.entries, added, c.position,
                    Reach(run.entries, c.position, event.boundary.value.end));
    } else if event.Observed? {
      EvidenceSnoc(added, EventStep(if event.stamp.value.step.Some? then event.stamp.value.step.value else c.step, k));
    }
  }

  lemma TailEvidence(run: Run, c: Cursor, added: seq<Step>)
    requires AscendingIds(run.entries) && c.position <= |run.entries|
    requires EvidenceOf(added) == Expected(run.entries, c.position)
    ensures EvidenceOf(WithTail(run, c, added)) == Expected(run.entries, |run.entries|)
  {
    if run.entries != [] {
      var reach := Reach(run.entries, c.position, run.entries[|run.entries| - 1].id);
      assert reach == |run.entries| by { ReachesEnd(run.entries, c.position); }
      AddedEvidence(StepsOfCalls(run), c.step, run.entries, added, c.position, reach);
    }
  }

  /** Whatever the boundaries, the steps of a read run show every entry's tool calls and
      answers exactly once and in order. */
  lemma EveryEntryOnce(run: Run)
    requires AscendingIds(run.entries) && ReadEvents(run, |run.events|).Some?
    ensures EvidenceOf(AllAdded(run)) == Expected(run.entries, |run.entries|)
  {
    EventsEvidence(run, |run.events|);
    TailEvidence(run, ReadEvents(run, |run.events|).value, Added(run, |run.events|));
  }
}
