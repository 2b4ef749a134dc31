/** The toolset request stream as the call queue: bounded publication, consumer
    group delivery and acknowledgement, and MINID trimming. */
module RequestQueue {
  import opened Basics
  import opened StreamIds

  datatype Entry = Entry(id: StreamId, event: string)

  /** One consumer group: the last delivered entry and the delivered entries not
      acknowledged yet, oldest first. */
  datatype Group = Group(name: string, last: StreamId, pending: seq<StreamId>)

  datatype Queue = Queue(entries: seq<Entry>, last: StreamId, groups: seq<Group>)

  datatype Reply = Full(backlog: nat) | Appended(id: StreamId)

  const EMPTY := Queue([], ZERO, [])

  // ---------------------------------------------------------------- the script

  /** The entries after `last`, oldest first. */
  function After(entries: seq<Entry>, last: StreamId): (r: seq<Entry>)
    ensures |r| <= |entries|
  {
    if entries == [] then []
    else if Before(last, entries[0].id) then [entries[0]] + After(entries[1..], last)
    else After(entries[1..], last)
  }

  /** What one group still has to process: its unread and its pending entries. */
  function Exact(entries: seq<Entry>, g: Group): nat {
    |After(entries, g.last)| + |g.pending|
  }

  /** The script's figure, which stops counting unread entries after `bound + 1`. */
  function Capped(entries: seq<Entry>, g: Group, bound: nat): nat {
    var unread := |After(entries, g.last)|;
    (if unread > bound + 1 then bound + 1 else unread) + |g.pending|
  }

  function LargestCapped(entries: seq<Entry>, groups: seq<Group>, bound: nat): nat {
    if groups == [] then 0
    else
      var others := LargestCapped(entries, groups[..|groups| - 1], bound);
      var mine := Capped(entries, groups[|groups| - 1], bound);
      if mine > others then mine else others
  }

  function Backlog(q: Queue, bound: nat): nat {
    if q.groups == [] then |q.entries| else LargestCapped(q.entries, q.groups, bound)
  }

  /** The earliest entry a group may still need. */
  function Candidate(g: Group): StreamId {
    if g.pending == [] then g.last else g.pending[0]
  }

  function TrimId(groups: seq<Group>): (r: Option<StreamId>)
    ensures r.Some? <==> groups != []
  {
    if groups == [] then None
    else
      var others := TrimId(groups[..|groups| - 1]);
      var mine := Candidate(groups[|groups| - 1]);
      if others.None? || Before(mine, others.value) then Some(mine) else others
  }

  /** How many of the oldest entries MINID may remove; the approximate form removes
      at most `trim` of them, whatever that number is. */
  function Removable(entries: seq<Entry>, minId: StreamId, trim: nat): (n: nat)
    ensures n <= |entries|
    ensures forall i :: 0 <= i < n ==> Before(entries[i].id, minId)
  {
    if trim == 0 || entries == [] || !Before(entries[0].id, minId) then 0
    else 1 + Removable(entries[1..], minId, trim - 1)
  }

  function Trimmed(entries: seq<Entry>, minId: Option<StreamId>, trim: nat): seq<Entry> {
    if minId.None? then entries else entries[Removable(entries, minId.value, trim)..]
  }

  /** Bounded publication; a zero bound appends unconditionally. */
  function PublishAt(q: Queue, bound: nat, now: nat, event: string, trim: nat): (Queue, Reply) {
    if bound > 0 && Backlog(q, bound) >= bound then
      (q, Full(Backlog(q, bound)))
    else
      var id := NextId(q.last, now);
      var grown := q.entries + [Entry(id, event)];
      (q.(entries := Trimmed(grown, TrimId(q.groups), trim), last := id), Appended(id))
  }

  // ---------------------------------------------------------------- consumers

  predicate HasGroup(q: Queue, name: string) {
    exists i :: 0 <= i < |q.groups| && q.groups[i].name == name
  }

  function CreateGroup(q: Queue, name: string, start: StreamId): Queue {
    if HasGroup(q, name) || Before(q.last, start) then q
    else q.(groups := q.groups + [Group(name, start, [])])
  }

  /** Delivers the next unread entry to the group. */
  function Deliver(entries: seq<Entry>, g: Group): Group {
    var unread := After(entries, g.last);
    if unread == [] then g else g.(last := unread[0].id, pending := g.pending + [unread[0].id])
  }

  function Without(pending: seq<StreamId>, id: StreamId): seq<StreamId> {
    if pending == [] then []
    else if pending[0] == id then Without(pending[1..], id)
    else [pending[0]] + Without(pending[1..], id)
  }

  function Read(q: Queue, i: nat): Queue {
    if i >= |q.groups| then q else q.(groups := q.groups[i := Deliver(q.entries, q.groups[i])])
  }

  function Ack(q: Queue, i: nat, id: StreamId): Queue {
    if i >= |q.groups| then q
    else q.(groups := q.groups[i := q.groups[i].(pending := Without(q.groups[i].pending, id))])
  }

  datatype Event =
    | Publish(bound: nat, now: nat, event: string, trim: nat)
    | NewGroup(name: string, start: StreamId)
    | ReadNext(group: nat)
    | Acknowledge(group: nat, id: StreamId)

  function Apply(q: Queue, e: Event): Queue {
    match e
    case Publish(bound, now, event, trim) => PublishAt(q, bound, now, event, trim).0
    case NewGroup(name, start) => CreateGroup(q, name, start)
    case ReadNext(i) => Read(q, i)
    case Acknowledge(i, id) => Ack(q, i, id)
  }

  // ---------------------------------------------------------------- outstanding work

  /** The entries group `g` has not finished: unread ones and delivered ones that
      are not acknowledged. */
  function Outstanding(entries: seq<Entry>, g: Group): set<StreamId> {
    (set e | e in entries && Before(g.last, e.id) :: e.id) + (set id | id in g.pending)
  }

  function Ids(entries: seq<Entry>): set<StreamId> {
    set e | e in entries :: e.id
  }

  predicate Ascending(ids: seq<StreamId>) {
    forall i, j :: 0 <= i < j < |ids| ==> Before(ids[i], ids[j])
  }

  /** Delivered entries are at or before the last delivered one, in order, and
      every outstanding entry is still stored. */
  predicate Served(entries: seq<Entry>, g: Group) {
    && Ascending(g.pending)
    && (forall id :: id in g.pending ==> AtOrBefore(id, g.last))
    && Outstanding(entries, g) <= Ids(entries)
  }

  predicate Ordered(entries: seq<Entry>, last: StreamId) {
    && (forall i, j :: 0 <= i < j < |entries| ==> Before(entries[i].id, entries[j].id))
    && (forall e :: e in entries ==> AtOrBefore(e.id, last))
  }

  predicate Valid(q: Queue) {
    && Ordered(q.entries, q.last)
    && (forall i :: 0 <= i < |q.groups| ==> Served(q.entries, q.groups[i]) && AtOrBefore(q.groups[i].last, q.last))
  }

  lemma {:induction false} TrimIdIsEarliest(groups: seq<Group>, i: nat)
    requires i < |groups|
    ensures AtOrBefore(TrimId(groups).value, Candidate(groups[i]))
  {
    var k := |groups| - 1;
    if i < k { TrimIdIsEarliest(groups[..k], i); }
  }

  /** MINID trimming never removes an entry that some group has not finished. */
  lemma TrimKeepsOutstanding(entries: seq<Entry>, groups: seq<Group>, trim: nat, i: nat)
    requires i < |groups| && Served(entries, groups[i])
    ensures var kept := Trimmed(entries, TrimId(groups), trim);
            Outstanding(kept, groups[i]) == Outstanding(entries, groups[i]) <= Ids(kept)
  {
    var g := groups[i];
    var minId := TrimId(groups).value;
    var n := Removable(entries, minId, trim);
    var kept := entries[n..];
    TrimIdIsEarliest(groups, i);
    forall id | id in Outstanding(entries, g)
      ensures id in Outstanding(kept, g) && id in Ids(kept)
    {
      assert AtOrBefore(Candidate(g), id) by {
        if id in g.pending {
          var k :| 0 <= k < |g.pending| && g.pending[k] == id;
        } else if g.pending != [] {
          assert g.pending[0] in g.pending;
        }
      }
      var j :| 0 <= j < |entries| && entries[j].id == id;
      assert j >= n;
      assert kept[j - n] == entries[j];
    }
  }

  // ---------------------------------------------------------------- the bound

  lemma {:induction false} LargestCappedReaches(entries: seq<Entry>, groups: seq<Group>, bound: nat)
    requires bound > 0
    ensures LargestCapped(entries, groups, bound) >= bound <==>
            exists i :: 0 <= i < |groups| && Exact(entries, groups[i]) >= bound
  {
    if groups != [] {
      var k := |groups| - 1;
      LargestCappedReaches(entries, groups[..k], bound);
      assert Capped(entries, groups[k], bound) >= bound <==> Exact(entries, groups[k]) >= bound;
      if i :| 0 <= i < |groups| && Exact(entries, groups[i]) >= bound && i < k {
        assert groups[..k][i] == groups[i];
      }
      if i :| 0 <= i < k && Exact(entries, groups[..k][i]) >= bound {
        assert groups[i] == groups[..k][i];
      }
    }
  }

  /** A bounded publication appends exactly when every group's true unread plus
      pending count, or the stream length without groups, is below the bound, even
      though the script stops counting unread entries early. */
  lemma AppendsExactlyBelowBound(q: Queue, bound: nat, now: nat, event: string, trim: nat)
    ensures PublishAt(q, bound, now, event, trim).1.Appended? <==>
            || bound == 0
            || (if q.groups == [] then |q.entries| < bound
                else forall i :: 0 <= i < |q.groups| ==> Exact(q.entries, q.groups[i]) < bound)
  {
    if bound > 0 {
      LargestCappedReaches(q.entries, q.groups, bound);
    }
  }

  // ---------------------------------------------------------------- conservation

  lemma {:induction false} AfterSelects(entries: seq<Entry>, last: StreamId)
    requires forall i, j :: 0 <= i < j < |entries| ==> Before(entries[i].id, entries[j].id)
    ensures forall e :: e in After(entries, last) <==> e in entries && Before(last, e.id)
    ensures After(entries, last) != [] ==>
              forall e :: e in entries && Before(last, e.id) ==> AtOrBefore(After(entries, last)[0].id, e.id)
  {
    if entries != [] {
      AfterSelects(entries[1..], last);
      assert entries == [entries[0]] + entries[1..];
    }
  }

  lemma GrowKeepsOrder(entries: seq<Entry>, last: StreamId, e: Entry, minId: Option<StreamId>, trim: nat)
    requires Ordered(entries, last) && Before(last, e.id)
    ensures Ordered(Trimmed(entries + [e], minId, trim), e.id)
  {
    var grown := entries + [e];
    forall i | 0 <= i < |grown|
      ensures AtOrBefore(grown[i].id, e.id) && (i < |entries| ==> Before(grown[i].id, e.id))
    {
      assert i < |entries| ==> grown[i] in entries;
    }
  }

  lemma PublishConserves(q: Queue, bound: nat, now: nat, event: string, trim: nat)
    requires Valid(q)
    ensures var (q', reply) := PublishAt(q, bound, now, event, trim);
            && Valid(q') && |q'.groups| == |q.groups|
            && forall i :: 0 <= i < |q.groups| ==>
                 Outstanding(q'.entries, q'.groups[i]) ==
                 Outstanding(q.entries, q.groups[i]) + (if reply.Appended? then {reply.id} else {})
  {
    var (q', reply) := PublishAt(q, bound, now, event, trim);
    if reply.Appended? {
      var id := NextId(q.last, now);
      var grown := q.entries + [Entry(id, event)];
      GrowKeepsOrder(q.entries, q.last, Entry(id, event), TrimId(q.groups), trim);
      forall i | 0 <= i < |q.groups|
        ensures Served(q'.entries, q'.groups[i]) && AtOrBefore(q'.groups[i].last, id)
        ensures Outstanding(q'.entries, q.groups[i]) == Outstanding(q.entries, q.groups[i]) + {id}
      {
        AppendServes(q.entries, Entry(id, event), q.groups[i]);
        TrimKeepsOutstanding(grown, q.groups, trim, i);
      }
    }
  }

  lemma AppendServes(entries: seq<Entry>, e: Entry, g: Group)
    requires Served(entries, g) && Before(g.last, e.id)
    ensures Served(entries + [e], g)
    ensures Outstanding(entries + [e], g) == Outstanding(entries, g) + {e.id}
  {
    assert e in entries + [e];
    assert Ids(entries + [e]) == Ids(entries) + {e.id};
  }

  /** A read delivers the earliest entry behind what the group was delivered, if any. */
  lemma DeliversExactly(entries: seq<Entry>, last: StreamId, g: Group)
    requires Ordered(entries, last)
    ensures var d := Deliver(entries, g);
            if exists e :: e in entries && Before(g.last, e.id) then
              && Before(g.last, d.last) && d.pending == g.pending + [d.last] && d.name == g.name
              && (exists e :: e in entries && e.id == d.last)
              && forall e :: e in entries && Before(g.last, e.id) ==> AtOrBefore(d.last, e.id)
            else d == g
  {
    AfterSelects(entries, g.last);
    var unread := After(entries, g.last);
    if unread != [] { assert unread[0] in unread; }
  }

  lemma DeliverConserves(entries: seq<Entry>, last: StreamId, g: Group)
    requires Ordered(entries, last) && Served(entries, g) && AtOrBefore(g.last, last)
    ensures Served(entries, Deliver(entries, g)) && AtOrBefore(Deliver(entries, g).last, last)
    ensures Outstanding(entries, Deliver(entries, g)) == Outstanding(entries, g)
  {
    DeliversExactly(entries, last, g);
    var d := Deliver(entries, g);
    if d != g {
      assert forall id :: id in d.pending <==> id in g.pending || id == d.last;
      forall k | 0 <= k < |g.pending|
        ensures Before(g.pending[k], d.last)
      {
        assert g.pending[k] in g.pending;
      }
    }
  }

  lemma {:induction false} WithoutDrops(pending: seq<StreamId>, id: StreamId)
    requires Ascending(pending)
    ensures Ascending(Without(pending, id))
    ensures forall x :: x in Without(pending, id) <==> x in pending && x != id
  {
    if pending != [] {
      WithoutDrops(pending[1..], id);
      assert pending == [pending[0]] + pending[1..];
      assert forall x :: x in pending[1..] ==> Before(pending[0], x);
    }
  }

  /** Acknowledging removes the entry from the group's work only once it has been
      delivered; an unread entry stays. */
  lemma AckConserves(entries: seq<Entry>, g: Group, id: StreamId)
    requires Served(entries, g)
    ensures var g' := g.(pending := Without(g.pending, id));
            Served(entries, g') && Outstanding(entries, g') ==
            if AtOrBefore(id, g.last) then Outstanding(entries, g) - {id} else Outstanding(entries, g)
  {
    WithoutDrops(g.pending, id);
  }

  // ---------------------------------------------------------------- runs

  function Run(q: Queue, run: seq<Event>): Queue
    decreases run
  {
    if run == [] then q else Run(Apply(q, run[0]), run[1..])
  }

  /** The identifiers a run appends. */
  function AppendedBy(q: Queue, run: seq<Event>): set<StreamId>
    decreases run
  {
    if run == [] then {}
    else
      var later := AppendedBy(Apply(q, run[0]), run[1..]);
      match run[0]
      case Publish(bound, now, event, trim) =>
        var reply := PublishAt(q, bound, now, event, trim).1;
        if reply.Appended? then later + {reply.id} else later
      case _ => later
  }

  /** The entries group number `i` acknowledges after their delivery. */
  function AckedBy(q: Queue, run: seq<Event>, i: nat): set<StreamId>
    decreases run
  {
    if run == [] then {}
    else
      var later := AckedBy(Apply(q, run[0]), run[1..], i);
      match run[0]
      case Acknowledge(g, id) =>
        if g == i && i < |q.groups| && AtOrBefore(id, q.groups[i].last) then later + {id} else later
      case _ => later
  }

  lemma StepConserves(q: Queue, e: Event, i: nat)
    requires Valid(q) && i < |q.groups|
    ensures Valid(Apply(q, e)) && i < |Apply(q, e).groups| && AtOrBefore(q.last, Apply(q, e).last)
    ensures Outstanding(Apply(q, e).entries, Apply(q, e).groups[i]) ==
            Outstanding(q.entries, q.groups[i]) + AppendedBy(q, [e]) - AckedBy(q, [e], i)
  {
    StepKeepsValid(q, e);
    match e {
      case Publish(bound, now, event, trim) => PublishConserves(q, bound, now, event, trim);
      case NewGroup(name, start) =>
      case ReadNext(g) => DeliverConserves(q.entries, q.last, q.groups[i]);
      case Acknowledge(g, id) => AckConserves(q.entries, q.groups[i], id);
    }
  }

  lemma StepKeepsValid(q: Queue, e: Event)
    requires Valid(q)
    ensures Valid(Apply(q, e)) && |q.groups| <= |Apply(q, e).groups| && AtOrBefore(q.last, Apply(q, e).last)
  {
    match e {
      case Publish(bound, now, event, trim) => PublishConserves(q, bound, now, event, trim);
      case NewGroup(name, start) =>
      case ReadNext(g) => if g < |q.groups| { DeliverConserves(q.entries, q.last, q.groups[g]); }
      case Acknowledge(g, id) => if g < |q.groups| { AckConserves(q.entries, q.groups[g], id); }
    }
  }

  /** Whatever publishes, reads and acknowledges, in any order, from any state on. */
  lemma {:induction false} RunKeepsValid(q: Queue, run: seq<Event>)
    requires Valid(q)
    ensures Valid(Run(q, run)) && |q.groups| <= |Run(q, run).groups| && AtOrBefore(q.last, Run(q, run).last)
    decreases run
  {
    if run != [] {
      StepKeepsValid(q, run[0]);
      RunKeepsValid(Apply(q, run[0]), run[1..]);
    }
  }

  /** Every state of a stream that starts empty, without groups, serves all groups it
      has by then: each finds all its unread and pending entries stored. */
  lemma ReachableServes(run: seq<Event>, i: nat)
    requires i < |Run(EMPTY, run).groups|
    ensures var q := Run(EMPTY, run); Valid(q) && Outstanding(q.entries, q.groups[i]) <= Ids(q.entries)
  {
    RunKeepsValid(EMPTY, run);
    NothingIsLost(Run(EMPTY, run), [], i);
  }

  /** Appended identifiers are new: after everything the stream generated before. */
  lemma {:induction false} AppendedAreNew(q: Queue, run: seq<Event>)
    requires Valid(q)
    ensures forall id :: id in AppendedBy(q, run) ==> Before(q.last, id)
    decreases run
  {
    if run != [] {
      StepKeepsValid(q, run[0]);
      AppendedAreNew(Apply(q, run[0]), run[1..]);
    }
  }

  /** No queue entry is lost: over every run of publications, group creations,
      deliveries and acknowledgements, a group's unfinished work is exactly what it
      had, plus everything appended, minus what it acknowledged; and all of it is
      still stored in the stream. */
  lemma {:induction false} NothingIsLost(q: Queue, run: seq<Event>, i: nat)
    requires Valid(q) && i < |q.groups|
    ensures var f := Run(q, run);
            && Valid(f) && i < |f.groups|
            && Outstanding(f.entries, f.groups[i]) ==
               Outstanding(q.entries, q.groups[i]) + AppendedBy(q, run) - AckedBy(q, run, i)
            && Outstanding(f.entries, f.groups[i]) <= Ids(f.entries)
    decreases run
  {
    if run != [] {
      var e := run[0];
      var m := Apply(q, e);
      StepConserves(q, e, i);
      NothingIsLost(m, run[1..], i);
      AppendedAreNew(m, run[1..]);
      assert AppendedBy(q, run) == AppendedBy(q, [e]) + AppendedBy(m, run[1..]);
      assert AckedBy(q, run, i) == AckedBy(q, [e], i) + AckedBy(m, run[1..], i);
      forall id | id in AckedBy(q, [e], i)
        ensures id !in AppendedBy(m, run[1..])
      {
        assert AtOrBefore(id, q.groups[i].last);
      }
    }
  }

  // ---------------------------------------------------------------- effects

  /** Trimming behind an entry that may be needed keeps it, behind a rest of the others. */
  lemma TrimKeepsNewest(entries: seq<Entry>, e: Entry, minId: Option<StreamId>, trim: nat) returns (n: nat)
    requires minId.Some? ==> !Before(e.id, minId.value)
    ensures n <= |entries| && Trimmed(entries + [e], minId, trim) == entries[n..] + [e]
  {
    var grown := entries + [e];
    n := if minId.None? then 0 else Removable(grown, minId.value, trim);
    assert grown[|entries|] == e;
    assert grown[n..] == entries[n..] + [e];
  }

  /** A bounded publication appends one entry with its event, as the newest, and changes
      no group; a refused one changes nothing. */
  lemma PublishesExactly(q: Queue, bound: nat, now: nat, event: string, trim: nat) returns (n: nat)
    requires Valid(q)
    ensures var (q', reply) := PublishAt(q, bound, now, event, trim);
            if reply.Full? then q' == q
            else
              && q'.groups == q.groups && q'.last == reply.id && Before(q.last, reply.id) && now <= reply.id.ms
              && n <= |q.entries| && q'.entries == q.entries[n..] + [Entry(reply.id, event)]
  {
    var reply := PublishAt(q, bound, now, event, trim).1;
    n := 0;
    if reply.Appended? {
      if q.groups != [] { TrimIdIsCandidate(q.groups, q.last, q.entries); }
      n := TrimKeepsNewest(q.entries, Entry(reply.id, event), TrimId(q.groups), trim);
    }
  }

  /** The trim point is the earliest entry some group may still need, so no later than
      the newest. */
  lemma {:induction false} TrimIdIsCandidate(groups: seq<Group>, last: StreamId, entries: seq<Entry>)
    requires groups != []
    requires forall i :: 0 <= i < |groups| ==> Served(entries, groups[i]) && AtOrBefore(groups[i].last, last)
    ensures AtOrBefore(TrimId(groups).value, last)
    ensures exists i :: 0 <= i < |groups| && TrimId(groups).value == Candidate(groups[i])
  {
    var k := |groups| - 1;
    assert Served(entries, groups[k]) && AtOrBefore(groups[k].last, last);
    assert groups[k].pending != [] ==> groups[k].pending[0] in groups[k].pending;
    assert AtOrBefore(Candidate(groups[k]), last);
    if groups[..k] != [] {
      TrimIdIsCandidate(groups[..k], last, entries);
      var i :| 0 <= i < k && TrimId(groups[..k]).value == Candidate(groups[..k][i]);
      assert groups[..k][i] == groups[i];
    }
  }

  /** With nothing to hold it back, trimming leaves no entry that every group is done
      with: some group still needs the oldest one left, or something before it. */
  lemma {:induction false} TrimsFinished(entries: seq<Entry>, minId: StreamId, trim: nat)
    requires trim >= |entries|
    ensures var kept := entries[Removable(entries, minId, trim)..];
            kept != [] ==> !Before(kept[0].id, minId)
    decreases |entries|
  {
    if entries != [] && Before(entries[0].id, minId) {
      TrimsFinished(entries[1..], minId, trim - 1);
      assert entries[1..][Removable(entries[1..], minId, trim - 1)..] == entries[Removable(entries, minId, trim)..];
    }
  }

  /** What a group has not finished, as far as the script counts it. */
  function Counted(entries: seq<Entry>, g: Group, bound: nat): nat {
    (if |After(entries, g.last)| <= bound then |After(entries, g.last)| else bound + 1) + |g.pending|
  }

  /** The backlog reported is that of the group furthest behind. */
  lemma {:induction false} BacklogIsLargest(entries: seq<Entry>, groups: seq<Group>, bound: nat)
    ensures forall i :: 0 <= i < |groups| ==>
            Counted(entries, groups[i], bound) <= LargestCapped(entries, groups, bound)
    ensures groups != [] ==>
              exists i :: 0 <= i < |groups|
                && Counted(entries, groups[i], bound) == LargestCapped(entries, groups, bound)
  {
    if groups != [] {
      var k := |groups| - 1;
      BacklogIsLargest(entries, groups[..k], bound);
      forall i | 0 <= i < |groups|
        ensures Counted(entries, groups[i], bound) <= LargestCapped(entries, groups, bound)
      {
        if i < k { assert groups[..k][i] == groups[i]; }
      }
      assert Counted(entries, groups[k], bound) == Capped(entries, groups[k], bound);
      if groups[..k] != [] {
        var i :| 0 <= i < k && Counted(entries, groups[..k][i], bound) == LargestCapped(entries, groups[..k], bound);
        assert groups[..k][i] == groups[i];
      }
    }
  }

  // ---------------------------------------------------------------- in place

  /** The stream key as the server holds it. */
  class RequestStream {
    var entries: seq<Entry>
    var last: StreamId
    var groups: seq<Group>

    function View(): Queue
      reads this
    {
      Queue(entries, last, groups)
    }

    constructor ()
      ensures View() == EMPTY
    {
      entries, last, groups := [], ZERO, [];
    }

    method Measure(bound: nat) returns (backlog: nat)
      ensures backlog == Backlog(View(), bound)
    {
      backlog := |entries|;
      if |groups| > 0 {
        backlog := 0;
        var i := 0;
        while i < |groups|
          invariant 0 <= i <= |groups|
          invariant backlog == LargestCapped(entries, groups[..i], bound)
        {
          var unread := |After(entries, groups[i].last)|;
          if unread > bound + 1 { unread := bound + 1; }
          if unread + |groups[i].pending| > backlog {
            backlog := unread + |groups[i].pending|;
          }
          assert groups[..i + 1][..i] == groups[..i];
          i := i + 1;
        }
        assert groups[..i] == groups;
      }
    }

    method Trim(trim: nat)
      modifies this`entries
      ensures entries == Trimmed(old(entries), TrimId(groups), trim)
    {
      var minId: Option<StreamId> := None;
      var i := 0;
      while i < |groups|
        invariant 0 <= i <= |groups|
        invariant minId == TrimId(groups[..i])
        invariant entries == old(entries)
      {
        var candidate := groups[i].last;
        if |groups[i].pending| > 0 { candidate := groups[i].pending[0]; }
        if minId.None? || Before(candidate, minId.value) { minId := Some(candidate); }
        assert groups[..i + 1][..i] == groups[..i];
        i := i + 1;
      }
      assert groups[..i] == groups;
      if minId.Some? {
        entries := entries[Removable(entries, minId.value, trim)..];
      }
    }

    method Publish(bound: nat, now: nat, event: string, trim: nat) returns (reply: Reply)
      modifies this`entries, this`last
      ensures (View(), reply) == PublishAt(old(View()), bound, now, event, trim)
    {
      if bound > 0 {
        var backlog := Measure(bound);
        if backlog >= bound { return Full(backlog); }
      }
      var id := NextId(last, now);
      entries := entries + [Entry(id, event)];
      last := id;
      Trim(trim);
      reply := Appended(id);
    }
  }
}
