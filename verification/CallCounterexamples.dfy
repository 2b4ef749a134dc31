/** Concrete runs from the empty store: the conditions of two safety results are needed,
    and a release settles with another cause than its own. */
module CallCounterexamples {
  import opened Basics
  import opened StreamIds
  import opened CallRecord
  import opened CallScripts
  import opened CallInvariants
  import opened CallTransitions
  import opened CallRuns
  import opened CallSafety
  import opened CallSettlement
  import C = Catalog
  import Q = RequestQueue

  const TOKEN := C.Token("tools", "schema", "r1")
  const LEASE: C.LeaseId := "provider"
  const DIGEST := Digest("tools", "call", "body")
  const BOUND := 1000

  const REGISTER := CatalogOp("tools", C.Register(TOKEN, LEASE, 86_400_000))
  const ADMIT := Ensuring(DIGEST, TOKEN, 600_000, 660_000)
  const ATTACH := Attaching(DIGEST)

  function Held(birth: nat, overload: Option<StreamId>): Snapshot {
    Snapshot("call", birth, DIGEST, TOKEN, overload)
  }

  function Publication(birth: nat, overload: Option<StreamId>): Event {
    Publishing(Held(birth, overload), overload, BOUND, 0)
  }

  function Claimed(request: StreamId): Event {
    Claiming("call", "tools", TOKEN, TOKEN, LEASE, request)
  }

  function Reported(request: StreamId): Event {
    Overloading("call", "tools", TOKEN, TOKEN, LEASE, request)
  }

  /** A provider is routable and the queue has room. */
  ghost predicate Serving(s: State) {
    && Good(s) && s.now < 86_400_000
    && EntryOf(s, "tools") == Some(C.Fresh(TOKEN, LEASE, 86_400_000, {}))
    && QueueOf(s, "tools").groups == [] && |QueueOf(s, "tools").entries| < BOUND - 1
  }

  /** The call is admitted in lifetime `birth` and not expired, claimed or settled. */
  ghost predicate Open(s: State, birth: nat) {
    && var c := CellOf(s, "call").call;
    && c.Some? && c.value.Admitted?
    && var r := c.value.r;
    && r.birth == birth && r.digest == DIGEST && r.token == TOKEN
    && !r.terminal && r.dispatchToken.None? && r.overloadRequests == {} && r.overload.None? && r.overloadEvent.None?
    && s.now + 600_000 == r.deadline && s.now + 660_000 == r.expires
  }

  ghost predicate Waiting(s: State, birth: nat, request: StreamId) {
    Open(s, birth) && CellOf(s, "call").call.value.r.publication == Some(request)
  }

  lemma ServingIsRoutable(s: State)
    requires Serving(s)
    ensures C.LeaseLive(EntryOf(s, "tools"), TOKEN, LEASE, s.now)
    ensures C.Routable(EntryOf(s, "tools").value, s.now)
  {
    var e := EntryOf(s, "tools").value;
    assert LEASE in e.leases && C.IsRoutable(e.leases[LEASE], s.now);
  }

  lemma Registering()
    ensures Serving(Apply(START, REGISTER)) && Apply(START, REGISTER).births == 0
    ensures CellOf(Apply(START, REGISTER), "call") == EMPTY_CELL
  {
    StartIsGood();
    StepKeepsGood(START, REGISTER);
  }

  lemma Admitting(s: State)
    requires Serving(s) && Lookup(CellOf(s, "call"), s.now).None?
    ensures var t := Apply(s, ADMIT);
            && Serving(t) && Open(t, s.births) && !CellOf(t, "call").call.value.r.published
            && t.held == s.held && t.missing == s.missing && t.births == s.births + 1 && t.now == s.now
            && EntryOf(t, "tools") == EntryOf(s, "tools") && QueueOf(t, "tools") == QueueOf(s, "tools")
  {
    StepKeepsGood(s, ADMIT);
  }

  lemma Attached(s: State, birth: nat)
    requires Serving(s) && CellOf(s, "call").call.Some? && CellOf(s, "call").call.value.Admitted?
    requires var r := CellOf(s, "call").call.value.r;
             r.birth == birth && r.digest == DIGEST && r.token == TOKEN && s.now < r.expires && r.overload.None?
    ensures var t := Apply(s, ATTACH);
            Serving(t) && t == s.(held := s.held + {Held(birth, CellOf(s, "call").call.value.r.overloadEvent)})
  {
    var c := CellOf(s, "call");
    assert Ready(c, "call", s.births);
    ReaderAcceptsExactly(c.call.value.r, "call", s.now);
    StepKeepsGood(s, ATTACH);
  }

  lemma Publishes1(s: State, birth: nat) returns (id: StreamId)
    requires Serving(s) && Open(s, birth) && !CellOf(s, "call").call.value.r.published && Held(birth, None) in s.held
    ensures Answers(s, Publication(birth, None))
    ensures var t := Apply(s, Publication(birth, None));
            && Good(t) && Waiting(t, birth, id) && t.held == s.held && t.now == s.now
            && EntryOf(t, "tools") == EntryOf(s, "tools") && QueueOf(t, "tools").groups == []
            && |QueueOf(t, "tools").entries| == |QueueOf(s, "tools").entries| + 1
  {
    var e := Publication(birth, None);
    ServingIsRoutable(s);
    assert Publishes(s, e);
    StepKeepsGood(s, e);
    id := PublishReply(s, e).1.id.value;
  }

  lemma AttachesAndPublishes(s: State, birth: nat) returns (t: State, id: StreamId)
    requires Serving(s) && Open(s, birth) && !CellOf(s, "call").call.value.r.published
    ensures t == Apply(Apply(s, ATTACH), Publication(birth, None))
    ensures t.missing == s.missing && t.births == s.births && t.now == s.now
            && EntryOf(t, "tools") == EntryOf(s, "tools")
    ensures Good(t) && Waiting(t, birth, id)
    ensures QueueOf(t, "tools").groups == [] && |QueueOf(t, "tools").entries| == |QueueOf(s, "tools").entries| + 1
    ensures Answers(Apply(s, ATTACH), Publication(birth, None))
  {
    Attached(s, birth);
    id := Publishes1(Apply(s, ATTACH), birth);
    t := Apply(Apply(s, ATTACH), Publication(birth, None));
  }

  /** Admission, attachment and publication in lifetime `s.births`. */
  lemma Published(s: State) returns (t: State, id: StreamId)
    requires Serving(s) && Lookup(CellOf(s, "call"), s.now).None?
    ensures t == Apply(Apply(Apply(s, ADMIT), ATTACH), Publication(s.births, None)) && t.missing == s.missing
            && t.births == s.births + 1
    ensures Good(t) && Waiting(t, s.births, id) && t.now == s.now && EntryOf(t, "tools") == EntryOf(s, "tools")
    ensures QueueOf(t, "tools").groups == [] && |QueueOf(t, "tools").entries| == |QueueOf(s, "tools").entries| + 1
    ensures Answers(Apply(Apply(s, ADMIT), ATTACH), Publication(s.births, None))
  {
    Admitting(s);
    t, id := AttachesAndPublishes(Apply(s, ADMIT), s.births);
  }

  /** One more event at the end of a run. */
  lemma {:induction false} Extend(s: State, run: seq<Event>, e: Event)
    ensures Run(s, run + [e]) == Apply(Run(s, run), e)
    ensures Careful(s, run + [e]) <==> Careful(s, run) && Answers(Run(s, run), e)
    ensures NeverCleansLive(s, run + [e]) <==> NeverCleansLive(s, run) && !CleansLiveDispatch(Run(s, run), e)
    decreases run
  {
    if run == [] {
      assert run + [e] == [e] && [e][1..] == [];
    } else {
      assert (run + [e])[1..] == run[1..] + [e];
      Extend(Apply(s, run[0]), run[1..], e);
    }
  }

  lemma Then(run: seq<Event>, e: Event) returns (more: seq<Event>)
    ensures more == run + [e] && Run(START, more) == Apply(Run(START, run), e)
    ensures Careful(START, more) <==> Careful(START, run) && Answers(Run(START, run), e)
    ensures NeverCleansLive(START, more) <==> NeverCleansLive(START, run) && !CleansLiveDispatch(Run(START, run), e)
  {
    Extend(START, run, e);
    more := run + [e];
  }

  /** Admission, attachment and publication after a run. */
  lemma ThenPublished(run: seq<Event>, birth: nat) returns (more: seq<Event>)
    ensures var s := Run(START, run);
            && more == run + [ADMIT] + [ATTACH] + [Publication(birth, None)]
            && Run(START, more) == Apply(Apply(Apply(s, ADMIT), ATTACH), Publication(birth, None))
            && (Careful(START, run) && Answers(Apply(Apply(s, ADMIT), ATTACH), Publication(birth, None)) ==>
              Careful(START, more))
  {
    more := Then(run, ADMIT);
    more := Then(more, ATTACH);
    more := Then(more, Publication(birth, None));
  }

  lemma Dispatched(s: State, birth: nat, id: StreamId)
    requires Good(s) && Waiting(s, birth, id) && C.LeaseLive(EntryOf(s, "tools"), TOKEN, LEASE, s.now)
    ensures LiveDispatch(CellOf(Apply(s, Claimed(id)), "call"), s.now)
  {
    assert Ready(CellOf(s, "call"), "call", s.births);
    ClaimExecutesExactly(CellOf(s, "call"), s.now, EntryOf(s, "tools"), "call", TOKEN, TOKEN, LEASE, id);
  }

  /** A claimed call is due at its deadline at the latest. */
  lemma DispatchIsDue(s: State, birth: nat, id: StreamId)
    requires Serving(s) && Waiting(s, birth, id)
    ensures var t := Apply(s, Claimed(id));
            && Serving(t) && t.now == s.now && t.births == s.births
            && var c := CellOf(t, "call");
            && c.call.Some? && ExpiresAt(c.call.value) == s.now + 660_000
            && c.score.Some? && c.score.value <= s.now + 600_000
  {
    ServingIsRoutable(s);
    Dispatched(s, birth, id);
    StepKeepsGood(s, Claimed(id));
  }

  const LOOK := Sighting("call", None)

  /** The record expires unsettled; a sweeper reads the due key and finds no call. */
  lemma Looked(s: State) returns (t: State)
    requires Serving(s) && s.now == 0
    requires var c := CellOf(s, "call");
             c.call.Some? && ExpiresAt(c.call.value) == 660_000 && c.score.Some? && c.score.value <= 600_000
    ensures t == Apply(Apply(Apply(s, Tick(660_001)), Listing(LOOK)), Finding(LOOK))
    ensures Serving(t) && t.births == s.births && LOOK in t.missing && Lookup(CellOf(t, "call"), t.now).None?
  {
    var u := Apply(s, Tick(660_001));
    StepKeepsGood(s, Tick(660_001));
    StepKeepsGood(u, Listing(LOOK));
    StepKeepsGood(Apply(u, Listing(LOOK)), Finding(LOOK));
    t := Apply(Apply(u, Listing(LOOK)), Finding(LOOK));
  }

  ghost predicate Due(s: State) {
    && Serving(s) && s.now == 0 && s.births == 1
    && var c := CellOf(s, "call");
    && c.call.Some? && ExpiresAt(c.call.value) == 660_000 && c.score.Some? && c.score.value <= 600_000
  }

  /** A sweeper has found no call under the key it had read. */
  ghost predicate LookedAway(s: State) {
    Serving(s) && s.births == 1 && LOOK in s.missing && Lookup(CellOf(s, "call"), s.now).None?
  }

  lemma FirstClaim(s: State) returns (t: State, id: StreamId)
    requires s == Apply(START, REGISTER)
    ensures t == Apply(Apply(Apply(s, ADMIT), ATTACH), Publication(0, None)) && Due(Apply(t, Claimed(id)))
  {
    Registering();
    t, id := Published(s);
    DispatchIsDue(t, 0, id);
  }

  /** The first lifetime: registration, admission, publication, claim. */
  lemma ToClaim() returns (run: seq<Event>)
    ensures |run| == 5 && Due(Run(START, run))
  {
    var t, id := FirstClaim(Apply(START, REGISTER));
    run := Then([], REGISTER);
    run := ThenPublished(run, 0);
    run := Then(run, Claimed(id));
  }

  /** No settlement happens until a sweeper finds the record gone. */
  lemma ToLook() returns (run: seq<Event>)
    ensures |run| == 8 && run[6] == Listing(LOOK) && run[7] == Finding(LOOK)
    ensures LookedAway(Run(START, run))
  {
    run := ToClaim();
    var u := Looked(Run(START, run));
    run := Then(run, Tick(660_001));
    run := Then(run, Listing(LOOK));
    run := Then(run, Finding(LOOK));
  }

  const CLEAN := Cleaning("call", None)
  const RELEASE := Releasing(TOKEN, LEASE)

  /** A claim owns the call for its provider until the deadline, fully indexed. */
  lemma ClaimOwns(t: State, birth: nat, id: StreamId)
    requires Good(t) && Waiting(t, birth, id) && C.LeaseLive(EntryOf(t, "tools"), TOKEN, LEASE, t.now)
    ensures var u := Apply(t, Claimed(id));
            && Good(u) && u.missing == t.missing && Owned(u, "call", TOKEN, LEASE) && Indexed(CellOf(u, "call"), u.now)
            && u.now < CellOf(u, "call").call.value.r.deadline
  {
    var c := CellOf(t, "call");
    assert Ready(c, "call", t.births);
    Dispatched(t, birth, id);
    ClaimKeepsIndexed(c, "call", t.now, EntryOf(t, "tools"), TOKEN, TOKEN, LEASE, id);
    ClaimExecutesExactly(c, t.now, EntryOf(t, "tools"), "call", TOKEN, TOKEN, LEASE, id);
    StepKeepsGood(t, Claimed(id));
  }

  /** The second lifetime is claimed, and the sweeper of the first still at work. */
  ghost predicate ClaimedAgain(s: State) {
    Good(s) && LOOK in s.missing && Owned(s, "call", TOKEN, LEASE) && Indexed(CellOf(s, "call"), s.now)
  }

  /** After the look the same request is admitted, published and dispatched again. */
  lemma SecondClaim(s: State) returns (t: State, id: StreamId)
    requires LookedAway(s)
    ensures t == Apply(Apply(Apply(s, ADMIT), ATTACH), Publication(1, None)) && ClaimedAgain(Apply(t, Claimed(id)))
  {
    t, id := Published(s);
    assert C.LeaseLive(EntryOf(t, "tools"), TOKEN, LEASE, t.now) by { ServingIsRoutable(s); }
    ClaimOwns(t, 1, id);
  }

  lemma ThenClaimedAgain(before: seq<Event>) returns (run: seq<Event>)
    requires LookedAway(Run(START, before))
    ensures |run| == |before| + 4 && before <= run && ClaimedAgain(Run(START, run))
  {
    var t, id := SecondClaim(Run(START, before));
    run := ThenPublished(before, 1);
    run := Then(run, Claimed(id));
  }

  lemma ToClaimAgain() returns (run: seq<Event>)
    ensures |run| == 12 && run[6] == Listing(LOOK) && run[7] == Finding(LOOK)
    ensures ClaimedAgain(Run(START, run))
  {
    var before := ToLook();
    run := ThenClaimedAgain(before);
  }

  /** A sweeper reads a due key and finds its record expired; before it cleans up, the
      same request is admitted, published and dispatched again. The cleanup then drops
      the live dispatch from every settlement index. */
  lemma CleanupRace() returns (run: seq<Event>)
    ensures |run| == 13 && run[6] == Listing(LOOK) && run[7] == Finding(LOOK) && run[12] == Cleaning("call", None)
    ensures !AlwaysIndexed(START, run)
  {
    var before := ToClaimAgain();
    run := Then(before, CLEAN);
    StartIsGood();
    IndexedExactly(START, run);
  }

  lemma CleanedIsMissed(u: State)
    requires ClaimedAgain(u)
    ensures var v := Apply(Apply(u, CLEAN), RELEASE);
            Owned(v, "call", TOKEN, LEASE) && "call" !in IndexMembers(v, TOKEN, LEASE)
  {
  }

  /** Then a release of the provider does not read the call from its lease's index, and
      leaves it dispatched to the lease it ended. */
  lemma ReleaseMisses() returns (run: seq<Event>)
    ensures |run| == 14 && run[12] == CLEAN && run[13] == Releasing(TOKEN, LEASE)
    ensures var read := Run(START, run);
            Owned(read, "call", TOKEN, LEASE) && "call" !in IndexMembers(read, TOKEN, LEASE)
  {
    run := ToClaimAgain();
    CleanedIsMissed(Run(START, run));
    run := Then(run, CLEAN);
    run := Then(run, RELEASE);
  }

  lemma Overloaded(s: State, birth: nat, id: StreamId)
    requires Serving(s) && Waiting(s, birth, id)
    ensures var t := Apply(s, Reported(id));
            && Serving(t) && t.now == s.now && t.births == s.births
            && var c := CellOf(t, "call").call;
            && c.Some? && c.value.Admitted?
            && var r := c.value.r;
            && r.birth == birth && r.digest == DIGEST && r.token == TOKEN && r.overloadEvent.Some? && r.overload.None?
            && r.expires == s.now + 660_000
  {
    assert Ready(CellOf(s, "call"), "call", s.births);
    ServingIsRoutable(s);
    StepKeepsGood(s, Reported(id));
  }

  /** Publishing the overload of lifetime `earlier` into the new lifetime `birth`. */
  lemma Corrupted(s: State, earlier: nat, birth: nat, overload: Option<StreamId>)
    requires Serving(s) && Open(s, birth) && !CellOf(s, "call").call.value.r.published
    requires overload.Some? && Held(earlier, overload) in s.held
    ensures !Answers(s, Publication(earlier, overload))
  {
    var e := Publication(earlier, overload);
    assert SnapshotGood(Held(earlier, overload), CellOf(s, "call"), s.births);
    ServingIsRoutable(s);
    assert Publishes(s, e);
  }

  /** A caller holds an overload of the first lifetime, which has expired. */
  ghost predicate Stale(s: State, overload: Option<StreamId>) {
    Serving(s) && s.births == 1 && overload.Some? && Held(0, overload) in s.held
      && Lookup(CellOf(s, "call"), s.now).None?
  }

  lemma OverloadExpires(t: State, id: StreamId) returns (overload: Option<StreamId>)
    requires Serving(t) && t.now == 0 && t.births == 1 && Waiting(t, 0, id)
    ensures Stale(Apply(Apply(Apply(t, Reported(id)), ATTACH), Tick(660_001)), overload)
  {
    Overloaded(t, 0, id);
    var u := Apply(t, Reported(id));
    overload := CellOf(u, "call").call.value.r.overloadEvent;
    Attached(u, 0);
    StepKeepsGood(Apply(u, ATTACH), Tick(660_001));
  }

  lemma FirstOverload(s: State) returns (t: State, id: StreamId, overload: Option<StreamId>)
    requires s == Apply(START, REGISTER)
    ensures t == Apply(Apply(Apply(s, ADMIT), ATTACH), Publication(0, None))
    ensures Stale(Apply(Apply(Apply(t, Reported(id)), ATTACH), Tick(660_001)), overload)
  {
    Registering();
    t, id := Published(s);
    overload := OverloadExpires(t, id);
  }

  lemma ToStale() returns (run: seq<Event>, overload: Option<StreamId>)
    ensures Stale(Run(START, run), overload)
  {
    var t, id, o := FirstOverload(Apply(START, REGISTER));
    run := Then([], REGISTER);
    run := ThenPublished(run, 0);
    run := Then(run, Reported(id));
    run := Then(run, ATTACH);
    run := Then(run, Tick(660_001));
    overload := o;
  }

  lemma StaleCorrupts(s: State, overload: Option<StreamId>)
    requires Stale(s, overload)
    ensures !Answers(Apply(s, ADMIT), Publication(0, overload))
  {
    Admitting(s);
    Corrupted(Apply(s, ADMIT), 0, s.births, overload);
  }

  /** A retry that still holds the overload of an expired admission publishes into
      the next admission of the same request and leaves its record unreadable. */
  lemma ForeignOverload() returns (run: seq<Event>)
    ensures !AlwaysReadable(START, run)
  {
    var before, overload := ToStale();
    StaleCorrupts(Run(START, before), overload);
    run := Then(before, ADMIT);
    run := Then(run, Publication(0, overload));
    StartIsGood();
    ReadableExactly(START, run);
  }

  // ---------------------------------------------------------------- the cause of a release

  const SETTLE := Settling("call", LeaseIndex(TOKEN, LEASE), LeaseReleased)

  /** The released lease is gone, so settlement takes the claim away as lost. */
  lemma SettledAsLost(u: State)
    requires Good(u) && Owned(u, "call", TOKEN, LEASE) && u.now < CellOf(u, "call").call.value.r.deadline
    ensures var c := CellOf(Apply(Apply(u, RELEASE), SETTLE), "call").call;
            c.Some? && c.value.Admitted? && c.value.r.terminalCause == Some(LeaseLost)
  {
    var v := Apply(u, RELEASE);
    StepKeepsGood(u, RELEASE);
    C.ReleaseEndsLease(EntryOf(u, "tools"), u.now, TOKEN, LEASE);
    var c := CellOf(v, "call");
    assert c == CellOf(u, "call") && Ready(c, "call", v.births);
    assert c.call.value.r.catalogField == "tools";
    assert EntryFor(v, SETTLE) == EntryOf(v, "tools");
    SettlementJustified(c, "call", v.now, EntryFor(v, SETTLE), LeaseIndex(TOKEN, LEASE), LeaseReleased);
    assert CellOf(Apply(v, SETTLE), "call") == OnCell(v, SETTLE).0;
  }

  /** A provider that releases its lease before the deadline has its claimed call settled
      as lost, although the release passes its own cause. */
  lemma ReleasedAsLost() returns (run: seq<Event>)
    ensures |run| == 7 && run[5] == RELEASE && run[6] == SETTLE
    ensures var c := CellOf(Run(START, run), "call").call;
            c.Some? && c.value.Admitted? && c.value.r.terminalCause == Some(LeaseLost)
  {
    Registering();
    var s := Apply(START, REGISTER);
    var t, id := Published(s);
    assert C.LeaseLive(EntryOf(t, "tools"), TOKEN, LEASE, t.now) by { ServingIsRoutable(s); }
    ClaimOwns(t, 0, id);
    SettledAsLost(Apply(t, Claimed(id)));
    run := Then([], REGISTER);
    run := ThenPublished(run, 0);
    run := Then(run, Claimed(id));
    run := Then(run, RELEASE);
    run := Then(run, SETTLE);
  }
}
