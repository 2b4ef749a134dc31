/** Terminal results and settlement over every run: finality, stream retention,
    index completeness and provider release. */
module CallSettlement {
  import opened Basics
  import opened StreamIds
  import opened CallRecord
  import opened CallScripts
  import opened CallInvariants
  import opened CallTransitions
  import opened CallRuns
  import opened CallSafety
  import C = Catalog

  // ---------------------------------------------------------------- finality

  /** Until a decision expires every later state of every run has the same lifetime. */
  lemma DecisionIsRetained(s: State, run: seq<Event>, k: Key)
    requires Good(s) && CellOf(s, k).call.Some?
    ensures var c, d := CellOf(s, k).call.value, CellOf(Run(s, run), k).call;
            && CallEvolves(Some(c), d, s.births, Run(s, run).now)
            && d.Some? && Birth(c) < s.births
            && (Run(s, run).now <= ExpiresAt(c) ==> Birth(d.value) == Birth(c))
  {
    assert Ready(CellOf(s, k), k, s.births);
    RunKeepsGood(s, run);
    assert CallEvolves(CellOf(s, k).call, CellOf(Run(s, run), k).call, s.births, Run(s, run).now);
  }

  /** `d` is a later state of decision `c`, at least until `c` expires. */
  predicate Outlasts(c: Call, d: Option<Call>, now: nat) {
    d.Some? && (now <= ExpiresAt(c) ==> Birth(d.value) == Birth(c))
  }

  /** Once a call has a result, it keeps payload, digest, cause and dispatch owner in
      every later state of its lifetime, which lasts until it expires. */
  lemma TerminalIsFinal(s: State, run: seq<Event>, k: Key)
    requires Good(s) && IsTerminal(CellOf(s, k))
    ensures var c, d := CellOf(s, k).call.value, CellOf(Run(s, run), k).call;
            && Outlasts(c, d, Run(s, run).now)
            && (Birth(d.value) == Birth(c) ==>
              d.value.Admitted? && SameTerminal(c.r, d.value.r) && SameDispatch(c.r, d.value.r))
  {
    DecisionIsRetained(s, run, k);
  }

  /** Dispatch ownership is decided at most once and then kept until the call expires. */
  lemma DispatchIsFinal(s: State, run: seq<Event>, k: Key)
    requires Good(s)
    requires var c := CellOf(s, k).call; c.Some? && c.value.Admitted? && c.value.r.dispatchToken.Some?
    ensures var c, d := CellOf(s, k).call.value, CellOf(Run(s, run), k).call;
            && Outlasts(c, d, Run(s, run).now)
            && (Birth(d.value) == Birth(c) ==> d.value.Admitted? && SameDispatch(c.r, d.value.r))
  {
    DecisionIsRetained(s, run, k);
  }

  /** An identity is admitted or rejected once and for all until the decision expires. */
  lemma DecisionIsFinal(s: State, run: seq<Event>, k: Key)
    requires Good(s) && CellOf(s, k).call.Some?
    ensures var c, d := CellOf(s, k).call.value, CellOf(Run(s, run), k).call;
            && Outlasts(c, d, Run(s, run).now)
            && (Birth(d.value) == Birth(c) ==>
                  if c.Rejected? then d.value == c else d.value.Admitted? && d.value.r.digest == c.r.digest)
  {
    DecisionIsRetained(s, run, k);
  }

  predicate FromProvider(e: Event) {
    e.Claiming? || e.Completing? || e.Streaming? || e.Overloading?
  }

  lemma ProviderEventJustified(s: State, e: Event)
    requires Good(s) && FromProvider(e)
    ensures ProviderCommit(CellOf(s, e.key), OnCell(s, e).0, EntryOf(s, e.toolset), s.now)
  {
    var c, entry := CellOf(s, e.key), EntryOf(s, e.toolset);
    assert Ready(c, e.key, s.births);
    if e.Claiming? {
      ClaimJustified(c, s.now, entry, e.key, e.callToken, e.token, e.lease, e.request);
    } else if e.Completing? {
      CompleteJustified(c, s.now, entry, e.key, e.callToken, e.token, e.lease, e.request, e.payload);
    } else if e.Streaming? {
      LiveEventJustified(c, s.now, entry, e.key, e.callToken, e.token, e.lease, e.request, e.payload);
    } else {
      OverloadJustified(c, s.now, entry, e.key, e.callToken, e.token, e.lease, e.request);
    }
  }

  /** A lease that is live in some toolset's record is live in the call's own. */
  lemma OwnToolset(s: State, r: Record, k: Key, cause: Cause, toolset: string)
    requires CatalogGood(s) && RecordGood(r, k) && cause != LeaseLost
    requires cause == StaleAdmission ==> toolset == r.catalogField
    requires CauseJustified(r, cause, EntryOf(s, toolset), s.now)
    ensures CauseJustified(r, cause, EntryOf(s, r.catalogField), s.now)
  {
  }

  /** Only provider scripts and settlement give a call its result. */
  lemma OthersDoNotCommit(s: State, e: Event)
    requires Good(s) && Enabled(s, e) && KeyOf(e).Some? && !FromProvider(e) && !e.Settling?
    ensures IsTerminal(OnCell(s, e).0) ==> IsTerminal(CellOf(s, KeyOf(e).value))
  {
  }

  /** `cause` holds at this moment of the record the event's script checks, and, unless a
      provider of another toolset noticed a stale admission, of the call's own. */
  predicate CauseHolds(s: State, e: Event, r: Record, cause: Cause) {
    && CauseJustified(r, cause, EntryFor(s, e), s.now)
    && (cause == StaleAdmission ==> FromProvider(e))
    && (cause != StaleAdmission || e.toolset == r.catalogField ==>
          CauseJustified(r, cause, EntryOf(s, r.catalogField), s.now))
  }

  lemma CommitIsJustified(s: State, e: Event)
    requires Good(s) && Enabled(s, e) && KeyOf(e).Some?
    requires IsTerminal(OnCell(s, e).0) && !IsTerminal(CellOf(s, KeyOf(e).value))
    ensures var c, d := CellOf(s, KeyOf(e).value).call, OnCell(s, e).0.call;
            && c.Some? && c.value.Admitted? && d.value.r.terminalCause.Some?
            && CauseHolds(s, e, c.value.r, d.value.r.terminalCause.value)
  {
    var k := KeyOf(e).value;
    var c := CellOf(s, k);
    assert Ready(c, k, s.births);
    if FromProvider(e) {
      ProviderEventJustified(s, e);
      var cause := OnCell(s, e).0.call.value.r.terminalCause.value;
      if cause != StaleAdmission || e.toolset == c.call.value.r.catalogField {
        OwnToolset(s, c.call.value.r, k, cause, e.toolset);
      }
    } else if e.Settling? {
      SettlementJustified(c, k, s.now, EntryFor(s, e), e.index, e.cause);
    } else {
      OthersDoNotCommit(s, e);
    }
  }

  /** Any event that gives a call its result does so for a cause that holds at that
      moment in the call's own catalog record: a provider result needs the dispatched
      live lease before the deadline, an unknown outcome was dispatched, and a stale
      admission never was and belongs to a generation that is not current. The last is
      said of the toolset of the provider that noticed, which is the call's own when
      providers serve the stream of their toolset. */
  lemma TerminalIsJustified(s: State, e: Event, k: Key)
    requires Good(s)
    requires IsTerminal(CellOf(Apply(s, e), k)) && !IsTerminal(CellOf(s, k))
    ensures var c, d := CellOf(s, k).call, CellOf(Apply(s, e), k).call;
            && c.Some? && c.value.Admitted? && d.value.r.terminalCause.Some?
            && CauseHolds(s, e, c.value.r, d.value.r.terminalCause.value)
  {
    ApplyAt(s, e, k);
    CommitIsJustified(s, e);
  }

  // ---------------------------------------------------------------- stream retention

  predicate LosesResults(e: Event, k: Key) {
    e.LosingResults? && e.key == k
  }

  lemma StepKeepsTerminal(s: State, e: Event, k: Key)
    requires Good(s) && !LosesResults(e, k)
    requires IsTerminal(CellOf(s, k)) ==> TerminalHeld(CellOf(s, k))
    ensures IsTerminal(CellOf(Apply(s, e), k)) ==> TerminalHeld(CellOf(Apply(s, e), k))
  {
    if Enabled(s, e) && KeyOf(e) == Some(k) {
      OnCellKeeps(s, e);
      assert CellOf(Apply(s, e), k) == OnCell(s, e).0;
    } else {
      assert CellOf(Apply(s, e), k) == CellOf(s, k);
    }
  }

  /** If a call's stream is never lost, its result is the stream's newest event in
      every state after the commit: MAXLEN trimming and later appends never drop it. */
  lemma {:induction false} TerminalStaysInStream(s: State, run: seq<Event>, k: Key)
    requires Good(s)
    requires IsTerminal(CellOf(s, k)) ==> TerminalHeld(CellOf(s, k))
    requires forall i :: 0 <= i < |run| ==> !LosesResults(run[i], k)
    ensures IsTerminal(CellOf(Run(s, run), k)) ==> TerminalHeld(CellOf(Run(s, run), k))
    decreases run
  {
    if run != [] {
      StepKeepsGood(s, run[0]);
      assert !LosesResults(run[0], k);
      StepKeepsTerminal(s, run[0], k);
      TerminalStaysInStream(Apply(s, run[0]), run[1..], k);
    }
  }

  /** Behind a result only copies of it are ever appended, by restoring: no other event
      changes the stream of a finished call, short of losing it. */
  lemma OnlyCopiesFollow(s: State, e: Event, k: Key)
    requires Good(s) && IsTerminal(CellOf(s, k)) && !LosesResults(e, k)
    ensures var c, d := CellOf(s, k), CellOf(Apply(s, e), k);
            || d.results == c.results
            || (e.Restoring? && e.key == k
                && d.results == Append(c.results, s.now, Result, c.call.value.r.terminalPayload.value,
                  c.call.value.r.expires))
  {
    assert Ready(CellOf(s, k), k, s.births);
    ApplyAt(s, e, k);
  }

  // ---------------------------------------------------------------- index completeness

  /** Every live dispatch is in the settlement set, in its lease's index and in the
      membership hash. */
  ghost predicate FullyIndexed(s: State) {
    forall k :: Indexed(CellOf(s, k), s.now)
  }

  ghost predicate AlwaysIndexed(s: State, run: seq<Event>)
    decreases run
  {
    FullyIndexed(s) && (run != [] ==> AlwaysIndexed(Apply(s, run[0]), run[1..]))
  }

  /** The cleanup script runs on a key that meanwhile holds a live dispatch. */
  predicate CleansLiveDispatch(s: State, e: Event) {
    Enabled(s, e) && e.Cleaning? && LiveDispatch(CellOf(s, e.key), s.now)
  }

  predicate NeverCleansLive(s: State, run: seq<Event>)
    decreases run
  {
    run != [] ==> !CleansLiveDispatch(s, run[0]) && NeverCleansLive(Apply(s, run[0]), run[1..])
  }

  lemma StepKeepsIndexed(s: State, e: Event)
    requires Good(s) && FullyIndexed(s) && !CleansLiveDispatch(s, e)
    ensures FullyIndexed(Apply(s, e))
  {
    var t := Apply(s, e);
    forall k
      ensures Indexed(CellOf(t, k), t.now)
    {
      assert Ready(CellOf(s, k), k, s.births) && Indexed(CellOf(s, k), s.now);
      if Enabled(s, e) && KeyOf(e) == Some(k) {
        OnCellKeepsIndexed(s, e);
      }
    }
  }

  lemma OnCellKeepsIndexed(s: State, e: Event)
    requires Good(s) && Enabled(s, e) && KeyOf(e).Some? && !CleansLiveDispatch(s, e)
    requires Indexed(CellOf(s, KeyOf(e).value), s.now)
    ensures Indexed(OnCell(s, e).0, s.now)
  {
    var k := KeyOf(e).value;
    var c, entry := CellOf(s, k), EntryFor(s, e);
    assert Ready(c, k, s.births);
    if e.Claiming? {
      ClaimKeepsIndexed(c, k, s.now, entry, e.callToken, e.token, e.lease, e.request);
    } else if e.Completing? {
      CompleteKeepsIndexed(c, k, s.now, entry, e.callToken, e.token, e.lease, e.request, e.payload);
    } else if e.Streaming? {
      LiveEventKeepsIndexed(c, k, s.now, entry, e.callToken, e.token, e.lease, e.request, e.payload);
    } else if e.Overloading? {
      OverloadKeepsIndexed(c, k, s.now, entry, e.callToken, e.token, e.lease, e.request);
    } else if e.Settling? {
      SettleKeepsIndexed(c, k, s.now, entry, e.index, e.cause);
    } else if e.Cleaning? {
      CleanupKeepsExactly(c, s.now, e.fallback);
    }
  }

  /** The settlement indexes cover every live dispatch in every state of a run
      exactly when no cleanup hits a key that was admitted and claimed again since
      its sweeper saw it missing. */
  lemma {:induction false} IndexedExactly(s: State, run: seq<Event>)
    requires Good(s) && FullyIndexed(s)
    ensures AlwaysIndexed(s, run) <==> NeverCleansLive(s, run)
    decreases run
  {
    if run != [] {
      var m := Apply(s, run[0]);
      StepKeepsGood(s, run[0]);
      if CleansLiveDispatch(s, run[0]) {
        var k := run[0].key;
        assert Indexed(CellOf(s, k), s.now);
        CleanupKeepsExactly(CellOf(s, k), s.now, run[0].fallback);
        assert !Indexed(CellOf(m, k), m.now);
      } else {
        StepKeepsIndexed(s, run[0]);
        IndexedExactly(m, run[1..]);
      }
    }
  }

  lemma {:induction false} RunKeepsIndexed(s: State, run: seq<Event>)
    requires Good(s) && FullyIndexed(s) && NeverCleansLive(s, run)
    ensures FullyIndexed(Run(s, run))
    decreases run
  {
    if run != [] {
      StepKeepsGood(s, run[0]);
      StepKeepsIndexed(s, run[0]);
      RunKeepsIndexed(Apply(s, run[0]), run[1..]);
    }
  }

  /** A cleanup can only hit a live dispatch whose lifetime began after its sweeper found
      no admitted call. */
  lemma HitBeganLater(s: State, run: seq<Event>, k: Key)
    requires Good(s) && Unadmitted(CellOf(s, k), s.now)
    requires LiveDispatch(CellOf(Run(s, run), k), Run(s, run).now)
    ensures Birth(CellOf(Run(s, run), k).call.value) >= s.births
  {
    RunKeepsGood(s, run);
    assert CallEvolves(CellOf(s, k).call, CellOf(Run(s, run), k).call, s.births, Run(s, run).now);
  }

  // ---------------------------------------------------------------- provider release

  predicate Owned(s: State, k: Key, token: C.Token, lease: C.LeaseId) {
    LiveDispatch(CellOf(s, k), s.now) && OwnIndex(CellOf(s, k).call.value.r) == Some(LeaseIndex(token, lease))
  }

  predicate Reregisters(e: Event, token: C.Token, lease: C.LeaseId) {
    e.CatalogOp? && e.op.Register? && e.op.token == token && e.op.lease == lease
  }

  predicate Gone(s: State, token: C.Token, lease: C.LeaseId) {
    !C.LeaseLive(EntryOf(s, token.toolset), token, lease, s.now)
  }

  lemma StaysGone(s: State, e: Event, token: C.Token, lease: C.LeaseId)
    requires Gone(s, token, lease) && !Reregisters(e, token, lease)
    ensures Gone(Apply(s, e), token, lease)
  {
    if Enabled(s, e) && e.CatalogOp? && e.toolset == token.toolset {
      C.OnlyRegistrationRevives(EntryOf(s, e.toolset), s.now, e.op, token, lease);
    }
  }

  /** Without its lease, an incarnation gains no new call, and any event that
      settles one of its calls takes it away. */
  lemma OwnedOnlyShrinks(s: State, e: Event, k: Key, token: C.Token, lease: C.LeaseId)
    requires Good(s) && Gone(s, token, lease) && Owned(Apply(s, e), k, token, lease)
    ensures Owned(s, k, token, lease) && !(e.Settling? && e.key == k && Enabled(s, e))
  {
    if Enabled(s, e) && KeyOf(e) == Some(k) {
      OwnershipBegins(s, e, token, lease);
    } else {
      assert CellOf(Apply(s, e), k) == CellOf(s, k);
    }
  }

  predicate Dispatches(c: Cell, token: C.Token, lease: C.LeaseId, now: nat) {
    LiveDispatch(c, now) && OwnIndex(c.call.value.r) == Some(LeaseIndex(token, lease))
  }

  lemma ProvidersDoNotDispatch(s: State, e: Event, token: C.Token, lease: C.LeaseId)
    requires Good(s) && Enabled(s, e) && (e.Completing? || e.Streaming? || e.Overloading?)
    requires Dispatches(OnCell(s, e).0, token, lease, s.now)
    ensures Dispatches(CellOf(s, e.key), token, lease, s.now)
  {
    assert Ready(CellOf(s, e.key), e.key, s.births);
  }

  lemma OthersDoNotDispatch(s: State, e: Event, token: C.Token, lease: C.LeaseId)
    requires Good(s) && Enabled(s, e) && KeyOf(e).Some? && !FromProvider(e) && !e.Settling?
    requires Dispatches(OnCell(s, e).0, token, lease, s.now)
    ensures Dispatches(CellOf(s, KeyOf(e).value), token, lease, s.now)
  {
    assert Ready(CellOf(s, KeyOf(e).value), KeyOf(e).value, s.births);
  }

  lemma SettleTakesAway(c: Cell, k: Key, now: nat, entry: Option<C.Entry>, index: LeaseIndex, cause: Cause,
      token: C.Token, lease: C.LeaseId)
    requires CellGood(c, k) && (cause.ExecutionDeadline? || cause.LeaseReleased?)
    requires !C.LeaseLive(entry, token, lease, now)
    ensures !Dispatches(Settle(c, now, entry, index, cause).0, token, lease, now)
  {
    SettlementJustified(c, k, now, entry, index, cause);
  }

  lemma ClaimNeedsLease(c: Cell, k: Key, now: nat, entry: Option<C.Entry>, callToken: C.Token, provider: C.Token,
      held: C.LeaseId, request: StreamId, token: C.Token, lease: C.LeaseId)
    requires CellGood(c, k) && Dispatches(Claim(c, now, entry, k, callToken, provider, held, request).0, token, lease,
             now)
    ensures Dispatches(c, token, lease, now) || C.LeaseLive(entry, token, lease, now)
  {
  }

  lemma OwnershipBegins(s: State, e: Event, token: C.Token, lease: C.LeaseId)
    requires Good(s) && Enabled(s, e) && KeyOf(e).Some? && Gone(s, token, lease)
    requires Owned(Apply(s, e), KeyOf(e).value, token, lease)
    ensures Owned(s, KeyOf(e).value, token, lease) && !e.Settling?
  {
    var k := KeyOf(e).value;
    var c := CellOf(s, k);
    assert Ready(c, k, s.births);
    assert CellOf(Apply(s, e), k) == OnCell(s, e).0 && Apply(s, e).now == s.now;
    if e.Settling? {
      OwnEntryLacksLease(s, e, token, lease);
      SettleTakesAway(c, k, s.now, EntryFor(s, e), e.index, e.cause, token, lease);
    } else if e.Claiming? {
      ClaimNeedsLease(c, k, s.now, EntryOf(s, e.toolset), e.callToken, e.token, e.lease, e.request, token, lease);
    } else if FromProvider(e) {
      ProvidersDoNotDispatch(s, e, token, lease);
    } else {
      OthersDoNotDispatch(s, e, token, lease);
    }
  }

  lemma OwnEntryLacksLease(s: State, e: Event, token: C.Token, lease: C.LeaseId)
    requires Good(s) && e.Settling? && Gone(s, token, lease)
    ensures !C.LeaseLive(EntryFor(s, e), token, lease, s.now)
  {
  }

  /** The releasing replica either settles the key or finds no admitted call under it. */
  predicate Handled(s: State, run: seq<Event>, k: Key)
    decreases run
  {
    var l := Lookup(CellOf(s, k), s.now);
    || l.None? || l.value.Rejected?
    || (run != [] && ((run[0].Settling? && run[0].key == k && Enabled(s, run[0]))
      || Handled(Apply(s, run[0]), run[1..], k)))
  }

  predicate NeverReregisters(run: seq<Event>, token: C.Token, lease: C.LeaseId) {
    forall i :: 0 <= i < |run| ==> !Reregisters(run[i], token, lease)
  }

  lemma {:induction false} OwnedWasOwned(s: State, run: seq<Event>, k: Key, token: C.Token, lease: C.LeaseId)
    requires Good(s) && Gone(s, token, lease) && NeverReregisters(run, token, lease)
    requires Owned(Run(s, run), k, token, lease)
    ensures Owned(s, k, token, lease) && !Handled(s, run, k)
    decreases run
  {
    if run != [] {
      StepKeepsGood(s, run[0]);
      StaysGone(s, run[0], token, lease);
      OwnedWasOwned(Apply(s, run[0]), run[1..], k, token, lease);
      OwnedOnlyShrinks(s, run[0], k, token, lease);
    }
  }

  lemma {:induction false} RunStaysGone(s: State, run: seq<Event>, token: C.Token, lease: C.LeaseId)
    requires Gone(s, token, lease) && NeverReregisters(run, token, lease)
    ensures Gone(Run(s, run), token, lease)
    decreases run
  {
    if run != [] {
      StaysGone(s, run[0], token, lease);
      RunStaysGone(Apply(s, run[0]), run[1..], token, lease);
    }
  }

  /** The keys the releasing replica reads from the lease's index. */
  function IndexMembers(s: State, token: C.Token, lease: C.LeaseId): set<Key> {
    set k | k in s.cells && LeaseIndex(token, lease) in s.cells[k].indexes
  }

  /** Every key that was read from the lease's index is handled. */
  ghost predicate HandlesAll(read: State, after: seq<Event>, token: C.Token, lease: C.LeaseId) {
    forall k :: k in IndexMembers(read, token, lease) ==> Handled(read, after, k)
  }

  lemma MissedIsUnindexed(s: State, k: Key, token: C.Token, lease: C.LeaseId)
    requires Owned(s, k, token, lease) && k !in IndexMembers(s, token, lease)
    ensures !Indexed(CellOf(s, k), s.now)
  {
  }

  function Releasing(token: C.Token, lease: C.LeaseId): Event {
    CatalogOp(token.toolset, C.Release(token, lease))
  }

  /** After a provider release commits in the catalog, the replica reads the lease's
      index and handles every key it read, while everything else goes on around it.
      Unless that incarnation registers again, a call that is still dispatched to it in
      the end was so when the index was read, and missing from its indexes. */
  lemma ReleaseLeavesUnindexed(s: State, before: seq<Event>, after: seq<Event>, token: C.Token, lease: C.LeaseId,
      k: Key)
    requires Good(s) && NeverReregisters(before, token, lease) && NeverReregisters(after, token, lease)
    requires var read := Run(Apply(s, Releasing(token, lease)), before);
             HandlesAll(read, after, token, lease) && Owned(Run(read, after), k, token, lease)
    ensures var read := Run(Apply(s, Releasing(token, lease)), before);
            Owned(read, k, token, lease) && !Indexed(CellOf(read, k), read.now)
  {
    var released := Apply(s, Releasing(token, lease));
    var read := Run(released, before);
    C.ReleaseEndsLease(EntryOf(s, token.toolset), s.now, token, lease);
    StepKeepsGood(s, Releasing(token, lease));
    RunKeepsGood(released, before);
    RunStaysGone(released, before, token, lease);
    OwnedWasOwned(read, after, k, token, lease);
    assert k !in IndexMembers(read, token, lease);
    MissedIsUnindexed(read, k, token, lease);
  }

  /** So, from indexes that cover every live dispatch, and unless a cleanup hits a live
      dispatch before the index is read, no unexpired call is left dispatched to that
      incarnation without a result. */
  lemma ReleaseSettlesEverything(s: State, before: seq<Event>, after: seq<Event>, token: C.Token, lease: C.LeaseId)
    requires Good(s) && FullyIndexed(s) && NeverCleansLive(s, [Releasing(token, lease)] + before)
    requires NeverReregisters(before, token, lease) && NeverReregisters(after, token, lease)
    requires HandlesAll(Run(Apply(s, Releasing(token, lease)), before), after, token, lease)
    ensures var read := Run(Apply(s, Releasing(token, lease)), before);
            forall k :: !Owned(Run(read, after), k, token, lease)
  {
    var e := Releasing(token, lease);
    var read := Run(Apply(s, e), before);
    assert Run(s, [e] + before) == read by { assert ([e] + before)[1..] == before; }
    RunKeepsIndexed(s, [e] + before);
    forall k
      ensures !Owned(Run(read, after), k, token, lease)
    {
      assert Indexed(CellOf(read, k), read.now);
      if Owned(Run(read, after), k, token, lease) { ReleaseLeavesUnindexed(s, before, after, token, lease, k); }
    }
  }
}
