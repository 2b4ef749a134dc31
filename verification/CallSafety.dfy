/** Safety of the routed-call protocol over every run. */
module CallSafety {
  import opened Basics
  import opened StreamIds
  import opened CallRecord
  import opened CallScripts
  import opened CallInvariants
  import opened CallTransitions
  import opened CallRuns
  import C = Catalog
  import Q = RequestQueue

  // ---------------------------------------------------------------- reachable states

  predicate CatalogGood(s: State) {
    forall t :: t in s.catalog ==>
      && s.catalog[t].token.toolset == t
      && forall id :: id in s.catalog[t].leases ==> s.catalog[t].leases[id].expires <= s.now + C.MAX_LEASE_MS
  }

  /** A snapshot somebody holds is a past reading of its lifetime's record. */
  predicate SnapshotGood(h: Snapshot, c: Cell, births: nat) {
    && h.birth < births
    && (h.overloadEvent.Some? ==> h.overloadEvent.value != ZERO)
    && (c.call.Some? && Birth(c.call.value) == h.birth ==>
          && c.call.value.Admitted?
          && var r := c.call.value.r;
          && r.digest == h.digest && r.token == h.token
          && (h.overloadEvent.Some? ==>
            r.overloadEvent.Some? && AtOrBefore(h.overloadEvent.value, r.overloadEvent.value)))
  }

  ghost predicate Good(s: State) {
    && s.now <= CLOCK_LIMIT
    && CatalogGood(s)
    && (forall k :: Ready(CellOf(s, k), k, s.births))
    && (forall h :: h in s.held ==> SnapshotGood(h, CellOf(s, h.key), s.births))
  }

  /** `Keeps`, except that losing the stream loses its terminal event. */
  predicate StepKeeps(e: Event, c: Cell, d: Cell, k: Key, births: nat, now: nat) {
    CellGood(d, k) && CallEvolves(c.call, d.call, births, now) && (!e.LosingResults? ==> KeepsTerminalEvent(c, d))
  }

  lemma ProviderEventKeeps(s: State, e: Event)
    requires Good(s) && Enabled(s, e) && (e.Claiming? || e.Completing? || e.Streaming? || e.Overloading?)
    ensures StepKeeps(e, CellOf(s, e.key), OnCell(s, e).0, e.key, s.births, s.now)
  {
    var c := CellOf(s, e.key);
    assert Ready(c, e.key, s.births);
    var entry := EntryOf(s, e.toolset);
    if e.Claiming? {
      ClaimKeeps(c, e.key, s.births, s.now, entry, e.callToken, e.token, e.lease, e.request);
    } else if e.Completing? {
      CompleteKeeps(c, e.key, s.births, s.now, entry, e.callToken, e.token, e.lease, e.request, e.payload);
    } else if e.Streaming? {
      LiveEventKeeps(c, e.key, s.births, s.now, entry, e.callToken, e.token, e.lease, e.request, e.payload);
    } else {
      OverloadKeeps(c, e.key, s.births, s.now, entry, e.callToken, e.token, e.lease, e.request);
    }
  }

  lemma CallerEventKeeps(s: State, e: Event)
    requires Good(s) && Enabled(s, e)
    requires e.Ensuring? || e.Rejecting? || e.Migrating? || e.Initializing? || e.Publishing?
    ensures StepKeeps(e, CellOf(s, KeyOf(e).value), OnCell(s, e).0, KeyOf(e).value, s.births, s.now)
  {
    var k := KeyOf(e).value;
    var c := CellOf(s, k);
    assert Ready(c, k, s.births);
    if e.Ensuring? {
      EnsureKeeps(c, k, s.births, s.now, e.digest, e.token, e.timeout, e.ttl);
    } else if e.Rejecting? {
      RejectKeeps(c, k, s.births, s.now, e.digest, e.kind, e.message, e.ttl);
    } else if e.Migrating? {
      MigrateKeeps(c, k, s.births, s.now, e.digest);
    } else if e.Initializing? {
      InitializeKeeps(c, k, s.births, s.now, e.digest);
    } else if Publishes(s, e) {
      PublicationKeepsExactly(c, k, s.births, s.now, EntryFor(s, e), e.snapshot.digest, e.overload, e.snapshot.token,
        PublishReply(s, e).1.id.value);
    }
  }

  lemma SweepEventKeeps(s: State, e: Event)
    requires Good(s) && Enabled(s, e) && (e.Restoring? || e.Settling? || e.Cleaning? || e.LosingResults?)
    ensures StepKeeps(e, CellOf(s, e.key), OnCell(s, e).0, e.key, s.births, s.now)
  {
    var c := CellOf(s, e.key);
    assert Ready(c, e.key, s.births);
    if e.Restoring? {
      RestoreKeeps(c, e.key, s.births, s.now);
    } else if e.Settling? {
      SettleKeeps(c, e.key, s.births, s.now, EntryFor(s, e), e.index, e.cause);
    }
  }

  lemma OnCellKeeps(s: State, e: Event)
    requires Good(s) && Enabled(s, e) && KeyOf(e).Some?
    ensures var k := KeyOf(e).value; StepKeeps(e, CellOf(s, k), OnCell(s, e).0, k, s.births, s.now)
  {
    if e.Claiming? || e.Completing? || e.Streaming? || e.Overloading? {
      ProviderEventKeeps(s, e);
    } else if e.Ensuring? || e.Rejecting? || e.Migrating? || e.Initializing? || e.Publishing? {
      CallerEventKeeps(s, e);
    } else {
      SweepEventKeeps(s, e);
    }
  }

  // ---------------------------------------------------------------- one event

  /** Between two states of a run, every call evolved within its lifetime, or that had
      expired and a new one began. */
  ghost predicate Evolves(s: State, t: State) {
    && s.now <= t.now && s.births <= t.births
    && forall k :: CallEvolves(CellOf(s, k).call, CellOf(t, k).call, s.births, t.now)
  }

  lemma ApplyAt(s: State, e: Event, k: Key)
    ensures CellOf(Apply(s, e), k) == if Enabled(s, e) && KeyOf(e) == Some(k) then OnCell(s, e).0 else CellOf(s, k)
    ensures s.now <= Apply(s, e).now && s.births <= Apply(s, e).births
    ensures KeyOf(e).Some? ==> Apply(s, e).now == s.now
  {
  }

  lemma NothingEvolves(c: Cell, k: Key, births: nat, now: nat, laterBirths: nat)
    requires Ready(c, k, births) && births <= laterBirths
    ensures CallEvolves(c.call, c.call, births, now) && Ready(c, k, laterBirths)
  {
  }

  lemma StepEvolvesAt(s: State, e: Event, k: Key)
    requires Good(s)
    ensures CallEvolves(CellOf(s, k).call, CellOf(Apply(s, e), k).call, s.births, Apply(s, e).now)
    ensures Ready(CellOf(Apply(s, e), k), k, Apply(s, e).births)
  {
    ApplyAt(s, e, k);
    assert Ready(CellOf(s, k), k, s.births);
    if Enabled(s, e) && KeyOf(e) == Some(k) {
      OnCellKeeps(s, e);
      NewestBirth(s, e);
    } else {
      NothingEvolves(CellOf(s, k), k, s.births, Apply(s, e).now, Apply(s, e).births);
    }
  }

  lemma StepEvolves(s: State, e: Event)
    requires Good(s)
    ensures Evolves(s, Apply(s, e))
    ensures forall k :: Ready(CellOf(Apply(s, e), k), k, Apply(s, e).births)
  {
    forall k
      ensures CallEvolves(CellOf(s, k).call, CellOf(Apply(s, e), k).call, s.births, Apply(s, e).now)
      ensures Ready(CellOf(Apply(s, e), k), k, Apply(s, e).births)
    {
      StepEvolvesAt(s, e, k);
    }
  }

  /** A script that starts a lifetime gives it the next number. */
  lemma NewestBirth(s: State, e: Event)
    requires Good(s) && Enabled(s, e) && KeyOf(e).Some?
    requires CallEvolves(CellOf(s, KeyOf(e).value).call, OnCell(s, e).0.call, s.births, s.now)
    ensures var d := OnCell(s, e).0; d.call.Some? ==> Birth(d.call.value) < Apply(s, e).births
  {
    var c := CellOf(s, KeyOf(e).value);
    assert Ready(c, KeyOf(e).value, s.births);
    var d := OnCell(s, e).0;
    if d.call.Some? && Birth(d.call.value) >= s.births { OnlyDecisionsBegin(s, e); }
  }

  /** Only the decision scripts start a lifetime. */
  lemma OnlyDecisionsBegin(s: State, e: Event)
    requires Enabled(s, e) && KeyOf(e).Some?
    requires CellOf(s, KeyOf(e).value).call.Some? ==> Birth(CellOf(s, KeyOf(e).value).call.value) < s.births
    requires OnCell(s, e).0.call.Some? && Birth(OnCell(s, e).0.call.value) >= s.births
    ensures (e.Ensuring? || e.Rejecting?) && Birth(OnCell(s, e).0.call.value) == s.births
  {
  }

  lemma StepKeepsCatalog(s: State, e: Event)
    requires CatalogGood(s)
    ensures CatalogGood(Apply(s, e))
  {
    if Enabled(s, e) && e.CatalogOp? {
      C.StepBoundsLeases(EntryOf(s, e.toolset), s.now, e.op, e.toolset);
      var m := Apply(s, e).catalog;
      assert forall t :: t != e.toolset ==> Find(m, t) == Find(s.catalog, t);
    }
  }

  lemma SnapshotStaysGood(h: Snapshot, c: Cell, d: Cell, births: nat, now: nat, later: nat)
    requires SnapshotGood(h, c, births) && births <= later && CallEvolves(c.call, d.call, births, now)
    ensures SnapshotGood(h, d, later)
  {
  }

  lemma StepKeepsSnapshots(s: State, e: Event, h: Snapshot)
    requires Good(s) && h in Apply(s, e).held
    ensures SnapshotGood(h, CellOf(Apply(s, e), h.key), Apply(s, e).births)
  {
    var t := Apply(s, e);
    assert Ready(CellOf(s, h.key), h.key, s.births);
    if h in s.held {
      StepEvolvesAt(s, e, h.key);
      ApplyAt(s, e, h.key);
      SnapshotStaysGood(h, CellOf(s, h.key), CellOf(t, h.key), s.births, t.now, t.births);
    }
  }

  lemma StepKeepsGood(s: State, e: Event)
    requires Good(s)
    ensures Good(Apply(s, e))
  {
    StepEvolves(s, e);
    StepKeepsCatalog(s, e);
    forall h | h in Apply(s, e).held
      ensures SnapshotGood(h, CellOf(Apply(s, e), h.key), Apply(s, e).births)
    {
      StepKeepsSnapshots(s, e, h);
    }
  }

  // ---------------------------------------------------------------- runs

  lemma {:induction false} RunKeepsGood(s: State, run: seq<Event>)
    requires Good(s)
    ensures Good(Run(s, run)) && Evolves(s, Run(s, run))
    decreases run
  {
    if run != [] {
      var m := Apply(s, run[0]);
      StepKeepsGood(s, run[0]);
      StepEvolves(s, run[0]);
      RunKeepsGood(m, run[1..]);
      forall k
        ensures CallEvolves(CellOf(s, k).call, CellOf(Run(s, run), k).call, s.births, Run(s, run).now)
      {
        EvolutionComposes(CellOf(s, k).call, CellOf(m, k).call, CellOf(Run(s, run), k).call, s.births, m.now, m.births,
          Run(s, run).now);
      }
    } else {
      assert forall k :: Ready(CellOf(s, k), k, s.births);
    }
  }

  lemma StartIsGood()
    ensures Good(START) && Clean(START)
  {
  }

  // ---------------------------------------------------------------- the strict reader

  /** The event does not publish an answer to an overload the record does not have. */
  predicate Answers(s: State, e: Event) {
    Enabled(s, e) && Publishes(s, e) ==> AnswersOverload(CellOf(s, e.snapshot.key).call.value.r, e.overload)
  }

  /** No event of the run publishes an answer to an overload its record never had. */
  predicate Careful(s: State, run: seq<Event>)
    decreases run
  {
    run != [] ==> Answers(s, run[0]) && Careful(Apply(s, run[0]), run[1..])
  }

  /** Every record's publication answers an overload of its own, or none. */
  predicate CleanCell(c: Cell) {
    c.call.Some? && c.call.value.Admitted? ==> AnswersOverload(c.call.value.r, c.call.value.r.overload)
  }

  ghost predicate Clean(s: State) {
    forall k :: CleanCell(CellOf(s, k))
  }

  /** Every admitted record a script can see is accepted by the strict reader, up to
      its expiration millisecond. */
  ghost predicate Readable(s: State) {
    forall k ::
      var l := Lookup(CellOf(s, k), s.now);
      l.Some? && l.value.Admitted? ==> (Attach(l, s.now, l.value.r.digest).Attached? <==> s.now < l.value.r.expires)
  }

  ghost predicate AlwaysReadable(s: State, run: seq<Event>)
    decreases run
  {
    Readable(s) && (run != [] ==> AlwaysReadable(Apply(s, run[0]), run[1..]))
  }

  lemma CleanIsReadable(s: State)
    requires Good(s) && Clean(s)
    ensures Readable(s)
  {
    forall k | Lookup(CellOf(s, k), s.now).Some? && Lookup(CellOf(s, k), s.now).value.Admitted?
      ensures var r := Lookup(CellOf(s, k), s.now).value.r;
              Attach(Some(Admitted(r)), s.now, r.digest).Attached? <==> s.now < r.expires
    {
      assert Ready(CellOf(s, k), k, s.births) && CleanCell(CellOf(s, k));
      ReaderAcceptsExactly(CellOf(s, k).call.value.r, k, s.now);
    }
  }

  /** Only publication writes which overload was answered. */
  predicate SameAnswer(c: Cell, d: Cell) {
    d.call.Some? && d.call.value.Admitted? ==>
      || d.call.value.r.overload.None?
      || (c.call.Some? && c.call.value.Admitted? && d.call.value.r.overload == c.call.value.r.overload
          && Birth(c.call.value) == Birth(d.call.value))
  }

  lemma ClaimKeepsAnswer(c: Cell, k: Key, now: nat, entry: Option<C.Entry>, callToken: C.Token, token: C.Token,
      lease: C.LeaseId, request: StreamId)
    ensures SameAnswer(c, Claim(c, now, entry, k, callToken, token, lease, request).0)
  {
  }

  lemma CompleteKeepsAnswer(c: Cell, k: Key, now: nat, entry: Option<C.Entry>, callToken: C.Token, token: C.Token,
      lease: C.LeaseId, request: StreamId, p: Payload)
    ensures SameAnswer(c, Complete(c, now, entry, k, callToken, token, lease, request, p).0)
    ensures SameAnswer(c, LiveEvent(c, now, entry, k, callToken, token, lease, request, p).0)
  {
  }

  lemma OverloadKeepsAnswer(c: Cell, k: Key, now: nat, entry: Option<C.Entry>, callToken: C.Token, token: C.Token,
      lease: C.LeaseId, request: StreamId)
    ensures SameAnswer(c, ReportOverload(c, now, entry, k, callToken, token, lease, request).0)
  {
  }

  lemma ProviderKeepsAnswer(s: State, e: Event)
    requires e.Claiming? || e.Completing? || e.Streaming? || e.Overloading?
    ensures SameAnswer(CellOf(s, e.key), OnCell(s, e).0)
  {
    var c, entry := CellOf(s, e.key), EntryOf(s, e.toolset);
    if e.Claiming? {
      ClaimKeepsAnswer(c, e.key, s.now, entry, e.callToken, e.token, e.lease, e.request);
    } else if e.Overloading? {
      OverloadKeepsAnswer(c, e.key, s.now, entry, e.callToken, e.token, e.lease, e.request);
    } else {
      CompleteKeepsAnswer(c, e.key, s.now, entry, e.callToken, e.token, e.lease, e.request, e.payload);
    }
  }

  lemma OthersKeepAnswer(s: State, e: Event)
    requires Good(s) && Enabled(s, e) && KeyOf(e).Some? && !e.Publishing?
    requires !(e.Claiming? || e.Completing? || e.Streaming? || e.Overloading?)
    ensures SameAnswer(CellOf(s, KeyOf(e).value), OnCell(s, e).0)
  {
    assert Ready(CellOf(s, KeyOf(e).value), KeyOf(e).value, s.births);
  }

  lemma OnCellKeepsClean(s: State, e: Event)
    requires Good(s) && Clean(s) && Enabled(s, e) && KeyOf(e).Some? && Answers(s, e)
    ensures CleanCell(OnCell(s, e).0)
  {
    var k := KeyOf(e).value;
    var c, d := CellOf(s, k), OnCell(s, e).0;
    assert Ready(c, k, s.births) && CleanCell(c);
    if !e.Publishing? {
      if e.Claiming? || e.Completing? || e.Streaming? || e.Overloading? {
        ProviderKeepsAnswer(s, e);
      } else {
        OthersKeepAnswer(s, e);
      }
      OnCellKeeps(s, e);
      SameAnswerIsClean(c, d, s.births, s.now);
    }
  }

  /** An answer that was the record's own stays its own: overload events only move
      forward. */
  lemma SameAnswerIsClean(c: Cell, d: Cell, births: nat, now: nat)
    requires CleanCell(c) && SameAnswer(c, d) && CallEvolves(c.call, d.call, births, now)
    ensures CleanCell(d)
  {
  }

  lemma StepKeepsClean(s: State, e: Event)
    requires Good(s) && Clean(s) && Answers(s, e)
    ensures Clean(Apply(s, e))
  {
    forall k
      ensures CleanCell(CellOf(Apply(s, e), k))
    {
      assert CleanCell(CellOf(s, k));
      if Enabled(s, e) && KeyOf(e) == Some(k) {
        OnCellKeepsClean(s, e);
        assert CellOf(Apply(s, e), k) == OnCell(s, e).0;
      } else {
        assert CellOf(Apply(s, e), k) == CellOf(s, k);
      }
    }
  }

  /** Publishing an answer to an overload the record never had makes it unreadable. */
  lemma ForeignAnswerCorrupts(s: State, e: Event)
    requires Good(s) && !Answers(s, e)
    ensures !Readable(Apply(s, e))
  {
    var k := e.snapshot.key;
    var c := CellOf(s, k);
    assert Ready(c, k, s.births);
    var id := PublishReply(s, e).1.id.value;
    PublicationKeepsExactly(c, k, s.births, s.now, EntryFor(s, e), e.snapshot.digest, e.overload, e.snapshot.token, id);
    var t := Apply(s, e);
    assert CellOf(t, k) == CommitPublication(c, id, e.overload);
    assert Lookup(CellOf(t, k), t.now) == CellOf(t, k).call;
  }

  /** The corruption errors of the strict reader are unreachable, over every
      interleaving of all scripts, exactly when no publication answers an overload
      of an earlier admission of the same request. */
  lemma {:induction false} ReadableExactly(s: State, run: seq<Event>)
    requires Good(s) && Clean(s)
    ensures AlwaysReadable(s, run) <==> Careful(s, run)
    decreases run
  {
    CleanIsReadable(s);
    if run != [] {
      if Answers(s, run[0]) {
        StepKeepsGood(s, run[0]);
        StepKeepsClean(s, run[0]);
        ReadableExactly(Apply(s, run[0]), run[1..]);
      } else {
        ForeignAnswerCorrupts(s, run[0]);
      }
    }
  }

  /** A publisher acting on a snapshot of the current lifetime is always safe. */
  lemma SameLifetimeAnswers(s: State, e: Event)
    requires Good(s)
    requires e.Publishing? ==> var c := CellOf(s, e.snapshot.key);
             c.call.Some? ==> Birth(c.call.value) == e.snapshot.birth
    ensures Answers(s, e)
  {
    if Enabled(s, e) && Publishes(s, e) {
      assert SnapshotGood(e.snapshot, CellOf(s, e.snapshot.key), s.births);
    }
  }

  // ---------------------------------------------------------------- at most one execution

  /** The event answers "execute" for `k` to its provider. */
  predicate Executes(s: State, e: Event, k: Key) {
    e.Claiming? && e.key == k && OnCell(s, e).1 == Status(1)
  }

  /** How often a run answers "execute" for `k`, over all its lifetimes. */
  function Executions(s: State, run: seq<Event>, k: Key): nat
    decreases run
  {
    if run == [] then 0
    else (if Executes(s, run[0], k) then 1 else 0) + Executions(Apply(s, run[0]), run[1..], k)
  }

  /** Lifetime `birth` of `k` can no longer be claimed: it is dispatched, terminal
      or rejected, or it has ended. */
  predicate Closed(s: State, k: Key, birth: nat) {
    && birth < s.births
    && var c := CellOf(s, k).call;
    && (c.Some? && Birth(c.value) == birth ==>
          c.value.Rejected? || c.value.r.terminal || c.value.r.dispatchToken.Some?)
  }

  lemma ClaimCloses(s: State, e: Event, k: Key)
    requires Good(s) && Executes(s, e, k)
    ensures CellOf(s, k).call.Some? && Closed(Apply(s, e), k, Birth(CellOf(s, k).call.value))
    ensures !Closed(s, k, Birth(CellOf(s, k).call.value))
  {
    assert Ready(CellOf(s, k), k, s.births);
    assert CellOf(Apply(s, e), k) == OnCell(s, e).0;
  }

  lemma StepKeepsClosed(s: State, e: Event, k: Key, birth: nat)
    requires Good(s) && Closed(s, k, birth)
    ensures Closed(Apply(s, e), k, birth)
  {
    StepEvolves(s, e);
    assert CallEvolves(CellOf(s, k).call, CellOf(Apply(s, e), k).call, s.births, Apply(s, e).now);
  }

  lemma {:induction false} ClosedStaysClosed(s: State, run: seq<Event>, k: Key, birth: nat)
    requires Good(s) && Closed(s, k, birth)
    ensures Closed(Run(s, run), k, birth)
    decreases run
  {
    if run != [] {
      StepKeepsGood(s, run[0]);
      StepKeepsClosed(s, run[0], k, birth);
      ClosedStaysClosed(Apply(s, run[0]), run[1..], k, birth);
    }
  }

  /** Whatever else runs in between, a second "execute" for an identity comes only
      after the record that answered the first has expired. */
  lemma ExecutesAgainOnlyAfterExpiry(s: State, e: Event, between: seq<Event>, f: Event, k: Key)
    requires Good(s) && Executes(s, e, k) && Executes(Run(Apply(s, e), between), f, k)
    ensures CellOf(s, k).call.Some?
    ensures ExpiresAt(CellOf(s, k).call.value) < Run(Apply(s, e), between).now
  {
    var t := Run(Apply(s, e), between);
    var birth := Birth(CellOf(s, k).call.value);
    ClaimCloses(s, e, k);
    StepKeepsGood(s, e);
    ClosedStaysClosed(Apply(s, e), between, k, birth);
    RunKeepsGood(s, [e] + between);
    assert ([e] + between)[1..] == between;
    assert CallEvolves(CellOf(s, k).call, CellOf(t, k).call, s.births, t.now);
    ClaimCloses(t, f, k);
  }

  lemma {:induction false} ClosedNeverExecutes(s: State, run: seq<Event>, k: Key)
    requires Good(s) && CellOf(s, k).call.Some? && Closed(s, k, Birth(CellOf(s, k).call.value))
    requires Run(s, run).now <= ExpiresAt(CellOf(s, k).call.value)
    ensures Executions(s, run, k) == 0
    decreases run
  {
    if run != [] {
      RetainedUntilExpiry(s, run[0], run[1..], k);
      StepKeepsGood(s, run[0]);
      StepKeepsClosed(s, run[0], k, Birth(CellOf(s, k).call.value));
      ClosedNeverExecutes(Apply(s, run[0]), run[1..], k);
      if Executes(s, run[0], k) { ClaimCloses(s, run[0], k); }
    }
  }

  /** Until it expires a decision is neither removed nor replaced. */
  lemma RetainedUntilExpiry(s: State, e: Event, rest: seq<Event>, k: Key)
    requires Good(s) && CellOf(s, k).call.Some? && Run(Apply(s, e), rest).now <= ExpiresAt(CellOf(s, k).call.value)
    ensures var d := CellOf(Apply(s, e), k).call;
            d.Some? && Birth(d.value) == Birth(CellOf(s, k).call.value)
              && ExpiresAt(d.value) == ExpiresAt(CellOf(s, k).call.value)
  {
    StepKeepsGood(s, e);
    StepEvolves(s, e);
    RunKeepsGood(Apply(s, e), rest);
    assert Ready(CellOf(s, k), k, s.births);
    assert CallEvolves(CellOf(s, k).call, CellOf(Apply(s, e), k).call, s.births, Apply(s, e).now);
  }

  /** As long as a decision is retained, the identity is executed at most once over every
      replica, provider and redelivery, in every run. */
  lemma {:induction false} ExecutesAtMostOnce(s: State, run: seq<Event>, k: Key)
    requires Good(s) && CellOf(s, k).call.Some? && Run(s, run).now <= ExpiresAt(CellOf(s, k).call.value)
    ensures Executions(s, run, k) <= 1
    decreases run
  {
    if run != [] {
      RetainedUntilExpiry(s, run[0], run[1..], k);
      StepKeepsGood(s, run[0]);
      if Executes(s, run[0], k) {
        ClaimCloses(s, run[0], k);
        ClosedNeverExecutes(Apply(s, run[0]), run[1..], k);
      } else {
        ExecutesAtMostOnce(Apply(s, run[0]), run[1..], k);
      }
    }
  }
}
