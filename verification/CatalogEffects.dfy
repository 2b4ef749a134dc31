/** What each catalog operation answers and leaves behind, in terms of the stored leases
    and the clock: who is a member afterwards, until when, and at which health epoch. */
module CatalogEffects {
  import opened Basics
  import opened Catalog

  /** Somebody can be sent calls: a stored lease that is neither draining nor expired. */
  predicate Serves(e: Entry, now: nat) {
    exists id :: id in e.leases && !e.leases[id].draining && now < e.leases[id].expires
  }

  /** A lease that was granted for calls is stored, expired or not. */
  predicate Granted(e: Entry) {
    exists id :: id in e.leases && !e.leases[id].draining
  }

  /** Apart from `lease`, exactly the unexpired leases of `e` are left, unchanged. */
  ghost predicate KeepsOthers(e: Entry, f: Entry, lease: Option<LeaseId>, now: nat) {
    forall id :: Some(id) != lease ==>
      && (id in f.leases <==> id in e.leases && now < e.leases[id].expires)
      && (id in f.leases ==> f.leases[id] == e.leases[id])
  }

  ghost predicate KeepsAllOthers(e: Entry, f: Entry, lease: LeaseId) {
    forall id :: id != lease ==>
      (id in f.leases <==> id in e.leases) && (id in f.leases ==> f.leases[id] == e.leases[id])
  }

  /** The epoch moved on by `steps`, which forgets the last pong. */
  predicate Fences(e: Entry, f: Entry, steps: nat) {
    f.epoch == e.epoch + steps && f.lastPong == if steps == 0 then e.lastPong else 0
  }

  predicate SameGeneration(e: Entry, f: Entry) {
    f.token == e.token && f.active == e.active && f.retired == e.retired
  }

  lemma PruningExactly(e: Entry, now: nat)
    ensures var p := Pruned(e, now);
            && SameGeneration(e, p) && KeepsOthers(e, p, None, now)
            && Fences(e, p, if Granted(e) && !Serves(e, now) then 1 else 0)
            && (Serves(p, now) <==> Serves(e, now)) && (Serves(p, now) <==> Routable(p, now))
  {
    var kept := e.(leases := Unexpired(e.leases, now));
    assert Granted(e) <==> HasNonDraining(e);
    if Serves(e, now) {
      var id :| id in e.leases && !e.leases[id].draining && now < e.leases[id].expires;
      assert id in kept.leases && IsRoutable(kept.leases[id], now);
    }
    if Routable(kept, now) {
      var id :| id in kept.leases && IsRoutable(kept.leases[id], now);
      assert id in e.leases && !e.leases[id].draining && now < e.leases[id].expires;
    }
    assert Serves(kept, now) <==> Routable(kept, now);
  }

  /** A sweep removes exactly the expired leases, and fences the epoch when the last
      member that could be sent calls is among them. */
  lemma PrunesExactly(e: Option<Entry>, now: nat)
    ensures e.None? ==> Step(e, now, Prune).0 == None
    ensures e.Some? ==>
              var f := Step(e, now, Prune).0;
              && f.Some? && SameGeneration(e.value, f.value) && KeepsOthers(e.value, f.value, None, now)
              && Fences(e.value, f.value, if Granted(e.value) && !Serves(e.value, now) then 1 else 0)
  {
    if e.Some? {
      PruningExactly(e.value, now);
      if Granted(e.value) && !HasExpired(e.value, now) {
        var id :| id in e.value.leases && !e.value.leases[id].draining;
        assert now < e.value.leases[id].expires;
      }
    }
  }

  // ---------------------------------------------------------------- registration

  /** The duration is one a provider may ask for, and its end can be represented. */
  predicate ValidDuration(now: nat, duration: nat) {
    MIN_LEASE_MS <= duration <= MAX_LEASE_MS && now + duration <= MAX_INT64
  }

  predicate AllExpired(e: Entry, now: nat) {
    forall id :: id in e.leases ==> e.leases[id].expires <= now
  }

  lemma EmptyExactly(e: Entry, now: nat)
    ensures Pruned(e, now).leases == map[] <==> AllExpired(e, now)
  {
    var p := Pruned(e, now);
    PruningExactly(e, now);
    if p.leases != map[] {
      var id :| id in p.leases;
    }
  }

  /** A registration answers by its duration, the tombstones and who still holds a
      lease, and is accepted exactly when the duration is valid, its token is not
      tombstoned, and the token is the current one or nobody else's lease stands. */
  lemma RegistrationAnswers(e: Option<Entry>, now: nat, token: Token, lease: LeaseId, duration: nat)
    ensures var o := Step(e, now, Register(token, lease, duration)).1;
            o == if !ValidDuration(now, duration) then Invalid
                 else if e.None? then Done
                 else if token in e.value.retired then Tombstoned
                 else if token == e.value.token || AllExpired(e.value, now) then Done
                 else Blocked
  {
    if e.Some? { EmptyExactly(e.value, now); }
  }

  /** A refused registration changes nothing, except that a blocked one sweeps. */
  lemma RefusedRegistrationKeeps(e: Option<Entry>, now: nat, token: Token, lease: LeaseId, duration: nat)
    requires Step(e, now, Register(token, lease, duration)).1 != Done
    ensures var (f, o) := Step(e, now, Register(token, lease, duration));
            && (o != Blocked ==> f == e)
            && (o == Blocked ==> e.Some? && f.Some? && SameGeneration(e.value, f.value)
                                 && KeepsOthers(e.value, f.value, None, now))
  {
    if e.Some? {
      PruningExactly(e.value, now);
    }
  }

  /** An accepted registration stores or renews its lease for exactly the duration asked
      for, not draining, keeps every other lease that stands, and starts or continues
      the generation of its token. */
  lemma RegistersExactly(e: Option<Entry>, now: nat, token: Token, lease: LeaseId, duration: nat)
    requires Sound(e) && Step(e, now, Register(token, lease, duration)).1 == Done
    ensures var f := Step(e, now, Register(token, lease, duration)).0;
            && f.Some? && f.value.token == token && f.value.active
            && lease in f.value.leases && f.value.leases[lease] == Lease(now + duration, false)
            && (if e.Some? && e.value.token == token then KeepsOthers(e.value, f.value, Some(lease), now)
                else f.value.leases.Keys == {lease})
  {
    var f := Step(e, now, Register(token, lease, duration)).0;
    if e.Some? {
      PruningExactly(e.value, now);
    }
  }

  /** Its holder is a live provider of the token until then and no longer. */
  lemma RegisteredIsLive(e: Option<Entry>, now: nat, token: Token, lease: LeaseId, duration: nat, t: nat)
    requires Sound(e) && Step(e, now, Register(token, lease, duration)).1 == Done
    ensures var f := Step(e, now, Register(token, lease, duration)).0;
            LeaseLive(f, token, lease, t) <==> t < now + duration
  {
    RegistersExactly(e, now, token, lease, duration);
  }

  /** Joining while others serve keeps the epoch and the last pong; joining an unserved
      generation moves the epoch on; a new generation starts at epoch one and
      tombstones the one before. */
  lemma RegistrationFences(e: Option<Entry>, now: nat, token: Token, lease: LeaseId, duration: nat)
    requires Step(e, now, Register(token, lease, duration)).1 == Done
    ensures var f := Step(e, now, Register(token, lease, duration)).0;
            && f.Some?
            && (if e.Some? && e.value.token == token then
                  && f.value.retired == e.value.retired
                  && Fences(e.value, f.value,
                            if Serves(e.value, now) then 0 else if Granted(e.value) then 2 else 1)
                else
                  && f.value.epoch == 1 && f.value.lastPong == 0
                  && f.value.retired == if e.None? then {} else e.value.retired + {e.value.token})
  {
    if e.Some? {
      PruningExactly(e.value, now);
      if Serves(e.value, now) { assert Granted(e.value); }
    }
  }

  // ---------------------------------------------------------------- drain and release

  /** The exact incarnation holds a lease that stands. */
  predicate Holds(e: Option<Entry>, token: Token, lease: LeaseId, now: nat) {
    e.Some? && e.value.token == token && lease in e.value.leases && now < e.value.leases[lease].expires
  }

  /** Draining keeps the lease at least for the duration asked for, sends it no more
      calls, touches no other lease, and fences the epoch when nobody else serves. */
  lemma DrainsExactly(e: Option<Entry>, now: nat, token: Token, lease: LeaseId, duration: nat)
    requires Holds(e, token, lease, now)
    ensures var (f, o) := Step(e, now, Drain(token, lease, duration));
            if now + duration > MAX_INT64 then o == Invalid && f == e
            else
              && o == Done && f.Some? && SameGeneration(e.value, f.value) && KeepsAllOthers(e.value, f.value, lease)
              && lease in f.value.leases && f.value.leases[lease].draining
              && e.value.leases[lease].expires <= f.value.leases[lease].expires
              && now + duration <= f.value.leases[lease].expires
              && f.value.leases[lease].expires in {e.value.leases[lease].expires, now + duration}
              && Fences(e.value, f.value, if Serves(e.value, now) && !Serves(f.value, now) then 1 else 0)
  {
    var f := Step(e, now, Drain(token, lease, duration)).0.value;
    assert Serves(e.value, now) <==> Routable(e.value, now);
    assert Serves(f, now) <==> Routable(f, now);
  }

  /** So the draining provider still owns what it claimed until exactly then. */
  lemma DrainedStaysLive(e: Option<Entry>, now: nat, token: Token, lease: LeaseId, duration: nat, t: nat)
    requires Holds(e, token, lease, now) && now + duration <= MAX_INT64
    ensures LeaseLive(Step(e, now, Drain(token, lease, duration)).0, token, lease, t) <==>
            t < e.value.leases[lease].expires || t < now + duration
  {
  }

  /** Draining without a lease that stands changes nothing but an expired lease's record. */
  lemma DrainMisses(e: Option<Entry>, now: nat, token: Token, lease: LeaseId, duration: nat)
    requires !Holds(e, token, lease, now)
    ensures var (f, o) := Step(e, now, Drain(token, lease, duration));
            && o == Done
            && if e.Some? && e.value.token == token && lease in e.value.leases
               then f.Some? && SameGeneration(e.value, f.value) && KeepsOthers(e.value, f.value, None, now)
               else f == e
  {
    if e.Some? { PruningExactly(e.value, now); }
  }

  /** Releasing removes exactly the lease named and the expired ones; of another
      generation it changes nothing. */
  lemma ReleasesExactly(e: Option<Entry>, now: nat, token: Token, lease: LeaseId)
    ensures var (f, o) := Step(e, now, Release(token, lease));
            && o == Done
            && if e.None? || e.value.token != token then f == e
               else
                 && f.Some? && SameGeneration(e.value, f.value) && KeepsOthers(e.value, f.value, Some(lease), now)
                 && lease !in f.value.leases
  {
    if e.Some? && e.value.token == token {
      PruningExactly(e.value, now);
      PrunesExactly(e, now);
    }
  }

  /** The epoch moves on when the last member that was granted calls goes. */
  lemma ReleaseFences(e: Entry, now: nat, token: Token, lease: LeaseId)
    requires e.token == token
    ensures var f := Step(Some(e), now, Release(token, lease)).0.value;
            Fences(e, f, if Granted(e) && !Serves(f, now) then 1 else 0)
  {
    var p := Pruned(e, now);
    var f := Step(Some(e), now, Release(token, lease)).0.value;
    PruningExactly(e, now);
    PrunesExactly(Some(e), now);
    assert Serves(f, now) <==> Routable(f, now);
    if Serves(f, now) {
      var id :| id in f.leases && !f.leases[id].draining && now < f.leases[id].expires;
      assert id in p.leases && id in e.leases;
    }
    if Serves(e, now) {
      var id :| id in e.leases && !e.leases[id].draining && now < e.leases[id].expires;
    }
  }

  /** Retiring deactivates and tombstones exactly the generation named. */
  lemma RetiresExactly(e: Option<Entry>, now: nat, token: Token)
    requires Sound(e)
    ensures var (f, o) := Step(e, now, Retire(token));
            && o == (if e.Some? && e.value.token != token then Conflict else Done)
            && (e.None? || e.value.token != token ==> f == e)
            && (e.Some? && e.value.token == token ==>
                  && f.Some? && !f.value.active && f.value.retired == e.value.retired + {token}
                  && f.value == e.value.(active := false, retired := f.value.retired))
  {
    if e.Some? && e.value.token == token && !e.value.active {
      assert e.value.retired == e.value.retired + {token};
    }
  }

  // ---------------------------------------------------------------- health

  /** A ping names the generation and epoch exactly when somebody serves it. */
  lemma PingsExactly(e: Option<Entry>, now: nat)
    ensures var o := Step(e, now, Health).1;
            && (o.Identity? <==> e.Some? && e.value.active && Serves(e.value, now))
            && (o.Identity? ==> o == Identity(e.value.token, e.value.epoch))
            && (!o.Identity? ==> o == NotFound)
  {
    if e.Some? {
      PruningExactly(e.value, now);
      PrunesExactly(e, now);
      if Serves(e.value, now) { assert Granted(e.value); }
      var p := PruneAt(e, now).value;
      assert Serves(p, now) <==> Routable(p, now);
      assert Serves(p, now) <==> Serves(e.value, now) by {
        if Serves(e.value, now) {
          var id :| id in e.value.leases && !e.value.leases[id].draining && now < e.value.leases[id].expires;
          assert id in p.leases;
        }
      }
    }
  }

  /** The pong comes from a member that can be sent calls, for this generation and epoch. */
  predicate Answers(e: Option<Entry>, now: nat, token: Token, lease: LeaseId, epoch: nat) {
    && Holds(e, token, lease, now) && e.value.active && !e.value.leases[lease].draining && e.value.epoch == epoch
  }

  /** A pong is recorded exactly when it answers the current epoch of an active
      generation from a member that serves; recording never moves the time back. */
  lemma PongsExactly(e: Option<Entry>, now: nat, token: Token, lease: LeaseId, epoch: nat, nanos: nat)
    ensures var f := Step(e, now, Pong(token, lease, epoch, nanos)).0;
            if Answers(e, now, token, lease, epoch) then
              && f.Some? && SameGeneration(e.value, f.value) && KeepsOthers(e.value, f.value, None, now)
              && f.value.epoch == epoch
              && e.value.lastPong <= f.value.lastPong && nanos <= f.value.lastPong
              && f.value.lastPong in {e.value.lastPong, nanos}
            else f == Step(e, now, Prune).0
  {
    if e.Some? {
      PrunesExactly(e, now);
      if Answers(e, now, token, lease, epoch) {
        assert Serves(e.value, now);
      }
      var p := PruneAt(e, now).value;
      if PongAccepted(p, now, Pong(token, lease, epoch, nanos)) {
        assert lease in e.value.leases && Serves(e.value, now);
      }
    }
  }

  /** A member that answers the ping it was sent is recorded, unless something was
      committed in between. */
  lemma PromptPongIsRecorded(e: Option<Entry>, pinged: nat, now: nat, lease: LeaseId, nanos: nat)
    requires pinged <= now && Step(e, pinged, Health).1.Identity?
    requires var f := Step(e, pinged, Health).0;
             lease in f.value.leases && !f.value.leases[lease].draining && now < f.value.leases[lease].expires
    ensures var ping := Step(e, pinged, Health).1;
            var g := Step(Step(e, pinged, Health).0, now, Pong(ping.token, lease, ping.epoch, nanos)).0;
            g.Some? && nanos <= g.value.lastPong
  {
    PingsExactly(e, pinged);
    PrunesExactly(e, pinged);
    var ping := Step(e, pinged, Health).1;
    PongsExactly(Step(e, pinged, Health).0, now, ping.token, lease, ping.epoch, nanos);
  }
}
