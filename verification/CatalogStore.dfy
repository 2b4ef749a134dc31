/** The catalog as the registry runs it: every operation reads the toolset's record,
    edits its lease map and counters in place, and stores it back. Each is proved
    to perform exactly its specified transition on that record and no other. */
module CatalogStore {
  import opened Basics
  import opened Catalog

  class ToolsetCatalog {
    var entries: map<string, Entry>

    constructor ()
      ensures entries == map[]
    {
      entries := map[];
    }

    twostate predicate Stores(name: string, e: Option<Entry>)
      reads this
    {
      entries == Put(old(entries), name, e)
    }

    method Replace(name: string, e: Entry)
      modifies this
      ensures entries == old(entries)[name := e]
    {
      entries := entries[name := e];
    }

    method CountRoutable(e: Entry, now: nat) returns (count: nat)
      ensures count > 0 <==> Routable(e, now)
    {
      count := 0;
      var todo := e.leases.Keys;
      while todo != {}
        invariant todo <= e.leases.Keys
        invariant count > 0 <==> exists id :: id in e.leases.Keys - todo && IsRoutable(e.leases[id], now)
        decreases |todo|
      {
        var id :| id in todo;
        if IsRoutable(e.leases[id], now) { count := count + 1; }
        ghost var seen := e.leases.Keys - todo;
        todo := todo - {id};
        assert e.leases.Keys - todo == seen + {id};
      }
      assert e.leases.Keys - todo == e.leases.Keys;
    }

    method CountNonDraining(e: Entry) returns (count: nat)
      ensures count > 0 <==> HasNonDraining(e)
    {
      count := 0;
      var todo := e.leases.Keys;
      while todo != {}
        invariant todo <= e.leases.Keys
        invariant count > 0 <==> exists id :: id in e.leases.Keys - todo && !e.leases[id].draining
        decreases |todo|
      {
        var id :| id in todo;
        if !e.leases[id].draining { count := count + 1; }
        ghost var seen := e.leases.Keys - todo;
        todo := todo - {id};
        assert e.leases.Keys - todo == seen + {id};
      }
      assert e.leases.Keys - todo == e.leases.Keys;
    }

    /** Deletes the expired leases one by one and fences the epoch when the last
        routable one goes. */
    method PruneExpired(e: Entry, now: nat) returns (p: Entry, changed: bool)
      ensures p == Pruned(e, now) && (changed <==> HasExpired(e, now)) && (!changed ==> p == e)
    {
      var nonDraining := CountNonDraining(e);
      var leases := e.leases;
      changed := false;
      var todo := e.leases.Keys;
      while todo != {}
        invariant todo <= e.leases.Keys
        invariant leases.Keys <= e.leases.Keys
        invariant forall id :: id in e.leases ==> (id in leases <==> id in todo || e.leases[id].expires > now)
        invariant forall id :: id in leases ==> leases[id] == e.leases[id]
        invariant changed <==> exists id :: id in e.leases.Keys - todo && e.leases[id].expires <= now
        decreases |todo|
      {
        var id :| id in todo;
        ghost var seen := e.leases.Keys - todo;
        todo := todo - {id};
        assert e.leases.Keys - todo == seen + {id};
        if e.leases[id].expires <= now {
          leases := leases - {id};
          changed := true;
        }
      }
      assert e.leases.Keys - todo == e.leases.Keys;
      assert leases == Unexpired(e.leases, now);
      assert !changed ==> leases == e.leases;
      p := e.(leases := leases);
      var routable := CountRoutable(p, now);
      if nonDraining > 0 && routable == 0 {
        p := p.(epoch := p.epoch + 1, lastPong := 0);
      }
    }

    method Register(name: string, now: nat, token: Token, lease: LeaseId, duration: nat) returns (outcome: Outcome)
      modifies this
      ensures var (e, o) := Step(old(Find(entries, name)), now, Op.Register(token, lease, duration));
              Stores(name, e) && outcome == o
    {
      if duration < MIN_LEASE_MS || duration > MAX_LEASE_MS { return Invalid; }
      if now > MAX_INT64 - duration { return Invalid; }
      var granted := Lease(now + duration, false);
      if name !in entries {
        Replace(name, Entry(true, token, map[lease := granted], {}, 1, 0));
        return Done;
      }
      var e, pruned := PruneExpired(entries[name], now);
      if token in e.retired { return Tombstoned; }
      if e.token == token {
        var routable := CountRoutable(e, now);
        e := e.(leases := e.leases[lease := granted]);
        if routable == 0 { e := e.(epoch := e.epoch + 1, lastPong := 0); }
        Replace(name, e);
        return Done;
      }
      if e.leases != map[] {
        if pruned { Replace(name, e); }
        return Blocked;
      }
      Replace(name, Entry(true, token, map[lease := granted], e.retired + {e.token}, 1, 0));
      outcome := Done;
    }

    method DrainProvider(name: string, now: nat, token: Token, lease: LeaseId, duration: nat) returns (outcome: Outcome)
      modifies this
      ensures var (e, o) := Step(old(Find(entries, name)), now, Drain(token, lease, duration));
              Stores(name, e) && outcome == o
    {
      if name !in entries || entries[name].token != token || lease !in entries[name].leases { return Done; }
      var e := entries[name];
      var held := e.leases[lease];
      if held.expires <= now {
        var p, _ := PruneExpired(e, now);
        Replace(name, p);
        return Done;
      }
      if now > MAX_INT64 - duration { return Invalid; }
      var before := CountRoutable(e, now);
      var until := if held.expires < now + duration then now + duration else held.expires;
      e := e.(leases := e.leases[lease := Lease(until, true)]);
      var after := CountRoutable(e, now);
      if before > 0 && after == 0 { e := e.(epoch := e.epoch + 1, lastPong := 0); }
      Replace(name, e);
      outcome := Done;
    }

    method ReleaseProvider(name: string, now: nat, token: Token, lease: LeaseId) returns (outcome: Outcome)
      modifies this
      ensures var (e, o) := Step(old(Find(entries, name)), now, Release(token, lease)); Stores(name, e) && outcome == o
    {
      if name !in entries || entries[name].token != token { return Done; }
      var e, pruned := PruneExpired(entries[name], now);
      if lease !in e.leases {
        if pruned { Replace(name, e); }
        return Done;
      }
      var before := CountRoutable(e, now);
      e := e.(leases := e.leases - {lease});
      var after := CountRoutable(e, now);
      if before > 0 && after == 0 { e := e.(epoch := e.epoch + 1, lastPong := 0); }
      Replace(name, e);
      outcome := Done;
    }

    method Retire(name: string, now: nat, token: Token) returns (outcome: Outcome)
      modifies this
      ensures var (e, o) := Step(old(Find(entries, name)), now, Op.Retire(token)); Stores(name, e) && outcome == o
    {
      if name !in entries { return Done; }
      var e := entries[name];
      if e.token != token { return Conflict; }
      if !e.active { return Done; }
      Replace(name, e.(active := false, retired := e.retired + {e.token}));
      outcome := Done;
    }

    method RecordPong(name: string, now: nat, token: Token, lease: LeaseId, epoch: nat, nanos: nat)
        returns (outcome: Outcome)
      modifies this
      ensures var (e, o) := Step(old(Find(entries, name)), now, Pong(token, lease, epoch, nanos));
              Stores(name, e) && outcome == o
    {
      if name !in entries { return Done; }
      var e, pruned := PruneExpired(entries[name], now);
      if pruned {
        Replace(name, e);
        if e.leases == map[] { return Done; }
      }
      if !e.active || e.token != token || e.epoch != epoch { return Done; }
      if lease !in e.leases || e.leases[lease].draining || e.leases[lease].expires <= now { return Done; }
      Replace(name, e.(lastPong := if e.lastPong < nanos then nanos else e.lastPong));
      outcome := Done;
    }

    method HealthIdentity(name: string, now: nat) returns (outcome: Outcome)
      modifies this
      ensures var (e, o) := Step(old(Find(entries, name)), now, Health); Stores(name, e) && outcome == o
    {
      if name !in entries || !entries[name].active { return NotFound; }
      var e, pruned := PruneExpired(entries[name], now);
      if pruned { Replace(name, e); }
      var routable := CountRoutable(e, now);
      outcome := if routable == 0 then NotFound else Identity(e.token, e.epoch);
    }
  }
}
