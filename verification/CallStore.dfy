/** The call keys as Redis lays them out, and the scripts as they run on them:
    command after command, with early returns. Each is proved to have exactly the
    effect and reply of its specification on the call's cell, and none on others. */
module CallStore {
  import opened Basics
  import opened StreamIds
  import opened Catalog
  import opened CallRecord
  import opened CallScripts
  import I = CallInvariants
  import CallSettlement
  import Q = RequestQueue

  const NO_RESULTS := ResultStream([], ZERO, 0)

  function DigestOf(call: Call): Digest {
    match call
    case Admitted(r) => r.digest
    case Rejected(_, digest, _, _, _) => digest
  }

  class Store {
    var calls: map<Key, Call>                        // one expiring hash per identity
    var streams: map<Key, ResultStream>              // one result stream per identity
    var settlement: map<Key, nat>                    // the settlement sorted set
    var leases: map<LeaseIndex, map<Key, nat>>       // one sorted set per lease
    var memberships: map<Key, LeaseIndex>            // the membership hash

    constructor ()
      ensures forall k :: View(k) == EMPTY_CELL
    {
      calls, streams, settlement, leases, memberships := map[], map[], map[], map[], map[];
    }

    function Scores(k: Key): map<LeaseIndex, nat>
      reads this
    {
      map i | i in leases && k in leases[i] :: leases[i][k]
    }

    /** Everything the store holds about one identity. */
    function View(k: Key): Cell
      reads this
    {
      var results := if k in streams then streams[k] else NO_RESULTS;
      Cell(Find(calls, k), results, Find(settlement, k), Scores(k), Find(memberships, k))
    }

    twostate predicate OnlyTouches(k: Key)
      reads this
    {
      forall j :: j != k ==> View(j) == old(View(j))
    }

    // -------------------------------------------------------------- commands

    method HSet(k: Key, call: Call)
      modifies this`calls
      ensures View(k) == old(View(k)).(call := Some(call)) && OnlyTouches(k)
    {
      calls := calls[k := call];
    }

    method XAdd(k: Key, now: nat, kind: Kind, payload: Payload, until: nat) returns (id: StreamId)
      modifies this`streams
      ensures View(k) == old(View(k)).(results := Append(old(View(k)).results, now, kind, payload, until))
              && OnlyTouches(k)
      ensures id == View(k).results.last
    {
      var rs := Append(if k in streams then streams[k] else NO_RESULTS, now, kind, payload, until);
      streams := streams[k := rs];
      id := rs.last;
    }

    method ZAddSettlement(k: Key, score: nat)
      modifies this`settlement
      ensures View(k) == old(View(k)).(score := Some(score)) && OnlyTouches(k)
    {
      settlement := settlement[k := score];
    }

    method ZRemSettlement(k: Key)
      modifies this`settlement
      ensures View(k) == old(View(k)).(score := None) && OnlyTouches(k)
    {
      settlement := settlement - {k};
    }

    method ZAddLease(index: LeaseIndex, k: Key, score: nat)
      modifies this`leases
      ensures View(k) == old(View(k)).(indexes := old(View(k)).indexes[index := score]) && OnlyTouches(k)
    {
      var members := if index in leases then leases[index] else map[];
      leases := leases[index := members[k := score]];
      assert forall j :: Scores(j) == if j == k then old(Scores(j))[index := score] else old(Scores(j));
    }

    method ZRemLease(index: LeaseIndex, k: Key)
      modifies this`leases
      ensures View(k) == old(View(k)).(indexes := old(View(k)).indexes - {index}) && OnlyTouches(k)
    {
      if index in leases {
        leases := leases[index := leases[index] - {k}];
      }
      assert forall j :: Scores(j) == if j == k then old(Scores(j)) - {index} else old(Scores(j));
    }

    method HSetMembership(k: Key, index: LeaseIndex)
      modifies this`memberships
      ensures View(k) == old(View(k)).(membership := Some(index)) && OnlyTouches(k)
    {
      memberships := memberships[k := index];
    }

    method HDelMembership(k: Key)
      modifies this`memberships
      ensures View(k) == old(View(k)).(membership := None) && OnlyTouches(k)
    {
      memberships := memberships - {k};
    }

    method Get(k: Key, now: nat) returns (call: Option<Call>)
      ensures call == Lookup(View(k), now)
    {
      call := if k in calls && now <= ExpiresAt(calls[k]) then Some(calls[k]) else None;
    }

    method Deindex(k: Key, index: Option<LeaseIndex>)
      modifies this`settlement, this`leases, this`memberships
      ensures View(k) == Unindex(old(View(k)), index) && OnlyTouches(k)
    {
      ZRemSettlement(k);
      if index.Some? { ZRemLease(index.value, k); }
      HDelMembership(k);
    }

    method Commit(k: Key, r: Record, now: nat, payload: Payload, checksum: Checksum, cause: Cause)
        returns (id: StreamId)
      modifies this`calls, this`streams
      ensures View(k) == Terminate(old(View(k)), r, now, payload, checksum, cause) && OnlyTouches(k)
      ensures id == View(k).results.last
    {
      id := XAdd(k, now, Result, payload, r.expires);
      HSet(k, Admitted(r.(terminal := true, terminalEvent := Some(id), terminalDigest := Some(checksum),
                          terminalPayload := Some(payload), terminalCause := Some(cause))));
    }

    // -------------------------------------------------------------- scripts

    method Ensure(k: Key, now: nat, birth: nat, digest: Digest, token: Token, timeout: nat, ttl: nat)
        returns (reply: Reply)
      modifies this
      ensures (View(k), reply) == CallScripts.Ensure(old(View(k)), now, birth, digest, token, timeout, ttl)
              && OnlyTouches(k)
    {
      var call := Get(k, now);
      if call.None? {
        HSet(k, Admitted(NewRecord(birth, now, digest, token, timeout, ttl)));
        return Status(1);
      }
      if DigestOf(call.value) != digest { return Status(-1); }
      if call.value.Rejected? { return Status(2); }
      if !call.value.r.decided { return Error("CALLDECISIONINVALID"); }
      reply := Status(0);
    }

    method Reject(k: Key, now: nat, birth: nat, digest: Digest, kind: string, message: string, ttl: nat)
        returns (reply: Reply)
      modifies this
      ensures (View(k), reply) == CallScripts.Reject(old(View(k)), now, birth, digest, kind, message, ttl)
              && OnlyTouches(k)
    {
      var call := Get(k, now);
      if call.Some? {
        if DigestOf(call.value) != digest { return Status(-1); }
        if call.value.Rejected? { return Status(1); }
        if !call.value.r.decided { return Error("CALLDECISIONINVALID"); }
        return Status(0);
      }
      HSet(k, Rejected(birth, digest, kind, message, now + ttl));
      reply := Status(1);
    }

    method Migrate(k: Key, now: nat, digest: Digest) returns (reply: Reply)
      modifies this
      ensures (View(k), reply) == CallScripts.Migrate(old(View(k)), now, digest) && OnlyTouches(k)
    {
      var call := Get(k, now);
      if call.None? || DigestOf(call.value) != digest || call.value.Rejected? { return Error("CALLDECISIONCHANGED"); }
      if call.value.r.decided { return Status(0); }
      HSet(k, Admitted(call.value.r.(decided := true)));
      reply := Status(1);
    }

    method Initialize(k: Key, now: nat, digest: Digest) returns (reply: Reply)
      modifies this
      ensures (View(k), reply) == CallScripts.Initialize(old(View(k)), now, digest) && OnlyTouches(k)
    {
      var call := Get(k, now);
      if call.None? || DigestOf(call.value) != digest { return Error("CALLADMISSIONCHANGED"); }
      if call.value.Admitted? && (call.value.r.terminal || call.value.r.published) { return Status(0); }
      if k in streams && |Stored(streams[k], now)| > 0 { return Status(0); }
      if call.value.Rejected? || call.value.r.expires <= now { return Error("CALLADMISSIONCHANGED"); }
      var _ := XAdd(k, now, Init, INIT_PAYLOAD, call.value.r.expires);
      reply := Status(1);
    }

    /** The whole publish script: gates, bounded append with trimming, and commit. */
    method Publish(k: Key, queue: Q.RequestStream, bound: nat, trim: nat, now: nat, entry: Option<Entry>,
        digest: Digest, overload: Option<StreamId>, token: Token)
      returns (reply: Reply)
      modifies this, queue
      ensures var gate := PublishGate(old(View(k)), now, entry, digest, overload, token);
              if gate.Some? then reply == gate.value && View(k) == old(View(k)) && queue.View() == old(queue.View())
              else
                var (q, appended) := Q.PublishAt(old(queue.View()), bound, now, k, trim);
                && queue.View() == q
                && if appended.Full? then reply == StatusId(0, None) && View(k) == old(View(k))
                   else
                     && reply == StatusId(1, Some(appended.id))
                     && View(k) == CommitPublication(old(View(k)), appended.id, overload)
      ensures OnlyTouches(k)
    {
      var call := Get(k, now);
      if call.None? || DigestOf(call.value) != digest { return Error("CALLADMISSIONCHANGED"); }
      if call.value.Rejected? { return StatusId(2, None); }
      var r := call.value.r;
      if r.terminal { return StatusId(2, r.terminalEvent); }
      if (overload.None? && r.published) || (overload.Some? && r.overload == overload) {
        return StatusId(2, r.publication);
      }
      if r.dispatchToken.Some? { return StatusId(2, r.publication); }
      if r.deadline <= now { return Error("CALLADMISSIONCHANGED"); }
      if entry.None? || !entry.value.active || entry.value.token != token { return Error("ROUTINGUNAVAILABLE"); }
      var routable := FindRoutable(entry.value, now);
      if !routable { return Error("ROUTINGUNAVAILABLE"); }
      var appended := queue.Publish(bound, now, k, trim);
      if appended.Full? { return StatusId(0, None); }
      HSet(k, Admitted(r.(published := true, overload := overload, publication := Some(appended.id),
        claims := r.claims + {appended.id})));
      reply := StatusId(1, Some(appended.id));
    }

    method FindRoutable(entry: Entry, now: nat) returns (routable: bool)
      ensures routable == Routable(entry, now)
    {
      routable := false;
      var todo := entry.leases.Keys;
      while todo != {}
        invariant todo <= entry.leases.Keys
        invariant routable ==> Routable(entry, now)
        invariant !routable ==> forall id :: id in entry.leases && id !in todo ==> !IsRoutable(entry.leases[id], now)
        decreases |todo|
      {
        var id :| id in todo;
        if IsRoutable(entry.leases[id], now) {
          return true;
        }
        todo := todo - {id};
      }
    }

    method Claim(k: Key, now: nat, entry: Option<Entry>, callToken: Token, token: Token, lease: LeaseId,
        request: StreamId)
      returns (reply: Reply)
      modifies this
      ensures (View(k), reply) == CallScripts.Claim(old(View(k)), now, entry, k, callToken, token, lease, request)
              && OnlyTouches(k)
    {
      if entry.None? || entry.value.token != token { return Error("PROVIDERLEASECHANGED"); }
      if lease !in entry.value.leases || entry.value.leases[lease].expires <= now {
        return Error("PROVIDERLEASECHANGED");
      }
      var call := Get(k, now);
      if call.None? { return Status(4); }
      if call.value.Rejected? || call.value.r.toolUse != k { return Error("CALLADMISSIONCHANGED"); }
      var r := call.value.r;
      if r.token != callToken || request !in r.claims { return Status(4); }
      if r.terminal { return Status(2); }
      if r.deadline <= now { return Status(4); }
      if r.dispatchToken.Some? { return Status(3); }
      if r.publication != Some(request) { return Status(3); }
      if callToken != token {
        var p := StalePayload(callToken, k);
        var _ := Commit(k, r, now, p, Sha256(p), StaleAdmission);
        Deindex(k, None);
        return Status(2);
      }
      var until := entry.value.leases[lease].expires;
      HSet(k, Admitted(r.(dispatchToken := Some(token), dispatchLease := Some(lease),
                          dispatchRequest := Some(request), dispatchExpires := Some(until))));
      ZAddSettlement(k, if r.deadline <= until then r.deadline else until);
      ZAddLease(LeaseIndex(token, lease), k, r.deadline);
      HSetMembership(k, LeaseIndex(token, lease));
      reply := Status(1);
    }

    method Complete(k: Key, now: nat, entry: Option<Entry>, callToken: Token, token: Token, lease: LeaseId,
        request: StreamId, payload: Payload)
      returns (reply: Reply)
      modifies this
      ensures (View(k), reply) ==
              CallScripts.Complete(old(View(k)), now, entry, k, callToken, token, lease, request, payload)
      ensures OnlyTouches(k)
    {
      var call := Get(k, now);
      if call.None? || call.value.Rejected? { return Error("CALLADMISSIONCHANGED"); }
      var r := call.value.r;
      if r.toolUse != k || r.token != callToken { return Error("CALLADMISSIONCHANGED"); }
      if entry.None? || entry.value.token != token { return Error("PROVIDERLEASECHANGED"); }
      if lease !in entry.value.leases || entry.value.leases[lease].expires <= now {
        return Error("PROVIDERLEASECHANGED");
      }
      if request !in r.claims { return Error("CALLCLAIMCHANGED"); }
      if r.expires <= now { return Error("CALLADMISSIONCHANGED"); }
      if r.dispatchToken != Some(token) || r.dispatchLease != Some(lease) || r.dispatchRequest != Some(request) {
        return Error("DISPATCHCLAIMCHANGED");
      }
      if r.terminal {
        if r.terminalCause == Some(ExecutionDeadline) { return StatusId(2, r.terminalEvent); }
        if r.terminalDigest != Some(Sha256(payload)) { return Error("TERMINALCONFLICT"); }
        return StatusId(0, r.terminalEvent);
      }
      if r.deadline <= now {
        var id := Commit(k, r, now, r.outcomeUnknown, Sha1(r.outcomeUnknown), ExecutionDeadline);
        Deindex(k, Some(LeaseIndex(token, lease)));
        return StatusId(2, Some(id));
      }
      var id := Commit(k, r, now, payload, Sha256(payload), Provider);
      Deindex(k, Some(LeaseIndex(token, lease)));
      reply := StatusId(1, Some(id));
    }

    method LiveEvent(k: Key, now: nat, entry: Option<Entry>, callToken: Token, token: Token, lease: LeaseId,
        request: StreamId, payload: Payload)
      returns (reply: Reply)
      modifies this
      ensures (View(k), reply) ==
              CallScripts.LiveEvent(old(View(k)), now, entry, k, callToken, token, lease, request, payload)
      ensures OnlyTouches(k)
    {
      var call := Get(k, now);
      if call.None? || call.value.Rejected? { return Error("CALLADMISSIONCHANGED"); }
      var r := call.value.r;
      if r.toolUse != k || r.token != callToken { return Error("CALLADMISSIONCHANGED"); }
      if entry.None? || entry.value.token != token { return Error("PROVIDERLEASECHANGED"); }
      if lease !in entry.value.leases || entry.value.leases[lease].expires <= now {
        return Error("PROVIDERLEASECHANGED");
      }
      if request !in r.claims { return Error("CALLCLAIMCHANGED"); }
      if r.expires <= now { return Error("CALLADMISSIONCHANGED"); }
      if r.terminal || r.deadline <= now { return Status(0); }
      if r.dispatchToken != Some(token) || r.dispatchLease != Some(lease) || r.dispatchRequest != Some(request) {
        return Error("DISPATCHCLAIMCHANGED");
      }
      if r.deltas >= MAX_OUTPUT_DELTAS { return Status(0); }
      var _ := XAdd(k, now, OutputDelta, payload, r.expires);
      HSet(k, Admitted(r.(deltas := r.deltas + 1)));
      reply := Status(1);
    }

    method ReportOverload(k: Key, now: nat, entry: Option<Entry>, callToken: Token, token: Token, lease: LeaseId,
        request: StreamId)
      returns (reply: Reply)
      modifies this
      ensures (View(k), reply) ==
              CallScripts.ReportOverload(old(View(k)), now, entry, k, callToken, token, lease, request)
      ensures OnlyTouches(k)
    {
      if entry.None? || entry.value.token != token { return Error("PROVIDERLEASECHANGED"); }
      if lease !in entry.value.leases || entry.value.leases[lease].expires <= now {
        return Error("PROVIDERLEASECHANGED");
      }
      var call := Get(k, now);
      if call.None? { return Status(0); }
      if call.value.Rejected? || call.value.r.toolUse != k { return Error("CALLADMISSIONCHANGED"); }
      var r := call.value.r;
      if r.token != callToken || request !in r.claims { return Status(0); }
      if request in r.overloadRequests { return Status(0); }
      if r.expires <= now || r.deadline <= now { return Status(0); }
      if r.terminal || r.dispatchToken.Some? { return Status(0); }
      if callToken != token {
        var p := StalePayload(callToken, k);
        var _ := Commit(k, r.(overloadRequests := r.overloadRequests + {request}), now, p, Sha256(p), StaleAdmission);
        Deindex(k, None);
        return Status(1);
      }
      var id := XAdd(k, now, Result, Message(callToken, k, RetryControl), r.expires);
      HSet(k, Admitted(r.(overloadEvent := Some(id), retryAfter := PROVIDER_RETRY_AFTER_MS,
                          overloadRequests := r.overloadRequests + {request})));
      reply := Status(1);
    }

    method Restore(k: Key, now: nat) returns (reply: Reply)
      modifies this
      ensures (View(k), reply) == CallScripts.Restore(old(View(k)), now) && OnlyTouches(k)
    {
      var call := Get(k, now);
      if call.None? || call.value.Rejected? || !call.value.r.terminal { return Status(0); }
      var r := call.value.r;
      if r.terminalPayload.None? { return Error("TERMINALPAYLOADMISSING"); }
      if r.terminalEvent.Some? && k in streams && Holds(Stored(streams[k], now), r.terminalEvent.value) {
        return Status(0);
      }
      if r.expires <= now { return Error("CALLADMISSIONCHANGED"); }
      var id := XAdd(k, now, Result, r.terminalPayload.value, r.expires);
      HSet(k, Admitted(r.(terminalEvent := Some(id))));
      reply := Status(1);
    }

    method Settle(k: Key, now: nat, entry: Option<Entry>, index: LeaseIndex, cause: Cause) returns (reply: Reply)
      modifies this
      ensures (View(k), reply) == CallScripts.Settle(old(View(k)), now, entry, index, cause) && OnlyTouches(k)
    {
      var call := Get(k, now);
      if call.None? || call.value.Rejected? || call.value.r.terminal {
        Deindex(k, Some(index));
        return Status(0);
      }
      var r := call.value.r;
      if r.dispatchToken.None? || r.dispatchLease.None? {
        Deindex(k, Some(index));
        return Status(0);
      }
      var why := cause;
      if now < r.deadline {
        var lease := r.dispatchLease.value;
        if entry.Some? && entry.value.token == r.dispatchToken.value && lease in entry.value.leases
          && entry.value.leases[lease].expires > now {
          var until := entry.value.leases[lease].expires;
          ZAddSettlement(k, if r.deadline <= until then r.deadline else until);
          return Status(0);
        }
        why := LeaseLost;
      }
      if r.expires <= now {
        Deindex(k, Some(index));
        return Status(0);
      }
      var _ := Commit(k, r, now, r.outcomeUnknown, Sha1(r.outcomeUnknown), why);
      Deindex(k, Some(index));
      reply := Status(1);
    }

    method Cleanup(k: Key, fallback: Option<LeaseIndex>)
      modifies this
      ensures View(k) == CallScripts.Cleanup(old(View(k)), fallback) && OnlyTouches(k)
    {
      var index := if k in memberships then Some(memberships[k]) else fallback;
      Deindex(k, index);
    }

    // -------------------------------------------------------------- the sweeper

    /** The keys whose settlement is due. */
    function Due(now: nat): set<Key>
      reads this
    {
      set k | k in settlement && settlement[k] <= now
    }

    twostate lemma OthersKeepIndexes(k: Key)
      requires OnlyTouches(k)
      ensures forall j :: j != k ==>
              (j in settlement <==> j in old(settlement)) && (j in settlement ==> settlement[j] == old(settlement)[j])
      ensures forall j :: j != k ==> (j in memberships <==> j in old(memberships))
    {
      forall j | j != k
        ensures (j in settlement <==> j in old(settlement)) && (j in settlement ==> settlement[j] == old(settlement)[j])
        ensures j in memberships <==> j in old(memberships)
      {
        assert View(j) == old(View(j));
        assert Find(settlement, j) == old(Find(settlement, j)) && Find(memberships, j) == old(Find(memberships, j));
      }
    }

    /** At most `limit` due keys, as ZRANGEBYSCORE with a count returns them. */
    method DueKeys(now: nat, limit: nat) returns (keys: seq<Key>)
      ensures forall k :: k in keys ==> k in Due(now)
      ensures forall i, j :: 0 <= i < j < |keys| ==> keys[i] != keys[j]
      ensures |keys| == if |Due(now)| < limit then |Due(now)| else limit
    {
      keys := [];
      var todo := set k | k in settlement && settlement[k] <= now;
      while todo != {} && |keys| < limit
        invariant todo <= Due(now) && |keys| <= limit
        invariant forall k :: k in keys ==> k in Due(now) && k !in todo
        invariant forall i, j :: 0 <= i < j < |keys| ==> keys[i] != keys[j]
        invariant |keys| + |todo| == |Due(now)|
        decreases |todo|
      {
        var k :| k in todo;
        keys := keys + [k];
        todo := todo - {k};
      }
    }

    /** What a sweep does to one due key: cleaned when no admitted call is there, else
        settled with the lease index its membership names; without one nothing happens. */
    static function Swept(c: Cell, now: nat, catalog: map<string, Entry>): Cell {
      var l := Lookup(c, now);
      if l.None? || l.value.Rejected? then CallScripts.Cleanup(c, None)
      else if c.membership.None? then c
      else CallScripts.Settle(c, now, Find(catalog, l.value.r.catalogField), c.membership.value, ExecutionDeadline).0
    }

    /** Every key that was due and is not any more was swept; no other was touched. */
    twostate predicate SweptExactly(now: nat, catalog: map<string, Entry>)
      reads this
    {
      forall k :: View(k) == if k in old(Due(now)) && k !in Due(now) then Swept(old(View(k)), now, catalog)
        else old(View(k))
    }

    method Sweep(k: Key, now: nat, catalog: map<string, Entry>) returns (settled: bool, ok: bool)
      modifies this
      ensures OnlyTouches(k) && View(k) == Swept(old(View(k)), now, catalog)
      ensures Due(now) == if ok then old(Due(now)) - {k} else old(Due(now))
      ensures !ok ==> View(k) == old(View(k)) && k !in old(memberships)
      ensures settled ==> ok && View(k).call.Some? && View(k).call.value.Admitted? && View(k).call.value.r.terminal
    {
      var call := Get(k, now);
      if call.None? || call.value.Rejected? {
        Cleanup(k, None);
        OthersKeepIndexes(k);
        assert Find(settlement, k) == View(k).score;
        return false, true;
      }
      if k !in memberships { return false, false; }
      var reply := Settle(k, now, Find(catalog, call.value.r.catalogField), memberships[k], ExecutionDeadline);
      OthersKeepIndexes(k);
      assert Find(settlement, k) == View(k).score;
      settled, ok := reply == Status(1), true;
    }

    /** One batch: every key it reads stops being due, so the number of due keys
        drops by the batch size, or to zero. A missing membership ends the batch
        with an error. */
    method SettleLostClaims(now: nat, catalog: map<string, Entry>, limit: nat) returns (settled: nat, ok: bool)
      modifies this
      ensures ok ==> |Due(now)| + limit == old(|Due(now)|) || (Due(now) == {} && old(|Due(now)|) <= limit)
      ensures |Due(now)| <= old(|Due(now)|) && Due(now) <= old(Due(now)) && settled <= limit
              && settled <= old(|Due(now)|)
      ensures (forall k :: k in old(Due(now)) ==> k in old(memberships)) ==> ok
      ensures SweptExactly(now, catalog)
    {
      var keys := DueKeys(now, limit);
      ghost var due := Due(now);
      settled, ok := 0, true;
      var i := 0;
      while i < |keys|
        invariant 0 <= i <= |keys| && settled <= i && ok
        invariant Due(now) <= due && |Due(now)| == |due| - i
        invariant SweptExactly(now, catalog)
        invariant forall p :: i <= p < |keys| ==> keys[p] in Due(now)
      {
        assert View(keys[i]) == old(View(keys[i]));
        var one, fine := Sweep(keys[i], now, catalog);
        if !fine {
          assert Find(memberships, keys[i]) == old(Find(memberships, keys[i]));
          return settled, false;
        }
        if one { settled := settled + 1; }
        i := i + 1;
      }
    }

    const BATCH := 128

    /** The tracker repeats full batches; every repetition has fewer due keys. */
    method SettleAll(now: nat, catalog: map<string, Entry>) returns (ok: bool)
      modifies this
      ensures Due(now) <= old(Due(now))
      ensures ok ==> |Due(now)| + BATCH <= old(|Due(now)|) || Due(now) == {}
      ensures SweptExactly(now, catalog)
    {
      var settled;
      settled, ok := SettleLostClaims(now, catalog, BATCH);
      while ok && settled >= BATCH
        invariant Due(now) <= old(Due(now))
        invariant ok ==> |Due(now)| + BATCH <= old(|Due(now)|) || Due(now) == {}
        invariant SweptExactly(now, catalog)
        decreases |Due(now)|, ok && settled >= BATCH
      {
        settled, ok := SettleLostClaims(now, catalog, BATCH);
      }
    }

    // -------------------------------------------------------------- provider release

    /** The keys in the index of one lease. */
    function Members(index: LeaseIndex): set<Key>
      reads this
    {
      if index in leases then leases[index].Keys else {}
    }

    /** One key of a released lease: cleaned when no admitted call is there, else
        settled. It is not dispatched to that lease any more. */
    method Release(k: Key, now: nat, catalog: map<string, Entry>, token: Token, lease: LeaseId) returns (ok: bool)
      requires I.CellGood(View(k), k) && !LeaseLive(Find(catalog, token.toolset), token, lease, now)
      modifies this
      ensures OnlyTouches(k)
      ensures ok ==> !CallSettlement.Dispatches(View(k), token, lease, now)
      ensures !ok ==> View(k) == old(View(k)) && k !in old(memberships)
    {
      var call := Get(k, now);
      if call.None? || call.value.Rejected? {
        Cleanup(k, Some(LeaseIndex(token, lease)));
        return true;
      }
      if k !in memberships { return false; }
      var entry := Find(catalog, call.value.r.catalogField);
      ReleasedIsGone(View(k), k, now, entry, memberships[k], token, lease);
      var _ := Settle(k, now, entry, memberships[k], LeaseReleased);
      ok := true;
    }

    /** After a release, every key its index held is handled, and none of them is still
        dispatched to the lease; a key without membership ends the pass with an error. */
    method SettleLostClaimsForLease(now: nat, catalog: map<string, Entry>, token: Token, lease: LeaseId)
        returns (ok: bool)
      requires forall k :: I.CellGood(View(k), k)
      requires !LeaseLive(Find(catalog, token.toolset), token, lease, now)
      modifies this
      ensures ok ==> forall k :: k in old(Members(LeaseIndex(token, lease))) ==>
              !CallSettlement.Dispatches(View(k), token, lease, now)
      ensures forall k :: k !in old(Members(LeaseIndex(token, lease))) ==> View(k) == old(View(k))
    {
      ghost var all := Members(LeaseIndex(token, lease));
      var todo := Members(LeaseIndex(token, lease));
      while todo != {}
        invariant todo <= all
        invariant forall k :: k in all - todo ==> !CallSettlement.Dispatches(View(k), token, lease, now)
        invariant forall k :: k in todo || k !in all ==> View(k) == old(View(k))
        decreases |todo|
      {
        var k :| k in todo;
        assert View(k) == old(View(k));
        ok := Release(k, now, catalog, token, lease);
        if !ok { return; }
        todo := todo - {k};
      }
      ok := true;
    }
  }

  lemma ReleasedIsGone(c: Cell, k: Key, now: nat, entry: Option<Entry>, index: LeaseIndex, token: Token, lease: LeaseId)
    requires I.CellGood(c, k) && c.call.Some? && c.call.value.Admitted?
    requires c.call.value.r.catalogField == token.toolset ==> !LeaseLive(entry, token, lease, now)
    ensures !CallSettlement.Dispatches(CallScripts.Settle(c, now, entry, index, LeaseReleased).0, token, lease, now)
  {
    if c.call.value.r.catalogField == token.toolset {
      CallSettlement.SettleTakesAway(c, k, now, entry, index, LeaseReleased, token, lease);
    }
  }
}
