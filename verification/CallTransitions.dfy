/** What single scripts decide: who executes, which cause a terminal may carry, and
    what the settlement indexes cover. */
module CallTransitions {
  import opened Basics
  import opened StreamIds
  import opened Catalog
  import opened CallRecord
  import opened CallScripts
  import opened CallInvariants

  // ---------------------------------------------------------------- execution

  /** Claim grants execution exactly to a live lease of the call's own generation,
      for the request the record currently publishes, before the deadline, and only
      while nobody owns the call and no result exists. */
  lemma ClaimExecutesExactly(c: Cell, now: nat, entry: Option<Entry>, k: Key, callToken: Token, token: Token,
      lease: LeaseId, request: StreamId)
    requires CellGood(c, k)
    ensures Claim(c, now, entry, k, callToken, token, lease, request).1 == Status(1) <==>
              && LeaseLive(entry, token, lease, now)
              && Lookup(c, now).Some? && Lookup(c, now).value.Admitted?
              && var r := Lookup(c, now).value.r;
              && r.token == callToken == token && r.publication == Some(request)
              && !r.terminal && now < r.deadline && r.dispatchToken.None?
    ensures var (d, reply) := Claim(c, now, entry, k, callToken, token, lease, request);
            reply == Status(1) ==>
              && d.call.value.r.dispatchToken == Some(token) && d.call.value.r.dispatchLease == Some(lease)
              && d.call.value.r.dispatchRequest == Some(request)
  {
  }

  /** A rejected call is never published, dispatched or given a result. */
  lemma RejectedIsInert(c: Cell, now: nat, entry: Option<Entry>, digest: Digest, overload: Option<StreamId>,
      token: Token)
    requires c.call.Some? && c.call.value.Rejected?
    ensures PublishGate(c, now, entry, digest, overload, token).Some?
    ensures forall k, callToken, provider, lease, request ::
              Claim(c, now, entry, k, callToken, provider, lease, request).0 == c
    ensures forall k, callToken, provider, lease, request, p ::
              Complete(c, now, entry, k, callToken, provider, lease, request, p).0 == c
    ensures forall k, callToken, provider, lease, request ::
              ReportOverload(c, now, entry, k, callToken, provider, lease, request).0 == c
    ensures Restore(c, now).0 == c
  {
  }

  // ---------------------------------------------------------------- terminal causes

  /** What the cause of a terminal committed at `now` says about that moment. */
  predicate CauseJustified(r: Record, cause: Cause, entry: Option<Entry>, now: nat) {
    match cause
    case Provider =>
      now < r.deadline && r.dispatchToken.Some? && r.dispatchLease.Some?
      && LeaseLive(entry, r.dispatchToken.value, r.dispatchLease.value, now)
    case StaleAdmission =>
      r.dispatchToken.None? && now < r.deadline && entry.Some? && entry.value.token != r.token
    case ExecutionDeadline => r.dispatchToken.Some? && r.deadline <= now
    case LeaseReleased => r.dispatchToken.Some? && r.deadline <= now
    case LeaseLost =>
      now < r.deadline && r.dispatchToken.Some? && r.dispatchLease.Some?
      && !LeaseLive(entry, r.dispatchToken.value, r.dispatchLease.value, now)
  }

  /** If `d` has a terminal that `c` had not, its cause is justified. */
  predicate CommitJustified(c: Cell, d: Cell, entry: Option<Entry>, now: nat) {
    IsTerminal(d) && !IsTerminal(c) ==>
      && c.call.Some? && c.call.value.Admitted? && d.call.value.r.terminalCause.Some?
      && CauseJustified(c.call.value.r, d.call.value.r.terminalCause.value, entry, now)
  }

  /** A provider script never reports its own lease lost. */
  predicate ProviderCommit(c: Cell, d: Cell, entry: Option<Entry>, now: nat) {
    && CommitJustified(c, d, entry, now)
    && (IsTerminal(d) && !IsTerminal(c) ==> d.call.value.r.terminalCause != Some(LeaseLost))
  }

  lemma ClaimJustified(c: Cell, now: nat, entry: Option<Entry>, k: Key, callToken: Token, token: Token, lease: LeaseId,
      request: StreamId)
    requires CellGood(c, k)
    ensures ProviderCommit(c, Claim(c, now, entry, k, callToken, token, lease, request).0, entry, now)
  {
  }

  lemma CompleteJustified(c: Cell, now: nat, entry: Option<Entry>, k: Key, callToken: Token, token: Token,
      lease: LeaseId, request: StreamId, payload: Payload)
    requires CellGood(c, k)
    ensures ProviderCommit(c, Complete(c, now, entry, k, callToken, token, lease, request, payload).0, entry, now)
  {
  }

  lemma LiveEventJustified(c: Cell, now: nat, entry: Option<Entry>, k: Key, callToken: Token, token: Token,
      lease: LeaseId, request: StreamId, payload: Payload)
    requires CellGood(c, k)
    ensures ProviderCommit(c, LiveEvent(c, now, entry, k, callToken, token, lease, request, payload).0, entry, now)
  {
  }

  lemma OverloadJustified(c: Cell, now: nat, entry: Option<Entry>, k: Key, callToken: Token, token: Token,
      lease: LeaseId, request: StreamId)
    requires CellGood(c, k)
    ensures ProviderCommit(c, ReportOverload(c, now, entry, k, callToken, token, lease, request).0, entry, now)
  {
  }

  /** Settlement takes a claim away only when its exact lease is not live or its
      deadline has passed, and only then does it use the sweeper's own cause. */
  lemma SettlementJustified(c: Cell, k: Key, now: nat, entry: Option<Entry>, index: LeaseIndex, cause: Cause)
    requires CellGood(c, k) && (cause.ExecutionDeadline? || cause.LeaseReleased?)
    ensures CommitJustified(c, Settle(c, now, entry, index, cause).0, entry, now)
    ensures Settle(c, now, entry, index, cause).1 == Status(1) <==>
              && Lookup(c, now).Some? && Lookup(c, now).value.Admitted?
              && var r := Lookup(c, now).value.r;
              && !r.terminal && r.dispatchToken.Some? && now < r.expires
              && (now < r.deadline ==> !LeaseLive(entry, r.dispatchToken.value, r.dispatchLease.value, now))
    ensures Settle(c, now, entry, index, cause).1 == Status(1) ==>
              Settle(c, now, entry, index, cause).0.call.value.r.terminalCause ==
              Some(if now < c.call.value.r.deadline then LeaseLost else cause)
  {
  }

  /** Whatever the settle script does, the key is not due any more: it left the
      settlement set, or its score is after the script's own clock reading. */
  lemma SettledIsNotDue(c: Cell, now: nat, entry: Option<Entry>, index: LeaseIndex, cause: Cause)
    ensures var d := Settle(c, now, entry, index, cause).0; d.score.None? || d.score.value > now
  {
  }

  /** Restoring a terminal leaves it visible as the newest event of the stream. */
  lemma RestoredIsVisible(c: Cell, k: Key, now: nat)
    requires CellGood(c, k) && IsTerminal(c) && now < c.call.value.r.expires
    ensures var d := Restore(c, now).0;
            var events := Stored(d.results, now);
            |events| > 0 && Some(events[|events| - 1].payload) == c.call.value.r.terminalPayload
              && Some(events[|events| - 1].id) == d.call.value.r.terminalEvent
  {
    var r := c.call.value.r;
    if Holds(Stored(c.results, now), r.terminalEvent.value) {
      var i :| 0 <= i < |Stored(c.results, now)| && Stored(c.results, now)[i].id == r.terminalEvent.value;
    } else {
      AppendKeeps(c.results, now, Result, r.terminalPayload.value, r.expires);
    }
  }

  // ---------------------------------------------------------------- settlement indexes

  /** An unexpired call that is dispatched and has no result yet. */
  predicate LiveDispatch(c: Cell, now: nat) {
    && c.call.Some? && c.call.value.Admitted?
    && var r := c.call.value.r;
    && now < r.expires && !r.terminal && r.dispatchToken.Some?
  }

  function OwnIndex(r: Record): Option<LeaseIndex> {
    if r.dispatchToken.Some? && r.dispatchLease.Some?
    then Some(LeaseIndex(r.dispatchToken.value, r.dispatchLease.value)) else None
  }

  /** A live dispatch is in the settlement set no later than its deadline, in the
      index of its exact lease, and mapped to that index. */
  predicate Indexed(c: Cell, now: nat) {
    LiveDispatch(c, now) ==>
      && var r := c.call.value.r;
      && c.score.Some? && c.score.value <= r.deadline
      && OwnIndex(r).Some? && OwnIndex(r).value in c.indexes && c.membership == OwnIndex(r)
  }

  lemma ClaimKeepsIndexed(c: Cell, k: Key, now: nat, entry: Option<Entry>, callToken: Token, token: Token,
      lease: LeaseId, request: StreamId)
    requires CellGood(c, k) && Indexed(c, now)
    ensures Indexed(Claim(c, now, entry, k, callToken, token, lease, request).0, now)
  {
  }

  lemma CompleteKeepsIndexed(c: Cell, k: Key, now: nat, entry: Option<Entry>, callToken: Token, token: Token,
      lease: LeaseId, request: StreamId, payload: Payload)
    requires CellGood(c, k) && Indexed(c, now)
    ensures Indexed(Complete(c, now, entry, k, callToken, token, lease, request, payload).0, now)
  {
  }

  lemma LiveEventKeepsIndexed(c: Cell, k: Key, now: nat, entry: Option<Entry>, callToken: Token, token: Token,
      lease: LeaseId, request: StreamId, payload: Payload)
    requires CellGood(c, k) && Indexed(c, now)
    ensures Indexed(LiveEvent(c, now, entry, k, callToken, token, lease, request, payload).0, now)
  {
  }

  lemma OverloadKeepsIndexed(c: Cell, k: Key, now: nat, entry: Option<Entry>, callToken: Token, token: Token,
      lease: LeaseId, request: StreamId)
    requires CellGood(c, k) && Indexed(c, now)
    ensures Indexed(ReportOverload(c, now, entry, k, callToken, token, lease, request).0, now)
  {
  }

  /** Settling keeps the indexes complete even with an outdated lease index. */
  lemma SettleKeepsIndexed(c: Cell, k: Key, now: nat, entry: Option<Entry>, index: LeaseIndex, cause: Cause)
    requires CellGood(c, k) && Indexed(c, now)
    ensures Indexed(Settle(c, now, entry, index, cause).0, now)
  {
  }

  /** The cleanup script does not look at the record. It keeps the indexes complete
      exactly when the key has no live dispatch at that moment. */
  lemma CleanupKeepsExactly(c: Cell, now: nat, fallback: Option<LeaseIndex>)
    requires Indexed(c, now)
    ensures Indexed(Cleanup(c, fallback), now) <==> !LiveDispatch(c, now)
  {
  }
}
