/** What every script keeps true of one call, and how its record may evolve. */
module CallInvariants {
  import opened Basics
  import opened StreamIds
  import opened Catalog
  import opened CallRecord
  import opened CallScripts

  // ---------------------------------------------------------------- records

  predicate PublicationGood(r: Record) {
    && (r.published <==> r.publication.Some?)
    && (r.publication.Some? ==> r.publication.value in r.claims && r.publication.value != ZERO)
    && (!r.published ==> r.claims == {})
  }

  predicate OverloadGood(r: Record) {
    && r.retryAfter <= MAX_RETRY_AFTER_MS
    && (r.overloadEvent.None? <==> r.retryAfter == 0)
    && (r.overloadEvent.Some? ==> r.published && r.overloadEvent.value != ZERO)
    && (r.overload.Some? ==> r.published)
  }

  predicate DispatchGood(r: Record) {
    if r.dispatchToken.None? then
      r.dispatchLease.None? && r.dispatchRequest.None? && r.dispatchExpires.None?
    else
      && r.dispatchToken.value == r.token && r.dispatchLease.Some?
      && r.dispatchRequest.Some? && r.dispatchRequest == r.publication
      && r.dispatchExpires.Some? && 0 < r.dispatchExpires.value <= MAX_SAFE_INTEGER
  }

  /** A provider result or an unknown outcome needs a dispatch; a stale admission
      excludes one. */
  predicate TerminalGood(r: Record) {
    if !r.terminal then
      r.terminalEvent.None? && r.terminalDigest.None? && r.terminalPayload.None? && r.terminalCause.None?
    else
      && r.published && ValidId(r.terminalEvent) && r.terminalDigest.Some? && r.terminalPayload.Some?
        && r.terminalCause.Some?
      && TerminalError(r).None?
      && (r.terminalCause.value.StaleAdmission? <==> r.dispatchToken.None?)
  }

  predicate RecordGood(r: Record, k: Key) {
    && r.toolUse == k == r.digest.toolUse
    && r.catalogField == r.digest.toolset == r.token.toolset
    && 0 < r.deadline < r.expires <= MAX_SAFE_INTEGER
    && r.outcomeUnknown == OutcomeUnknownPayload(r.token, r.toolUse)
    && r.deltas <= MAX_OUTPUT_DELTAS
    && PublicationGood(r) && OverloadGood(r) && DispatchGood(r) && TerminalGood(r)
  }

  /** The overload `overload` is none, or one the record has reported: not later than
      its overload event. */
  predicate AnswersOverload(r: Record, overload: Option<StreamId>) {
    overload.Some? ==> && overload.value != ZERO && r.overloadEvent.Some?
                       && AtOrBefore(overload.value, r.overloadEvent.value)
  }

  /** The strict reader accepts a good record exactly while it has not expired and the
      overload its publication answered is its own: in the expiration millisecond Redis
      still shows the key, with a remaining lifetime of zero. */
  lemma ReaderAcceptsExactly(r: Record, k: Key, now: nat)
    requires RecordGood(r, k)
    ensures Attach(Some(Admitted(r)), now, r.digest).Attached? <==> now < r.expires && AnswersOverload(r, r.overload)
    ensures Attach(Some(Admitted(r)), now, r.digest).Corrupt? <==> r.expires <= now || !AnswersOverload(r, r.overload)
  {
  }

  // ---------------------------------------------------------------- result streams

  predicate StreamGood(rs: ResultStream) {
    && (forall i, j :: 0 <= i < j < |rs.events| ==> Before(rs.events[i].id, rs.events[j].id))
    && (forall i :: 0 <= i < |rs.events| ==> AtOrBefore(rs.events[i].id, rs.last))
  }

  /** A new event behind the stored ones keeps the order, and trimming the front too. */
  lemma TrimKeepsOrder(events: seq<ResultEvent>, last: StreamId, e: ResultEvent, from: nat)
    requires forall i, j :: 0 <= i < j < |events| ==> Before(events[i].id, events[j].id)
    requires forall i :: 0 <= i < |events| ==> AtOrBefore(events[i].id, last)
    requires Before(last, e.id) && from <= |events|
    ensures StreamGood(ResultStream((events + [e])[from..], e.id, 0))
  {
    var kept := (events + [e])[from..];
    forall i | 0 <= i < |kept|
      ensures AtOrBefore(kept[i].id, e.id) && (i < |kept| - 1 ==> Before(kept[i].id, e.id))
    {
      assert kept[i] == if i < |events| - from then events[from + i] else e;
    }
  }

  lemma AppendKeeps(rs: ResultStream, now: nat, kind: Kind, payload: Payload, until: nat)
    requires StreamGood(rs)
    ensures var a := Append(rs, now, kind, payload, until);
            && StreamGood(a) && Before(rs.last, a.last) && a.last != ZERO
            && 0 < |a.events| <= (if |rs.events| < RESULT_STREAM_MAX_LEN then |rs.events| + 1
                                  else RESULT_STREAM_MAX_LEN)
            && a.events[|a.events| - 1] == ResultEvent(a.last, kind, payload)
  {
    var e := ResultEvent(NextId(rs.last, now), kind, payload);
    var all := Stored(rs, now) + [e];
    var from := if |all| > RESULT_STREAM_MAX_LEN then |all| - RESULT_STREAM_MAX_LEN else 0;
    TrimKeepsOrder(Stored(rs, now), rs.last, e, from);
    assert Append(rs, now, kind, payload, until).events == all[from..];
  }

  /** The stream either no longer holds the terminal event, or holds it last. */
  predicate TerminalIsLast(r: Record, rs: ResultStream) {
    r.terminal ==>
      forall i :: 0 <= i < |rs.events| && Some(rs.events[i].id) == r.terminalEvent ==>
        i == |rs.events| - 1 && rs.events[i].kind == Result && Some(rs.events[i].payload) == r.terminalPayload
  }

  predicate CellGood(c: Cell, k: Key) {
    && StreamGood(c.results)
    && (c.call.Some? && c.call.value.Admitted? ==>
          var r := c.call.value.r;
          && RecordGood(r, k)
          && (r.overloadEvent.Some? ==> AtOrBefore(r.overloadEvent.value, c.results.last))
          && (r.terminalEvent.Some? ==> AtOrBefore(r.terminalEvent.value, c.results.last))
          && TerminalIsLast(r, c.results))
  }

  // ---------------------------------------------------------------- evolution

  predicate SameIdentity(r: Record, q: Record) {
    && r.birth == q.birth && r.digest == q.digest && r.toolUse == q.toolUse && r.token == q.token
    && r.deadline == q.deadline && r.expires == q.expires
    && r.outcomeUnknown == q.outcomeUnknown && r.catalogField == q.catalogField
  }

  predicate SameDispatch(r: Record, q: Record) {
    && r.dispatchToken == q.dispatchToken && r.dispatchLease == q.dispatchLease
    && r.dispatchRequest == q.dispatchRequest && r.dispatchExpires == q.dispatchExpires
    && r.publication == q.publication
  }

  predicate SameTerminal(r: Record, q: Record) {
    && r.terminal == q.terminal && r.terminalDigest == q.terminalDigest
    && r.terminalPayload == q.terminalPayload && r.terminalCause == q.terminalCause
  }

  /** Within one lifetime: identity never changes, publication and claims only grow,
      dispatch ownership and the terminal result are written at most once, and
      nothing but the stream position of the terminal moves after it. */
  predicate RecordEvolves(r: Record, q: Record) {
    && SameIdentity(r, q)
    && (r.decided ==> q.decided) && (r.published ==> q.published)
    && r.claims <= q.claims && r.overloadRequests <= q.overloadRequests && r.deltas <= q.deltas
    && (r.overloadEvent.Some? ==> q.overloadEvent.Some? && AtOrBefore(r.overloadEvent.value, q.overloadEvent.value))
    && (r.dispatchToken.Some? ==> SameDispatch(r, q))
    && (r.terminal ==> && SameTerminal(r, q) && SameDispatch(r, q)
                       && r.deltas == q.deltas && r.overloadEvent == q.overloadEvent && r.claims == q.claims)
  }

  /** From one state of a call to a later one at `now`, when lifetimes numbered `births`
      and up had not been used yet: the same lifetime evolved, or a new one began, and
      then what was there before had expired. */
  predicate CallEvolves(c: Option<Call>, d: Option<Call>, births: nat, now: nat) {
    && (c.Some? ==> d.Some? && Birth(c.value) < births)
    && (c.Some? && d.Some? && Birth(d.value) != Birth(c.value) ==> ExpiresAt(c.value) < now)
    && (d.Some? && Birth(d.value) < births ==>
          && c.Some? && Birth(c.value) == Birth(d.value)
          && (c.value.Rejected? ==> d == c)
          && (c.value.Admitted? ==> d.value.Admitted? && RecordEvolves(c.value.r, d.value.r)))
  }

  lemma EvolutionComposes(c: Option<Call>, d: Option<Call>, e: Option<Call>, births: nat, now: nat, laterBirths: nat,
      later: nat)
    requires CallEvolves(c, d, births, now) && CallEvolves(d, e, laterBirths, later) && births <= laterBirths
             && now <= later
    ensures CallEvolves(c, e, births, later)
  {
  }

  predicate IsTerminal(c: Cell) {
    c.call.Some? && c.call.value.Admitted? && c.call.value.r.terminal
  }

  /** The terminal result is the newest event of a stream that lives as long as the
      record. */
  predicate TerminalHeld(c: Cell) {
    && IsTerminal(c)
    && var r := c.call.value.r;
    && |c.results.events| > 0 && c.results.until == r.expires
    && Some(c.results.events[|c.results.events| - 1].id) == r.terminalEvent
    && c.results.events[|c.results.events| - 1].kind == Result
    && Some(c.results.events[|c.results.events| - 1].payload) == r.terminalPayload
  }

  /** A terminal result is in the stream when it is committed and stays there. */
  predicate KeepsTerminalEvent(c: Cell, d: Cell) {
    IsTerminal(d) && (IsTerminal(c) ==> TerminalHeld(c)) ==> TerminalHeld(d)
  }

  /** One script on one call: the cell stays good, its call evolves, and its
      terminal event is not lost. */
  predicate Keeps(c: Cell, d: Cell, k: Key, births: nat, now: nat) {
    CellGood(d, k) && CallEvolves(c.call, d.call, births, now) && KeepsTerminalEvent(c, d)
  }

  predicate Ready(c: Cell, k: Key, births: nat) {
    CellGood(c, k) && (c.call.Some? ==> Birth(c.call.value) < births)
  }

  lemma EnsureKeeps(c: Cell, k: Key, births: nat, now: nat, digest: Digest, token: Token, timeout: nat, ttl: nat)
    requires Ready(c, k, births) && digest.toolUse == k && token.toolset == digest.toolset
    requires 0 < timeout < ttl && now + ttl <= MAX_SAFE_INTEGER
    ensures Keeps(c, Ensure(c, now, births, digest, token, timeout, ttl).0, k, births, now)
    ensures Lookup(c, now).Some? ==> Ensure(c, now, births, digest, token, timeout, ttl).0 == c
  {
  }

  lemma RejectKeeps(c: Cell, k: Key, births: nat, now: nat, digest: Digest, kind: string, message: string, ttl: nat)
    requires Ready(c, k, births)
    ensures Keeps(c, Reject(c, now, births, digest, kind, message, ttl).0, k, births, now)
    ensures Lookup(c, now).Some? ==> Reject(c, now, births, digest, kind, message, ttl).0 == c
  {
  }

  /** A cell whose record and stream are another's is as good; indexes do not matter. */
  lemma SameRecordKeeps(c: Cell, d: Cell, e: Cell, k: Key, births: nat, now: nat)
    requires Keeps(c, d, k, births, now) && e.call == d.call && e.results == d.results
    ensures Keeps(c, e, k, births, now)
  {
  }

  lemma NothingKeeps(c: Cell, k: Key, births: nat, now: nat)
    requires Ready(c, k, births)
    ensures Keeps(c, c, k, births, now)
  {
  }

  lemma DecidingKeeps(c: Cell, k: Key, births: nat, now: nat)
    requires Ready(c, k, births) && c.call.Some? && c.call.value.Admitted?
    ensures Keeps(c, Update(c, c.call.value.r.(decided := true)), k, births, now)
  {
    var r := c.call.value.r;
    var q := r.(decided := true);
    assert RecordGood(q, k);
    assert RecordEvolves(r, q);
  }

  lemma MigrateKeeps(c: Cell, k: Key, births: nat, now: nat, digest: Digest)
    requires Ready(c, k, births)
    ensures Keeps(c, Migrate(c, now, digest).0, k, births, now)
    ensures var d := Migrate(c, now, digest).0;
            d != c ==> c.call.value.Admitted? && d == c.(call := Some(Admitted(c.call.value.r.(decided := true))))
  {
    NothingKeeps(c, k, births, now);
    var d := Migrate(c, now, digest).0;
    if d != c { DecidingKeeps(c, k, births, now); }
  }

  lemma InitializeKeeps(c: Cell, k: Key, births: nat, now: nat, digest: Digest)
    requires Ready(c, k, births)
    ensures Keeps(c, Initialize(c, now, digest).0, k, births, now)
  {
    NothingKeeps(c, k, births, now);
    if Initialize(c, now, digest).0 != c {
      AppendKeeps(c.results, now, Init, INIT_PAYLOAD, c.call.value.r.expires);
    }
  }

  /** Publishing keeps everything else whatever overload it answers; it keeps the record
      readable exactly when it answers none, or one of the record's own. */
  lemma PublicationKeepsExactly(c: Cell, k: Key, births: nat, now: nat, entry: Option<Entry>, digest: Digest,
      overload: Option<StreamId>, token: Token, id: StreamId)
    requires Ready(c, k, births) && id != ZERO
    requires PublishGate(c, now, entry, digest, overload, token).None?
    ensures var d := CommitPublication(c, id, overload);
            && Keeps(c, d, k, births, now)
            && (Attach(d.call, now, digest).Attached? <==> AnswersOverload(c.call.value.r, overload))
  {
    var d := CommitPublication(c, id, overload);
    ReaderAcceptsExactly(d.call.value.r, k, now);
  }

  lemma TerminateKeeps(c: Cell, k: Key, births: nat, r: Record, now: nat, payload: Payload, checksum: Checksum,
      cause: Cause)
    requires Ready(c, k, births) && RecordGood(r, k) && !r.terminal && r.published
    requires r.overloadEvent.Some? ==> AtOrBefore(r.overloadEvent.value, c.results.last)
    requires c.call.Some? && c.call.value.Admitted? && RecordEvolves(c.call.value.r, r)
    requires Identified(payload, r.token, k)
    requires cause.StaleAdmission? <==> r.dispatchToken.None?
    requires match cause
             case Provider => !payload.content.RetryControl? && checksum == Sha256(payload)
             case StaleAdmission => payload.content == Failure(StaleRegistration) && checksum == Sha256(payload)
             case _ => payload.content == Failure(OutcomeUnknown) && checksum == Sha1(payload)
    ensures Keeps(c, Terminate(c, r, now, payload, checksum, cause), k, births, now)
  {
    AppendKeeps(c.results, now, Result, payload, r.expires);
  }

  lemma ClaimKeeps(c: Cell, k: Key, births: nat, now: nat, entry: Option<Entry>, callToken: Token, token: Token,
      lease: LeaseId, request: StreamId)
    requires Ready(c, k, births)
    requires LeaseLive(entry, token, lease, now) ==> entry.value.leases[lease].expires <= MAX_SAFE_INTEGER
    ensures Keeps(c, Claim(c, now, entry, k, callToken, token, lease, request).0, k, births, now)
    ensures var d := Claim(c, now, entry, k, callToken, token, lease, request).0;
            IsTerminal(d) && !IsTerminal(c) ==>
              var r := c.call.value.r; r.dispatchToken.None? && entry.Some? && entry.value.token != r.token
  {
    var (d, reply) := Claim(c, now, entry, k, callToken, token, lease, request);
    if d.call != c.call && reply == Status(2) {
      var p := StalePayload(callToken, k);
      TerminateKeeps(c, k, births, c.call.value.r, now, p, Sha256(p), StaleAdmission);
    }
  }

  lemma CompleteKeeps(c: Cell, k: Key, births: nat, now: nat, entry: Option<Entry>, callToken: Token, token: Token,
      lease: LeaseId, request: StreamId, payload: Payload)
    requires Ready(c, k, births)
    requires Identified(payload, callToken, k) && !payload.content.RetryControl?
    ensures Keeps(c, Complete(c, now, entry, k, callToken, token, lease, request, payload).0, k, births, now)
  {
    var d := Complete(c, now, entry, k, callToken, token, lease, request, payload).0;
    NothingKeeps(c, k, births, now);
    if d != c {
      var r := c.call.value.r;
      if r.deadline <= now {
        TerminateKeeps(c, k, births, r, now, r.outcomeUnknown, Sha1(r.outcomeUnknown), ExecutionDeadline);
        SameRecordKeeps(c, Terminate(c, r, now, r.outcomeUnknown, Sha1(r.outcomeUnknown), ExecutionDeadline), d, k,
          births, now);
      } else {
        TerminateKeeps(c, k, births, r, now, payload, Sha256(payload), Provider);
        SameRecordKeeps(c, Terminate(c, r, now, payload, Sha256(payload), Provider), d, k, births, now);
      }
    }
  }

  lemma LiveEventKeeps(c: Cell, k: Key, births: nat, now: nat, entry: Option<Entry>, callToken: Token, token: Token,
      lease: LeaseId, request: StreamId, payload: Payload)
    requires Ready(c, k, births)
    ensures Keeps(c, LiveEvent(c, now, entry, k, callToken, token, lease, request, payload).0, k, births, now)
  {
    var d := LiveEvent(c, now, entry, k, callToken, token, lease, request, payload).0;
    if d != c {
      AppendKeeps(c.results, now, OutputDelta, payload, c.call.value.r.expires);
    }
  }

  lemma OverloadKeeps(c: Cell, k: Key, births: nat, now: nat, entry: Option<Entry>, callToken: Token, token: Token,
      lease: LeaseId, request: StreamId)
    requires Ready(c, k, births)
    ensures Keeps(c, ReportOverload(c, now, entry, k, callToken, token, lease, request).0, k, births, now)
  {
    var d := ReportOverload(c, now, entry, k, callToken, token, lease, request).0;
    if d != c {
      var r := c.call.value.r;
      if callToken != token {
        var p := StalePayload(callToken, k);
        TerminateKeeps(c, k, births, r.(overloadRequests := r.overloadRequests + {request}), now, p, Sha256(p),
          StaleAdmission);
      } else {
        AppendKeeps(c.results, now, Result, Message(callToken, k, RetryControl), r.expires);
      }
    }
  }

  lemma RestoreKeeps(c: Cell, k: Key, births: nat, now: nat)
    requires Ready(c, k, births)
    ensures Keeps(c, Restore(c, now).0, k, births, now)
    ensures var d := Restore(c, now).0;
            d != c ==>
              && IsTerminal(c)
              && d.results == Append(c.results, now, Result, c.call.value.r.terminalPayload.value,
                c.call.value.r.expires)
              && d == c.(results := d.results,
                call := Some(Admitted(c.call.value.r.(terminalEvent := Some(d.results.last)))))
  {
    var d := Restore(c, now).0;
    if d != c {
      var r := c.call.value.r;
      AppendKeeps(c.results, now, Result, r.terminalPayload.value, r.expires);
    }
  }

  lemma SettleKeeps(c: Cell, k: Key, births: nat, now: nat, entry: Option<Entry>, index: LeaseIndex, cause: Cause)
    requires Ready(c, k, births) && (cause.ExecutionDeadline? || cause.LeaseReleased?)
    ensures Keeps(c, Settle(c, now, entry, index, cause).0, k, births, now)
    ensures var d := Settle(c, now, entry, index, cause).0;
            d.call != c.call ==> IsTerminal(d) && d.call.value.r.terminalPayload == Some(c.call.value.r.outcomeUnknown)
  {
    var (d, reply) := Settle(c, now, entry, index, cause);
    NothingKeeps(c, k, births, now);
    if reply == Status(1) {
      var r := c.call.value.r;
      var why := if now < r.deadline then LeaseLost else cause;
      TerminateKeeps(c, k, births, r, now, r.outcomeUnknown, Sha1(r.outcomeUnknown), why);
      SameRecordKeeps(c, Terminate(c, r, now, r.outcomeUnknown, Sha1(r.outcomeUnknown), why), d, k, births, now);
    } else {
      SameRecordKeeps(c, c, d, k, births, now);
    }
  }
}
