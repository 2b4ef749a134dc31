/** What each script of the routed-call protocol answers and leaves in the call: who is
    admitted until when, what is published and claimed, and which result is recorded
    and streamed. */
module CallEffects {
  import opened Basics
  import opened StreamIds
  import opened CallRecord
  import opened CallScripts
  import opened CallInvariants
  import C = Catalog

  // ---------------------------------------------------------------- vocabulary

  /** The call's record as Redis still shows it. */
  predicate Shows(c: Cell, now: nat, r: Record) {
    c.call == Some(Admitted(r)) && now <= r.expires
  }

  /** Redis shows nothing under the call's key. */
  predicate ShowsNothing(c: Cell, now: nat) {
    c.call.None? || ExpiresAt(c.call.value) < now
  }

  /** Redis shows a rejection under the call's key. */
  predicate ShowsRejection(c: Cell, now: nat, digest: Digest) {
    c.call.Some? && c.call.value.Rejected? && c.call.value.digest == digest && now <= c.call.value.until
  }

  /** The provider's lease stands in the catalog record of its own generation. */
  predicate Stands(entry: Option<C.Entry>, token: C.Token, lease: C.LeaseId, now: nat) {
    && entry.Some? && entry.value.token == token
    && lease in entry.value.leases && now < entry.value.leases[lease].expires
  }

  /** Somebody can be sent calls: a stored lease that is neither draining nor expired. */
  predicate Serves(entry: C.Entry, now: nat) {
    exists id :: id in entry.leases && !entry.leases[id].draining && now < entry.leases[id].expires
  }

  function Least(a: nat, b: nat): nat {
    if a <= b then a else b
  }

  /** One event more: behind everything the stream still held, apart from what the length
      limit pushed out of the front. */
  predicate OneMore(rs: ResultStream, more: ResultStream, now: nat, kind: Kind, payload: Payload, until: nat) {
    && |more.events| > 0 && more.events[|more.events| - 1] == ResultEvent(more.last, kind, payload)
    && Before(rs.last, more.last) && now <= more.last.ms && more.until == until
    && var held := if now <= rs.until then |rs.events| else 0;
    && |more.events| == Least(held + 1, RESULT_STREAM_MAX_LEN)
    && forall i :: 0 <= i < |more.events| - 1 ==> more.events[i] == rs.events[held - (|more.events| - 1) + i]
  }

  /** The newest `n` of a sequence with one more at its end. */
  lemma NewestOf(held: seq<ResultEvent>, e: ResultEvent, n: nat) returns (kept: seq<ResultEvent>)
    requires 0 < n <= |held| + 1
    ensures kept == (held + [e])[|held| + 1 - n..] && |kept| == n && kept[n - 1] == e
    ensures forall i :: 0 <= i < n - 1 ==> kept[i] == held[|held| - (n - 1) + i]
  {
    kept := (held + [e])[|held| + 1 - n..];
  }

  lemma AppendsOne(rs: ResultStream, now: nat, kind: Kind, payload: Payload, until: nat)
    ensures OneMore(rs, Append(rs, now, kind, payload, until), now, kind, payload, until)
  {
    var held := Stored(rs, now);
    var e := ResultEvent(NextId(rs.last, now), kind, payload);
    var n := Least(|held| + 1, RESULT_STREAM_MAX_LEN);
    var kept := NewestOf(held, e, n);
    assert n == |held| + 1 ==> (held + [e])[0..] == held + [e];
    assert Append(rs, now, kind, payload, until).events == kept;
  }

  predicate Unindexed(c: Cell, d: Cell, index: Option<LeaseIndex>) {
    && d.score.None? && d.membership.None?
    && d.indexes == if index.None? then c.indexes else c.indexes - {index.value}
  }

  predicate SameIndexes(c: Cell, d: Cell) {
    d.score == c.score && d.membership == c.membership && d.indexes == c.indexes
  }

  /** The call got its result: `payload` is recorded for `cause` and streamed as the
      newest event, under the event's identifier; the record is otherwise `r`. */
  predicate Ends(c: Cell, d: Cell, r: Record, now: nat, payload: Payload, cause: Cause) {
    && d.call.Some? && d.call.value.Admitted?
    && var q := d.call.value.r;
    && q.terminal && q.terminalPayload == Some(payload) && q.terminalCause == Some(cause)
    && OneMore(c.results, d.results, now, Result, payload, r.expires) && q.terminalEvent == Some(d.results.last)
    && q == r.(terminal := true, terminalPayload := q.terminalPayload, terminalCause := q.terminalCause,
               terminalEvent := q.terminalEvent, terminalDigest := q.terminalDigest)
    && q.terminalDigest == Some(if cause == Provider || cause == StaleAdmission then Sha256(payload) else Sha1(payload))
  }

  lemma TerminateEnds(c: Cell, r: Record, now: nat, payload: Payload, checksum: Checksum, cause: Cause)
    requires checksum == if cause == Provider || cause == StaleAdmission then Sha256(payload) else Sha1(payload)
    ensures Ends(c, Terminate(c, r, now, payload, checksum, cause), r, now, payload, cause)
    ensures SameIndexes(c, Terminate(c, r, now, payload, checksum, cause))
  {
    AppendsOne(c.results, now, Result, payload, r.expires);
  }

  // ---------------------------------------------------------------- decisions

  /** A new record: admitted under its token, to be finished `timeout` from now and kept
      for `ttl`; nothing is published, claimed or decided about it. */
  predicate Begins(r: Record, now: nat, digest: Digest, token: C.Token, timeout: nat, ttl: nat) {
    && r.digest == digest && r.toolUse == digest.toolUse && r.token == token && r.catalogField == digest.toolset
    && r.deadline == now + timeout && r.expires == now + ttl && r.decided
    && r.outcomeUnknown == Message(token, digest.toolUse, Failure(OutcomeUnknown))
    && !r.published && r.publication.None? && r.claims == {}
    && r.overload.None? && r.overloadEvent.None? && r.retryAfter == 0 && r.overloadRequests == {}
    && !r.terminal && r.terminalEvent.None? && r.terminalDigest.None? && r.terminalPayload.None?
    && r.terminalCause.None? && r.deltas == 0
    && r.dispatchToken.None? && r.dispatchLease.None? && r.dispatchRequest.None? && r.dispatchExpires.None?
  }

  /** Admission answers 1 and begins a record exactly where Redis shows nothing; a decision
      that is there stays, and the answer says whether it is of the same request. */
  lemma AdmitsExactly(c: Cell, now: nat, birth: nat, digest: Digest, token: C.Token, timeout: nat, ttl: nat)
    ensures var (d, reply) := Ensure(c, now, birth, digest, token, timeout, ttl);
            && (reply == Status(1) <==> ShowsNothing(c, now))
            && (ShowsNothing(c, now) ==>
                  && d.call.Some? && d.call.value.Admitted? && d.call.value.r.birth == birth
                  && Begins(d.call.value.r, now, digest, token, timeout, ttl)
                  && d.results == c.results && SameIndexes(c, d))
            && (!ShowsNothing(c, now) ==>
                  && d == c
                  && (reply == Status(2) <==> ShowsRejection(c, now, digest))
                  && (forall r :: Shows(c, now, r) ==>
                        reply == if r.digest != digest then Status(-1)
                                 else if r.decided then Status(0) else Error("CALLDECISIONINVALID"))
                  && (c.call.value.Rejected? && c.call.value.digest != digest ==> reply == Status(-1)))
  {
  }

  /** A rejection is stored exactly where Redis shows nothing, with its kind and message
      and for `ttl`; repeating it is confirmed, anything else says what is there. */
  lemma RejectsExactly(c: Cell, now: nat, birth: nat, digest: Digest, kind: string, message: string, ttl: nat)
    ensures var (d, reply) := Reject(c, now, birth, digest, kind, message, ttl);
            && (reply == Status(1) <==> ShowsNothing(c, now) || ShowsRejection(c, now, digest))
            && (ShowsNothing(c, now) ==>
                  && d.call.Some? && d.call.value.Rejected? && d.call.value.born == birth
                  && d.call.value.digest == digest && d.call.value.kind == kind && d.call.value.message == message
                  && d.call.value.until == now + ttl
                  && d.results == c.results && SameIndexes(c, d))
            && (!ShowsNothing(c, now) ==>
                  && d == c
                  && (forall r :: Shows(c, now, r) ==>
                        reply == if r.digest != digest then Status(-1)
                                 else if r.decided then Status(0) else Error("CALLDECISIONINVALID"))
                  && (c.call.value.Rejected? && c.call.value.digest != digest ==> reply == Status(-1)))
  {
  }

  /** Migration is accepted exactly for an admitted record of the same request, and marks
      it decided unless it was. */
  lemma MigratesExactly(c: Cell, now: nat, digest: Digest)
    ensures var (d, reply) := Migrate(c, now, digest);
            if exists r :: Shows(c, now, r) && r.digest == digest then
              && d.call.Some? && d.call.value.Admitted? && d.call.value.r.decided
              && reply == Status(if c.call.value.r.decided then 0 else 1)
              && d == c.(call := Some(Admitted(c.call.value.r.(decided := true))))
            else d == c && reply == Error("CALLDECISIONCHANGED")
  {
    if c.call.Some? && c.call.value.Admitted? && now <= c.call.value.r.expires {
      assert Shows(c, now, c.call.value.r);
    }
  }

  /** What a caller is told: nothing is there, another request is, it was rejected and why,
      or the snapshot of the admitted record with whether it is published and finished; a
      record that cannot be read, or is in its last millisecond, is corrupt. */
  lemma AttachTells(c: Cell, k: Key, now: nat, digest: Digest)
    requires CellGood(c, k) && digest.toolUse == k
    ensures var a := Attach(Lookup(c, now), now, digest);
            if ShowsNothing(c, now) then a == Missing
            else if DigestOf(c.call.value) != digest then a == Conflicting
            else match c.call.value
              case Rejected(_, _, kind, message, until) =>
                if now < until then a == RejectedCall(kind, message) else a.Corrupt?
              case Admitted(r) =>
                if now < r.expires && AnswersOverload(r, r.overload) then
                  && a.Attached? && a.terminal == r.terminal && a.published == r.published
                  && a.snapshot.key == k && a.snapshot.birth == r.birth && a.snapshot.digest == digest
                  && a.snapshot.token == r.token && a.snapshot.overloadEvent == r.overloadEvent
                else a.Corrupt?
  {
    if c.call.Some? && c.call.value.Admitted? && c.call.value.r.digest == digest {
      ReaderAcceptsExactly(c.call.value.r, k, now);
    }
  }

  /** Everything a reader can check of a record: its identity and times, and that what it
      says of publication, overload, dispatch and result fits together. */
  predicate Consistent(r: Record, digest: Digest, now: nat) {
    && r.digest == digest && r.toolUse == digest.toolUse && r.catalogField == digest.toolset
    && 0 < r.deadline < r.expires <= MAX_SAFE_INTEGER && now < r.expires
    && r.outcomeUnknown == Message(r.token, r.toolUse, Failure(OutcomeUnknown)) && r.deltas <= MAX_OUTPUT_DELTAS
    && (r.published <==> r.publication.Some?)
    && (r.publication.Some? ==> r.publication.value != ZERO && r.publication.value in r.claims)
    && r.retryAfter <= MAX_RETRY_AFTER_MS && (r.overloadEvent.Some? <==> r.retryAfter > 0)
    && (r.overloadEvent.Some? ==> r.published && r.overloadEvent.value != ZERO)
    && (r.overload.Some? ==> r.published) && AnswersOverload(r, r.overload)
    && DispatchGood(r)
    && (r.dispatchToken.Some? ==> r.published)
    && (!r.terminal ==> r.terminalEvent.None? && r.terminalDigest.None? && r.terminalPayload.None?
                        && r.terminalCause.None?)
    && (r.terminal ==>
          && r.published && ValidId(r.terminalEvent) && r.terminalDigest.Some? && r.terminalCause.Some?
          && r.terminalPayload.Some? && Identified(r.terminalPayload.value, r.token, r.toolUse)
          && var content, checksum := r.terminalPayload.value.content, r.terminalDigest.value;
          match r.terminalCause.value
          case Provider => !content.RetryControl? && checksum == Sha256(r.terminalPayload.value)
          case StaleAdmission => content == Failure(StaleRegistration) && checksum == Sha256(r.terminalPayload.value)
          case _ => content == Failure(OutcomeUnknown) && checksum == Sha1(r.terminalPayload.value))
  }

  /** The strict reader accepts exactly the consistent records, of any origin. */
  lemma ReaderIsStrict(r: Record, digest: Digest, now: nat)
    ensures Attach(Some(Admitted(r)), now, digest).Attached? <==> Consistent(r, digest, now)
    ensures Attach(Some(Admitted(r)), now, digest).Conflicting? <==> r.digest != digest
  {
  }

  function DigestOf(call: Call): Digest {
    match call
    case Admitted(r) => r.digest
    case Rejected(_, digest, _, _, _) => digest
  }

  // ---------------------------------------------------------------- publication

  /** The request has neither been sent nor got a result. */
  predicate Unopened(r: Record, now: nat, digest: Digest) {
    r.digest == digest && !r.terminal && !r.published && now < r.expires
  }

  /** The result stream is opened once, with an init event, for an admitted call that has
      neither a request nor a result yet. */
  lemma InitializesExactly(c: Cell, now: nat, digest: Digest)
    ensures var (d, reply) := Initialize(c, now, digest);
            var open := |Stored(c.results, now)| > 0;
            && (reply == Status(1) <==>
                  !open && exists r :: Shows(c, now, r) && Unopened(r, now, digest))
            && (reply == Status(1) ==>
                  && d == c.(results := d.results)
                  && OneMore(c.results, d.results, now, Init, INIT_PAYLOAD, c.call.value.r.expires))
            && (reply != Status(1) ==> d == c && reply in {Status(0), Error("CALLADMISSIONCHANGED")})
            && (reply == Status(0) <==>
                  || (open && ShowsRejection(c, now, digest))
                  || exists r :: Shows(c, now, r) && r.digest == digest && (open || r.terminal || r.published))
  {
    if c.call.Some? && c.call.value.Admitted? && now <= c.call.value.r.expires {
      assert Shows(c, now, c.call.value.r);
      AppendsOne(c.results, now, Init, INIT_PAYLOAD, c.call.value.r.expires);
    }
  }

  /** The request still needs somebody to run it, and this publication is a new one: the
      first, or the answer to an overload that was not answered last. */
  predicate Wanted(r: Record, now: nat, digest: Digest, overload: Option<StreamId>) {
    && r.digest == digest && !r.terminal && r.dispatchToken.None? && now < r.deadline
    && (overload.None? ==> !r.published) && (overload.Some? ==> r.overload != overload)
  }

  /** The publisher's generation is active and serves. */
  predicate Offered(entry: Option<C.Entry>, token: C.Token, now: nat) {
    entry.Some? && entry.value.active && entry.value.token == token && Serves(entry.value, now)
  }

  /** The gates let a publication through exactly when the request is wanted and somebody
      serves it. */
  lemma GateOpensExactly(c: Cell, now: nat, entry: Option<C.Entry>, digest: Digest, overload: Option<StreamId>,
      token: C.Token)
    ensures PublishGate(c, now, entry, digest, overload, token).None? <==>
            Offered(entry, token, now) && exists r :: Shows(c, now, r) && Wanted(r, now, digest, overload)
  {
    assert entry.Some? ==> (Serves(entry.value, now) <==> C.Routable(entry.value, now));
    if c.call.Some? && c.call.value.Admitted? && now <= c.call.value.r.expires {
      assert Shows(c, now, c.call.value.r);
    }
  }

  /** What a closed gate answers: the result or the request that is there, that the
      admission changed, or that nobody serves. */
  lemma GateAnswers(c: Cell, now: nat, entry: Option<C.Entry>, digest: Digest, overload: Option<StreamId>,
      token: C.Token)
    requires PublishGate(c, now, entry, digest, overload, token).Some?
    ensures var reply := PublishGate(c, now, entry, digest, overload, token).value;
            && (ShowsNothing(c, now) || DigestOf(c.call.value) != digest ==> reply == Error("CALLADMISSIONCHANGED"))
            && (ShowsRejection(c, now, digest) ==> reply == StatusId(2, None))
            && (forall r :: Shows(c, now, r) && r.digest == digest ==>
                  reply == if r.terminal then StatusId(2, r.terminalEvent)
                           else if r.dispatchToken.Some?
                             || (if overload.None? then r.published else r.overload == overload)
                             then StatusId(2, r.publication)
                           else if r.deadline <= now then Error("CALLADMISSIONCHANGED")
                           else Error("ROUTINGUNAVAILABLE"))
  {
    GateOpensExactly(c, now, entry, digest, overload, token);
  }

  // ---------------------------------------------------------------- providers

  /** The claim's own request is out, undispatched and unfinished, before the deadline. */
  predicate Claimable(r: Record, now: nat, k: Key, callToken: C.Token, request: StreamId) {
    && r.toolUse == k && r.token == callToken && r.publication == Some(request) && request in r.claims
    && !r.terminal && r.dispatchToken.None? && now < r.deadline
  }

  /** A claim dispatches a claimable call of the provider's own generation: the provider
      owns it, it is due at its deadline or when the lease ends, and under the lease's
      index. Of another generation it is ended as stale. Nothing else changes the call. */
  lemma ClaimsExactly(c: Cell, now: nat, entry: Option<C.Entry>, k: Key, callToken: C.Token, token: C.Token,
      lease: C.LeaseId, request: StreamId, r: Record)
    requires Shows(c, now, r) && Stands(entry, token, lease, now)
    ensures var (d, reply) := Claim(c, now, entry, k, callToken, token, lease, request);
            if !Claimable(r, now, k, callToken, request) then d == c && reply != Status(1)
            else if callToken != token then
              reply == Status(2) && Ends(c, d, r, now, Message(callToken, k, Failure(StaleRegistration)),
                StaleAdmission)
              && Unindexed(c, d, None)
            else
              var until := entry.value.leases[lease].expires;
              && reply == Status(1) && d.results == c.results
              && d.call == Some(Admitted(r.(dispatchToken := Some(token), dispatchLease := Some(lease),
                                            dispatchRequest := Some(request), dispatchExpires := Some(until))))
              && d.score == Some(Least(r.deadline, until)) && d.membership == Some(LeaseIndex(token, lease))
              && d.indexes == c.indexes[LeaseIndex(token, lease) := r.deadline]
  {
    var p := StalePayload(callToken, k);
    TerminateEnds(c, r, now, p, Sha256(p), StaleAdmission);
  }

  /** What a claim that changes nothing answers: the call is finished, somebody else's or
      superseded, or not to be had any more. */
  lemma ClaimAnswers(c: Cell, now: nat, entry: Option<C.Entry>, k: Key, callToken: C.Token, token: C.Token,
      lease: C.LeaseId, request: StreamId)
    ensures var (d, reply) := Claim(c, now, entry, k, callToken, token, lease, request);
            && (!Stands(entry, token, lease, now) ==> d == c && reply == Error("PROVIDERLEASECHANGED"))
            && (Stands(entry, token, lease, now) && ShowsNothing(c, now) ==> d == c && reply == Status(4))
            && (Stands(entry, token, lease, now) ==> forall r ::
                  Shows(c, now, r) && !Claimable(r, now, k, callToken, request) ==>
                    reply == if r.toolUse != k then Error("CALLADMISSIONCHANGED")
                             else if r.token != callToken || request !in r.claims then Status(4)
                             else if r.terminal then Status(2)
                             else if r.deadline <= now then Status(4)
                             else Status(3))
  {
  }

  /** The provider is the one the call was dispatched to, for this request, and its lease
      stands; the call has not expired. */
  predicate Owns(c: Cell, now: nat, entry: Option<C.Entry>, k: Key, callToken: C.Token, token: C.Token,
      lease: C.LeaseId, request: StreamId, r: Record) {
    && Shows(c, now, r) && now < r.expires && r.toolUse == k && r.token == callToken
    && Stands(entry, token, lease, now)
    && r.dispatchToken == Some(token) && r.dispatchLease == Some(lease) && r.dispatchRequest == Some(request)
  }

  /** A completion by the call's owner before the deadline records and streams exactly the
      payload it sent; at or after the deadline the unknown outcome. */
  lemma CompletesExactly(c: Cell, now: nat, entry: Option<C.Entry>, k: Key, callToken: C.Token, token: C.Token,
      lease: C.LeaseId, request: StreamId, payload: Payload, r: Record)
    requires CellGood(c, k) && Owns(c, now, entry, k, callToken, token, lease, request, r) && !r.terminal
    ensures var (d, reply) := Complete(c, now, entry, k, callToken, token, lease, request, payload);
            && Unindexed(c, d, Some(LeaseIndex(token, lease)))
            && if now < r.deadline then
                 reply == StatusId(1, Some(d.results.last)) && Ends(c, d, r, now, payload, Provider)
               else
                 && reply == StatusId(2, Some(d.results.last))
                 && Ends(c, d, r, now, Message(r.token, k, Failure(OutcomeUnknown)), ExecutionDeadline)
  {
    TerminateEnds(c, r, now, r.outcomeUnknown, Sha1(r.outcomeUnknown), ExecutionDeadline);
    TerminateEnds(c, r, now, payload, Sha256(payload), Provider);
    assert request in r.claims;
  }

  /** A repeated completion changes nothing: the owner's own payload is confirmed under the
      event it was recorded as, the deadline's outcome is told, and any other payload, or
      one after a lost lease was settled, conflicts. */
  lemma CompletionRepeats(c: Cell, now: nat, entry: Option<C.Entry>, k: Key, callToken: C.Token, token: C.Token,
      lease: C.LeaseId, request: StreamId, payload: Payload, r: Record)
    requires CellGood(c, k) && Owns(c, now, entry, k, callToken, token, lease, request, r) && r.terminal
    ensures var (d, reply) := Complete(c, now, entry, k, callToken, token, lease, request, payload);
            && d == c
            && reply == if r.terminalCause == Some(ExecutionDeadline) then StatusId(2, r.terminalEvent)
                        else if r.terminalCause == Some(Provider) && r.terminalPayload == Some(payload)
                          then StatusId(0, r.terminalEvent)
                        else Error("TERMINALCONFLICT")
  {
  }

  /** What a completion by anybody else answers; it changes nothing. */
  lemma CompletionRefused(c: Cell, now: nat, entry: Option<C.Entry>, k: Key, callToken: C.Token, token: C.Token,
      lease: C.LeaseId, request: StreamId, payload: Payload)
    requires CellGood(c, k)
    requires forall r :: !Owns(c, now, entry, k, callToken, token, lease, request, r)
    ensures var (d, reply) := Complete(c, now, entry, k, callToken, token, lease, request, payload);
            && d == c && reply.Error?
            && (ShowsNothing(c, now) || c.call.value.Rejected? ==> reply.code == "CALLADMISSIONCHANGED")
            && (forall r :: Shows(c, now, r) ==>
                  reply.code == if r.token != callToken then "CALLADMISSIONCHANGED"
                                else if !Stands(entry, token, lease, now) then "PROVIDERLEASECHANGED"
                                else if request !in r.claims then "CALLCLAIMCHANGED"
                                else if r.expires <= now then "CALLADMISSIONCHANGED"
                                else "DISPATCHCLAIMCHANGED")
  {
    if c.call.Some? && c.call.value.Admitted? {
      assert !Owns(c, now, entry, k, callToken, token, lease, request, c.call.value.r);
    }
  }

  /** Answer 1 is given exactly to the owner of an unfinished call before its deadline. */
  lemma CompletionAccepted(c: Cell, now: nat, entry: Option<C.Entry>, k: Key, callToken: C.Token, token: C.Token,
      lease: C.LeaseId, request: StreamId, payload: Payload)
    requires CellGood(c, k)
    ensures var reply := Complete(c, now, entry, k, callToken, token, lease, request, payload).1;
            (reply.StatusId? && reply.n == 1) <==>
              && c.call.Some? && c.call.value.Admitted?
              && Owns(c, now, entry, k, callToken, token, lease, request, c.call.value.r)
              && !c.call.value.r.terminal && now < c.call.value.r.deadline
  {
    if c.call.Some? && c.call.value.Admitted?
       && Owns(c, now, entry, k, callToken, token, lease, request, c.call.value.r) {
      if c.call.value.r.terminal {
        CompletionRepeats(c, now, entry, k, callToken, token, lease, request, payload, c.call.value.r);
      } else {
        CompletesExactly(c, now, entry, k, callToken, token, lease, request, payload, c.call.value.r);
      }
    } else {
      CompletionRefused(c, now, entry, k, callToken, token, lease, request, payload);
    }
  }

  /** An output delta of the owner before the deadline is streamed and counted, up to the
      largest number; everything else changes nothing. */
  lemma StreamsExactly(c: Cell, now: nat, entry: Option<C.Entry>, k: Key, callToken: C.Token, token: C.Token,
      lease: C.LeaseId, request: StreamId, payload: Payload, r: Record)
    requires CellGood(c, k) && Owns(c, now, entry, k, callToken, token, lease, request, r)
    ensures var (d, reply) := LiveEvent(c, now, entry, k, callToken, token, lease, request, payload);
            if !r.terminal && now < r.deadline && r.deltas < MAX_OUTPUT_DELTAS then
              && reply == Status(1) && OneMore(c.results, d.results, now, OutputDelta, payload, r.expires)
              && d.call == Some(Admitted(r.(deltas := r.deltas + 1))) && SameIndexes(c, d)
            else reply == Status(0) && d == c
  {
    AppendsOne(c.results, now, OutputDelta, payload, r.expires);
    assert request in r.claims;
  }

  /** A delta of anybody else is not streamed. */
  lemma StreamRefused(c: Cell, now: nat, entry: Option<C.Entry>, k: Key, callToken: C.Token, token: C.Token,
      lease: C.LeaseId, request: StreamId, payload: Payload)
    requires CellGood(c, k)
    requires forall r :: !Owns(c, now, entry, k, callToken, token, lease, request, r)
    ensures var (d, reply) := LiveEvent(c, now, entry, k, callToken, token, lease, request, payload);
            d == c && reply != Status(1)
  {
    if c.call.Some? && c.call.value.Admitted? {
      assert !Owns(c, now, entry, k, callToken, token, lease, request, c.call.value.r);
    }
  }

  /** A provider may report overload: once for each request it was sent, while nobody owns
      the call and it is unfinished before its deadline. */
  predicate Reportable(c: Cell, now: nat, entry: Option<C.Entry>, k: Key, callToken: C.Token, token: C.Token,
      lease: C.LeaseId, request: StreamId, r: Record) {
    && Shows(c, now, r) && r.toolUse == k && r.token == callToken && Stands(entry, token, lease, now)
    && request in r.claims && request !in r.overloadRequests
    && !r.terminal && r.dispatchToken.None? && now < r.deadline
  }

  /** An overload report streams a retry control and records its event and how long to
      wait; of a call of another generation it ends the call as stale. */
  lemma ReportsExactly(c: Cell, now: nat, entry: Option<C.Entry>, k: Key, callToken: C.Token, token: C.Token,
      lease: C.LeaseId, request: StreamId, r: Record)
    requires CellGood(c, k) && Reportable(c, now, entry, k, callToken, token, lease, request, r)
    ensures var (d, reply) := ReportOverload(c, now, entry, k, callToken, token, lease, request);
            && reply == Status(1)
            && if callToken != token then
                 && Ends(c, d, r.(overloadRequests := r.overloadRequests + {request}), now,
                         Message(callToken, k, Failure(StaleRegistration)), StaleAdmission)
                 && Unindexed(c, d, None)
               else
                 && OneMore(c.results, d.results, now, Result, Message(callToken, k, RetryControl), r.expires)
                 && d.call == Some(Admitted(r.(overloadEvent := Some(d.results.last),
                                               retryAfter := PROVIDER_RETRY_AFTER_MS,
                                               overloadRequests := r.overloadRequests + {request})))
                 && SameIndexes(c, d)
  {
    var p := StalePayload(callToken, k);
    TerminateEnds(c, r.(overloadRequests := r.overloadRequests + {request}), now, p, Sha256(p), StaleAdmission);
    AppendsOne(c.results, now, Result, Message(callToken, k, RetryControl), r.expires);
  }

  /** Any other report changes nothing. */
  lemma ReportRefused(c: Cell, now: nat, entry: Option<C.Entry>, k: Key, callToken: C.Token, token: C.Token,
      lease: C.LeaseId, request: StreamId)
    requires CellGood(c, k)
    requires forall r :: !Reportable(c, now, entry, k, callToken, token, lease, request, r)
    ensures var (d, reply) := ReportOverload(c, now, entry, k, callToken, token, lease, request);
            && d == c && reply != Status(1)
            && (!Stands(entry, token, lease, now) ==> reply == Error("PROVIDERLEASECHANGED"))
            && (Stands(entry, token, lease, now) && (ShowsNothing(c, now) || c.call.value.Admitted?) ==>
                  reply == Status(0))
  {
    if c.call.Some? && c.call.value.Admitted? {
      assert !Reportable(c, now, entry, k, callToken, token, lease, request, c.call.value.r);
    }
  }

  // ---------------------------------------------------------------- replay and settlement

  /** The stream still holds an event under `id`. */
  predicate InStream(events: seq<ResultEvent>, id: Option<StreamId>) {
    exists e :: e in events && Some(e.id) == id
  }

  lemma HoldsExactly(events: seq<ResultEvent>, id: StreamId)
    ensures Holds(events, id) <==> InStream(events, Some(id))
  {
    if Holds(events, id) {
      var i :| 0 <= i < |events| && events[i].id == id;
      assert events[i] in events;
    }
    if InStream(events, Some(id)) {
      var e :| e in events && Some(e.id) == Some(id);
      var i :| 0 <= i < |events| && events[i] == e;
      assert events[i].id == id;
    }
  }

  /** The recorded result is restored exactly when the call is finished and its event is
      not in the stream any more. */
  lemma RestoresExactly(c: Cell, k: Key, now: nat)
    requires CellGood(c, k)
    ensures var (d, reply) := Restore(c, now);
            if c.call.Some? && c.call.value.Admitted? && c.call.value.r.terminal && now < c.call.value.r.expires
               && !InStream(Stored(c.results, now), c.call.value.r.terminalEvent)
            then
              var r := c.call.value.r;
              && reply == Status(1) && OneMore(c.results, d.results, now, Result, r.terminalPayload.value, r.expires)
              && d.call == Some(Admitted(r.(terminalEvent := Some(d.results.last)))) && SameIndexes(c, d)
            else d == c && reply != Status(1)
  {
    if c.call.Some? && c.call.value.Admitted? && c.call.value.r.terminal {
      var r := c.call.value.r;
      AppendsOne(c.results, now, Result, r.terminalPayload.value, r.expires);
      HoldsExactly(Stored(c.results, now), r.terminalEvent.value);
    }
  }

  /** Settlement ends a dispatched call whose owner is gone or whose deadline has passed,
      looks again when the owner's lease or the deadline ends while the owner stands, and
      otherwise takes the key out of the indexes. */
  lemma SettlesExactly(c: Cell, k: Key, now: nat, entry: Option<C.Entry>, index: LeaseIndex, cause: Cause)
    requires CellGood(c, k) && (cause.ExecutionDeadline? || cause.LeaseReleased?)
    ensures var (d, reply) := Settle(c, now, entry, index, cause);
            if c.call.Some? && c.call.value.Admitted? && now <= c.call.value.r.expires && !c.call.value.r.terminal
               && c.call.value.r.dispatchToken.Some?
            then
              var r := c.call.value.r;
              var token, lease := r.dispatchToken.value, r.dispatchLease.value;
              if now < r.deadline && Stands(entry, token, lease, now) then
                reply == Status(0) && d == c.(score := Some(Least(r.deadline, entry.value.leases[lease].expires)))
              else if r.expires <= now then
                reply == Status(0) && d.call == c.call && d.results == c.results && Unindexed(c, d, Some(index))
              else
                && reply == Status(1) && Unindexed(c, d, Some(index))
                && Ends(c, d, r, now, Message(r.token, k, Failure(OutcomeUnknown)),
                        if now < r.deadline then LeaseLost else cause)
            else
              reply == Status(0) && d.call == c.call && d.results == c.results && Unindexed(c, d, Some(index))
  {
    if c.call.Some? && c.call.value.Admitted? {
      var r := c.call.value.r;
      TerminateEnds(c, r, now, r.outcomeUnknown, Sha1(r.outcomeUnknown), LeaseLost);
      TerminateEnds(c, r, now, r.outcomeUnknown, Sha1(r.outcomeUnknown), cause);
    }
  }

  /** Cleanup takes the key out of the settlement set, the membership hash and the index
      its membership names, or the one it was found in. */
  lemma CleansExactly(c: Cell, fallback: Option<LeaseIndex>)
    ensures var d := Cleanup(c, fallback);
            && d.call == c.call && d.results == c.results
            && Unindexed(c, d, if c.membership.Some? then c.membership else fallback)
  {
  }
}
