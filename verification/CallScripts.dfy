/** The Redis scripts of the routed-call protocol. Every script touches one call:
    its record, its result stream, and its members of the settlement indexes, which
    together are a `Cell`. A script is a function of the cell, the clock, the
    toolset's catalog record and its arguments. */
module CallScripts {
  import opened Basics
  import opened StreamIds
  import opened Catalog
  import opened CallRecord

  datatype Kind = Init | Result | OutputDelta
  datatype ResultEvent = ResultEvent(id: StreamId, kind: Kind, payload: Payload)

  /** A result stream. `last` outlives its entries, so identifiers never repeat. */
  datatype ResultStream = ResultStream(events: seq<ResultEvent>, last: StreamId, until: nat)

  /** The sorted set holding the live dispatches of one exact provider lease. */
  datatype LeaseIndex = LeaseIndex(token: Token, lease: LeaseId)

  datatype Cell = Cell(
    call: Option<Call>,
    results: ResultStream,
    score: Option<nat>,                  // member of the settlement set
    indexes: map<LeaseIndex, nat>,       // member of these lease indexes
    membership: Option<LeaseIndex>)      // recorded lease index

  const EMPTY_CELL := Cell(None, ResultStream([], ZERO, 0), None, map[], None)

  datatype Reply = Error(code: string) | Status(n: int) | StatusId(n: int, id: Option<StreamId>)

  const RESULT_STREAM_MAX_LEN := 512
  const INIT_PAYLOAD := Malformed("{}")

  /** The record a script sees. Redis keeps a key through its expiration millisecond. */
  function Lookup(c: Cell, now: nat): Option<Call> {
    if c.call.Some? && now <= ExpiresAt(c.call.value) then c.call else None
  }

  // ---------------------------------------------------------------- result stream

  function Stored(rs: ResultStream, now: nat): seq<ResultEvent> {
    if now <= rs.until then rs.events else []
  }

  /** XADD MAXLEN = 512, then PEXPIREAT. */
  function Append(rs: ResultStream, now: nat, kind: Kind, payload: Payload, until: nat): ResultStream {
    var id := NextId(rs.last, now);
    var all := Stored(rs, now) + [ResultEvent(id, kind, payload)];
    var kept := if |all| > RESULT_STREAM_MAX_LEN then all[|all| - RESULT_STREAM_MAX_LEN..] else all;
    ResultStream(kept, id, until)
  }

  predicate Holds(events: seq<ResultEvent>, id: StreamId) {
    exists i :: 0 <= i < |events| && events[i].id == id
  }

  // ---------------------------------------------------------------- shared effects

  function Update(c: Cell, r: Record): Cell {
    c.(call := Some(Admitted(r)))
  }

  function Unindex(c: Cell, index: Option<LeaseIndex>): Cell {
    c.(score := None,
       indexes := if index.Some? then c.indexes - {index.value} else c.indexes,
       membership := None)
  }

  /** Appends a terminal result and commits it in the record. */
  function Terminate(c: Cell, r: Record, now: nat, payload: Payload, checksum: Checksum, cause: Cause): Cell {
    var rs := Append(c.results, now, Result, payload, r.expires);
    Update(c, r.(terminal := true, terminalEvent := Some(rs.last), terminalDigest := Some(checksum),
                 terminalPayload := Some(payload), terminalCause := Some(cause))).(results := rs)
  }

  // ---------------------------------------------------------------- decision scripts

  function NewRecord(birth: nat, now: nat, digest: Digest, token: Token, timeout: nat, ttl: nat): Record {
    Record(
      birth, true, digest, digest.toolUse, token, now + timeout, now + ttl,
      false, None, {}, None, None, 0, {},
      false, None, None, None, None,
      OutcomeUnknownPayload(token, digest.toolUse), digest.toolset, 0,
      None, None, None, None)
  }

  function Ensure(c: Cell, now: nat, birth: nat, digest: Digest, token: Token, timeout: nat, ttl: nat): (Cell, Reply) {
    match Lookup(c, now)
    case None => (Update(c, NewRecord(birth, now, digest, token, timeout, ttl)), Status(1))
    case Some(Rejected(_, d, _, _, _)) => (c, if d != digest then Status(-1) else Status(2))
    case Some(Admitted(r)) =>
      (c, if r.digest != digest then Status(-1) else if !r.decided then Error("CALLDECISIONINVALID") else Status(0))
  }

  function Reject(c: Cell, now: nat, birth: nat, digest: Digest, kind: string, message: string,
      ttl: nat): (Cell, Reply) {
    match Lookup(c, now)
    case None => (c.(call := Some(Rejected(birth, digest, kind, message, now + ttl))), Status(1))
    case Some(Rejected(_, d, _, _, _)) => (c, if d != digest then Status(-1) else Status(1))
    case Some(Admitted(r)) =>
      (c, if r.digest != digest then Status(-1) else if !r.decided then Error("CALLDECISIONINVALID") else Status(0))
  }

  function Migrate(c: Cell, now: nat, digest: Digest): (Cell, Reply) {
    match Lookup(c, now)
    case Some(Admitted(r)) =>
      if r.digest != digest then (c, Error("CALLDECISIONCHANGED"))
      else if !r.decided then (Update(c, r.(decided := true)), Status(1))
      else (c, Status(0))
    case _ => (c, Error("CALLDECISIONCHANGED"))
  }

  // ---------------------------------------------------------------- publication

  function Initialize(c: Cell, now: nat, digest: Digest): (Cell, Reply) {
    match Lookup(c, now)
    case None => (c, Error("CALLADMISSIONCHANGED"))
    case Some(Rejected(_, d, _, _, _)) =>
      (c, if d == digest && |Stored(c.results, now)| > 0 then Status(0) else Error("CALLADMISSIONCHANGED"))
    case Some(Admitted(r)) =>
      if r.digest != digest then (c, Error("CALLADMISSIONCHANGED"))
      else if r.terminal || r.published || |Stored(c.results, now)| > 0 then (c, Status(0))
      else if r.expires <= now then (c, Error("CALLADMISSIONCHANGED"))
      else (c.(results := Append(c.results, now, Init, INIT_PAYLOAD, r.expires)), Status(1))
  }

  /** The admission and routability gates in front of the bounded append: either
      the script's final reply, or leave to append. */
  function PublishGate(c: Cell, now: nat, entry: Option<Entry>, digest: Digest, overload: Option<StreamId>,
      token: Token): Option<Reply> {
    match Lookup(c, now)
    case None => Some(Error("CALLADMISSIONCHANGED"))
    case Some(Rejected(_, d, _, _, _)) =>
      if d != digest then Some(Error("CALLADMISSIONCHANGED")) else Some(StatusId(2, None))
    case Some(Admitted(r)) =>
      if r.digest != digest then Some(Error("CALLADMISSIONCHANGED"))
      else if r.terminal then Some(StatusId(2, r.terminalEvent))
      else if (overload.None? && r.published) || (overload.Some? && r.overload == overload) then
        Some(StatusId(2, r.publication))
      else if r.dispatchToken.Some? then Some(StatusId(2, r.publication))
      else if r.deadline <= now then Some(Error("CALLADMISSIONCHANGED"))
      else if entry.None? || !entry.value.active || entry.value.token != token || !Routable(entry.value, now) then
        Some(Error("ROUTINGUNAVAILABLE"))
      else None
  }

  /** Commits the publication of request `id` in the record that passed the gate. */
  function CommitPublication(c: Cell, id: StreamId, overload: Option<StreamId>): Cell
    requires c.call.Some? && c.call.value.Admitted?
  {
    var r := c.call.value.r;
    Update(c, r.(published := true, overload := overload, publication := Some(id), claims := r.claims + {id}))
  }

  // ---------------------------------------------------------------- provider scripts

  function Claim(c: Cell, now: nat, entry: Option<Entry>, toolUse: Key, callToken: Token, token: Token, lease: LeaseId,
      request: StreamId): (Cell, Reply) {
    if !LeaseLive(entry, token, lease, now) then (c, Error("PROVIDERLEASECHANGED"))
    else match Lookup(c, now)
      case None => (c, Status(4))
      case Some(Rejected(_, _, _, _, _)) => (c, Error("CALLADMISSIONCHANGED"))
      case Some(Admitted(r)) =>
        if r.toolUse != toolUse then (c, Error("CALLADMISSIONCHANGED"))
        else if r.token != callToken || request !in r.claims then (c, Status(4))
        else if r.terminal then (c, Status(2))
        else if r.deadline <= now then (c, Status(4))
        else if r.dispatchToken.Some? then (c, Status(3))
        else if r.publication != Some(request) then (c, Status(3))
        else if callToken != token then
          var p := StalePayload(callToken, toolUse);
          (Unindex(Terminate(c, r, now, p, Sha256(p), StaleAdmission), None), Status(2))
        else
          var until := entry.value.leases[lease].expires;
          var index := LeaseIndex(token, lease);
          (Update(c, r.(dispatchToken := Some(token), dispatchLease := Some(lease),
                        dispatchRequest := Some(request), dispatchExpires := Some(until)))
           .(score := Some(if r.deadline <= until then r.deadline else until),
             indexes := c.indexes[index := r.deadline],
             membership := Some(index)),
           Status(1))
  }

  function Complete(c: Cell, now: nat, entry: Option<Entry>, toolUse: Key, callToken: Token, token: Token,
      lease: LeaseId, request: StreamId, payload: Payload): (Cell, Reply) {
    match Lookup(c, now)
    case None => (c, Error("CALLADMISSIONCHANGED"))
    case Some(Rejected(_, _, _, _, _)) => (c, Error("CALLADMISSIONCHANGED"))
    case Some(Admitted(r)) =>
      if r.toolUse != toolUse || r.token != callToken then (c, Error("CALLADMISSIONCHANGED"))
      else if !LeaseLive(entry, token, lease, now) then (c, Error("PROVIDERLEASECHANGED"))
      else if request !in r.claims then (c, Error("CALLCLAIMCHANGED"))
      else if r.expires <= now then (c, Error("CALLADMISSIONCHANGED"))
      else if r.dispatchToken != Some(token) || r.dispatchLease != Some(lease)
        || r.dispatchRequest != Some(request) then
        (c, Error("DISPATCHCLAIMCHANGED"))
      else if r.terminal then
        if r.terminalCause == Some(ExecutionDeadline) then (c, StatusId(2, r.terminalEvent))
        else if r.terminalDigest != Some(Sha256(payload)) then (c, Error("TERMINALCONFLICT"))
        else (c, StatusId(0, r.terminalEvent))
      else
        var index := Some(LeaseIndex(token, lease));
        if r.deadline <= now then
          var t := Terminate(c, r, now, r.outcomeUnknown, Sha1(r.outcomeUnknown), ExecutionDeadline);
          (Unindex(t, index), StatusId(2, Some(t.results.last)))
        else
          var t := Terminate(c, r, now, payload, Sha256(payload), Provider);
          (Unindex(t, index), StatusId(1, Some(t.results.last)))
  }

  function LiveEvent(c: Cell, now: nat, entry: Option<Entry>, toolUse: Key, callToken: Token, token: Token,
      lease: LeaseId, request: StreamId, payload: Payload): (Cell, Reply) {
    match Lookup(c, now)
    case None => (c, Error("CALLADMISSIONCHANGED"))
    case Some(Rejected(_, _, _, _, _)) => (c, Error("CALLADMISSIONCHANGED"))
    case Some(Admitted(r)) =>
      if r.toolUse != toolUse || r.token != callToken then (c, Error("CALLADMISSIONCHANGED"))
      else if !LeaseLive(entry, token, lease, now) then (c, Error("PROVIDERLEASECHANGED"))
      else if request !in r.claims then (c, Error("CALLCLAIMCHANGED"))
      else if r.expires <= now then (c, Error("CALLADMISSIONCHANGED"))
      else if r.terminal || r.deadline <= now then (c, Status(0))
      else if r.dispatchToken != Some(token) || r.dispatchLease != Some(lease)
        || r.dispatchRequest != Some(request) then
        (c, Error("DISPATCHCLAIMCHANGED"))
      else if r.deltas >= MAX_OUTPUT_DELTAS then (c, Status(0))
      else
        (Update(c, r.(deltas := r.deltas + 1)).(results := Append(c.results, now, OutputDelta, payload, r.expires)),
          Status(1))
  }

  function ReportOverload(c: Cell, now: nat, entry: Option<Entry>, toolUse: Key, callToken: Token, token: Token,
      lease: LeaseId, request: StreamId): (Cell, Reply) {
    if !LeaseLive(entry, token, lease, now) then (c, Error("PROVIDERLEASECHANGED"))
    else match Lookup(c, now)
      case None => (c, Status(0))
      case Some(Rejected(_, _, _, _, _)) => (c, Error("CALLADMISSIONCHANGED"))
      case Some(Admitted(r)) =>
        if r.toolUse != toolUse then (c, Error("CALLADMISSIONCHANGED"))
        else if r.token != callToken || request !in r.claims || request in r.overloadRequests then (c, Status(0))
        else if r.expires <= now || r.deadline <= now || r.terminal || r.dispatchToken.Some? then (c, Status(0))
        else if callToken != token then
          var p := StalePayload(callToken, toolUse);
          (Unindex(Terminate(c, r.(overloadRequests := r.overloadRequests + {request}), now, p, Sha256(p),
            StaleAdmission), None), Status(1))
        else
          var rs := Append(c.results, now, Result, Message(callToken, toolUse, RetryControl), r.expires);
          (Update(c, r.(overloadEvent := Some(rs.last), retryAfter := PROVIDER_RETRY_AFTER_MS,
                        overloadRequests := r.overloadRequests + {request})).(results := rs), Status(1))
  }

  // ---------------------------------------------------------------- replay and settlement

  function Restore(c: Cell, now: nat): (Cell, Reply) {
    match Lookup(c, now)
    case Some(Admitted(r)) =>
      if !r.terminal then (c, Status(0))
      else if r.terminalPayload.None? then (c, Error("TERMINALPAYLOADMISSING"))
      else if r.terminalEvent.Some? && Holds(Stored(c.results, now), r.terminalEvent.value) then (c, Status(0))
      else if r.expires <= now then (c, Error("CALLADMISSIONCHANGED"))
      else
        var rs := Append(c.results, now, Result, r.terminalPayload.value, r.expires);
        (Update(c, r.(terminalEvent := Some(rs.last))).(results := rs), Status(1))
    case _ => (c, Status(0))
  }

  /** `entry` is the catalog record named by the call's own catalog field; `index`
      is the lease index its membership named when the sweeper read it. */
  function Settle(c: Cell, now: nat, entry: Option<Entry>, index: LeaseIndex, cause: Cause): (Cell, Reply) {
    match Lookup(c, now)
    case None => (Unindex(c, Some(index)), Status(0))
    case Some(Rejected(_, _, _, _, _)) => (Unindex(c, Some(index)), Status(0))
    case Some(Admitted(r)) =>
      if r.terminal || r.dispatchToken.None? || r.dispatchLease.None? then (Unindex(c, Some(index)), Status(0))
      else if now < r.deadline && LeaseLive(entry, r.dispatchToken.value, r.dispatchLease.value, now) then
        var until := entry.value.leases[r.dispatchLease.value].expires;
        (c.(score := Some(if r.deadline <= until then r.deadline else until)), Status(0))
      else if r.expires <= now then (Unindex(c, Some(index)), Status(0))
      else
        var why := if now < r.deadline then LeaseLost else cause;
        (Unindex(Terminate(c, r, now, r.outcomeUnknown, Sha1(r.outcomeUnknown), why), Some(index)), Status(1))
  }

  /** Removes every index entry of the key without looking at its record. */
  function Cleanup(c: Cell, fallback: Option<LeaseIndex>): Cell {
    Unindex(c, if c.membership.Some? then c.membership else fallback)
  }
}
