/** The retained record of one routed tool call and the strict reader that every
    retry, replay and settlement goes through. */
module CallRecord {
  import opened Basics
  import opened StreamIds
  import opened Catalog

  /** A tool-use identity. The record key is its SHA-256, taken to be injective. */
  type Key = string

  /** SHA-256 of the immutable request, taken to be injective: toolset, identity
      and the remaining body. */
  datatype Digest = Digest(toolset: string, toolUse: Key, body: string)

  datatype Code = OutcomeUnknown | StaleRegistration | OtherCode(name: string)
  datatype Content = Success(text: string) | Failure(code: Code) | RetryControl

  /** A persisted result envelope; `Malformed` stands for bytes that do not decode
      to a valid result message. */
  datatype Payload = Malformed(text: string) | Message(token: Token, toolUse: Key, content: Content)

  /** The Go side digests payloads with SHA-256, the Redis scripts with SHA-1. */
  datatype Checksum = Sha256(payload: Payload) | Sha1(payload: Payload)

  datatype Cause = Provider | ExecutionDeadline | StaleAdmission | LeaseLost | LeaseReleased

  datatype Record = Record(
    birth: nat,                          // which admission of this identity it is; no script reads it
    decided: bool,                       // false only for records of an older release
    digest: Digest,
    toolUse: Key,
    token: Token,
    deadline: nat,
    expires: nat,
    published: bool,
    publication: Option<StreamId>,
    claims: set<StreamId>,
    overload: Option<StreamId>,
    overloadEvent: Option<StreamId>,
    retryAfter: nat,
    overloadRequests: set<StreamId>,
    terminal: bool,
    terminalEvent: Option<StreamId>,
    terminalDigest: Option<Checksum>,
    terminalPayload: Option<Payload>,
    terminalCause: Option<Cause>,
    outcomeUnknown: Payload,
    catalogField: string,
    deltas: nat,
    dispatchToken: Option<Token>,
    dispatchLease: Option<LeaseId>,
    dispatchRequest: Option<StreamId>,
    dispatchExpires: Option<nat>)

  datatype Call =
    | Admitted(r: Record)
    | Rejected(born: nat, digest: Digest, kind: string, message: string, until: nat)

  const MAX_SAFE_INTEGER := 9007199254740991
  const MAX_OUTPUT_DELTAS := 256
  const MAX_RETRY_AFTER_MS := 5000
  const PROVIDER_RETRY_AFTER_MS := 250
  const MAX_CALL_WAIT_MS := 600_000
  const MIN_RESULT_TTL_MS := 660_000
  const MAX_RESULT_TTL_MS := 86_400_000

  function OutcomeUnknownPayload(token: Token, toolUse: Key): Payload {
    Message(token, toolUse, Failure(OutcomeUnknown))
  }

  function StalePayload(token: Token, toolUse: Key): Payload {
    Message(token, toolUse, Failure(StaleRegistration))
  }

  function ExpiresAt(c: Call): nat {
    match c
    case Admitted(r) => r.expires
    case Rejected(_, _, _, _, until) => until
  }

  function Birth(c: Call): nat {
    match c
    case Admitted(r) => r.birth
    case Rejected(born, _, _, _, _) => born
  }

  predicate Identified(p: Payload, token: Token, toolUse: Key) {
    p.Message? && p.token == token && p.toolUse == toolUse
  }

  // ---------------------------------------------------------------- the strict reader

  predicate ValidId(id: Option<StreamId>) {
    id.Some? && id.value != ZERO
  }

  /** The checks of the attach script, in its order; `None` means it accepts. */
  function StateError(r: Record, now: nat, toolUse: Key, field: string): Option<string> {
    if r.toolUse != toolUse then Some("tool-use identity")
    else if r.deadline > MAX_SAFE_INTEGER || r.expires > MAX_SAFE_INTEGER || r.expires <= r.deadline then
      Some("deadlines")
    else if r.expires <= now then Some("expiration")
    else if !r.published && r.publication.Some? then Some("publication state")
    else if r.published && !(ValidId(r.publication) && r.publication.value in r.claims) then Some("publication state")
    else if !r.terminal && (r.terminalEvent.Some? || r.terminalDigest.Some? || r.terminalPayload.Some?
      || r.terminalCause.Some?) then
      Some("terminal state")
    else if r.terminal && !(r.published && ValidId(r.terminalEvent) && r.terminalDigest.Some? && r.terminalPayload.Some?
      && r.terminalCause.Some?) then
      Some("terminal state")
    else if r.catalogField != field then Some("routing state")
    else if r.deltas > MAX_OUTPUT_DELTAS || r.retryAfter > MAX_RETRY_AFTER_MS then Some("counter state")
    else if r.overloadEvent.None? && r.retryAfter != 0 then Some("overload state")
    else if r.overloadEvent.Some? && (r.retryAfter == 0 || !ValidId(r.overloadEvent)) then Some("overload state")
    else if r.overload.Some? && !(ValidId(r.overload) && r.overloadEvent.Some?
      && AtOrBefore(r.overload.value, r.overloadEvent.value)) then
      Some("overload state")
    else if !r.published && (r.overload.Some? || r.overloadEvent.Some? || r.dispatchToken.Some?) then
      Some("publication state")
    else if r.dispatchToken.None? && (r.dispatchLease.Some? || r.dispatchRequest.Some? || r.dispatchExpires.Some?) then
      Some("dispatch state")
    else if r.dispatchToken.Some?
      && !(&& r.dispatchToken.value == r.token && r.dispatchLease.Some? && r.dispatchRequest.Some?
                                       && r.dispatchRequest == r.publication && r.dispatchExpires.Some?
                                       && 0 < r.dispatchExpires.value <= MAX_SAFE_INTEGER) then
      Some("dispatch state")
    else None
  }

  /** The terminal checks the Go side makes after the script accepted. */
  function TerminalError(r: Record): Option<string> {
    if !r.terminal then
      if r.terminalPayload.Some? || r.terminalDigest.Some? || r.terminalCause.Some? then
        Some("terminal data while nonterminal") else None
    else if r.terminalPayload.None? || r.terminalDigest.None? || r.terminalCause.None? then
      Some("terminal data missing")
    else
      var p := r.terminalPayload.value;
      if !Identified(p, r.token, r.toolUse) then Some("terminal identity")
      else match r.terminalCause.value
        case Provider =>
          if p.content.RetryControl? then Some("retry control")
          else if r.terminalDigest.value != Sha256(p) then Some("terminal digest") else None
        case StaleAdmission =>
          if p.content != Failure(StaleRegistration) then Some("stale contract")
          else if r.terminalDigest.value != Sha256(p) then Some("terminal digest") else None
        case _ =>
          if p.content != Failure(OutcomeUnknown) then Some("uncertain contract")
          else if r.terminalDigest.value != Sha1(p) then Some("terminal digest") else None
  }

  /** parseResult on the fields the script returned. */
  function ParseError(r: Record): Option<string> {
    if r.deadline == 0 then Some("execution deadline")
    else if r.expires <= r.deadline then Some("expiration does not follow execution deadline")
    else if r.terminal != r.terminalEvent.Some? then Some("terminal event ID")
    else if r.retryAfter > MAX_RETRY_AFTER_MS || r.overloadEvent.None? != (r.retryAfter == 0) then
      Some("overload state")
    else if !Identified(r.outcomeUnknown, r.token, r.toolUse)
      || r.outcomeUnknown.content != Failure(OutcomeUnknown) then
      Some("outcome unknown payload")
    else TerminalError(r)
  }

  /** What a publisher keeps from an attach. */
  datatype Snapshot = Snapshot(key: Key, birth: nat, digest: Digest, token: Token, overloadEvent: Option<StreamId>)

  datatype Attachment =
    | Missing
    | Conflicting
    | RejectedCall(kind: string, message: string)
    | Corrupt(what: string)
    | Attached(snapshot: Snapshot, terminal: bool, published: bool)

  /** Attach: the script and the Go decoder together. */
  function Attach(call: Option<Call>, now: nat, digest: Digest): Attachment {
    match call
    case None => Missing
    case Some(Rejected(_, d, kind, message, until)) =>
      if d != digest then Conflicting
      else if until <= now then Corrupt("rejection expiration")
      else RejectedCall(kind, message)
    case Some(Admitted(r)) =>
      if r.digest != digest then Conflicting
      else
        var e := StateError(r, now, digest.toolUse, digest.toolset);
        if e.Some? then Corrupt(e.value)
        else
          var p := ParseError(r);
          if p.Some? then Corrupt(p.value)
          else Attached(Snapshot(r.toolUse, r.birth, r.digest, r.token, r.overloadEvent), r.terminal, r.published)
  }
}
