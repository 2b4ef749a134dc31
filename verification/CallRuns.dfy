/** The routed-call protocol as one state machine: the Redis clock, the catalog,
    the toolset queues and every call. Callers, providers, sweepers and consumers of
    any number of replicas interleave freely, one atomic script at a time, so a run
    is a sequence of events. */
module CallRuns {
  import opened Basics
  import opened StreamIds
  import opened CallRecord
  import opened CallScripts
  import opened CallInvariants
  import opened CallTransitions
  import C = Catalog
  import Q = RequestQueue

  datatype State = State(
    now: nat,
    births: nat,                       // next unused lifetime number
    catalog: map<string, C.Entry>,
    queues: map<string, Q.Queue>,
    cells: map<Key, Cell>,
    held: set<Snapshot>,               // attach replies callers may still act on
    listed: set<Sighting>,             // keys sweepers read from a settlement index
    missing: set<Sighting>)            // those of them under which they found no admitted call

  /** A sweeper's read of a key from the settlement set, when it was due, or from the
      index of a released lease. */
  datatype Sighting = Sighting(key: Key, index: Option<LeaseIndex>)

  /** Millisecond clock readings whose deadlines stay exact in every script. */
  const CLOCK_LIMIT := MAX_SAFE_INTEGER - MAX_RESULT_TTL_MS

  datatype Event =
    | Tick(to: nat)
    | CatalogOp(toolset: string, op: C.Op)
    | QueueOp(toolset: string, step: Q.Event)
    | Attaching(digest: Digest)
    | Ensuring(digest: Digest, token: C.Token, timeout: nat, ttl: nat)
    | Rejecting(digest: Digest, kind: string, message: string, ttl: nat)
    | Migrating(digest: Digest)
    | Initializing(digest: Digest)
    | Publishing(snapshot: Snapshot, overload: Option<StreamId>, bound: nat, trim: nat)
    | Claiming(key: Key, toolset: string, callToken: C.Token, token: C.Token, lease: C.LeaseId, request: StreamId)
    | Completing(key: Key, toolset: string, callToken: C.Token, token: C.Token, lease: C.LeaseId, request: StreamId,
      payload: Payload)
    | Streaming(key: Key, toolset: string, callToken: C.Token, token: C.Token, lease: C.LeaseId, request: StreamId,
      payload: Payload)
    | Overloading(key: Key, toolset: string, callToken: C.Token, token: C.Token, lease: C.LeaseId, request: StreamId)
    | Restoring(key: Key)
    | Listing(sighting: Sighting)
    | Finding(sighting: Sighting)
    | Settling(key: Key, index: LeaseIndex, cause: Cause)
    | Cleaning(key: Key, fallback: Option<LeaseIndex>)
    | LosingResults(key: Key)

  function CellOf(s: State, k: Key): Cell {
    if k in s.cells then s.cells[k] else EMPTY_CELL
  }

  function QueueOf(s: State, toolset: string): Q.Queue {
    if toolset in s.queues then s.queues[toolset] else Q.EMPTY
  }

  function EntryOf(s: State, toolset: string): Option<C.Entry> {
    Find(s.catalog, toolset)
  }

  predicate OpFor(op: C.Op, toolset: string) {
    match op
    case Register(token, _, _) => token.toolset == toolset
    case Drain(_, _, duration) => duration <= C.MAX_LEASE_MS
    case _ => true
  }

  /** The key is due in the settlement set, or in the lease index asked for. */
  predicate Sighted(c: Cell, now: nat, index: Option<LeaseIndex>) {
    if index.None? then c.score.Some? && c.score.value <= now else index.value in c.indexes
  }

  /** The key's hash has no tool-use identity: it is gone, or holds a rejection. */
  predicate Unadmitted(c: Cell, now: nat) {
    Lookup(c, now).None? || Lookup(c, now).value.Rejected?
  }

  /** What the service checks before it runs a script, what a sweeper saw before it
      cleans up, and the clock's course. */
  predicate Enabled(s: State, e: Event) {
    match e
    case Tick(to) => s.now <= to <= CLOCK_LIMIT
    case CatalogOp(toolset, op) => OpFor(op, toolset)
    case QueueOp(_, step) => step.Publish? ==> step.now == s.now
    case Ensuring(digest, token, timeout, ttl) =>
      token.toolset == digest.toolset && 0 < timeout <= MAX_CALL_WAIT_MS
        && MIN_RESULT_TTL_MS <= ttl <= MAX_RESULT_TTL_MS
    case Rejecting(_, _, _, ttl) => MIN_RESULT_TTL_MS <= ttl <= MAX_RESULT_TTL_MS
    case Publishing(snapshot, overload, _, _) =>
      snapshot in s.held && (overload.None? || overload == snapshot.overloadEvent)
    case Completing(key, _, callToken, _, _, _, payload) =>
      Identified(payload, callToken, key) && !payload.content.RetryControl?
    case Listing(sighting) => Sighted(CellOf(s, sighting.key), s.now, sighting.index)
    case Finding(sighting) => sighting in s.listed && Unadmitted(CellOf(s, sighting.key), s.now)
    case Settling(_, _, cause) => cause.ExecutionDeadline? || cause.LeaseReleased?
    case Cleaning(key, fallback) => Sighting(key, fallback) in s.missing
    case _ => true
  }

  /** The call an event is about. */
  function KeyOf(e: Event): Option<Key> {
    match e
    case Tick(_) => None
    case CatalogOp(_, _) => None
    case QueueOp(_, _) => None
    case Attaching(_) => None
    case Listing(_) => None
    case Finding(_) => None
    case Ensuring(digest, _, _, _) => Some(digest.toolUse)
    case Rejecting(digest, _, _, _) => Some(digest.toolUse)
    case Migrating(digest) => Some(digest.toolUse)
    case Initializing(digest) => Some(digest.toolUse)
    case Publishing(snapshot, _, _, _) => Some(snapshot.key)
    case _ => Some(e.key)
  }

  /** The catalog record whose leases the event's script checks. */
  function EntryFor(s: State, e: Event): Option<C.Entry> {
    match e
    case Publishing(snapshot, _, _, _) => EntryOf(s, snapshot.digest.toolset)
    case Claiming(_, toolset, _, _, _, _) => EntryOf(s, toolset)
    case Completing(_, toolset, _, _, _, _, _) => EntryOf(s, toolset)
    case Streaming(_, toolset, _, _, _, _, _) => EntryOf(s, toolset)
    case Overloading(_, toolset, _, _, _, _) => EntryOf(s, toolset)
    case Settling(k, _, _) =>
      var c := CellOf(s, k);
      if c.call.Some? && c.call.value.Admitted? then EntryOf(s, c.call.value.r.catalogField) else None
    case _ => None
  }

  /** The publish script up to its commit: the queue afterwards and the reply. */
  function PublishReply(s: State, e: Event): (Q.Queue, Reply)
    requires e.Publishing?
  {
    var q := QueueOf(s, e.snapshot.digest.toolset);
    var gate := PublishGate(CellOf(s, e.snapshot.key), s.now, EntryFor(s, e), e.snapshot.digest, e.overload,
      e.snapshot.token);
    if gate.Some? then (q, gate.value)
    else
      var (queue, reply) := Q.PublishAt(q, e.bound, s.now, e.snapshot.key, e.trim);
      (queue, if reply.Full? then StatusId(0, None) else StatusId(1, Some(reply.id)))
  }

  function PublishCell(s: State, e: Event): (Cell, Reply)
    requires e.Publishing?
  {
    var c := CellOf(s, e.snapshot.key);
    var reply := PublishReply(s, e).1;
    if Publishes(s, e) then (CommitPublication(c, reply.id.value, e.overload), reply) else (c, reply)
  }

  /** The event appends a request and commits it in the call record. */
  predicate Publishes(s: State, e: Event) {
    e.Publishing? && PublishGate(CellOf(s, e.snapshot.key), s.now, EntryFor(s, e), e.snapshot.digest, e.overload,
      e.snapshot.token).None?
    && Q.PublishAt(QueueOf(s, e.snapshot.digest.toolset), e.bound, s.now, e.snapshot.key, e.trim).1.Appended?
  }

  /** The effect of an event on its call, and the script's reply. */
  function OnCell(s: State, e: Event): (Cell, Reply)
    requires KeyOf(e).Some?
  {
    var c := CellOf(s, KeyOf(e).value);
    var entry := EntryFor(s, e);
    match e
    case Ensuring(digest, token, timeout, ttl) => Ensure(c, s.now, s.births, digest, token, timeout, ttl)
    case Rejecting(digest, kind, message, ttl) => Reject(c, s.now, s.births, digest, kind, message, ttl)
    case Migrating(digest) => Migrate(c, s.now, digest)
    case Initializing(digest) => Initialize(c, s.now, digest)
    case Publishing(_, _, _, _) => PublishCell(s, e)
    case Claiming(k, _, callToken, token, lease, request) => Claim(c, s.now, entry, k, callToken, token, lease, request)
    case Completing(k, _, callToken, token, lease, request, p) =>
      Complete(c, s.now, entry, k, callToken, token, lease, request, p)
    case Streaming(k, _, callToken, token, lease, request, p) =>
      LiveEvent(c, s.now, entry, k, callToken, token, lease, request, p)
    case Overloading(k, _, callToken, token, lease, request) =>
      ReportOverload(c, s.now, entry, k, callToken, token, lease, request)
    case Restoring(_) => Restore(c, s.now)
    case Settling(_, index, cause) => Settle(c, s.now, entry, index, cause)
    case Cleaning(_, fallback) => (Cleanup(c, fallback), Status(0))
    case LosingResults(_) => (c.(results := c.results.(events := [])), Status(0))
    case _ => (c, Status(0))
  }

  function Apply(s: State, e: Event): State {
    if !Enabled(s, e) then s
    else if e.Tick? then s.(now := e.to)
    else if e.CatalogOp? then
      s.(catalog := Put(s.catalog, e.toolset, C.Step(EntryOf(s, e.toolset), s.now, e.op).0))
    else if e.QueueOp? then
      s.(queues := s.queues[e.toolset := Q.Apply(QueueOf(s, e.toolset), e.step)])
    else if e.Attaching? then
      var a := Attach(Lookup(CellOf(s, e.digest.toolUse), s.now), s.now, e.digest);
      if a.Attached? then s.(held := s.held + {a.snapshot}) else s
    else if e.Listing? then s.(listed := s.listed + {e.sighting})
    else if e.Finding? then s.(missing := s.missing + {e.sighting})
    else
      s.(cells := s.cells[KeyOf(e).value := OnCell(s, e).0],
         births := if e.Ensuring? || e.Rejecting? then s.births + 1 else s.births,
         queues := if e.Publishing? then s.queues[e.snapshot.digest.toolset := PublishReply(s, e).0] else s.queues)
  }

  function Run(s: State, run: seq<Event>): State
    decreases run
  {
    if run == [] then s else Run(Apply(s, run[0]), run[1..])
  }

  const START := State(0, 0, map[], map[], map[], {}, {}, {})
}
