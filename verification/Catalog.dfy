/** The toolset admission catalog: one CAS-owned record per toolset holding the
    admission generation, its provider leases, the tombstones of earlier
    generations, and the health epoch that fences pongs.

    One operation is one successful read/clock/compare-and-swap attempt, so it is
    a function of the stored record and of the clock value it read. */
module Catalog {
  import opened Basics

  /** The wire-visible admission identity. The registry derives it by SHA-256 from
      the schema (which includes the toolset name) and the deployment revision;
      the hash is taken to be injective, so the identity is kept as its parts. */
  datatype Token = Token(toolset: string, schema: string, revision: string)

  type LeaseId = string

  datatype Lease = Lease(expires: nat, draining: bool)

  datatype Entry = Entry(
    active: bool,
    token: Token,
    leases: map<LeaseId, Lease>,
    retired: set<Token>,
    epoch: nat,
    lastPong: nat)

  const MIN_LEASE_MS := 45_000
  const MAX_LEASE_MS := 86_400_000
  const MAX_INT64 := 0x7FFF_FFFF_FFFF_FFFF

  datatype Op =
    | Register(token: Token, lease: LeaseId, duration: nat)
    | Drain(token: Token, lease: LeaseId, duration: nat)
    | Release(token: Token, lease: LeaseId)
    | Retire(token: Token)
    | Pong(token: Token, lease: LeaseId, epoch: nat, nanos: nat)
    | Prune
    | Health

  datatype Outcome = Done | Invalid | Blocked | Tombstoned | Conflict | NotFound | Identity(token: Token, epoch: nat)

  // ---------------------------------------------------------------- membership

  predicate IsRoutable(l: Lease, now: nat) {
    !l.draining && l.expires > now
  }

  /** At least one unexpired, non-draining lease. */
  predicate Routable(e: Entry, now: nat) {
    exists id :: id in e.leases && IsRoutable(e.leases[id], now)
  }

  predicate HasNonDraining(e: Entry) {
    exists id :: id in e.leases && !e.leases[id].draining
  }

  predicate HasExpired(e: Entry, now: nat) {
    exists id :: id in e.leases && e.leases[id].expires <= now
  }

  /** A lease that still authorises its holder: what every routing script tests. */
  predicate LeaseLive(e: Option<Entry>, token: Token, lease: LeaseId, now: nat) {
    e.Some? && e.value.token == token && lease in e.value.leases && e.value.leases[lease].expires > now
  }

  function Unexpired(leases: map<LeaseId, Lease>, now: nat): map<LeaseId, Lease> {
    map id | id in leases && leases[id].expires > now :: leases[id]
  }

  function Fence(e: Entry): Entry {
    e.(epoch := e.epoch + 1, lastPong := 0)
  }

  function Pruned(e: Entry, now: nat): Entry {
    var kept := e.(leases := Unexpired(e.leases, now));
    if HasNonDraining(e) && !Routable(kept, now) then Fence(kept) else kept
  }

  function Fresh(token: Token, lease: LeaseId, expires: nat, retired: set<Token>): Entry {
    Entry(true, token, map[lease := Lease(expires, false)], retired, 1, 0)
  }

  // ---------------------------------------------------------------- transitions

  function RegisterAt(e: Option<Entry>, now: nat, op: Op): (Option<Entry>, Outcome)
    requires op.Register?
  {
    if op.duration < MIN_LEASE_MS || op.duration > MAX_LEASE_MS || now > MAX_INT64 - op.duration then
      (e, Invalid)
    else if e.None? then
      (Some(Fresh(op.token, op.lease, now + op.duration, {})), Done)
    else
      var p := Pruned(e.value, now);
      if op.token in p.retired then
        (e, Tombstoned)
      else if p.token == op.token then
        var joined := p.(leases := p.leases[op.lease := Lease(now + op.duration, false)]);
        (Some(if Routable(p, now) then joined else Fence(joined)), Done)
      else if p.leases != map[] then
        (if HasExpired(e.value, now) then Some(p) else e, Blocked)
      else
        (Some(Fresh(op.token, op.lease, now + op.duration, p.retired + {p.token})), Done)
  }

  function DrainAt(e: Option<Entry>, now: nat, op: Op): (Option<Entry>, Outcome)
    requires op.Drain?
  {
    if e.None? || e.value.token != op.token || op.lease !in e.value.leases then
      (e, Done)
    else if e.value.leases[op.lease].expires <= now then
      (Some(Pruned(e.value, now)), Done)
    else if now > MAX_INT64 - op.duration then
      (e, Invalid)
    else
      var held := e.value.leases[op.lease].expires;
      var until := if held < now + op.duration then now + op.duration else held;
      var drained := e.value.(leases := e.value.leases[op.lease := Lease(until, true)]);
      (Some(if Routable(e.value, now) && !Routable(drained, now) then Fence(drained) else drained), Done)
  }

  function ReleaseAt(e: Option<Entry>, now: nat, op: Op): (Option<Entry>, Outcome)
    requires op.Release?
  {
    if e.None? || e.value.token != op.token then
      (e, Done)
    else
      var p := Pruned(e.value, now);
      if op.lease !in p.leases then
        (if HasExpired(e.value, now) then Some(p) else e, Done)
      else
        var left := p.(leases := p.leases - {op.lease});
        (Some(if Routable(p, now) && !Routable(left, now) then Fence(left) else left), Done)
  }

  function RetireAt(e: Option<Entry>, op: Op): (Option<Entry>, Outcome)
    requires op.Retire?
  {
    if e.None? then
      (e, Done)
    else if e.value.token != op.token then
      (e, Conflict)
    else if !e.value.active then
      (e, Done)
    else
      (Some(e.value.(active := false, retired := e.value.retired + {e.value.token})), Done)
  }

  function PruneAt(e: Option<Entry>, now: nat): Option<Entry> {
    if e.Some? && HasExpired(e.value, now) then Some(Pruned(e.value, now)) else e
  }

  /** Accepts a pong only for the exact generation, epoch and live routable lease. */
  predicate PongAccepted(e: Entry, now: nat, op: Op)
    requires op.Pong?
  {
    && e.active && e.token == op.token && e.epoch == op.epoch
    && op.lease in e.leases && IsRoutable(e.leases[op.lease], now)
  }

  function PongAt(e: Option<Entry>, now: nat, op: Op): (Option<Entry>, Outcome)
    requires op.Pong?
  {
    var p := PruneAt(e, now);
    if p.Some? && PongAccepted(p.value, now, op) then
      var last := if p.value.lastPong < op.nanos then op.nanos else p.value.lastPong;
      (Some(p.value.(lastPong := last)), Done)
    else
      (p, Done)
  }

  function HealthAt(e: Option<Entry>, now: nat): (Option<Entry>, Outcome) {
    if e.None? || !e.value.active then
      (e, NotFound)
    else
      var p := PruneAt(e, now);
      (p, if Routable(p.value, now) then Identity(p.value.token, p.value.epoch) else NotFound)
  }

  function Step(e: Option<Entry>, now: nat, op: Op): (Option<Entry>, Outcome) {
    match op
    case Register(_, _, _) => RegisterAt(e, now, op)
    case Drain(_, _, _) => DrainAt(e, now, op)
    case Release(_, _) => ReleaseAt(e, now, op)
    case Retire(_) => RetireAt(e, op)
    case Pong(_, _, _, _) => PongAt(e, now, op)
    case Prune => (PruneAt(e, now), Done)
    case Health => HealthAt(e, now)
  }

  // ---------------------------------------------------------------- the strict parser

  /** The lifecycle clauses of the strict catalog parser. */
  predicate Parses(e: Entry) {
    && e.epoch != 0
    && (forall id :: id in e.leases ==> e.leases[id].expires > 0)
    && (if e.active then e.token !in e.retired else e.token in e.retired)
  }

  /** What every reachable record satisfies: the parser's clauses, and a recorded
      pong only while a non-draining lease is stored. */
  predicate Sound(e: Option<Entry>) {
    e.Some? ==> Parses(e.value) && (e.value.lastPong != 0 ==> HasNonDraining(e.value))
  }

  lemma PrunedIsSound(e: Entry, now: nat)
    requires Sound(Some(e))
    ensures Sound(Some(Pruned(e, now)))
  {
    var p := Pruned(e, now);
    if p.lastPong != 0 {
      var kept := e.(leases := Unexpired(e.leases, now));
      var id :| id in kept.leases && IsRoutable(kept.leases[id], now);
      assert id in p.leases && !p.leases[id].draining;
    }
  }

  lemma StepKeepsSound(e: Option<Entry>, now: nat, op: Op)
    requires Sound(e)
    ensures Sound(Step(e, now, op).0)
  {
    if e.Some? {
      PrunedIsSound(e.value, now);
      match op {
        case Register(_, lease, _) => RegisterKeepsPong(e.value, now, op);
        case Drain(_, _, _) => DrainKeepsPong(e.value, now, op);
        case Release(_, _) => ReleaseKeepsPong(e.value, now, op);
        case Pong(_, _, _, _) =>
        case _ =>
      }
    }
  }

  lemma RegisterKeepsPong(e: Entry, now: nat, op: Op)
    requires op.Register? && Sound(Some(e)) && Sound(Some(Pruned(e, now)))
    ensures Sound(RegisterAt(Some(e), now, op).0)
  {
    var r := RegisterAt(Some(e), now, op).0.value;
    if op.lease in r.leases && !r.leases[op.lease].draining {
      assert HasNonDraining(r);
    }
  }

  lemma DrainKeepsPong(e: Entry, now: nat, op: Op)
    requires op.Drain? && Sound(Some(e)) && Sound(Some(Pruned(e, now)))
    ensures Sound(DrainAt(Some(e), now, op).0)
  {
    var r := DrainAt(Some(e), now, op).0.value;
    if r.lastPong != 0 && r != e && r != Pruned(e, now) {
      if Routable(r, now) {
        var id :| id in r.leases && IsRoutable(r.leases[id], now);
      } else {
        var id :| id in e.leases && !e.leases[id].draining;
        assert !IsRoutable(e.leases[op.lease], now);
        assert id in r.leases && id != op.lease;
      }
    }
  }

  lemma ReleaseKeepsPong(e: Entry, now: nat, op: Op)
    requires op.Release? && Sound(Some(e)) && Sound(Some(Pruned(e, now)))
    ensures Sound(ReleaseAt(Some(e), now, op).0)
  {
    var r := ReleaseAt(Some(e), now, op).0.value;
    var p := Pruned(e, now);
    if r.lastPong != 0 && r != e && r != p && Routable(r, now) {
      var id :| id in r.leases && IsRoutable(r.leases[id], now);
    }
  }

  // ---------------------------------------------------------------- runs

  datatype Commit = Commit(now: nat, op: Op)

  /** Successive commits read a nondecreasing clock that starts at `from`. */
  predicate Timed(from: nat, run: seq<Commit>)
    decreases run
  {
    run != [] ==> from <= run[0].now && Timed(run[0].now, run[1..])
  }

  function EndTime(from: nat, run: seq<Commit>): nat
    decreases run
  {
    if run == [] then from else EndTime(run[0].now, run[1..])
  }

  function Run(e: Option<Entry>, run: seq<Commit>): Option<Entry>
    decreases run
  {
    if run == [] then e else Run(Step(e, run[0].now, run[0].op).0, run[1..])
  }

  /** Every record any run of commits can store passes the strict parser, and its
      recorded pong belongs to a stored non-draining lease. */
  lemma {:induction false} RunKeepsSound(e: Option<Entry>, run: seq<Commit>)
    requires Sound(e)
    ensures Sound(Run(e, run))
    decreases run
  {
    if run != [] {
      StepKeepsSound(e, run[0].now, run[0].op);
      RunKeepsSound(Step(e, run[0].now, run[0].op).0, run[1..]);
    }
  }

  /** `f` is a later record of the toolset than `e`: tombstones only grow, a
      replaced generation is tombstoned, and within one generation the epoch never
      decreases and retirement is final. */
  predicate Succeeds(e: Option<Entry>, f: Option<Entry>) {
    e.Some? ==>
      && f.Some?
      && e.value.retired <= f.value.retired
      && (forall t :: t in e.value.retired && t != e.value.token ==> t != f.value.token)
      && (if e.value.token == f.value.token
          then e.value.epoch <= f.value.epoch && (f.value.active ==> e.value.active)
          else e.value.token in f.value.retired)
  }

  lemma StepSucceeds(e: Option<Entry>, now: nat, op: Op)
    requires Sound(e)
    ensures Succeeds(e, Step(e, now, op).0)
  {
    if e.Some? {
      if op.Register? {
        RegisterSucceeds(e.value, now, op);
      } else if op.Drain? {
        assert Succeeds(e, DrainAt(e, now, op).0);
      } else if op.Release? {
        assert Succeeds(e, ReleaseAt(e, now, op).0);
      }
    }
  }

  lemma RegisterSucceeds(e: Entry, now: nat, op: Op)
    requires op.Register? && Sound(Some(e))
    ensures Succeeds(Some(e), RegisterAt(Some(e), now, op).0)
  {
  }

  lemma {:induction false} RunSucceeds(e: Option<Entry>, run: seq<Commit>)
    requires Sound(e)
    ensures Succeeds(e, Run(e, run))
    decreases run
  {
    if run != [] {
      var m := Step(e, run[0].now, run[0].op).0;
      StepKeepsSound(e, run[0].now, run[0].op);
      StepSucceeds(e, run[0].now, run[0].op);
      RunSucceeds(m, run[1..]);
      SuccessionComposes(e, m, Run(m, run[1..]));
    }
  }

  lemma SuccessionComposes(e: Option<Entry>, m: Option<Entry>, f: Option<Entry>)
    requires Succeeds(e, m) && Succeeds(m, f)
    ensures Succeeds(e, f)
  {
  }

  /** A generation that was retired or replaced at some point of a run is never the
      active generation at any later point. */
  lemma {:induction false} RetiredNeverReturns(e: Option<Entry>, before: seq<Commit>, after: seq<Commit>, token: Token)
    requires Sound(e)
    requires var m := Run(e, before); m.Some? && (token in m.value.retired)
    ensures var f := Run(Run(e, before), after); f.Some? && !(f.value.active && f.value.token == token)
  {
    RunKeepsSound(e, before);
    RunSucceeds(Run(e, before), after);
    RunKeepsSound(Run(e, before), after);
  }

  /** A different generation takes over exactly when a valid registration of an
      untombstoned token finds no unexpired lease. */
  lemma TakeoverExactly(e: Entry, now: nat, op: Op)
    requires Sound(Some(e))
    ensures Step(Some(e), now, op).0.value.token != e.token <==>
              && op.Register? && op.token != e.token && op.token !in e.retired
              && MIN_LEASE_MS <= op.duration <= MAX_LEASE_MS && now <= MAX_INT64 - op.duration
              && forall id :: id in e.leases ==> e.leases[id].expires <= now
  {
    var kept := Unexpired(e.leases, now);
    if forall id :: id in e.leases ==> e.leases[id].expires <= now {
      assert kept == map[];
    } else {
      var id :| id in e.leases && e.leases[id].expires > now;
      assert id in kept;
    }
  }

  // ---------------------------------------------------------------- the epoch fence

  /** Since a moment without routable members in generation `token` at `epoch`: the
      generation is gone, the epoch has moved on, or nobody has become routable. */
  predicate Fenced(token: Token, epoch: nat, e: Option<Entry>, now: nat) {
    && e.Some?
    && (e.value.token != token ==> token in e.value.retired)
    && (e.value.token == token ==> e.value.epoch >= epoch && (e.value.epoch > epoch || !Routable(e.value, now)))
  }

  lemma StepKeepsFence(token: Token, epoch: nat, e: Option<Entry>, from: nat, now: nat, op: Op)
    requires Sound(e) && Fenced(token, epoch, e, from) && from <= now
    ensures Fenced(token, epoch, Step(e, now, op).0, now)
  {
    StepSucceeds(e, now, op);
    var f := Step(e, now, op).0;
    if f.value.token == e.value.token == token && f.value.epoch == e.value.epoch && Routable(f.value, now) {
      var id := NoNewMember(e.value, now, op);
      assert IsRoutable(e.value.leases[id], from);
    }
    FenceHolds(token, epoch, e.value, from, f.value, now);
  }

  lemma FenceHolds(token: Token, epoch: nat, e: Entry, from: nat, f: Entry, now: nat)
    requires Fenced(token, epoch, Some(e), from) && Succeeds(Some(e), Some(f))
    requires f.token == e.token == token && f.epoch == e.epoch && Routable(f, now) ==> Routable(e, from)
    ensures Fenced(token, epoch, Some(f), now)
  {
  }

  /** Inside one generation and one epoch, a commit makes nobody routable who was
      not routable already. */
  lemma NoNewMember(e: Entry, now: nat, op: Op) returns (id: LeaseId)
    requires var f := Step(Some(e), now, op).0.value;
             f.token == e.token && f.epoch == e.epoch && Routable(f, now)
    ensures id in e.leases && IsRoutable(e.leases[id], now)
  {
    var f := Step(Some(e), now, op).0.value;
    if op.Register? && Routable(Pruned(e, now), now) {
      var p := Pruned(e, now);
      id :| id in p.leases && IsRoutable(p.leases[id], now);
    } else {
      id :| id in f.leases && IsRoutable(f.leases[id], now);
    }
  }

  lemma {:induction false} RunKeepsFence(token: Token, epoch: nat, e: Option<Entry>, from: nat, run: seq<Commit>)
    requires Sound(e) && Fenced(token, epoch, e, from) && Timed(from, run)
    ensures Fenced(token, epoch, Run(e, run), EndTime(from, run))
    decreases run
  {
    if run != [] {
      var m := Step(e, run[0].now, run[0].op).0;
      StepKeepsFence(token, epoch, e, from, run[0].now, run[0].op);
      StepKeepsSound(e, run[0].now, run[0].op);
      RunKeepsFence(token, epoch, m, run[0].now, run[1..]);
    }
  }

  /** After a moment without routable members, any later moment of the same
      generation with routable members has a strictly larger epoch. */
  lemma GapRaisesEpoch(e: Entry, gap: nat, run: seq<Commit>, later: nat)
    requires Sound(Some(e)) && !Routable(e, gap) && Timed(gap, run) && EndTime(gap, run) <= later
    requires var f := Run(Some(e), run); f.Some? && f.value.token == e.token && Routable(f.value, later)
    ensures Run(Some(e), run).value.epoch > e.epoch
  {
    RunKeepsFence(e.token, e.epoch, Some(e), gap, run);
    var f := Run(Some(e), run).value;
    var id :| id in f.leases && IsRoutable(f.leases[id], later);
    assert IsRoutable(f.leases[id], EndTime(gap, run));
  }

  /** A pong answering a ping that was issued before a moment without routable
      members is never recorded, whatever was committed in between. */
  lemma PongAcrossGapIgnored(
      e: Option<Entry>, pinged: nat, before: seq<Commit>, gap: nat, after: seq<Commit>, now: nat,
      lease: LeaseId, nanos: nat)
    requires Sound(e)
    requires HealthAt(e, pinged).1.Identity?
    requires Timed(pinged, before) && EndTime(pinged, before) <= gap
    requires var m := Run(HealthAt(e, pinged).0, before); m.Some? && !Routable(m.value, gap)
    requires Timed(gap, after) && EndTime(gap, after) <= now
    ensures var ping := HealthAt(e, pinged).1;
            var f := Run(Run(HealthAt(e, pinged).0, before), after);
            PongAt(f, now, Pong(ping.token, lease, ping.epoch, nanos)).0 == PruneAt(f, now)
  {
    var ping := HealthAt(e, pinged).1;
    var s := HealthAt(e, pinged).0;
    StepKeepsSound(e, pinged, Health);
    RunKeepsSound(s, before);
    RunSucceeds(s, before);
    var m := Run(s, before);
    assert Fenced(ping.token, ping.epoch, m, gap);
    RunKeepsFence(ping.token, ping.epoch, m, gap, after);
    RunKeepsSound(m, after);
    FencedPongIgnored(ping.token, ping.epoch, Run(m, after), EndTime(gap, after), now, lease, nanos);
  }

  /** Behind the fence no pong of the old epoch is recorded. */
  lemma FencedPongIgnored(token: Token, epoch: nat, f: Option<Entry>, from: nat, now: nat, lease: LeaseId, nanos: nat)
    requires Sound(f) && Fenced(token, epoch, f, from) && from <= now
    ensures PongAt(f, now, Pong(token, lease, epoch, nanos)).0 == PruneAt(f, now)
  {
    StepKeepsFence(token, epoch, f, from, now, Prune);
    var p := PruneAt(f, now).value;
    assert lease in p.leases && IsRoutable(p.leases[lease], now) ==> Routable(p, now);
  }

  // ---------------------------------------------------------------- leases over time

  /** A commit stores no lease beyond its clock plus the largest duration, and the
      record stays with its toolset. */
  lemma StepBoundsLeases(e: Option<Entry>, now: nat, op: Op, toolset: string)
    requires Bounded(e, now, toolset)
    requires op.Register? ==> op.token.toolset == toolset
    requires op.Drain? ==> op.duration <= MAX_LEASE_MS
    ensures Bounded(Step(e, now, op).0, now, toolset)
  {
    if e.Some? {
      assert Bounded(Some(Pruned(e.value, now)), now, toolset);
    }
    if op.Register? {
      assert Bounded(RegisterAt(e, now, op).0, now, toolset);
    } else if op.Drain? {
      assert Bounded(DrainAt(e, now, op).0, now, toolset);
    } else if op.Release? {
      assert Bounded(ReleaseAt(e, now, op).0, now, toolset);
    }
  }

  predicate Bounded(e: Option<Entry>, now: nat, toolset: string) {
    e.Some? ==>
      && e.value.token.toolset == toolset
      && forall id :: id in e.value.leases ==> e.value.leases[id].expires <= now + MAX_LEASE_MS
  }

  /** Only a registration of the same incarnation under the same token makes a lease
      live again. */
  lemma OnlyRegistrationRevives(e: Option<Entry>, now: nat, op: Op, token: Token, lease: LeaseId)
    requires !LeaseLive(e, token, lease, now)
    requires op.Register? ==> op.token != token || op.lease != lease
    ensures !LeaseLive(Step(e, now, op).0, token, lease, now)
  {
  }

  lemma ReleaseEndsLease(e: Option<Entry>, now: nat, token: Token, lease: LeaseId)
    ensures !LeaseLive(Step(e, now, Release(token, lease)).0, token, lease, now)
  {
  }
}
