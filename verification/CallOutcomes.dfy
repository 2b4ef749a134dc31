/** What callers and providers can rely on over whole runs: a published call is offered to
    somebody who serves it, and the result a provider got accepted is the call's result
    until the call expires. */
module CallOutcomes {
  import opened Basics
  import opened StreamIds
  import opened CallRecord
  import opened CallScripts
  import opened CallInvariants
  import opened CallRuns
  import opened CallSafety
  import opened CallSettlement
  import opened CallEffects
  import C = Catalog
  import Q = RequestQueue

  // ---------------------------------------------------------------- queues

  ghost predicate QueuesGood(s: State) {
    forall t :: Q.Valid(QueueOf(s, t))
  }

  /** Only consumers and publications change a queue. */
  lemma QueueAfter(s: State, e: Event, t: string)
    ensures var q := QueueOf(s, t);
            || QueueOf(Apply(s, e), t) == q
            || (e.QueueOp? && QueueOf(Apply(s, e), t) == Q.Apply(q, e.step))
            || (e.Publishing? && QueueOf(Apply(s, e), t) == Q.PublishAt(q, e.bound, s.now, e.snapshot.key, e.trim).0)
  {
  }

  lemma StepKeepsQueue(s: State, e: Event, t: string)
    requires Q.Valid(QueueOf(s, t))
    ensures Q.Valid(QueueOf(Apply(s, e), t))
  {
    QueueAfter(s, e, t);
    if e.QueueOp? {
      Q.StepKeepsValid(QueueOf(s, t), e.step);
    } else if e.Publishing? {
      Q.PublishConserves(QueueOf(s, t), e.bound, s.now, e.snapshot.key, e.trim);
    }
  }

  lemma StepKeepsQueues(s: State, e: Event)
    requires QueuesGood(s)
    ensures QueuesGood(Apply(s, e))
  {
    forall t
      ensures Q.Valid(QueueOf(Apply(s, e), t))
    {
      StepKeepsQueue(s, e, t);
    }
  }

  /** Every toolset's queue is in order and serves its groups in every state of a run. */
  lemma {:induction false} RunKeepsQueues(s: State, run: seq<Event>)
    requires QueuesGood(s)
    ensures QueuesGood(Run(s, run))
    decreases run
  {
    if run != [] {
      StepKeepsQueues(s, run[0]);
      RunKeepsQueues(Apply(s, run[0]), run[1..]);
    }
  }

  /** In every state any run reaches from the empty store, each group of each toolset finds
      all its unread and pending entries stored. */
  lemma ReachableQueuesServe(run: seq<Event>, toolset: string, i: nat)
    requires i < |QueueOf(Run(START, run), toolset).groups|
    ensures var q := QueueOf(Run(START, run), toolset);
            Q.Valid(q) && Q.Outstanding(q.entries, q.groups[i]) <= Q.Ids(q.entries)
  {
    RunKeepsQueues(START, run);
    assert Q.Valid(QueueOf(Run(START, run), toolset));
  }

  // ---------------------------------------------------------------- publication

  /** Every group's unread and pending entries, or the stream without groups, are fewer
      than the bound; there is always room without one. */
  predicate HasRoom(q: Q.Queue, bound: nat) {
    || bound == 0
    || (if q.groups == [] then |q.entries| < bound
        else forall i :: 0 <= i < |q.groups| ==> Q.Exact(q.entries, q.groups[i]) < bound)
  }

  /** The call's request is wanted, its publisher's generation serves, and there is room. */
  predicate Publishable(s: State, e: Event)
    requires e.Publishing?
  {
    var c := CellOf(s, e.snapshot.key).call;
    && c.Some? && c.value.Admitted? && s.now <= c.value.r.expires
    && Wanted(c.value.r, s.now, e.snapshot.digest, e.overload)
    && Offered(EntryOf(s, e.snapshot.digest.toolset), e.snapshot.token, s.now)
    && HasRoom(QueueOf(s, e.snapshot.digest.toolset), e.bound)
  }

  lemma PublishesWhenPublishable(s: State, e: Event)
    requires e.Publishing?
    ensures Publishes(s, e) <==> Publishable(s, e)
  {
    var c, q := CellOf(s, e.snapshot.key), QueueOf(s, e.snapshot.digest.toolset);
    var entry := EntryOf(s, e.snapshot.digest.toolset);
    GateOpensExactly(c, s.now, entry, e.snapshot.digest, e.overload, e.snapshot.token);
    Q.AppendsExactlyBelowBound(q, e.bound, s.now, e.snapshot.key, e.trim);
    if c.call.Some? && c.call.value.Admitted? {
      assert Shows(c, s.now, c.call.value.r) <==> s.now <= c.call.value.r.expires;
    }
  }

  /** A publication appends the call's key to its toolset's queue and commits the request
      in the record exactly when it is publishable; otherwise it changes neither. A full
      queue answers 0. */
  lemma PublishesExactly(s: State, e: Event)
    requires Good(s) && QueuesGood(s) && Enabled(s, e) && e.Publishing?
    ensures var k, toolset := e.snapshot.key, e.snapshot.digest.toolset;
            var c, q, t, reply := CellOf(s, k), QueueOf(s, toolset), Apply(s, e), OnCell(s, e).1;
            && ((reply.StatusId? && reply.n == 1) <==> Publishable(s, e))
            && if Publishable(s, e) then
                 var q' := QueueOf(t, toolset);
                 var r, id := c.call.value.r, q'.last;
                 && reply == StatusId(1, Some(id)) && Before(q.last, id)
                 && |q'.entries| > 0 && q'.entries[|q'.entries| - 1] == Q.Entry(id, k) && q'.groups == q.groups
                 && CellOf(t, k) == c.(call := Some(Admitted(r.(published := true, overload := e.overload,
                                                                publication := Some(id), claims := r.claims + {id}))))
               else CellOf(t, k) == c && QueueOf(t, toolset) == q
  {
    var toolset := e.snapshot.digest.toolset;
    PublishesWhenPublishable(s, e);
    assert Q.Valid(QueueOf(s, toolset));
    var n := Q.PublishesExactly(QueueOf(s, toolset), e.bound, s.now, e.snapshot.key, e.trim);
    var c := CellOf(s, e.snapshot.key);
    var entry := EntryOf(s, toolset);
    if PublishGate(c, s.now, entry, e.snapshot.digest, e.overload, e.snapshot.token).Some? {
      GateAnswersNotOne(c, s.now, entry, e.snapshot.digest, e.overload, e.snapshot.token);
    }
  }

  lemma GateAnswersNotOne(c: Cell, now: nat, entry: Option<C.Entry>, digest: Digest, overload: Option<StreamId>,
      token: C.Token)
    requires PublishGate(c, now, entry, digest, overload, token).Some?
    ensures var reply := PublishGate(c, now, entry, digest, overload, token).value; !(reply.StatusId? && reply.n <= 1)
  {
  }

  /** When the gates are open and the queue is full, the answer is 0. */
  lemma FullQueueAnswers(s: State, e: Event)
    requires Enabled(s, e) && e.Publishing? && !HasRoom(QueueOf(s, e.snapshot.digest.toolset), e.bound)
    requires var c := CellOf(s, e.snapshot.key).call;
             && c.Some? && c.value.Admitted? && s.now <= c.value.r.expires
             && Wanted(c.value.r, s.now, e.snapshot.digest, e.overload)
    requires Offered(EntryOf(s, e.snapshot.digest.toolset), e.snapshot.token, s.now)
    ensures OnCell(s, e).1 == StatusId(0, None)
  {
    var c, q := CellOf(s, e.snapshot.key), QueueOf(s, e.snapshot.digest.toolset);
    assert Shows(c, s.now, c.call.value.r);
    GateOpensExactly(c, s.now, EntryOf(s, e.snapshot.digest.toolset), e.snapshot.digest, e.overload, e.snapshot.token);
    Q.AppendsExactlyBelowBound(q, e.bound, s.now, e.snapshot.key, e.trim);
  }

  // ---------------------------------------------------------------- results

  predicate Accepted(reply: Reply) {
    reply.StatusId? && reply.n == 1
  }

  lemma AcceptedEnds(s: State, e: Event)
    requires Good(s) && Enabled(s, e) && e.Completing? && Accepted(OnCell(s, e).1)
    ensures var c, d := CellOf(s, e.key), CellOf(Apply(s, e), e.key);
            && c.call.Some? && c.call.value.Admitted? && !c.call.value.r.terminal
            && Owns(c, s.now, EntryOf(s, e.toolset), e.key, e.callToken, e.token, e.lease, e.request, c.call.value.r)
            && Ends(c, d, c.call.value.r, s.now, e.payload, Provider) && TerminalHeld(d)
            && OnCell(s, e).1 == StatusId(1, d.call.value.r.terminalEvent)
  {
    var c, entry := CellOf(s, e.key), EntryOf(s, e.toolset);
    assert Ready(c, e.key, s.births);
    CompletionAccepted(c, s.now, entry, e.key, e.callToken, e.token, e.lease, e.request, e.payload);
    CompletesExactly(c, s.now, entry, e.key, e.callToken, e.token, e.lease, e.request, e.payload, c.call.value.r);
    ApplyAt(s, e, e.key);
  }

  /** Once a completion was accepted, its payload is the call's result in every later state
      of every run until the call expires, and the newest event of the result stream
      unless that is lost. */
  lemma AcceptedResultStays(s: State, e: Event, run: seq<Event>)
    requires Good(s) && Enabled(s, e) && e.Completing? && Accepted(OnCell(s, e).1)
    ensures CellOf(s, e.key).call.Some?
    ensures var t := Run(Apply(s, e), run);
            var d := CellOf(t, e.key);
            t.now <= ExpiresAt(CellOf(s, e.key).call.value) ==>
              && d.call.Some? && d.call.value.Admitted?
              && d.call.value.r.terminalPayload == Some(e.payload) && d.call.value.r.terminalCause == Some(Provider)
              && ((forall i :: 0 <= i < |run| ==> !LosesResults(run[i], e.key)) ==>
                    |d.results.events| > 0 && d.results.events[|d.results.events| - 1].payload == e.payload)
  {
    AcceptedEnds(s, e);
    StepKeepsGood(s, e);
    TerminalIsFinal(Apply(s, e), run, e.key);
    if forall i :: 0 <= i < |run| ==> !LosesResults(run[i], e.key) {
      TerminalStaysInStream(Apply(s, e), run, e.key);
    }
  }

  /** The provider that repeats an accepted completion later, while its lease stands, gets
      it confirmed under the event it was recorded as; with another payload it conflicts. */
  lemma RepeatIsConfirmed(s: State, e: Event, run: seq<Event>, payload: Payload)
    requires Good(s) && Enabled(s, e) && e.Completing? && Accepted(OnCell(s, e).1)
    requires var t := Run(Apply(s, e), run);
             Stands(EntryOf(t, e.toolset), e.token, e.lease, t.now)
               && t.now < ExpiresAt(CellOf(Apply(s, e), e.key).call.value)
    ensures var t := Run(Apply(s, e), run);
            var c := CellOf(t, e.key);
            && c.call.Some? && c.call.value.Admitted?
            && Complete(c, t.now, EntryOf(t, e.toolset), e.key, e.callToken, e.token, e.lease, e.request, payload) ==
               (c, if payload == e.payload then StatusId(0, c.call.value.r.terminalEvent)
                 else Error("TERMINALCONFLICT"))
  {
    AcceptedEnds(s, e);
    StepKeepsGood(s, e);
    TerminalIsFinal(Apply(s, e), run, e.key);
    DecisionIsRetained(Apply(s, e), run, e.key);
    RunKeepsGood(Apply(s, e), run);
    var t := Run(Apply(s, e), run);
    var c := CellOf(t, e.key);
    assert Ready(c, e.key, t.births);
    CompletionRepeats(c, t.now, EntryOf(t, e.toolset), e.key, e.callToken, e.token, e.lease, e.request, payload,
      c.call.value.r);
  }
}
