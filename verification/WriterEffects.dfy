/** When the attempt writer accepts a call, what it answers otherwise, and what it leaves. */
module WriterEffects {
  import opened Basics
  import opened Collections
  import opened AttemptLog
  import opened FinalLog
  import opened AttemptWriter

  // ---------------------------------------------------------------- appending

  /** The line reached the file whole and was synced. */
  predicate Stored(c: Codec, a: Attempt, e: AppendChance) {
    e.encoded && |Line(c, a)| <= e.count && e.synced
  }

  /** Nothing is wrong with the attempt: the writer is usable, it was planned and not
      written yet, and it is of the right kind and prepared. */
  ghost predicate Appendable(w: Writer, a: Attempt, prepared: bool) {
    w.err.None? && !w.finished && Planned(w.keys, a) && a.index !in w.order && a.kind == w.kind && prepared
  }

  /** An append returns no error exactly when nothing is wrong with the attempt and the
      file system did its part, and then the line is in the log and in the order. */
  lemma AppendsExactly(c: Codec, w: Writer, a: Attempt, e: AppendChance)
    requires Good(c, w)
    ensures var (w', err) := Step(c, w, Append(a, e));
            && (err.None? <==> Appendable(w, a, e.prepared) && Stored(c, a, e))
            && (err.None? ==>
                  && w'.log == w.log + Line(c, a) && w'.durable == w.durable + [a] && w'.order == w.order + [a.index]
                  && w' == w.(log := w'.log, durable := w'.durable, order := w'.order,
                    written := w.written + {a.index}))
  {
    assert w.err.None? && !w.finished ==> (a.index in w.written <==> a.index in w.order);
  }

  /** What else an append answers. Only a failure of the file system is kept, with the
      bytes that reached the file; a refusal changes nothing. */
  lemma AppendAnswers(c: Codec, w: Writer, a: Attempt, e: AppendChance)
    requires Good(c, w) && Step(c, w, Append(a, e)).1.Some?
    ensures var (w', err) := Step(c, w, Append(a, e));
            if w.err.Some? then err == w.err && w' == w
            else if w.finished then err == Some(WriterFinished) && w' == w
            else if !Planned(w.keys, a) then err == Some(NotPlanned) && w' == w
            else if a.index in w.order then err == Some(Duplicate) && w' == w
            else if a.kind != w.kind || !e.prepared then err == Some(NotPrepared) && w' == w
            else
              && err == w'.err == Some(Persistence(e.code)) && w'.order == w.order && w'.durable == w.durable
              && w'.log == if e.encoded then w.log + Cut(c, a, e.count) else w.log
  {
    assert w.err.None? && !w.finished ==> (a.index in w.written <==> a.index in w.order);
    assert Line(c, a)[..|Line(c, a)|] == Line(c, a);
  }

  // ---------------------------------------------------------------- finishing

  /** Record `i` is planned and no earlier one has its index. */
  ghost predicate InPlan(keys: seq<Key>, attempts: seq<Attempt>, i: nat)
    requires i < |attempts|
  {
    Planned(keys, attempts[i]) && forall j :: 0 <= j < i ==> attempts[j].index != attempts[i].index
  }

  ghost predicate Fitting(w: Writer, attempts: seq<Attempt>, i: nat, prepared: bool)
    requires i < |attempts|
  {
    InPlan(w.keys, attempts, i) && attempts[i].kind == w.kind && prepared
  }

  lemma IndicesAre(attempts: seq<Attempt>, n: nat, x: int)
    requires n <= |attempts|
    ensures x in Indices(attempts[..n]) <==> exists j :: 0 <= j < n && attempts[j].index == x
  {
    if x in Indices(attempts[..n]) {
      var a :| a in attempts[..n] && a.index == x;
      var j :| 0 <= j < n && attempts[..n][j] == a;
      assert attempts[j].index == x;
    }
    if j :| 0 <= j < n && attempts[j].index == x {
      assert attempts[..n][j] in attempts[..n];
    }
  }

  lemma {:induction false} RecordsAccepted(w: Writer, attempts: seq<Attempt>, n: nat, prepared: bool)
    requires n <= |attempts|
    ensures RefusesRecords(w, attempts, n, prepared).None? <==>
            forall i :: 0 <= i < n ==> Fitting(w, attempts, i, prepared)
  {
    if n > 0 {
      RecordsAccepted(w, attempts, n - 1, prepared);
      FitsNext(w, attempts, n - 1, prepared);
    }
  }

  lemma FitsNext(w: Writer, attempts: seq<Attempt>, n: nat, prepared: bool)
    requires n < |attempts|
    ensures RefusesRecords(w, attempts, n + 1, prepared).None? <==>
            RefusesRecords(w, attempts, n, prepared).None? && Fitting(w, attempts, n, prepared)
  {
    RefusesNextExactly(w, attempts, n);
  }

  lemma RefusesNextExactly(w: Writer, attempts: seq<Attempt>, n: nat)
    requires n < |attempts|
    ensures InPlan(w.keys, attempts, n) <==>
            Planned(w.keys, attempts[n]) && attempts[n].index !in Indices(attempts[..n])
  {
    IndicesAre(attempts, n, attempts[n].index);
  }

  /** The records are refused for the first that does not fit: because it is not planned,
      or comes again, or else because of its kind or preparation. */
  lemma {:induction false} RecordsRefused(w: Writer, attempts: seq<Attempt>, n: nat, prepared: bool) returns (i: nat)
    requires n <= |attempts| && RefusesRecords(w, attempts, n, prepared).Some?
    ensures i < n && !Fitting(w, attempts, i, prepared) && forall j :: 0 <= j < i ==> Fitting(w, attempts, j, prepared)
    ensures RefusesRecords(w, attempts, n, prepared) ==
            Some(if InPlan(w.keys, attempts, i) then NotPrepared else NotPlanned)
  {
    if RefusesRecords(w, attempts, n - 1, prepared).Some? {
      i := RecordsRefused(w, attempts, n - 1, prepared);
    } else {
      i := n - 1;
      RecordsAccepted(w, attempts, n - 1, prepared);
      RefusesNextExactly(w, attempts, n - 1);
    }
  }

  /** Nothing is wrong with the report: the writer is usable, and it is the plan's, one
      record for each planned attempt, of the right kind and prepared. */
  ghost predicate Finishable(w: Writer, r: Report, prepared: bool) {
    && w.err.None? && !w.finished && r.kind == w.kind && Complete(w.keys, w.kind, r.attempts)
    && (r.attempts != [] ==> prepared)
  }

  lemma RefusesExactly(w: Writer, r: Report, prepared: bool)
    ensures RefusesFinish(w, r, prepared).None? <==> Finishable(w, r, prepared)
  {
    RecordsAccepted(w, r.attempts, |r.attempts|, prepared);
    IndexSeqDistinct(r.attempts);
    if RefusesFinish(w, r, prepared).None? {
      CompleteIfAccepted(w, r, prepared);
      assert r.attempts != [] ==> Fitting(w, r.attempts, 0, prepared);
    }
  }

  /** A finish returns no error exactly when nothing is wrong with the report and every
      step of the replacement and of the header succeeded; then the log is the report in
      its final order, and the writer is finished. */
  lemma FinishesExactly(c: Codec, w: Writer, r: Report, e: FinishChance)
    requires Good(c, w)
    ensures var (w', err) := Step(c, w, Finish(r, e));
            && (err.None? <==> Finishable(w, r, e.prepared) && e.staged && e.renamed && e.synced && e.headed)
            && (err.None? ==>
                  && w'.finished && w'.err.None? && w'.durable == Final(r.attempts, w.order, Elements(w.order))
                  && w'.log == Content(c, w'.durable, "") && w'.order == w.order)
  {
    RefusesExactly(w, r, e.prepared);
  }

  /** What else a finish answers: a refusal changes nothing; a failure is kept, before the
      rename with the old log, after it with the new one. */
  lemma FinishAnswers(c: Codec, w: Writer, r: Report, e: FinishChance)
    requires Good(c, w) && Step(c, w, Finish(r, e)).1.Some?
    ensures var (w', err) := Step(c, w, Finish(r, e));
            if Finishable(w, r, e.prepared) then
              && err == w'.err == Some(Persistence(e.code)) && !w'.finished && w'.order == w.order
              && w'.log == (if e.staged && e.renamed then Content(c, Final(r.attempts, w.order, Elements(w.order)), "")
                            else w.log)
            else
              && w' == w
              && (w.err.Some? ==> err == w.err)
              && (w.err.None? && w.finished ==> err == Some(WriterFinished))
              && (w.err.None? && !w.finished && (r.kind != w.kind || |r.attempts| != |w.keys|) ==>
                err == Some(NotPlanned))
              && (w.err.None? && !w.finished && r.kind == w.kind && |r.attempts| == |w.keys| ==>
                    exists i :: 0 <= i < |r.attempts| && !Fitting(w, r.attempts, i, e.prepared)
                                && (forall j :: 0 <= j < i ==> Fitting(w, r.attempts, j, e.prepared))
                                && err == Some(if InPlan(w.keys, r.attempts, i) then NotPrepared else NotPlanned))
  {
    RefusesExactly(w, r, e.prepared);
    if RefusesRecords(w, r.attempts, |r.attempts|, e.prepared).Some? {
      var i := RecordsRefused(w, r.attempts, |r.attempts|, e.prepared);
    }
  }

  // ---------------------------------------------------------------- the final order

  /** What the stream missed follows in report order. */
  lemma {:induction false} MissingInOrder(report: seq<Attempt>, written: set<int>, i: nat, j: nat)
      returns (p: nat, q: nat)
    requires i < j < |Missing(report, written)|
    ensures p < q < |report| && report[p] == Missing(report, written)[i] && report[q] == Missing(report, written)[j]
  {
    var n := |report| - 1;
    var rest := Missing(report[..n], written);
    if j < |rest| {
      p, q := MissingInOrder(report[..n], written, i, j);
    } else {
      MissingMembers(report[..n], written);
      assert rest[i] in rest;
      p :| 0 <= p < n && report[..n][p] == rest[i];
      q := n;
    }
  }

  ghost predicate Follows(report: seq<Attempt>, a: Attempt, b: Attempt) {
    exists p: nat, q: nat :: p < q < |report| && report[p] == a && report[q] == b
  }

  /** The final log is what was streamed, in that order, then the rest in report order. */
  lemma FinalInOrder(keys: seq<Key>, kind: Kind, report: seq<Attempt>, order: seq<int>)
    requires Complete(keys, kind, report) && forall i :: 0 <= i < |order| ==> 0 <= order[i] < |keys|
    ensures var f := Final(report, order, Elements(order));
            && |order| <= |f|
            && (forall i :: 0 <= i < |order| ==> f[i] in report && f[i].index == order[i])
            && forall i, j :: |order| <= i < j < |f| ==> Follows(report, f[i], f[j])
  {
    var f, missing := Final(report, order, Elements(order)), Missing(report, Elements(order));
    PickedExactly(keys, kind, report, order);
    forall i, j | |order| <= i < j < |f|
      ensures Follows(report, f[i], f[j])
    {
      var p, q := MissingInOrder(report, Elements(order), i - |order|, j - |order|);
      assert report[p] == f[i] && report[q] == f[j];
    }
  }
}
