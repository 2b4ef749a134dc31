/** The writer of an attempt log: appends, the final replacement, and what a crash at any
    point of any run leaves to be loaded. */
module FinalLog {
  import opened Basics
  import opened Collections
  import opened AttemptLog

  function Elements(s: seq<int>): set<int> {
    set x | x in s
  }

  function IndexSeq(s: seq<Attempt>): (r: seq<int>)
    ensures |r| == |s| && forall i :: 0 <= i < |s| ==> r[i] == s[i].index
  {
    if s == [] then [] else IndexSeq(s[..|s| - 1]) + [s[|s| - 1].index]
  }

  /** A report the code accepts: one record per planned attempt, under its key. */
  ghost predicate Planned(keys: seq<Key>, a: Attempt) {
    0 <= a.index < |keys| && keys[a.index] == a.key
  }

  ghost predicate Complete(keys: seq<Key>, kind: Kind, report: seq<Attempt>) {
    && |report| == |keys|
    && (forall i :: 0 <= i < |report| ==> Planned(keys, report[i]) && report[i].kind == kind)
    && Distinct(IndexSeq(report))
  }

  function Find(report: seq<Attempt>, index: int): Option<Attempt> {
    if report == [] then None
    else if report[|report| - 1].index == index then Some(report[|report| - 1])
    else Find(report[..|report| - 1], index)
  }

  /** The records the report has for the indices in `order`. */
  function Picked(report: seq<Attempt>, order: seq<int>): seq<Attempt> {
    if order == [] then []
    else
      var rest := Picked(report, order[..|order| - 1]);
      var found := Find(report, order[|order| - 1]);
      if found.None? then rest else rest + [found.value]
  }

  /** The records of the report whose indices were not written, in report order. */
  function Missing(report: seq<Attempt>, written: set<int>): seq<Attempt> {
    if report == [] then []
    else
      var rest := Missing(report[..|report| - 1], written);
      if report[|report| - 1].index in written then rest else rest + [report[|report| - 1]]
  }

  lemma {:induction false} MissingMembers(report: seq<Attempt>, written: set<int>)
    ensures forall a :: a in Missing(report, written) <==> a in report && a.index !in written
  {
    if report != [] {
      MissingMembers(report[..|report| - 1], written);
      assert report == report[..|report| - 1] + [report[|report| - 1]];
    }
  }

  ghost predicate DistinctIndices(s: seq<Attempt>) {
    forall i, j :: 0 <= i < j < |s| ==> s[i].index != s[j].index
  }

  lemma SnocDistinct(s: seq<Attempt>, a: Attempt)
    requires DistinctIndices(s) && forall k :: 0 <= k < |s| ==> s[k].index != a.index
    ensures DistinctIndices(s + [a])
  {
  }

  lemma {:induction false} MissingDistinct(report: seq<Attempt>, written: set<int>)
    requires DistinctIndices(report)
    ensures DistinctIndices(Missing(report, written))
  {
    if report != [] {
      var n := |report| - 1;
      var rest := Missing(report[..n], written);
      MissingDistinct(report[..n], written);
      MissingMembers(report[..n], written);
      forall k | 0 <= k < |rest|
        ensures rest[k].index != report[n].index
      {
        assert rest[k] in rest;
        var i :| 0 <= i < n && report[..n][i] == rest[k];
        assert report[i] == rest[k];
      }
      SnocDistinct(rest, report[n]);
    }
  }

  lemma MissingExactly(report: seq<Attempt>, written: set<int>)
    requires Distinct(IndexSeq(report))
    ensures forall a :: a in Missing(report, written) <==> a in report && a.index !in written
    ensures Distinct(IndexSeq(Missing(report, written)))
  {
    MissingMembers(report, written);
    IndexSeqDistinct(report);
    MissingDistinct(report, written);
    IndexSeqDistinct(Missing(report, written));
  }

  lemma IndexSeqDistinct(s: seq<Attempt>)
    ensures Distinct(IndexSeq(s)) <==> DistinctIndices(s)
  {
    if Distinct(IndexSeq(s)) {
      forall i, j | 0 <= i < j < |s|
        ensures s[i].index != s[j].index
      {
        assert IndexSeq(s)[i] != IndexSeq(s)[j];
      }
    }
  }

  lemma {:induction false} FindExactly(report: seq<Attempt>, k: nat)
    requires k < |report| && Distinct(IndexSeq(report))
    ensures Find(report, report[k].index) == Some(report[k])
  {
    var n := |report| - 1;
    if k < n {
      assert IndexSeq(report)[k] != IndexSeq(report)[n];
      assert IndexSeq(report[..n]) == IndexSeq(report)[..n];
      FindExactly(report[..n], k);
    }
  }

  predicate Covers(report: seq<Attempt>, order: seq<int>) {
    forall i :: 0 <= i < |order| ==>
      Find(report, order[i]).Some? && Find(report, order[i]).value in report
        && Find(report, order[i]).value.index == order[i]
  }

  lemma CompleteCovers(keys: seq<Key>, kind: Kind, report: seq<Attempt>, order: seq<int>)
    requires Complete(keys, kind, report) && forall i :: 0 <= i < |order| ==> 0 <= order[i] < |keys|
    ensures Covers(report, order)
  {
    forall i | 0 <= i < |order|
      ensures Find(report, order[i]).Some? && Find(report, order[i]).value in report
              && Find(report, order[i]).value.index == order[i]
    {
      var k := PositionOf(keys, kind, report, order[i]);
      FindExactly(report, k);
    }
  }

  lemma {:induction false} CoveredArePicked(report: seq<Attempt>, order: seq<int>)
    requires Covers(report, order)
    ensures |Picked(report, order)| == |order|
    ensures forall i :: 0 <= i < |order| ==>
            Picked(report, order)[i] in report && Picked(report, order)[i].index == order[i]
  {
    if order != [] { CoveredArePicked(report, order[..|order| - 1]); }
  }

  lemma PickedExactly(keys: seq<Key>, kind: Kind, report: seq<Attempt>, order: seq<int>)
    requires Complete(keys, kind, report) && forall i :: 0 <= i < |order| ==> 0 <= order[i] < |keys|
    ensures |Picked(report, order)| == |order|
    ensures forall i :: 0 <= i < |order| ==>
            Picked(report, order)[i] in report && Picked(report, order)[i].index == order[i]
  {
    CompleteCovers(keys, kind, report, order);
    CoveredArePicked(report, order);
  }

  /** Final order: what was streamed first, in that order, then what is missing. */
  function Final(report: seq<Attempt>, order: seq<int>, written: set<int>): seq<Attempt> {
    Picked(report, order) + Missing(report, written)
  }

  /** The report's records by their indices. */
  method ByIndex(keys: seq<Key>, kind: Kind, report: seq<Attempt>) returns (table: array<Option<Attempt>>)
    requires Complete(keys, kind, report)
    ensures fresh(table) && table.Length == |report|
    ensures forall j :: 0 <= j < |report| ==> table[j].Some? && table[j] == Find(report, j)
  {
    table := new Option<Attempt>[|report|](_ => None);
    for i := 0 to |report|
      invariant forall j :: 0 <= j < |report| && table[j].Some? ==> table[j] == Find(report, j)
      invariant forall k :: 0 <= k < i ==> table[report[k].index].Some?
    {
      FindExactly(report, i);
      table[report[i].index] := Some(report[i]);
    }
    forall j | 0 <= j < |report|
      ensures table[j].Some?
    {
      var k := PositionOf(keys, kind, report, j);
      assert table[report[k].index].Some?;
    }
  }

  lemma PositionOf(keys: seq<Key>, kind: Kind, report: seq<Attempt>, j: nat) returns (k: nat)
    requires Complete(keys, kind, report) && j < |report|
    ensures k < |report| && report[k].index == j
  {
    AllIndicesPresent(keys, kind, report);
    assert j in Elements(IndexSeq(report));
    k :| 0 <= k < |report| && IndexSeq(report)[k] == j;
  }

  /** The code's loops: streamed order first, then what the stream missed. */
  method FinalAttempts(keys: seq<Key>, kind: Kind, report: seq<Attempt>, order: seq<int>, written: set<int>)
      returns (ordered: seq<Attempt>)
    requires Complete(keys, kind, report)
    requires forall i :: 0 <= i < |order| ==> 0 <= order[i] < |keys|
    ensures ordered == Final(report, order, written)
  {
    var table := ByIndex(keys, kind, report);
    var picked: seq<Attempt> := [];
    for i := 0 to |order|
      invariant picked == Picked(report, order[..i])
    {
      assert order[..i + 1][..i] == order[..i];
      picked := picked + [table[order[i]].value];
    }
    assert order[..|order|] == order;
    var missing := AppendMissing(report, written);
    ordered := picked + missing;
  }

  method AppendMissing(report: seq<Attempt>, written: set<int>) returns (missing: seq<Attempt>)
    ensures missing == Missing(report, written)
  {
    missing := [];
    for i := 0 to |report|
      invariant missing == Missing(report[..i], written)
    {
      assert report[..i + 1][..i] == report[..i];
      if report[i].index !in written {
        missing := missing + [report[i]];
      }
    }
    assert report[..|report|] == report;
  }

  // ---------------------------------------------------------------- counting

  function Below(n: nat): (s: set<int>)
    ensures |s| == n && forall x :: x in s <==> 0 <= x < n
  {
    if n == 0 then {} else Below(n - 1) + {n - 1}
  }

  lemma AllIndicesPresent(keys: seq<Key>, kind: Kind, report: seq<Attempt>)
    requires Complete(keys, kind, report)
    ensures Elements(IndexSeq(report)) == Below(|keys|)
  {
    DistinctCount(IndexSeq(report), Elements(IndexSeq(report)));
    assert forall x :: x in IndexSeq(report) ==> 0 <= x < |keys|;
    SubsetSize(Elements(IndexSeq(report)), Below(|keys|));
  }

  // ---------------------------------------------------------------- the final log

  lemma SameIndexSame(report: seq<Attempt>, a: Attempt, b: Attempt)
    requires Distinct(IndexSeq(report)) && a in report && b in report && a.index == b.index
    ensures a == b
  {
    var i :| 0 <= i < |report| && report[i] == a;
    var j :| 0 <= j < |report| && report[j] == b;
    assert IndexSeq(report)[i] == IndexSeq(report)[j];
  }

  lemma FinalDistinct(keys: seq<Key>, kind: Kind, report: seq<Attempt>, order: seq<int>)
    requires Complete(keys, kind, report) && Distinct(order) && forall i :: 0 <= i < |order| ==> 0 <= order[i] < |keys|
    ensures var f := Final(report, order, Elements(order)); Distinct(IndexSeq(f)) && order <= IndexSeq(f)
  {
    var written := Elements(order);
    var picked, missing := Picked(report, order), Missing(report, written);
    PickedExactly(keys, kind, report, order);
    MissingExactly(report, written);
    var f := picked + missing;
    forall i, j | 0 <= i < j < |f|
      ensures f[i].index != f[j].index
    {
      if j < |picked| {
        assert order[i] != order[j];
      } else {
        assert missing[j - |picked|] in missing;
        if i < |picked| {
          assert order[i] in written;
        } else {
          assert IndexSeq(missing)[i - |picked|] != IndexSeq(missing)[j - |picked|];
        }
      }
    }
    assert order == IndexSeq(f)[..|order|];
  }

  lemma FinalMembers(keys: seq<Key>, kind: Kind, report: seq<Attempt>, order: seq<int>, a: Attempt)
    requires Complete(keys, kind, report) && forall i :: 0 <= i < |order| ==> 0 <= order[i] < |keys|
    ensures a in Final(report, order, Elements(order)) <==> a in report
  {
    var written := Elements(order);
    PickedExactly(keys, kind, report, order);
    MissingExactly(report, written);
    if a in report && a.index in written {
      var i :| 0 <= i < |order| && order[i] == a.index;
      SameIndexSame(report, a, Picked(report, order)[i]);
    }
  }

  lemma {:induction false} DistinctMultiplicity(s: seq<Attempt>, a: Attempt)
    requires Distinct(IndexSeq(s))
    ensures multiset(s)[a] == if a in s then 1 else 0
  {
    if s != [] {
      var n := |s| - 1;
      assert s == s[..n] + [s[n]];
      assert IndexSeq(s[..n]) == IndexSeq(s)[..n];
      DistinctMultiplicity(s[..n], a);
      if a in s[..n] {
        var i :| 0 <= i < n && s[..n][i] == a;
        assert IndexSeq(s)[i] != IndexSeq(s)[n];
      }
    }
  }

  /** The final log is a permutation of the report that extends the streamed order, and
      can be stored and loaded. */
  lemma FinalIsPermutation(keys: seq<Key>, kind: Kind, report: seq<Attempt>, order: seq<int>)
    requires Distinct(keys) && Complete(keys, kind, report) && Distinct(order)
    requires forall i :: 0 <= i < |order| ==> 0 <= order[i] < |keys|
    ensures var f := Final(report, order, Elements(order));
            && multiset(f) == multiset(report)
            && order <= IndexSeq(f)
            && Storable(kind, f) && forall i :: 0 <= i < |f| ==> Planned(keys, f[i])
  {
    var f := Final(report, order, Elements(order));
    FinalDistinct(keys, kind, report, order);
    forall a
      ensures multiset(f)[a] == multiset(report)[a] && (a in f <==> a in report)
    {
      FinalMembers(keys, kind, report, order, a);
      DistinctMultiplicity(f, a);
      DistinctMultiplicity(report, a);
    }
    forall i | 0 <= i < |f|
      ensures Planned(keys, f[i]) && f[i].kind == kind
    {
      assert f[i] in f;
    }
    forall i, j | 0 <= i < j < |f|
      ensures f[i].index != f[j].index
    {
      assert IndexSeq(f)[i] != IndexSeq(f)[j];
    }
    PlannedIsStorable(keys, kind, f);
  }

  lemma PlannedIsStorable(keys: seq<Key>, kind: Kind, s: seq<Attempt>)
    requires Distinct(keys) && (forall i :: 0 <= i < |s| ==> Planned(keys, s[i]) && s[i].kind == kind)
    requires forall i, j :: 0 <= i < j < |s| ==> s[i].index != s[j].index
    ensures Storable(kind, s)
  {
    forall i, j | 0 <= i < j < |s|
      ensures s[i].index != s[j].index && s[i].key != s[j].key
    {
      KeysDiffer(keys, s[i], s[j]);
    }
  }

  lemma KeysDiffer(keys: seq<Key>, a: Attempt, b: Attempt)
    requires Distinct(keys) && Planned(keys, a) && Planned(keys, b) && a.index != b.index
    ensures a.key != b.key
  {
  }
}

module AttemptWriter {
  import opened Basics
  import opened Collections
  import opened AttemptLog
  import opened FinalLog

  datatype Error = NotPlanned | Duplicate | WriterFinished | NotPrepared | Persistence(code: int)

  /** What was done to the log and not confirmed to be durable: bytes of one line written
      behind the durable lines, or another file renamed over the log. */
  datatype Unsynced = Nothing | Bytes(attempt: Attempt, count: nat) | Rename(lines: seq<Attempt>)

  /** The writer and its log file. `durable` and `unsynced` describe where the file's
      content comes from. */
  datatype Writer = Writer(
    keys: seq<Key>, kind: Kind, log: string, written: set<int>, order: seq<int>,
    err: Option<Error>, finished: bool, durable: seq<Attempt>, unsynced: Unsynced)

  /** The first bytes of an attempt's line. */
  function Cut(c: Codec, a: Attempt, k: nat): string {
    if k <= |Line(c, a)| then Line(c, a)[..k] else Line(c, a)
  }

  /** The file as the process sees it. */
  function Visible(c: Codec, durable: seq<Attempt>, u: Unsynced): string {
    match u
    case Nothing => Content(c, durable, "")
    case Bytes(a, n) => Content(c, durable, Cut(c, a, n))
    case Rename(lines) => Content(c, lines, "")
  }

  /** How an append goes: whether the prepared record matches, whether it encodes, how
      many bytes of its line reach the file and whether they are synced. */
  datatype AppendChance = AppendChance(prepared: bool, encoded: bool, count: nat, synced: bool, code: int)

  /** How a finish goes, step by step. */
  datatype FinishChance = FinishChance(prepared: bool, staged: bool, renamed: bool, synced: bool, headed: bool,
      code: int)

  datatype Report = Report(kind: Kind, attempts: seq<Attempt>)

  datatype Op = Append(attempt: Attempt, chance: AppendChance) | Finish(report: Report, how: FinishChance)

  function Latch(w: Writer, e: Error): Writer {
    if w.err.None? then w.(err := Some(e)) else w
  }

  /** The checks before an append; a failed check changes nothing. */
  function RefusesAppend(w: Writer, a: Attempt, prepared: bool): Option<Error> {
    if w.err.Some? then w.err
    else if w.finished then Some(WriterFinished)
    else if a.index < 0 || a.index >= |w.keys| || w.keys[a.index] != a.key then Some(NotPlanned)
    else if a.index in w.written then Some(Duplicate)
    else if a.kind != w.kind || !prepared then Some(NotPrepared)
    else None
  }

  /** One append: a line in one write, then the index; any failure is kept. */
  function AppendStep(c: Codec, w: Writer, a: Attempt, e: AppendChance): (Writer, Option<Error>) {
    var refused := RefusesAppend(w, a, e.prepared);
    if refused.Some? then (w, refused)
    else if !e.encoded then (Latch(w, Persistence(e.code)), Some(Persistence(e.code)))
    else
      var line := Line(c, a);
      if e.count < |line| then
        (Latch(w.(log := w.log + line[..e.count], unsynced := Bytes(a, e.count)), Persistence(e.code)),
          Some(Persistence(e.code)))
      else if !e.synced then
        (Latch(w.(log := w.log + line, unsynced := Bytes(a, |line|)), Persistence(e.code)), Some(Persistence(e.code)))
      else
        (w.(log := w.log + line, durable := w.durable + [a], written := w.written + {a.index},
          order := w.order + [a.index]), None)
  }

  /** The first refusal among the first `n` records of a report. */
  function RefusesRecords(w: Writer, attempts: seq<Attempt>, n: nat, prepared: bool): Option<Error>
    requires n <= |attempts|
  {
    if n == 0 then None
    else
      var before := RefusesRecords(w, attempts, n - 1, prepared);
      var a := attempts[n - 1];
      if before.Some? then before
      else if a.index < 0 || a.index >= |w.keys| || a.index in Indices(attempts[..n - 1])
        || w.keys[a.index] != a.key then Some(NotPlanned)
      else if a.kind != w.kind || !prepared then Some(NotPrepared)
      else None
  }

  /** The checks before a finish: one record per planned attempt, under its key. */
  function RefusesFinish(w: Writer, r: Report, prepared: bool): Option<Error> {
    if w.err.Some? then w.err
    else if w.finished then Some(WriterFinished)
    else if r.kind != w.kind || |r.attempts| != |w.keys| then Some(NotPlanned)
    else RefusesRecords(w, r.attempts, |r.attempts|, prepared)
  }

  /** The replacement is prepared beside the log and renamed over it at once; then the
      experiment header is committed. */
  ghost function FinishStep(c: Codec, w: Writer, r: Report, e: FinishChance): (Writer, Option<Error>) {
    var refused := RefusesFinish(w, r, e.prepared);
    var failure := Some(Persistence(e.code));
    if refused.Some? then (w, refused)
    else if !e.staged || !e.renamed then (Latch(w, Persistence(e.code)), failure)
    else
      var final := Final(r.attempts, w.order, w.written);
      var replaced := w.(log := Content(c, final, ""), unsynced := Rename(final));
      if !e.synced then (Latch(replaced, Persistence(e.code)), failure)
      else
        var published := replaced.(durable := final, unsynced := Nothing, written := Indices(final));
        if !e.headed then (Latch(published, Persistence(e.code)), failure)
        else (published.(finished := true), None)
  }

  ghost function Step(c: Codec, w: Writer, op: Op): (Writer, Option<Error>) {
    match op
    case Append(a, e) => AppendStep(c, w, a, e)
    case Finish(r, e) => FinishStep(c, w, r, e)
  }

  ghost function Run(c: Codec, w: Writer, ops: seq<Op>): Writer {
    if ops == [] then w else Step(c, Run(c, w, ops[..|ops| - 1]), ops[|ops| - 1]).0
  }

  /** A published experiment: the header line, nothing written. */
  function Begin(c: Codec, keys: seq<Key>, kind: Kind): Writer {
    Writer(keys, kind, Content(c, [], ""), {}, [], None, false, [], Nothing)
  }

  // ---------------------------------------------------------------- what every run keeps

  /** The durable lines are planned attempts and begin with the recorded order; they are
      exactly it, and nothing is unsynced, while the writer is usable. What is unsynced
      is part of the line of one more planned attempt, or a whole log of the same kind. */
  ghost predicate Good(c: Codec, w: Writer) {
    && Distinct(w.keys)
    && w.log == Visible(c, w.durable, w.unsynced)
    && Logged(w, w.durable)
    && GoodUnsynced(c, w)
    && Distinct(w.order) && (forall i :: 0 <= i < |w.order| ==> 0 <= w.order[i] < |w.keys|)
    && w.order <= IndexSeq(w.durable)
    && (w.err.None? && !w.finished ==> IndexSeq(w.durable) == w.order && w.written == Elements(w.order))
    && (w.err.None? ==> w.unsynced.Nothing?)
  }

  ghost predicate GoodUnsynced(c: Codec, w: Writer) {
    match w.unsynced
    case Nothing => true
    case Bytes(a, n) => n <= |Line(c, a)| && Logged(w, w.durable + [a])
    case Rename(lines) => Logged(w, lines) && w.order <= IndexSeq(lines)
  }

  ghost predicate Logged(w: Writer, lines: seq<Attempt>) {
    Storable(w.kind, lines) && forall i :: 0 <= i < |lines| ==> Planned(w.keys, lines[i])
  }

  lemma {:induction false} TextAppends(c: Codec, lines: seq<Attempt>, a: Attempt)
    ensures Text(c, lines + [a]) == Text(c, lines) + Line(c, a)
  {
    if lines == [] {
      assert lines + [a] == [a] && [a][1..] == [];
      assert Text(c, [a]) == Line(c, a) + "";
    } else {
      assert (lines + [a])[1..] == lines[1..] + [a];
      TextAppends(c, lines[1..], a);
      assert Line(c, lines[0]) + (Text(c, lines[1..]) + Line(c, a)) ==
        Line(c, lines[0]) + Text(c, lines[1..]) + Line(c, a);
    }
  }

  lemma ContentAppends(c: Codec, lines: seq<Attempt>, a: Attempt)
    ensures Content(c, lines, "") + Line(c, a) == Content(c, lines + [a], "")
  {
    TextAppends(c, lines, a);
    assert Text(c, lines) + "" == Text(c, lines);
    assert Text(c, lines + [a]) + "" == Text(c, lines) + Line(c, a);
  }

  lemma ContentTears(c: Codec, lines: seq<Attempt>, a: Attempt, k: nat)
    requires k <= |Line(c, a)|
    ensures Content(c, lines, "") + Line(c, a)[..k] == Content(c, lines, Line(c, a)[..k])
  {
    assert Text(c, lines) + "" == Text(c, lines);
  }

  /** A planned attempt whose index was not written can follow the lines. */
  lemma NewIsLogged(w: Writer, a: Attempt)
    requires Distinct(w.keys) && Logged(w, w.durable) && Planned(w.keys, a) && a.kind == w.kind
    requires a.index !in Elements(IndexSeq(w.durable))
    ensures Logged(w, w.durable + [a])
  {
    var s := w.durable + [a];
    forall i | 0 <= i < |w.durable|
      ensures w.durable[i].index != a.index
    {
      assert IndexSeq(w.durable)[i] in IndexSeq(w.durable);
    }
    PlannedIsStorable(w.keys, w.kind, s);
  }

  lemma AppendFails(c: Codec, w: Writer, a: Attempt, count: nat, code: int)
    requires Good(c, w) && RefusesAppend(w, a, true).None? && count <= |Line(c, a)|
    ensures Good(c, w.(log := w.log + Line(c, a)[..count], unsynced := Bytes(a, count), err := Some(Persistence(code))))
  {
    NewIsLogged(w, a);
    ContentTears(c, w.durable, a, count);
    var w' := w.(log := w.log + Line(c, a)[..count], unsynced := Bytes(a, count), err := Some(Persistence(code)));
    assert Logged(w', w'.durable + [a]);
  }

  lemma AppendSucceeds(c: Codec, w: Writer, a: Attempt)
    requires Good(c, w) && RefusesAppend(w, a, true).None?
    ensures Good(c, w.(log := w.log + Line(c, a), durable := w.durable + [a], written := w.written + {a.index},
            order := w.order + [a.index]))
  {
    NewIsLogged(w, a);
    ContentAppends(c, w.durable, a);
    AppendedOrder(w, a);
    var w' := w.(log := w.log + Line(c, a), durable := w.durable + [a], written := w.written + {a.index},
      order := w.order + [a.index]);
    assert Logged(w', w'.durable);
  }

  lemma AppendKeeps(c: Codec, w: Writer, a: Attempt, e: AppendChance)
    requires Good(c, w)
    ensures Good(c, AppendStep(c, w, a, e).0)
  {
    if RefusesAppend(w, a, e.prepared).None? {
      assert RefusesAppend(w, a, true).None?;
      if !e.encoded {
      } else if e.count < |Line(c, a)| {
        AppendFails(c, w, a, e.count, e.code);
      } else if !e.synced {
        assert Line(c, a)[..|Line(c, a)|] == Line(c, a);
        AppendFails(c, w, a, |Line(c, a)|, e.code);
      } else {
        AppendSucceeds(c, w, a);
      }
    }
  }

  lemma SnocIndices(s: seq<Attempt>, a: Attempt)
    ensures IndexSeq(s + [a]) == IndexSeq(s) + [a.index]
  {
    assert (s + [a])[..|s|] == s;
  }

  lemma SnocElements(order: seq<int>, x: int)
    ensures Elements(order + [x]) == Elements(order) + {x}
  {
    assert forall y :: y in order + [x] <==> y in order || y == x;
  }

  lemma SnocDistinctOrder(order: seq<int>, x: int)
    requires Distinct(order) && x !in Elements(order)
    ensures Distinct(order + [x])
  {
    assert forall i :: 0 <= i < |order| ==> order[i] in order;
  }

  lemma AppendedOrder(w: Writer, a: Attempt)
    requires IndexSeq(w.durable) == w.order && w.written == Elements(w.order) && a.index !in w.written
             && Distinct(w.order)
    ensures IndexSeq(w.durable + [a]) == w.order + [a.index]
    ensures Elements(w.order + [a.index]) == w.written + {a.index}
    ensures Distinct(w.order + [a.index])
  {
    SnocIndices(w.durable, a);
    SnocElements(w.order, a.index);
    SnocDistinctOrder(w.order, a.index);
  }

  lemma {:induction false} AcceptedRecords(w: Writer, attempts: seq<Attempt>, n: nat, prepared: bool)
    requires n <= |attempts| && RefusesRecords(w, attempts, n, prepared).None?
    ensures forall i :: 0 <= i < n ==> Planned(w.keys, attempts[i]) && attempts[i].kind == w.kind
    ensures forall i, j :: 0 <= i < j < n ==> attempts[i].index != attempts[j].index
  {
    if n > 0 {
      AcceptedRecords(w, attempts, n - 1, prepared);
      forall i | 0 <= i < n - 1
        ensures attempts[i].index != attempts[n - 1].index
      {
        assert attempts[..n - 1][i] == attempts[i];
      }
    }
  }

  lemma CompleteIfAccepted(w: Writer, r: Report, prepared: bool)
    requires RefusesFinish(w, r, prepared).None?
    ensures Complete(w.keys, w.kind, r.attempts)
  {
    AcceptedRecords(w, r.attempts, |r.attempts|, prepared);
  }

  lemma FinalLogged(c: Codec, w: Writer, r: Report, prepared: bool)
    requires Good(c, w) && RefusesFinish(w, r, prepared).None?
    ensures var final := Final(r.attempts, w.order, w.written);
            Logged(w, final) && w.order <= IndexSeq(final) && multiset(final) == multiset(r.attempts)
  {
    CompleteIfAccepted(w, r, prepared);
    FinalIsPermutation(w.keys, w.kind, r.attempts, w.order);
  }

  lemma RenamedIsGood(c: Codec, w: Writer, final: seq<Attempt>, code: int)
    requires Good(c, w) && Logged(w, final) && w.order <= IndexSeq(final)
    ensures Good(c, w.(log := Content(c, final, ""), unsynced := Rename(final), err := Some(Persistence(code))))
  {
    var w' := w.(log := Content(c, final, ""), unsynced := Rename(final), err := Some(Persistence(code)));
    assert Logged(w', w'.durable) && Logged(w', final);
  }

  lemma ReplacedIsGood(c: Codec, w: Writer, final: seq<Attempt>, w': Writer)
    requires Good(c, w) && Logged(w, final) && w.order <= IndexSeq(final)
    requires w' == w.(log := Content(c, final, ""), durable := final, unsynced := Nothing, written := w'.written,
             err := w'.err, finished := w'.finished)
    requires w'.err.Some? || w'.finished
    ensures Good(c, w')
  {
    assert Logged(w', w'.durable);
  }

  lemma FinishKeeps(c: Codec, w: Writer, r: Report, e: FinishChance)
    requires Good(c, w)
    ensures Good(c, FinishStep(c, w, r, e).0)
  {
    if RefusesFinish(w, r, e.prepared).None? {
      if !e.staged || !e.renamed {
        assert FinishStep(c, w, r, e).0 == w.(err := Some(Persistence(e.code)));
      } else {
        var final := Final(r.attempts, w.order, w.written);
        FinalLogged(c, w, r, e.prepared);
        if !e.synced {
          RenamedIsGood(c, w, final, e.code);
        } else {
          ReplacedIsGood(c, w, final, FinishStep(c, w, r, e).0);
        }
      }
    }
  }

  lemma BeginIsGood(c: Codec, keys: seq<Key>, kind: Kind)
    requires Distinct(keys)
    ensures Good(c, Begin(c, keys, kind))
  {
  }

  lemma StepKeeps(c: Codec, w: Writer, op: Op)
    requires Good(c, w)
    ensures Good(c, Step(c, w, op).0) && Step(c, w, op).0.keys == w.keys && Step(c, w, op).0.kind == w.kind
  {
    if op.Append? {
      AppendKeeps(c, w, op.attempt, op.chance);
    } else {
      FinishKeeps(c, w, op.report, op.how);
    }
  }

  lemma {:induction false} RunKeeps(c: Codec, w: Writer, ops: seq<Op>)
    requires Good(c, w)
    ensures Good(c, Run(c, w, ops)) && Run(c, w, ops).keys == w.keys && Run(c, w, ops).kind == w.kind
  {
    if ops != [] {
      RunKeeps(c, w, ops[..|ops| - 1]);
      StepKeeps(c, Run(c, w, ops[..|ops| - 1]), ops[|ops| - 1]);
    }
  }

  /** The first persistence failure stays: every later call returns it and changes
      nothing. */
  lemma {:induction false} FirstErrorSticks(c: Codec, w: Writer, ops: seq<Op>, op: Op)
    requires w.err.Some?
    ensures Run(c, w, ops) == w && Step(c, w, op) == (w, w.err)
  {
    if ops != [] { FirstErrorSticks(c, w, ops[..|ops| - 1], ops[|ops| - 1]); }
  }

  // ---------------------------------------------------------------- crashes

  ghost predicate TornAt(c: Codec, durable: seq<Attempt>, a: Attempt, k: nat, content: string) {
    k <= |Line(c, a)| && content == Content(c, durable, Line(c, a)[..k])
  }

  /** What the file may hold after a crash between calls: unsynced bytes are lost from any
      point on, and a rename that was not synced is done or undone. */
  ghost predicate Survives(c: Codec, w: Writer, content: string) {
    match w.unsynced
    case Nothing => content == w.log
    case Bytes(a, n) => exists k: nat :: k <= n && TornAt(c, w.durable, a, k, content)
    case Rename(_) => content == w.log || content == Content(c, w.durable, "")
  }

  /** What the file may hold after a crash during a call: besides that, part of the line
      of an accepted append, or the whole replacement of an accepted finish. */
  ghost predicate CrashImage(c: Codec, w: Writer, op: Op, content: string) {
    || Survives(c, w, content)
    || match op
       case Append(a, e) =>
         RefusesAppend(w, a, e.prepared).None? && exists k: nat :: TornAt(c, w.durable, a, k, content)
       case Finish(r, e) =>
         && RefusesFinish(w, r, e.prepared).None?
         && content == Content(c, Final(r.attempts, w.order, w.written), "")
  }

  /** What loading finds between calls: the recorded order first; the durable lines and
      possibly the one that was being written when an append failed, or a replacement of
      the log that was not synced. `torn` only when a line is cut. */
  ghost predicate Retains(w: Writer, records: seq<Attempt>, torn: bool) {
    && Logged(w, records) && w.order <= IndexSeq(records)
    && match w.unsynced
       case Nothing => !torn && records == w.durable
       case Bytes(a, _) => records == w.durable || (!torn && records == w.durable + [a])
       case Rename(lines) => !torn && (records == w.durable || records == lines)
  }

  /** What it finds after a crash during a call: that, or the line or the replacement the
      call was writing. */
  ghost predicate Recovers(w: Writer, op: Op, records: seq<Attempt>, torn: bool) {
    || Retains(w, records, torn)
    || (&& Logged(w, records) && w.order <= IndexSeq(records)
        && match op
           case Append(a, e) =>
             && RefusesAppend(w, a, e.prepared).None?
             && (records == w.durable || (!torn && records == w.durable + [a]))
           case Finish(r, e) =>
             && RefusesFinish(w, r, e.prepared).None? && !torn
             && records == Final(r.attempts, w.order, w.written) && multiset(records) == multiset(r.attempts))
  }

  lemma PrefixOrder(w: Writer, a: Attempt)
    requires w.order <= IndexSeq(w.durable)
    ensures w.order <= IndexSeq(w.durable + [a])
  {
    assert IndexSeq(w.durable + [a])[..|w.order|] == IndexSeq(w.durable)[..|w.order|];
  }

  /** A line cut anywhere behind the durable lines: they load, and it wholly or not. */
  lemma TornLoads(c: Codec, w: Writer, a: Attempt, k: nat) returns (records: seq<Attempt>, torn: bool)
    requires Sound(c) && Logged(w, w.durable) && Logged(w, w.durable + [a]) && k <= |Line(c, a)|
    requires w.order <= IndexSeq(w.durable)
    ensures Load(c, w.kind, Content(c, w.durable, Line(c, a)[..k])) == Records(SortByIndex(records), torn)
    ensures Logged(w, records) && w.order <= IndexSeq(records)
    ensures records == w.durable || (!torn && records == w.durable + [a])
  {
    AppendCrashes(c, w.kind, w.durable, a, k);
    var loaded := Recovered(c, w.durable, a, k);
    records, torn := loaded.attempts, loaded.torn;
    PrefixOrder(w, a);
  }

  lemma SurvivingLoads(c: Codec, w: Writer, content: string) returns (records: seq<Attempt>, torn: bool)
    requires Sound(c) && Good(c, w) && Survives(c, w, content)
    ensures Load(c, w.kind, content) == Records(SortByIndex(records), torn) && Retains(w, records, torn)
  {
    match w.unsynced
    case Bytes(a, n) =>
      var k: nat :| k <= n && TornAt(c, w.durable, a, k, content);
      records, torn := TornLoads(c, w, a, k);
    case Nothing =>
      records, torn := w.durable, false;
      WholeLogLoads(c, w.kind, records);
    case Rename(lines) =>
      records, torn := if content == w.log then lines else w.durable, false;
      WholeLogLoads(c, w.kind, records);
  }

  lemma AppendRecovers(c: Codec, w: Writer, op: Op, k: nat, content: string) returns (records: seq<Attempt>, torn: bool)
    requires Sound(c) && Good(c, w) && op.Append? && RefusesAppend(w, op.attempt, op.chance.prepared).None?
    requires TornAt(c, w.durable, op.attempt, k, content)
    ensures Load(c, w.kind, content) == Records(SortByIndex(records), torn) && Recovers(w, op, records, torn)
  {
    NewIsLogged(w, op.attempt);
    records, torn := TornLoads(c, w, op.attempt, k);
  }

  lemma FinishRecovers(c: Codec, w: Writer, op: Op) returns (records: seq<Attempt>, torn: bool)
    requires Sound(c) && Good(c, w) && op.Finish? && RefusesFinish(w, op.report, op.how.prepared).None?
    ensures Load(c, w.kind, Content(c, Final(op.report.attempts, w.order, w.written), "")) ==
            Records(SortByIndex(records), torn)
    ensures Recovers(w, op, records, torn)
  {
    FinalLogged(c, w, op.report, op.how.prepared);
    records, torn := Final(op.report.attempts, w.order, w.written), false;
    WholeLogLoads(c, w.kind, records);
  }

  /** A crash image of any good state loads and recovers. */
  lemma ImageRecovers(c: Codec, w: Writer, op: Op, content: string) returns (records: seq<Attempt>, torn: bool)
    requires Sound(c) && Good(c, w) && CrashImage(c, w, op, content)
    ensures Load(c, w.kind, content) == Records(SortByIndex(records), torn) && Recovers(w, op, records, torn)
  {
    if Survives(c, w, content) {
      records, torn := SurvivingLoads(c, w, content);
    } else if op.Append? {
      var k: nat :| TornAt(c, w.durable, op.attempt, k, content);
      records, torn := AppendRecovers(c, w, op, k, content);
    } else {
      records, torn := FinishRecovers(c, w, op);
    }
  }

  /** The file as the process sees it is one of those a crash may leave. */
  lemma LogSurvives(c: Codec, w: Writer)
    requires Good(c, w)
    ensures Survives(c, w, w.log)
  {
    if w.unsynced.Bytes? {
      assert TornAt(c, w.durable, w.unsynced.attempt, w.unsynced.count, w.log);
    }
  }

  // ---------------------------------------------------------------- acknowledged appends

  /** The appends of a run that returned no error, in order. */
  ghost function Acknowledged(c: Codec, w: Writer, ops: seq<Op>): seq<Attempt> {
    if ops == [] then []
    else
      var rest, op := ops[..|ops| - 1], ops[|ops| - 1];
      if op.Append? && Step(c, Run(c, w, rest), op).1.None? then Acknowledged(c, w, rest) + [op.attempt]
      else Acknowledged(c, w, rest)
  }

  lemma AcknowledgedStep(c: Codec, w: Writer, op: Op, acknowledged: seq<Attempt>)
    requires IndexSeq(acknowledged) == w.order
    ensures var (w', err) := Step(c, w, op);
            IndexSeq(if op.Append? && err.None? then acknowledged + [op.attempt] else acknowledged) == w'.order
  {
    if op.Append? { SnocIndices(acknowledged, op.attempt); }
  }

  /** The writer's order is always that of the acknowledged appends. */
  lemma {:induction false} AcknowledgedInOrder(c: Codec, keys: seq<Key>, kind: Kind, ops: seq<Op>)
    ensures IndexSeq(Acknowledged(c, Begin(c, keys, kind), ops)) == Run(c, Begin(c, keys, kind), ops).order
  {
    if ops != [] {
      var rest, op := ops[..|ops| - 1], ops[|ops| - 1];
      AcknowledgedInOrder(c, keys, kind, rest);
      var start := Begin(c, keys, kind);
      AcknowledgedStep(c, Run(c, start, rest), op, Acknowledged(c, start, rest));
    }
  }

  /** The finish is accepted and its rename done: the log is replaced. */
  ghost predicate Replaces(w: Writer, op: Op) {
    op.Finish? && RefusesFinish(w, op.report, op.how.prepared).None? && op.how.staged && op.how.renamed
  }

  ghost predicate NeverReplaces(c: Codec, w: Writer, ops: seq<Op>) {
    ops == [] || (NeverReplaces(c, w, ops[..|ops| - 1]) && !Replaces(Run(c, w, ops[..|ops| - 1]), ops[|ops| - 1]))
  }

  /** Until the log is replaced, whatever finishes were refused or failed, the durable
      lines are exactly the acknowledged appends. */
  lemma {:induction false} AcknowledgedAreDurable(c: Codec, keys: seq<Key>, kind: Kind, ops: seq<Op>)
    requires NeverReplaces(c, Begin(c, keys, kind), ops)
    ensures var w := Run(c, Begin(c, keys, kind), ops);
            w.durable == Acknowledged(c, Begin(c, keys, kind), ops) && !w.finished && !w.unsynced.Rename?
  {
    if ops != [] { AcknowledgedAreDurable(c, keys, kind, ops[..|ops| - 1]); }
  }

  // ---------------------------------------------------------------- loading after any run

  /** What any run reaches: a good state, the acknowledged appends as its order, and as
      its durable lines until the log is replaced. */
  ghost predicate Reached(c: Codec, w: Writer, kind: Kind, acknowledged: seq<Attempt>, replaced: bool) {
    && Good(c, w) && w.kind == kind && IndexSeq(acknowledged) == w.order
    && (!replaced ==> w.durable == acknowledged && !w.unsynced.Rename?)
  }

  lemma RunReaches(c: Codec, keys: seq<Key>, kind: Kind, ops: seq<Op>)
    requires Distinct(keys)
    ensures var start := Begin(c, keys, kind);
            Reached(c, Run(c, start, ops), kind, Acknowledged(c, start, ops), !NeverReplaces(c, start, ops))
  {
    BeginIsGood(c, keys, kind);
    RunKeeps(c, Begin(c, keys, kind), ops);
    AcknowledgedInOrder(c, keys, kind, ops);
    if NeverReplaces(c, Begin(c, keys, kind), ops) { AcknowledgedAreDurable(c, keys, kind, ops); }
  }

  lemma ReachedRecovers(c: Codec, w: Writer, kind: Kind, acknowledged: seq<Attempt>, replaced: bool, op: Op,
      content: string)
    returns (records: seq<Attempt>, torn: bool)
    requires Sound(c) && Reached(c, w, kind, acknowledged, replaced) && CrashImage(c, w, op, content)
    ensures Load(c, kind, content) == Records(SortByIndex(records), torn) && Recovers(w, op, records, torn)
    ensures IndexSeq(acknowledged) <= IndexSeq(records)
    ensures op.Append? && !replaced ==> acknowledged <= records
  {
    records, torn := ImageRecovers(c, w, op, content);
  }

  lemma ReachedLoads(c: Codec, w: Writer, kind: Kind, acknowledged: seq<Attempt>, replaced: bool)
      returns (records: seq<Attempt>, torn: bool)
    requires Sound(c) && Reached(c, w, kind, acknowledged, replaced)
    ensures Load(c, kind, w.log) == Records(SortByIndex(records), torn) && Retains(w, records, torn)
    ensures IndexSeq(acknowledged) <= IndexSeq(records)
    ensures !replaced ==> acknowledged <= records && (w.err.None? ==> records == acknowledged && !torn)
  {
    LogSurvives(c, w);
    records, torn := SurvivingLoads(c, w, w.log);
  }

  /** From a crash during any call after any run, whatever was not synced by then, loading
      succeeds and recovers: every acknowledged append is there, in order, and with its
      own record unless a finish replaced the log. */
  lemma CrashConsistent(c: Codec, keys: seq<Key>, kind: Kind, ops: seq<Op>, op: Op, content: string)
    returns (records: seq<Attempt>, torn: bool)
    requires Sound(c) && Distinct(keys)
    requires CrashImage(c, Run(c, Begin(c, keys, kind), ops), op, content)
    ensures Load(c, kind, content) == Records(SortByIndex(records), torn)
    ensures Recovers(Run(c, Begin(c, keys, kind), ops), op, records, torn)
    ensures IndexSeq(Acknowledged(c, Begin(c, keys, kind), ops)) <= IndexSeq(records)
    ensures op.Append? && NeverReplaces(c, Begin(c, keys, kind), ops) ==>
            Acknowledged(c, Begin(c, keys, kind), ops) <= records
  {
    var start := Begin(c, keys, kind);
    RunReaches(c, keys, kind, ops);
    records, torn := ReachedRecovers(c, Run(c, start, ops), kind, Acknowledged(c, start, ops),
      !NeverReplaces(c, start, ops), op, content);
  }

  /** A reader of the live log finds, after any run and without a crash, every
      acknowledged append in order; until the log is replaced, with its own record, and
      nothing else while the writer is usable. */
  lemma LiveLogLoads(c: Codec, keys: seq<Key>, kind: Kind, ops: seq<Op>) returns (records: seq<Attempt>, torn: bool)
    requires Sound(c) && Distinct(keys)
    ensures var w, acknowledged := Run(c, Begin(c, keys, kind), ops), Acknowledged(c, Begin(c, keys, kind), ops);
            && Load(c, kind, w.log) == Records(SortByIndex(records), torn) && Retains(w, records, torn)
            && IndexSeq(acknowledged) <= IndexSeq(records)
            && (NeverReplaces(c, Begin(c, keys, kind), ops) ==>
                  acknowledged <= records && (w.err.None? ==> records == acknowledged && !torn))
  {
    var start := Begin(c, keys, kind);
    RunReaches(c, keys, kind, ops);
    records, torn := ReachedLoads(c, Run(c, start, ops), kind, Acknowledged(c, start, ops),
      !NeverReplaces(c, start, ops));
  }

  // ---------------------------------------------------------------- the writer object

  /** The writer under its lock, with its log file. Which calls of the file system fail,
      and after how many bytes, is the environment's choice. */
  class LogWriter {
    const codec: Codec
    const keys: seq<Key>
    const kind: Kind
    var log: string
    var written: set<int>
    var order: seq<int>
    var err: Option<Error>
    var finished: bool
    ghost var durable: seq<Attempt>
    ghost var unsynced: Unsynced

    ghost function Now(): Writer
      reads this
    {
      Writer(keys, kind, log, written, order, err, finished, durable, unsynced)
    }

    constructor (codec: Codec, keys: seq<Key>, kind: Kind)
      ensures this.codec == codec && Now() == Begin(codec, keys, kind)
    {
      this.codec, this.keys, this.kind := codec, keys, kind;
      log := Content(codec, [], "");
      written, order, err, finished := {}, [], None, false;
      durable, unsynced := [], Nothing;
    }

    method Fail(e: Error)
      modifies this`err
      ensures Now() == Latch(old(Now()), e)
    {
      if err.None? { err := Some(e); }
    }

    method ValidateAppend(a: Attempt, prepared: bool) returns (refused: Option<Error>)
      ensures refused == RefusesAppend(Now(), a, prepared)
    {
      if err.Some? { return err; }
      if finished { return Some(WriterFinished); }
      if a.index < 0 || a.index >= |keys| || keys[a.index] != a.key { return Some(NotPlanned); }
      if a.index in written { return Some(Duplicate); }
      if a.kind != kind || !prepared { return Some(NotPrepared); }
      return None;
    }

    /** Stores one attempt as a line, or keeps the failure. */
    method Append(a: Attempt) returns (result: Option<Error>, chance: AppendChance)
      modifies this
      ensures (Now(), result) == AppendStep(codec, old(Now()), a, chance)
    {
      var choice: AppendChance := *;
      var count: nat := *;
      chance := choice.(count := count);
      result := ValidateAppend(a, chance.prepared);
      if result.Some? { return; }
      if !chance.encoded {
        result := Some(Persistence(chance.code));
        Fail(Persistence(chance.code));
        return;
      }
      var line := Line(codec, a);
      if chance.count < |line| {
        log, unsynced := log + line[..chance.count], Bytes(a, chance.count);
        result := Some(Persistence(chance.code));
        Fail(Persistence(chance.code));
        return;
      }
      log := log + line;
      if !chance.synced {
        unsynced := Bytes(a, |line|);
        result := Some(Persistence(chance.code));
        Fail(Persistence(chance.code));
        return;
      }
      durable, written, order := durable + [a], written + {a.index}, order + [a.index];
    }

    /** The loop over a report's records. */
    method ValidateReport(r: Report, prepared: bool) returns (refused: Option<Error>)
      ensures refused == RefusesFinish(Now(), r, prepared)
    {
      if err.Some? { return err; }
      if finished { return Some(WriterFinished); }
      if r.kind != kind || |r.attempts| != |keys| { return Some(NotPlanned); }
      refused := None;
      var seen: set<int> := {};
      var i := 0;
      while i < |r.attempts| && refused.None?
        invariant 0 <= i <= |r.attempts|
        invariant refused == RefusesRecords(Now(), r.attempts, i, prepared)
        invariant refused.None? ==> seen == Indices(r.attempts[..i])
      {
        var a := r.attempts[i];
        if a.index < 0 || a.index >= |keys| || a.index in seen || keys[a.index] != a.key {
          refused := Some(NotPlanned);
        } else if a.kind != kind || !prepared {
          refused := Some(NotPrepared);
        }
        RefusesNext(Now(), r.attempts, i, prepared);
        seen := seen + {a.index};
        i := i + 1;
      }
      if refused.Some? { RefusalStays(Now(), r.attempts, i, |r.attempts|, prepared); }
    }

    /** Replaces the log by the report in its final order, then commits the header. */
    method Finish(r: Report) returns (result: Option<Error>, chance: FinishChance)
      requires Good(codec, Now())
      modifies this
      ensures (Now(), result) == FinishStep(codec, old(Now()), r, chance)
    {
      chance := *;
      result := ValidateReport(r, chance.prepared);
      if result.Some? { return; }
      CompleteIfAccepted(Now(), r, chance.prepared);
      var final := FinalAttempts(keys, kind, r.attempts, order, written);
      result := Some(Persistence(chance.code));
      if !chance.staged || !chance.renamed {
        Fail(Persistence(chance.code));
        return;
      }
      log, unsynced := Content(codec, final, ""), Rename(final);
      if !chance.synced {
        Fail(Persistence(chance.code));
        return;
      }
      durable, unsynced, written := final, Nothing, Indices(final);
      if !chance.headed {
        Fail(Persistence(chance.code));
        return;
      }
      finished := true;
      result := None;
    }
  }

  lemma RefusesNext(w: Writer, attempts: seq<Attempt>, i: nat, prepared: bool)
    requires i < |attempts| && RefusesRecords(w, attempts, i, prepared).None?
    ensures var a, seen := attempts[i], Indices(attempts[..i]);
            && Indices(attempts[..i + 1]) == seen + {a.index}
            && RefusesRecords(w, attempts, i + 1, prepared) ==
               if a.index < 0 || a.index >= |w.keys| || a.index in seen || w.keys[a.index] != a.key then
                 Some(NotPlanned)
               else if a.kind != w.kind || !prepared then Some(NotPrepared)
               else None
  {
    FreshExactly(attempts[i], attempts[..i]);
    assert attempts[..i + 1] == attempts[..i] + [attempts[i]];
  }

  lemma {:induction false} RefusalStays(w: Writer, attempts: seq<Attempt>, m: nat, n: nat, prepared: bool)
    requires m <= n <= |attempts| && RefusesRecords(w, attempts, m, prepared).Some?
    ensures RefusesRecords(w, attempts, n, prepared) == RefusesRecords(w, attempts, m, prepared)
  {
    if m < n { RefusalStays(w, attempts, m, n - 1, prepared); }
  }
}
