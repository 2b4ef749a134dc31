/** Matching expected tools against the calls an agent made: greedy when order
    matters, otherwise a maximum bipartite matching by augmenting paths. */
module ToolMatching {
  import opened Collections

  type Edges = seq<seq<bool>>

  /** One row per expected tool, one column per call. */
  predicate Rectangular(edges: Edges, made: nat) {
    forall i :: 0 <= i < |edges| ==> |edges[i]| == made
  }

  /** A one-to-one assignment of expected tools to compatible calls. */
  ghost predicate Assignment(edges: Edges, made: nat, m: map<int, int>)
    requires Rectangular(edges, made)
  {
    && (forall r :: r in m ==> 0 <= r < |edges| && 0 <= m[r] < made && edges[r][m[r]])
    && (forall r, q :: r in m && q in m && r != q ==> m[r] != m[q])
  }

  // ---------------------------------------------------------------- owners

  /** Every owned call belongs to a compatible expected tool. */
  predicate Compatible(edges: Edges, owners: seq<int>)
    requires Rectangular(edges, |owners|)
  {
    forall c :: 0 <= c < |owners| ==> owners[c] == -1 || (0 <= owners[c] < |edges| && edges[owners[c]][c])
  }

  /** The expected tools owning calls that are not seen yet. */
  function Rows(owners: seq<int>, seen: seq<bool>): set<int>
    requires |seen| == |owners|
  {
    set c | 0 <= c < |owners| && !seen[c] && owners[c] != -1 :: owners[c]
  }

  predicate Injective(owners: seq<int>, seen: seq<bool>)
    requires |seen| == |owners|
  {
    forall c, d :: 0 <= c < d < |owners| && !seen[c] && !seen[d] && owners[c] != -1 ==> owners[c] != owners[d]
  }

  function Unseen(seen: seq<bool>): set<int> {
    set c | 0 <= c < |seen| && !seen[c]
  }

  /** A search that failed saw every call its tools could use. */
  predicate ClosedSince(edges: Edges, owners: seq<int>, before: seq<bool>, seen: seq<bool>)
    requires Rectangular(edges, |owners|) && |before| == |seen| == |owners|
  {
    forall c :: 0 <= c < |owners| && seen[c] && !before[c] ==>
      0 <= owners[c] < |edges| && Covered(edges[owners[c]], seen)
  }

  predicate Covered(row: seq<bool>, seen: seq<bool>)
    requires |row| == |seen|
  {
    forall c :: 0 <= c < |row| && row[c] ==> seen[c]
  }

  /** Binding `row` at column `c` after the column's owner, if any, moved on. */
  lemma Rebound(owners: seq<int>, before: seq<bool>, seen: seq<bool>, moved: seq<int>, c: nat, row: int)
    requires |owners| == |before| == |seen| == |moved| && c < |owners| && row >= 0
    requires Injective(owners, before) && row !in Rows(owners, before)
    requires forall d :: 0 <= d < |seen| && before[d] ==> seen[d]
    requires !before[c] && seen[c]
    requires forall d :: 0 <= d < |seen| && seen[d] ==> moved[d] == owners[d]
    requires Injective(moved, seen)
    requires Rows(moved, seen) == Rows(owners, seen) + (if owners[c] == -1 then {} else {owners[c]})
    ensures Injective(moved[c := row], before)
    ensures Rows(moved[c := row], before) == Rows(owners, before) + {row}
  {
    var after := moved[c := row];
    forall d | 0 <= d < |owners| && !before[d] && after[d] != -1
      ensures d == c || after[d] in Rows(owners, before)
    {
      if d != c && !seen[d] {
        assert after[d] in Rows(moved, seen);
      }
    }
    forall r | r in Rows(owners, before)
      ensures r in Rows(after, before)
    {
      var d :| 0 <= d < |owners| && !before[d] && owners[d] == r;
      if d == c || !seen[d] {
        assert r in Rows(moved, seen);
        var f :| 0 <= f < |owners| && !seen[f] && moved[f] == r;
        assert after[f] == r;
      } else {
        assert after[d] == r;
      }
    }
    assert after[c] == row;
    forall d, f | 0 <= d < f < |owners| && !before[d] && !before[f] && after[d] != -1
      ensures after[d] != after[f]
    {
      if d != c && f != c {
        if !seen[d] && seen[f] {
          assert after[d] in Rows(moved, seen);
          assert after[f] == owners[f];
        } else if seen[d] && !seen[f] && after[f] != -1 {
          assert after[f] in Rows(moved, seen);
          assert after[d] == owners[d];
        }
      }
    }
  }

  /** Once column `c` is seen, its owner may look for another column. */
  lemma MayMove(owners: seq<int>, before: seq<bool>, now: seq<bool>, c: nat)
    requires |owners| == |before| == |now| && c < |owners| && Injective(owners, before)
    requires !before[c] && now[c] && forall d :: 0 <= d < |now| && before[d] ==> now[d]
    requires owners[c] != -1
    ensures Injective(owners, now) && owners[c] !in Rows(owners, now)
  {
  }

  lemma StaysCompatible(edges: Edges, owners: seq<int>, c: nat, row: nat)
    requires Rectangular(edges, |owners|) && Compatible(edges, owners) && c < |owners| && row < |edges| && edges[row][c]
    ensures Compatible(edges, owners[c := row])
  {
  }

  lemma FewerUnseen(before: seq<bool>, now: seq<bool>, c: nat)
    requires |before| == |now| && c < |now| && !before[c] && now[c]
    requires forall d :: 0 <= d < |now| && before[d] ==> now[d]
    ensures Unseen(now) < Unseen(before)
  {
    assert c in Unseen(before) && c !in Unseen(now);
  }

  /** A failed search from the owner of column `c` extends what has been searched. */
  lemma SearchedFurther(edges: Edges, owners: seq<int>, before: seq<bool>, was: seq<bool>, later: seq<bool>, c: nat)
    requires Rectangular(edges, |owners|) && |before| == |was| == |later| == |owners| && c < |owners|
    requires ClosedSince(edges, owners, before, was) && ClosedSince(edges, owners, was[c := true], later)
    requires 0 <= owners[c] < |edges| && Covered(edges[owners[c]], later)
    requires forall d :: 0 <= d < |owners| && was[d] ==> later[d]
    ensures ClosedSince(edges, owners, before, later)
  {
  }

  /** Finds a call for `row` by moving owners along an augmenting path through calls
      not seen yet, in place. On success exactly `row` is newly matched; on failure
      nothing changed and every call reachable from `row` has been seen. */
  method BindExpected(edges: Edges, owners: array<int>, seen: array<bool>, row: nat) returns (bound: bool)
    requires owners != seen as object && owners.Length == seen.Length && row < |edges|
    requires Rectangular(edges, owners.Length) && Compatible(edges, owners[..])
    requires Injective(owners[..], seen[..]) && row !in Rows(owners[..], seen[..])
    modifies owners, seen
    ensures forall c :: 0 <= c < owners.Length && old(seen[c]) ==> seen[c] && owners[c] == old(owners[c])
    ensures Compatible(edges, owners[..])
    ensures bound ==> Injective(owners[..], old(seen[..])) &&
                      Rows(owners[..], old(seen[..])) == old(Rows(owners[..], seen[..])) + {row}
    ensures !bound ==> owners[..] == old(owners[..]) && Covered(edges[row], seen[..]) &&
                       ClosedSince(edges, owners[..], old(seen[..]), seen[..])
    decreases Unseen(seen[..])
  {
    ghost var before, start := seen[..], owners[..];
    var c := 0;
    while c < owners.Length
      invariant 0 <= c <= owners.Length
      invariant owners[..] == start
      invariant forall d :: 0 <= d < owners.Length && before[d] ==> seen[d]
      invariant forall d :: 0 <= d < c && edges[row][d] ==> seen[d]
      invariant ClosedSince(edges, start, before, seen[..])
    {
      if edges[row][c] && !seen[c] {
        ghost var was := seen[..];
        seen[c] := true;
        ghost var now := seen[..];
        FewerUnseen(before, now, c);
        var free := owners[c] == -1;
        if !free {
          MayMove(start, before, now, c);
          free := BindExpected(edges, owners, seen, owners[c]);
        }
        if free {
          ghost var theirs := owners[..];
          Rebound(start, before, now, theirs, c, row);
          StaysCompatible(edges, theirs, c, row);
          owners[c] := row;
          assert owners[..] == theirs[c := row];
          return true;
        }
        assert now == was[c := true];
        SearchedFurther(edges, start, before, was, seen[..], c);
      }
      c := c + 1;
    }
    bound := false;
  }

  // ---------------------------------------------------------------- certificates

  function NoneSeen(made: nat): seq<bool> {
    seq(made, _ => false)
  }

  function Matched(owners: seq<int>): set<int> {
    Rows(owners, NoneSeen(|owners|))
  }

  /** The tools owning the calls in `calls`. */
  function OwnersOf(owners: seq<int>, calls: set<int>): set<int>
    requires forall c :: c in calls ==> 0 <= c < |owners|
  {
    set c | c in calls :: owners[c]
  }

  /** Every call a tool in `tools` could use is in `calls`. */
  predicate Confined(edges: Edges, made: nat, tools: set<int>, calls: set<int>)
    requires Rectangular(edges, made)
  {
    && (forall r :: r in tools ==> 0 <= r < |edges|)
    && (forall c :: c in calls ==> 0 <= c < made)
    && (forall r, c :: r in tools && 0 <= c < made && edges[r][c] ==> c in calls)
  }

  function FirstRows(n: nat): (s: set<int>)
    ensures forall x :: x in s <==> 0 <= x < n
    ensures |s| == n
  {
    if n == 0 then {} else FirstRows(n - 1) + {n - 1}
  }

  lemma {:induction false} ImageSize(owners: seq<int>, calls: set<int>)
    requires forall c :: c in calls ==> 0 <= c < |owners|
    ensures |OwnersOf(owners, calls)| <= |calls|
    ensures (forall c, d :: c in calls && d in calls && c != d ==> owners[c] != owners[d]) ==>
              |OwnersOf(owners, calls)| == |calls|
    decreases calls
  {
    if calls != {} {
      var c := Pick(calls);
      ImageSize(owners, calls - {c});
      assert OwnersOf(owners, calls) == OwnersOf(owners, calls - {c}) + {owners[c]};
      if forall d, f :: d in calls && f in calls && d != f ==> owners[d] != owners[f] {
        assert owners[c] !in OwnersOf(owners, calls - {c});
      }
    }
  }

  /** The first `rows` tools were processed, `matched` of them have a call, and
      `tools` compete for the too few `calls`. */
  ghost predicate Certified(edges: Edges, owners: seq<int>, rows: nat, matched: nat, tools: set<int>, calls: set<int>)
    requires Rectangular(edges, |owners|)
  {
    && rows <= |edges| && Compatible(edges, owners) && Injective(owners, NoneSeen(|owners|))
    && (forall r :: r in Matched(owners) ==> 0 <= r < rows) && |Matched(owners)| == matched
    && (forall r :: r in tools ==> 0 <= r < rows)
    && Confined(edges, |owners|, tools, calls)
    && matched == rows - |tools| + |calls|
  }

  /** Matched tools outside `tools` are few, and those inside own contested calls. */
  lemma MatchedSplit(edges: Edges, owners: seq<int>, rows: nat, matched: nat, tools: set<int>, calls: set<int>,
      held: set<int>)
    requires Rectangular(edges, |owners|) && Certified(edges, owners, rows, matched, tools, calls)
    requires held == set c | c in calls && owners[c] in tools
    ensures matched <= rows - |tools| + |held|
  {
    var inside := Matched(owners) * tools;
    var outside := Matched(owners) - tools;
    forall r | r in inside
      ensures r in OwnersOf(owners, held)
    {
      var c :| 0 <= c < |owners| && owners[c] == r && owners[c] != -1;
      assert c in held;
    }
    SubsetSize(inside, OwnersOf(owners, held));
    ImageSize(owners, held);
    RemainderSize(rows, tools, outside);
    assert Matched(owners) == inside + outside;
  }

  lemma RemainderSize(rows: nat, tools: set<int>, outside: set<int>)
    requires forall r :: r in tools || r in outside ==> 0 <= r < rows
    requires tools !! outside
    ensures |outside| <= rows - |tools|
  {
    SubsetSize(tools + outside, FirstRows(rows));
  }

  /** In a certified state every contested call is owned by a competing tool. */
  lemma ContestedAreOwned(edges: Edges, owners: seq<int>, rows: nat, matched: nat, tools: set<int>, calls: set<int>)
    requires Rectangular(edges, |owners|) && Certified(edges, owners, rows, matched, tools, calls)
    ensures forall c :: c in calls ==> owners[c] in tools
  {
    var held := set c | c in calls && owners[c] in tools;
    MatchedSplit(edges, owners, rows, matched, tools, calls, held);
    forall c | c in calls
      ensures owners[c] in tools
    {
      if c !in held { SubsetSize(held, calls - {c}); }
    }
  }

  /** Each newly contested call brings exactly one new competitor. */
  lemma ReachedGrow(edges: Edges, owners: seq<int>, reached: set<int>, rows: nat, matched: nat, tools: set<int>,
      calls: set<int>)
    requires Rectangular(edges, |owners|) && Certified(edges, owners, rows, matched, tools, calls)
    requires forall c :: c in reached ==> 0 <= c < |owners| && owners[c] != -1
    ensures |tools + OwnersOf(owners, reached)| == |tools| + |reached - calls|
    ensures |calls + reached| == |calls| + |reached - calls|
  {
    var gained := reached - calls;
    ContestedAreOwned(edges, owners, rows, matched, tools, calls);
    ImageSize(owners, gained);
    forall c | c in gained
      ensures owners[c] !in tools
    {
      assert edges[owners[c]][c];
    }
    assert tools !! OwnersOf(owners, gained);
    assert tools + OwnersOf(owners, reached) == tools + OwnersOf(owners, gained);
    assert calls + reached == calls + gained;
  }

  /** After a failed search for tool `rows`, the reached tools and the seen calls
      extend the certificate to it. */
  lemma FailureExtends(edges: Edges, owners: seq<int>, seen: seq<bool>, rows: nat, matched: nat, tools: set<int>,
      calls: set<int>)
      returns (tools': set<int>, calls': set<int>)
    requires Rectangular(edges, |owners|) && Certified(edges, owners, rows, matched, tools, calls)
    requires rows < |edges| && |seen| == |owners|
    requires Covered(edges[rows], seen) && ClosedSince(edges, owners, NoneSeen(|owners|), seen)
    ensures Certified(edges, owners, rows + 1, matched, tools', calls')
  {
    var reached := set c | 0 <= c < |owners| && seen[c];
    ReachedAreMatched(edges, owners, seen, reached);
    var grown := tools + OwnersOf(owners, reached);
    assert forall r :: r in grown ==> 0 <= r < rows;
    tools' := grown + {rows};
    calls' := calls + reached;
    assert Confined(edges, |owners|, tools', calls') by {
      ReachedConfined(edges, owners, seen, rows, tools, calls, tools', calls');
    }
    assert matched == rows - |grown| + |calls'| by {
      ReachedGrow(edges, owners, reached, rows, matched, tools, calls);
    }
    assert |tools'| == |grown| + 1;
  }

  lemma ReachedAreMatched(edges: Edges, owners: seq<int>, seen: seq<bool>, reached: set<int>)
    requires Rectangular(edges, |owners|) && |seen| == |owners| && ClosedSince(edges, owners, NoneSeen(|owners|), seen)
    requires reached == set c | 0 <= c < |owners| && seen[c]
    ensures forall r :: r in OwnersOf(owners, reached) ==> r in Matched(owners)
    ensures forall c :: c in reached ==> owners[c] != -1
  {
  }

  lemma ReachedConfined(edges: Edges, owners: seq<int>, seen: seq<bool>, rows: nat, tools: set<int>, calls: set<int>,
      tools': set<int>, calls': set<int>)
    requires Rectangular(edges, |owners|) && Compatible(edges, owners) && Confined(edges, |owners|, tools, calls)
    requires rows < |edges| && |seen| == |owners|
    requires Covered(edges[rows], seen) && ClosedSince(edges, owners, NoneSeen(|owners|), seen)
    requires tools' == tools + OwnersOf(owners, set c | 0 <= c < |owners| && seen[c]) + {rows}
    requires forall c :: c in calls' <==> c in calls || (0 <= c < |owners| && seen[c])
    ensures Confined(edges, |owners|, tools', calls')
  {
  }

  /** A certificate bounds every assignment. */
  lemma CertificateBounds(edges: Edges, owners: seq<int>, matched: nat, tools: set<int>, calls: set<int>,
      m: map<int, int>)
    requires Rectangular(edges, |owners|) && Certified(edges, owners, |edges|, matched, tools, calls)
    requires Assignment(edges, |owners|, m)
    ensures |m| <= matched
  {
    var inside := m.Keys * tools;
    var outside := m.Keys - tools;
    var used := set r | r in inside :: m[r];
    MapImageSize(m, inside);
    assert used <= calls;
    SubsetSize(used, calls);
    RemainderSize(|edges|, tools, outside);
    assert m.Keys == inside + outside;
  }

  lemma {:induction false} MapImageSize(m: map<int, int>, keys: set<int>)
    requires keys <= m.Keys
    requires forall r, q :: r in m && q in m && r != q ==> m[r] != m[q]
    ensures |set r | r in keys :: m[r]| == |keys|
    decreases keys
  {
    if keys != {} {
      var k := Pick(keys);
      MapImageSize(m, keys - {k});
      assert (set r | r in keys :: m[r]) == (set r | r in keys - {k} :: m[r]) + {m[k]};
    }
  }

  /** The owners, read as an assignment. */
  lemma OwnersAssign(edges: Edges, owners: seq<int>) returns (m: map<int, int>)
    requires Rectangular(edges, |owners|) && Compatible(edges, owners) && Injective(owners, NoneSeen(|owners|))
    ensures Assignment(edges, |owners|, m) && m.Keys == Matched(owners)
  {
    m := map r | r in Matched(owners) :: var c :| 0 <= c < |owners| && owners[c] == r; c;
  }

  /** The unordered matcher: the result is the size of a maximum one-to-one
      assignment of expected tools to calls. */
  method MatchUnordered(edges: Edges, made: nat) returns (matched: nat)
    requires Rectangular(edges, made)
    ensures matched <= |edges|
    ensures exists m :: Assignment(edges, made, m) && |m| == matched
    ensures forall m :: Assignment(edges, made, m) ==> |m| <= matched
  {
    matched := 0;
    var owners := new int[made](_ => -1);
    ghost var tools: set<int>, calls: set<int> := {}, {};
    var i := 0;
    assert Matched(owners[..]) == {};
    while i < |edges|
      invariant 0 <= i <= |edges| && matched <= i
      invariant Certified(edges, owners[..], i, matched, tools, calls)
    {
      var seen := new bool[made](_ => false);
      assert seen[..] == NoneSeen(made);
      ghost var before := owners[..];
      var bound := BindExpected(edges, owners, seen, i);
      if bound {
        assert Matched(owners[..]) == Matched(before) + {i};
        matched := matched + 1;
      } else {
        tools, calls := FailureExtends(edges, owners[..], seen[..], i, matched, tools, calls);
      }
      i := i + 1;
    }
    ghost var m := OwnersAssign(edges, owners[..]);
    assert Assignment(edges, made, m) && |m| == matched;
    forall m | Assignment(edges, made, m)
      ensures |m| <= matched
    {
      CertificateBounds(edges, owners[..], matched, tools, calls, m);
    }
  }

  // ---------------------------------------------------------------- ordered matching

  /** Calls at strictly increasing positions for the first `|f|` expected tools. */
  predicate Embedding(edges: Edges, made: nat, f: seq<int>)
    requires Rectangular(edges, made)
  {
    && |f| <= |edges|
    && (forall i :: 0 <= i < |f| ==> 0 <= f[i] < made && edges[i][f[i]])
    && (forall i, j :: 0 <= i < j < |f| ==> f[i] < f[j])
  }

  /** The first compatible call from `c` on, or the end of the row. */
  function FirstFrom(row: seq<bool>, c: nat): (j: nat)
    requires c <= |row|
    ensures c <= j <= |row| && (j < |row| ==> row[j]) && forall k :: c <= k < j ==> !row[k]
    decreases |row| - c
  {
    if c == |row| || row[c] then c else FirstFrom(row, c + 1)
  }

  /** What the ordered matcher counts from tool `i` and call `c` on: each tool takes the
      first compatible call that is left. */
  function Greedy(edges: Edges, made: nat, i: nat, c: nat): nat
    requires Rectangular(edges, made) && i <= |edges| && c <= made
    decreases |edges| - i
  {
    if i == |edges| then 0
    else
      var j := FirstFrom(edges[i], c);
      if j < made then 1 + Greedy(edges, made, i + 1, j + 1) else Greedy(edges, made, i + 1, c)
  }

  datatype Pair = Pair(tool: int, call: int)

  /** Some of the tools from `i` on, in order, with compatible calls from `c` on, in
      order. */
  ghost predicate InOrder(edges: Edges, made: nat, i: nat, c: nat, chain: seq<Pair>)
    requires Rectangular(edges, made)
  {
    && (forall k :: 0 <= k < |chain| ==>
          i <= chain[k].tool < |edges| && c <= chain[k].call < made && edges[chain[k].tool][chain[k].call])
    && (forall k, m :: 0 <= k < m < |chain| ==> chain[k].tool < chain[m].tool && chain[k].call < chain[m].call)
  }

  /** The size of a largest in-order choice: a tool is skipped, or takes its first call. */
  function Best(edges: Edges, made: nat, i: nat, c: nat): nat
    requires Rectangular(edges, made) && i <= |edges| && c <= made
    decreases |edges| - i
  {
    if i == |edges| then 0
    else
      var j := FirstFrom(edges[i], c);
      var skip := Best(edges, made, i + 1, c);
      if j < made && 1 + Best(edges, made, i + 1, j + 1) > skip then 1 + Best(edges, made, i + 1, j + 1) else skip
  }

  lemma Prepend(edges: Edges, made: nat, i: nat, c: nat, j: nat, rest: seq<Pair>)
    requires Rectangular(edges, made) && i < |edges| && c <= j < made && edges[i][j]
    requires InOrder(edges, made, i + 1, j + 1, rest)
    ensures InOrder(edges, made, i, c, [Pair(i, j)] + rest)
  {
  }

  /** The greedy count is the size of an in-order choice. */
  lemma {:induction false} GreedyIsReached(edges: Edges, made: nat, i: nat, c: nat) returns (chain: seq<Pair>)
    requires Rectangular(edges, made) && i <= |edges| && c <= made
    ensures InOrder(edges, made, i, c, chain) && |chain| == Greedy(edges, made, i, c)
    decreases |edges| - i
  {
    if i == |edges| {
      chain := [];
    } else {
      var j := FirstFrom(edges[i], c);
      if j < made {
        chain := GreedyIsReached(edges, made, i + 1, j + 1);
        Prepend(edges, made, i, c, j, chain);
        chain := [Pair(i, j)] + chain;
      } else {
        chain := GreedyIsReached(edges, made, i + 1, c);
      }
    }
  }

  /** Some in-order choice has the best size. */
  lemma {:induction false} BestIsReached(edges: Edges, made: nat, i: nat, c: nat) returns (chain: seq<Pair>)
    requires Rectangular(edges, made) && i <= |edges| && c <= made
    ensures InOrder(edges, made, i, c, chain) && |chain| == Best(edges, made, i, c)
    decreases |edges| - i
  {
    if i == |edges| {
      chain := [];
    } else {
      var j := FirstFrom(edges[i], c);
      if Best(edges, made, i, c) == Best(edges, made, i + 1, c) {
        chain := BestIsReached(edges, made, i + 1, c);
      } else {
        chain := BestIsReached(edges, made, i + 1, j + 1);
        Prepend(edges, made, i, c, j, chain);
        chain := [Pair(i, j)] + chain;
      }
    }
  }

  /** No in-order choice is larger. */
  lemma {:induction false} BestIsLargest(edges: Edges, made: nat, i: nat, c: nat, chain: seq<Pair>)
    requires Rectangular(edges, made) && i <= |edges| && c <= made && InOrder(edges, made, i, c, chain)
    ensures |chain| <= Best(edges, made, i, c)
    decreases |edges| - i
  {
    assert chain == [] || i <= chain[0].tool < |edges|;
    if i < |edges| && chain != [] {
      if chain[0].tool == i {
        BestIsLargest(edges, made, i + 1, FirstFrom(edges[i], c) + 1, chain[1..]);
      } else {
        BestIsLargest(edges, made, i + 1, c, chain);
      }
    }
  }

  /** No tool that takes a call on the greedy way costs the later ones two matches: left
      without it they gain at most the one it makes. This looks for the best choices of
      the later tools, at every take; `NoUsefulSkip` below is a condition on the table
      alone. */
  predicate NoCostlyTake(edges: Edges, made: nat, i: nat, c: nat)
    requires Rectangular(edges, made) && i <= |edges| && c <= made
    decreases |edges| - i
  {
    i == |edges| ||
    var j := FirstFrom(edges[i], c);
    if j < made then
      Best(edges, made, i + 1, c) <= 1 + Best(edges, made, i + 1, j + 1) && NoCostlyTake(edges, made, i + 1, j + 1)
    else NoCostlyTake(edges, made, i + 1, c)
  }

  /** The greedy count is the largest in-order count exactly when no take is costly. */
  lemma {:induction false} GreedyIsBestExactly(edges: Edges, made: nat, i: nat, c: nat)
    requires Rectangular(edges, made) && i <= |edges| && c <= made
    ensures Greedy(edges, made, i, c) <= Best(edges, made, i, c)
    ensures Greedy(edges, made, i, c) == Best(edges, made, i, c) <==> NoCostlyTake(edges, made, i, c)
    decreases |edges| - i
  {
    if i < |edges| {
      var j := FirstFrom(edges[i], c);
      GreedyIsBestExactly(edges, made, i + 1, if j < made then j + 1 else c);
    }
  }

  /** On the greedy way, no tool passes over a call that a later one could use. */
  predicate NoUsefulSkip(edges: Edges, made: nat, i: nat, c: nat)
    requires Rectangular(edges, made) && i <= |edges| && c <= made
    decreases |edges| - i
  {
    i == |edges| ||
    var j := FirstFrom(edges[i], c);
    if j < made then
      (forall m, k :: i < m < |edges| && c <= k < j ==> !edges[m][k]) && NoUsefulSkip(edges, made, i + 1, j + 1)
    else NoUsefulSkip(edges, made, i + 1, c)
  }

  /** Then the greedy count is the largest, without looking for better choices. */
  lemma {:induction false} NoUsefulSkipIsBest(edges: Edges, made: nat, i: nat, c: nat)
    requires Rectangular(edges, made) && i <= |edges| && c <= made && NoUsefulSkip(edges, made, i, c)
    ensures Greedy(edges, made, i, c) == Best(edges, made, i, c)
    decreases |edges| - i
  {
    GreedyIsBestExactly(edges, made, i, c);
    if i < |edges| {
      var j := FirstFrom(edges[i], c);
      NoUsefulSkipIsBest(edges, made, i + 1, if j < made then j + 1 else c);
      if j < made { LaterChoice(edges, made, i, c); }
    }
  }

  /** When no later tool can use a call before `j`, starting behind `j` costs at most
      one match. */
  lemma LaterChoice(edges: Edges, made: nat, i: nat, c: nat)
    requires Rectangular(edges, made) && i < |edges| && c <= made
    requires var j := FirstFrom(edges[i], c);
             j < made && forall m, k :: i < m < |edges| && c <= k < j ==> !edges[m][k]
    ensures Best(edges, made, i + 1, c) <= 1 + Best(edges, made, i + 1, FirstFrom(edges[i], c) + 1)
  {
    var j := FirstFrom(edges[i], c);
    var chain := BestIsReached(edges, made, i + 1, c);
    if chain != [] {
      forall k | 1 <= k < |chain|
        ensures chain[k].call > j
      {
        assert chain[0].call >= j;
      }
      assert InOrder(edges, made, i + 1, j + 1, chain[1..]);
      BestIsLargest(edges, made, i + 1, j + 1, chain[1..]);
    }
  }

  /** Three tools and three calls where the first tool takes the last call: the matcher
      counts one, though two can be matched in order. */
  lemma GreedyFallsShort()
    ensures var edges := [[false, false, true], [true, false, false], [false, true, false]];
            && Greedy(edges, 3, 0, 0) == 1
            && InOrder(edges, 3, 0, 0, [Pair(1, 0), Pair(2, 1)])
            && !NoCostlyTake(edges, 3, 0, 0)
  {
    var edges := [[false, false, true], [true, false, false], [false, true, false]];
    assert FirstFrom(edges[0], 0) == 2;
    assert Greedy(edges, 3, 1, 3) == Greedy(edges, 3, 2, 3) == Greedy(edges, 3, 3, 3) == 0;
    assert InOrder(edges, 3, 0, 0, [Pair(1, 0), Pair(2, 1)]);
    BestIsLargest(edges, 3, 0, 0, [Pair(1, 0), Pair(2, 1)]);
    GreedyIsBestExactly(edges, 3, 0, 0);
  }

  /** When all tools can be matched in order, the greedy matcher does it. */
  lemma {:induction false} FullIsGreedy(edges: Edges, made: nat, i: nat, c: nat)
    requires Rectangular(edges, made) && i <= |edges| && c <= made
    ensures Best(edges, made, i, c) <= |edges| - i
    ensures Best(edges, made, i, c) == |edges| - i ==> Greedy(edges, made, i, c) == |edges| - i
    decreases |edges| - i
  {
    if i < |edges| {
      var j := FirstFrom(edges[i], c);
      FullIsGreedy(edges, made, i + 1, c);
      if j < made { FullIsGreedy(edges, made, i + 1, j + 1); }
    }
  }

  lemma {:induction false} FullChainIsEmbedding(edges: Edges, made: nat, chain: seq<Pair>, k: nat)
    requires Rectangular(edges, made) && InOrder(edges, made, 0, 0, chain) && |chain| == |edges| && k < |chain|
    ensures k <= chain[k].tool
    ensures chain[k].tool <= k
  {
    ToolsAdvance(edges, made, chain, 0, k);
    ToolsAdvance(edges, made, chain, k, |chain| - 1);
  }

  lemma {:induction false} ToolsAdvance(edges: Edges, made: nat, chain: seq<Pair>, k: nat, m: nat)
    requires Rectangular(edges, made) && InOrder(edges, made, 0, 0, chain) && k <= m < |chain|
    ensures chain[m].tool - chain[k].tool >= m - k
    decreases m
  {
    if k < m { ToolsAdvance(edges, made, chain, k, m - 1); }
  }

  /** The greedy matcher matches everything exactly when some increasing choice does. */
  lemma FullExactly(edges: Edges, made: nat)
    requires Rectangular(edges, made)
    ensures Greedy(edges, made, 0, 0) <= |edges|
    ensures Greedy(edges, made, 0, 0) == |edges| <==> exists f :: Embedding(edges, made, f) && |f| == |edges|
  {
    FullIsGreedy(edges, made, 0, 0);
    GreedyIsBestExactly(edges, made, 0, 0);
    if Greedy(edges, made, 0, 0) == |edges| {
      var chain := GreedyIsReached(edges, made, 0, 0);
      forall k | 0 <= k < |chain|
        ensures chain[k].tool == k
      {
        FullChainIsEmbedding(edges, made, chain, k);
      }
      var f := seq(|chain|, k requires 0 <= k < |chain| => chain[k].call);
      assert Embedding(edges, made, f);
    }
    forall f | Embedding(edges, made, f) && |f| == |edges|
      ensures Greedy(edges, made, 0, 0) == |edges|
    {
      var chain := seq(|f|, k requires 0 <= k < |f| => Pair(k, f[k]));
      assert InOrder(edges, made, 0, 0, chain);
      BestIsLargest(edges, made, 0, 0, chain);
    }
  }

  method FirstCompatible(row: seq<bool>, cursor: nat) returns (j: nat)
    requires cursor <= |row|
    ensures j == FirstFrom(row, cursor)
  {
    j := cursor;
    while j < |row| && !row[j]
      invariant cursor <= j <= |row|
      invariant FirstFrom(row, j) == FirstFrom(row, cursor)
    {
      j := j + 1;
    }
  }

  /** The ordered matcher: each tool takes the first compatible call after the previous
      one. It counts an in-order choice, and everything exactly when some increasing
      choice serves all tools. */
  method MatchOrdered(edges: Edges, made: nat) returns (matched: nat)
    requires Rectangular(edges, made)
    ensures matched == Greedy(edges, made, 0, 0) <= |edges|
    ensures exists chain :: InOrder(edges, made, 0, 0, chain) && |chain| == matched
    ensures matched == |edges| <==> exists f :: Embedding(edges, made, f) && |f| == |edges|
  {
    matched := 0;
    var cursor := 0;
    var i := 0;
    while i < |edges|
      invariant 0 <= i <= |edges| && 0 <= cursor <= made
      invariant matched + Greedy(edges, made, i, cursor) == Greedy(edges, made, 0, 0)
    {
      var j := FirstCompatible(edges[i], cursor);
      if j < made {
        cursor := j + 1;
        matched := matched + 1;
      }
      i := i + 1;
    }
    ghost var chain := GreedyIsReached(edges, made, 0, 0);
    FullExactly(edges, made);
  }

  // ---------------------------------------------------------------- the check

  /** Whether the calls are a legal realisation of the expectation. */
  ghost predicate Satisfied(edges: Edges, made: nat, ordered: bool)
    requires Rectangular(edges, made)
  {
    if ordered then exists f :: Embedding(edges, made, f) && |f| == |edges|
    else exists m :: Assignment(edges, made, m) && |m| == |edges|
  }

  /** The check passes exactly when every actual argument decoded, an exact
      expectation has as many tools as there are calls, and a legal assignment of
      all expected tools exists. The count behind the score is the greedy one when order
      matters, and else the largest. */
  method Evaluate(edges: Edges, made: nat, ordered: bool, exact: bool, diagnostics: nat)
      returns (passed: bool, matched: nat)
    requires Rectangular(edges, made)
    ensures passed <==> diagnostics == 0 && (exact ==> |edges| == made) && Satisfied(edges, made, ordered)
    ensures matched == |edges| <==> Satisfied(edges, made, ordered)
    ensures ordered ==> matched == Greedy(edges, made, 0, 0)
    ensures !ordered ==>
              && (exists m :: Assignment(edges, made, m) && |m| == matched)
              && forall m :: Assignment(edges, made, m) ==> |m| <= matched
  {
    if ordered {
      matched := MatchOrdered(edges, made);
    } else {
      matched := MatchUnordered(edges, made);
    }
    passed := matched == |edges| && (!exact || |edges| == made) && diagnostics == 0;
  }
}
