/** Matching of decoded JSON values, and the compatibility of expected tools with the
    calls that were made. */
module JsonSubset {
  import opened Basics
  import opened Collections
  import Decimals
  import ToolMatching

  /** A number lexeme that passed JSON validation. */
  type Numeral = n: Decimals.Number | Decimals.WellFormed(n)
    witness Decimals.Number(false, "0", None, None)

  /** A decoded value; numbers keep their lexemes. */
  datatype Json =
    | Null
    | Boolean(truth: bool)
    | Text(text: string)
    | Number(lexeme: Numeral)
    | Array(items: seq<Json>)
    | Object(fields: map<string, Json>)

  /** The code's comparison. Objects may have further fields unless `exact`; whatever
      is inside an array is compared exactly. */
  predicate Subset(expected: Json, actual: Json, exact: bool)
    decreases expected
  {
    match expected
    case Object(fields) =>
      && actual.Object?
      && (exact ==> |fields| == |actual.fields|)
      && forall name :: name in fields ==> name in actual.fields && Subset(fields[name], actual.fields[name], exact)
    case Array(items) =>
      && actual.Array?
      && |items| == |actual.items|
      && forall i :: 0 <= i < |items| ==> Subset(items[i], actual.items[i], true)
    case Number(lexeme) =>
      actual.Number? && Decimals.DecimalValue(Decimals.Text(lexeme)) ==
        Decimals.DecimalValue(Decimals.Text(actual.lexeme))
    case Text(text) => actual.Text? && text == actual.text
    case Boolean(truth) => actual.Boolean? && truth == actual.truth
    case Null => actual.Null?
  }

  // ---------------------------------------------------------------- values

  /** What a JSON text denotes: numbers are numbers, not lexemes. */
  datatype Value =
    | Nothing
    | Truth(truth: bool)
    | Characters(text: string)
    | Quantity(number: real)
    | List(items: seq<Value>)
    | Record(fields: map<string, Value>)

  ghost function Meaning(j: Json): Value {
    match j
    case Null => Nothing
    case Boolean(truth) => Truth(truth)
    case Text(text) => Characters(text)
    case Number(lexeme) => Quantity(Decimals.Denotes(lexeme))
    case Array(items) => List(seq(|items|, i requires 0 <= i < |items| => Meaning(items[i])))
    case Object(fields) => Record(map name | name in fields :: Meaning(fields[name]))
  }

  /** A record is included in one that has at least its fields; any other value only
      in itself. */
  ghost predicate Includes(small: Value, large: Value)
    decreases small
  {
    if small.Record? then
      && large.Record?
      && forall name :: name in small.fields ==>
        name in large.fields && Includes(small.fields[name], large.fields[name])
    else small == large
  }

  /** The exact comparison is equality of values. */
  lemma {:induction false} ExactIsEquality(a: Json, b: Json)
    ensures Subset(a, b, true) <==> Meaning(a) == Meaning(b)
    decreases a
  {
    if a.Object? && b.Object? {
      forall name | name in a.fields && name in b.fields
        ensures Subset(a.fields[name], b.fields[name], true) <==> Meaning(a.fields[name]) == Meaning(b.fields[name])
      {
        ExactIsEquality(a.fields[name], b.fields[name]);
      }
      ExactObjects(a.fields, b.fields);
    } else if a.Array? && b.Array? {
      forall i | 0 <= i < |a.items| && i < |b.items|
        ensures Subset(a.items[i], b.items[i], true) <==> Meaning(a.items[i]) == Meaning(b.items[i])
      {
        ExactIsEquality(a.items[i], b.items[i]);
      }
      ExactArrays(a.items, b.items);
    } else if a.Number? && b.Number? {
      Decimals.SameFormExactly(a.lexeme, b.lexeme);
    }
  }

  ghost predicate Agree(a: map<string, Json>, b: map<string, Json>) {
    forall name :: name in a && name in b ==> (Subset(a[name], b[name], true) <==> Meaning(a[name]) == Meaning(b[name]))
  }

  lemma SameFieldsSameMeaning(a: map<string, Json>, b: map<string, Json>)
    requires a.Keys == b.Keys && forall name :: name in a ==> Meaning(a[name]) == Meaning(b[name])
    ensures Meaning(Object(a)) == Meaning(Object(b))
  {
    var m, n := Meaning(Object(a)).fields, Meaning(Object(b)).fields;
    assert m.Keys == n.Keys;
    assert m == n;
  }

  lemma SameMeaningSameFields(a: map<string, Json>, b: map<string, Json>)
    requires Meaning(Object(a)) == Meaning(Object(b))
    ensures a.Keys == b.Keys && forall name :: name in a ==> Meaning(a[name]) == Meaning(b[name])
  {
    var m, n := Meaning(Object(a)).fields, Meaning(Object(b)).fields;
    assert m.Keys == a.Keys && n.Keys == b.Keys;
    forall name | name in a
      ensures Meaning(a[name]) == Meaning(b[name])
    {
      assert m[name] == n[name];
    }
  }

  lemma ExactObjects(a: map<string, Json>, b: map<string, Json>)
    requires Agree(a, b)
    ensures Subset(Object(a), Object(b), true) <==> Meaning(Object(a)) == Meaning(Object(b))
  {
    assert |a| == |a.Keys| && |b| == |b.Keys|;
    if Subset(Object(a), Object(b), true) {
      assert a.Keys <= b.Keys;
      SubsetSize(a.Keys, b.Keys);
      SameFieldsSameMeaning(a, b);
    }
    if Meaning(Object(a)) == Meaning(Object(b)) { SameMeaningSameFields(a, b); }
  }

  lemma ExactArrays(a: seq<Json>, b: seq<Json>)
    requires forall i :: 0 <= i < |a| && i < |b| ==> (Subset(a[i], b[i], true) <==> Meaning(a[i]) == Meaning(b[i]))
    ensures Subset(Array(a), Array(b), true) <==> Meaning(Array(a)) == Meaning(Array(b))
  {
    var m, n := Meaning(Array(a)).items, Meaning(Array(b)).items;
    assert |m| == |a| && |n| == |b|;
    if Subset(Array(a), Array(b), true) {
      assert m == n;
    }
    if m == n {
      forall i | 0 <= i < |a|
        ensures Meaning(a[i]) == Meaning(b[i])
      {
        assert m[i] == n[i];
      }
    }
  }

  /** The inexact comparison is inclusion of values. */
  lemma {:induction false} InexactIsInclusion(a: Json, b: Json)
    ensures Subset(a, b, false) <==> Includes(Meaning(a), Meaning(b))
    decreases a
  {
    if a.Object? {
      if b.Object? {
        var m, n := Meaning(a).fields, Meaning(b).fields;
        assert m.Keys == a.fields.Keys && n.Keys == b.fields.Keys;
        forall name | name in a.fields && name in b.fields
          ensures Subset(a.fields[name], b.fields[name], false) <==> Includes(m[name], n[name])
        {
          InexactIsInclusion(a.fields[name], b.fields[name]);
        }
      }
    } else {
      ExactIsEquality(a, b);
      assert Subset(a, b, false) == Subset(a, b, true);
    }
  }

  // ---------------------------------------------------------------- inclusion is an order

  lemma {:induction false} IncludesItself(v: Value)
    ensures Includes(v, v)
  {
    if v.Record? {
      forall name | name in v.fields
        ensures Includes(v.fields[name], v.fields[name])
      {
        IncludesItself(v.fields[name]);
      }
    }
  }

  lemma {:induction false} InclusionComposes(u: Value, v: Value, w: Value)
    requires Includes(u, v) && Includes(v, w)
    ensures Includes(u, w)
  {
    if u.Record? {
      forall name | name in u.fields
        ensures name in w.fields && Includes(u.fields[name], w.fields[name])
      {
        InclusionComposes(u.fields[name], v.fields[name], w.fields[name]);
      }
    }
  }

  lemma {:induction false} InclusionIsAntisymmetric(u: Value, v: Value)
    requires Includes(u, v) && Includes(v, u)
    ensures u == v
  {
    if u.Record? {
      assert u.fields.Keys == v.fields.Keys;
      forall name | name in u.fields
        ensures u.fields[name] == v.fields[name]
      {
        InclusionIsAntisymmetric(u.fields[name], v.fields[name]);
      }
    }
  }

  /** The comparison the tool check uses is a partial order on values that exact
      comparison refines. */
  lemma SubsetIsOrder(a: Json, b: Json, c: Json)
    ensures Subset(a, a, false)
    ensures Subset(a, b, true) ==> Subset(a, b, false) && Subset(b, a, false)
    ensures Subset(a, b, false) && Subset(b, a, false) ==> Subset(a, b, true)
    ensures Subset(a, b, false) && Subset(b, c, false) ==> Subset(a, c, false)
  {
    InexactIsInclusion(a, a);
    InexactIsInclusion(a, b);
    InexactIsInclusion(b, a);
    InexactIsInclusion(b, c);
    InexactIsInclusion(a, c);
    ExactIsEquality(a, b);
    IncludesItself(Meaning(a));
    if Subset(a, b, false) && Subset(b, a, false) { InclusionIsAntisymmetric(Meaning(a), Meaning(b)); }
    if Subset(a, b, false) && Subset(b, c, false) { InclusionComposes(Meaning(a), Meaning(b), Meaning(c)); }
  }

  // ---------------------------------------------------------------- expected tools

  /** Expected arguments: left out, not JSON, or a value. */
  datatype Arguments = Absent | Malformed | Value(json: Json)

  datatype ExpectedTool = ExpectedTool(name: string, args: Arguments)
  /** A call made; its payload is `None` when it does not decode. */
  datatype Call = Call(name: string, payload: Option<Json>)

  /** Whether a call is the expected one: the same tool, arguments that decode, and
      all expected values among the actual ones. */
  ghost predicate Fits(tool: ExpectedTool, call: Call) {
    && tool.name == call.name
    && call.payload.Some?
    && !tool.args.Malformed?
    && (tool.args.Value? ==> Includes(Meaning(tool.args.json), Meaning(call.payload.value)))
  }

  ghost predicate Describes(edges: ToolMatching.Edges, expected: seq<ExpectedTool>, calls: seq<Call>) {
    && |edges| == |expected|
    && ToolMatching.Rectangular(edges, |calls|)
    && forall i, j :: 0 <= i < |expected| && 0 <= j < |calls| ==> (edges[i][j] <==> Fits(expected[i], calls[j]))
  }

  method ToolRow(tool: ExpectedTool, calls: seq<Call>) returns (row: seq<bool>)
    requires !tool.args.Malformed?
    ensures |row| == |calls|
    ensures forall j :: 0 <= j < |calls| ==> (row[j] <==> Fits(tool, calls[j]))
  {
    row := [];
    while |row| < |calls|
      invariant |row| <= |calls|
      invariant forall j :: 0 <= j < |row| ==> (row[j] <==> Fits(tool, calls[j]))
    {
      var call := calls[|row|];
      if tool.name != call.name || call.payload.None? {
        row := row + [false];
      } else if tool.args.Absent? {
        row := row + [true];
      } else {
        InexactIsInclusion(tool.args.json, call.payload.value);
        row := row + [Subset(tool.args.json, call.payload.value, false)];
      }
    }
  }

  /** Compatibility of every expected tool with every call. Malformed calls leave one
      diagnostic each; the first malformed expectation fails the whole check. */
  method ToolEdges(expected: seq<ExpectedTool>, calls: seq<Call>)
    returns (edges: Option<ToolMatching.Edges>, diagnostics: seq<nat>)
    ensures edges.None? <==> exists i :: 0 <= i < |expected| && expected[i].args.Malformed?
    ensures edges.Some? ==> Describes(edges.value, expected, calls)
    ensures forall j :: j in diagnostics <==> 0 <= j < |calls| && calls[j].payload.None?
    ensures forall p, q :: 0 <= p < q < |diagnostics| ==> diagnostics[p] < diagnostics[q]
  {
    diagnostics := [];
    for j := 0 to |calls|
      invariant forall k :: k in diagnostics <==> 0 <= k < j && calls[k].payload.None?
      invariant forall p, q :: 0 <= p < q < |diagnostics| ==> diagnostics[p] < diagnostics[q]
    {
      if calls[j].payload.None? {
        assert forall p :: 0 <= p < |diagnostics| ==> diagnostics[p] in diagnostics;
        diagnostics := diagnostics + [j];
      }
    }
    var rows: ToolMatching.Edges := [];
    while |rows| < |expected|
      invariant |rows| <= |expected|
      invariant forall i :: 0 <= i < |rows| ==> !expected[i].args.Malformed?
      invariant Describes(rows, expected[..|rows|], calls)
    {
      var tool := expected[|rows|];
      if tool.args.Malformed? {
        return None, diagnostics;
      }
      var row := ToolRow(tool, calls);
      rows := rows + [row];
    }
    assert expected[..|rows|] == expected;
    edges := Some(rows);
  }

  // ---------------------------------------------------------------- the whole check

  /** A one-to-one choice of calls for all expected tools; in order if asked. */
  ghost predicate Legal(expected: seq<ExpectedTool>, calls: seq<Call>, ordered: bool, choice: seq<int>) {
    && |choice| == |expected|
    && (forall i :: 0 <= i < |choice| ==> 0 <= choice[i] < |calls| && Fits(expected[i], calls[choice[i]]))
    && (forall i, j :: 0 <= i < j < |choice| ==> choice[i] != choice[j] && (ordered ==> choice[i] < choice[j]))
  }

  lemma FullAssignment(m: map<int, int>, n: nat)
    requires |m| == n && forall r :: r in m ==> 0 <= r < n
    ensures forall r :: 0 <= r < n ==> r in m
  {
    var rows := ToolMatching.FirstRows(n);
    assert m.Keys <= rows && |m.Keys| == |rows|;
    assert rows == m.Keys + (rows - m.Keys);
    assert |rows - m.Keys| == 0;
    assert rows - m.Keys == {};
  }

  lemma LegalIsSatisfied(edges: ToolMatching.Edges, expected: seq<ExpectedTool>, calls: seq<Call>, ordered: bool,
      choice: seq<int>)
    requires Describes(edges, expected, calls) && Legal(expected, calls, ordered, choice)
    ensures ToolMatching.Satisfied(edges, |calls|, ordered)
  {
    if ordered {
      assert ToolMatching.Embedding(edges, |calls|, choice);
    } else {
      var rows := ToolMatching.FirstRows(|expected|);
      var m := map i | i in rows :: choice[i];
      assert m.Keys == rows && |m| == |rows|;
      assert ToolMatching.Assignment(edges, |calls|, m);
    }
  }

  lemma SatisfiedIsLegal(edges: ToolMatching.Edges, expected: seq<ExpectedTool>, calls: seq<Call>, ordered: bool)
      returns (choice: seq<int>)
    requires Describes(edges, expected, calls) && ToolMatching.Satisfied(edges, |calls|, ordered)
    ensures Legal(expected, calls, ordered, choice)
  {
    if ordered {
      choice :| ToolMatching.Embedding(edges, |calls|, choice) && |choice| == |edges|;
    } else {
      var m :| ToolMatching.Assignment(edges, |calls|, m) && |m| == |edges|;
      FullAssignment(m, |edges|);
      choice := seq(|edges|, i requires 0 <= i < |edges| => m[i]);
    }
  }

  /** The tool check passes exactly when every argument text is JSON, an exact
      expectation has as many tools as there are calls, and some legal choice of calls
      has all the expected values. */
  method Check(expected: seq<ExpectedTool>, calls: seq<Call>, ordered: bool, exact: bool) returns (passed: bool)
    ensures passed <==>
              && (forall i :: 0 <= i < |expected| ==> !expected[i].args.Malformed?)
              && (forall j :: 0 <= j < |calls| ==> calls[j].payload.Some?)
              && (exact ==> |expected| == |calls|)
              && exists choice :: Legal(expected, calls, ordered, choice)
  {
    var edges, diagnostics := ToolEdges(expected, calls);
    if edges.None? {
      return false;
    }
    var matched;
    passed, matched := ToolMatching.Evaluate(edges.value, |calls|, ordered, exact, |diagnostics|);
    assert |diagnostics| == 0 <==> forall j :: 0 <= j < |calls| ==> calls[j].payload.Some? by {
      if |diagnostics| > 0 { assert diagnostics[0] in diagnostics; }
    }
    if ToolMatching.Satisfied(edges.value, |calls|, ordered) {
      ghost var choice := SatisfiedIsLegal(edges.value, expected, calls, ordered);
    }
    forall choice | Legal(expected, calls, ordered, choice)
      ensures ToolMatching.Satisfied(edges.value, |calls|, ordered)
    {
      LegalIsSatisfied(edges.value, expected, calls, ordered, choice);
    }
  }
}
