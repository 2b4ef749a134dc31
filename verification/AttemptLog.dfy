/** The attempt log of an experiment: one JSON line per attempt, read back after a crash
    at any point. */
module AttemptLog {
  import opened Basics

  type Key = int
  type Kind = int

  /** A stored attempt; `body` stands for everything the log does not look at. */
  datatype Attempt = Attempt(index: int, key: Key, kind: Kind, body: int)

  /** Decoding a line gives a value, fails for want of more bytes, or fails. */
  datatype Decoded = Value(attempt: Attempt) | Torn | Corrupt

  /** The JSON codec, and the log's header line with the reader's test for it. */
  datatype Codec = Codec(encode: Attempt -> string, decode: string -> Decoded, header: string,
      acceptsHeader: string -> bool)

  /** What the log needs of the codec: encodings are single lines that decode with or
      without their newline, and whose proper prefixes end too early. */
  ghost predicate Sound(c: Codec) {
    && '\n' !in c.header && c.acceptsHeader(c.header + "\n")
    && (forall a :: OneLine(c, a))
    && (forall a, k :: 0 < k < |c.encode(a)| ==> c.decode(c.encode(a)[..k]) == Torn)
  }

  ghost predicate OneLine(c: Codec, a: Attempt) {
    '\n' !in c.encode(a) && c.encode(a) != "" && c.decode(c.encode(a)) == Value(a)
      && c.decode(c.encode(a) + "\n") == Value(a)
  }

  function Line(c: Codec, a: Attempt): string {
    c.encode(a) + "\n"
  }

  function Text(c: Codec, lines: seq<Attempt>): string {
    if lines == [] then "" else Line(c, lines[0]) + Text(c, lines[1..])
  }

  /** A log: the header line, whole lines, and what a crash left of another. */
  function Content(c: Codec, lines: seq<Attempt>, tail: string): string {
    (c.header + "\n") + (Text(c, lines) + tail)
  }

  // ---------------------------------------------------------------- the reader

  datatype Loaded = Records(attempts: seq<Attempt>, torn: bool) | Invalid

  /** The length of the first line with its newline, or of everything without one. */
  function FirstLine(s: string): (n: nat)
    ensures n <= |s| && (s != "" ==> n > 0)
  {
    if s == "" then 0 else if s[0] == '\n' then 1 else 1 + FirstLine(s[1..])
  }

  predicate Fresh(a: Attempt, seen: seq<Attempt>) {
    forall i :: 0 <= i < |seen| ==> seen[i].index != a.index && seen[i].key != a.key
  }

  /** Reads lines up to the end; only a last line without newline may be torn. */
  function ReadFrom(c: Codec, kind: Kind, s: string, seen: seq<Attempt>): Loaded
    decreases |s|
  {
    var n := FirstLine(s);
    if n == 0 then Records(seen, false)
    else
      var ended := s[n - 1] != '\n';
      match c.decode(s[..n])
      case Value(a) =>
        if !Fresh(a, seen) || a.kind != kind then Invalid
        else if ended then Records(seen + [a], false)
        else ReadFrom(c, kind, s[n..], seen + [a])
      case Torn => if ended then Records(seen, true) else Invalid
      case Corrupt => Invalid
  }

  /** The whole log before sorting; a damaged header line is always an error. */
  function ReadLog(c: Codec, kind: Kind, content: string): Loaded {
    var n := FirstLine(content);
    if !c.acceptsHeader(content[..n]) then Invalid
    else if n == 0 || content[n - 1] != '\n' then Records([], false)
    else ReadFrom(c, kind, content[n..], [])
  }

  function InsertByIndex(s: seq<Attempt>, a: Attempt): seq<Attempt> {
    if s == [] || a.index <= s[0].index then [a] + s else [s[0]] + InsertByIndex(s[1..], a)
  }

  /** The sort the reader ends with; indices are distinct by then. */
  function SortByIndex(s: seq<Attempt>): seq<Attempt> {
    if s == [] then [] else InsertByIndex(SortByIndex(s[1..]), s[0])
  }

  predicate Ascending(s: seq<Attempt>) {
    forall i, j :: 0 <= i < j < |s| ==> s[i].index <= s[j].index
  }

  lemma {:induction false} InsertAdds(s: seq<Attempt>, a: Attempt)
    ensures multiset(InsertByIndex(s, a)) == multiset(s) + multiset{a}
    ensures forall b :: b in InsertByIndex(s, a) <==> b in s || b == a
  {
    if s != [] && a.index > s[0].index {
      InsertAdds(s[1..], a);
      assert s == [s[0]] + s[1..];
    }
  }

  lemma {:induction false} InsertSorts(s: seq<Attempt>, a: Attempt)
    requires Ascending(s)
    ensures Ascending(InsertByIndex(s, a))
  {
    if s != [] && a.index > s[0].index {
      InsertSorts(s[1..], a);
      InsertAdds(s[1..], a);
      var r := InsertByIndex(s[1..], a);
      forall k | 0 <= k < |r|
        ensures s[0].index <= r[k].index
      {
        assert r[k] in r;
      }
    }
  }

  /** Sorting loses and invents nothing. */
  lemma {:induction false} SortKeeps(s: seq<Attempt>)
    ensures Ascending(SortByIndex(s)) && multiset(SortByIndex(s)) == multiset(s)
  {
    if s != [] {
      SortKeeps(s[1..]);
      InsertAdds(SortByIndex(s[1..]), s[0]);
      InsertSorts(SortByIndex(s[1..]), s[0]);
      assert s == [s[0]] + s[1..];
    }
  }

  function Sorted(l: Loaded): Loaded {
    if l.Records? then Records(SortByIndex(l.attempts), l.torn) else l
  }

  /** What loading a log gives. */
  function Load(c: Codec, kind: Kind, content: string): Loaded {
    Sorted(ReadLog(c, kind, content))
  }

  function Indices(s: seq<Attempt>): set<int> {
    set a | a in s :: a.index
  }

  function Keys(s: seq<Attempt>): set<Key> {
    set a | a in s :: a.key
  }

  lemma FreshExactly(a: Attempt, s: seq<Attempt>)
    ensures Fresh(a, s) <==> a.index !in Indices(s) && a.key !in Keys(s)
    ensures Indices(s + [a]) == Indices(s) + {a.index} && Keys(s + [a]) == Keys(s) + {a.key}
  {
    assert forall b :: b in s + [a] <==> b in s || b == a;
    if Fresh(a, s) {
      assert forall b :: b in s ==> b.index != a.index && b.key != a.key;
    } else {
      var i :| 0 <= i < |s| && (s[i].index == a.index || s[i].key == a.key);
      assert s[i] in s;
    }
  }

  /** The code's loop over lines. */
  method ReadAttempts(c: Codec, kind: Kind, content: string) returns (loaded: Loaded)
    ensures loaded == Load(c, kind, content)
  {
    var n := FirstLine(content);
    if !c.acceptsHeader(content[..n]) {
      return Invalid;
    }
    if n == 0 || content[n - 1] != '\n' {
      return Records([], false);
    }
    var rest := content[n..];
    var attempts: seq<Attempt> := [];
    var seen: set<int>, keys: set<Key> := {}, {};
    while true
      invariant seen == Indices(attempts) && keys == Keys(attempts)
      invariant ReadLog(c, kind, content) == ReadFrom(c, kind, rest, attempts)
      decreases |rest|
    {
      n := FirstLine(rest);
      if n == 0 {
        return Records(SortByIndex(attempts), false);
      }
      var ended := rest[n - 1] != '\n';
      var decoded := c.decode(rest[..n]);
      if decoded.Torn? && ended {
        return Records(SortByIndex(attempts), true);
      }
      if decoded.Value? { FreshExactly(decoded.attempt, attempts); }
      if !decoded.Value? || decoded.attempt.index in seen || decoded.attempt.key in keys
        || decoded.attempt.kind != kind {
        return Invalid;
      }
      seen, keys := seen + {decoded.attempt.index}, keys + {decoded.attempt.key};
      attempts := attempts + [decoded.attempt];
      if ended {
        return Records(SortByIndex(attempts), false);
      }
      rest := rest[n..];
    }
  }

  // ---------------------------------------------------------------- reading back

  /** What a writer puts into a log: one kind, no index and no key twice. */
  ghost predicate Storable(kind: Kind, lines: seq<Attempt>) {
    && (forall i :: 0 <= i < |lines| ==> lines[i].kind == kind)
    && (forall i, j :: 0 <= i < j < |lines| ==> lines[i].index != lines[j].index && lines[i].key != lines[j].key)
  }

  lemma {:induction false} FirstLineEnds(text: string, rest: string)
    requires '\n' !in text
    ensures FirstLine(text) == |text|
    ensures FirstLine(text + "\n" + rest) == |text| + 1
  {
    if text != "" {
      assert (text + "\n" + rest)[1..] == text[1..] + "\n" + rest;
      FirstLineEnds(text[1..], rest);
    }
  }

  /** A whole line is read and reading goes on behind it. */
  lemma ReadsLine(c: Codec, kind: Kind, a: Attempt, rest: string, seen: seq<Attempt>)
    requires Sound(c) && a.kind == kind && Fresh(a, seen)
    ensures ReadFrom(c, kind, Line(c, a) + rest, seen) == ReadFrom(c, kind, rest, seen + [a])
  {
    var s := Line(c, a) + rest;
    assert OneLine(c, a);
    FirstLineEnds(c.encode(a), rest);
    assert s == c.encode(a) + "\n" + rest;
    assert s[..|Line(c, a)|] == Line(c, a) && s[|Line(c, a)|..] == rest;
    assert s[|Line(c, a)| - 1] == '\n';
  }

  lemma {:induction false} ReadsLines(c: Codec, kind: Kind, lines: seq<Attempt>, tail: string, seen: seq<Attempt>)
    requires Sound(c) && Storable(kind, seen + lines)
    ensures ReadFrom(c, kind, Text(c, lines) + tail, seen) == ReadFrom(c, kind, tail, seen + lines)
    decreases |lines|
  {
    if lines == [] {
      assert Text(c, lines) + tail == tail && seen + lines == seen;
    } else {
      var rest := Text(c, lines[1..]) + tail;
      assert Text(c, lines) + tail == Line(c, lines[0]) + rest;
      assert seen + lines == seen + [lines[0]] + lines[1..];
      assert Fresh(lines[0], seen) by {
        forall i | 0 <= i < |seen|
          ensures seen[i].index != lines[0].index && seen[i].key != lines[0].key
        {
          assert (seen + lines)[i] == seen[i] && (seen + lines)[|seen|] == lines[0];
        }
      }
      assert (seen + lines)[|seen|].kind == kind;
      ReadsLine(c, kind, lines[0], rest, seen);
      ReadsLines(c, kind, lines[1..], tail, seen + [lines[0]]);
    }
  }

  /** The torn end of a line is nothing, flagged, or the whole record. */
  lemma ReadsTail(c: Codec, kind: Kind, a: Attempt, k: nat, seen: seq<Attempt>)
    requires Sound(c) && a.kind == kind && Fresh(a, seen) && k <= |Line(c, a)|
    ensures ReadFrom(c, kind, Line(c, a)[..k], seen) ==
            if k == 0 then Records(seen, false)
            else if k < |c.encode(a)| then Records(seen, true)
            else Records(seen + [a], false)
  {
    var text := c.encode(a);
    assert OneLine(c, a);
    if k == |Line(c, a)| {
      assert Line(c, a)[..k] == Line(c, a) + "";
      ReadsLine(c, kind, a, "", seen);
    } else {
      assert Line(c, a)[..k] == text[..k];
      FirstLineEnds(text[..k], "");
      assert text[..k][..k] == text[..k];
      if k == |text| { assert text[..k] == text; }
    }
  }

  lemma ReadsContent(c: Codec, kind: Kind, lines: seq<Attempt>, tail: string)
    requires Sound(c) && Storable(kind, lines)
    ensures ReadLog(c, kind, Content(c, lines, tail)) == ReadFrom(c, kind, tail, lines)
  {
    var content := Content(c, lines, tail);
    FirstLineEnds(c.header, Text(c, lines) + tail);
    assert content == c.header + "\n" + (Text(c, lines) + tail);
    assert content[..|c.header| + 1] == c.header + "\n";
    assert content[|c.header| + 1..] == Text(c, lines) + tail;
    assert [] + lines == lines;
    ReadsLines(c, kind, lines, tail, []);
  }

  /** What is loaded after a crash `k` bytes into appending `a` to whole lines. */
  function Recovered(c: Codec, lines: seq<Attempt>, a: Attempt, k: nat): Loaded {
    if k == 0 then Records(lines, false)
    else if k < |c.encode(a)| then Records(lines, true)
    else Records(lines + [a], false)
  }

  /** Loading after a crash anywhere in an append yields the records written before,
      flagged when the new one is torn, or those and the new one. */
  lemma AppendCrashes(c: Codec, kind: Kind, lines: seq<Attempt>, a: Attempt, k: nat)
    requires Sound(c) && Storable(kind, lines + [a]) && k <= |Line(c, a)|
    ensures ReadLog(c, kind, Content(c, lines, Line(c, a)[..k])) == Recovered(c, lines, a, k)
  {
    assert forall i :: 0 <= i < |lines| ==> (lines + [a])[i] == lines[i];
    assert (lines + [a])[|lines|] == a;
    ReadsContent(c, kind, lines, Line(c, a)[..k]);
    ReadsTail(c, kind, a, k, lines);
  }

  /** A log of whole lines loads exactly those, in the order they were written. */
  lemma WholeLogLoads(c: Codec, kind: Kind, lines: seq<Attempt>)
    requires Sound(c) && Storable(kind, lines)
    ensures ReadLog(c, kind, Content(c, lines, "")) == Records(lines, false)
  {
    ReadsContent(c, kind, lines, "");
  }

  // ---------------------------------------------------------------- refusing

  lemma StorableSnoc(kind: Kind, seen: seq<Attempt>, a: Attempt)
    requires Storable(kind, seen)
    ensures Storable(kind, seen + [a]) <==> a.kind == kind && Fresh(a, seen)
  {
    var more := seen + [a];
    assert forall i :: 0 <= i < |seen| ==> more[i] == seen[i];
    assert more[|seen|] == a;
  }

  lemma {:induction false} LinesRefused(c: Codec, kind: Kind, lines: seq<Attempt>, seen: seq<Attempt>)
    requires Sound(c) && Storable(kind, seen) && !Storable(kind, seen + lines)
    ensures ReadFrom(c, kind, Text(c, lines), seen) == Invalid
    decreases |lines|
  {
    assert seen + [] == seen;
    if lines != [] {
      var a, rest := lines[0], lines[1..];
      StorableSnoc(kind, seen, a);
      if a.kind == kind && Fresh(a, seen) {
        ReadsLine(c, kind, a, Text(c, rest), seen);
        assert seen + [a] + rest == seen + lines;
        LinesRefused(c, kind, rest, seen + [a]);
      } else {
        LineRefused(c, kind, a, Text(c, rest), seen);
      }
    }
  }

  /** A line of another kind, or under an index or key that was read, is refused. */
  lemma LineRefused(c: Codec, kind: Kind, a: Attempt, rest: string, seen: seq<Attempt>)
    requires Sound(c) && (a.kind != kind || !Fresh(a, seen))
    ensures ReadFrom(c, kind, Line(c, a) + rest, seen) == Invalid
  {
    var s := Line(c, a) + rest;
    assert OneLine(c, a);
    FirstLineEnds(c.encode(a), rest);
    assert s == c.encode(a) + "\n" + rest;
    assert s[..|Line(c, a)|] == Line(c, a);
  }

  lemma HeaderRead(c: Codec, kind: Kind, rest: string)
    requires Sound(c)
    ensures ReadLog(c, kind, c.header + "\n" + rest) == ReadFrom(c, kind, rest, [])
  {
    var content := c.header + "\n" + rest;
    FirstLineEnds(c.header, rest);
    assert content[..|c.header| + 1] == c.header + "\n" && content[|c.header| + 1..] == rest;
  }

  /** A log of whole lines loads exactly when they are of its kind and no index and no key
      occurs twice. */
  lemma LoadsExactly(c: Codec, kind: Kind, lines: seq<Attempt>)
    requires Sound(c)
    ensures ReadLog(c, kind, Content(c, lines, "")) == if Storable(kind, lines) then Records(lines, false) else Invalid
  {
    if Storable(kind, lines) {
      WholeLogLoads(c, kind, lines);
    } else {
      assert Content(c, lines, "") == c.header + "\n" + Text(c, lines);
      HeaderRead(c, kind, Text(c, lines));
      assert [] + lines == lines;
      LinesRefused(c, kind, lines, []);
    }
  }

  /** A whole line that does not decode makes the log invalid, wherever it stands; so does
      an unfinished last line, unless it only ends too early. */
  lemma DamageRefused(c: Codec, kind: Kind, lines: seq<Attempt>, bad: string, rest: string)
    requires Sound(c) && Storable(kind, lines) && '\n' !in bad
    ensures !c.decode(bad + "\n").Value? ==> ReadLog(c, kind, Content(c, lines, bad + "\n" + rest)) == Invalid
    ensures bad != "" && c.decode(bad).Corrupt? ==> ReadLog(c, kind, Content(c, lines, bad)) == Invalid
    ensures bad != "" && c.decode(bad).Torn? ==> ReadLog(c, kind, Content(c, lines, bad)) == Records(lines, true)
  {
    ReadsContent(c, kind, lines, bad + "\n" + rest);
    ReadsContent(c, kind, lines, bad);
    FirstLineEnds(bad, rest);
    assert (bad + "\n" + rest)[..|bad| + 1] == bad + "\n";
    assert bad[..|bad|] == bad;
  }

  /** Without its header line the log is invalid, whatever follows. */
  lemma HeaderRefused(c: Codec, kind: Kind, first: string, rest: string)
    requires '\n' !in first && !c.acceptsHeader(first + "\n")
    ensures ReadLog(c, kind, first + "\n" + rest) == Invalid
  {
    FirstLineEnds(first, rest);
    assert (first + "\n" + rest)[..|first| + 1] == first + "\n";
  }

  // ---------------------------------------------------------------- a sound codec

  function Repeat(x: char, n: nat): string {
    if n == 0 then "" else Repeat(x, n - 1) + [x]
  }

  /** A number as so many copies of one letter, or of another below zero. */
  function Field(plus: char, minus: char, i: int): string {
    if i < 0 then Repeat(minus, -i) else Repeat(plus, i)
  }

  function Fields(a: Attempt): string {
    Field('a', 'A', a.index) + Field('b', 'B', a.key) + Field('c', 'C', a.kind) + Field('d', 'D', a.body)
  }

  function Encoded(a: Attempt): string {
    Fields(a) + "}"
  }

  function Copies(s: string, x: char): (n: nat)
    ensures x in s <==> n > 0
  {
    if s == "" then 0 else Copies(s[..|s| - 1], x) + if s[|s| - 1] == x then 1 else 0
  }

  function Difference(s: string, plus: char, minus: char): int {
    Copies(s, plus) - Copies(s, minus)
  }

  /** The record a text has by counting its letters. */
  function Counted(s: string): Attempt {
    Attempt(Difference(s, 'a', 'A'), Difference(s, 'b', 'B'), Difference(s, 'c', 'C'), Difference(s, 'd', 'D'))
  }

  function Decodes(s: string): Decoded {
    if '}' !in s then Torn
    else if s == Encoded(Counted(s)) || s == Encoded(Counted(s)) + "\n" then Value(Counted(s))
    else Corrupt
  }

  lemma {:induction false} CopiesAdd(s: string, t: string, x: char)
    ensures Copies(s + t, x) == Copies(s, x) + Copies(t, x)
  {
    if t == "" {
      assert s + t == s;
    } else {
      assert (s + t)[..|s + t| - 1] == s + t[..|t| - 1];
      CopiesAdd(s, t[..|t| - 1], x);
    }
  }

  lemma {:induction false} RepeatCopies(x: char, n: nat, y: char)
    ensures Copies(Repeat(x, n), y) == if y == x then n else 0
  {
    if n > 0 {
      assert Repeat(x, n)[..|Repeat(x, n)| - 1] == Repeat(x, n - 1);
      RepeatCopies(x, n - 1, y);
    }
  }

  lemma FieldCopies(plus: char, minus: char, i: int, y: char)
    ensures Copies(Field(plus, minus, i), y) ==
            if y == plus && i >= 0 then i else if y == minus && i < 0 then -i else 0
  {
    RepeatCopies(if i < 0 then minus else plus, if i < 0 then -i else i, y);
  }

  lemma FieldsCopies(a: Attempt, y: char)
    ensures Copies(Fields(a), y) == Copies(Field('a', 'A', a.index), y) + Copies(Field('b', 'B', a.key), y)
                                  + Copies(Field('c', 'C', a.kind), y) + Copies(Field('d', 'D', a.body), y)
  {
    var s, t := Field('a', 'A', a.index), Field('b', 'B', a.key);
    CopiesAdd(s, t, y);
    CopiesAdd(s + t, Field('c', 'C', a.kind), y);
    CopiesAdd(s + t + Field('c', 'C', a.kind), Field('d', 'D', a.body), y);
  }

  /** Every letter of an encoding counts one field, in one direction. */
  lemma FieldsCount(a: Attempt, y: char)
    ensures Copies(Fields(a), y) ==
            match y
            case 'a' => if a.index >= 0 then a.index else 0
            case 'A' => if a.index < 0 then -a.index else 0
            case 'b' => if a.key >= 0 then a.key else 0
            case 'B' => if a.key < 0 then -a.key else 0
            case 'c' => if a.kind >= 0 then a.kind else 0
            case 'C' => if a.kind < 0 then -a.kind else 0
            case 'd' => if a.body >= 0 then a.body else 0
            case 'D' => if a.body < 0 then -a.body else 0
            case _ => 0
  {
    FieldsCopies(a, y);
    FieldCopies('a', 'A', a.index, y);
    FieldCopies('b', 'B', a.key, y);
    FieldCopies('c', 'C', a.kind, y);
    FieldCopies('d', 'D', a.body, y);
  }

  predicate Ending(end: string) {
    end == "}" || end == "}\n"
  }

  /** What follows the fields does not change what they count to. */
  lemma FieldCounts(a: Attempt, end: string, plus: char, minus: char, i: int)
    requires Ending(end)
    requires (plus, minus, i) in {('a', 'A', a.index), ('b', 'B', a.key), ('c', 'C', a.kind), ('d', 'D', a.body)}
    ensures Difference(Fields(a) + end, plus, minus) == i
  {
    CopiesAdd(Fields(a), end, plus);
    CopiesAdd(Fields(a), end, minus);
    FieldsCount(a, plus);
    FieldsCount(a, minus);
    assert plus !in end && minus !in end;
  }

  lemma EncodedCounts(a: Attempt, end: string)
    requires Ending(end)
    ensures Counted(Fields(a) + end) == a
  {
    FieldCounts(a, end, 'a', 'A', a.index);
    FieldCounts(a, end, 'b', 'B', a.key);
    FieldCounts(a, end, 'c', 'C', a.kind);
    FieldCounts(a, end, 'd', 'D', a.body);
  }

  lemma EncodedDecodes(a: Attempt, end: string)
    requires Ending(end)
    ensures Decodes(Fields(a) + end) == Value(a)
  {
    EncodedCounts(a, end);
    assert (Fields(a) + end)[|Fields(a)|] == '}';
    assert end == "}\n" ==> Fields(a) + end == Encoded(a) + "\n";
  }

  lemma EncodedIsOneLine(a: Attempt)
    ensures '\n' !in Encoded(a) && Encoded(a) != ""
    ensures Decodes(Encoded(a)) == Value(a) && Decodes(Encoded(a) + "\n") == Value(a)
  {
    FieldsCount(a, '\n');
    EncodedDecodes(a, "}");
    EncodedDecodes(a, "}\n");
    assert Encoded(a) + "\n" == Fields(a) + "}\n";
  }

  lemma EncodedTears(a: Attempt, k: nat)
    requires k < |Encoded(a)|
    ensures Decodes(Encoded(a)[..k]) == Torn
  {
    FieldsCount(a, '}');
    assert Encoded(a)[..k] == Fields(a)[..k];
  }

  /** What the log needs of its codec can be had: letters counting the fields up, and a
      brace that closes the line. */
  lemma SoundCodecExists() returns (c: Codec)
    ensures Sound(c)
  {
    c := Codec(a => Encoded(a), s => Decodes(s), "", s => true);
    forall a
      ensures OneLine(c, a)
    {
      EncodedIsOneLine(a);
    }
    forall a, k | 0 < k < |c.encode(a)|
      ensures c.decode(c.encode(a)[..k]) == Torn
    {
      EncodedTears(a, k);
    }
  }
}
