/** The registry's bounded cache of compiled schemas, shared by concurrent callers. */
module SchemaCache {
  import opened Basics
  import opened Collections

  const MAX_ENTRIES: nat := 128

  /** The hex text of a schema's SHA-256. */
  datatype Digest = Digest(hex: string)
  datatype Outcome<Schema> = NoSchema | Compiled(schema: Schema) | Rejected

  /** The map, the order of its keys, and every key ever inserted. */
  datatype Cache<Schema> = Cache(compiled: map<Digest, Schema>, order: seq<Digest>, inserted: seq<Digest>)

  /** The order is the end of the insertions. */
  predicate Latest(order: seq<Digest>, inserted: seq<Digest>) {
    && |order| <= |inserted|
    && forall i :: 0 <= i < |order| ==> order[i] == inserted[|inserted| - |order| + i]
  }

  /** Map and order hold the same keys once each; they are the latest insertions, as
      many as the bound allows. */
  ghost predicate Bounded<Schema>(c: Cache<Schema>) {
    && Distinct(c.order)
    && (forall d :: d in c.order <==> d in c.compiled)
    && |c.order| == (if |c.inserted| < MAX_ENTRIES then |c.inserted| else MAX_ENTRIES)
    && Latest(c.order, c.inserted)
  }

  /** Every entry is what compiling its schema gives. */
  ghost predicate Agrees<Schema>(c: Cache<Schema>, compile: string -> Option<Schema>, digest: string -> Digest) {
    forall b :: digest(b) in c.compiled ==> compile(b) == Some(c.compiled[digest(b)])
  }

  ghost predicate Injective(digest: string -> Digest) {
    forall a, b :: digest(a) == digest(b) ==> a == b
  }

  /** The second critical section: check again, evict the oldest when full, insert. */
  function Stored<Schema>(c: Cache<Schema>, key: Digest, schema: Schema): Cache<Schema>
    requires |c.compiled| >= MAX_ENTRIES ==> c.order != []
  {
    if key in c.compiled then c
    else
      var kept := Kept(c);
      Cache(kept.compiled[key := schema], kept.order + [key], c.inserted + [key])
  }

  lemma OrderCounts<Schema>(c: Cache<Schema>)
    requires Bounded(c)
    ensures |c.compiled| == |c.order| <= MAX_ENTRIES
  {
    DistinctCount(c.order, c.compiled.Keys);
    assert |c.compiled| == |c.compiled.Keys|;
  }

  lemma Appended<T>(s: seq<T>, x: T)
    requires Distinct(s) && x !in s
    ensures Distinct(s + [x]) && forall y :: y in s + [x] <==> y in s || y == x
  {
  }

  lemma Dropped<T>(s: seq<T>)
    requires Distinct(s) && s != []
    ensures Distinct(s[1..]) && forall y :: y in s[1..] <==> y in s && y != s[0]
  {
    assert s == [s[0]] + s[1..];
  }

  /** What is left once the oldest entry has made room. */
  function Kept<Schema>(c: Cache<Schema>): Cache<Schema>
    requires |c.compiled| >= MAX_ENTRIES ==> c.order != []
  {
    if |c.compiled| >= MAX_ENTRIES then Cache(c.compiled - {c.order[0]}, c.order[1..], c.inserted) else c
  }

  lemma KeptMatches<Schema>(c: Cache<Schema>)
    requires Bounded(c) && |c.compiled| == |c.order| <= MAX_ENTRIES
    ensures Distinct(Kept(c).order) && forall d :: d in Kept(c).order <==> d in Kept(c).compiled
    ensures |Kept(c).order| == if |c.order| < MAX_ENTRIES then |c.order| else MAX_ENTRIES - 1
  {
    if |c.compiled| >= MAX_ENTRIES { Dropped(c.order); }
  }

  lemma StoredMatches<Schema>(c: Cache<Schema>, key: Digest, schema: Schema)
    requires Bounded(c) && key !in c.compiled && |c.compiled| == |c.order| <= MAX_ENTRIES
    ensures var t := Stored(c, key, schema);
            && Distinct(t.order) && |t.order| == (if |c.order| < MAX_ENTRIES then |c.order| + 1 else MAX_ENTRIES)
            && forall d :: d in t.order <==> d in t.compiled
  {
    KeptMatches(c);
    assert key !in Kept(c).compiled;
    Appended(Kept(c).order, key);
  }

  lemma StoredIsSuffix<Schema>(c: Cache<Schema>, key: Digest, schema: Schema)
    requires Bounded(c) && key !in c.compiled && |c.compiled| == |c.order| <= MAX_ENTRIES
    ensures Latest(Stored(c, key, schema).order, Stored(c, key, schema).inserted)
  {
  }

  lemma StoredIsBounded<Schema>(c: Cache<Schema>, key: Digest, schema: Schema)
    requires Bounded(c)
    ensures |c.compiled| >= MAX_ENTRIES ==> c.order != []
    ensures Bounded(Stored(c, key, schema)) && c.inserted <= Stored(c, key, schema).inserted
  {
    OrderCounts(c);
    if key !in c.compiled {
      StoredMatches(c, key, schema);
      StoredIsSuffix(c, key, schema);
    }
  }

  lemma StoredAgrees<Schema>(c: Cache<Schema>, compile: string -> Option<Schema>, digest: string -> Digest, b: string)
    requires Bounded(c) && Agrees(c, compile, digest) && Injective(digest) && compile(b).Some?
    ensures |c.compiled| >= MAX_ENTRIES ==> c.order != []
    ensures var t := Stored(c, digest(b), compile(b).value);
            Agrees(t, compile, digest) && digest(b) in t.compiled
  {
    OrderCounts(c);
  }

  ghost predicate Good<Schema>(c: Cache<Schema>, compile: string -> Option<Schema>, digest: string -> Digest) {
    Injective(digest) && Bounded(c) && Agrees(c, compile, digest)
  }

  lemma StoredKeeps<Schema>(c: Cache<Schema>, compile: string -> Option<Schema>, digest: string -> Digest, b: string)
    requires Good(c, compile, digest) && compile(b).Some?
    ensures |c.compiled| >= MAX_ENTRIES ==> c.order != []
    ensures var t := Stored(c, digest(b), compile(b).value);
            Good(t, compile, digest) && digest(b) in t.compiled && c.inserted <= t.inserted
  {
    StoredIsBounded(c, digest(b), compile(b).value);
    StoredAgrees(c, compile, digest, b);
  }

  /** What a sequence of callers leaves behind; a schema that does not compile leaves
      nothing. */
  ghost function StoredAll<Schema>(c: Cache<Schema>, compile: string -> Option<Schema>, digest: string -> Digest,
      callers: seq<string>): Cache<Schema>
    requires Good(c, compile, digest)
    decreases callers
  {
    if callers == [] then c
    else if compile(callers[0]).None? then StoredAll(c, compile, digest, callers[1..])
    else
      StoredKeeps(c, compile, digest, callers[0]);
      StoredAll(Stored(c, digest(callers[0]), compile(callers[0]).value), compile, digest, callers[1..])
  }

  /** However callers interleave, the cache agrees with compiling from scratch and
      holds the latest insertions within the bound. */
  lemma {:induction false} StoredAllKeeps<Schema>(c: Cache<Schema>, compile: string -> Option<Schema>,
      digest: string -> Digest, callers: seq<string>)
    requires Good(c, compile, digest)
    ensures var t := StoredAll(c, compile, digest, callers);
            Good(t, compile, digest) && |t.compiled| <= MAX_ENTRIES && c.inserted <= t.inserted
    decreases callers
  {
    OrderCounts(c);
    if callers != [] {
      if compile(callers[0]).None? {
        StoredAllKeeps(c, compile, digest, callers[1..]);
      } else {
        StoredKeeps(c, compile, digest, callers[0]);
        StoredAllKeeps(Stored(c, digest(callers[0]), compile(callers[0]).value), compile, digest, callers[1..]);
      }
    }
  }

  /** Compiling and hashing are the environment's; digests do not collide. */
  class Validator<Schema(==)> {
    const compile: string -> Option<Schema>
    const digest: string -> Digest
    var compiled: map<Digest, Schema>
    var compiledOrder: seq<Digest>
    ghost var inserted: seq<Digest>

    ghost function Now(): Cache<Schema>
      reads this
    {
      Cache(compiled, compiledOrder, inserted)
    }

    ghost predicate Valid()
      reads this
    {
      Good(Now(), compile, digest)
    }

    constructor (compile: string -> Option<Schema>, digest: string -> Digest)
      requires Injective(digest)
      ensures Valid() && this.compile == compile && this.digest == digest && inserted == []
    {
      this.compile, this.digest := compile, digest;
      compiled, compiledOrder, inserted := map[], [], [];
    }

    method Store(key: Digest, schema: Schema) returns (result: Schema)
      requires |compiled| >= MAX_ENTRIES ==> compiledOrder != []
      modifies this
      ensures Now() == Stored(old(Now()), key, schema)
      ensures key in compiled && result == compiled[key]
    {
      if key in compiled {
        return compiled[key];
      }
      if |compiled| >= MAX_ENTRIES {
        var oldest := compiledOrder[0];
        compiled := compiled - {oldest};
        compiledOrder := compiledOrder[1..];
      }
      compiled := compiled[key := schema];
      compiledOrder := compiledOrder + [key];
      inserted := inserted + [key];
      result := schema;
    }

    /** What other callers store while this one holds no lock. */
    method OthersRun()
      requires Valid()
      modifies this
      ensures Valid() && old(inserted) <= inserted
    {
      var callers: nat := *;
      while callers > 0
        invariant Valid() && old(inserted) <= inserted
      {
        var b: string := *;
        if compile(b).Some? {
          StoredKeeps(Now(), compile, digest, b);
          var stored := Store(digest(b), compile(b).value);
        }
        callers := callers - 1;
      }
    }

    /** A lookup gives what compiling from scratch gives, whatever other callers do
        between its two critical sections. */
    method CompiledSchema(schemaBytes: string) returns (result: Outcome<Schema>)
      requires Valid()
      modifies this
      ensures Valid() && old(inserted) <= inserted
      ensures result == if schemaBytes == "" then NoSchema
                        else if compile(schemaBytes).None? then Rejected
                        else Compiled(compile(schemaBytes).value)
    {
      if schemaBytes == "" {
        return NoSchema;
      }
      if digest(schemaBytes) in compiled {
        return Compiled(compiled[digest(schemaBytes)]);
      }
      OthersRun();
      var schema := compile(schemaBytes);
      if schema.None? {
        return Rejected;
      }
      StoredKeeps(Now(), compile, digest, schemaBytes);
      var stored := Store(digest(schemaBytes), schema.value);
      result := Compiled(stored);
    }
  }
}
