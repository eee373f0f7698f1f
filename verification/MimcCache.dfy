/** The hash with a table of past results, shared by every instance. A single number is stored
    under itself, a list under its joined decimal text; the two kinds of key never meet. */
module MimcCache {
  import opened Wrappers
  import opened JsBigInt
  import opened MimcHash
  import opened DecimalKeys

  datatype Key = Number(n: int) | Text(s: string)

  type Table = map<int, map<Key, int>>

  function Lookup(table: Table, key: Key, k: int): Option<int> {
    if k in table && key in table[k] then Some(table[k][key]) else None
  }

  /** Every stored number is the uncached hash of what its key stands for. */
  ghost predicate Sound(f: Field, table: Table) {
    forall k, key :: k in table && key in table[k] ==> SoundEntry(f, k, key, table[k][key])
  }

  ghost predicate SoundEntry(f: Field, k: int, key: Key, v: int) {
    match key
    case Number(x) => v == Hash(f, x, k)
    case Text(s) => exists inputs :: Join(inputs) == s && v == MultiHash(f, inputs, k)
  }

  /** A text found in a sound table is the hash of the very list that was joined. */
  lemma {:induction false} TextIsHash(f: Field, table: Table, inputs: seq<int>, k: int)
    requires Sound(f, table) && Lookup(table, Text(Join(inputs)), k).Some?
    ensures Lookup(table, Text(Join(inputs)), k).value == MultiHash(f, inputs, k)
  {
    var v := table[k][Text(Join(inputs))];
    assert SoundEntry(f, k, Text(Join(inputs)), v);
    var stored :| Join(stored) == Join(inputs) && v == MultiHash(f, stored, k);
    JoinInjective(stored, inputs);
  }

  /** The table with one entry set. */
  function Put(table: Table, key: Key, k: int, v: int): Table {
    table[k := (if k in table then table[k] else map[])[key := v]]
  }

  /** One entry is set, and every other is what it was. */
  lemma PutSetsOne(table: Table, key: Key, k: int, v: int, key': Key, k': int)
    ensures Lookup(Put(table, key, k, v), key', k')
         == if k' == k && key' == key then Some(v) else Lookup(table, key', k')
  {
  }

  lemma PutAgain(table: Table, key: Key, k: int, v: int)
    requires Lookup(table, key, k) == Some(v)
    ensures Put(table, key, k, v) == table
  {
    assert table[k][key := v] == table[k];
  }

  /** The table after the first n elements of a list have been hashed, each under the hash of
      those before it. */
  function Stored(f: Field, table: Table, inputs: seq<int>, k: int, n: nat): Table
    requires n <= |inputs|
  {
    if n == 0 then table
    else
      var key := MultiHash(f, inputs[..n - 1], k);
      Put(Stored(f, table, inputs, k, n - 1), Number(inputs[n - 1]), key, Hash(f, inputs[n - 1], key))
  }

  /** Whether an entry is that of one of the first n elements. */
  ghost predicate IsStep(f: Field, inputs: seq<int>, k: int, n: nat, key: Key, k': int)
    requires n <= |inputs|
  {
    exists i :: 0 <= i < n && key == Number(inputs[i]) && k' == MultiHash(f, inputs[..i], k)
  }

  /** These entries hold the hashes of what they are named by, and every other is what it was. */
  lemma {:induction false} StoredExactly(f: Field, table: Table, inputs: seq<int>, k: int, n: nat, key: Key, k': int)
    requires n <= |inputs|
    ensures Lookup(Stored(f, table, inputs, k, n), key, k')
         == if IsStep(f, inputs, k, n, key, k') then Some(Hash(f, key.n, k')) else Lookup(table, key, k')
  {
    if n > 0 { StoredExactly(f, table, inputs, k, n - 1, key, k'); }
  }

  /** Whether a list's hash is found: a remembered 0 is not. */
  predicate Found(table: Table, inputs: seq<int>, k: int) {
    var entry := Lookup(table, Text(Join(inputs)), k);
    entry.Some? && entry.value != 0
  }

  class DpMimcCache {
    var mimc_dpt: Table

    constructor ()
      ensures mimc_dpt == map[]
    {
      mimc_dpt := map[];
    }

    method GetCache(x: Key, k: int) returns (r: Option<int>)
      ensures r == Lookup(mimc_dpt, x, k)
    {
      if k in mimc_dpt {
        var kCache := mimc_dpt[k];
        if x in kCache {
          return Some(kCache[x]);
        }
      }
      r := None;
    }

    method SetCache(x: Key, k: int, v: int, ghost f: Field)
      requires Sound(f, mimc_dpt) && SoundEntry(f, k, x, v)
      modifies this
      ensures mimc_dpt == Put(old(mimc_dpt), x, k, v) && Sound(f, mimc_dpt)
    {
      if k in mimc_dpt {
        mimc_dpt := mimc_dpt[k := mimc_dpt[k][x := v]];
      } else {
        mimc_dpt := mimc_dpt[k := map[x := v]];
      }
    }
  }

  /** The modulus and the constants are fixed for all instances. */
  class MiMC7 {
    const f: Field
    const isDpEnabled: bool
    const cache: DpMimcCache

    constructor (f: Field, isDpEnabled: bool, cache: DpMimcCache)
      ensures this.f == f && this.isDpEnabled == isDpEnabled && this.cache == cache
    {
      this.f, this.isDpEnabled, this.cache := f, isDpEnabled, cache;
    }

    /** A remembered 0 counts as nothing remembered and is computed again. */
    method HashOne(x: int, k: int) returns (ret: int)
      requires Sound(f, cache.mimc_dpt)
      modifies cache
      ensures ret == Hash(f, x, k) && Sound(f, cache.mimc_dpt)
      ensures cache.mimc_dpt
        == if isDpEnabled then Put(old(cache.mimc_dpt), Number(x), k, ret) else old(cache.mimc_dpt)
    {
      if isDpEnabled {
        var cached := cache.GetCache(Number(x), k);
        if cached.Some? && cached.value != 0 {
          assert SoundEntry(f, k, Number(x), cached.value);
          PutAgain(cache.mimc_dpt, Number(x), k, cached.value);
          return cached.value;
        }
      }
      var t7 := 0;
      var i := 0;
      while i < |f.c|
        invariant 0 <= i <= |f.c|
        invariant t7 == Rounds(f, x, k, i)
      {
        var t := if i == 0 then k + x else k + t7 + f.c[i];
        t7 := TruncMod(Pow7(t), f.p);
        i := i + 1;
      }
      ret := TruncMod(t7 + k, f.p);
      if isDpEnabled {
        cache.SetCache(Number(x), k, ret, f);
      }
    }

    method HashMany(inputs: seq<int>, k: int) returns (r: int)
      requires Sound(f, cache.mimc_dpt)
      modifies cache
      ensures r == MultiHash(f, inputs, k) && Sound(f, cache.mimc_dpt)
      ensures cache.mimc_dpt
        == if !isDpEnabled || Found(old(cache.mimc_dpt), inputs, k) then old(cache.mimc_dpt)
           else Put(Stored(f, old(cache.mimc_dpt), inputs, k, |inputs|), Text(Join(inputs)), k, r)
    {
      if isDpEnabled {
        var cached := cache.GetCache(Text(Join(inputs)), k);
        if cached.Some? && cached.value != 0 {
          TextIsHash(f, cache.mimc_dpt, inputs, k);
          return cached.value;
        }
      }
      r := k;
      var i := 0;
      while i < |inputs|
        invariant 0 <= i <= |inputs|
        invariant Sound(f, cache.mimc_dpt)
        invariant cache.mimc_dpt
          == if isDpEnabled then Stored(f, old(cache.mimc_dpt), inputs, k, i) else old(cache.mimc_dpt)
        invariant r == MultiHash(f, inputs[..i], k)
      {
        var temp := r;
        var h := HashOne(inputs[i], temp);
        r := TruncMod(h + temp + inputs[i], f.p);
        assert inputs[..i + 1][..i] == inputs[..i];
        i := i + 1;
      }
      assert inputs[..i] == inputs;
      if isDpEnabled {
        cache.SetCache(Text(Join(inputs)), k, r, f);
      }
    }
  }

  // ---------- Any history of calls ----------

  /** One call, on an instance that caches or on one that does not. */
  datatype Call = One(x: int, k: int, cached: bool) | Many(inputs: seq<int>, k: int, cached: bool)

  function Uncached(f: Field, c: Call): int {
    match c
    case One(x, k, _) => Hash(f, x, k)
    case Many(inputs, k, _) => MultiHash(f, inputs, k)
  }

  function Plain(f: Field, c: Call): int {
    match c
    case One(x, k, _) => PlainHash(f, x, k)
    case Many(inputs, k, _) => PlainMultiHash(f, inputs, k)
  }

  predicate NonNegative(c: Call) {
    NoneNegative(if c.One? then [c.x] else c.inputs, c.k)
  }

  /** Whatever was hashed before, on whatever instances, every call returns what the uncached
      hash returns, and on inputs that are not negative, but perhaps a first one that the key
      makes up for, what the plain one returns. */
  method Replay(f: Field, calls: seq<Call>) returns (results: seq<int>)
    ensures |results| == |calls|
    ensures forall i :: 0 <= i < |calls| ==> results[i] == Uncached(f, calls[i])
    ensures forall i :: 0 <= i < |calls| && NonNegative(calls[i]) ==> results[i] == Plain(f, calls[i])
  {
    var cache := new DpMimcCache();
    results := [];
    for i := 0 to |calls|
      invariant Sound(f, cache.mimc_dpt) && fresh(cache)
      invariant |results| == i
      invariant forall j :: 0 <= j < i ==> results[j] == Uncached(f, calls[j])
    {
      var mimc := new MiMC7(f, calls[i].cached, cache);
      var r;
      match calls[i] {
        case One(x, k, _) => r := mimc.HashOne(x, k);
        case Many(inputs, k, _) => r := mimc.HashMany(inputs, k);
      }
      results := results + [r];
    }
    forall i | 0 <= i < |calls| && NonNegative(calls[i])
      ensures results[i] == Plain(f, calls[i])
    {
      PlainWhenNonNegative(f, calls[i]);
    }
  }

  lemma PlainWhenNonNegative(f: Field, c: Call)
    requires NonNegative(c)
    ensures Uncached(f, c) == Plain(f, c)
  {
    match c
    case One(x, k, _) =>
      assert [x][0] + k >= 0;
      HashAgrees(f, x, k);
    case Many(inputs, k, _) => MultiHashAgrees(f, inputs, k);
  }
}
