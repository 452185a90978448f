/** The render cache: bounded maps of slices, evicted wholesale, cloned on the way
    in and on the way out. */
module RenderCache {

  const THREADED_CACHE_LIMIT: nat := 96
  const VIEWPORT_BLOCK_LIMIT: nat := 2048

  function Stored<V>(m: map<nat, seq<V>>, limit: nat, key: nat, value: seq<V>): map<nat, seq<V>> {
    (if |m| >= limit then map[] else m)[key := value]
  }

  // One of the store's get/put pairs with its map.
  class SliceCache<V(0)> {
    const limit: nat
    var entries: map<nat, array<V>>

    ghost function Contents(): map<nat, seq<V>>
      reads this, entries.Values
    {
      map k | k in entries :: entries[k][..]
    }

    ghost predicate Valid()
      reads this
    {
      0 < limit && |entries| <= limit
    }

    constructor (limit: nat)
      requires limit > 0
      ensures Valid() && this.limit == limit && Contents() == map[]
    {
      this.limit := limit;
      entries := map[];
    }

    // A hit hands out a fresh copy, never a stored slice.
    method Get(key: nat) returns (ok: bool, slice: array<V>)
      ensures ok <==> key in Contents()
      ensures ok ==> slice[..] == Contents()[key]
      ensures fresh(slice) && slice !in entries.Values
    {
      if key in entries {
        ok := true;
        slice := CloneSlice(entries[key]);
      } else {
        ok := false;
        slice := new V[0];
      }
    }

    method Put(key: nat, slice: array<V>)
      requires Valid()
      modifies this
      ensures Valid()
      ensures Contents() == Stored(old(Contents()), limit, key, slice[..])
      ensures key in Contents() && Contents()[key] == slice[..]
      ensures old(|Contents()|) >= limit ==> Contents().Keys == {key}
      ensures old(|Contents()|) < limit ==> forall k | k != key ::
        (k in Contents() <==> k in old(Contents())) && (k in Contents() ==> Contents()[k] == old(Contents())[k])
      ensures forall a <- entries.Values :: a in old(entries.Values) || fresh(a)
      ensures slice !in old(entries.Values) ==> slice !in entries.Values
    {
      ContentsSize();
      var copy := CloneSlice(slice);
      var kept := if |entries| >= limit then map[] else entries;
      UpdateSize(kept, key, copy);
      entries := kept[key := copy];
      assert forall k <- kept :: kept[k][..] == old(Contents())[k];
    }

    lemma ContentsSize()
      ensures |Contents()| == |entries|
    {
      assert Contents().Keys == entries.Keys;
    }
  }

  lemma UpdateSize<V>(m: map<nat, V>, key: nat, value: V)
    ensures |m[key := value]| <= |m| + 1
  {
    assert m[key := value].Keys == m.Keys + {key};
    assert |m.Keys + {key}| <= |m.Keys| + 1;
  }

  method CloneSlice<V(0)>(a: array<V>) returns (b: array<V>)
    ensures fresh(b) && b[..] == a[..]
  {
    b := new V[a.Length];
    for i := 0 to a.Length
      invariant b[..i] == a[..i]
    {
      b[i] := a[i];
    }
  }

  // Writing into what Get returned, or into what Put was given, cannot be seen by a
  // later Get.
  method ScribbleAfterGet<V(0)>(cache: SliceCache<V>, key: nat, i: nat, x: V)
    ensures cache.Contents() == old(cache.Contents())
  {
    var ok, slice := cache.Get(key);
    if i < slice.Length { slice[i] := x; }
  }

  method PutThenScribble<V(0)>(cache: SliceCache<V>, key: nat, slice: array<V>, i: nat, x: V)
    requires cache.Valid() && slice !in cache.entries.Values
    modifies cache, slice
    ensures cache.Contents() == Stored(old(cache.Contents()), cache.limit, key, old(slice[..]))
  {
    cache.Put(key, slice);
    if i < slice.Length { slice[i] := x; }
  }

  // ------------------------------------------------------------------
  // Transparency
  // ------------------------------------------------------------------

  // A cached computation: the stored value on a hit, the computed one on a miss.
  ghost function Lookup<A, V>(m: map<nat, seq<V>>, limit: nat, keyOf: A -> nat, compute: A -> seq<V>, a: A)
    : (seq<V>, map<nat, seq<V>>)
  {
    var key := keyOf(a);
    if key in m then (m[key], m) else (compute(a), Stored(m, limit, key, compute(a)))
  }

  method Cached<A, V(0)>(cache: SliceCache<V>, ghost keyOf: A -> nat, key: nat, compute: A -> seq<V>, a: A)
    returns (slice: array<V>)
    requires cache.Valid() && key == keyOf(a)
    modifies cache
    ensures cache.Valid() && fresh(slice) && slice !in cache.entries.Values
    ensures (slice[..], cache.Contents()) == Lookup(old(cache.Contents()), cache.limit, keyOf, compute, a)
    ensures forall b <- cache.entries.Values :: b in old(cache.entries.Values) || fresh(b)
  {
    var ok: bool;
    ok, slice := cache.Get(key);
    if !ok {
      var value := compute(a);
      slice := new V[|value|](i requires 0 <= i < |value| => value[i]);
      assert slice[..] == value;
      cache.Put(key, slice);
    }
  }

  // On the arguments of `dom`, the key determines the value.
  ghost predicate KeyDetermines<A(!new), V>(dom: iset<A>, keyOf: A -> nat, compute: A -> seq<V>) {
    forall a, b | a in dom && b in dom && keyOf(a) == keyOf(b) :: compute(a) == compute(b)
  }

  // Every entry is what any argument of `dom` with its key would compute.
  ghost predicate Sound<A(!new), V>(dom: iset<A>, m: map<nat, seq<V>>, keyOf: A -> nat, compute: A -> seq<V>) {
    forall a | a in dom && keyOf(a) in m :: m[keyOf(a)] == compute(a)
  }

  ghost function Calls<A, V>(m: map<nat, seq<V>>, limit: nat, keyOf: A -> nat, compute: A -> seq<V>, args: seq<A>)
    : (seq<seq<V>>, map<nat, seq<V>>)
    decreases |args|
  {
    if args == [] then ([], m)
    else
      var (v, m1) := Lookup(m, limit, keyOf, compute, args[0]);
      var (vs, m2) := Calls(m1, limit, keyOf, compute, args[1..]);
      ([v] + vs, m2)
  }

  function Direct<A, V>(compute: A -> seq<V>, args: seq<A>): seq<seq<V>> {
    seq(|args|, i requires 0 <= i < |args| => compute(args[i]))
  }

  ghost predicate Within<A>(dom: iset<A>, args: seq<A>) {
    forall a <- args :: a in dom
  }

  lemma LookupSound<A(!new), V>(dom: iset<A>, m: map<nat, seq<V>>, limit: nat, keyOf: A -> nat, compute: A -> seq<V>, a: A)
    requires KeyDetermines(dom, keyOf, compute) && Sound(dom, m, keyOf, compute) && a in dom
    ensures var (v, m1) := Lookup(m, limit, keyOf, compute, a);
      v == compute(a) && Sound(dom, m1, keyOf, compute)
  {
  }

  lemma {:induction false} CallsSound<A(!new), V>(
    dom: iset<A>, m: map<nat, seq<V>>, limit: nat, keyOf: A -> nat, compute: A -> seq<V>, args: seq<A>)
    requires limit > 0 && |m| <= limit
    requires KeyDetermines(dom, keyOf, compute) && Sound(dom, m, keyOf, compute) && Within(dom, args)
    ensures var (vs, m1) := Calls(m, limit, keyOf, compute, args);
      vs == Direct(compute, args) && Sound(dom, m1, keyOf, compute) && |m1| <= limit
    decreases |args|
  {
    if args != [] {
      assert args[0] in args && forall a <- args[1..] :: a in args;
      LookupSound(dom, m, limit, keyOf, compute, args[0]);
      StoredBounded(m, limit, keyOf(args[0]), compute(args[0]));
      CallsSound(dom, Lookup(m, limit, keyOf, compute, args[0]).1, limit, keyOf, compute, args[1..]);
      assert Direct(compute, args) == [compute(args[0])] + Direct(compute, args[1..]);
    }
  }

  lemma StoredBounded<V>(m: map<nat, seq<V>>, limit: nat, key: nat, value: seq<V>)
    requires limit > 0 && |m| <= limit
    ensures |Stored(m, limit, key, value)| <= limit
  {
    UpdateSize(if |m| >= limit then map[] else m, key, value);
  }

  // The second of two calls with one key is served what the first one computed.
  lemma ServedTwice<A, V>(limit: nat, keyOf: A -> nat, compute: A -> seq<V>, a: A, b: A)
    requires limit > 0 && keyOf(a) == keyOf(b)
    ensures Calls(map[], limit, keyOf, compute, [a, b]).0 == [compute(a), compute(a)]
  {
    var m1 := Lookup<A, V>(map[], limit, keyOf, compute, a).1;
    assert [a, b][1..] == [b] && [b][1..] == [];
    assert Calls(m1, limit, keyOf, compute, [b]).0 == [compute(a)];
  }

  // Over every sequence of calls with arguments of `dom`, evictions included, the cached
  // results are the directly computed ones, exactly when the key determines the value
  // there.
  lemma CacheTransparentExactly<A(!new), V>(dom: iset<A>, limit: nat, keyOf: A -> nat, compute: A -> seq<V>)
    requires limit > 0
    ensures KeyDetermines(dom, keyOf, compute) <==>
            forall args: seq<A> | Within(dom, args) :: Calls(map[], limit, keyOf, compute, args).0 == Direct(compute, args)
  {
    if KeyDetermines(dom, keyOf, compute) {
      forall args: seq<A> | Within(dom, args)
        ensures Calls(map[], limit, keyOf, compute, args).0 == Direct(compute, args)
      {
        CallsSound(dom, map[], limit, keyOf, compute, args);
      }
    } else {
      var a, b :| a in dom && b in dom && keyOf(a) == keyOf(b) && compute(a) != compute(b);
      var args := [a, b];
      ServedTwice(limit, keyOf, compute, a, b);
      assert Direct(compute, args)[1] == compute(b);
      assert Within(dom, args);
    }
  }

  // The map never outgrows its limit, whatever the keys.
  lemma {:induction false} CacheBounded<A, V>(
    m: map<nat, seq<V>>, limit: nat, keyOf: A -> nat, compute: A -> seq<V>, args: seq<A>)
    requires limit > 0 && |m| <= limit
    ensures |Calls(m, limit, keyOf, compute, args).1| <= limit
    decreases |args|
  {
    if args != [] {
      StoredBounded(m, limit, keyOf(args[0]), compute(args[0]));
      CacheBounded(Lookup(m, limit, keyOf, compute, args[0]).1, limit, keyOf, compute, args[1..]);
    }
  }
}
