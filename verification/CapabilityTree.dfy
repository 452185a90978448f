/** The capability tree crosses to the worker as dotted paths and is rebuilt there
    as a tree of proxies. The two trees have the same leaves. */
module CapabilityTree {
  import opened Wrappers
  import opened Text
  import opened OrderedMap

  // An object literal: its keys in order, each naming a function or a subtree.
  datatype Tree = Fn(id: nat) | Obj(entries: Entries)
  datatype Entries = End | Entry(key: string, node: Tree, rest: Entries)

  function Keys(es: Entries): set<string> {
    if es.End? then {} else {es.key} + Keys(es.rest)
  }

  // Object keys are distinct, at every level.
  predicate Distinct(es: Entries) {
    es.Entry? ==>
      es.key !in Keys(es.rest) && (es.node.Obj? ==> Distinct(es.node.entries)) && Distinct(es.rest)
  }

  // The function at a key sequence, if there is one.
  function FnAt(es: Entries, parts: seq<string>): Option<nat> {
    if parts == [] || es.End? then None
    else if es.key != parts[0] then FnAt(es.rest, parts)
    else if es.node.Fn? then (if |parts| == 1 then Some(es.node.id) else None)
    else FnAt(es.node.entries, parts[1..])
  }

  // ------------------------------------------------------------------
  // Host side: flatten into a table in insertion order
  // ------------------------------------------------------------------

  type Table = seq<(string, nat)>

  function Extend(prefix: string, key: string): string {
    if prefix != "" then prefix + "." + key else key
  }

  function Flatten(es: Entries, prefix: string, into: Table): Table
    decreases es
  {
    if es.End? then into
    else
      var path := Extend(prefix, es.key);
      var grown := if es.node.Fn? then Put(into, path, es.node.id) else Flatten(es.node.entries, path, into);
      Flatten(es.rest, prefix, grown)
  }

  method FlattenInto(es: Entries, prefix: string, into: Table) returns (table: Table)
    ensures table == Flatten(es, prefix, into)
    decreases es
  {
    table := into;
    var rest := es;
    while rest.Entry?
      invariant Flatten(rest, prefix, table) == Flatten(es, prefix, into)
      invariant rest == es || rest < es
      decreases rest
    {
      var path := Extend(prefix, rest.key);
      if rest.node.Fn? {
        table := Put(table, path, rest.node.id);
      } else {
        table := FlattenInto(rest.node.entries, path, table);
      }
      rest := rest.rest;
    }
  }

  // `catalogPaths`' walk of the same tree.
  function CatalogWalk(node: Tree, prefix: string): set<string> {
    if node.Fn? then {prefix} else CatalogEntries(node.entries, prefix)
  }

  function CatalogEntries(es: Entries, prefix: string): set<string> {
    if es.End? then {} else CatalogWalk(es.node, Extend(prefix, es.key)) + CatalogEntries(es.rest, prefix)
  }

  // ------------------------------------------------------------------
  // What the table holds
  // ------------------------------------------------------------------

  ghost function Names(table: Table): set<string> {
    set e | e in table :: e.0
  }

  lemma PutHolds(table: Table, path: string, fn: nat)
    requires Unique(table)
    ensures var t := Put(table, path, fn);
      && Unique(t)
      && Names(t) == Names(table) + {path}
      && (forall e :: e in t <==> e == (path, fn) || (e in table && e.0 != path))
  {
    PutMembers(table, path, fn);
    PutUnique(table, path, fn);
    NamesOf(Put(table, path, fn), table, path, fn);
  }

  lemma NamesOf(t: Table, table: Table, path: string, fn: nat)
    requires forall e :: e in t <==> e == (path, fn) || (e in table && e.0 != path)
    ensures Names(t) == Names(table) + {path}
  {
    assert (path, fn) in t;
    forall p ensures p in Names(t) <==> p in Names(table) + {path} {
      if p in Names(table) && p != path {
        var e :| e in table && e.0 == p;
        assert e in t;
      }
    }
  }

  // The path of a key sequence under a prefix.
  function PathOf(prefix: string, parts: seq<string>): string
    decreases |parts|
  {
    if parts == [] then prefix else PathOf(Extend(prefix, parts[0]), parts[1..])
  }

  // Holds for every tree, dotted keys included: the catalog's walk and the
  // flattened table name the same paths.
  lemma {:induction false} CatalogAgrees(es: Entries, prefix: string, into: Table)
    requires Unique(into)
    ensures Unique(Flatten(es, prefix, into))
    ensures Names(Flatten(es, prefix, into)) == Names(into) + CatalogEntries(es, prefix)
    decreases es
  {
    if es.Entry? {
      var path := Extend(prefix, es.key);
      if es.node.Fn? {
        PutHolds(into, path, es.node.id);
        CatalogAgrees(es.rest, prefix, Put(into, path, es.node.id));
      } else {
        CatalogAgrees(es.node.entries, path, into);
        CatalogAgrees(es.rest, prefix, Flatten(es.node.entries, path, into));
      }
    }
  }

  // Is `parts` the key sequence of a function with path `e.0` and id `e.1`?
  ghost predicate Reaches(es: Entries, prefix: string, parts: seq<string>, e: (string, nat)) {
    FnAt(es, parts) == Some(e.1) && e.0 == PathOf(prefix, parts)
  }

  ghost predicate Reached(es: Entries, prefix: string, e: (string, nat)) {
    exists parts :: Reaches(es, prefix, parts, e)
  }

  lemma {:induction false} FnAtKey(es: Entries, parts: seq<string>)
    requires FnAt(es, parts).Some?
    ensures parts != [] && parts[0] in Keys(es)
  {
    if es.key != parts[0] { FnAtKey(es.rest, parts); }
  }

  lemma {:induction false} PathOfPrefixed(prefix: string, parts: seq<string>)
    requires prefix != "" && parts != []
    ensures PathOf(prefix, parts) == prefix + "." + Join(parts, '.')
    decreases |parts|
  {
    if |parts| > 1 {
      PathOfPrefixed(Extend(prefix, parts[0]), parts[1..]);
      var tail := Join(parts[1..], '.');
      assert Join(parts, '.') == parts[0] + "." + tail;
      assert prefix + "." + parts[0] + "." + tail == prefix + "." + (parts[0] + "." + tail);
    }
  }

  // Different functions have different paths.
  ghost predicate PathsApart(es: Entries, prefix: string) {
    forall a, b | FnAt(es, a).Some? && FnAt(es, b).Some? && PathOf(prefix, a) == PathOf(prefix, b) :: a == b
  }

  lemma PathsApartBelow(es: Entries, prefix: string)
    requires es.Entry? && Distinct(es) && PathsApart(es, prefix)
    ensures PathsApart(es.rest, prefix)
    ensures es.node.Obj? ==> PathsApart(es.node.entries, Extend(prefix, es.key))
  {
    forall a, b | FnAt(es.rest, a).Some? && FnAt(es.rest, b).Some? && PathOf(prefix, a) == PathOf(prefix, b)
      ensures a == b
    {
      RestFn(es, a);
      RestFn(es, b);
    }
    if es.node.Obj? {
      var under, path := es.node.entries, Extend(prefix, es.key);
      forall a, b | FnAt(under, a).Some? && FnAt(under, b).Some? && PathOf(path, a) == PathOf(path, b)
        ensures a == b
      {
        HeadTree(es, prefix, a);
        HeadTree(es, prefix, b);
        assert ([es.key] + a)[1..] == a && ([es.key] + b)[1..] == b;
      }
    }
  }

  // Entries of `into` whose path is none of the tree's are kept; the rest of the
  // table is exactly the tree's functions under their paths.
  lemma {:induction false} FlattenHolds(es: Entries, prefix: string, into: Table)
    requires Distinct(es) && PathsApart(es, prefix) && Unique(into)
    requires forall e <- into, parts | FnAt(es, parts).Some? :: e.0 != PathOf(prefix, parts)
    ensures Unique(Flatten(es, prefix, into))
    ensures forall e :: e in Flatten(es, prefix, into) <==> e in into || Reached(es, prefix, e)
    decreases es
  {
    if es.Entry? {
      var path := Extend(prefix, es.key);
      var grown := if es.node.Fn? then Put(into, path, es.node.id) else Flatten(es.node.entries, path, into);
      HeadFn(es, prefix);
      PathsApartBelow(es, prefix);
      if es.node.Fn? {
        PutHolds(into, path, es.node.id);
        assert FnAt(es, [es.key]).Some? && PathOf(prefix, [es.key]) == path;
      } else {
        forall e <- into, parts | FnAt(es.node.entries, parts).Some? ensures e.0 != PathOf(path, parts) {
          HeadTree(es, prefix, parts);
        }
        FlattenHolds(es.node.entries, path, into);
      }
      forall e <- grown, parts | FnAt(es.rest, parts).Some? ensures e.0 != PathOf(prefix, parts) {
        RestApart(es, prefix, into, grown, e, parts);
      }
      FlattenHolds(es.rest, prefix, grown);
      forall e ensures e in Flatten(es, prefix, into) <==> e in into || Reached(es, prefix, e) {
        FlattenSplit(es, prefix, e);
        if es.node.Fn? && e in into { assert FnAt(es, [es.key]).Some?; }
      }
    } else {
      forall e ensures !Reached(es, prefix, e) {
      }
    }
  }

  lemma HeadFn(es: Entries, prefix: string)
    requires es.Entry?
    ensures es.node.Fn? ==> FnAt(es, [es.key]) == Some(es.node.id) && PathOf(prefix, [es.key]) == Extend(prefix, es.key)
  {
  }

  lemma HeadTree(es: Entries, prefix: string, parts: seq<string>)
    requires es.Entry? && es.node.Obj?
    ensures FnAt(es, [es.key] + parts) == FnAt(es.node.entries, parts)
    ensures PathOf(prefix, [es.key] + parts) == PathOf(Extend(prefix, es.key), parts)
  {
    assert ([es.key] + parts)[1..] == parts;
  }

  lemma RestFn(es: Entries, parts: seq<string>)
    requires es.Entry? && Distinct(es) && FnAt(es.rest, parts).Some?
    ensures FnAt(es, parts) == FnAt(es.rest, parts)
  {
    FnAtKey(es.rest, parts);
  }

  lemma RestApart(es: Entries, prefix: string, into: Table, grown: Table, e: (string, nat), parts: seq<string>)
    requires es.Entry? && Distinct(es) && PathsApart(es, prefix) && FnAt(es.rest, parts).Some?
    requires e in grown
    requires forall x <- into, q | FnAt(es, q).Some? :: x.0 != PathOf(prefix, q)
    requires es.node.Fn? ==> forall x <- grown :: x == (Extend(prefix, es.key), es.node.id) || x in into
    requires es.node.Obj? ==> forall x <- grown :: x in into || Reached(es.node.entries, Extend(prefix, es.key), x)
    ensures e.0 != PathOf(prefix, parts)
  {
    RestFn(es, parts);
    FnAtKey(es.rest, parts);
    if e !in into {
      if es.node.Fn? {
        HeadFn(es, prefix);
      } else {
        var q :| Reaches(es.node.entries, Extend(prefix, es.key), q, e);
        HeadTree(es, prefix, q);
      }
    }
  }

  // Where a path of the tree comes from: the rest, this function, or this subtree.
  ghost predicate FromHere(es: Entries, prefix: string, e: (string, nat))
    requires es.Entry?
  {
    || Reached(es.rest, prefix, e)
    || (es.node.Fn? && e == (Extend(prefix, es.key), es.node.id))
    || (es.node.Obj? && Reached(es.node.entries, Extend(prefix, es.key), e))
  }

  lemma ReachedFromHere(es: Entries, prefix: string, e: (string, nat))
    requires es.Entry? && Reached(es, prefix, e)
    ensures FromHere(es, prefix, e)
  {
    var parts :| Reaches(es, prefix, parts, e);
    if es.key != parts[0] {
      assert Reaches(es.rest, prefix, parts, e);
    } else {
      assert parts == [es.key] + parts[1..];
      if es.node.Obj? {
        HeadTree(es, prefix, parts[1..]);
        assert Reaches(es.node.entries, Extend(prefix, es.key), parts[1..], e);
      } else {
        assert parts[1..] == [];
        HeadFn(es, prefix);
      }
    }
  }

  lemma FromHereReached(es: Entries, prefix: string, e: (string, nat))
    requires es.Entry? && Distinct(es) && FromHere(es, prefix, e)
    ensures Reached(es, prefix, e)
  {
    if Reached(es.rest, prefix, e) {
      var parts :| Reaches(es.rest, prefix, parts, e);
      RestFn(es, parts);
      assert Reaches(es, prefix, parts, e);
    } else if es.node.Fn? {
      HeadFn(es, prefix);
      assert Reaches(es, prefix, [es.key], e);
    } else {
      var parts :| Reaches(es.node.entries, Extend(prefix, es.key), parts, e);
      HeadTree(es, prefix, parts);
      assert Reaches(es, prefix, [es.key] + parts, e);
    }
  }

  lemma FlattenSplit(es: Entries, prefix: string, e: (string, nat))
    requires es.Entry? && Distinct(es)
    ensures Reached(es, prefix, e) <==> FromHere(es, prefix, e)
  {
    if Reached(es, prefix, e) { ReachedFromHere(es, prefix, e); }
    if FromHere(es, prefix, e) { FromHereReached(es, prefix, e); }
  }

  // A function is a leaf: no other function's key sequence continues it.
  lemma {:induction false} PrefixFree(es: Entries, a: seq<string>, b: seq<string>)
    requires Distinct(es) && FnAt(es, a).Some? && FnAt(es, b).Some?
    requires a <= b
    ensures a == b
    decreases es
  {
    if es.key != a[0] {
      PrefixFree(es.rest, a, b);
    } else if es.node.Obj? {
      PrefixFree(es.node.entries, a[1..], b[1..]);
    }
  }

  // ------------------------------------------------------------------
  // Worker side: rebuild the tree
  // ------------------------------------------------------------------

  // A rebuilt object; one that is a proxy sends `send`.
  datatype Proxy = Proxy(send: Option<string>, kids: map<string, Proxy>)

  const EMPTY_PROXY := Proxy(None, map[])

  function Kid(n: Proxy, key: string): Proxy {
    if key in n.kids then n.kids[key] else EMPTY_PROXY
  }

  function Place(n: Proxy, parts: seq<string>, path: string): Proxy
    requires parts != []
    decreases |parts|
  {
    var kid := if |parts| == 1 then Proxy(Some(path), map[]) else Place(Kid(n, parts[0]), parts[1..], path);
    n.(kids := n.kids[parts[0] := kid])
  }

  function Rebuild(root: Proxy, paths: seq<string>): Proxy
    decreases |paths|
  {
    if paths == [] then root else Rebuild(Place(root, Split(paths[0], '.'), paths[0]), paths[1..])
  }

  method BuildProxyTree(paths: seq<string>) returns (root: Proxy)
    ensures root == Rebuild(EMPTY_PROXY, paths)
  {
    root := EMPTY_PROXY;
    for i := 0 to |paths|
      invariant Rebuild(root, paths[i..]) == Rebuild(EMPTY_PROXY, paths)
    {
      root := Place(root, Split(paths[i], '.'), paths[i]);
      assert paths[i..][1..] == paths[i + 1..];
    }
  }

  // What calling the value at a key sequence sends.
  function SendAt(n: Proxy, parts: seq<string>): Option<string>
    decreases |parts|
  {
    if parts == [] then n.send
    else if parts[0] !in n.kids then None
    else SendAt(n.kids[parts[0]], parts[1..])
  }

  lemma {:induction false} EmptySends(q: seq<string>)
    ensures SendAt(EMPTY_PROXY, q) == None
  {
  }

  lemma {:induction false} PlaceSends(n: Proxy, parts: seq<string>, path: string, q: seq<string>)
    requires parts != []
    ensures SendAt(Place(n, parts, path), q) ==
            if q == parts then Some(path) else if parts <= q then None else SendAt(n, q)
    decreases |parts|
  {
    if q != [] && q[0] == parts[0] {
      assert parts <= q <==> parts[1..] <= q[1..];
      assert parts == q <==> parts[1..] == q[1..] by {
        assert parts == [parts[0]] + parts[1..] && q == [q[0]] + q[1..];
      }
      if |parts| == 1 {
        EmptySends(q[1..]);
      } else {
        PlaceSends(Kid(n, parts[0]), parts[1..], path, q[1..]);
        EmptySends(q[1..]);
      }
    }
  }

  // No path's key sequence is a prefix of another's.
  ghost predicate Leaves(paths: seq<string>) {
    forall i, j :: 0 <= i < |paths| && 0 <= j < |paths| && i != j ==> !(Split(paths[i], '.') <= Split(paths[j], '.'))
  }

  // Whatever a rebuilt tree sends at a key sequence is a path that splits into it.
  lemma {:induction false} RebuildSendsOwn(root: Proxy, paths: seq<string>, q: seq<string>)
    ensures var x := SendAt(Rebuild(root, paths), q);
      x.None? || x == SendAt(root, q) || (x.value in paths && Split(x.value, '.') == q)
    decreases |paths|
  {
    if paths != [] {
      var parts := Split(paths[0], '.');
      PlaceSends(root, parts, paths[0], q);
      RebuildSendsOwn(Place(root, parts, paths[0]), paths[1..], q);
      assert forall p :: p in paths[1..] ==> p in paths;
    }
  }

  lemma {:induction false} RebuildSends(root: Proxy, paths: seq<string>, q: seq<string>)
    requires Leaves(paths)
    requires forall p <- paths :: SendAt(root, q) == None || !(Split(p, '.') <= q)
    ensures SendAt(Rebuild(root, paths), q) ==
            if exists p <- paths :: Split(p, '.') == q then Some(Join(q, '.')) else SendAt(root, q)
    decreases |paths|
  {
    if paths != [] {
      var parts := Split(paths[0], '.');
      var next := Place(root, parts, paths[0]);
      PlaceSends(root, parts, paths[0], q);
      JoinSplit(paths[0], '.');
      assert paths[0] in paths;
      forall p <- paths[1..] ensures SendAt(next, q) == None || !(Split(p, '.') <= q) {
        var j :| 0 <= j < |paths[1..]| && paths[1..][j] == p;
        assert paths[j + 1] == p;
        if q == parts { assert !(Split(paths[j + 1], '.') <= Split(paths[0], '.')); }
      }
      assert Leaves(paths[1..]) by {
        forall i, j | 0 <= i < |paths[1..]| && 0 <= j < |paths[1..]| && i != j
          ensures !(Split(paths[1..][i], '.') <= Split(paths[1..][j], '.'))
        {
          assert paths[1..][i] == paths[i + 1] && paths[1..][j] == paths[j + 1];
        }
      }
      RebuildSends(next, paths[1..], q);
      assert forall p :: p in paths <==> p == paths[0] || p in paths[1..];
    }
  }

  // ------------------------------------------------------------------
  // Which keys survive the dotted encoding
  // ------------------------------------------------------------------

  predicate HoldsFn(node: Tree) {
    node.Fn? || HoldsFnIn(node.entries)
  }

  predicate HoldsFnIn(es: Entries) {
    es.Entry? && (HoldsFn(es.node) || HoldsFnIn(es.rest))
  }

  // No key that leads to a function has a dot.
  predicate DotFree(es: Entries) {
    es.Entry? ==>
      && (HoldsFn(es.node) ==> '.' !in es.key)
      && (es.node.Obj? ==> DotFree(es.node.entries))
      && DotFree(es.rest)
  }

  // No function sits below an empty key at the root.
  predicate NamedRoots(es: Entries) {
    es.Entry? ==> (es.key == "" && es.node.Obj? ==> !HoldsFn(es.node)) && NamedRoots(es.rest)
  }

  predicate Survives(es: Entries) {
    DotFree(es) && NamedRoots(es)
  }

  // A key sequence the dotted encoding can carry.
  ghost predicate GoodParts(parts: seq<string>) {
    parts != [] && (forall p <- parts :: '.' !in p) && (|parts| > 1 ==> parts[0] != "")
  }

  lemma GoodPath(parts: seq<string>)
    requires GoodParts(parts)
    ensures PathOf("", parts) == Join(parts, '.') && Split(PathOf("", parts), '.') == parts
  {
    if |parts| > 1 {
      PathOfPrefixed(parts[0], parts[1..]);
      assert Extend("", parts[0]) == parts[0];
    } else {
      assert parts[1..] == [];
    }
    SplitJoin(parts, '.');
  }

  lemma {:induction false} SplitNoLonger(parts: seq<string>)
    requires parts != [] && forall p <- parts :: '.' !in p
    ensures |Split(PathOf("", parts), '.')| <= |parts|
    decreases |parts|
  {
    if GoodParts(parts) {
      GoodPath(parts);
    } else {
      assert forall p <- parts[1..] :: p in parts;
      SplitNoLonger(parts[1..]);
    }
  }

  // A path splits back into its key sequence exactly when the sequence is a good one.
  lemma SplitBackExactly(parts: seq<string>)
    requires parts != []
    ensures Split(PathOf("", parts), '.') == parts <==> GoodParts(parts)
  {
    if GoodParts(parts) {
      GoodPath(parts);
    } else if Split(PathOf("", parts), '.') == parts {
      JoinSplit(PathOf("", parts), '.');
      assert forall p <- parts[1..] :: p in parts;
      SplitNoLonger(parts[1..]);
      assert false;
    }
  }

  lemma {:induction false} HoldsFnExactly(es: Entries)
    requires Distinct(es)
    ensures HoldsFnIn(es) <==> exists parts :: FnAt(es, parts).Some?
    decreases es
  {
    if es.Entry? {
      HoldsFnExactly(es.rest);
      if es.node.Obj? { HoldsFnExactly(es.node.entries); }
      if HoldsFnIn(es.rest) {
        var parts :| FnAt(es.rest, parts).Some?;
        RestFn(es, parts);
      } else if es.node.Fn? {
        HeadFn(es, "");
      } else if HoldsFn(es.node) {
        var parts :| FnAt(es.node.entries, parts).Some?;
        HeadTree(es, "", parts);
      }
      forall parts | FnAt(es, parts).Some? ensures HoldsFnIn(es) {
        FnBelow(es, parts);
      }
    }
  }

  // A function is the head entry, below it, or in the rest.
  lemma FnBelow(es: Entries, parts: seq<string>)
    requires FnAt(es, parts).Some?
    ensures es.Entry? && parts != []
    ensures es.key != parts[0] ==> FnAt(es.rest, parts).Some?
    ensures es.key == parts[0] && es.node.Fn? ==> parts == [es.key]
    ensures es.key == parts[0] && es.node.Obj? ==> FnAt(es.node.entries, parts[1..]).Some? && parts[1..] != []
  {
    if es.key == parts[0] {
      assert parts == [es.key] + parts[1..];
      if es.node.Fn? { assert parts[1..] == []; }
    }
  }

  lemma {:induction false} DotFreeExactly(es: Entries)
    requires Distinct(es)
    ensures DotFree(es) <==> forall parts | FnAt(es, parts).Some? :: forall p <- parts :: '.' !in p
    decreases es
  {
    if es.Entry? {
      DotFreeExactly(es.rest);
      if es.node.Obj? {
        DotFreeExactly(es.node.entries);
        HoldsFnExactly(es.node.entries);
      }
      if DotFree(es) {
        forall parts, p | FnAt(es, parts).Some? && p in parts ensures '.' !in p {
          FnBelow(es, parts);
          if es.key == parts[0] { assert parts == [es.key] + parts[1..]; }
        }
      } else if !DotFree(es.rest) {
        var parts :| FnAt(es.rest, parts).Some? && exists p <- parts :: '.' in p;
        RestFn(es, parts);
      } else if es.node.Fn? {
        HeadFn(es, "");
        assert es.key in [es.key];
      } else {
        var parts :| FnAt(es.node.entries, parts).Some? &&
          (!DotFree(es.node.entries) ==> exists p <- parts :: '.' in p);
        HeadTree(es, "", parts);
        assert es.key in [es.key] + parts && forall p <- parts :: p in [es.key] + parts;
      }
    }
  }

  lemma {:induction false} NamedRootsExactly(es: Entries)
    requires Distinct(es)
    ensures NamedRoots(es) <==> forall parts | FnAt(es, parts).Some? && |parts| > 1 :: parts[0] != ""
    decreases es
  {
    if es.Entry? {
      NamedRootsExactly(es.rest);
      if es.node.Obj? { HoldsFnExactly(es.node.entries); }
      if NamedRoots(es) {
        forall parts | FnAt(es, parts).Some? && |parts| > 1 ensures parts[0] != "" {
          FnBelow(es, parts);
        }
      } else if !NamedRoots(es.rest) {
        var parts :| FnAt(es.rest, parts).Some? && |parts| > 1 && parts[0] == "";
        RestFn(es, parts);
      } else {
        var parts :| FnAt(es.node.entries, parts).Some?;
        FnBelow(es.node.entries, parts);
        HeadTree(es, "", parts);
        assert ([es.key] + parts)[0] == "";
      }
    }
  }

  lemma SurvivesExactly(es: Entries)
    requires Distinct(es)
    ensures Survives(es) <==> forall parts | FnAt(es, parts).Some? :: GoodParts(parts)
  {
    DotFreeExactly(es);
    NamedRootsExactly(es);
    forall parts | FnAt(es, parts).Some? ensures parts != [] {
      FnBelow(es, parts);
    }
  }

  // ------------------------------------------------------------------
  // The round trip
  // ------------------------------------------------------------------

  function Table0(es: Entries): Table {
    Flatten(es, "", [])
  }

  lemma SurvivorsApart(es: Entries)
    requires Distinct(es) && Survives(es)
    ensures PathsApart(es, "")
  {
    SurvivesExactly(es);
    forall a, b | FnAt(es, a).Some? && FnAt(es, b).Some? && PathOf("", a) == PathOf("", b) ensures a == b {
      GoodPath(a);
      GoodPath(b);
    }
  }

  lemma TableHolds(es: Entries)
    requires Distinct(es) && PathsApart(es, "")
    ensures Unique(Table0(es))
    ensures forall e :: e in Table0(es) <==> Reached(es, "", e)
  {
    FlattenHolds(es, "", []);
  }

  lemma LeafPath(es: Entries, parts: seq<string>)
    requires Distinct(es) && Survives(es) && FnAt(es, parts).Some?
    ensures parts != [] && PathOf("", parts) == Join(parts, '.')
    ensures Split(PathOf("", parts), '.') == parts
  {
    SurvivesExactly(es);
    GoodPath(parts);
  }

  // The flattened paths are free of duplicates, and none continues another.
  lemma FlattenedPathsAreLeaves(es: Entries)
    requires Distinct(es) && Survives(es)
    ensures Leaves(KeysOf(Table0(es)))
    ensures Unique(Table0(es))
    ensures Names(Table0(es)) == CatalogEntries(es, "")
    ensures forall parts :: FnAt(es, parts).Some? ==> parts != [] && Join(parts, '.') in Names(Table0(es))
  {
    SurvivorsApart(es);
    TableHolds(es);
    CatalogAgrees(es, "", []);
    var table := Table0(es);
    var paths := KeysOf(table);
    forall i, j | 0 <= i < |paths| && 0 <= j < |paths| && i != j
      ensures !(Split(paths[i], '.') <= Split(paths[j], '.'))
    {
      assert table[i] in table && table[j] in table;
      var a :| Reaches(es, "", a, table[i]);
      var b :| Reaches(es, "", b, table[j]);
      LeafPath(es, a);
      LeafPath(es, b);
      if a <= b { PrefixFree(es, a, b); }
    }
    forall parts | FnAt(es, parts).Some? ensures parts != [] && Join(parts, '.') in Names(table) {
      LeafPath(es, parts);
      var e := (Join(parts, '.'), FnAt(es, parts).value);
      assert Reaches(es, "", parts, e);
      assert e in table;
    }
  }

  lemma LeafListed(es: Entries, parts: seq<string>)
    requires Distinct(es) && Survives(es)
    ensures (exists p <- KeysOf(Table0(es)) :: Split(p, '.') == parts) <==> FnAt(es, parts).Some?
  {
    var table := Table0(es);
    var paths := KeysOf(table);
    SurvivorsApart(es);
    TableHolds(es);
    if FnAt(es, parts).Some? {
      LeafPath(es, parts);
      var e := (PathOf("", parts), FnAt(es, parts).value);
      assert Reaches(es, "", parts, e);
      assert e in table;
      var k :| 0 <= k < |table| && table[k] == e;
      assert paths[k] == e.0;
    }
    if p :| p in paths && Split(p, '.') == parts {
      var j :| 0 <= j < |paths| && paths[j] == p;
      assert table[j] in table;
      var q :| Reaches(es, "", q, table[j]);
      LeafPath(es, q);
    }
  }

  // The rebuilt tree has a proxy at exactly the key sequences of the original's
  // functions, and the one at `parts` sends that function's path.
  ghost predicate RoundTrips(es: Entries, parts: seq<string>) {
    SendAt(Rebuild(EMPTY_PROXY, KeysOf(Table0(es))), parts) ==
    if FnAt(es, parts).Some? then Some(PathOf("", parts)) else None
  }

  lemma CapabilityTreeRoundTrip(es: Entries, parts: seq<string>)
    requires Distinct(es) && Survives(es)
    ensures RoundTrips(es, parts)
  {
    FlattenedPathsAreLeaves(es);
    EmptySends(parts);
    RebuildSends(EMPTY_PROXY, KeysOf(Table0(es)), parts);
    LeafListed(es, parts);
    if FnAt(es, parts).Some? { LeafPath(es, parts); }
  }

  // The trees that survive the crossing are exactly those where no key leading to a
  // function has a dot, and no function sits below an empty root key.
  lemma RoundTripExactly(es: Entries)
    requires Distinct(es)
    ensures (forall parts :: RoundTrips(es, parts)) <==> Survives(es)
  {
    if Survives(es) {
      forall parts ensures RoundTrips(es, parts) {
        CapabilityTreeRoundTrip(es, parts);
      }
    } else {
      SurvivesExactly(es);
      var parts :| FnAt(es, parts).Some? && !GoodParts(parts);
      FnBelow(es, parts);
      EmptySends(parts);
      RebuildSendsOwn(EMPTY_PROXY, KeysOf(Table0(es)), parts);
      SplitBackExactly(parts);
      assert !RoundTrips(es, parts);
    }
  }

  // ------------------------------------------------------------------
  // When the table loses a function
  // ------------------------------------------------------------------

  // Functions are told apart by their ids.
  ghost predicate Identified(es: Entries) {
    forall a, b | FnAt(es, a).Some? && FnAt(es, a) == FnAt(es, b) :: a == b
  }

  ghost predicate Kept(es: Entries, parts: seq<string>)
    requires FnAt(es, parts).Some?
  {
    (PathOf("", parts), FnAt(es, parts).value) in Table0(es)
  }

  // The host table keeps every function exactly when no two key sequences share a path.
  lemma TableKeepsAllExactly(es: Entries)
    requires Distinct(es) && Identified(es)
    ensures (forall parts | FnAt(es, parts).Some? :: Kept(es, parts)) <==> PathsApart(es, "")
  {
    var table := Table0(es);
    if PathsApart(es, "") {
      TableHolds(es);
      forall parts | FnAt(es, parts).Some? ensures Kept(es, parts) {
        assert Reaches(es, "", parts, (PathOf("", parts), FnAt(es, parts).value));
      }
    } else {
      CatalogAgrees(es, "", []);
      var a, b :| FnAt(es, a).Some? && FnAt(es, b).Some? && PathOf("", a) == PathOf("", b) && a != b;
      OneRow(table, PathOf("", a), FnAt(es, a).value, FnAt(es, b).value);
      assert FnAt(es, a) != FnAt(es, b);
      assert !Kept(es, a) || !Kept(es, b);
    }
  }

  lemma OneRow(table: Table, path: string, f: nat, g: nat)
    requires Unique(table)
    ensures (path, f) in table && (path, g) in table ==> f == g
  {}

  // Two functions that share one path: the table keeps only the later one.
  lemma DottedKeyLosesAFunction()
    ensures var es := Entry("a.b", Fn(1), Entry("a", Obj(Entry("b", Fn(2), End)), End));
      && FnAt(es, ["a.b"]) == Some(1) && FnAt(es, ["a", "b"]) == Some(2)
      && Table0(es) == [("a.b", 2)]
  {
    var es := Entry("a.b", Fn(1), Entry("a", Obj(Entry("b", Fn(2), End)), End));
    assert es.rest.node.entries.key == "b";
    assert Extend("a", "b") == "a.b";
    assert ["a", "b"][1..] == ["b"];
    assert Flatten(es, "", []) == Flatten(es.rest, "", [("a.b", 1)]);
    assert Flatten(es.rest, "", [("a.b", 1)]) == Flatten(es.rest.rest, "", Flatten(es.rest.node.entries, "a", [("a.b", 1)]));
    assert Flatten(es.rest.node.entries, "a", [("a.b", 1)]) == [("a.b", 2)];
  }
}
