/** The eval matcher: does a model's structured answer contain what a case expects? */
module PartialMatch {
  import opened Wrappers
  import opened Text

  // A value behind Go's `any`. Objects are maps: no order.
  datatype Val =
    | Nil
    | Boolean(b: bool)
    | Str(s: string)
    | Float64(r: real)
    | Float32(r: real)
    | Int(n: int)
    | Int64(n: int)
    | Int32(n: int)
    | Arr(items: seq<Val>)
    | Obj(fields: map<string, Val>)

  // Messages, minus their formatting.
  datatype Failure =
    | ExpectedObject(path: string, gotType: string)
    | ExpectedArray(path: string, gotType: string)
    | KeyMissing(path: string)
    | OutOfRange(path: string, length: nat)
    | Differs(path: string, want: Val, got: Val)
    | MissingText(sub: string)
    | ForbiddenText(sub: string)

  function TypeName(v: Val): string {
    match v
    case Nil => "<nil>"
    case Boolean(_) => "bool"
    case Str(_) => "string"
    case Float64(_) => "float64"
    case Float32(_) => "float32"
    case Int(_) => "int"
    case Int64(_) => "int64"
    case Int32(_) => "int32"
    case Arr(_) => "[]interface {}"
    case Obj(_) => "map[string]interface {}"
  }

  // `round` is Go's conversion of an integer to float64.
  function ToFloat64(round: int -> real, v: Val): Option<real> {
    match v
    case Float64(r) => Some(r)
    case Float32(r) => Some(r)
    case Int(n) => Some(round(n))
    case Int64(n) => Some(round(n))
    case Int32(n) => Some(round(n))
    case _ => None
  }

  predicate ScalarEqual(round: int -> real, want: Val, got: Val) {
    if want == got then true
    else
      var wf, gf := ToFloat64(round, want), ToFloat64(round, got);
      wf.Some? && gf.Some? && wf.value == gf.value
  }

  function JoinPath(parent: string, child: string): string {
    if parent == "" then child else parent + "." + child
  }

  function IndexPath(path: string, i: nat): string {
    path + "[" + Itoa(i) + "]"
  }

  // ------------------------------------------------------------------
  // The failures, as a bag
  // ------------------------------------------------------------------

  ghost function Bag(round: int -> real, want: Val, got: Val, path: string): multiset<Failure>
    decreases want
  {
    match want
    case Obj(_) =>
      if !got.Obj? then multiset{ExpectedObject(path, TypeName(got))}
      else KeysBag(round, want, got, path, want.fields.Keys)
    case Arr(_) =>
      if !got.Arr? then multiset{ExpectedArray(path, TypeName(got))}
      else ItemsBag(round, want, got, path, |want.items|)
    case _ =>
      if ScalarEqual(round, want, got) then multiset{} else multiset{Differs(path, want, got)}
  }

  ghost function KeyBag(round: int -> real, want: Val, got: Val, path: string, k: string): multiset<Failure>
    requires want.Obj? && got.Obj? && k in want.fields
    decreases want, 0
  {
    if k !in got.fields then multiset{KeyMissing(JoinPath(path, k))}
    else Bag(round, want.fields[k], got.fields[k], JoinPath(path, k))
  }

  ghost function KeysBag(round: int -> real, want: Val, got: Val, path: string, keys: set<string>): multiset<Failure>
    requires want.Obj? && got.Obj? && keys <= want.fields.Keys
    decreases want, 1, |keys|
  {
    if keys == {} then multiset{}
    else
      var k :| k in keys;
      KeyBag(round, want, got, path, k) + KeysBag(round, want, got, path, keys - {k})
  }

  ghost function ItemBag(round: int -> real, want: Val, got: Val, path: string, i: nat): multiset<Failure>
    requires want.Arr? && got.Arr? && i < |want.items|
    decreases want, 0
  {
    if i >= |got.items| then multiset{OutOfRange(IndexPath(path, i), |got.items|)}
    else Bag(round, want.items[i], got.items[i], IndexPath(path, i))
  }

  ghost function ItemsBag(round: int -> real, want: Val, got: Val, path: string, n: nat): multiset<Failure>
    requires want.Arr? && got.Arr? && n <= |want.items|
    decreases want, 1, n
  {
    if n == 0 then multiset{}
    else ItemsBag(round, want, got, path, n - 1) + ItemBag(round, want, got, path, n - 1)
  }

  // Whichever key comes first, the bag is the same.
  lemma {:induction false} AnyKeyFirst(
    round: int -> real, want: Val, got: Val, path: string, keys: set<string>, k: string)
    requires want.Obj? && got.Obj? && k in keys && keys <= want.fields.Keys
    ensures KeysBag(round, want, got, path, keys)
         == KeyBag(round, want, got, path, k) + KeysBag(round, want, got, path, keys - {k})
    decreases |keys|
  {
    var first :| first in keys && KeysBag(round, want, got, path, keys)
      == KeyBag(round, want, got, path, first) + KeysBag(round, want, got, path, keys - {first});
    if first != k {
      AnyKeyFirst(round, want, got, path, keys - {first}, k);
      AnyKeyFirst(round, want, got, path, keys - {k}, first);
      assert keys - {first} - {k} == keys - {k} - {first};
    }
  }

  // The failures are those of the bag, whatever order the keys are taken in.
  method Match(round: int -> real, want: Val, got: Val, path: string) returns (failures: seq<Failure>)
    ensures multiset(failures) == Bag(round, want, got, path)
    decreases want, 2
  {
    failures := [];
    match want {
      case Obj(_) =>
        if !got.Obj? { return [ExpectedObject(path, TypeName(got))]; }
        failures := MatchFields(round, want, got, path);
      case Arr(_) =>
        if !got.Arr? { return [ExpectedArray(path, TypeName(got))]; }
        failures := MatchItems(round, want, got, path);
      case _ =>
        if !ScalarEqual(round, want, got) {
          failures := failures + [Differs(path, want, got)];
        }
    }
  }

  // `range` over a map: each key once, in an order of the runtime's choosing.
  method MatchFields(round: int -> real, want: Val, got: Val, path: string) returns (failures: seq<Failure>)
    requires want.Obj? && got.Obj?
    ensures multiset(failures) == KeysBag(round, want, got, path, want.fields.Keys)
    decreases want, 1
  {
    failures := [];
    var keys := want.fields.Keys;
    while keys != {}
      invariant keys <= want.fields.Keys
      invariant multiset(failures) + KeysBag(round, want, got, path, keys)
             == KeysBag(round, want, got, path, want.fields.Keys)
      decreases |keys|
    {
      var k :| k in keys;
      AnyKeyFirst(round, want, got, path, keys, k);
      ghost var more := KeyBag(round, want, got, path, k);
      keys := keys - {k};
      assert multiset(failures) + more + KeysBag(round, want, got, path, keys)
          == KeysBag(round, want, got, path, want.fields.Keys);
      var childPath := JoinPath(path, k);
      if k !in got.fields {
        failures := failures + [KeyMissing(childPath)];
        continue;
      }
      var inner := Match(round, want.fields[k], got.fields[k], childPath);
      assert multiset(inner) == more;
      failures := failures + inner;
    }
  }

  method MatchItems(round: int -> real, want: Val, got: Val, path: string) returns (failures: seq<Failure>)
    requires want.Arr? && got.Arr?
    ensures multiset(failures) == ItemsBag(round, want, got, path, |want.items|)
    decreases want, 1
  {
    failures := [];
    for i := 0 to |want.items|
      invariant multiset(failures) == ItemsBag(round, want, got, path, i)
    {
      var childPath := IndexPath(path, i);
      if i >= |got.items| {
        failures := failures + [OutOfRange(childPath, |got.items|)];
        continue;
      }
      var inner := Match(round, want.items[i], got.items[i], childPath);
      failures := failures + inner;
    }
  }

  // ------------------------------------------------------------------
  // What no failures means
  // ------------------------------------------------------------------

  datatype Hop = Key(k: string) | Index(i: nat)

  function At(v: Val, path: seq<Hop>): Option<Val>
    decreases |path|
  {
    if path == [] then Some(v)
    else
      match path[0]
      case Key(k) => if v.Obj? && k in v.fields then At(v.fields[k], path[1..]) else None
      case Index(i) => if v.Arr? && i < |v.items| then At(v.items[i], path[1..]) else None
  }

  lemma AtHop(v: Val, hop: Hop, rest: seq<Hop>)
    ensures At(v, [hop] + rest) == if At(v, [hop]).Some? then At(At(v, [hop]).value, rest) else None
  {
    assert [hop][1..] == [] && ([hop] + rest)[1..] == rest;
  }

  // One node stands for another: an object for an object, an array for an array, and
  // otherwise equal scalars.
  predicate Stands(round: int -> real, want: Val, got: Val) {
    match want
    case Obj(_) => got.Obj?
    case Arr(_) => got.Arr?
    case _ => ScalarEqual(round, want, got)
  }

  // `want` is contained in `got`: at every path where `want` has a node, `got` has one
  // that stands for it.
  ghost predicate Contained(round: int -> real, want: Val, got: Val) {
    forall p | At(want, p).Some? :: At(got, p).Some? && Stands(round, At(want, p).value, At(got, p).value)
  }

  lemma ContainedDown(round: int -> real, want: Val, got: Val, hop: Hop)
    requires Contained(round, want, got) && At(want, [hop]).Some?
    ensures At(got, [hop]).Some? && Contained(round, At(want, [hop]).value, At(got, [hop]).value)
  {
    var w, g := At(want, [hop]).value, At(got, [hop]).value;
    forall p | At(w, p).Some? ensures At(g, p).Some? && Stands(round, At(w, p).value, At(g, p).value) {
      AtHop(want, hop, p);
      AtHop(got, hop, p);
    }
  }

  // Matching at the root and below every child is matching everywhere.
  lemma ContainedUp(round: int -> real, want: Val, got: Val)
    requires Stands(round, want, got)
    requires forall hop | At(want, [hop]).Some? ::
      At(got, [hop]).Some? && Contained(round, At(want, [hop]).value, At(got, [hop]).value)
    ensures Contained(round, want, got)
  {
    forall p | At(want, p).Some? ensures At(got, p).Some? && Stands(round, At(want, p).value, At(got, p).value) {
      if p != [] {
        assert p == [p[0]] + p[1..];
        AtHop(want, p[0], p[1..]);
        AtHop(got, p[0], p[1..]);
      }
    }
  }

  lemma FieldsContained(round: int -> real, want: Val, got: Val)
    requires want.Obj? && got.Obj?
    ensures Contained(round, want, got)
       <==> forall k <- want.fields :: k in got.fields && Contained(round, want.fields[k], got.fields[k])
  {
    if Contained(round, want, got) {
      forall k | k in want.fields ensures k in got.fields && Contained(round, want.fields[k], got.fields[k]) {
        assert [Key(k)][1..] == [];
        ContainedDown(round, want, got, Key(k));
      }
    } else if forall k <- want.fields :: k in got.fields && Contained(round, want.fields[k], got.fields[k]) {
      forall hop | At(want, [hop]).Some?
        ensures At(got, [hop]).Some? && Contained(round, At(want, [hop]).value, At(got, [hop]).value)
      {
        assert [hop][1..] == [] && hop.k in want.fields;
      }
      ContainedUp(round, want, got);
      assert false;
    }
  }

  lemma NoLonger(round: int -> real, a: Val, b: Val)
    requires a.Arr? && b.Arr? && Contained(round, a, b)
    ensures |a.items| <= |b.items|
  {
    if a.items != [] {
      var last := Index(|a.items| - 1);
      assert [last][1..] == [];
      ContainedDown(round, a, b, last);
    }
  }

  lemma ItemsContained(round: int -> real, want: Val, got: Val)
    requires want.Arr? && got.Arr?
    ensures Contained(round, want, got)
      <==>
        && |want.items| <= |got.items|
        && forall i | 0 <= i < |want.items| :: Contained(round, want.items[i], got.items[i])
  {
    if Contained(round, want, got) {
      NoLonger(round, want, got);
      forall i | 0 <= i < |want.items| ensures Contained(round, want.items[i], got.items[i]) {
        assert [Index(i)][1..] == [];
        ContainedDown(round, want, got, Index(i));
      }
    } else if |want.items| <= |got.items| && forall i | 0 <= i < |want.items| :: Contained(round, want.items[i], got.items[i]) {
      forall hop | At(want, [hop]).Some?
        ensures At(got, [hop]).Some? && Contained(round, At(want, [hop]).value, At(got, [hop]).value)
      {
        assert [hop][1..] == [] && hop.i < |want.items|;
      }
      ContainedUp(round, want, got);
      assert false;
    }
  }

  // The matcher reports nothing exactly when the expectation is contained in the answer.
  lemma {:induction false} NoFailuresIffContained(round: int -> real, want: Val, got: Val, path: string)
    ensures Bag(round, want, got, path) == multiset{} <==> Contained(round, want, got)
    decreases want, 2
  {
    assert At(want, []) == Some(want) && At(got, []) == Some(got);
    if !Stands(round, want, got) {
      assert !Contained(round, want, got);
    } else if want.Obj? {
      KeysIffContained(round, want, got, path, want.fields.Keys);
      FieldsContained(round, want, got);
    } else if want.Arr? {
      ItemsIffContained(round, want, got, path, |want.items|);
      ItemsContained(round, want, got);
    } else {
      forall hop ensures At(want, [hop]).None? {}
      ContainedUp(round, want, got);
    }
  }

  lemma {:induction false} KeysIffContained(
    round: int -> real, want: Val, got: Val, path: string, keys: set<string>)
    requires want.Obj? && got.Obj? && keys <= want.fields.Keys
    ensures KeysBag(round, want, got, path, keys) == multiset{}
       <==> forall k <- keys :: k in got.fields && Contained(round, want.fields[k], got.fields[k])
    decreases want, 1, |keys|
  {
    if keys != {} {
      var k :| k in keys;
      AnyKeyFirst(round, want, got, path, keys, k);
      KeysIffContained(round, want, got, path, keys - {k});
      if k in got.fields { NoFailuresIffContained(round, want.fields[k], got.fields[k], JoinPath(path, k)); }
      var a, b := KeyBag(round, want, got, path, k), KeysBag(round, want, got, path, keys - {k});
      assert a + b == multiset{} <==> a == multiset{} && b == multiset{} by { SumEmpty(a, b); }
    }
  }

  lemma {:induction false} ItemsIffContained(round: int -> real, want: Val, got: Val, path: string, n: nat)
    requires want.Arr? && got.Arr? && n <= |want.items|
    ensures ItemsBag(round, want, got, path, n) == multiset{}
       <==> n <= |got.items| && forall i | 0 <= i < n :: Contained(round, want.items[i], got.items[i])
    decreases want, 1, n
  {
    if n > 0 {
      ItemsIffContained(round, want, got, path, n - 1);
      if n - 1 < |got.items| {
        NoFailuresIffContained(round, want.items[n - 1], got.items[n - 1], IndexPath(path, n - 1));
      }
      SumEmpty(ItemsBag(round, want, got, path, n - 1), ItemBag(round, want, got, path, n - 1));
    }
  }

  lemma SumEmpty<T>(a: multiset<T>, b: multiset<T>)
    ensures a + b == multiset{} <==> a == multiset{} && b == multiset{}
  {
    if a + b == multiset{} {
      forall x: T ensures a[x] == 0 && b[x] == 0 {
        assert (a + b)[x] == 0;
      }
    }
  }

  // ------------------------------------------------------------------
  // What each failure tells
  // ------------------------------------------------------------------

  // A path as the messages write it: "a.b[0]".
  function PathText(root: string, hops: seq<Hop>): string
    decreases |hops|
  {
    if hops == [] then root
    else
      match hops[0]
      case Key(k) => PathText(if root == "" then k else root + "." + k, hops[1..])
      case Index(i) => PathText(root + "[" + Itoa(i) + "]", hops[1..])
  }

  // The node found is not one that stands for the node expected.
  ghost predicate Refuses(round: int -> real, w: Val, g: Val, text: string, f: Failure) {
    match w
    case Obj(_) => !g.Obj? && f == ExpectedObject(text, TypeName(g))
    case Arr(_) => !g.Arr? && f == ExpectedArray(text, TypeName(g))
    case _ => !ScalarEqual(round, w, g) && f == Differs(text, w, g)
  }

  // The object or array found does not reach as far as the expected hop.
  ghost predicate Lacks(g: Val, hop: Hop, text: string, f: Failure) {
    match hop
    case Key(_) => g.Obj? && f == KeyMissing(text)
    case Index(_) => g.Arr? && f == OutOfRange(text, |g.items|)
  }

  // The failure names the place `hops` of the expectation and says what is wrong there.
  ghost predicate Blames(round: int -> real, want: Val, got: Val, path: string, hops: seq<Hop>, f: Failure) {
    At(want, hops).Some? &&
    match At(got, hops)
    case Some(g) => Refuses(round, At(want, hops).value, g, PathText(path, hops), f)
    case None =>
      && hops != [] && At(got, hops[..|hops| - 1]).Some?
      && Lacks(At(got, hops[..|hops| - 1]).value, hops[|hops| - 1], PathText(path, hops), f)
  }

  ghost predicate Blamed(round: int -> real, want: Val, got: Val, path: string, f: Failure) {
    exists hops :: Blames(round, want, got, path, hops, f)
  }

  // Blame below a child both sides have is blame of the child.
  lemma BlamesBelow(round: int -> real, want: Val, got: Val, path: string, hop: Hop, rest: seq<Hop>, f: Failure)
    requires At(want, [hop]).Some? && At(got, [hop]).Some?
    ensures Blames(round, want, got, path, [hop] + rest, f) <==>
            Blames(round, At(want, [hop]).value, At(got, [hop]).value, PathText(path, [hop]), rest, f)
  {
    PathHop(path, hop, rest);
    AtHop(want, hop, rest);
    AtHop(got, hop, rest);
    if rest != [] {
      AboveLast(got, hop, rest);
    } else {
      assert At(At(got, [hop]).value, []).Some?;
    }
  }

  lemma PathHop(path: string, hop: Hop, rest: seq<Hop>)
    ensures PathText(path, [hop] + rest) == PathText(PathText(path, [hop]), rest)
  {
    assert ([hop] + rest)[1..] == rest && [hop][1..] == [];
    assert PathText(PathText(path, [hop]), []) == PathText(path, [hop]);
  }

  lemma AboveLast(got: Val, hop: Hop, rest: seq<Hop>)
    requires rest != [] && At(got, [hop]).Some?
    ensures var hops, init := [hop] + rest, rest[..|rest| - 1];
      && hops != [] && hops[|hops| - 1] == rest[|rest| - 1]
      && At(got, hops[..|hops| - 1]) == At(At(got, [hop]).value, init)
  {
    var init := rest[..|rest| - 1];
    assert ([hop] + rest)[..|rest|] == [hop] + init;
    AtHop(got, hop, init);
  }

  // Blame through a child the answer has not is blame of its being missing.
  lemma BlamesMissing(round: int -> real, want: Val, got: Val, path: string, hop: Hop, rest: seq<Hop>, f: Failure)
    requires At(want, [hop]).Some? && At(got, [hop]).None?
    ensures Blames(round, want, got, path, [hop] + rest, f) <==>
            rest == [] && Lacks(got, hop, PathText(path, [hop]), f)
  {
    AtHop(want, hop, rest);
    AtHop(got, hop, rest);
    if rest == [] {
      assert [hop] + rest == [hop] && [hop][..0] == [];
      assert At(got, []) == Some(got);
    } else {
      var init := rest[..|rest| - 1];
      assert ([hop] + rest)[..|rest|] == [hop] + init;
      AtHop(got, hop, init);
    }
  }

  // What the bag holds for one child.
  ghost predicate ChildBlamed(round: int -> real, want: Val, got: Val, path: string, hop: Hop, f: Failure)
    requires At(want, [hop]).Some?
  {
    if At(got, [hop]).Some? then Blamed(round, At(want, [hop]).value, At(got, [hop]).value, PathText(path, [hop]), f)
    else Lacks(got, hop, PathText(path, [hop]), f)
  }

  ghost predicate SomeChildBlamed(round: int -> real, want: Val, got: Val, path: string, f: Failure) {
    exists hop :: At(want, [hop]).Some? && ChildBlamed(round, want, got, path, hop, f)
  }

  lemma BlamedByChild(round: int -> real, want: Val, got: Val, path: string, f: Failure)
    requires Stands(round, want, got)
    ensures Blamed(round, want, got, path, f) <==> SomeChildBlamed(round, want, got, path, f)
  {
    if Blamed(round, want, got, path, f) {
      var hops :| Blames(round, want, got, path, hops, f);
      BlamesAChild(round, want, got, path, hops, f);
    } else if SomeChildBlamed(round, want, got, path, f) {
      var hop :| At(want, [hop]).Some? && ChildBlamed(round, want, got, path, hop, f);
      ChildIsBlamed(round, want, got, path, hop, f);
    }
  }

  lemma BlamesAChild(round: int -> real, want: Val, got: Val, path: string, hops: seq<Hop>, f: Failure)
    requires Stands(round, want, got) && Blames(round, want, got, path, hops, f)
    ensures SomeChildBlamed(round, want, got, path, f)
  {
    assert At(want, []) == Some(want) && At(got, []) == Some(got);
    assert hops != [] && hops == [hops[0]] + hops[1..];
    BlamedThrough(round, want, got, path, hops[0], hops[1..], f);
  }

  lemma BlamedThrough(round: int -> real, want: Val, got: Val, path: string, hop: Hop, rest: seq<Hop>, f: Failure)
    requires Blames(round, want, got, path, [hop] + rest, f)
    ensures At(want, [hop]).Some? && ChildBlamed(round, want, got, path, hop, f)
  {
    AtHop(want, hop, rest);
    if At(got, [hop]).Some? {
      BlamesBelow(round, want, got, path, hop, rest, f);
    } else {
      BlamesMissing(round, want, got, path, hop, rest, f);
    }
  }

  lemma ChildIsBlamed(round: int -> real, want: Val, got: Val, path: string, hop: Hop, f: Failure)
    requires At(want, [hop]).Some? && ChildBlamed(round, want, got, path, hop, f)
    ensures Blamed(round, want, got, path, f)
  {
    if At(got, [hop]).Some? {
      var rest :| Blames(round, At(want, [hop]).value, At(got, [hop]).value, PathText(path, [hop]), rest, f);
      BlamesBelow(round, want, got, path, hop, rest, f);
    } else {
      BlamesMissing(round, want, got, path, hop, [], f);
    }
  }

  // The failures reported are exactly those with a place of the expectation to blame: a node
  // of another kind or value, or a first missing key or index, each under its path.
  lemma {:induction false} FailuresTell(round: int -> real, want: Val, got: Val, path: string, f: Failure)
    ensures f in Bag(round, want, got, path) <==> Blamed(round, want, got, path, f)
    decreases want, 2
  {
    if !Stands(round, want, got) {
      RootBlamed(round, want, got, path, f);
    } else {
      BlamedByChild(round, want, got, path, f);
      match want {
        case Obj(fields) =>
          KeysTell(round, want, got, path, fields.Keys, f);
          forall hop | At(want, [hop]).Some? ensures hop.Key? && hop.k in fields { assert [hop][1..] == []; }
        case Arr(items) =>
          ItemsTell(round, want, got, path, |items|, f);
          forall hop | At(want, [hop]).Some? ensures hop.Index? && hop.i < |items| { assert [hop][1..] == []; }
          assert forall i: nat | i < |items| && ItemBlamed(round, want, got, path, i, f) ::
            At(want, [Index(i)]).Some? && ChildBlamed(round, want, got, path, Index(i), f);
          assert forall hop | At(want, [hop]).Some? && ChildBlamed(round, want, got, path, hop, f) ::
            ItemBlamed(round, want, got, path, hop.i, f);
        case _ =>
          forall hop ensures At(want, [hop]).None? {}
      }
    }
  }

  lemma RootBlamed(round: int -> real, want: Val, got: Val, path: string, f: Failure)
    requires !Stands(round, want, got)
    ensures f in Bag(round, want, got, path) <==> Blamed(round, want, got, path, f)
  {
    assert At(want, []) == Some(want) && At(got, []) == Some(got) && PathText(path, []) == path;
    assert Refuses(round, want, got, path, f) ==> Blames(round, want, got, path, [], f);
    forall hops | hops != [] ensures !Blames(round, want, got, path, hops, f) {
      assert hops == [hops[0]] + hops[1..];
      NotBelow(round, want, got, path, hops[0], hops[1..], f);
    }
  }

  lemma NotBelow(round: int -> real, want: Val, got: Val, path: string, hop: Hop, rest: seq<Hop>, f: Failure)
    requires !Stands(round, want, got)
    ensures !Blames(round, want, got, path, [hop] + rest, f)
  {
    AtHop(want, hop, rest);
    if At(want, [hop]).Some? {
      NoChild(round, want, got, hop);
      BlamesMissing(round, want, got, path, hop, rest, f);
    }
  }

  // A node of another kind has none of the children.
  lemma NoChild(round: int -> real, want: Val, got: Val, hop: Hop)
    requires !Stands(round, want, got) && At(want, [hop]).Some?
    ensures At(got, [hop]).None? && (hop.Key? ==> !got.Obj?) && (hop.Index? ==> !got.Arr?)
  {
    assert [hop][1..] == [];
  }

  lemma {:induction false} KeysTell(round: int -> real, want: Val, got: Val, path: string, keys: set<string>, f: Failure)
    requires want.Obj? && got.Obj? && keys <= want.fields.Keys
    ensures f in KeysBag(round, want, got, path, keys) <==>
            exists k <- keys :: At(want, [Key(k)]).Some? && ChildBlamed(round, want, got, path, Key(k), f)
    decreases want, 1, |keys|
  {
    if keys != {} {
      var k :| k in keys;
      AnyKeyFirst(round, want, got, path, keys, k);
      KeysTell(round, want, got, path, keys - {k}, f);
      KeyTells(round, want, got, path, k, f);
    }
  }

  lemma {:induction false} KeyTells(round: int -> real, want: Val, got: Val, path: string, k: string, f: Failure)
    requires want.Obj? && got.Obj? && k in want.fields
    ensures At(want, [Key(k)]) == Some(want.fields[k])
    ensures f in KeyBag(round, want, got, path, k) <==> ChildBlamed(round, want, got, path, Key(k), f)
    decreases want, 0
  {
    assert [Key(k)][1..] == [];
    assert PathText(path, [Key(k)]) == JoinPath(path, k);
    assert At(got, [Key(k)]) == if k in got.fields then Some(got.fields[k]) else None;
    if k in got.fields { FailuresTell(round, want.fields[k], got.fields[k], JoinPath(path, k), f); }
  }

  ghost predicate ItemBlamed(round: int -> real, want: Val, got: Val, path: string, i: nat, f: Failure) {
    At(want, [Index(i)]).Some? && ChildBlamed(round, want, got, path, Index(i), f)
  }

  ghost predicate SomeItemBlamed(round: int -> real, want: Val, got: Val, path: string, n: nat, f: Failure) {
    exists i: nat | i < n :: ItemBlamed(round, want, got, path, i, f)
  }

  lemma OneMoreItem(round: int -> real, want: Val, got: Val, path: string, n: nat, f: Failure)
    ensures SomeItemBlamed(round, want, got, path, n + 1, f) <==>
            SomeItemBlamed(round, want, got, path, n, f) || ItemBlamed(round, want, got, path, n, f)
  {
  }

  lemma {:induction false} ItemsTell(round: int -> real, want: Val, got: Val, path: string, n: nat, f: Failure)
    requires want.Arr? && got.Arr? && n <= |want.items|
    ensures f in ItemsBag(round, want, got, path, n) <==> SomeItemBlamed(round, want, got, path, n, f)
    decreases want, 1, n
  {
    if n > 0 {
      ItemsTell(round, want, got, path, n - 1, f);
      ItemTells(round, want, got, path, n - 1, f);
      ItemsStep(round, want, got, path, n - 1, f);
    }
  }

  lemma ItemsStep(round: int -> real, want: Val, got: Val, path: string, n: nat, f: Failure)
    requires want.Arr? && got.Arr? && n < |want.items|
    requires f in ItemsBag(round, want, got, path, n) <==> SomeItemBlamed(round, want, got, path, n, f)
    requires f in ItemBag(round, want, got, path, n) <==> ItemBlamed(round, want, got, path, n, f)
    ensures f in ItemsBag(round, want, got, path, n + 1) <==> SomeItemBlamed(round, want, got, path, n + 1, f)
  {
    ItemsNext(round, want, got, path, n, f);
    OneMoreItem(round, want, got, path, n, f);
  }

  lemma ItemsNext(round: int -> real, want: Val, got: Val, path: string, n: nat, f: Failure)
    requires want.Arr? && got.Arr? && n < |want.items|
    ensures f in ItemsBag(round, want, got, path, n + 1) <==>
            f in ItemsBag(round, want, got, path, n) || f in ItemBag(round, want, got, path, n)
  {
  }

  lemma {:induction false} ItemTells(round: int -> real, want: Val, got: Val, path: string, i: nat, f: Failure)
    requires want.Arr? && got.Arr? && i < |want.items|
    ensures f in ItemBag(round, want, got, path, i) <==> ItemBlamed(round, want, got, path, i, f)
    decreases want, 0
  {
    assert [Index(i)][1..] == [];
    assert At(want, [Index(i)]) == Some(want.items[i]);
    assert PathText(path, [Index(i)]) == IndexPath(path, i);
    assert At(got, [Index(i)]) == if i < |got.items| then Some(got.items[i]) else None;
    if i < |got.items| { FailuresTell(round, want.items[i], got.items[i], IndexPath(path, i), f); }
  }

  // ------------------------------------------------------------------
  // Containment is an order
  // ------------------------------------------------------------------

  // As JSON decodes: every number a float64.
  predicate Decoded(v: Val) {
    match v
    case Arr(items) => forall w <- items :: Decoded(w)
    case Obj(fields) => forall k <- fields :: Decoded(fields[k])
    case _ => !v.Float32? && !v.Int? && !v.Int64? && !v.Int32?
  }

  lemma ContainedReflexive(round: int -> real, v: Val)
    ensures Contained(round, v, v)
  {}

  lemma ContainedTransitive(round: int -> real, a: Val, b: Val, c: Val)
    requires Contained(round, a, b) && Contained(round, b, c)
    ensures Contained(round, a, c)
  {
    forall p | At(a, p).Some? ensures At(c, p).Some? && Stands(round, At(a, p).value, At(c, p).value) {
      assert Stands(round, At(a, p).value, At(b, p).value);
      assert Stands(round, At(b, p).value, At(c, p).value);
    }
  }

  // Decoded values that contain each other are equal.
  lemma {:induction false} ContainedAntisymmetric(round: int -> real, a: Val, b: Val)
    requires Decoded(a) && Decoded(b)
    requires Contained(round, a, b) && Contained(round, b, a)
    ensures a == b
    decreases a
  {
    assert At(a, []) == Some(a) && At(b, []) == Some(b);
    assert Stands(round, a, b) && Stands(round, b, a);
    if a.Obj? {
      forall k | k in a.fields || k in b.fields ensures k in a.fields && k in b.fields && a.fields[k] == b.fields[k] {
        assert [Key(k)][1..] == [];
        if k in a.fields { ContainedDown(round, a, b, Key(k)); }
        if k in b.fields { ContainedDown(round, b, a, Key(k)); }
        ContainedAntisymmetric(round, a.fields[k], b.fields[k]);
      }
      assert a.fields == b.fields;
    } else if a.Arr? {
      NoLonger(round, a, b);
      NoLonger(round, b, a);
      forall i | 0 <= i < |a.items| ensures a.items[i] == b.items[i] {
        assert [Index(i)][1..] == [];
        ContainedDown(round, a, b, Index(i));
        ContainedDown(round, b, a, Index(i));
        ContainedAntisymmetric(round, a.items[i], b.items[i]);
      }
      assert a.items == b.items;
    }
  }

  // ------------------------------------------------------------------
  // A whole eval case
  // ------------------------------------------------------------------

  datatype Expected = Expected(
    mustInclude: seq<string>, mustNotInclude: seq<string>, structured: Option<map<string, Val>>)

  predicate Occurs(raw: string, sub: string) {
    exists i | 0 <= i <= |raw| :: sub <= raw[i..]
  }

  // A case passes exactly when every required text occurs, no forbidden one does, and,
  // if there is both an expectation and an answer to compare, it is contained.
  method AssertExpected(round: int -> real, raw: string, parsed: Option<Val>, expected: Expected)
    returns (pass: bool, failures: seq<Failure>)
    ensures pass <==> failures == []
    ensures pass <==>
      && (forall sub <- expected.mustInclude :: Occurs(raw, sub))
      && (forall sub <- expected.mustNotInclude :: !Occurs(raw, sub))
      && (expected.structured.Some? && parsed.Some? && parsed.value != Nil
          ==> Contained(round, Obj(expected.structured.value), parsed.value))
  {
    failures := [];
    for i := 0 to |expected.mustInclude|
      invariant failures == [] <==> forall j | 0 <= j < i :: Occurs(raw, expected.mustInclude[j])
    {
      if !Occurs(raw, expected.mustInclude[i]) {
        failures := failures + [MissingText(expected.mustInclude[i])];
      }
    }
    for i := 0 to |expected.mustNotInclude|
      invariant failures == [] <==>
        && (forall sub <- expected.mustInclude :: Occurs(raw, sub))
        && forall j | 0 <= j < i :: !Occurs(raw, expected.mustNotInclude[j])
    {
      if Occurs(raw, expected.mustNotInclude[i]) {
        failures := failures + [ForbiddenText(expected.mustNotInclude[i])];
      }
    }
    if expected.structured.Some? && parsed.Some? && parsed.value != Nil {
      var want := Obj(expected.structured.value);
      var errs := Match(round, want, parsed.value, "");
      NoFailuresIffContained(round, want, parsed.value, "");
      assert multiset(errs) == multiset{} <==> errs == [];
      if |errs| > 0 {
        failures := failures + errs;
      }
    }
    pass := |failures| == 0;
  }
}
