/** Strings as the repository's code handles them: joining and splitting on a
    separator, the byte-wise order behind `sort.Strings`, and decimal numerals. */
module Text {

  function Join(parts: seq<string>, sep: char): string {
    if |parts| == 0 then ""
    else if |parts| == 1 then parts[0]
    else parts[0] + [sep] + Join(parts[1..], sep)
  }

  // JavaScript's `split`: never empty, one more part than separators.
  function Split(s: string, sep: char): (parts: seq<string>)
    ensures |parts| > 0
  {
    if s == "" then [""]
    else
      var rest := Split(s[1..], sep);
      if s[0] == sep then [""] + rest else [[s[0]] + rest[0]] + rest[1..]
  }

  lemma {:induction false} SplitAtFirst(a: string, rest: string, sep: char)
    requires sep !in a
    ensures Split(a, sep) == [a]
    ensures Split(a + [sep] + rest, sep) == [a] + Split(rest, sep)
  {
    if a == "" {
      assert ([sep] + rest)[1..] == rest;
      assert a + [sep] + rest == [sep] + rest;
    } else {
      SplitAtFirst(a[1..], rest, sep);
      assert (a + [sep] + rest)[1..] == a[1..] + [sep] + rest;
      assert [a[0]] + a[1..] == a;
    }
  }

  lemma {:induction false} SplitJoin(parts: seq<string>, sep: char)
    requires |parts| > 0
    requires forall p <- parts :: sep !in p
    ensures Split(Join(parts, sep), sep) == parts
  {
    if |parts| == 1 {
      SplitAtFirst(parts[0], "", sep);
    } else {
      SplitJoin(parts[1..], sep);
      SplitAtFirst(parts[0], Join(parts[1..], sep), sep);
    }
  }

  lemma {:induction false} JoinSplit(s: string, sep: char)
    ensures Join(Split(s, sep), sep) == s
    ensures forall p <- Split(s, sep) :: sep !in p
  {
    if s != "" {
      var rest := Split(s[1..], sep);
      JoinSplit(s[1..], sep);
      assert s == [s[0]] + s[1..];
      if s[0] == sep {
        assert Split(s, sep)[1..] == rest;
      } else {
        var parts := Split(s, sep);
        assert parts == [[s[0]] + rest[0]] + rest[1..];
        assert parts[1..] == rest[1..];
        if |rest| > 1 {
          assert [s[0]] + (rest[0] + [sep] + Join(rest[1..], sep)) == ([s[0]] + rest[0]) + [sep] + Join(rest[1..], sep);
        }
      }
    }
  }

  predicate StartsWith(s: string, prefix: string) {
    |prefix| <= |s| && s[..|prefix|] == prefix
  }

  predicate EndsWith(s: string, suffix: string) {
    |suffix| <= |s| && s[|s| - |suffix|..] == suffix
  }

  // ------------------------------------------------------------------
  // Byte-wise string order
  // ------------------------------------------------------------------

  predicate Leq(a: string, b: string) {
    if a == "" then true
    else if b == "" then false
    else if a[0] == b[0] then Leq(a[1..], b[1..])
    else a[0] < b[0]
  }

  lemma {:induction false} LeqTotal(a: string, b: string)
    ensures Leq(a, b) || Leq(b, a)
    ensures Leq(a, b) && Leq(b, a) ==> a == b
  {
    if a != "" && b != "" && a[0] == b[0] {
      LeqTotal(a[1..], b[1..]);
      assert a == [a[0]] + a[1..] && b == [b[0]] + b[1..];
    }
  }

  lemma {:induction false} LeqRefl(a: string)
    ensures Leq(a, a)
  {
    if a != "" { LeqRefl(a[1..]); }
  }

  lemma {:induction false} LeqTrans(a: string, b: string, c: string)
    requires Leq(a, b) && Leq(b, c)
    ensures Leq(a, c)
  {
    if a != "" && b != "" && c != "" && a[0] == b[0] == c[0] {
      LeqTrans(a[1..], b[1..], c[1..]);
    }
  }

  ghost predicate Sorted(s: seq<string>) {
    forall i, j :: 0 <= i < j < |s| ==> Leq(s[i], s[j])
  }

  // Sorted and free of duplicates: the only listing of its element set.
  ghost predicate Canonical(s: seq<string>) {
    Sorted(s) && forall i, j :: 0 <= i < j < |s| ==> s[i] != s[j]
  }

  ghost function Elems(s: seq<string>): set<string> {
    set x | x in s
  }

  lemma FirstElem(s: seq<string>)
    ensures s != [] ==> s[0] in Elems(s)
  {}

  lemma {:induction false} CanonicalUnique(a: seq<string>, b: seq<string>)
    requires Canonical(a) && Canonical(b)
    requires Elems(a) == Elems(b)
    ensures a == b
  {
    if a == [] {
      FirstElem(b);
    } else {
      assert a[0] in Elems(b);
      assert b != [];
      assert b[0] in Elems(a);
      LeqTotal(a[0], b[0]);
      assert Leq(a[0], b[0]) by {
        var k :| 0 <= k < |a| && a[k] == b[0];
        LeqRefl(a[0]);
      }
      assert Leq(b[0], a[0]) by {
        var k :| 0 <= k < |b| && b[k] == a[0];
        LeqRefl(b[0]);
      }
      assert a[0] == b[0];
      forall x ensures x in Elems(a[1..]) <==> x in Elems(b[1..]) {
        assert x in Elems(a) <==> x in Elems(b);
        TailElems(a, x);
        TailElems(b, x);
      }
      CanonicalUnique(a[1..], b[1..]);
      assert a == [a[0]] + a[1..] && b == [b[0]] + b[1..];
    }
  }

  lemma TailElems(a: seq<string>, x: string)
    requires a != [] && Canonical(a)
    ensures x in Elems(a[1..]) <==> x in Elems(a) && x != a[0]
  {
    if x in Elems(a) {
      var k :| 0 <= k < |a| && a[k] == x;
      if k > 0 { assert a[1..][k - 1] == x; }
    }
  }

  function Insert(x: string, s: seq<string>): seq<string> {
    if s == [] then [x]
    else if Leq(x, s[0]) then [x] + s
    else [s[0]] + Insert(x, s[1..])
  }

  // `sort.Strings`, as a function of its argument.
  function Sort(s: seq<string>): seq<string> {
    if s == [] then [] else Insert(s[0], Sort(s[1..]))
  }

  lemma {:induction false} InsertSorts(x: string, s: seq<string>)
    requires Sorted(s)
    ensures Sorted(Insert(x, s))
    ensures multiset(Insert(x, s)) == multiset(s) + multiset{x}
  {
    if s == [] {
    } else if Leq(x, s[0]) {
      assert s == [s[0]] + s[1..];
      forall j | 0 <= j < |s| ensures Leq(x, s[j]) {
        LeqRefl(s[0]);
        LeqTrans(x, s[0], s[j]);
      }
    } else {
      InsertSorts(x, s[1..]);
      LeqTotal(x, s[0]);
      var r := Insert(x, s[1..]);
      assert s == [s[0]] + s[1..];
      forall j | 0 <= j < |r| ensures Leq(s[0], r[j]) {
        assert r[j] in multiset(r);
      }
    }
  }

  lemma {:induction false} SortSorts(s: seq<string>)
    ensures Sorted(Sort(s))
    ensures multiset(Sort(s)) == multiset(s)
    ensures Elems(Sort(s)) == Elems(s)
  {
    if s != [] {
      SortSorts(s[1..]);
      InsertSorts(s[0], Sort(s[1..]));
      assert s == [s[0]] + s[1..];
    }
    forall x ensures x in Sort(s) <==> x in s {
      assert x in multiset(Sort(s)) <==> x in multiset(s);
    }
  }

  lemma InsertCanonical(x: string, s: seq<string>)
    requires Canonical(s) && x !in s
    ensures Canonical(Insert(x, s)) && Elems(Insert(x, s)) == Elems(s) + {x}
  {
    InsertSorts(x, s);
    var r := Insert(x, s);
    forall y ensures y in r <==> y in s || y == x {
      assert y in multiset(r) <==> y in multiset(s) + multiset{x};
    }
    NoRepeats(s);
    assert forall y :: multiset(r)[y] <= 1;
    forall i, j | 0 <= i < j < |r| ensures r[i] != r[j] {
      Repeated(r, i, j);
    }
  }

  lemma {:induction false} NoRepeats(s: seq<string>)
    requires forall i, j :: 0 <= i < j < |s| ==> s[i] != s[j]
    ensures forall y :: multiset(s)[y] <= 1
  {
    if s != [] {
      NoRepeats(s[1..]);
      assert s == [s[0]] + s[1..];
      forall x | x in s[1..] ensures x != s[0] {
        var j :| 0 <= j < |s[1..]| && s[1..][j] == x;
        assert s[j + 1] == x;
      }
    }
  }

  lemma Repeated(s: seq<string>, i: nat, j: nat)
    requires i < j < |s|
    ensures s[i] == s[j] ==> multiset(s)[s[i]] >= 2
  {
    assert s == s[..i] + [s[i]] + s[i + 1..j] + [s[j]] + s[j + 1..];
  }

  // The canonical listing of a finite set.
  ghost function Listing(s: set<string>): (l: seq<string>)
    ensures Canonical(l) && Elems(l) == s
  {
    if s == {} then []
    else
      var x :| x in s;
      var rest := Listing(s - {x});
      assert x !in rest by { assert x !in Elems(rest); }
      InsertCanonical(x, rest);
      Insert(x, rest)
  }

  // ------------------------------------------------------------------
  // Decimal numerals (`strconv.Itoa`)
  // ------------------------------------------------------------------

  const DIGITS := "0123456789"

  function Digits(n: nat): (s: string)
    ensures s != "" && (forall c <- s :: c in DIGITS)
  {
    if n < 10 then [DIGITS[n]] else Digits(n / 10) + [DIGITS[n % 10]]
  }

  function Itoa(n: int): string {
    if n < 0 then "-" + Digits(-n) else Digits(n)
  }

  lemma {:induction false} DigitsInjective(a: nat, b: nat)
    requires Digits(a) == Digits(b)
    ensures a == b
  {
    var s, t := Digits(a), Digits(b);
    assert a >= 10 ==> |s| >= 2;
    assert b >= 10 ==> |t| >= 2;
    if a >= 10 && b >= 10 {
      assert s[..|s| - 1] == Digits(a / 10) && t[..|t| - 1] == Digits(b / 10);
      assert s[|s| - 1] == DIGITS[a % 10] && t[|t| - 1] == DIGITS[b % 10];
      DigitsInjective(a / 10, b / 10);
    }
  }

  lemma ItoaSign(n: int)
    ensures Itoa(n) != "" && (Itoa(n)[0] == '-' <==> n < 0)
  {
    assert n >= 0 ==> Itoa(n)[0] in DIGITS;
  }

  lemma ItoaInjective(a: int, b: int)
    requires Itoa(a) == Itoa(b)
    ensures a == b
  {
    ItoaSign(a);
    ItoaSign(b);
    if a < 0 {
      assert Itoa(a)[1..] == Digits(-a) && Itoa(b)[1..] == Digits(-b);
      DigitsInjective(-a, -b);
    } else {
      DigitsInjective(a, b);
    }
  }

  lemma ItoaNulFree(n: int)
    ensures '\0' !in Itoa(n)
  {
    if n < 0 {
      assert forall c <- Digits(-n) :: c in DIGITS;
    }
  }
}
