/** Pulling a JSON object out of free-form model output. */
module ExtractJson {
  import opened Wrappers

  // ------------------------------------------------------------------
  // The string-aware balanced scan
  // ------------------------------------------------------------------

  datatype Scan = Scan(depth: int, inStr: bool, esc: bool)

  const OUTSIDE := Scan(0, false, false)

  function ScanChar(s: Scan, c: char): Scan {
    if s.inStr then
      if s.esc then s.(esc := false)
      else if c == '\\' then s.(esc := true)
      else if c == '"' then s.(inStr := false)
      else s
    else if c == '"' then s.(inStr := true)
    else if c == '{' then s.(depth := s.depth + 1)
    else if c == '}' then s.(depth := s.depth - 1)
    else s
  }

  function ScanText(s: Scan, text: string): Scan
    decreases |text|
  {
    if text == "" then s else ScanText(ScanChar(s, text[0]), text[1..])
  }

  // Does the brace that brings the depth back to zero for the first time sit at the
  // end of `text`?
  ghost predicate Closes(text: string) {
    && text != ""
    && ScanText(OUTSIDE, text).depth == 0
    && (forall k | 0 < k < |text| :: ScanText(OUTSIDE, text[..k]).depth != 0)
  }

  // The candidate at `start`: an object brace, and where its scan closes.
  ghost predicate Candidate(text: string, start: nat, end: nat) {
    start < end <= |text| && text[start] == '{' && Closes(text[start..end])
  }

  // What the object text at `start` parses to, when it closes on parseable text.
  ghost predicate ParsesAt<J>(parse: string -> Option<J>, text: string, start: nat, value: J) {
    exists end: nat :: Candidate(text, start, end) && parse(text[start..end]) == Some(value)
  }

  lemma {:induction false} ScanAppend(s: Scan, a: string, b: string)
    ensures ScanText(s, a + b) == ScanText(ScanText(s, a), b)
    decreases |a|
  {
    if a == "" {
      assert a + b == b;
    } else {
      assert (a + b)[1..] == a[1..] + b;
      ScanAppend(ScanChar(s, a[0]), a[1..], b);
    }
  }

  lemma SliceOfSlice(text: string, a: nat, b: nat, k: nat)
    requires a <= b <= |text| && k <= b - a
    ensures text[a..b][..k] == text[a..a + k]
  {}

  lemma ScanNext(s: Scan, text: string, from: nat, i: nat)
    requires from <= i < |text|
    ensures ScanText(s, text[from..i + 1]) == ScanChar(ScanText(s, text[from..i]), text[i])
  {
    assert text[from..i + 1] == text[from..i] + [text[i]];
    ScanAppend(s, text[from..i], [text[i]]);
    assert [text[i]][1..] == "";
  }

  lemma NotClosedEarlier(text: string, start: nat, a: nat, b: nat)
    requires start < a < b <= |text| && Closes(text[start..b])
    ensures !Closes(text[start..a])
  {
    SliceOfSlice(text, start, b, a - start);
  }

  // At most one end closes a candidate.
  lemma ClosesOnce(text: string, start: nat, a: nat, b: nat)
    requires Candidate(text, start, a) && Candidate(text, start, b)
    ensures a == b
  {
    if a < b { NotClosedEarlier(text, start, a, b); }
    if b < a { NotClosedEarlier(text, start, b, a); }
  }

  method IndexOf(text: string, c: char, from: nat) returns (i: int)
    ensures i == -1 ==> forall k | from <= k < |text| :: text[k] != c
    ensures i != -1 ==> from <= i < |text| && text[i] == c && forall k | from <= k < i :: text[k] != c
  {
    i := from;
    while i < |text|
      invariant from <= i
      invariant forall k | from <= k < i && k < |text| :: text[k] != c
    {
      if text[i] == c { return; }
      i := i + 1;
    }
    i := -1;
  }

  // The loop's state after text[start..i]: before the close the depth stays positive.
  ghost predicate Inside(text: string, start: nat, i: nat) {
    start <= i <= |text| && forall e | start < e <= i :: ScanText(OUTSIDE, text[start..e]).depth >= 1
  }

  // Only a closing brace outside strings brings a positive depth to zero.
  lemma DepthZeroAtBrace(text: string, start: nat, i: nat)
    requires i < |text| && Inside(text, start, i) && text[start] == '{'
    ensures var s, t := ScanText(OUTSIDE, text[start..i]), ScanText(OUTSIDE, text[start..i + 1]);
      && t == ScanChar(s, text[i])
      && t.depth >= 0 && (t.depth == 0 <==> !s.inStr && text[i] == '}' && s.depth == 1)
  {
    ScanNext(OUTSIDE, text, start, i);
    if i == start {
      assert text[start..start] == "";
    } else {
      assert ScanText(OUTSIDE, text[start..i]).depth >= 1;
    }
  }

  lemma InsideIsOpen(text: string, start: nat, i: nat, e: nat)
    requires Inside(text, start, i) && e <= i
    ensures !Candidate(text, start, e)
  {
    if start < e { assert ScanText(OUTSIDE, text[start..e]).depth >= 1; }
  }

  lemma ClosesHere(text: string, start: nat, i: nat)
    requires Inside(text, start, i) && i < |text| && text[start] == '{'
    requires ScanText(OUTSIDE, text[start..i + 1]).depth == 0
    ensures Candidate(text, start, i + 1)
  {
    var whole := text[start..i + 1];
    forall k | 0 < k < |whole| ensures ScanText(OUTSIDE, whole[..k]).depth != 0 {
      SliceOfSlice(text, start, i + 1, k);
      assert ScanText(OUTSIDE, text[start..start + k]).depth >= 1;
    }
  }

  // Where the scan from `start` closes, if it does.
  method FindClose(text: string, start: nat) returns (end: Option<nat>)
    requires start < |text| && text[start] == '{'
    ensures end.Some? ==> Candidate(text, start, end.value)
    ensures end.None? ==> forall e: nat :: !Candidate(text, start, e)
  {
    var depth, inStr, esc := 0, false, false;
    assert text[start..start] == "";
    for i := start to |text|
      invariant Inside(text, start, i)
      invariant Scan(depth, inStr, esc) == ScanText(OUTSIDE, text[start..i])
    {
      var c := text[i];
      DepthZeroAtBrace(text, start, i);
      if inStr {
        if esc {
          esc := false;
        } else if c == '\\' {
          esc := true;
        } else if c == '"' {
          inStr := false;
        }
      } else if c == '"' {
        inStr := true;
      } else if c == '{' {
        depth := depth + 1;
      } else if c == '}' {
        depth := depth - 1;
        if depth == 0 {
          ClosesHere(text, start, i);
          return Some(i + 1);
        }
      }
    }
    forall e: nat ensures !Candidate(text, start, e) {
      if e <= |text| { InsideIsOpen(text, start, |text|, e); }
    }
    return None;
  }

  ghost predicate Leftmost<J(!new)>(parse: string -> Option<J>, text: string, start: nat, value: J) {
    && ParsesAt(parse, text, start, value)
    && forall k: nat, v | k < start :: !ParsesAt(parse, text, k, v)
  }

  // The promised result: the parse of the leftmost brace whose scan closes on
  // parseable text; None is the thrown error, exactly when there is no such brace.
  ghost predicate Extracted<J(!new)>(parse: string -> Option<J>, text: string, value: Option<J>) {
    match value
    case Some(v) => exists start: nat :: Leftmost(parse, text, start, v)
    case None => forall start: nat, v :: !ParsesAt(parse, text, start, v)
  }

  lemma ExtractedUnique<J(!new)>(parse: string -> Option<J>, text: string, a: Option<J>, b: Option<J>)
    requires Extracted(parse, text, a) && Extracted(parse, text, b)
    ensures a == b
  {
    if a.Some? && b.Some? {
      var i: nat :| Leftmost(parse, text, i, a.value);
      var j: nat :| Leftmost(parse, text, j, b.value);
      assert i == j;
      ParsesOnce(parse, text, i, a.value, b.value);
    }
  }

  lemma ParsesOnce<J>(parse: string -> Option<J>, text: string, start: nat, a: J, b: J)
    requires ParsesAt(parse, text, start, a) && ParsesAt(parse, text, start, b)
    ensures a == b
  {
    var i: nat :| Candidate(text, start, i) && parse(text[start..i]) == Some(a);
    var j: nat :| Candidate(text, start, j) && parse(text[start..j]) == Some(b);
    ClosesOnce(text, start, i, j);
  }

  method Extract<J(!new)>(text: string, parse: string -> Option<J>) returns (value: Option<J>)
    ensures Extracted(parse, text, value)
  {
    var start := IndexOf(text, '{', 0);
    while start != -1
      invariant start == -1 || (0 <= start < |text| && text[start] == '{')
      invariant forall k: nat, v | k < |text| && (start == -1 || k < start) :: !ParsesAt(parse, text, k, v)
      decreases if start == -1 then 0 else |text| - start
    {
      var end := FindClose(text, start);
      if end.Some? {
        value := parse(text[start..end.value]);
        if value.Some? {
          assert Leftmost(parse, text, start, value.value);
          return;
        }
        forall e | Candidate(text, start, e) ensures e == end.value {
          ClosesOnce(text, start, e, end.value);
        }
      }
      var next := IndexOf(text, '{', start + 1);
      start := next;
    }
    return None;
  }

  // ------------------------------------------------------------------
  // JSON texts (RFC 8259, sections 2 to 7)
  // ------------------------------------------------------------------

  // A character of a string: unescaped, or an escape (a `u` escape's four hex digits
  // are ordinary characters to the scan).
  datatype StrChar = Plain(c: char) | Escape(c: char) | Unicode(a: char, b: char, c: char, d: char)

  // Concrete syntax, with the white space of a text kept.
  datatype Value =
    | Scalar(text: string)                     // true, false, null or a number
    | Str(chars: seq<StrChar>)
    | Arr(open: string, items: Items)          // `open` is the white space after "["
    | Obj(open: string, members: Members)
  datatype Items = NoItems | Item(before: string, value: Value, after: string, rest: Items)
  datatype Members = NoMembers | Member(before: string, key: seq<StrChar>, colon: string, value: Value, after: string, rest: Members)

  predicate Quiet(s: string) {
    forall c <- s :: c != '"' && c != '{' && c != '}'
  }

  predicate HexDigit(c: char) {
    '0' <= c <= '9' || 'a' <= c <= 'f' || 'A' <= c <= 'F'
  }

  predicate WellFormedChars(cs: seq<StrChar>) {
    forall k <- cs ::
      match k
      case Plain(c) => c != '"' && c != '\\' && c >= ' '
      case Escape(c) => c in "\"\\/bfnrt"
      case Unicode(a, b, c, d) => HexDigit(a) && HexDigit(b) && HexDigit(c) && HexDigit(d)
  }

  // White space, literals and numbers hold no quote and no brace.
  predicate WellFormed(v: Value) {
    match v
    case Scalar(text) => Quiet(text)
    case Str(cs) => WellFormedChars(cs)
    case Arr(open, items) => Quiet(open) && WellFormedItems(items)
    case Obj(open, members) => Quiet(open) && WellFormedMembers(members)
  }

  predicate WellFormedItems(items: Items) {
    items.Item? ==>
      Quiet(items.before) && WellFormed(items.value) && Quiet(items.after) && WellFormedItems(items.rest)
  }

  predicate WellFormedMembers(ms: Members) {
    ms.Member? ==>
      && Quiet(ms.before) && WellFormedChars(ms.key) && Quiet(ms.colon) && WellFormed(ms.value) && Quiet(ms.after)
      && WellFormedMembers(ms.rest)
  }

  function CharText(k: StrChar): string {
    match k
    case Plain(c) => [c]
    case Escape(c) => ['\\', c]
    case Unicode(a, b, c, d) => ['\\', 'u', a, b, c, d]
  }

  function CharsText(cs: seq<StrChar>): string {
    if cs == [] then "" else CharText(cs[0]) + CharsText(cs[1..])
  }

  function StringText(cs: seq<StrChar>): string {
    "\"" + CharsText(cs) + "\""
  }

  function Text(v: Value): string {
    match v
    case Scalar(text) => text
    case Str(cs) => StringText(cs)
    case Arr(open, items) => "[" + open + ItemsText(items) + "]"
    case Obj(open, members) => "{" + open + MembersText(members) + "}"
  }

  function ItemsText(items: Items): string {
    if items.NoItems? then ""
    else
      items.before + Text(items.value) + items.after +
      (if items.rest.NoItems? then "" else ",") + ItemsText(items.rest)
  }

  // The colon part holds the ":" and the white space around it.
  function MembersText(ms: Members): string {
    if ms.NoMembers? then ""
    else
      ms.before + StringText(ms.key) + ms.colon + Text(ms.value) + ms.after +
      (if ms.rest.NoMembers? then "" else ",") + MembersText(ms.rest)
  }

  // Scanning `text` outside strings ends at the depth it began with, outside
  // strings, and never goes below that depth.
  ghost predicate Level(text: string) {
    && (forall d: int :: ScanText(Scan(d, false, false), text) == Scan(d, false, false))
    && (forall d: int, k | 0 <= k <= |text| :: ScanText(Scan(d, false, false), text[..k]).depth >= d)
  }

  lemma LevelAppend(a: string, b: string)
    requires Level(a) && Level(b)
    ensures Level(a + b)
  {
    forall d: int ensures ScanText(Scan(d, false, false), a + b) == Scan(d, false, false) {
      ScanAppend(Scan(d, false, false), a, b);
    }
    forall d: int, k | 0 <= k <= |a + b|
      ensures ScanText(Scan(d, false, false), (a + b)[..k]).depth >= d
    {
      if k <= |a| {
        assert (a + b)[..k] == a[..k];
      } else {
        assert (a + b)[..k] == a + b[..k - |a|];
        ScanAppend(Scan(d, false, false), a, b[..k - |a|]);
      }
    }
  }

  lemma LevelTail(a: string, b: string, c: string, d: string, e: string)
    requires Level(a) && Level(b) && Level(c) && Level(d) && Level(e)
    ensures Level(a + b + c + d + e)
  {
    LevelAppend(a, b);
    LevelAppend(a + b, c);
    LevelAppend(a + b + c, d);
    LevelAppend(a + b + c + d, e);
  }

  lemma {:induction false} QuietLevel(s: string)
    requires Quiet(s)
    ensures Level(s)
  {
    if s == "" {
      assert forall k | 0 <= k <= |s| :: s[..k] == "";
    } else {
      assert forall c <- s[1..] :: c in s;
      QuietLevel(s[1..]);
      assert s[0] in s;
      assert [s[0]][1..] == "";
      assert Level([s[0]]) by {
        forall k | 0 <= k <= 1 ensures [s[0]][..k] == "" || [s[0]][..k] == [s[0]] {
        }
      }
      LevelAppend([s[0]], s[1..]);
      assert [s[0]] + s[1..] == s;
    }
  }

  lemma {:induction false} CharsStayInside(d: int, cs: seq<StrChar>)
    requires WellFormedChars(cs)
    ensures ScanText(Scan(d, true, false), CharsText(cs)) == Scan(d, true, false)
    ensures forall k | 0 <= k <= |CharsText(cs)| ::
      ScanText(Scan(d, true, false), CharsText(cs)[..k]).inStr && ScanText(Scan(d, true, false), CharsText(cs)[..k]).depth == d
    decreases |cs|
  {
    var s := Scan(d, true, false);
    if cs == [] {
      assert forall k | 0 <= k <= |CharsText(cs)| :: CharsText(cs)[..k] == "";
    } else {
      var head, tail := CharText(cs[0]), CharsText(cs[1..]);
      assert forall x <- cs[1..] :: x in cs;
      assert cs[0] in cs;
      CharsStayInside(d, cs[1..]);
      OneCharInside(d, cs[0]);
      ScanAppend(s, head, tail);
      forall k | 0 <= k <= |head + tail|
        ensures ScanText(s, (head + tail)[..k]).inStr && ScanText(s, (head + tail)[..k]).depth == d
      {
        if k <= |head| {
          assert (head + tail)[..k] == head[..k];
        } else {
          assert (head + tail)[..k] == head + tail[..k - |head|];
          ScanAppend(s, head, tail[..k - |head|]);
        }
      }
    }
  }

  lemma {:induction false} OneCharInside(d: int, x: StrChar)
    requires WellFormedChars([x])
    ensures var s := Scan(d, true, false);
      && ScanText(s, CharText(x)) == s
      && forall k | 0 <= k <= |CharText(x)| :: ScanText(s, CharText(x)[..k]).inStr && ScanText(s, CharText(x)[..k]).depth == d
  {
    assert x in [x];
    var s, t := Scan(d, true, false), CharText(x);
    assert PrefixState(s, t, 0) == s;
    assert PrefixState(s, t, 1) == ScanChar(s, t[0]);
    if !x.Plain? { assert PrefixState(s, t, 2) == s; }
    if x.Unicode? {
      assert PrefixState(s, t, 3) == s && PrefixState(s, t, 4) == s;
      assert PrefixState(s, t, 5) == s && PrefixState(s, t, 6) == s;
    }
    forall k | 0 <= k <= |t| ensures ScanText(s, t[..k]) == (if x.Plain? || k != 1 then s else s.(esc := true)) {
      PrefixScan(s, t, k);
    }
    assert t[..|t|] == t;
  }

  // Scanning a prefix one character further.
  function PrefixState(s: Scan, t: string, k: nat): Scan
    requires k <= |t|
  {
    if k == 0 then s else ScanChar(PrefixState(s, t, k - 1), t[k - 1])
  }

  lemma {:induction false} PrefixScan(s: Scan, t: string, k: nat)
    requires k <= |t|
    ensures ScanText(s, t[..k]) == PrefixState(s, t, k)
  {
    if k > 0 {
      PrefixScan(s, t, k - 1);
      assert t[..k] == t[..k - 1] + [t[k - 1]];
      ScanAppend(s, t[..k - 1], [t[k - 1]]);
      assert [t[k - 1]][1..] == "";
    }
  }

  lemma StringLevel(cs: seq<StrChar>)
    requires WellFormedChars(cs)
    ensures Level(StringText(cs))
  {
    var t, inner := StringText(cs), CharsText(cs);
    forall d: int, k | 0 <= k <= |t|
      ensures ScanText(Scan(d, false, false), t[..k]).depth == d
      ensures k == |t| ==> ScanText(Scan(d, false, false), t[..k]) == Scan(d, false, false)
    {
      CharsStayInside(d, cs);
      var o := Scan(d, false, false);
      if k > 0 {
        assert t[..k][0] == '"';
        if k <= |inner| + 1 {
          assert t[..k][1..] == inner[..k - 1];
        } else {
          assert t[..k][1..] == inner + "\"";
          ScanAppend(Scan(d, true, false), inner, "\"");
          assert "\""[1..] == "";
        }
      }
    }
    assert t[..|t|] == t;
  }

  lemma BracketsLevel(t: string)
    requires Level(t)
    ensures Level("[" + t + "]")
  {
    QuietLevel("[");
    QuietLevel("]");
    LevelAppend("[", t);
    LevelAppend("[" + t, "]");
  }

  lemma Enclosed(left: string, a: string, b: string, right: string)
    ensures left + a + b + right == left + (a + b) + right
  {
  }

  lemma ArrLevel(open: string, items: Items)
    requires WellFormed(Arr(open, items)) && Level(ItemsText(items))
    ensures Level(Text(Arr(open, items)))
  {
    QuietLevel(open);
    LevelAppend(open, ItemsText(items));
    BracketsLevel(open + ItemsText(items));
    Enclosed("[", open, ItemsText(items), "]");
  }

  lemma ObjLevel(open: string, members: Members)
    requires WellFormed(Obj(open, members)) && Level(MembersText(members))
    ensures Level(Text(Obj(open, members)))
  {
    QuietLevel(open);
    LevelAppend(open, MembersText(members));
    BracesLevel(open + MembersText(members));
    Enclosed("{", open, MembersText(members), "}");
  }

  lemma {:induction false} ValueLevel(v: Value)
    requires WellFormed(v)
    ensures Level(Text(v))
  {
    match v
    case Scalar(text) => QuietLevel(text);
    case Str(cs) => StringLevel(cs);
    case Arr(open, items) =>
      ItemsLevel(items);
      ArrLevel(open, items);
    case Obj(open, members) =>
      MembersLevel(members);
      ObjLevel(open, members);
  }

  lemma {:induction false} ItemsLevel(items: Items)
    requires WellFormedItems(items)
    ensures Level(ItemsText(items))
  {
    if items.NoItems? {
      QuietLevel("");
    } else {
      QuietLevel(items.before);
      ValueLevel(items.value);
      QuietLevel(items.after);
      var comma := if items.rest.NoItems? then "" else ",";
      QuietLevel(comma);
      ItemsLevel(items.rest);
      LevelTail(items.before, Text(items.value), items.after, comma, ItemsText(items.rest));
    }
  }

  lemma {:induction false} MembersLevel(ms: Members)
    requires WellFormedMembers(ms)
    ensures Level(MembersText(ms))
  {
    if ms.NoMembers? {
      QuietLevel("");
    } else {
      QuietLevel(ms.before);
      StringLevel(ms.key);
      QuietLevel(ms.colon);
      ValueLevel(ms.value);
      QuietLevel(ms.after);
      var comma := if ms.rest.NoMembers? then "" else ",";
      QuietLevel(comma);
      MembersLevel(ms.rest);
      var key := ms.before + StringText(ms.key) + ms.colon;
      LevelAppend(ms.before, StringText(ms.key));
      LevelAppend(ms.before + StringText(ms.key), ms.colon);
      LevelTail(key, Text(ms.value), ms.after, comma, MembersText(ms.rest));
    }
  }

  // A braced level text: one deeper inside, level as a whole.
  lemma BracesScan(inner: string, d: int, k: nat)
    requires Level(inner) && k <= |inner| + 2
    ensures var s := ScanText(Scan(d, false, false), ("{" + inner + "}")[..k]);
      if k == 0 || k == |inner| + 2 then s == Scan(d, false, false) else s.depth > d
  {
    var t, o := "{" + inner + "}", Scan(d, false, false);
    if k > 0 {
      assert t[..k][0] == '{';
      if k <= |inner| + 1 {
        assert t[..k][1..] == inner[..k - 1];
        assert ScanText(Scan(d + 1, false, false), inner[..k - 1]).depth >= d + 1;
      } else {
        assert t[..k][1..] == inner + "}";
        ScanAppend(Scan(d + 1, false, false), inner, "}");
        assert "}"[1..] == "";
      }
    }
  }

  lemma BracesLevel(inner: string)
    requires Level(inner)
    ensures Level("{" + inner + "}")
  {
    var t := "{" + inner + "}";
    forall d: int, k | 0 <= k <= |t|
      ensures ScanText(Scan(d, false, false), t[..k]).depth >= d
      ensures k == |t| ==> ScanText(Scan(d, false, false), t[..k]) == Scan(d, false, false)
    {
      BracesScan(inner, d, k);
    }
    assert t[..|t|] == t;
  }

  // The scan from an object's opening brace closes exactly at its end.
  lemma ObjectCloses(v: Value)
    requires v.Obj? && WellFormed(v)
    ensures Closes(Text(v)) && Text(v)[0] == '{'
  {
    var inner := v.open + MembersText(v.members);
    QuietLevel(v.open);
    MembersLevel(v.members);
    LevelAppend(v.open, MembersText(v.members));
    var t := Text(v);
    assert t == "{" + inner + "}";
    BracesScan(inner, 0, |t|);
    assert t[..|t|] == t;
    forall k | 0 < k < |t| ensures ScanText(OUTSIDE, t[..k]).depth != 0 {
      BracesScan(inner, 0, k);
    }
  }

  // An object text anywhere in the output is a candidate that parses.
  lemma ObjectIsCandidate<J>(parse: string -> Option<J>, before: string, v: Value, after: string)
    requires v.Obj? && WellFormed(v) && parse(Text(v)).Some?
    ensures ParsesAt(parse, before + Text(v) + after, |before|, parse(Text(v)).value)
  {
    ObjectCloses(v);
    var text, end := before + Text(v) + after, |before| + |Text(v)|;
    assert text[|before|..end] == Text(v);
    assert Candidate(text, |before|, end);
  }

  // Completeness: extraction never throws when an object text occurs anywhere, and
  // after a preamble without an opening brace it returns that object.
  lemma ObjectIsExtracted<J(!new)>(parse: string -> Option<J>, before: string, v: Value, after: string, value: Option<J>)
    requires v.Obj? && WellFormed(v) && parse(Text(v)).Some?
    requires Extracted(parse, before + Text(v) + after, value)
    ensures value.Some?
    ensures '{' !in before ==> value == parse(Text(v))
  {
    var text := before + Text(v) + after;
    ObjectIsCandidate(parse, before, v, after);
    if '{' !in before {
      var start: nat :| Leftmost(parse, text, start, value.value);
      assert text[start] == '{';
      assert forall k | 0 <= k < |before| :: text[k] == before[k];
      ParsesOnce(parse, text, start, value.value, parse(Text(v)).value);
    }
  }
}
