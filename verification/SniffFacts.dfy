/** What becomes of one captured request, fact by fact: method, URL, query, headers, auth and
    body. */
module SniffFacts {
  import opened Wrappers
  import opened Text
  import opened OrderedMap
  import opened Sniff

  // The captured requests that have a URL.
  function Requests(entries: seq<Entry>): seq<Entry> {
    if entries == [] then []
    else (if entries[0].url == "" then [] else [entries[0]]) + Requests(entries[1..])
  }

  // The results are theirs, in order.
  lemma {:induction false} ResultsAreRequests(lex: Lexicon, entries: seq<Entry>)
    ensures |SniffAll(lex, entries)| == |Requests(entries)|
    ensures forall k | 0 <= k < |Requests(entries)| :: SniffAll(lex, entries)[k] == SniffEntry(lex, Requests(entries)[k])
  {
    if entries != [] { ResultsAreRequests(lex, entries[1..]); }
  }

  // ------------------------------------------------------------------
  // Names and values
  // ------------------------------------------------------------------

  // The last value captured under a name.
  ghost predicate LastValue(ps: Pairs, name: string, value: string) {
    exists i | 0 <= i < |ps| :: ps[i] == (name, value) && forall j | i < j < |ps| :: ps[j].0 != name
  }

  lemma LastValueCons(ps: Pairs, name: string, value: string)
    requires ps != []
    ensures LastValue(ps, name, value) <==>
            LastValue(ps[1..], name, value) || (ps[0] == (name, value) && forall q <- ps[1..] :: q.0 != name)
  {
    if LastValue(ps, name, value) {
      var i :| 0 <= i < |ps| && ps[i] == (name, value) && forall j | i < j < |ps| :: ps[j].0 != name;
      if i > 0 {
        assert ps[1..][i - 1] == (name, value);
        forall j | i - 1 < j < |ps[1..]| ensures ps[1..][j].0 != name { assert ps[1..][j] == ps[j + 1]; }
      } else {
        forall q | q in ps[1..] ensures q.0 != name {
          var j :| 0 <= j < |ps[1..]| && ps[1..][j] == q;
          assert ps[j + 1] == q;
        }
      }
    }
    if LastValue(ps[1..], name, value) {
      var i :| 0 <= i < |ps[1..]| && ps[1..][i] == (name, value) && forall j | i < j < |ps[1..]| :: ps[1..][j].0 != name;
      assert ps[i + 1] == (name, value);
      forall j | i + 1 < j < |ps| ensures ps[j].0 != name { assert ps[j] == ps[1..][j - 1]; }
    }
    if ps[0] == (name, value) && forall q <- ps[1..] :: q.0 != name {
      forall j | 0 < j < |ps| ensures ps[j].0 != name { assert ps[j] == ps[1..][j - 1] && ps[1..][j - 1] in ps[1..]; }
    }
  }

  ghost predicate Named(ps: Pairs, name: string) {
    exists p <- ps :: p.0 == name
  }

  // What a query value is kept as.
  function QueryKept(lex: Lexicon, name: string, value: string): string {
    if lex.secret(name) then "<redacted>" else value
  }

  lemma {:induction false} QueryTaken(lex: Lexicon, acc: Pairs, qs: Pairs)
    requires Unique(acc)
    ensures var r := TakeQuery(lex, acc, qs);
      && Unique(r)
      && forall name, value :: (name, value) in r <==>
           (exists v :: LastValue(qs, name, v) && value == QueryKept(lex, name, v)) || (!Named(qs, name) && (name, value) in acc)
    decreases |qs|
  {
    if qs != [] {
      var q := qs[0];
      var next := Put(acc, q.0, QueryKept(lex, q.0, q.1));
      PutUnique(acc, q.0, QueryKept(lex, q.0, q.1));
      PutMembers(acc, q.0, QueryKept(lex, q.0, q.1));
      QueryTaken(lex, next, qs[1..]);
      var r := TakeQuery(lex, acc, qs);
      assert r == TakeQuery(lex, next, qs[1..]);
      assert forall p <- qs :: p == q || p in qs[1..];
      forall name, value
        ensures (name, value) in r <==>
          (exists v :: LastValue(qs, name, v) && value == QueryKept(lex, name, v)) || (!Named(qs, name) && (name, value) in acc)
      {
        forall v ensures LastValue(qs, name, v) <==>
          LastValue(qs[1..], name, v) || (q == (name, v) && !Named(qs[1..], name))
        {
          LastValueCons(qs, name, v);
        }
        assert Named(qs, name) <==> q.0 == name || Named(qs[1..], name);
        assert LastValue(qs, name, q.1) <==> LastValue(qs[1..], name, q.1) || (q.0 == name && !Named(qs[1..], name));
      }
    }
  }

  // ------------------------------------------------------------------
  // Headers and auth
  // ------------------------------------------------------------------

  predicate AuthName(lex: Lexicon, name: string) {
    lex.lower(name) in {"authorization", "cookie", "x-api-key", "api-key", "x-auth-token"}
  }

  predicate SafeName(lex: Lexicon, name: string) {
    lex.lower(name) in {"content-type", "accept"}
  }

  // Three segments between two dots.
  ghost predicate Jwt(v: string) {
    |v| > 40 && exists a, b, c :: Segments(v, a, b, c)
  }

  ghost predicate Segments(v: string, a: string, b: string, c: string) {
    v == a + "." + b + "." + c && '.' !in a && '.' !in b && '.' !in c
  }

  lemma ThreeSegments(v: string)
    ensures |Split(v, '.')| == 3 <==> exists a, b, c :: Segments(v, a, b, c)
  {
    if |Split(v, '.')| == 3 {
      var parts := Split(v, '.');
      JoinSplit(v, '.');
      assert parts[1..] == [parts[1], parts[2]] && parts[1..][1..] == [parts[2]];
      assert Join([parts[1], parts[2]], '.') == parts[1] + "." + parts[2] by {
        assert [parts[1], parts[2]][1..] == [parts[2]];
      }
      assert v == parts[0] + "." + (parts[1] + "." + parts[2]);
      assert Segments(v, parts[0], parts[1], parts[2]);
    }
    if a, b, c :| Segments(v, a, b, c) {
      assert v == a + "." + (b + "." + c);
      SplitAtFirst(a, b + "." + c, '.');
      SplitAtFirst(b, c, '.');
      SplitAtFirst(c, "", '.');
    }
  }

  // A cookie is a session and rotates; a key header does not; an authorization is a bearer
  // that rotates when it is a JWT.
  function Kind(lex: Lexicon, name: string): AuthKind {
    if lex.lower(name) == "cookie" then Session
    else if lex.lower(name) == "authorization" then Bearer
    else ApiKey
  }

  ghost predicate Rotates(lex: Lexicon, h: (string, string)) {
    lex.lower(h.0) == "cookie" || (lex.lower(h.0) == "authorization" && Jwt(lex.stripBearer(h.1)))
  }

  lemma Classified(lex: Lexicon, name: string, value: string)
    ensures var (kind, rotating) := ClassifyAuth(lex, name, value);
      if AuthName(lex, name) then kind == Kind(lex, name) && (rotating <==> Rotates(lex, (name, value)))
      else kind == NoAuth && !rotating
  {
    ThreeSegments(lex.stripBearer(value));
  }

  // The header at i is the last auth header.
  ghost predicate LastAuth(lex: Lexicon, hs: Pairs, h: (string, string)) {
    exists i | 0 <= i < |hs| :: hs[i] == h && AuthName(lex, h.0) && forall j | i < j < |hs| :: !AuthName(lex, hs[j].0)
  }

  lemma {:induction false} LastAuthExists(lex: Lexicon, hs: Pairs) returns (h: (string, string))
    requires exists x <- hs :: AuthName(lex, x.0)
    ensures LastAuth(lex, hs, h)
  {
    var n := |hs| - 1;
    if AuthName(lex, hs[n].0) {
      h := hs[n];
    } else {
      var x :| x in hs && AuthName(lex, x.0);
      assert hs == hs[..n] + [hs[n]];
      assert x in hs[..n];
      h := LastAuthExists(lex, hs[..n]);
      var i :| 0 <= i < n && hs[..n][i] == h && AuthName(lex, h.0) && forall j | i < j < n :: !AuthName(lex, hs[..n][j].0);
      assert hs[i] == h;
      forall j | i < j < |hs| ensures !AuthName(lex, hs[j].0) {
        if j < n { assert hs[j] == hs[..n][j]; }
      }
    }
  }

  // What a run over the headers makes of the auth found so far.
  ghost predicate AuthTold(lex: Lexicon, url: string, acc: Auth, hs: Pairs, r: Auth) {
    && (r.rotating <==> acc.rotating || exists h <- hs :: AuthName(lex, h.0) && Rotates(lex, h))
    && (if exists h <- hs :: AuthName(lex, h.0) then
          exists h :: LastAuth(lex, hs, h)
            && r.ref == Some(lex.host(url) + "_" + lex.slug(lex.lower(h.0))) && r.kind == Kind(lex, h.0)
        else r.ref == acc.ref && r.kind == acc.kind)
  }

  lemma LastAuthCons(lex: Lexicon, hs: Pairs, h: (string, string))
    requires hs != []
    ensures LastAuth(lex, hs[1..], h) ==> LastAuth(lex, hs, h)
    ensures AuthName(lex, hs[0].0) && (forall x <- hs[1..] :: !AuthName(lex, x.0)) ==> LastAuth(lex, hs, hs[0])
  {
    if LastAuth(lex, hs[1..], h) {
      var i :| 0 <= i < |hs[1..]| && hs[1..][i] == h && forall j | i < j < |hs[1..]| :: !AuthName(lex, hs[1..][j].0);
      assert hs[i + 1] == h;
      forall j | i + 1 < j < |hs| ensures !AuthName(lex, hs[j].0) { assert hs[j] == hs[1..][j - 1]; }
    }
    if AuthName(lex, hs[0].0) && forall x <- hs[1..] :: !AuthName(lex, x.0) {
      forall j | 0 < j < |hs| ensures !AuthName(lex, hs[j].0) { assert hs[j] == hs[1..][j - 1]; }
    }
  }

  lemma {:induction false} AuthTaken(lex: Lexicon, url: string, acc: Auth, hs: Pairs)
    ensures AuthTold(lex, url, acc, hs, TakeHeaders(lex, url, acc, hs))
    decreases |hs|
  {
    if hs != [] {
      var next, r := TakeHeader(lex, url, acc, hs[0]), TakeHeaders(lex, url, acc, hs);
      AuthTaken(lex, url, next, hs[1..]);
      Classified(lex, hs[0].0, hs[0].1);
      assert hs[0] in hs && (forall h <- hs :: h == hs[0] || h in hs[1..]) && forall h <- hs[1..] :: h in hs;
      if exists h <- hs[1..] :: AuthName(lex, h.0) {
        var h :| LastAuth(lex, hs[1..], h)
          && r.ref == Some(lex.host(url) + "_" + lex.slug(lex.lower(h.0))) && r.kind == Kind(lex, h.0);
        LastAuthCons(lex, hs, h);
      } else if AuthName(lex, hs[0].0) {
        LastAuthCons(lex, hs, hs[0]);
      }
    }
  }

  lemma {:induction false} HeadersTaken(lex: Lexicon, url: string, acc: Auth, hs: Pairs)
    requires Unique(acc.headers)
    ensures var r := TakeHeaders(lex, url, acc, hs);
      && Unique(r.headers)
      && forall name, value :: (name, value) in r.headers <==>
           (SafeName(lex, name) && LastValue(hs, name, value))
           || ((!SafeName(lex, name) || !Named(hs, name)) && (name, value) in acc.headers)
    decreases |hs|
  {
    if hs != [] {
      var h := hs[0];
      var next, r := TakeHeader(lex, url, acc, h), TakeHeaders(lex, url, acc, hs);
      if SafeName(lex, h.0) {
        PutUnique(acc.headers, h.0, h.1);
        PutMembers(acc.headers, h.0, h.1);
      }
      HeadersTaken(lex, url, next, hs[1..]);
      assert forall p <- hs :: p == h || p in hs[1..];
      forall name, value
        ensures (name, value) in r.headers <==>
          (SafeName(lex, name) && LastValue(hs, name, value))
          || ((!SafeName(lex, name) || !Named(hs, name)) && (name, value) in acc.headers)
      {
        LastValueCons(hs, name, value);
        assert Named(hs, name) <==> h.0 == name || Named(hs[1..], name);
      }
    }
  }

  // ------------------------------------------------------------------
  // Bodies, place by place
  // ------------------------------------------------------------------

  function Child(v: Json, i: nat): Option<Json> {
    match v
    case JArr(items) => if i < |items| then Some(items[i]) else None
    case JObj(fields) => if i < |fields| then Some(fields[i].1) else None
    case _ => None
  }

  // The value at a place, a place being the indexes on the way to it.
  function At(v: Json, place: seq<nat>): Option<Json> {
    if place == [] then Some(v)
    else
      match Child(v, place[0])
      case None => None
      case Some(c) => At(c, place[1..])
  }

  predicate SecretField(lex: Lexicon, v: Json, i: nat) {
    v.JObj? && i < |v.fields| && lex.secret(v.fields[i].0)
  }

  // The way to a place goes through a field with a secret name.
  predicate BelowSecret(lex: Lexicon, v: Json, place: seq<nat>)
    decreases |place|
  {
    place != [] &&
    (SecretField(lex, v, place[0]) || (Child(v, place[0]).Some? && BelowSecret(lex, Child(v, place[0]).value, place[1..])))
  }

  // Two values of one shape: arrays as long, objects with the same names, and otherwise equal.
  ghost predicate SameNode(a: Json, b: Json) {
    match (a, b)
    case (JArr(x), JArr(y)) => |x| == |y|
    case (JObj(f), JObj(g)) => |f| == |g| && forall i | 0 <= i < |f| :: f[i].0 == g[i].0
    case _ => a == b
  }

  // At every place not below a secret name the redacted body is what was captured, except that
  // strings standing in arrays read "<redacted>"; and so does every value under a secret name.
  lemma {:induction false} RedactedAt(lex: Lexicon, v: Json, place: seq<nat>)
    requires At(v, place).Some? && !BelowSecret(lex, v, place)
    ensures At(RedactBody(lex, v), place).Some?
    ensures var a, b := At(v, place).value, At(RedactBody(lex, v), place).value;
      && (if place != [] && a.JStr? && At(v, place[..|place| - 1]).Some? && At(v, place[..|place| - 1]).value.JArr?
          then b == JStr("<redacted>") else SameNode(a, b))
      && (forall i | SecretField(lex, a, i) :: Child(b, i) == Some(JStr("<redacted>")))
    decreases |place|
  {
    if place != [] {
      var c := Child(v, place[0]).value;
      if Container(c) {
        RedactedAt(lex, c, place[1..]);
        PrefixAt(v, place);
      } else {
        assert place[1..] == [];
        assert place[..|place| - 1] == [];
      }
    }
  }

  lemma PrefixAt(v: Json, place: seq<nat>)
    requires place != [] && At(v, place).Some?
    ensures |place| > 1 ==>
      At(v, place[..|place| - 1]) == At(Child(v, place[0]).value, place[1..][..|place| - 2])
    ensures |place| == 1 ==> At(v, place[..|place| - 1]) == Some(v)
  {
    if |place| > 1 {
      assert place[..|place| - 1][1..] == place[1..][..|place| - 2];
    }
  }

  // A posted text: none when empty; "<redacted>" when it is not JSON or a bare string; else
  // its value, redacted as above.
  lemma BodyTells(lex: Lexicon, text: string)
    ensures var body, parsed := BodyOf(lex, text), lex.parse(text);
      if text == "" then body == None
      else if parsed.None? || parsed.value.JStr? then body == Some(JStr("<redacted>"))
      else body == Some(RedactBody(lex, parsed.value))
  {
  }

  // ------------------------------------------------------------------
  // One request
  // ------------------------------------------------------------------

  // The part of a URL before the first question mark.
  ghost predicate BeforeQuery(url: string, part: string) {
    '?' !in part && (url == part || exists rest :: url == part + "?" + rest)
  }

  lemma {:induction false} UrlPart(url: string)
    ensures BeforeQuery(url, Split(url, '?')[0])
  {
    JoinSplit(url, '?');
    var parts := Split(url, '?');
    assert parts[0] in parts;
    if |parts| > 1 { assert url == parts[0] + "?" + Join(parts[1..], '?'); }
  }

  // There is only one.
  lemma OnePart(url: string, part: string)
    requires BeforeQuery(url, part)
    ensures Split(url, '?')[0] == part
  {
    if url == part {
      SplitAtFirst(part, "", '?');
    } else {
      var rest :| url == part + "?" + rest;
      SplitAtFirst(part, rest, '?');
      assert url == part + ['?'] + rest;
    }
  }

  // What one captured request becomes.
  lemma SniffedRequest(lex: Lexicon, e: Entry)
    ensures var r := SniffEntry(lex, e);
      && r.call.verb == (if e.verb != "" then lex.upper(e.verb) else lex.upper("GET"))
      && BeforeQuery(e.url, r.call.url)
      && Unique(r.call.query)
      && (forall name, value :: (name, value) in r.call.query <==>
            exists v :: LastValue(e.query, name, v) && value == QueryKept(lex, name, v))
      && Unique(r.call.headers)
      && (forall name, value :: (name, value) in r.call.headers <==>
            SafeName(lex, name) && LastValue(e.headers, name, value))
      && r.call.body == BodyOf(lex, e.postText)
    ensures var r := SniffEntry(lex, e);
      && (r.rotating <==> exists h <- e.headers :: AuthName(lex, h.0) && Rotates(lex, h))
      && (if exists h <- e.headers :: AuthName(lex, h.0) then
            exists h :: LastAuth(lex, e.headers, h)
              && r.call.authRef == Some(lex.host(e.url) + "_" + lex.slug(lex.lower(h.0))) && r.kind == Kind(lex, h.0)
          else r.call.authRef == None && r.kind == NoAuth)
  {
    UrlPart(e.url);
    QueryTaken(lex, [], e.query);
    HeadersTaken(lex, e.url, NO_AUTH, e.headers);
    AuthTaken(lex, e.url, NO_AUTH, e.headers);
  }

  // No header but a safe one, no secret query value and no auth value is in the call: its
  // query values are captured or "<redacted>", its headers captured under safe names.
  lemma SecretsAreDropped(lex: Lexicon, e: Entry)
    ensures var call := SniffEntry(lex, e).call;
      && (forall p <- call.query :: lex.secret(p.0) ==> p.1 == "<redacted>")
      && (forall p <- call.headers :: SafeName(lex, p.0) && !AuthName(lex, p.0))
  {
    SniffedRequest(lex, e);
    forall p | p in SniffEntry(lex, e).call.query && lex.secret(p.0) ensures p.1 == "<redacted>" {
      assert (p.0, p.1) in SniffEntry(lex, e).call.query;
    }
    forall p | p in SniffEntry(lex, e).call.headers ensures SafeName(lex, p.0) {
      assert (p.0, p.1) in SniffEntry(lex, e).call.headers;
    }
  }
}
