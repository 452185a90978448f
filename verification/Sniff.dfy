/** Captured browser traffic turned into an API spec: headers, query and body are
    stripped of secrets, and mutating calls become gated steps. */
module Sniff {
  import opened Wrappers
  import opened Text
  import opened OrderedMap

  datatype Json =
    | JNull
    | JBool(b: bool)
    | JNum(n: string)
    | JStr(s: string)
    | JArr(items: seq<Json>)
    | JObj(fields: seq<(string, Json)>)

  type Pairs = seq<(string, string)>

  datatype Entry = Entry(verb: string, url: string, headers: Pairs, query: Pairs, postText: string)
  datatype AuthKind = ApiKey | Bearer | Session | NoAuth
  datatype ApiCall = ApiCall(verb: string, url: string, query: Pairs, headers: Pairs, body: Option<Json>, authRef: Option<string>)
  datatype SniffResult = SniffResult(call: ApiCall, kind: AuthKind, rotating: bool)

  // Regular expressions, URL parsing, case mapping and JSON.parse, taken as given.
  datatype Lexicon = Lexicon(
    secret: string -> bool,
    lower: string -> string,
    upper: string -> string,
    host: string -> string,
    path: string -> string,
    slug: string -> string,
    stripBearer: string -> string,
    parse: string -> Option<Json>)

  const REDACTED := "<redacted>"
  const AUTH_HEADERS: set<string> := {"authorization", "cookie", "x-api-key", "api-key", "x-auth-token"}
  const SAFE_HEADERS: set<string> := {"content-type", "accept"}
  const MUTATING: set<string> := {"POST", "PUT", "PATCH", "DELETE"}

  predicate Container(v: Json) {
    v.JArr? || v.JObj?
  }

  // ------------------------------------------------------------------
  // Bodies
  // ------------------------------------------------------------------

  function RedactBody(lex: Lexicon, v: Json): (r: Json)
    ensures r.JArr? == v.JArr? && r.JObj? == v.JObj? && (!Container(v) ==> r == v)
    decreases v, 0
  {
    match v
    case JArr(items) => JArr(seq(|items|, i requires 0 <= i < |items| => RedactItem(lex, items[i])))
    case JObj(fields) =>
      JObj(seq(|fields|, i requires 0 <= i < |fields| =>
        (fields[i].0, if lex.secret(fields[i].0) then JStr(REDACTED) else RedactBody(lex, fields[i].1))))
    case _ => v
  }

  // An array item has no key to judge it by: any string goes.
  function RedactItem(lex: Lexicon, v: Json): (r: Json)
    ensures Container(r) == Container(v) && (v.JStr? <==> r == JStr(REDACTED))
    decreases v, 1
  {
    if Container(v) then RedactBody(lex, v) else if v.JStr? then JStr(REDACTED) else v
  }

  // A posted text: absent, redacted wholesale when it is not JSON or is a bare string.
  function BodyOf(lex: Lexicon, text: string): Option<Json> {
    if text == "" then None
    else
      match lex.parse(text)
      case None => Some(JStr(REDACTED))
      case Some(v) => Some(RedactItem(lex, v))
  }

  // Differing only in what must not survive: values under secret names, strings in
  // arrays.
  ghost predicate Alike(lex: Lexicon, a: Json, b: Json)
    decreases a, 0
  {
    match (a, b)
    case (JArr(x), JArr(y)) => |x| == |y| && forall i | 0 <= i < |x| :: AlikeItem(lex, x[i], y[i])
    case (JObj(f), JObj(g)) =>
      |f| == |g| && forall i | 0 <= i < |f| :: f[i].0 == g[i].0 && (lex.secret(f[i].0) || Alike(lex, f[i].1, g[i].1))
    case _ => a == b
  }

  ghost predicate AlikeItem(lex: Lexicon, a: Json, b: Json)
    decreases a, 1
  {
    if Container(a) && Container(b) then Alike(lex, a, b) else a == b || (a.JStr? && b.JStr?)
  }

  // A redacted body hides exactly that: two bodies redact alike if and only if they
  // differ only there.
  lemma {:induction false} RedactionHidesExactly(lex: Lexicon, a: Json, b: Json)
    ensures RedactBody(lex, a) == RedactBody(lex, b) <==> Alike(lex, a, b)
    decreases a, 1
  {
    match (a, b) {
      case (JArr(x), JArr(y)) =>
        var u, v := RedactBody(lex, a).items, RedactBody(lex, b).items;
        forall i | 0 <= i < |x| && i < |y| ensures u[i] == v[i] <==> AlikeItem(lex, x[i], y[i]) {
          ItemHidesExactly(lex, x[i], y[i]);
        }
        if |x| == |y| && Alike(lex, a, b) { assert u == v; }
      case (JObj(f), JObj(g)) =>
        var u, v := RedactBody(lex, a).fields, RedactBody(lex, b).fields;
        forall i | 0 <= i < |f| && i < |g|
          ensures u[i] == v[i] <==> f[i].0 == g[i].0 && (lex.secret(f[i].0) || Alike(lex, f[i].1, g[i].1))
        {
          RedactionHidesExactly(lex, f[i].1, g[i].1);
        }
        if |f| == |g| && Alike(lex, a, b) { assert u == v; }
      case _ =>
    }
  }

  lemma {:induction false} ItemHidesExactly(lex: Lexicon, a: Json, b: Json)
    ensures RedactItem(lex, a) == RedactItem(lex, b) <==> AlikeItem(lex, a, b)
    decreases a, 2
  {
    if Container(a) && Container(b) { RedactionHidesExactly(lex, a, b); }
  }

  lemma {:induction false} RedactIdempotent(lex: Lexicon, v: Json)
    ensures RedactBody(lex, RedactBody(lex, v)) == RedactBody(lex, v)
    decreases v
  {
    match v {
      case JArr(items) =>
        var once := RedactBody(lex, v).items;
        forall i | 0 <= i < |items| ensures RedactItem(lex, once[i]) == once[i] {
          assert once[i] == RedactItem(lex, items[i]);
          if Container(items[i]) { RedactIdempotent(lex, items[i]); }
        }
        assert RedactBody(lex, JArr(once)).items == once;
      case JObj(fields) =>
        var once := RedactBody(lex, v).fields;
        forall i | 0 <= i < |fields| && !lex.secret(fields[i].0)
          ensures RedactBody(lex, once[i].1) == once[i].1
        {
          RedactIdempotent(lex, fields[i].1);
        }
        assert RedactBody(lex, JObj(once)).fields == once;
      case _ =>
    }
  }

  // Posted texts that may differ without it showing: both bare strings or not JSON,
  // or alike once parsed.
  ghost predicate AlikeText(lex: Lexicon, a: string, b: string) {
    if a == "" || b == "" then a == b
    else
      var opaque_a := lex.parse(a).None? || lex.parse(a).value.JStr?;
      var opaque_b := lex.parse(b).None? || lex.parse(b).value.JStr?;
      (opaque_a && opaque_b) || (!opaque_a && !opaque_b && AlikeItem(lex, lex.parse(a).value, lex.parse(b).value))
  }

  lemma BodyHidesExactly(lex: Lexicon, a: string, b: string)
    ensures BodyOf(lex, a) == BodyOf(lex, b) <==> AlikeText(lex, a, b)
  {
    if a != "" && b != "" && lex.parse(a).Some? && lex.parse(b).Some? {
      ItemHidesExactly(lex, lex.parse(a).value, lex.parse(b).value);
    }
  }

  // ------------------------------------------------------------------
  // One captured request
  // ------------------------------------------------------------------

  function ClassifyAuth(lex: Lexicon, name: string, value: string): (AuthKind, bool) {
    var n := lex.lower(name);
    if n == "cookie" then (Session, true)
    else if n in {"x-api-key", "api-key", "x-auth-token"} then (ApiKey, false)
    else if n == "authorization" then
      var v := lex.stripBearer(value);
      (Bearer, |Split(v, '.')| == 3 && |v| > 40)
    else (NoAuth, false)
  }

  datatype Auth = Auth(ref: Option<string>, kind: AuthKind, rotating: bool, headers: Pairs)

  const NO_AUTH := Auth(None, NoAuth, false, [])

  function TakeHeader(lex: Lexicon, url: string, acc: Auth, h: (string, string)): Auth {
    var n := lex.lower(h.0);
    if n in AUTH_HEADERS then
      var (kind, rotating) := ClassifyAuth(lex, h.0, h.1);
      acc.(ref := Some(lex.host(url) + "_" + lex.slug(n)), kind := kind, rotating := acc.rotating || rotating)
    else if n in SAFE_HEADERS then acc.(headers := Put(acc.headers, h.0, h.1))
    else acc
  }

  function TakeHeaders(lex: Lexicon, url: string, acc: Auth, hs: Pairs): Auth
    decreases |hs|
  {
    if hs == [] then acc else TakeHeaders(lex, url, TakeHeader(lex, url, acc, hs[0]), hs[1..])
  }

  function TakeQuery(lex: Lexicon, acc: Pairs, qs: Pairs): Pairs
    decreases |qs|
  {
    if qs == [] then acc
    else TakeQuery(lex, Put(acc, qs[0].0, if lex.secret(qs[0].0) then REDACTED else qs[0].1), qs[1..])
  }

  function SniffEntry(lex: Lexicon, e: Entry): SniffResult {
    var auth := TakeHeaders(lex, e.url, NO_AUTH, e.headers);
    SniffResult(
      ApiCall(lex.upper(if e.verb == "" then "GET" else e.verb), Split(e.url, '?')[0],
              TakeQuery(lex, [], e.query), auth.headers, BodyOf(lex, e.postText), auth.ref),
      auth.kind, auth.rotating)
  }

  // Entries without a URL are skipped.
  function SniffAll(lex: Lexicon, entries: seq<Entry>): seq<SniffResult> {
    if entries == [] then []
    else (if entries[0].url == "" then [] else [SniffEntry(lex, entries[0])]) + SniffAll(lex, entries[1..])
  }

  lemma SniffNext(lex: Lexicon, entries: seq<Entry>, i: nat)
    requires i < |entries|
    ensures SniffAll(lex, entries[i..])
         == (if entries[i].url == "" then [] else [SniffEntry(lex, entries[i])]) + SniffAll(lex, entries[i + 1..])
  {
    assert entries[i..][1..] == entries[i + 1..];
  }

  method SniffHar(lex: Lexicon, entries: seq<Entry>) returns (out: seq<SniffResult>)
    ensures out == SniffAll(lex, entries)
  {
    out := [];
    assert entries[0..] == entries;
    for i := 0 to |entries|
      invariant out + SniffAll(lex, entries[i..]) == SniffAll(lex, entries)
    {
      SniffNext(lex, entries, i);
      ghost var rest := SniffAll(lex, entries[i + 1..]);
      if entries[i].url != "" {
        var r := SniffRequest(lex, entries[i]);
        assert out + ([r] + rest) == (out + [r]) + rest;
        out := out + [r];
      } else {
        assert [] + rest == rest;
      }
      assert out + rest == SniffAll(lex, entries);
    }
    assert entries[|entries|..] == [];
    assert out + [] == out;
  }

  // The body of the loop above: two loops of its own over headers and query.
  method SniffRequest(lex: Lexicon, e: Entry) returns (r: SniffResult)
    ensures r == SniffEntry(lex, e)
  {
    var authRef: Option<string>, kind, rotating, headers: Pairs := None, NoAuth, false, [];
    for j := 0 to |e.headers|
      invariant TakeHeaders(lex, e.url, Auth(authRef, kind, rotating, headers), e.headers[j..])
             == TakeHeaders(lex, e.url, NO_AUTH, e.headers)
    {
      var h := e.headers[j];
      assert e.headers[j..][1..] == e.headers[j + 1..];
      var lower := lex.lower(h.0);
      if lower in AUTH_HEADERS {
        var (k, rotates) := ClassifyAuth(lex, h.0, h.1);
        authRef := Some(lex.host(e.url) + "_" + lex.slug(lower));
        kind := k;
        rotating := rotating || rotates;
      } else if lower in SAFE_HEADERS {
        headers := Put(headers, h.0, h.1);
      }
    }
    var query: Pairs := [];
    for j := 0 to |e.query|
      invariant TakeQuery(lex, query, e.query[j..]) == TakeQuery(lex, [], e.query)
    {
      var q := e.query[j];
      assert e.query[j..][1..] == e.query[j + 1..];
      query := Put(query, q.0, if lex.secret(q.0) then REDACTED else q.1);
    }
    var call := ApiCall(lex.upper(if e.verb == "" then "GET" else e.verb), Split(e.url, '?')[0], query, headers,
                        BodyOf(lex, e.postText), authRef);
    r := SniffResult(call, kind, rotating);
  }

  // ------------------------------------------------------------------
  // Secrets do not reach the spec
  // ------------------------------------------------------------------

  // Headers that are neither auth nor safe are dropped whatever they say.
  function Kept(lex: Lexicon, hs: Pairs): Pairs {
    if hs == [] then []
    else (if lex.lower(hs[0].0) in AUTH_HEADERS + SAFE_HEADERS then [hs[0]] else []) + Kept(lex, hs[1..])
  }

  // Same name; a safe header has the same value, an auth header the same class.
  ghost predicate AlikeHeader(lex: Lexicon, a: (string, string), b: (string, string)) {
    a.0 == b.0 &&
    if lex.lower(a.0) in AUTH_HEADERS then ClassifyAuth(lex, a.0, a.1) == ClassifyAuth(lex, b.0, b.1) else a.1 == b.1
  }

  ghost predicate AlikeHeaders(lex: Lexicon, a: Pairs, b: Pairs) {
    |a| == |b| && forall i | 0 <= i < |a| :: AlikeHeader(lex, a[i], b[i])
  }

  ghost predicate AlikeQuery(lex: Lexicon, a: Pairs, b: Pairs) {
    |a| == |b| && forall i | 0 <= i < |a| :: a[i].0 == b[i].0 && (lex.secret(a[i].0) || a[i].1 == b[i].1)
  }

  ghost predicate AlikeEntry(lex: Lexicon, a: Entry, b: Entry) {
    && a.verb == b.verb
    && (a.url == "" <==> b.url == "") && Split(a.url, '?')[0] == Split(b.url, '?')[0] && lex.host(a.url) == lex.host(b.url)
    && AlikeHeaders(lex, Kept(lex, a.headers), Kept(lex, b.headers))
    && AlikeQuery(lex, a.query, b.query)
    && AlikeText(lex, a.postText, b.postText)
  }

  lemma {:induction false} DroppedUnseen(lex: Lexicon, url: string, acc: Auth, hs: Pairs)
    ensures TakeHeaders(lex, url, acc, hs) == TakeHeaders(lex, url, acc, Kept(lex, hs))
    decreases |hs|
  {
    if hs != [] {
      var kept := Kept(lex, hs[1..]);
      DroppedUnseen(lex, url, TakeHeader(lex, url, acc, hs[0]), hs[1..]);
      assert ([hs[0]] + kept)[1..] == kept;
      assert Kept(lex, hs) == [hs[0]] + kept || Kept(lex, hs) == kept;
    }
  }

  lemma {:induction false} AlikeHeadersTake(lex: Lexicon, u: string, v: string, acc: Auth, a: Pairs, b: Pairs)
    requires AlikeHeaders(lex, a, b) && lex.host(u) == lex.host(v)
    ensures TakeHeaders(lex, u, acc, a) == TakeHeaders(lex, v, acc, b)
    decreases |a|
  {
    if a != [] {
      assert AlikeHeader(lex, a[0], b[0]);
      assert TakeHeader(lex, u, acc, a[0]) == TakeHeader(lex, v, acc, b[0]);
      assert AlikeHeaders(lex, a[1..], b[1..]) by {
        forall i | 0 <= i < |a[1..]| ensures AlikeHeader(lex, a[1..][i], b[1..][i]) {
          assert AlikeHeader(lex, a[i + 1], b[i + 1]);
        }
      }
      AlikeHeadersTake(lex, u, v, TakeHeader(lex, u, acc, a[0]), a[1..], b[1..]);
    }
  }

  lemma {:induction false} AlikeQueryTake(lex: Lexicon, acc: Pairs, a: Pairs, b: Pairs)
    requires AlikeQuery(lex, a, b)
    ensures TakeQuery(lex, acc, a) == TakeQuery(lex, acc, b)
    decreases |a|
  {
    if a != [] {
      AlikeQueryTake(lex, Put(acc, a[0].0, if lex.secret(a[0].0) then REDACTED else a[0].1), a[1..], b[1..]);
    }
  }

  lemma AlikeEntriesSniffSame(lex: Lexicon, a: Entry, b: Entry)
    requires AlikeEntry(lex, a, b)
    ensures SniffEntry(lex, a) == SniffEntry(lex, b)
  {
    DroppedUnseen(lex, a.url, NO_AUTH, a.headers);
    DroppedUnseen(lex, b.url, NO_AUTH, b.headers);
    AlikeHeadersTake(lex, a.url, b.url, NO_AUTH, Kept(lex, a.headers), Kept(lex, b.headers));
    AlikeQueryTake(lex, [], a.query, b.query);
    BodyHidesExactly(lex, a.postText, b.postText);
  }

  // Two captures that differ only in secrets sniff to identical specs.
  lemma {:induction false} SecretsDoNotInterfere(lex: Lexicon, a: seq<Entry>, b: seq<Entry>)
    requires |a| == |b| && forall i | 0 <= i < |a| :: AlikeEntry(lex, a[i], b[i])
    ensures SniffAll(lex, a) == SniffAll(lex, b)
  {
    if a != [] {
      AlikeEntriesSniffSame(lex, a[0], b[0]);
      SecretsDoNotInterfere(lex, a[1..], b[1..]);
    }
  }
}
