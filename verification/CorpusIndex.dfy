/** The benchmark corpus generator: artifacts are built one after another against a state
    of indexes, and queries are answered from those indexes. */
module CorpusIndex {
  import opened Wrappers
  import opened Text

  datatype Person = Person(slug: string, company: string)
  datatype FactRef = FactRef(id: string, obj: string)

  // `employer` is the company a builder records for the subject; observations record none.
  datatype Fact = Fact(
    id: string, subject: string, predicateName: string, obj: string, employer: Option<string>,
    supersedes: seq<string>, contradicts: seq<string>)

  datatype Artifact = Artifact(id: string, facts: seq<Fact>)

  function FactKey(subject: string, predicateName: string): string {
    subject + "|" + predicateName
  }

  function KeyOf(f: Fact): string {
    FactKey(f.subject, f.predicateName)
  }

  // ------------------------------------------------------------------
  // What the indexes should hold, from the list of all facts stated
  // ------------------------------------------------------------------

  function History(log: seq<Fact>, key: string): seq<FactRef> {
    if log == [] then []
    else
      var f := log[|log| - 1];
      History(log[..|log| - 1], key) + (if KeyOf(f) == key then [FactRef(f.id, f.obj)] else [])
  }

  predicate Championed(f: Fact, project: string) {
    f.predicateName == "champions" && f.obj == "project:" + project
  }

  function Champions(log: seq<Fact>, project: string): seq<FactRef> {
    if log == [] then []
    else
      var f := log[|log| - 1];
      Champions(log[..|log| - 1], project) + (if Championed(f, project) then [FactRef(f.id, f.subject)] else [])
  }

  function Employer(log: seq<Fact>, subject: string): string {
    if log == [] then ""
    else
      var f := log[|log| - 1];
      if f.subject == subject && f.employer.Some? then f.employer.value else Employer(log[..|log| - 1], subject)
  }

  // The company recorded last for someone is theirs; "" when none was.
  lemma {:induction false} EmployerTells(log: seq<Fact>, subject: string)
    ensures Employer(log, subject) == "" || exists i :: RecordsLast(log, subject, i)
    ensures forall i | RecordsLast(log, subject, i) :: log[i].employer == Some(Employer(log, subject))
  {
    if log != [] {
      var n, init := |log| - 1, log[..|log| - 1];
      if log[n].subject == subject && log[n].employer.Some? {
        assert RecordsLast(log, subject, n);
      } else {
        EmployerTells(init, subject);
        forall i ensures RecordsLast(log, subject, i) <==> RecordsLast(init, subject, i) {
          RecordsEarlier(log, subject, i);
        }
      }
    }
  }

  ghost predicate RecordsLast(log: seq<Fact>, subject: string, i: int) {
    && 0 <= i < |log| && log[i].subject == subject && log[i].employer.Some?
    && forall j | i < j < |log| :: log[j].subject == subject ==> log[j].employer.None?
  }

  lemma RecordsEarlier(log: seq<Fact>, subject: string, i: int)
    requires log != [] && !(log[|log| - 1].subject == subject && log[|log| - 1].employer.Some?)
    ensures RecordsLast(log, subject, i) <==> RecordsLast(log[..|log| - 1], subject, i)
  {
    var init := log[..|log| - 1];
    assert forall j | 0 <= j < |init| :: init[j] == log[j];
    if RecordsLast(init, subject, i) {
      forall j | i < j < |log| ensures log[j].subject == subject ==> log[j].employer.None? {
        assert j < |init| ==> init[j].subject == subject ==> init[j].employer.None?;
      }
    }
  }

  lemma Appended(log: seq<Fact>, f: Fact)
    ensures (log + [f])[..|log|] == log && (log + [f])[|log|] == f
  {}

  lemma {:induction false} HistoryMembers(log: seq<Fact>, key: string, r: FactRef)
    ensures r in History(log, key) <==> exists f <- log :: KeyOf(f) == key && r == FactRef(f.id, f.obj)
  {
    if log != [] {
      var f, init := log[|log| - 1], log[..|log| - 1];
      HistoryMembers(init, key, r);
      assert log == init + [f];
    }
  }

  lemma {:induction false} ChampionMembers(log: seq<Fact>, project: string, r: FactRef)
    ensures r in Champions(log, project) <==> exists f <- log :: Championed(f, project) && r == FactRef(f.id, f.subject)
  {
    if log != [] {
      var f, init := log[|log| - 1], log[..|log| - 1];
      ChampionMembers(init, project, r);
      assert log == init + [f];
    }
  }

  // Position i states the current truth of its key: nothing later restates it.
  ghost predicate Current(log: seq<Fact>, i: nat) {
    i < |log| && forall j | i < j < |log| :: KeyOf(log[j]) != KeyOf(log[i])
  }

  lemma {:induction false} LastIsCurrent(log: seq<Fact>, key: string) returns (i: nat)
    requires History(log, key) != []
    ensures Current(log, i) && KeyOf(log[i]) == key
    ensures History(log, key)[|History(log, key)| - 1] == FactRef(log[i].id, log[i].obj)
  {
    i := |log| - 1;
    if KeyOf(log[i]) != key {
      var init := log[..|log| - 1];
      i := LastIsCurrent(init, key);
      forall j | i < j < |log| ensures KeyOf(log[j]) != KeyOf(log[i]) {
        assert j < |init| ==> KeyOf(init[j]) != KeyOf(init[i]);
      }
    }
  }

  lemma OneCurrent(log: seq<Fact>, i: nat, j: nat)
    requires Current(log, i) && Current(log, j) && KeyOf(log[i]) == KeyOf(log[j])
    ensures i == j
  {}

  // ------------------------------------------------------------------
  // Keys
  // ------------------------------------------------------------------

  // `strings.SplitN(key, "|", 2)`.
  function SplitTwo(key: string): Option<(string, string)> {
    if key == "" then None
    else if key[0] == '|' then Some(("", key[1..]))
    else
      match SplitTwo(key[1..])
      case None => None
      case Some(parts) => Some(([key[0]] + parts.0, parts.1))
  }

  lemma {:induction false} SplitKey(subject: string, name: string)
    requires '|' !in subject
    ensures SplitTwo(FactKey(subject, name)) == Some((subject, name))
  {
    var key := FactKey(subject, name);
    if subject == "" {
      assert key[1..] == name;
    } else {
      SplitKey(subject[1..], name);
      assert key[1..] == FactKey(subject[1..], name);
      assert [key[0]] + subject[1..] == subject;
    }
  }

  lemma SuffixNamesPredicate(subject: string, name: string, wanted: string)
    requires '|' !in name && '|' !in wanted
    ensures EndsWith(FactKey(subject, name), "|" + wanted) <==> name == wanted
  {
    var key, suffix := FactKey(subject, name), "|" + wanted;
    if |suffix| <= |key| {
      var tail := key[|key| - |suffix|..];
      if |name| < |wanted| {
        assert tail[|suffix| - 1 - |name|] == '|' && suffix[|suffix| - 1 - |name|] != '|';
      } else if |name| > |wanted| {
        assert tail[0] == name[|name| - |suffix|];
      } else {
        assert tail == "|" + name && tail[1..] == name && suffix[1..] == wanted;
      }
    }
  }

  lemma KeysDiffer(a: string, p: string, b: string, q: string)
    requires '|' !in a && '|' !in b && FactKey(a, p) == FactKey(b, q)
    ensures a == b && p == q
  {
    SplitKey(a, p);
    SplitKey(b, q);
  }

  // ------------------------------------------------------------------
  // Lists of ids
  // ------------------------------------------------------------------

  method Dedupe(ids: seq<string>) returns (out: seq<string>)
    ensures Elems(out) == Elems(ids)
    ensures forall i, j :: 0 <= i < j < |out| ==> out[i] != out[j]
    ensures Sorted(ids) ==> Canonical(out)
  {
    var seen: set<string> := {};
    out := [];
    for i := 0 to |ids|
      invariant forall x :: x in out <==> x in ids[..i]
      invariant forall x :: x in seen <==> x in out
      invariant forall j, k :: 0 <= j < k < |out| ==> out[j] != out[k]
      invariant Sorted(ids) ==> Sorted(out) && forall x <- out, k | i <= k < |ids| :: Leq(x, ids[k])
    {
      var s := ids[i];
      assert ids[..i + 1] == ids[..i] + [s];
      if Sorted(ids) { LeqRefl(s); }
      if s in seen { continue; }
      seen := seen + {s};
      ghost var before := out;
      out := out + [s];
      if Sorted(ids) {
        forall j, k | 0 <= j < k < |out| ensures Leq(out[j], out[k]) {
          if k == |before| { assert before[j] in before && Leq(before[j], ids[i]); }
        }
      }
    }
    assert ids[..|ids|] == ids;
  }

  // `sort.Strings` and then `dedupe`: the listing depends only on which ids went in.
  method SortedIds(ids: seq<string>) returns (out: seq<string>)
    ensures out == Listing(Elems(ids))
  {
    SortSorts(ids);
    out := Dedupe(Sort(ids));
    CanonicalUnique(out, Listing(Elems(ids)));
  }

  method IdsOf(history: seq<FactRef>) returns (out: seq<string>)
    ensures Elems(out) == set r | r in history :: r.id
  {
    out := [];
    for i := 0 to |history|
      invariant |out| == i && forall j | 0 <= j < i :: out[j] == history[j].id
    {
      out := out + [history[i].id];
    }
    forall x ensures x in out <==> exists r <- history :: r.id == x {
      if x in out {
        var j :| 0 <= j < |out| && out[j] == x;
        assert history[j] in history;
      }
      forall r | r in history && r.id == x ensures x in out {
        var j :| 0 <= j < |history| && history[j] == r;
        assert out[j] == x;
      }
    }
  }

  const EXPECTED_SET_CAP := 20

  function CapExpected(ids: seq<string>): seq<string> {
    if |ids| <= EXPECTED_SET_CAP then ids else ids[..EXPECTED_SET_CAP]
  }

  // All of them, or the first twenty.
  ghost predicate FirstTwenty(ids: seq<string>, all: seq<string>) {
    |ids| <= 20 && ids <= all && (ids == all || |ids| == 20)
  }

  lemma CapIsTwenty(ids: seq<string>)
    ensures FirstTwenty(CapExpected(ids), ids)
  {
  }

  lemma {:induction false} SortDistinct(ids: seq<string>)
    requires forall i, j :: 0 <= i < j < |ids| ==> ids[i] != ids[j]
    ensures Sort(ids) == Listing(Elems(ids))
  {
    SortCanonical(ids);
    SortSorts(ids);
    CanonicalUnique(Sort(ids), Listing(Elems(ids)));
  }

  lemma {:induction false} SortCanonical(ids: seq<string>)
    requires forall i, j :: 0 <= i < j < |ids| ==> ids[i] != ids[j]
    ensures Canonical(Sort(ids))
  {
    if ids != [] {
      SortCanonical(ids[1..]);
      SortSorts(ids[1..]);
      forall x | x in ids[1..] ensures x != ids[0] {
        var j :| 0 <= j < |ids[1..]| && ids[1..][j] == x;
        assert x == ids[j + 1];
      }
      assert ids[0] !in Elems(Sort(ids[1..]));
      InsertCanonical(ids[0], Sort(ids[1..]));
    }
  }

  // ------------------------------------------------------------------
  // Artifact ids (`art_%04d`)
  // ------------------------------------------------------------------

  function ZeroPad(s: string, width: nat): string
    decreases width - |s|
  {
    if |s| >= width then s else ZeroPad("0" + s, width)
  }

  function ArtId(idx: nat): string {
    "art_" + ZeroPad(Digits(idx), 4)
  }

  // The number a numeral stands for, leading zeros and all.
  function NumberOf(s: string): nat {
    if s == "" then 0
    else
      var c := s[|s| - 1];
      10 * NumberOf(s[..|s| - 1]) + (if '0' <= c <= '9' then c as int - '0' as int else 0)
  }

  lemma {:induction false} NumberOfDigits(n: nat)
    ensures NumberOf(Digits(n)) == n
  {
    var s, q := Digits(n), n / 10;
    DigitValue(n % 10);
    if n >= 10 {
      NumberOfDigits(q);
      assert s[..|s| - 1] == Digits(q) && s[|s| - 1] == DIGITS[n % 10];
    } else {
      assert s[..0] == "" && s[|s| - 1] == DIGITS[n];
    }
  }

  lemma DigitValue(d: nat)
    requires d < 10
    ensures '0' <= DIGITS[d] <= '9' && DIGITS[d] as int - '0' as int == d
  {
    assert d == 0 || d == 1 || d == 2 || d == 3 || d == 4 || d == 5 || d == 6 || d == 7 || d == 8 || d == 9;
  }

  lemma {:induction false} NumberOfLedByZero(s: string)
    ensures NumberOf("0" + s) == NumberOf(s)
  {
    if s == "" {
      assert ("0" + s)[..0] == "";
    } else {
      NumberOfLedByZero(s[..|s| - 1]);
      assert ("0" + s)[..|s|] == "0" + s[..|s| - 1];
    }
  }

  lemma {:induction false} NumberOfPadded(s: string, width: nat)
    ensures NumberOf(ZeroPad(s, width)) == NumberOf(s)
    decreases width - |s|
  {
    if |s| < width {
      NumberOfLedByZero(s);
      NumberOfPadded("0" + s, width);
    }
  }

  lemma ArtIdsDiffer(a: nat, b: nat)
    requires ArtId(a) == ArtId(b)
    ensures a == b
  {
    var s, t := ZeroPad(Digits(a), 4), ZeroPad(Digits(b), 4);
    assert ArtId(a)[4..] == s && ArtId(b)[4..] == t;
    NumberOfDigits(a);
    NumberOfDigits(b);
    NumberOfPadded(Digits(a), 4);
    NumberOfPadded(Digits(b), 4);
  }

  // ------------------------------------------------------------------
  // The generator's state
  // ------------------------------------------------------------------

  ghost predicate Indexed(facts: map<string, seq<FactRef>>, log: seq<Fact>) {
    forall key {:trigger History(log, key)} ::
      (key in facts <==> History(log, key) != []) && (key in facts ==> facts[key] == History(log, key))
  }

  ghost predicate ChampionsIndexed(champions: map<string, seq<FactRef>>, log: seq<Fact>) {
    forall project {:trigger Champions(log, project)} ::
      (project in champions <==> Champions(log, project) != []) &&
      (project in champions ==> champions[project] == Champions(log, project))
  }

  ghost predicate EmployersIndexed(companies: map<string, string>, log: seq<Fact>) {
    forall subject {:trigger Employer(log, subject)} ::
      (if subject in companies then companies[subject] else "") == Employer(log, subject)
  }

  // Bars separate the parts of a key, so neither part holds one.
  ghost predicate Plain(log: seq<Fact>) {
    forall f <- log :: '|' !in f.subject && '|' !in f.predicateName
  }

  ghost predicate Roster(people: seq<Person>) {
    && (forall p <- people :: '|' !in p.slug)
    && forall i, j | 0 <= i < j < |people| :: people[i].slug != people[j].slug
  }

  // The slugs a superseding or contradicting artifact may pick from.
  ghost function Eligible(people: seq<Person>, log: seq<Fact>): set<string> {
    set p | p in people && History(log, FactKey(p.slug, "role_at")) != [] :: p.slug
  }

  lemma IndexedAfter(facts: map<string, seq<FactRef>>, log: seq<Fact>, f: Fact)
    requires Indexed(facts, log)
    ensures var key := KeyOf(f);
      Indexed(facts[key := (if key in facts then facts[key] else []) + [FactRef(f.id, f.obj)]], log + [f])
  {
    Appended(log, f);
    assert forall key ::
      History(log + [f], key) == History(log, key) + (if KeyOf(f) == key then [FactRef(f.id, f.obj)] else []);
  }

  lemma ChampionsNext(log: seq<Fact>, f: Fact, project: string)
    ensures Champions(log + [f], project) ==
            Champions(log, project) + (if Championed(f, project) then [FactRef(f.id, f.subject)] else [])
  {
    assert (log + [f])[..|log|] == log;
  }

  lemma ChampionsElsewhere(champions: map<string, seq<FactRef>>, log: seq<Fact>, f: Fact)
    requires ChampionsIndexed(champions, log) && f.predicateName != "champions"
    ensures ChampionsIndexed(champions, log + [f])
  {
    forall p ensures Champions(log + [f], p) == Champions(log, p) {
      ChampionsNext(log, f, p);
    }
  }

  lemma ChampionsHere(champions: map<string, seq<FactRef>>, log: seq<Fact>, f: Fact, project: string)
    requires ChampionsIndexed(champions, log) && Championed(f, project)
    ensures var refs := if project in champions then champions[project] else [];
      ChampionsIndexed(champions[project := refs + [FactRef(f.id, f.subject)]], log + [f])
  {
    forall p ensures Champions(log + [f], p) ==
      Champions(log, p) + (if p == project then [FactRef(f.id, f.subject)] else [])
    {
      ChampionsNext(log, f, p);
      assert ("project:" + p)[8..] == p && ("project:" + project)[8..] == project;
    }
  }

  lemma ChampionsAfter(champions: map<string, seq<FactRef>>, log: seq<Fact>, f: Fact)
    requires ChampionsIndexed(champions, log)
    ensures f.predicateName != "champions" ==> ChampionsIndexed(champions, log + [f])
    ensures forall project | Championed(f, project) ::
      var refs := if project in champions then champions[project] else [];
      ChampionsIndexed(champions[project := refs + [FactRef(f.id, f.subject)]], log + [f])
  {
    if f.predicateName != "champions" { ChampionsElsewhere(champions, log, f); }
    forall project | Championed(f, project)
      ensures var refs := if project in champions then champions[project] else [];
        ChampionsIndexed(champions[project := refs + [FactRef(f.id, f.subject)]], log + [f])
    {
      ChampionsHere(champions, log, f, project);
    }
  }

  lemma EmployersAfter(companies: map<string, string>, log: seq<Fact>, f: Fact)
    requires EmployersIndexed(companies, log)
    ensures EmployersIndexed(if f.employer.Some? then companies[f.subject := f.employer.value] else companies, log + [f])
  {
    Appended(log, f);
  }

  ghost function Chosen(slugs: set<string>, choice: nat): (slug: string)
    requires slugs != {}
    ensures slug in slugs
  {
    var l := Listing(slugs);
    assert Elems(l) != {};
    assert l[choice % |l|] in Elems(l);
    l[choice % |l|]
  }

  function Home(people: seq<Person>, slug: string): string {
    if people == [] then "" else if people[0].slug == slug then people[0].company else Home(people[1..], slug)
  }

  lemma {:induction false} HomeOf(people: seq<Person>, i: nat)
    requires i < |people| && forall j | 0 <= j < i :: people[j].slug != people[i].slug
    ensures Home(people, people[i].slug) == people[i].company
  {
    if i > 0 { HomeOf(people[1..], i - 1); }
  }

  // The current truth under a key has this id and object.
  ghost predicate Truth(log: seq<Fact>, key: string, r: FactRef) {
    exists i: nat :: Current(log, i) && KeyOf(log[i]) == key && r == FactRef(log[i].id, log[i].obj)
  }

  lemma LastIsTruth(log: seq<Fact>, key: string)
    requires History(log, key) != []
    ensures Truth(log, key, History(log, key)[|History(log, key)| - 1])
  {
    var i := LastIsCurrent(log, key);
  }

  // ------------------------------------------------------------------
  // What the queries should return, from the list of all facts stated
  // ------------------------------------------------------------------

  ghost function ProjectIds(log: seq<Fact>, project: string, names: set<string>): set<string> {
    set f | f in log && f.predicateName in names && f.obj == "project:" + project :: f.id
  }

  ghost function LeadIds(log: seq<Fact>, company: string): set<string> {
    set f | f in log && f.predicateName == "leads" && Employer(log, f.subject) == company :: f.id
  }

  // All of a person's facts, but only the current truth where `currentOnly` asks for it.
  ghost function PersonIds(log: seq<Fact>, slug: string, names: set<string>, currentOnly: bool): set<string> {
    set i | 0 <= i < |log| && log[i].subject == slug && log[i].predicateName in names
      && (currentOnly && log[i].predicateName == "role_at" ==> Current(log, i)) :: log[i].id
  }

  // A champion of the project recorded at the company.
  ghost predicate ChampionAt(log: seq<Fact>, f: Fact, project: string, company: string) {
    f in log && Championed(f, project) && Employer(log, f.subject) == company
  }

  // Those champions' facts, and the current truth about each one's role.
  ghost function HopIds(log: seq<Fact>, project: string, company: string): set<string> {
    (set f | f in log && ChampionAt(log, f, project, company) :: f.id) +
    (set f, i | f in log && 0 <= i < |log| && ChampionAt(log, f, project, company)
      && Current(log, i) && KeyOf(log[i]) == FactKey(f.subject, "role_at") :: log[i].id)
  }

  ghost function ProjectsWithChampionAt(log: seq<Fact>, company: string): set<string> {
    set f | f in log && f.predicateName == "champions" && StartsWith(f.obj, "project:")
      && Employer(log, f.subject) == company :: f.obj[8..]
  }

  // The facts a scan of the index finds.
  ghost function Hits(log: seq<Fact>, wanted: string -> bool, hit: (string, FactRef) -> bool): set<string> {
    set f | f in log && wanted(KeyOf(f)) && hit(KeyOf(f), FactRef(f.id, f.obj)) :: f.id
  }

  // A key of "leads" facts about someone recorded at the company.
  predicate LeadsAt(companies: map<string, string>, company: string, key: string) {
    EndsWith(key, "|leads") && SplitTwo(key).Some? &&
    var subject := SplitTwo(key).value.0;
    (if subject in companies then companies[subject] else "") == company
  }

  lemma LeadsAtKey(companies: map<string, string>, company: string, subject: string, name: string)
    requires '|' !in subject && '|' !in name
    ensures LeadsAt(companies, company, FactKey(subject, name)) <==>
      name == "leads" && (if subject in companies then companies[subject] else "") == company
  {
    SplitKey(subject, name);
    SuffixNamesPredicate(subject, name, "leads");
    assert "|" + "leads" == "|leads";
  }

  // The index of champions and a scan of all facts name the same ids.
  lemma ChampionsIndexIsScan(log: seq<Fact>, project: string)
    ensures (set r | r in Champions(log, project) :: r.id) == ProjectIds(log, project, {"champions"})
  {
    var index := set r | r in Champions(log, project) :: r.id;
    forall x ensures x in index <==> x in ProjectIds(log, project, {"champions"}) {
      if x in index {
        var r :| r in Champions(log, project) && r.id == x;
        ChampionMembers(log, project, r);
      }
      if x in ProjectIds(log, project, {"champions"}) {
        var f :| f in log && f.predicateName == "champions" && f.obj == "project:" + project && f.id == x;
        assert Championed(f, project);
        ChampionMembers(log, project, FactRef(f.id, f.subject));
      }
    }
  }

  // The id of the current truth about a person's role, if there is one.
  function RoleIds(log: seq<Fact>, subject: string): set<string> {
    var h := History(log, FactKey(subject, "role_at"));
    if h == [] then {} else {h[|h| - 1].id}
  }

  lemma RoleIdsAreCurrent(log: seq<Fact>, subject: string, x: string)
    ensures x in RoleIds(log, subject) <==>
      exists i: nat :: Current(log, i) && KeyOf(log[i]) == FactKey(subject, "role_at") && log[i].id == x
  {
    var key := FactKey(subject, "role_at");
    if History(log, key) != [] {
      var i := LastIsCurrent(log, key);
      forall j: nat | Current(log, j) && KeyOf(log[j]) == key ensures j == i {
        OneCurrent(log, i, j);
      }
    }
    forall i: nat | Current(log, i) && KeyOf(log[i]) == key ensures History(log, key) != [] {
      HistoryMembers(log, key, FactRef(log[i].id, log[i].obj));
    }
  }

  lemma CurrentPersonIds(log: seq<Fact>, slug: string)
    requires Plain(log) && '|' !in slug
    ensures PersonIds(log, slug, {"role_at"}, true) == RoleIds(log, slug)
  {
    forall f | f in log && KeyOf(f) == FactKey(slug, "role_at") ensures f.subject == slug && f.predicateName == "role_at" {
      KeysDiffer(f.subject, f.predicateName, slug, "role_at");
    }
    forall x ensures x in PersonIds(log, slug, {"role_at"}, true) <==> x in RoleIds(log, slug) {
      RoleIdsAreCurrent(log, slug, x);
    }
  }

  lemma AllPersonIds(log: seq<Fact>, slug: string, name: string, currentOnly: bool)
    requires Plain(log) && '|' !in slug && !(currentOnly && name == "role_at")
    ensures PersonIds(log, slug, {name}, currentOnly) == set r | r in History(log, FactKey(slug, name)) :: r.id
  {
    var key := FactKey(slug, name);
    forall r | r in History(log, key) ensures r.id in PersonIds(log, slug, {name}, currentOnly) {
      HistoryMembers(log, key, r);
      var f :| f in log && KeyOf(f) == key && r == FactRef(f.id, f.obj);
      KeysDiffer(f.subject, f.predicateName, slug, name);
      var i :| 0 <= i < |log| && log[i] == f;
      assert log[i].subject == slug && log[i].predicateName in {name} && log[i].id == r.id;
    }
    forall x | x in PersonIds(log, slug, {name}, currentOnly)
      ensures exists r :: r in History(log, key) && r.id == x
    {
      var i :| 0 <= i < |log| && log[i].subject == slug && log[i].predicateName in {name} && log[i].id == x;
      HistoryMembers(log, key, FactRef(log[i].id, log[i].obj));
    }
  }

  // What one champion contributes to a multi-hop answer.
  ghost function HopShare(log: seq<Fact>, r: FactRef, company: string): set<string> {
    if Employer(log, r.obj) == company then {r.id} + RoleIds(log, r.obj) else {}
  }

  ghost function HopShares(log: seq<Fact>, refs: seq<FactRef>, company: string, n: nat): set<string>
    requires n <= |refs|
  {
    if n == 0 then {} else HopShares(log, refs, company, n - 1) + HopShare(log, refs[n - 1], company)
  }

  lemma {:induction false} HopSharesMembers(log: seq<Fact>, refs: seq<FactRef>, company: string, n: nat, x: string)
    requires n <= |refs|
    ensures x in HopShares(log, refs, company, n) <==> exists j | 0 <= j < n :: x in HopShare(log, refs[j], company)
  {
    if n > 0 { HopSharesMembers(log, refs, company, n - 1, x); }
  }

  lemma HopSharesAreHopIds(log: seq<Fact>, project: string, company: string)
    ensures var refs := Champions(log, project);
      HopShares(log, refs, company, |refs|) == HopIds(log, project, company)
  {
    var refs := Champions(log, project);
    forall x ensures x in HopShares(log, refs, company, |refs|) <==> x in HopIds(log, project, company) {
      HopSharesMembers(log, refs, company, |refs|, x);
      HopIdsByChampion(log, project, company, x);
    }
  }

  lemma HopIdsByChampion(log: seq<Fact>, project: string, company: string, x: string)
    ensures x in HopIds(log, project, company) <==>
      exists r <- Champions(log, project) :: x in HopShare(log, r, company)
  {
    forall f | ChampionAt(log, f, project, company) ensures FactRef(f.id, f.subject) in Champions(log, project) {
      ChampionMembers(log, project, FactRef(f.id, f.subject));
    }
    forall r | r in Champions(log, project) && Employer(log, r.obj) == company
      ensures exists f :: ChampionAt(log, f, project, company) && r == FactRef(f.id, f.subject)
    {
      ChampionMembers(log, project, r);
      var f :| f in log && Championed(f, project) && r == FactRef(f.id, f.subject);
      assert ChampionAt(log, f, project, company);
    }
    forall subject ensures x in RoleIds(log, subject) <==>
      exists i: nat :: Current(log, i) && KeyOf(log[i]) == FactKey(subject, "role_at") && log[i].id == x
    {
      RoleIdsAreCurrent(log, subject, x);
    }
  }

  ghost predicate AnyEmployedAt(log: seq<Fact>, refs: seq<FactRef>, company: string) {
    exists r <- refs :: Employer(log, r.obj) == company
  }

  lemma ProjectsByChampion(log: seq<Fact>, company: string, project: string)
    ensures project in ProjectsWithChampionAt(log, company) <==> AnyEmployedAt(log, Champions(log, project), company)
  {
    if project in ProjectsWithChampionAt(log, company) {
      var f :| f in log && f.predicateName == "champions" && StartsWith(f.obj, "project:")
        && Employer(log, f.subject) == company && f.obj[8..] == project;
      assert f.obj == "project:" + project;
      ChampionMembers(log, project, FactRef(f.id, f.subject));
    }
    forall r | r in Champions(log, project) && Employer(log, r.obj) == company
      ensures project in ProjectsWithChampionAt(log, company)
    {
      ChampionMembers(log, project, r);
      var f :| f in log && Championed(f, project) && r == FactRef(f.id, f.subject);
      assert f.obj[8..] == project;
    }
  }

  // Every draw, and the fallback, names the company last recorded.
  ghost predicate NoOther(moves: seq<string>, lastObject: string, draws: seq<nat>)
    requires moves != []
  {
    && "company:" + moves[0] == lastObject
    && forall k | 0 <= k < |draws| && k < 10 :: "company:" + moves[draws[k] % |moves|] == lastObject
  }

  // Ten draws of the first company, when that is the one last recorded.
  lemma RepeatedDraws(moves: seq<string>)
    requires moves != []
    ensures NoOther(moves, "company:" + moves[0], seq(10, _ => 0))
  {
  }

  class GenState {
    const people: seq<Person>
    const moves: seq<string>
    const factId: (nat, string, string, string) -> string
    var facts: map<string, seq<FactRef>>
    var championsByProject: map<string, seq<FactRef>>
    var personCompany: map<string, string>
    ghost var log: seq<Fact>

    ghost predicate Valid()
      reads this
    {
      && Roster(people) && Plain(log)
      && Indexed(facts, log) && ChampionsIndexed(championsByProject, log) && EmployersIndexed(personCompany, log)
    }

    constructor (people: seq<Person>, moves: seq<string>, factId: (nat, string, string, string) -> string)
      requires Roster(people)
      ensures Valid() && log == []
      ensures this.people == people && this.moves == moves && this.factId == factId
    {
      this.people := people;
      this.moves := moves;
      this.factId := factId;
      facts := map[];
      championsByProject := map[];
      personCompany := map[];
      log := [];
    }

    function NewFact(
      idx: nat, subject: string, name: string, obj: string, employer: Option<string>,
      supersedes: seq<string>, contradicts: seq<string>): Fact
    {
      Fact(factId(idx, subject, name, obj), subject, name, obj, employer, supersedes, contradicts)
    }

    // What every builder does with its fact.
    method Record(f: Fact)
      requires Valid() && '|' !in f.subject && '|' !in f.predicateName
      modifies `facts, `personCompany, `log
      ensures Plain(log) && Indexed(facts, log) && EmployersIndexed(personCompany, log)
      ensures log == old(log) + [f]
    {
      IndexedAfter(facts, log, f);
      EmployersAfter(personCompany, log, f);
      var key := FactKey(f.subject, f.predicateName);
      facts := facts[key := (if key in facts then facts[key] else []) + [FactRef(f.id, f.obj)]];
      if f.employer.Some? {
        personCompany := personCompany[f.subject := f.employer.value];
      }
      log := log + [f];
    }

    method RecordRole(idx: nat, slug: string, company: string, supersedes: seq<string>, contradicts: seq<string>)
      returns (a: Artifact)
      requires Valid() && '|' !in slug
      modifies this
      ensures Valid() && log == old(log) + a.facts
      ensures a == Artifact(ArtId(idx),
        [NewFact(idx, slug, "role_at", "company:" + company, Some(company), supersedes, contradicts)])
    {
      var f := NewFact(idx, slug, "role_at", "company:" + company, Some(company), supersedes, contradicts);
      ChampionsAfter(championsByProject, log, f);
      Record(f);
      a := Artifact(ArtId(idx), [f]);
    }

    // `company` is the person's own, or the one they move to.
    method BuildRoleStatus(idx: nat, p: Person, company: string) returns (a: Artifact)
      requires Valid() && p in people
      modifies this
      ensures Valid() && log == old(log) + a.facts
      ensures a == Artifact(ArtId(idx), [NewFact(idx, p.slug, "role_at", "company:" + company, Some(company), [], [])])
    {
      a := RecordRole(idx, p.slug, company, [], []);
    }

    method BuildObservation(idx: nat, p: Person, project: string) returns (a: Artifact)
      requires Valid() && p in people
      modifies this
      ensures Valid() && log == old(log) + a.facts
      ensures a == Artifact(ArtId(idx), [NewFact(idx, p.slug, "involved_in", "project:" + project, None, [], [])])
    {
      var f := NewFact(idx, p.slug, "involved_in", "project:" + project, None, [], []);
      ChampionsAfter(championsByProject, log, f);
      Record(f);
      a := Artifact(ArtId(idx), [f]);
    }

    method BuildMultiEntity(idx: nat, p: Person, project: string, useChampion: bool) returns (a: Artifact)
      requires Valid() && p in people
      modifies this
      ensures Valid() && log == old(log) + a.facts
      ensures a == Artifact(ArtId(idx),
        [NewFact(idx, p.slug, if useChampion then "champions" else "leads", "project:" + project, Some(p.company), [], [])])
    {
      var name := if useChampion then "champions" else "leads";
      var f := NewFact(idx, p.slug, name, "project:" + project, Some(p.company), [], []);
      ChampionsAfter(championsByProject, log, f);
      Record(f);
      if useChampion {
        assert Championed(f, project);
        var refs := if project in championsByProject then championsByProject[project] else [];
        championsByProject := championsByProject[project := refs + [FactRef(f.id, p.slug)]];
      }
      a := Artifact(ArtId(idx), [f]);
    }

    // The slugs with a role on record, sorted.
    method Candidates() returns (sorted: seq<string>)
      requires Valid()
      ensures sorted == Listing(Eligible(people, log))
    {
      var candidates: seq<string> := [];
      for i := 0 to |people|
        invariant forall x :: x in candidates <==>
          exists j | 0 <= j < i :: people[j].slug == x && FactKey(x, "role_at") in facts
        invariant forall j, k :: 0 <= j < k < |candidates| ==> candidates[j] != candidates[k]
      {
        if FactKey(people[i].slug, "role_at") in facts {
          candidates := candidates + [people[i].slug];
        }
      }
      assert Elems(candidates) == Eligible(people, log);
      SortDistinct(candidates);
      sorted := Sort(candidates);
    }

    method Pick(choice: nat) returns (found: Option<Person>)
      requires Valid()
      ensures found.None? <==> Eligible(people, log) == {}
      ensures found.Some? ==>
        found.value in people && found.value.slug == Chosen(Eligible(people, log), choice)
        && found.value.company == Home(people, found.value.slug)
    {
      var candidates := Candidates();
      ghost var eligible := Eligible(people, log);
      assert Elems(candidates) == eligible;
      if |candidates| == 0 { return None; }
      assert candidates[0] in Elems(candidates);
      var chosen := candidates[choice % |candidates|];
      assert chosen == Chosen(eligible, choice) && chosen in eligible;
      for i := 0 to |people|
        invariant forall j | 0 <= j < i :: people[j].slug != chosen
      {
        if people[i].slug == chosen {
          HomeOf(people, i);
          return Some(people[i]);
        }
      }
    }

    // Supersedes the current truth about the chosen person's role; with no role on record
    // yet it is a plain role artifact.
    method BuildSuperseding(idx: nat, choice: nat, p: Person, company: string) returns (a: Artifact)
      requires Valid() && p in people
      modifies this
      ensures Valid() && log == old(log) + a.facts && a.id == ArtId(idx) && |a.facts| == 1
      ensures old(Eligible(people, log)) == {} ==>
        a.facts[0] == NewFact(idx, p.slug, "role_at", "company:" + company, Some(company), [], [])
      ensures old(Eligible(people, log)) != {} ==>
        var slug := Chosen(old(Eligible(people, log)), choice);
        exists prev ::
          && Truth(old(log), FactKey(slug, "role_at"), prev)
          && a.facts[0] == NewFact(idx, slug, "role_at", "company:" + Home(people, slug),
                                   Some(Home(people, slug)), [prev.id], [])
    {
      var found := Pick(choice);
      if found.None? {
        a := BuildRoleStatus(idx, p, company);
        return;
      }
      var q := found.value;
      LastIsTruth(log, FactKey(q.slug, "role_at"));
      var history := facts[FactKey(q.slug, "role_at")];
      var prev := history[|history| - 1];
      a := RecordRole(idx, q.slug, q.company, [prev.id], []);
    }

    // Up to ten draws for a company other than the one last recorded.
    method DrawOther(lastObject: string, draws: seq<nat>) returns (company: string)
      requires moves != [] && forall m <- moves :: m != ""
      ensures company in moves
      ensures "company:" + company == lastObject <==> NoOther(moves, lastObject, draws)
    {
      company := "";
      var k := 0;
      while k < |draws| && k < 10
        invariant 0 <= k <= |draws| && k <= 10
        invariant forall j | 0 <= j < k :: "company:" + moves[draws[j] % |moves|] == lastObject
      {
        var candidate := moves[draws[k] % |moves|];
        if "company:" + candidate != lastObject {
          assert candidate in moves && !NoOther(moves, lastObject, draws);
          return candidate;
        }
        k := k + 1;
      }
      company := moves[0];
    }

    // Contradicts the current truth about the chosen person's role. The new object really
    // differs from the old one unless every draw and the fallback hit the old company.
    method BuildContradiction(idx: nat, choice: nat, draws: seq<nat>, p: Person, company: string) returns (a: Artifact)
      requires Valid() && p in people && moves != [] && forall m <- moves :: m != ""
      modifies this
      ensures Valid() && log == old(log) + a.facts && a.id == ArtId(idx) && |a.facts| == 1
      ensures old(Eligible(people, log)) == {} ==>
        a.facts[0] == NewFact(idx, p.slug, "role_at", "company:" + company, Some(company), [], [])
      ensures old(Eligible(people, log)) != {} ==>
        var slug := Chosen(old(Eligible(people, log)), choice);
        exists prev, c ::
          && Truth(old(log), FactKey(slug, "role_at"), prev) && c in moves
          && a.facts[0] == NewFact(idx, slug, "role_at", "company:" + c, Some(c), [], [prev.id])
          && (a.facts[0].obj == prev.obj <==> NoOther(moves, prev.obj, draws))
    {
      var found := Pick(choice);
      if found.None? {
        a := BuildRoleStatus(idx, p, company);
        return;
      }
      var q := found.value;
      LastIsTruth(log, FactKey(q.slug, "role_at"));
      var history := facts[FactKey(q.slug, "role_at")];
      var prev := history[|history| - 1];
      var c := DrawOther(prev.obj, draws);
      a := RecordRole(idx, q.slug, c, [], [prev.id]);
    }

    method BuildNoise(idx: nat) returns (a: Artifact)
      requires Valid()
      ensures a == Artifact(ArtId(idx), [])
    {
      a := Artifact(ArtId(idx), []);
    }

    // `range s.facts`: the keys in an order of the runtime's choosing, each one's history
    // in turn.
    method Scan(wanted: string -> bool, hit: (string, FactRef) -> bool) returns (out: seq<string>)
      requires Valid()
      ensures Elems(out) == Hits(log, wanted, hit)
    {
      out := [];
      var keys := facts.Keys;
      while keys != {}
        invariant keys <= facts.Keys
        invariant forall x :: x in out <==>
          exists k, r :: k in facts.Keys - keys && wanted(k) && r in facts[k] && hit(k, r) && r.id == x
        decreases |keys|
      {
        var key :| key in keys;
        ghost var before := keys;
        keys := keys - {key};
        if !wanted(key) { continue; }
        var found := Gather(key, facts[key], hit);
        out := out + found;
      }
      forall x ensures x in out <==> x in Hits(log, wanted, hit) {
        if x in out {
          var k, r :| k in facts.Keys && wanted(k) && r in facts[k] && hit(k, r) && r.id == x;
          HistoryMembers(log, k, r);
        }
        if x in Hits(log, wanted, hit) {
          var f :| f in log && wanted(KeyOf(f)) && hit(KeyOf(f), FactRef(f.id, f.obj)) && f.id == x;
          HistoryMembers(log, KeyOf(f), FactRef(f.id, f.obj));
          assert KeyOf(f) in facts;
        }
      }
    }

    method Gather(key: string, history: seq<FactRef>, hit: (string, FactRef) -> bool) returns (out: seq<string>)
      ensures forall x :: x in out <==> exists r <- history :: hit(key, r) && r.id == x
    {
      out := [];
      for i := 0 to |history|
        invariant forall x :: x in out <==> exists j | 0 <= j < i :: hit(key, history[j]) && history[j].id == x
      {
        if hit(key, history[i]) { out := out + [history[i].id]; }
      }
    }

    method ExpectedForProjectPredicate(project: string, name: string) returns (ids: seq<string>)
      requires Valid() && '|' !in name
      ensures ids == Listing(ProjectIds(log, project, {name}))
    {
      var wanted := (key: string) => EndsWith(key, "|" + name);
      var hit := (key: string, r: FactRef) => r.obj == "project:" + project;
      var out := Scan(wanted, hit);
      ids := SortedIds(out);
      forall f | f in log ensures EndsWith(KeyOf(f), "|" + name) <==> f.predicateName == name {
        SuffixNamesPredicate(f.subject, f.predicateName, name);
      }
      assert Hits(log, wanted, hit) == ProjectIds(log, project, {name});
    }

    method ExpectedForProjectAnyPredicate(project: string, names: set<string>) returns (ids: seq<string>)
      requires Valid()
      ensures ids == CapExpected(Listing(ProjectIds(log, project, names)))
      ensures FirstTwenty(ids, Listing(ProjectIds(log, project, names)))
    {
      var wanted := (key: string) => SplitTwo(key).Some? && SplitTwo(key).value.1 in names;
      var hit := (key: string, r: FactRef) => r.obj == "project:" + project;
      var out := Scan(wanted, hit);
      var listed := SortedIds(out);
      CapIsTwenty(listed);
      ids := CapExpected(listed);
      forall f | f in log ensures SplitTwo(KeyOf(f)) == Some((f.subject, f.predicateName)) {
        SplitKey(f.subject, f.predicateName);
      }
      assert Hits(log, wanted, hit) == ProjectIds(log, project, names);
    }

    method ExpectedLeadsAtCompany(company: string) returns (ids: seq<string>)
      requires Valid()
      ensures ids == Listing(LeadIds(log, company))
    {
      var companies := personCompany;
      var wanted := (key: string) => LeadsAt(companies, company, key);
      var hit := (key: string, r: FactRef) => true;
      var out := Scan(wanted, hit);
      ids := SortedIds(out);
      forall f | f in log
        ensures wanted(KeyOf(f)) <==> f.predicateName == "leads" && Employer(log, f.subject) == company
      {
        LeadsAtKey(companies, company, f.subject, f.predicateName);
      }
      assert Hits(log, wanted, hit) == LeadIds(log, company);
    }

    // One predicate's share of a person's ids.
    method IdsUnder(slug: string, name: string, currentOnly: bool) returns (out: seq<string>)
      requires Valid() && '|' !in slug
      ensures Elems(out) == PersonIds(log, slug, {name}, currentOnly)
    {
      var key := FactKey(slug, name);
      var history := if key in facts then facts[key] else [];
      assert history == History(log, key);
      if currentOnly && name == "role_at" {
        CurrentPersonIds(log, slug);
        out := if history == [] then [] else [history[|history| - 1].id];
        return;
      }
      AllPersonIds(log, slug, name, currentOnly);
      out := IdsOf(history);
    }

    method ExpectedForPerson(slug: string, names: seq<string>, currentOnly: bool) returns (ids: seq<string>)
      requires Valid() && '|' !in slug
      ensures ids == Listing(PersonIds(log, slug, Elems(names), currentOnly))
    {
      var out: seq<string> := [];
      for i := 0 to |names|
        invariant Elems(out) == PersonIds(log, slug, Elems(names[..i]), currentOnly)
      {
        var more := IdsUnder(slug, names[i], currentOnly);
        assert names[..i + 1] == names[..i] + [names[i]];
        assert Elems(names[..i + 1]) == Elems(names[..i]) + {names[i]};
        assert Elems(out + more) == Elems(out) + Elems(more);
        assert PersonIds(log, slug, Elems(names[..i + 1]), currentOnly)
            == PersonIds(log, slug, Elems(names[..i]), currentOnly) + PersonIds(log, slug, {names[i]}, currentOnly);
        out := out + more;
      }
      assert names[..|names|] == names;
      ids := SortedIds(out);
    }

    // One champion's pass of the loop below.
    method HopOf(r: FactRef, company: string) returns (out: seq<string>)
      requires Valid()
      ensures Elems(out) == HopShare(log, r, company)
    {
      if (if r.obj in personCompany then personCompany[r.obj] else "") != company { return []; }
      out := [r.id];
      var key := FactKey(r.obj, "role_at");
      if key in facts {
        assert facts[key] == History(log, key);
        out := out + [facts[key][|facts[key]| - 1].id];
      }
    }

    method ExpectedMultiHop(company: string, project: string) returns (ids: seq<string>)
      requires Valid()
      ensures ids == CapExpected(Listing(HopIds(log, project, company)))
      ensures FirstTwenty(ids, Listing(HopIds(log, project, company)))
    {
      var out: seq<string> := [];
      var refs := if project in championsByProject then championsByProject[project] else [];
      for i := 0 to |refs|
        invariant Elems(out) == HopShares(log, refs, company, i)
      {
        var more := HopOf(refs[i], company);
        assert Elems(out + more) == Elems(out) + Elems(more);
        out := out + more;
      }
      HopSharesAreHopIds(log, project, company);
      var listed := SortedIds(out);
      CapIsTwenty(listed);
      ids := CapExpected(listed);
    }

    method AnyAt(refs: seq<FactRef>, company: string) returns (found: bool)
      requires Valid()
      ensures found <==> AnyEmployedAt(log, refs, company)
    {
      for i := 0 to |refs|
        invariant forall j | 0 <= j < i :: Employer(log, refs[j].obj) != company
      {
        if (if refs[i].obj in personCompany then personCompany[refs[i].obj] else "") == company { return true; }
      }
      found := false;
    }

    // The projects with a champion recorded at the company, sorted.
    method CandidateProjects(company: string) returns (sorted: seq<string>)
      requires Valid()
      ensures sorted == Listing(ProjectsWithChampionAt(log, company))
    {
      var candidates: seq<string> := [];
      var keys := championsByProject.Keys;
      while keys != {}
        invariant keys <= championsByProject.Keys
        invariant forall x :: x in candidates <==>
          x in championsByProject.Keys - keys && AnyEmployedAt(log, championsByProject[x], company)
        invariant forall j, k :: 0 <= j < k < |candidates| ==> candidates[j] != candidates[k]
        decreases |keys|
      {
        var key :| key in keys;
        assert key !in candidates;
        keys := keys - {key};
        var found := AnyAt(championsByProject[key], company);
        if found {
          candidates := candidates + [key];
        }
      }
      forall x ensures x in candidates <==> x in ProjectsWithChampionAt(log, company) {
        ProjectsByChampion(log, company, x);
      }
      assert Elems(candidates) == ProjectsWithChampionAt(log, company);
      SortDistinct(candidates);
      sorted := Sort(candidates);
    }

    // "" when no project has a champion recorded at the company.
    method PickProjectForMultiHop(company: string, choice: nat) returns (project: string)
      requires Valid()
      ensures var found := ProjectsWithChampionAt(log, company);
        project == if found == {} then "" else Chosen(found, choice)
    {
      var candidates := CandidateProjects(company);
      assert Elems(candidates) == ProjectsWithChampionAt(log, company);
      if |candidates| == 0 { return ""; }
      assert candidates[0] in Elems(candidates);
      project := candidates[choice % |candidates|];
    }
  }

  // With one role on record its person is the only one to pick, and their truth the only one.
  lemma OneRole(people: seq<Person>, f: Fact, p: Person)
    requires Roster(people) && p in people && f.subject == p.slug && f.predicateName == "role_at"
    ensures Eligible(people, [f]) == {p.slug}
    ensures forall r :: Truth([f], FactKey(p.slug, "role_at"), r) ==> r == FactRef(f.id, f.obj)
  {
    assert [f][..0] == [];
    forall q | q in people ensures History([f], FactKey(q.slug, "role_at")) != [] <==> q.slug == p.slug {
      if FactKey(q.slug, "role_at") == KeyOf(f) { KeysDiffer(q.slug, "role_at", p.slug, "role_at"); }
    }
  }

  // A role at the first company to move to, then a contradiction whose draws all name that
  // company: the contradicting fact states the same object.
  method RepeatedContradiction(people: seq<Person>, moves: seq<string>, factId: (nat, string, string, string) -> string,
                               p: Person, choice: nat)
    returns (first: Artifact, second: Artifact)
    requires Roster(people) && p in people && moves != [] && forall m <- moves :: m != ""
    ensures |first.facts| == 1 && |second.facts| == 1
    ensures var f, c := first.facts[0], second.facts[0];
      && f.subject == c.subject == p.slug && f.predicateName == c.predicateName == "role_at"
      && c.contradicts == [f.id] && c.obj == f.obj == "company:" + moves[0]
  {
    var draws := seq(10, _ => 0);
    var state := new GenState(people, moves, factId);
    first := state.BuildRoleStatus(0, p, moves[0]);
    ghost var f := first.facts[0];
    assert state.log == [f];
    OneRole(people, f, p);
    RepeatedDraws(moves);
    second := state.BuildContradiction(1, choice, draws, p, moves[0]);
  }
}
