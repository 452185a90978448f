/** A whole run of the corpus generator: the plan carried out, queries answered from the
    state it leaves, and everything validated. */
module CorpusRun {
  import opened Wrappers
  import opened Text
  import opened CorpusIndex
  import CorpusPlan

  // What the random source decides about one artifact.
  datatype Draw = Draw(
    person: nat, project: string, company: string, moves: bool, status: bool, champion: bool,
    choice: nat, attempts: seq<nat>)

  // What it decides about one query.
  datatype Ask =
    | AboutPerson(person: nat, names: seq<string>)
    | AboutProject(project: string, name: string)
    | AboutAny(project: string, wanted: set<string>)
    | Hop(company: string, choice: nat)
    | OutOfScope

  datatype Problem =
    | DuplicateArtifact(id: string)
    | EmptyFactId(artifact: string)
    | MissingFact(query: nat, id: string)

  function AllFacts(artifacts: seq<Artifact>): seq<Fact> {
    if artifacts == [] then []
    else AllFacts(artifacts[..|artifacts| - 1]) + artifacts[|artifacts| - 1].facts
  }

  lemma AllFactsAppend(artifacts: seq<Artifact>, a: Artifact)
    ensures AllFacts(artifacts + [a]) == AllFacts(artifacts) + a.facts
  {
    assert (artifacts + [a])[..|artifacts|] == artifacts;
  }

  // ------------------------------------------------------------------
  // Building
  // ------------------------------------------------------------------

  // A fact as one of the builders writes it.
  ghost predicate WellBuilt(people: seq<Person>, f: Fact) {
    match f.predicateName
    case "role_at" => f.employer.Some? && f.obj == "company:" + f.employer.value
    case "involved_in" => f.employer == None
    case _ => f.employer == Some(Home(people, f.subject))
  }

  ghost predicate AllBuilt(people: seq<Person>, log: seq<Fact>) {
    forall k | 0 <= k < |log| :: Named(log[k]) && WellBuilt(people, log[k])
  }

  ghost predicate Named(f: Fact) {
    f.predicateName == "role_at" || f.predicateName == "involved_in" || f.predicateName == "leads" || f.predicateName == "champions"
  }

  // What an entry of the plan states, given who has a role on record: nothing for noise, and
  // otherwise one fact, which updates an earlier one only where the kind asks for it and
  // there is one to update.
  ghost predicate States(people: seq<Person>, eligible: set<string>, kind: CorpusPlan.Kind, d: Draw, facts: seq<Fact>)
    requires d.person < |people|
  {
    if kind.Noise? then facts == [] else |facts| == 1 && StatesFact(people[d.person], eligible, kind, d, facts[0])
  }

  ghost predicate StatesFact(p: Person, eligible: set<string>, kind: CorpusPlan.Kind, d: Draw, f: Fact) {
    && (f.supersedes != [] <==> kind.Supersede? && eligible != {})
    && (f.contradicts != [] <==> kind.Contradiction? && eligible != {})
    && (f.supersedes == [] && f.contradicts == [] ==> f.subject == p.slug)
    && match kind
       case Multi =>
         f.predicateName == (if d.champion then "champions" else "leads") && f.obj == "project:" + d.project
       case Single =>
         if d.status then f.predicateName == "role_at" && f.obj == "company:" + (if d.moves then d.company else p.company)
         else f.predicateName == "involved_in" && f.obj == "project:" + d.project
       case _ => f.predicateName == "role_at"
  }

  ghost predicate Written(people: seq<Person>, factId: (nat, string, string, string) -> string, idx: nat, facts: seq<Fact>) {
    forall f <- facts :: Named(f) && WellBuilt(people, f) && f.id == factId(idx, f.subject, f.predicateName, f.obj)
  }

  method Build(g: GenState, kind: CorpusPlan.Kind, idx: nat, d: Draw) returns (a: Artifact)
    requires g.Valid() && d.person < |g.people| && g.moves != [] && forall m <- g.moves :: m != ""
    modifies g
    ensures g.Valid() && g.log == old(g.log) + a.facts && a.id == ArtId(idx)
    ensures Written(g.people, g.factId, idx, a.facts)
    ensures States(g.people, old(Eligible(g.people, g.log)), kind, d, a.facts)
  {
    var p := g.people[d.person];
    assert Home(g.people, p.slug) == p.company by { HomeOf(g.people, d.person); }
    var company := if d.moves then d.company else p.company;
    match kind {
      case Multi => a := g.BuildMultiEntity(idx, p, d.project, d.champion);
      case Supersede => a := g.BuildSuperseding(idx, d.choice, p, company);
      case Contradiction => a := g.BuildContradiction(idx, d.choice, d.attempts, p, company);
      case Single => a := BuildSingle(g, idx, d);
      case Noise => a := g.BuildNoise(idx);
    }
  }

  method BuildSingle(g: GenState, idx: nat, d: Draw) returns (a: Artifact)
    requires g.Valid() && d.person < |g.people|
    modifies g
    ensures g.Valid() && g.log == old(g.log) + a.facts && a.id == ArtId(idx)
    ensures Written(g.people, g.factId, idx, a.facts)
    ensures States(g.people, old(Eligible(g.people, g.log)), CorpusPlan.Single, d, a.facts)
  {
    var p := g.people[d.person];
    var company := if d.moves then d.company else p.company;
    if d.status {
      a := g.BuildRoleStatus(idx, p, company);
    } else {
      a := g.BuildObservation(idx, p, d.project);
    }
  }

  ghost predicate StatedAt(people: seq<Person>, plan: seq<CorpusPlan.Kind>, draws: seq<Draw>, artifacts: seq<Artifact>, i: nat)
    requires forall d <- draws :: d.person < |people|
    requires i < |artifacts| && |artifacts| <= |plan| && |artifacts| <= |draws|
  {
    States(people, Eligible(people, AllFacts(artifacts[..i])), plan[i], draws[i], artifacts[i].facts)
  }

  ghost predicate AllStated(people: seq<Person>, plan: seq<CorpusPlan.Kind>, draws: seq<Draw>, artifacts: seq<Artifact>)
    requires forall d <- draws :: d.person < |people|
  {
    && |artifacts| <= |plan| && |artifacts| <= |draws|
    && forall i | 0 <= i < |artifacts| :: StatedAt(people, plan, draws, artifacts, i)
  }

  lemma StillStated(people: seq<Person>, plan: seq<CorpusPlan.Kind>, draws: seq<Draw>, artifacts: seq<Artifact>, a: Artifact, i: nat)
    requires forall d <- draws :: d.person < |people|
    requires i < |artifacts| < |plan| && |artifacts| < |draws| && StatedAt(people, plan, draws, artifacts, i)
    ensures StatedAt(people, plan, draws, artifacts + [a], i)
  {
    assert (artifacts + [a])[..i] == artifacts[..i];
  }

  lemma LastStated(people: seq<Person>, plan: seq<CorpusPlan.Kind>, draws: seq<Draw>, artifacts: seq<Artifact>, a: Artifact)
    requires forall d <- draws :: d.person < |people|
    requires |artifacts| < |plan| && |artifacts| < |draws|
    requires States(people, Eligible(people, AllFacts(artifacts)), plan[|artifacts|], draws[|artifacts|], a.facts)
    ensures StatedAt(people, plan, draws, artifacts + [a], |artifacts|)
  {
    assert (artifacts + [a])[..|artifacts|] == artifacts;
  }

  lemma OneMoreStated(people: seq<Person>, plan: seq<CorpusPlan.Kind>, draws: seq<Draw>, artifacts: seq<Artifact>, a: Artifact)
    requires forall d <- draws :: d.person < |people|
    requires AllStated(people, plan, draws, artifacts) && |artifacts| < |plan| && |artifacts| < |draws|
    requires States(people, Eligible(people, AllFacts(artifacts)), plan[|artifacts|], draws[|artifacts|], a.facts)
    ensures AllStated(people, plan, draws, artifacts + [a])
  {
    LastStated(people, plan, draws, artifacts, a);
    forall i | 0 <= i < |artifacts| ensures StatedAt(people, plan, draws, artifacts + [a], i) {
      StillStated(people, plan, draws, artifacts, a, i);
    }
  }

  // The facts stated so far are those of the artifacts, built and numbered as they came.
  ghost predicate Logged(people: seq<Person>, factId: (nat, string, string, string) -> string, log: seq<Fact>,
                         artifacts: seq<Artifact>)
  {
    && log == AllFacts(artifacts) && AllBuilt(people, log)
    && (forall i | 0 <= i < |artifacts| :: artifacts[i].id == ArtId(i))
    && forall f <- log :: exists i: nat :: f.id == factId(i, f.subject, f.predicateName, f.obj)
  }

  lemma OneMoreLogged(people: seq<Person>, factId: (nat, string, string, string) -> string, log: seq<Fact>,
                      artifacts: seq<Artifact>, a: Artifact)
    requires Logged(people, factId, log, artifacts) && a.id == ArtId(|artifacts|)
    requires Written(people, factId, |artifacts|, a.facts)
    ensures Logged(people, factId, log + a.facts, artifacts + [a])
  {
    AllFactsAppend(artifacts, a);
    forall f | f in log + a.facts ensures exists i: nat :: f.id == factId(i, f.subject, f.predicateName, f.obj) {
      if f in a.facts {
        assert f.id == factId(|artifacts|, f.subject, f.predicateName, f.obj);
      } else {
        assert f in log;
      }
    }
  }

  method BuildAll(g: GenState, plan: seq<CorpusPlan.Kind>, draws: seq<Draw>) returns (artifacts: seq<Artifact>)
    requires g.Valid() && g.log == [] && g.moves != [] && forall m <- g.moves :: m != ""
    requires |draws| == |plan| && forall d <- draws :: d.person < |g.people|
    modifies g
    ensures g.Valid() && |artifacts| == |plan|
    ensures Logged(g.people, g.factId, g.log, artifacts)
    ensures AllStated(g.people, plan, draws, artifacts)
  {
    artifacts := [];
    for i := 0 to |plan|
      invariant g.Valid() && |artifacts| == i
      invariant Logged(g.people, g.factId, g.log, artifacts)
      invariant AllStated(g.people, plan, draws, artifacts)
    {
      ghost var log := g.log;
      var a := Build(g, plan[i], i, draws[i]);
      OneMoreLogged(g.people, g.factId, log, artifacts, a);
      OneMoreStated(g.people, plan, draws, artifacts, a);
      artifacts := artifacts + [a];
    }
  }

  // ------------------------------------------------------------------
  // Queries
  // ------------------------------------------------------------------

  ghost function Ids(log: seq<Fact>): set<string> {
    set f | f in log :: f.id
  }

  lemma CapKeeps(ids: seq<string>)
    ensures Elems(CapExpected(ids)) <= Elems(ids) && |CapExpected(ids)| <= EXPECTED_SET_CAP
  {}

  // What a query should be answered with, from the facts stated.
  ghost predicate Answers(people: seq<Person>, log: seq<Fact>, ask: Ask, ids: seq<string>)
    requires ask.AboutPerson? ==> ask.person < |people|
  {
    match ask
    case AboutPerson(person, names) => ids == Listing(PersonIds(log, people[person].slug, Elems(names), true))
    case AboutProject(project, name) => ids == Listing(ProjectIds(log, project, {name}))
    case AboutAny(project, wanted) => FirstTwenty(ids, Listing(ProjectIds(log, project, wanted)))
    case Hop(company, choice) =>
      var found := ProjectsWithChampionAt(log, company);
      if found == {} || Chosen(found, choice) == "" then ids == Listing(LeadIds(log, company))
      else FirstTwenty(ids, Listing(HopIds(log, Chosen(found, choice), company)))
    case OutOfScope => ids == []
  }

  // Every query answered, and with ids of facts stated.
  ghost predicate AllAnswered(people: seq<Person>, log: seq<Fact>, asks: seq<Ask>, queries: seq<seq<string>>)
    requires forall ask <- asks :: ask.AboutPerson? ==> ask.person < |people|
  {
    && |queries| <= |asks| && (forall q <- queries :: Elems(q) <= Ids(log))
    && forall i | 0 <= i < |queries| :: Answers(people, log, asks[i], queries[i])
  }

  lemma OneMoreAnswered(people: seq<Person>, log: seq<Fact>, asks: seq<Ask>, queries: seq<seq<string>>, ids: seq<string>)
    requires forall ask <- asks :: ask.AboutPerson? ==> ask.person < |people|
    requires AllAnswered(people, log, asks, queries) && |queries| < |asks|
    requires Elems(ids) <= Ids(log) && Answers(people, log, asks[|queries|], ids)
    ensures AllAnswered(people, log, asks, queries + [ids])
  {
    var all := queries + [ids];
    forall i | 0 <= i < |all| ensures Answers(people, log, asks[i], all[i]) {
      assert i < |queries| ==> all[i] == queries[i];
    }
    forall q | q in all ensures Elems(q) <= Ids(log) {
      assert q in queries || q == ids;
    }
  }

  method Answer(g: GenState, ask: Ask) returns (ids: seq<string>)
    requires g.Valid()
    requires ask.AboutPerson? ==> ask.person < |g.people|
    requires ask.AboutProject? ==> '|' !in ask.name
    ensures Elems(ids) <= Ids(g.log)
    ensures Answers(g.people, g.log, ask, ids)
  {
    match ask {
      case AboutPerson(person, names) =>
        ids := g.ExpectedForPerson(g.people[person].slug, names, true);
      case AboutProject(project, name) =>
        ids := g.ExpectedForProjectPredicate(project, name);
      case AboutAny(project, names) =>
        ids := g.ExpectedForProjectAnyPredicate(project, names);
        CapKeeps(Listing(ProjectIds(g.log, project, names)));
      case Hop(company, choice) =>
        var project := g.PickProjectForMultiHop(company, choice);
        if project != "" {
          ids := g.ExpectedMultiHop(company, project);
          CapKeeps(Listing(HopIds(g.log, project, company)));
        } else {
          ids := g.ExpectedLeadsAtCompany(company);
        }
      case OutOfScope =>
        ids := [];
    }
  }

  // ------------------------------------------------------------------
  // Validation
  // ------------------------------------------------------------------

  // Reports nothing exactly when artifact ids differ, no fact id is empty, and queries name
  // only facts of the corpus.
  method Validate(artifacts: seq<Artifact>, queries: seq<seq<string>>) returns (problem: Option<Problem>)
    ensures problem.None? <==>
      && (forall i, j | 0 <= i < j < |artifacts| :: artifacts[i].id != artifacts[j].id)
      && "" !in Ids(AllFacts(artifacts))
      && (forall q <- queries :: Elems(q) <= Ids(AllFacts(artifacts)))
  {
    var problem1, seenFact := ValidateArtifacts(artifacts);
    if problem1.Some? { return problem1; }
    problem := ValidateQueries(queries, seenFact);
  }

  method ValidateArtifacts(artifacts: seq<Artifact>) returns (problem: Option<Problem>, seenFact: set<string>)
    ensures problem.None? <==>
      && (forall i, j | 0 <= i < j < |artifacts| :: artifacts[i].id != artifacts[j].id)
      && "" !in Ids(AllFacts(artifacts))
    ensures problem.None? ==> seenFact == Ids(AllFacts(artifacts))
  {
    var seenArt: set<string> := {};
    seenFact := {};
    for i := 0 to |artifacts|
      invariant forall x :: x in seenArt <==> exists j | 0 <= j < i :: artifacts[j].id == x
      invariant forall j, k | 0 <= j < k < i :: artifacts[j].id != artifacts[k].id
      invariant seenFact == Ids(AllFacts(artifacts[..i])) && "" !in seenFact
    {
      var a := artifacts[i];
      if a.id in seenArt { return Some(DuplicateArtifact(a.id)), seenFact; }
      seenArt := seenArt + {a.id};
      IdsNext(artifacts, i);
      ghost var before := seenFact;
      for n := 0 to |a.facts|
        invariant seenFact == before + Ids(a.facts[..n]) && "" !in seenFact
      {
        if a.facts[n].id == "" {
          IdsWithin(artifacts, i);
          assert a.facts[n] in a.facts && "" in Ids(a.facts);
          return Some(EmptyFactId(a.id)), seenFact;
        }
        assert a.facts[..n + 1] == a.facts[..n] + [a.facts[n]];
        IdsUnion(a.facts[..n], [a.facts[n]]);
        assert Ids([a.facts[n]]) == {a.facts[n].id};
        seenFact := seenFact + {a.facts[n].id};
      }
      assert a.facts[..|a.facts|] == a.facts;
    }
    assert artifacts[..|artifacts|] == artifacts;
    problem := None;
  }

  method ValidateQueries(queries: seq<seq<string>>, seenFact: set<string>) returns (problem: Option<Problem>)
    ensures problem.None? <==> forall q <- queries :: Elems(q) <= seenFact
  {
    for i := 0 to |queries|
      invariant forall j | 0 <= j < i :: Elems(queries[j]) <= seenFact
    {
      for n := 0 to |queries[i]|
        invariant forall k | 0 <= k < n :: queries[i][k] in seenFact
      {
        if queries[i][n] !in seenFact {
          assert queries[i] in queries && queries[i][n] in Elems(queries[i]);
          return Some(MissingFact(i, queries[i][n]));
        }
      }
    }
    problem := None;
  }

  lemma IdsUnion(a: seq<Fact>, b: seq<Fact>)
    ensures Ids(a + b) == Ids(a) + Ids(b)
  {}

  // The ids of one artifact more.
  lemma IdsNext(artifacts: seq<Artifact>, i: nat)
    requires i < |artifacts|
    ensures Ids(AllFacts(artifacts[..i + 1])) == Ids(AllFacts(artifacts[..i])) + Ids(artifacts[i].facts)
  {
    var before, a := artifacts[..i], artifacts[i];
    assert artifacts[..i + 1] == before + [a];
    AllFactsAppend(before, a);
    IdsUnion(AllFacts(before), a.facts);
  }

  lemma IdsWithin(artifacts: seq<Artifact>, i: nat)
    requires i < |artifacts|
    ensures Ids(artifacts[i].facts) <= Ids(AllFacts(artifacts))
  {
    IdsNext(artifacts, i);
    FactsPrefix(artifacts, i + 1);
    var all, some := AllFacts(artifacts), AllFacts(artifacts[..i + 1]);
    forall f | f in some ensures f in all {
      var j :| 0 <= j < |some| && some[j] == f;
      assert all[j] == f;
    }
  }

  lemma {:induction false} FactsPrefix(artifacts: seq<Artifact>, n: nat)
    requires n <= |artifacts|
    ensures AllFacts(artifacts[..n]) <= AllFacts(artifacts)
    decreases |artifacts| - n
  {
    if n < |artifacts| {
      FactsPrefix(artifacts, n + 1);
      assert artifacts[..n + 1][..n] == artifacts[..n];
    } else {
      assert artifacts[..n] == artifacts;
    }
  }

  // ------------------------------------------------------------------
  // A run
  // ------------------------------------------------------------------

  // A generated corpus always validates, as long as fact ids are never empty.
  method Run(people: seq<Person>, moves: seq<string>, factId: (nat, string, string, string) -> string,
             plan: seq<CorpusPlan.Kind>, draws: seq<Draw>, asks: seq<Ask>)
    returns (artifacts: seq<Artifact>, queries: seq<seq<string>>, problem: Option<Problem>)
    requires Roster(people) && moves != [] && forall m <- moves :: m != ""
    requires |draws| == |plan| && forall d <- draws :: d.person < |people|
    requires forall ask <- asks ::
      (ask.AboutPerson? ==> ask.person < |people|) && (ask.AboutProject? ==> '|' !in ask.name)
    ensures |artifacts| == |plan| && |queries| == |asks|
    ensures AllStated(people, plan, draws, artifacts)
    ensures AllAnswered(people, AllFacts(artifacts), asks, queries)
    ensures (forall i, s, p, o :: factId(i, s, p, o) != "") ==> problem == None
  {
    var g := new GenState(people, moves, factId);
    artifacts := BuildAll(g, plan, draws);
    queries := [];
    for i := 0 to |asks|
      invariant g.Valid() && g.people == people && g.log == AllFacts(artifacts) && |queries| == i
      invariant AllAnswered(people, AllFacts(artifacts), asks, queries)
    {
      var ids := Answer(g, asks[i]);
      OneMoreAnswered(people, AllFacts(artifacts), asks, queries, ids);
      queries := queries + [ids];
    }
    forall i, j | 0 <= i < j < |artifacts| ensures artifacts[i].id != artifacts[j].id {
      if artifacts[i].id == artifacts[j].id { ArtIdsDiffer(i, j); }
    }
    problem := Validate(artifacts, queries);
  }

  // ------------------------------------------------------------------
  // Recorded company and current role
  // ------------------------------------------------------------------

  // A later fact that sends the subject back to the company of the roster.
  ghost predicate SentHome(log: seq<Fact>, subject: string, i: nat) {
    exists j | i < j < |log| :: log[j].subject == subject && log[j].predicateName in {"leads", "champions"}
  }

  lemma {:induction false} EmployerAfterRole(people: seq<Person>, log: seq<Fact>, i: nat)
    requires AllBuilt(people, log)
    requires Current(log, i) && log[i].predicateName == "role_at"
    ensures Employer(log, log[i].subject) ==
      if SentHome(log, log[i].subject, i) then Home(people, log[i].subject) else log[i].employer.value
    decreases |log|
  {
    var last := |log| - 1;
    var subject, init := log[i].subject, log[..last];
    if i < last {
      assert KeyOf(log[last]) != KeyOf(log[i]);
      assert init[i] == log[i];
      assert Current(init, i) by {
        forall j | i < j < |init| ensures KeyOf(init[j]) != KeyOf(init[i]) {
          assert init[j] == log[j] && KeyOf(log[j]) != KeyOf(log[i]);
        }
      }
      EmployerAfterRole(people, init, i);
      if log[last].subject == subject && log[last].predicateName != "involved_in" {
        assert log[last].predicateName in {"leads", "champions"};
        assert SentHome(log, subject, i);
      } else {
        assert SentHome(init, subject, i) ==> SentHome(log, subject, i) by {
          if SentHome(init, subject, i) {
            var j :| i < j < |init| && init[j].subject == subject && init[j].predicateName in {"leads", "champions"};
            assert log[j] == init[j];
          }
        }
        assert SentHome(log, subject, i) ==> SentHome(init, subject, i) by {
          if SentHome(log, subject, i) {
            var j :| i < j < |log| && log[j].subject == subject && log[j].predicateName in {"leads", "champions"};
            assert j < last && init[j] == log[j];
          }
        }
      }
    }
  }

  // The company a query joins on is the one the person's current role names, exactly when
  // no later project fact sent them back to a different home company.
  lemma JoinMatchesRoleExactly(people: seq<Person>, log: seq<Fact>, i: nat)
    requires AllBuilt(people, log)
    requires Current(log, i) && log[i].predicateName == "role_at"
    ensures log[i].obj == "company:" + Employer(log, log[i].subject) <==>
      !SentHome(log, log[i].subject, i) || log[i].employer.value == Home(people, log[i].subject)
  {
    EmployerAfterRole(people, log, i);
    var a, b := log[i].employer.value, Employer(log, log[i].subject);
    assert ("company:" + a)[8..] == a && ("company:" + b)[8..] == b;
  }

  const ANA := Person("ana", "acme")
  const ANA_MOVES := Fact("f1", "ana", "role_at", "company:globex", Some("globex"), [], [])
  const ANA_CHAMPIONS := Fact("f2", "ana", "champions", "project:p", Some("acme"), [], [])

  // Ana of Acme moves to Globex and then champions a project: she counts as Acme's
  // champion, though the role listed beside that names Globex.
  lemma MovedChampionJoinsOldCompany()
    ensures AllBuilt([ANA], [ANA_MOVES, ANA_CHAMPIONS])
    ensures HopIds([ANA_MOVES, ANA_CHAMPIONS], "p", "acme") == {"f1", "f2"}
  {
    var log := [ANA_MOVES, ANA_CHAMPIONS];
    assert Home([ANA], "ana") == "acme";
    assert "company:" + "globex" == "company:globex" && "project:" + "p" == "project:p";
    assert Employer(log, "ana") == "acme";
    assert ChampionAt(log, ANA_CHAMPIONS, "p", "acme");
    assert KeyOf(log[1]) != KeyOf(log[0]) by {
      KeysDifferNames("ana", "champions", "role_at");
    }
    assert Current(log, 0) && KeyOf(log[0]) == FactKey("ana", "role_at");
    assert log[0] in log && log[1] in log;
    assert "f1" in HopIds(log, "p", "acme") by {
      assert ChampionAt(log, log[1], "p", "acme") && log[0].id == "f1";
    }
    forall x | x in HopIds(log, "p", "acme") ensures x == "f1" || x == "f2" {}
  }

  lemma KeysDifferNames(subject: string, p: string, q: string)
    requires p != q && '|' !in subject
    ensures FactKey(subject, p) != FactKey(subject, q)
  {
    if FactKey(subject, p) == FactKey(subject, q) { KeysDiffer(subject, p, subject, q); }
  }
}
