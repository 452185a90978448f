/** Exactly when a recorded run replays as it was recorded: when every index the model
    chose is found again by the role and label recorded for it. */
module ComputerUseExact {
  import opened Wrappers
  import opened ComputerUse

  // ------------------------------------------------------------------
  // Reading the trace one event at a time
  // ------------------------------------------------------------------

  lemma AgainNext(lex: Lexicon, t: Trace, e: Event)
    ensures FoundAgain(lex, t + [e]) <==>
      FoundAgain(lex, t) && (e.Did? && e.command.Click? && ByModel(t) ==> Again(lex, Current(t), e.command.i))
  {
    var u := t + [e];
    assert u[..|t|] == t;
    forall k | 0 <= k < |t| ensures u[k] == t[k] && u[..k] == t[..k] {}
  }

  lemma CurrentNext(t: Trace, e: Event)
    ensures Current(t + [e]) == if e.Snapped? then e.es else Current(t)
    ensures ByModel(t + [e]) == (e.ModelCalled? || (!e.Snapped? && ByModel(t)))
  {
    assert (t + [e])[..|t|] == t;
  }

  lemma {:induction false} CommandsPrefix(t: Trace, u: Trace)
    requires t <= u
    ensures Commands(t) <= Commands(u)
    decreases |u|
  {
    if t != u {
      assert u == u[..|u| - 1] + [u[|u| - 1]];
      CommandsPrefix(t, u[..|u| - 1]);
    } else {
    }
  }

  // ------------------------------------------------------------------
  // The step that loses a target
  // ------------------------------------------------------------------

  // From s the index i was clicked and recorded, although its record does not find it
  // again; `last` is where the run ended.
  ghost predicate Lost<P>(lex: Lexicon, w: World<P>, s: State<P>, es: seq<Element>, i: int, text: Option<string>,
                          last: State<P>)
  {
    && w.view(s.page) == Elements(es) && !Again(lex, es, i)
    && s.steps + [Target(es, i, text)] <= last.steps
    && Commands(s.trace) + [Click(i)] <= Commands(last.trace)
    && s.trace + [Snapped(es)] <= last.trace
  }

  lemma LostLater<P>(lex: Lexicon, w: World<P>, s: State<P>, es: seq<Element>, i: int, text: Option<string>,
                     last: State<P>, later: State<P>)
    requires Lost(lex, w, s, es, i, text, last) && last.trace <= later.trace && last.steps <= later.steps
    ensures Lost(lex, w, s, es, i, text, later)
  {
    CommandsPrefix(last.trace, later.trace);
  }

  lemma GateAgain<P>(lex: Lexicon, w: World<P>, s: State<P>, needed: bool, name: string)
    ensures var s1 := Gate(w, s, needed, name).0;
      && Current(s1.trace) == Current(s.trace) && (FoundAgain(lex, s1.trace) <==> FoundAgain(lex, s.trace))
      && ByModel(s1.trace) == ByModel(s.trace) && Commands(s1.trace) == Commands(s.trace)
      && s1.page == s.page && s1.steps == s.steps && s.trace <= s1.trace
  {
    var e := Asked(name, w.approve(s.trace, name));
    AgainNext(lex, s.trace, e);
    CurrentNext(s.trace, e);
    CommandsLog(s.trace, e);
  }

  lemma PerformClicks<P>(w: World<P>, s: State<P>, i: int, text: Option<string>)
    ensures Commands(s.trace) + [Click(i)] <= Commands(Perform(w, s, i, text).trace)
    ensures Perform(w, s, i, text).steps == s.steps && s.trace <= Perform(w, s, i, text).trace
  {
    CommandsLog(s.trace, Did(Click(i)));
    if text.Some? { CommandsLog(s.trace + [Did(Click(i))], Did(TypeText(i, text.value))); }
  }

  // Performing keeps targets found again exactly when this one is.
  lemma PerformAgain<P>(lex: Lexicon, w: World<P>, s: State<P>, i: int, text: Option<string>)
    requires FoundAgain(lex, s.trace)
    ensures var s1 := Perform(w, s, i, text);
      FoundAgain(lex, s1.trace) <==> (ByModel(s.trace) ==> Again(lex, Current(s.trace), i))
  {
    AgainNext(lex, s.trace, Did(Click(i)));
    if text.Some? { AgainNext(lex, s.trace + [Did(Click(i))], Did(TypeText(i, text.value))); }
  }

  // A snapshot and a model call are no clicks.
  lemma SnapAgain<P>(lex: Lexicon, s: State<P>, es: seq<Element>)
    requires FoundAgain(lex, s.trace)
    ensures var s1 := Log(s, Snapped(es));
      && FoundAgain(lex, s1.trace) && Current(s1.trace) == es && !ByModel(s1.trace)
    ensures var s2 := Log(Log(s, Snapped(es)), ModelCalled);
      && FoundAgain(lex, s2.trace) && Current(s2.trace) == es && ByModel(s2.trace)
      && Commands(s2.trace) == Commands(s.trace) && s2.steps == s.steps
  {
    var s1 := Log(s, Snapped(es));
    AgainNext(lex, s.trace, Snapped(es));
    CurrentNext(s.trace, Snapped(es));
    CommandsLog(s.trace, Snapped(es));
    AgainNext(lex, s1.trace, ModelCalled);
    CurrentNext(s1.trace, ModelCalled);
    CommandsLog(s1.trace, ModelCalled);
  }

  lemma ChosenClicks<P>(lex: Lexicon, w: World<P>, s: State<P>, es: seq<Element>, i: int, text: Option<string>)
    requires FoundAgain(lex, s.trace) && Current(s.trace) == es && ByModel(s.trace)
    requires !FoundAgain(lex, ChosenStep(lex, w, s, es, i, text).trace)
    ensures var s1 := ChosenStep(lex, w, s, es, i, text);
      && !Again(lex, es, i) && s1.steps == s.steps + [Target(es, i, text)]
      && Commands(s.trace) + [Click(i)] <= Commands(s1.trace) && s.trace <= s1.trace
  {
    var name := LabelAt(es, i);
    GateAgain(lex, w, s, lex.sendLike(name), name);
    var (s2, go) := Gate(w, s, lex.sendLike(name), name);
    if go {
      PerformAgain(lex, w, s2, i, text);
      PerformClicks(w, s2, i, text);
    }
  }

  lemma ChosenLost<P>(lex: Lexicon, w: World<P>, s: State<P>, es: seq<Element>, i: int, text: Option<string>)
    requires w.view(s.page) == Elements(es) && FoundAgain(lex, s.trace)
    requires !FoundAgain(lex, ChosenStep(lex, w, Log(Log(s, Snapped(es)), ModelCalled), es, i, text).trace)
    ensures Lost(lex, w, s, es, i, text, ChosenStep(lex, w, Log(Log(s, Snapped(es)), ModelCalled), es, i, text))
  {
    SnapAgain(lex, s, es);
    ChosenClicks(lex, w, Log(Log(s, Snapped(es)), ModelCalled), es, i, text);
  }

  lemma KeyAgain<P>(lex: Lexicon, w: World<P>, s: State<P>, key: string, r: Recorded)
    requires FoundAgain(lex, s.trace)
    ensures FoundAgain(lex, KeyStep(lex, w, s, key, r).trace)
  {
    if SafeKey(lex, key) {
      var needed := SubmitKey(lex, key) && s.typed;
      GateAgain(lex, w, s, needed, "Press " + key);
      AgainNext(lex, Gate(w, s, needed, "Press " + key).0.trace, Did(PressKey(key)));
    }
  }

  lemma LiveLost<P>(lex: Lexicon, w: World<P>, s: State<P>) returns (es: seq<Element>, i: int, text: Option<string>)
    requires FoundAgain(lex, s.trace) && !FoundAgain(lex, LiveStep(lex, w, s).0.trace)
    ensures Lost(lex, w, s, es, i, text, LiveStep(lex, w, s).0)
  {
    es, i, text := [], 0, None;
    if w.view(s.page).Elements? {
      es := w.view(s.page).es;
      var s1 := Log(Log(s, Snapped(es)), ModelCalled);
      SnapAgain(lex, s, es);
      match w.plan(s1.trace) {
        case ClickPlan(k) =>
          i := k;
          ChosenLost(lex, w, s, es, i, text);
        case TypePlan(k, words) =>
          i, text := k, Some(words);
          ChosenLost(lex, w, s, es, i, text);
        case KeyPlan(key) => KeyAgain(lex, w, s1, key, KeyRecord(key));
        case _ =>
      }
    }
  }

  // A matched element was not chosen by the model.
  lemma MatchedAgain<P>(lex: Lexicon, w: World<P>, s: State<P>, es: seq<Element>, el: Element, r: Recorded)
    requires FoundAgain(lex, s.trace)
    ensures FoundAgain(lex, MatchedStep(lex, w, Log(s, Snapped(es)), el, r).trace)
  {
    var s1 := Log(s, Snapped(es));
    SnapAgain(lex, s, es);
    var recorded := OrEmpty(r.name);
    var shown := if lex.sendLike(el.name) then el.name else recorded;
    var needed := lex.sendLike(recorded) || lex.sendLike(el.name);
    GateAgain(lex, w, s1, needed, shown);
    PerformAgain(lex, w, Gate(w, s1, needed, shown).0, el.i, if IsAction(r, "type") then Some(OrEmpty(r.text)) else None);
  }

  lemma ReplayLost<P>(lex: Lexicon, w: World<P>, s: State<P>, r: Recorded)
    returns (es: seq<Element>, i: int, text: Option<string>)
    requires FoundAgain(lex, s.trace) && !FoundAgain(lex, ReplayStep(lex, w, s, r).0.trace)
    ensures Lost(lex, w, s, es, i, text, ReplayStep(lex, w, s, r).0)
  {
    es, i, text := [], 0, None;
    if IsAction(r, "press_key") {
      KeyAgain(lex, w, s, OrEmpty(r.key), r);
    } else if (IsAction(r, "click") || IsAction(r, "type")) && w.view(s.page).Elements? {
      es := w.view(s.page).es;
      var found := FindElement(lex, es, r.role, r.name);
      if found.Some? {
        MatchedAgain(lex, w, s, es, found.value, r);
      } else {
        i, text := HealedLost(lex, w, s, es, r);
      }
    }
  }

  lemma HealedLost<P>(lex: Lexicon, w: World<P>, s: State<P>, es: seq<Element>, r: Recorded)
    returns (i: int, text: Option<string>)
    requires w.view(s.page) == Elements(es) && FoundAgain(lex, s.trace)
    ensures var s1 := HealedStep(lex, w, Log(s, Snapped(es)), es, r).0;
      FoundAgain(lex, s1.trace) || Lost(lex, w, s, es, i, text, s1)
  {
    i, text := 0, None;
    SnapAgain(lex, s, es);
    var s1 := Log(Log(s, Snapped(es)), ModelCalled);
    match w.heal(s1.trace, r) {
      case ClickPlan(k) => i := k;
      case TypePlan(k, words) => i, text := k, Some(words);
      case _ => return;
    }
    if !FoundAgain(lex, ChosenStep(lex, w, s1, es, i, text).trace) { ChosenLost(lex, w, s, es, i, text); }
  }

  // ------------------------------------------------------------------
  // Replaying past it
  // ------------------------------------------------------------------

  lemma {:induction false} ReplayAppend<P>(lex: Lexicon, w: World<P>, s: State<P>, a: seq<Recorded>, b: seq<Recorded>)
    requires Replay(lex, w, s, a).1 == Finished
    ensures Replay(lex, w, s, a + b) == Replay(lex, w, Replay(lex, w, s, a).0, b)
    decreases |a|
  {
    if a == [] {
      assert a + b == b;
    } else {
      assert (a + b)[0] == a[0] && (a + b)[1..] == a[1..] + b;
      ReplayAppend(lex, w, ReplayStep(lex, w, s, a[0]).0, a[1..], b);
    }
  }

  // Replaying the lost step calls the model, or clicks another index.
  lemma LostStep<P>(lex: Lexicon, v: World<P>, t: State<P>, es: seq<Element>, i: int, text: Option<string>)
    requires GrantsAll(v) && v.view(t.page) == Elements(es) && !Again(lex, es, i)
    ensures var r := Target(es, i, text);
      var el, u := FindElement(lex, es, r.role, r.name), ReplayStep(lex, v, t, r).0;
      && t.trace <= u.trace
      && (el.None? ==> ModelCalled in u.trace)
      && (el.Some? ==> el.value.i != i && Commands(t.trace) + [Click(el.value.i)] <= Commands(u.trace))
  {
    var r := Target(es, i, text);
    var el := FindElement(lex, es, r.role, r.name);
    assert r.role == Target(es, i, None).role && r.name == Target(es, i, None).name;
    ReplayGrows(lex, v, t, r);
    if el.Some? {
      MatchedClicks(lex, v, t, es, el.value, r);
    } else {
      var s1 := Log(Log(t, Snapped(es)), ModelCalled);
      HealedGrows(lex, v, Log(t, Snapped(es)), es, r);
      assert s1.trace[|t.trace| + 1] == ModelCalled;
      assert ReplayStep(lex, v, t, r).0.trace[|t.trace| + 1] == ModelCalled;
    }
  }

  lemma MatchedGoes<P>(lex: Lexicon, v: World<P>, t: State<P>, el: Element, r: Recorded)
    returns (needed: bool, shown: string, text: Option<string>)
    requires GrantsAll(v)
    ensures MatchedStep(lex, v, t, el, r) == Record(Perform(v, Gate(v, t, needed, shown).0, el.i, text), r)
  {
    var recorded := OrEmpty(r.name);
    shown := if lex.sendLike(el.name) then el.name else recorded;
    needed := lex.sendLike(recorded) || lex.sendLike(el.name);
    text := if IsAction(r, "type") then Some(OrEmpty(r.text)) else None;
  }

  lemma MatchedClicks<P>(lex: Lexicon, v: World<P>, t: State<P>, es: seq<Element>, el: Element, r: Recorded)
    requires GrantsAll(v)
    ensures Commands(t.trace) + [Click(el.i)] <= Commands(MatchedStep(lex, v, Log(t, Snapped(es)), el, r).trace)
  {
    CommandsLog(t.trace, Snapped(es));
    var needed, shown, text := MatchedGoes(lex, v, Log(t, Snapped(es)), el, r);
    GateAgain(lex, v, Log(t, Snapped(es)), needed, shown);
    PerformClicks(v, Gate(v, Log(t, Snapped(es)), needed, shown).0, el.i, text);
  }

  // The replay's step at the lost target, and the whole replay after it.
  lemma LostReplay<P(!new)>(lex: Lexicon, w: World<P>, v: World<P>, page: P, s: State<P>, es: seq<Element>, i: int,
                            text: Option<string>, last: State<P>)
    returns (t: State<P>, u: State<P>)
    requires SameWindow(w, v) && Reproduces(lex, v, page, s) && Lost(lex, w, s, es, i, text, last)
    ensures Retraces(t, s) && v.view(t.page) == Elements(es)
    ensures u == ReplayStep(lex, v, t, Target(es, i, text)).0
    ensures u.trace <= Replay(lex, v, Start(page), last.steps).0.trace
  {
    var n, r := |s.steps|, Target(es, i, text);
    var rest := last.steps[n + 1..];
    assert last.steps == s.steps + ([r] + rest);
    ReplayAppend(lex, v, Start(page), s.steps, [r] + rest);
    t := Replay(lex, v, Start(page), s.steps).0;
    u := ReplayStep(lex, v, t, r).0;
    assert ([r] + rest)[1..] == rest;
    if ReplayStep(lex, v, t, r).1.Going? { ReplayTrace(lex, v, u, rest); }
  }

  // A replay past a lost target calls the model or issues other commands; it calls the
  // model when nothing at all is found.
  lemma LostDiverges<P(!new)>(lex: Lexicon, w: World<P>, v: World<P>, page: P, s: State<P>, es: seq<Element>, i: int,
                              text: Option<string>, last: State<P>)
    requires SameWindow(w, v) && GrantsAll(v) && Reproduces(lex, v, page, s) && Lost(lex, w, s, es, i, text, last)
    ensures var t, r := Replay(lex, v, Start(page), last.steps).0, Target(es, i, text);
      && (NoModel(t.trace) ==> Commands(t.trace) != Commands(last.trace))
      && (FindElement(lex, es, r.role, r.name).None? ==> !NoModel(t.trace))
  {
    var end := Replay(lex, v, Start(page), last.steps).0;
    var t, u := LostReplay(lex, w, v, page, s, es, i, text, last);
    LostStep(lex, v, t, es, i, text);
    CommandsPrefix(u.trace, end.trace);
    var n := |Commands(s.trace)|;
    assert Commands(last.trace)[n] == Click(i);
    if NoModel(end.trace) {
      assert ModelCalled !in u.trace;
    }
  }

  // ------------------------------------------------------------------
  // The round trip, exactly
  // ------------------------------------------------------------------

  lemma {:induction false} LiveSteps<P>(lex: Lexicon, w: World<P>, s: State<P>, turns: nat)
    ensures s.steps <= Live(lex, w, s, turns).0.steps
    decreases turns
  {
    if turns > 0 {
      LiveStepSteps(lex, w, s);
      var (s1, end) := LiveStep(lex, w, s);
      if end.Going? { LiveSteps(lex, w, s1, turns - 1); }
    }
  }

  lemma LiveStepSteps<P>(lex: Lexicon, w: World<P>, s: State<P>)
    ensures s.steps <= LiveStep(lex, w, s).0.steps
  {}

  lemma ReplayStepSteps<P>(lex: Lexicon, w: World<P>, s: State<P>, r: Recorded)
    ensures s.steps <= ReplayStep(lex, w, s, r).0.steps
  {}

  lemma {:induction false} ReplaySteps<P>(lex: Lexicon, w: World<P>, s: State<P>, steps: seq<Recorded>)
    ensures s.steps <= Replay(lex, w, s, steps).0.steps
    decreases |steps|
  {
    if steps != [] {
      ReplayStepSteps(lex, w, s, steps[0]);
      var (s1, end) := ReplayStep(lex, w, s, steps[0]);
      if end.Going? { ReplaySteps(lex, w, s1, steps[1..]); }
    }
  }

  // A run goes through the state after its first turn.
  lemma LiveOnward<P>(lex: Lexicon, w: World<P>, s: State<P>, turns: nat)
    requires turns > 0
    ensures var (s1, end) := LiveStep(lex, w, s);
      var last := Live(lex, w, s, turns).0;
      && s1.trace <= last.trace && s1.steps <= last.steps
      && last == if end.Going? then Live(lex, w, s1, turns - 1).0 else s1
  {
    var (s1, end) := LiveStep(lex, w, s);
    if end.Going? {
      LiveTrace(lex, w, s1, turns - 1);
      LiveSteps(lex, w, s1, turns - 1);
    }
  }

  lemma ReplayOnward<P>(lex: Lexicon, w: World<P>, s: State<P>, steps: seq<Recorded>)
    requires steps != []
    ensures var (s1, end) := ReplayStep(lex, w, s, steps[0]);
      var last := Replay(lex, w, s, steps).0;
      && s1.trace <= last.trace && s1.steps <= last.steps
      && last == if end.Going? then Replay(lex, w, s1, steps[1..]).0 else s1
  {
    var (s1, end) := ReplayStep(lex, w, s, steps[0]);
    if end.Going? {
      ReplayTrace(lex, w, s1, steps[1..]);
      ReplaySteps(lex, w, s1, steps[1..]);
    }
  }

  // Where a run that did not find everything again first lost a target: up to there its
  // replay retraces it.
  ghost predicate FirstLost<P>(lex: Lexicon, w: World<P>, v: World<P>, page: P, last: State<P>,
                               s: State<P>, es: seq<Element>, i: int, text: Option<string>)
  {
    Reproduces(lex, v, page, s) && Lost(lex, w, s, es, i, text, last)
  }

  // A run that ends at `last` having lost a target, but not yet.
  ghost predicate Losing<P>(lex: Lexicon, w: World<P>, v: World<P>, page: P, s: State<P>, turns: nat, last: State<P>) {
    && Reproduces(lex, v, page, s) && FoundAgain(lex, s.trace)
    && last == Live(lex, w, s, turns).0 && !FoundAgain(lex, last.trace)
  }

  ghost predicate LosesNext<P>(lex: Lexicon, w: World<P>, v: World<P>, page: P, last: State<P>, s: State<P>) {
    exists es, i, text :: FirstLost(lex, w, v, page, last, s, es, i, text)
  }

  // The next turn of such a run: it loses the target there, or goes on so.
  lemma LosingTurn<P(!new)>(lex: Lexicon, w: World<P>, v: World<P>, page: P, s: State<P>, turns: nat, last: State<P>)
    returns (s1: State<P>)
    requires SameWindow(w, v) && GrantsAll(v) && Losing(lex, w, v, page, s, turns, last)
    ensures turns > 0
    ensures LosesNext(lex, w, v, page, last, s) || Losing(lex, w, v, page, s1, turns - 1, last)
  {
    assert turns > 0;
    LiveOnward(lex, w, s, turns);
    s1 := LiveStep(lex, w, s).0;
    if FoundAgain(lex, s1.trace) {
      LiveStepReproduces(lex, w, v, page, s);
      ReproducesSame(lex, v, page, LiveStep(lex, w, s).0, s1);
    } else {
      var es, i, text := LiveLost(lex, w, s);
      LostLater(lex, w, s, es, i, text, s1, last);
      assert FirstLost(lex, w, v, page, last, s, es, i, text);
    }
  }

  lemma {:induction false} LiveLoses<P(!new)>(
    lex: Lexicon, w: World<P>, v: World<P>, page: P, s: State<P>, turns: nat, last: State<P>) returns (q: State<P>)
    requires SameWindow(w, v) && GrantsAll(v) && Losing(lex, w, v, page, s, turns, last)
    ensures LosesNext(lex, w, v, page, last, q)
    decreases turns
  {
    var s1 := LosingTurn(lex, w, v, page, s, turns, last);
    if LosesNext(lex, w, v, page, last, s) {
      q := s;
    } else {
      q := LiveLoses(lex, w, v, page, s1, turns - 1, last);
    }
  }

  lemma {:induction false} ReplayLoses<P(!new)>(
    lex: Lexicon, w: World<P>, v: World<P>, page: P, s: State<P>, steps: seq<Recorded>, last: State<P>)
    returns (q: State<P>, es: seq<Element>, i: int, text: Option<string>)
    requires SameWindow(w, v) && GrantsAll(v) && Reproduces(lex, v, page, s) && FoundAgain(lex, s.trace)
    requires last == Replay(lex, w, s, steps).0 && !FoundAgain(lex, last.trace)
    ensures FirstLost(lex, w, v, page, last, q, es, i, text)
    decreases |steps|
  {
    assert steps != [];
    ReplayOnward(lex, w, s, steps);
    var s1 := ReplayStep(lex, w, s, steps[0]).0;
    if FoundAgain(lex, s1.trace) {
      ReplayStepReproduces(lex, w, v, page, s, steps[0]);
      ReproducesSame(lex, v, page, ReplayStep(lex, w, s, steps[0]).0, s1);
      q, es, i, text := ReplayLoses(lex, w, v, page, s1, steps[1..], last);
    } else {
      q := s;
      es, i, text := ReplayLost(lex, w, s, steps[0]);
      LostLater(lex, w, s, es, i, text, s1, last);
    }
  }

  // On the same window with approvals granted, the replay of what a live run recorded calls
  // no model and issues the live commands if and only if every index the run clicked is
  // found again by the role and label it had.
  lemma RoundTripExactly<P(!new)>(lex: Lexicon, live: World<P>, again: World<P>, page: P, turns: nat)
    requires SameWindow(live, again) && GrantsAll(again)
    ensures var s := Live(lex, live, Start(page), turns).0;
      var t := Replay(lex, again, Start(page), s.steps).0;
      NoModel(t.trace) && Commands(t.trace) == Commands(s.trace) <==> FoundAgain(lex, s.trace)
  {
    var s := Live(lex, live, Start(page), turns).0;
    if FoundAgain(lex, s.trace) {
      RecordReplayRoundTrip(lex, live, again, page, turns);
    } else {
      var q := LiveLoses(lex, live, again, page, Start(page), turns, s);
      var es, i, text :| FirstLost(lex, live, again, page, s, q, es, i, text);
      LostDiverges(lex, live, again, page, q, es, i, text, s);
    }
  }

  // A second replay of what a first one emitted, however that healed, never heals and
  // issues the same commands if and only if every index the healer chose is found again.
  lemma StableExactly<P(!new)>(lex: Lexicon, first: World<P>, second: World<P>, page: P, steps: seq<Recorded>)
    requires SameWindow(first, second) && GrantsAll(second)
    ensures var s := Replay(lex, first, Start(page), steps).0;
      var t := Replay(lex, second, Start(page), s.steps).0;
      NoModel(t.trace) && Commands(t.trace) == Commands(s.trace) <==> FoundAgain(lex, s.trace)
  {
    var s := Replay(lex, first, Start(page), steps).0;
    if FoundAgain(lex, s.trace) {
      ReplayStableAfterHealing(lex, first, second, page, steps);
    } else {
      var q, es, i, text := ReplayLoses(lex, first, second, page, Start(page), steps, s);
      LostDiverges(lex, first, second, page, q, es, i, text, s);
    }
  }

  // ------------------------------------------------------------------
  // Snapshots in which everything present is found again
  // ------------------------------------------------------------------

  // Stripped labels, and no two elements share a role and a label.
  ghost predicate Clean(lex: Lexicon, es: seq<Element>) {
    && (forall e <- es :: lex.strip(e.name) == e.name)
    && (forall a <- es, b <- es | a.role == b.role && a.name == b.name :: a == b)
  }

  // In a clean snapshot a recorded target is found again by role and label.
  lemma FindsTarget(lex: Lexicon, es: seq<Element>, i: int)
    requires Clean(lex, es) && ByIndex(es, i).Some?
    ensures var e := ByIndex(es, i).value;
      e.i == i && FindElement(lex, es, Some(e.role), Some(e.name)) == Some(e)
  {
    FirstHolds(es, (x: Element) => x.i == i);
    var e := ByIndex(es, i).value;
    FirstHolds(es, (x: Element) => Some(x.role) == Some(e.role) && x.name == lex.strip(e.name));
  }

  // An index no element has is never found again.
  lemma AbsentIsLost(lex: Lexicon, es: seq<Element>, i: int)
    requires Again(lex, es, i)
    ensures ByIndex(es, i).Some?
  {
    var r := Target(es, i, None);
    FoundIsThere(lex, es, r.role, r.name);
    FirstHolds(es, (e: Element) => e.i == i);
  }

  lemma FoundIsThere(lex: Lexicon, es: seq<Element>, role: Option<string>, name: Option<string>)
    requires FindElement(lex, es, role, name).Some?
    ensures FindElement(lex, es, role, name).value in es
  {
    var wanted := lex.strip(OrEmpty(name));
    var low := lex.lower(wanted);
    FirstHolds(es, (e: Element) => Some(e.role) == role && e.name == wanted);
    FirstHolds(es, (e: Element) => Some(e.role) == role && lex.contains(lex.lower(e.name), low));
    FirstHolds(es, (e: Element) => low == lex.lower(lex.strip(e.name)));
  }

  // In a clean snapshot exactly the indexes present are found again.
  lemma CleanFindsPresent(lex: Lexicon, es: seq<Element>, i: int)
    requires Clean(lex, es)
    ensures Again(lex, es, i) <==> ByIndex(es, i).Some?
  {
    if Again(lex, es, i) { AbsentIsLost(lex, es, i); }
    if ByIndex(es, i).Some? { FindsTarget(lex, es, i); }
  }

  ghost predicate CleanSnapshots(lex: Lexicon, t: Trace) {
    forall k | 0 <= k < |t| && t[k].Snapped? :: Clean(lex, t[k].es)
  }

  // Every index the model chose and the run clicked is in the snapshot it was chosen from.
  ghost predicate TargetsPresent(t: Trace) {
    forall k | 0 <= k < |t| && t[k].Did? && t[k].command.Click? && ByModel(t[..k]) ::
      ByIndex(Current(t[..k]), t[k].command.i).Some?
  }

  lemma {:induction false} CurrentClean(lex: Lexicon, t: Trace)
    requires CleanSnapshots(lex, t)
    ensures Clean(lex, Current(t))
  {
    if t != [] {
      var init := t[..|t| - 1];
      forall k | 0 <= k < |init| ensures init[k] == t[k] {}
      CurrentClean(lex, init);
    }
  }

  lemma CurrentCleanAt(lex: Lexicon, t: Trace, k: nat)
    requires CleanSnapshots(lex, t) && k <= |t|
    ensures Clean(lex, Current(t[..k]))
  {
    forall j | 0 <= j < k ensures t[..k][j] == t[j] {}
    CurrentClean(lex, t[..k]);
  }

  lemma CleanRunExactly(lex: Lexicon, t: Trace)
    requires CleanSnapshots(lex, t)
    ensures FoundAgain(lex, t) <==> TargetsPresent(t)
  {
    forall k | 0 <= k < |t| && t[k].Did? && t[k].command.Click?
      ensures Again(lex, Current(t[..k]), t[k].command.i) <==> ByIndex(Current(t[..k]), t[k].command.i).Some?
    {
      CurrentCleanAt(lex, t, k);
      CleanFindsPresent(lex, Current(t[..k]), t[k].command.i);
    }
  }

  // A blank label, stripped and lowered, stays blank.
  ghost predicate BlankStaysBlank(lex: Lexicon) {
    lex.lower(lex.strip("")) == ""
  }

  // A step recorded for an absent index has neither role nor label, and matches no element
  // of any later snapshot.
  lemma UnknownTargetNeverMatches(lex: Lexicon, later: seq<Element>, r: Recorded)
    requires BlankStaysBlank(lex) && r.role.None? && r.name.None?
    ensures FindElement(lex, later, r.role, r.name) == None
  {
    FirstHolds(later, (e: Element) => Some(e.role) == r.role && e.name == lex.strip(OrEmpty(r.name)));
  }

  // Past a target lost in a clean snapshot the replay calls the model.
  lemma CleanLostHeals<P(!new)>(lex: Lexicon, w: World<P>, v: World<P>, page: P, last: State<P>,
                                s: State<P>, es: seq<Element>, i: int, text: Option<string>)
    requires BlankStaysBlank(lex) && SameWindow(w, v) && GrantsAll(v) && CleanSnapshots(lex, last.trace)
    requires FirstLost(lex, w, v, page, last, s, es, i, text)
    ensures !NoModel(Replay(lex, v, Start(page), last.steps).0.trace)
  {
    assert last.trace[|s.trace|] == Snapped(es);
    CleanFindsPresent(lex, es, i);
    var r := Target(es, i, text);
    UnknownTargetNeverMatches(lex, es, r);
    LostDiverges(lex, w, v, page, s, es, i, text, last);
  }

  // With clean snapshots the replay of a live run calls no model if and only if every index
  // the run clicked was in its snapshot.
  lemma CleanRoundTripExactly<P(!new)>(lex: Lexicon, live: World<P>, again: World<P>, page: P, turns: nat)
    requires BlankStaysBlank(lex) && SameWindow(live, again) && GrantsAll(again)
    requires CleanSnapshots(lex, Live(lex, live, Start(page), turns).0.trace)
    ensures var s := Live(lex, live, Start(page), turns).0;
      NoModel(Replay(lex, again, Start(page), s.steps).0.trace) <==> TargetsPresent(s.trace)
  {
    var s := Live(lex, live, Start(page), turns).0;
    CleanRunExactly(lex, s.trace);
    if FoundAgain(lex, s.trace) {
      RecordReplayRoundTrip(lex, live, again, page, turns);
    } else {
      var q := LiveLoses(lex, live, again, page, Start(page), turns, s);
      var es, i, text :| FirstLost(lex, live, again, page, s, q, es, i, text);
      CleanLostHeals(lex, live, again, page, s, q, es, i, text);
    }
  }

  // The same for a second replay of what a first one emitted.
  lemma CleanStableExactly<P(!new)>(lex: Lexicon, first: World<P>, second: World<P>, page: P, steps: seq<Recorded>)
    requires BlankStaysBlank(lex) && SameWindow(first, second) && GrantsAll(second)
    requires CleanSnapshots(lex, Replay(lex, first, Start(page), steps).0.trace)
    ensures var s := Replay(lex, first, Start(page), steps).0;
      NoModel(Replay(lex, second, Start(page), s.steps).0.trace) <==> TargetsPresent(s.trace)
  {
    var s := Replay(lex, first, Start(page), steps).0;
    CleanRunExactly(lex, s.trace);
    if FoundAgain(lex, s.trace) {
      ReplayStableAfterHealing(lex, first, second, page, steps);
    } else {
      var q, es, i, text := ReplayLoses(lex, first, second, page, Start(page), steps, s);
      CleanLostHeals(lex, first, second, page, s, q, es, i, text);
    }
  }

  // ------------------------------------------------------------------
  // Two blank fields
  // ------------------------------------------------------------------

  // What the snapshot writes for a text field without a label.
  const BLANK := "(empty field)"

  const FIRST := Element(1, "TextField", BLANK)
  const SECOND := Element(2, "TextField", BLANK)

  function TypedSecond(text: string): Recorded {
    Recorded(Some("type"), Some("TextField"), Some(BLANK), Some(text), None)
  }

  lemma SecondTarget(text: string)
    ensures ByIndex([FIRST, SECOND], 2) == Some(SECOND) && Target([FIRST, SECOND], 2, Some(text)) == TypedSecond(text)
  {
    var second := (e: Element) => e.i == 2;
    assert [FIRST, SECOND][1..] == [SECOND] && First([SECOND], second) == Some(SECOND);
    assert First([FIRST, SECOND], second) == Some(SECOND);
  }

  lemma LiveTypesSecond<P>(lex: Lexicon, w: World<P>, page: P, text: string)
    requires !lex.sendLike(BLANK)
    requires w.view(page) == Elements([FIRST, SECOND])
    requires w.plan([Snapped(w.view(page).es), ModelCalled]) == TypePlan(2, text)
    ensures var s := Live(lex, w, Start(page), 1).0;
      Commands(s.trace) == [Click(2), TypeText(2, text)] && s.steps == [TypedSecond(text)]
  {
    var es := [FIRST, SECOND];
    SecondTarget(text);
    var s0: State<P> := Start(page);
    var s1 := Log(Log(s0, Snapped(es)), ModelCalled);
    assert s1.trace == [Snapped(es), ModelCalled];
    assert LabelAt(es, 2) == BLANK;
    TypedCommands(w, s1, 2, text);
    CommandsLog([Snapped(es)], ModelCalled);
    CommandsLog([], Snapped(es));
  }

  // A form whose two fields of one role are blank: a live run types into the second, its
  // replay into the first, without a model call.
  lemma TwoBlankFields<P>(lex: Lexicon, w: World<P>, page: P, text: string)
    requires lex.strip(BLANK) == BLANK && !lex.sendLike(BLANK)
    requires w.view(page) == Elements([FIRST, SECOND])
    requires w.plan([Snapped(w.view(page).es), ModelCalled]) == TypePlan(2, text)
    ensures var s := Live(lex, w, Start(page), 1).0;
      var t := Replay(lex, w, Start(page), s.steps).0;
      && Commands(s.trace) == [Click(2), TypeText(2, text)]
      && Commands(t.trace) == [Click(1), TypeText(1, text)] && NoModel(t.trace) && t.steps == s.steps
  {
    LiveTypesSecond(lex, w, page, text);
    var es, r := [FIRST, SECOND], TypedSecond(text);
    assert FindElement(lex, es, r.role, r.name) == Some(FIRST);
    var s1 := Log(Start(page), Snapped(es));
    TypedCommands(w, s1, 1, text);
    CommandsLog([], Snapped(es));
    assert [r][1..] == [];
  }

  lemma TypedCommands<P>(w: World<P>, s: State<P>, i: int, text: string)
    ensures Commands(Perform(w, s, i, Some(text)).trace) == Commands(s.trace) + [Click(i), TypeText(i, text)]
  {
    CommandsLog(s.trace, Did(Click(i)));
    CommandsLog(s.trace + [Did(Click(i))], Did(TypeText(i, text)));
  }
}
