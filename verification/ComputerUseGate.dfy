/** The confidential-send rule, read off the trace of a live or replayed run. */
module ComputerUseGate {
  import opened Wrappers
  import opened ComputerUse

  // The driver's element_index identifies an element of a snapshot.
  ghost predicate DistinctIndices(t: Trace) {
    forall k | 0 <= k < |t| && t[k].Snapped? ::
      forall a <- t[k].es, b <- t[k].es | a.i == b.i :: a == b
  }

  // A key is judged by its text, stripped and lowered. Enter and Return submit.
  predicate Submits(lex: Lexicon, key: string) {
    lex.lower(lex.strip(key)) == "enter" || lex.lower(lex.strip(key)) == "return"
  }

  // The navigation and editing keys; nothing with a modifier is among them.
  predicate Listed(lex: Lexicon, key: string) {
    lex.lower(lex.strip(key)) in
      {"enter", "return", "tab", "escape", "esc", "backspace", "delete", "space", "home", "end", "pageup", "pagedown",
       "up", "down", "left", "right", "arrowup", "arrowdown", "arrowleft", "arrowright"}
  }

  // The runner's two tests are these.
  lemma KeysByName(lex: Lexicon, key: string)
    ensures SubmitKey(lex, key) <==> Submits(lex, key)
    ensures SafeKey(lex, key) <==> Listed(lex, key)
  {
    var norm := lex.lower(lex.strip(key));
    assert Listed(lex, key) ==> '+' !in norm && ' ' !in norm && '\t' !in norm;
  }

  // A type was executed and no submit key has been since.
  ghost predicate TypedSince(lex: Lexicon, t: Trace) {
    exists j :: 0 <= j < |t| && IsType(t[j]) && forall k | j < k < |t| :: !IsSubmit(lex, t[k])
  }

  predicate IsType(e: Event) {
    e.Did? && e.command.TypeText?
  }

  predicate IsSubmit(lex: Lexicon, e: Event) {
    e.Did? && e.command.PressKey? && Submits(lex, e.command.key)
  }

  // The event just before position k (k - 1 by default) grants the label shown.
  ghost predicate GrantedAt(t: Trace, k: int, shown: string) {
    0 <= k < |t| && t[k] == Asked(shown, true)
  }

  // Every send-like element the index names in the current snapshot was granted at k.
  ghost predicate TargetGranted(lex: Lexicon, t: Trace, upto: nat, i: int, k: int)
    requires upto <= |t|
  {
    forall e <- Current(t[..upto]) | e.i == i && lex.sendLike(e.name) :: GrantedAt(t, k, e.name)
  }

  // The command at position k was allowed.
  ghost predicate Allowed(lex: Lexicon, t: Trace, k: nat)
    requires k < |t| && t[k].Did?
  {
    match t[k].command
    case Click(i) => TargetGranted(lex, t, k, i, k - 1)
    case TypeText(i, _) => k > 0 && t[k - 1] == Did(Click(i)) && TargetGranted(lex, t, k, i, k - 2)
    case PressKey(key) =>
      && Listed(lex, key)
      && (Submits(lex, key) && TypedSince(lex, t[..k]) ==> GrantedAt(t, k - 1, "Press " + key))
  }

  ghost predicate GateKept(lex: Lexicon, t: Trace) {
    forall k | 0 <= k < |t| && t[k].Did? :: Allowed(lex, t, k)
  }

  ghost predicate GateState<P>(lex: Lexicon, s: State<P>) {
    GateKept(lex, s.trace) && (s.typed <==> TypedSince(lex, s.trace))
  }

  lemma DistinctPrefix(t: Trace, u: Trace)
    requires t <= u && DistinctIndices(u)
    ensures DistinctIndices(t)
  {
    forall k | 0 <= k < |t| ensures t[k] == u[k] {
    }
  }

  lemma AllowedPrefix(lex: Lexicon, t: Trace, e: Event, k: nat)
    requires k < |t| && t[k].Did? && Allowed(lex, t, k)
    ensures Allowed(lex, t + [e], k)
  {
    assert (t + [e])[..k] == t[..k];
  }

  lemma KeptSnoc(lex: Lexicon, t: Trace, e: Event)
    requires GateKept(lex, t)
    requires e.Did? ==> Allowed(lex, t + [e], |t|)
    ensures GateKept(lex, t + [e])
  {
    forall k | 0 <= k < |t + [e]| && (t + [e])[k].Did? ensures Allowed(lex, t + [e], k) {
      if k < |t| { AllowedPrefix(lex, t, e, k); }
    }
  }

  lemma TypedSnoc(lex: Lexicon, t: Trace, e: Event)
    ensures TypedSince(lex, t + [e]) <==> IsType(e) || (TypedSince(lex, t) && !IsSubmit(lex, e))
  {
    var u := t + [e];
    if TypedSince(lex, u) && !IsType(e) {
      var j :| 0 <= j < |u| && IsType(u[j]) && forall k | j < k < |u| :: !IsSubmit(lex, u[k]);
      assert u[|t|] == e;
      forall k | j < k < |t| ensures !IsSubmit(lex, t[k]) {
        assert u[k] == t[k];
      }
      assert IsType(t[j]);
    }
    if IsType(e) {
      assert IsType(u[|t|]);
    } else if TypedSince(lex, t) && !IsSubmit(lex, e) {
      var j :| 0 <= j < |t| && IsType(t[j]) && forall k | j < k < |t| :: !IsSubmit(lex, t[k]);
      assert IsType(u[j]);
    }
  }

  lemma LogKeeps<P>(lex: Lexicon, s: State<P>, e: Event)
    requires GateState(lex, s) && !e.Did?
    ensures GateState(lex, Log(s, e))
  {
    KeptSnoc(lex, s.trace, e);
    TypedSnoc(lex, s.trace, e);
  }

  lemma GateKeeps<P>(lex: Lexicon, w: World<P>, s: State<P>, needed: bool, shown: string)
    requires GateState(lex, s)
    ensures var (s1, go) := Gate(w, s, needed, shown);
      && GateState(lex, s1)
      && Current(s1.trace) == Current(s.trace)
      && (go && needed ==> GrantedAt(s1.trace, |s1.trace| - 1, shown))
      && s1.typed == s.typed
  {
    var e := Asked(shown, w.approve(s.trace, shown));
    LogKeeps(lex, s, e);
    assert (s.trace + [e])[..|s.trace|] == s.trace;
  }

  // Clicking an element whose send-like label was just granted.
  lemma ClickKeeps<P>(lex: Lexicon, w: World<P>, s: State<P>, i: int)
    requires GateState(lex, s)
    requires forall e <- Current(s.trace) | e.i == i && lex.sendLike(e.name) :: GrantedAt(s.trace, |s.trace| - 1, e.name)
    ensures GateState(lex, Do(w, s, Click(i)))
  {
    var t := s.trace + [Did(Click(i))];
    assert t[..|s.trace|] == s.trace;
    assert Allowed(lex, t, |s.trace|);
    KeptSnoc(lex, s.trace, Did(Click(i)));
    TypedSnoc(lex, s.trace, Did(Click(i)));
  }

  // And typing into it.
  lemma TypeKeeps<P>(lex: Lexicon, w: World<P>, s: State<P>, i: int, text: string)
    requires GateState(lex, s) && |s.trace| > 0 && s.trace[|s.trace| - 1] == Did(Click(i))
    requires forall e <- Current(s.trace) | e.i == i && lex.sendLike(e.name) :: GrantedAt(s.trace, |s.trace| - 2, e.name)
    ensures GateState(lex, Do(w, s, TypeText(i, text)).(typed := true))
  {
    var t := s.trace + [Did(TypeText(i, text))];
    assert t[..|s.trace|] == s.trace;
    assert Allowed(lex, t, |s.trace|);
    KeptSnoc(lex, s.trace, Did(TypeText(i, text)));
    TypedSnoc(lex, s.trace, Did(TypeText(i, text)));
  }

  lemma PerformKeeps<P>(lex: Lexicon, w: World<P>, s: State<P>, i: int, text: Option<string>)
    requires GateState(lex, s)
    requires forall e <- Current(s.trace) | e.i == i && lex.sendLike(e.name) :: GrantedAt(s.trace, |s.trace| - 1, e.name)
    ensures GateState(lex, Perform(w, s, i, text))
  {
    ClickKeeps(lex, w, s, i);
    if text.Some? {
      var s1 := Do(w, s, Click(i));
      assert s1.trace[..|s.trace|] == s.trace;
      assert Current(s1.trace) == Current(s.trace);
      TypeKeeps(lex, w, s1, i, text.value);
    }
  }

  lemma ChosenKeeps<P>(lex: Lexicon, w: World<P>, s: State<P>, es: seq<Element>, i: int, text: Option<string>)
    requires GateState(lex, s) && Current(s.trace) == es
    requires forall a <- es, b <- es | a.i == b.i :: a == b
    ensures GateState(lex, ChosenStep(lex, w, s, es, i, text))
  {
    var shown := LabelAt(es, i);
    GateKeeps(lex, w, s, lex.sendLike(shown), shown);
    var (s1, go) := Gate(w, s, lex.sendLike(shown), shown);
    FirstHolds(es, (e: Element) => e.i == i);
    if go { PerformKeeps(lex, w, s1, i, text); }
  }

  lemma MatchedKeeps<P>(lex: Lexicon, w: World<P>, s: State<P>, es: seq<Element>, el: Element, r: Recorded)
    requires GateState(lex, s) && Current(s.trace) == es && el in es
    requires forall a <- es, b <- es | a.i == b.i :: a == b
    ensures GateState(lex, MatchedStep(lex, w, s, el, r))
  {
    var recorded := OrEmpty(r.name);
    var shown := if lex.sendLike(el.name) then el.name else recorded;
    var needed := lex.sendLike(recorded) || lex.sendLike(el.name);
    GateKeeps(lex, w, s, needed, shown);
    var (s1, go) := Gate(w, s, needed, shown);
    if go { PerformKeeps(lex, w, s1, el.i, if IsAction(r, "type") then Some(OrEmpty(r.text)) else None); }
  }

  lemma KeyKeeps<P>(lex: Lexicon, w: World<P>, s: State<P>, key: string, r: Recorded)
    requires GateState(lex, s)
    ensures GateState(lex, KeyStep(lex, w, s, key, r))
  {
    KeysByName(lex, key);
    if SafeKey(lex, key) {
      var needed := SubmitKey(lex, key) && s.typed;
      GateKeeps(lex, w, s, needed, "Press " + key);
      var (s1, go) := Gate(w, s, needed, "Press " + key);
      if go {
        var e := Did(PressKey(key));
        assert (s1.trace + [e])[..|s1.trace|] == s1.trace;
        KeptSnoc(lex, s1.trace, e);
        TypedSnoc(lex, s1.trace, e);
      }
    }
  }

  lemma FindsMember(lex: Lexicon, es: seq<Element>, role: Option<string>, name: Option<string>)
    ensures var e := FindElement(lex, es, role, name); e.Some? ==> e.value in es
  {
    var wanted := lex.strip(OrEmpty(name));
    var low := lex.lower(wanted);
    FirstHolds(es, (e: Element) => Some(e.role) == role && e.name == wanted);
    FirstHolds(es, (e: Element) => Some(e.role) == role && lex.contains(lex.lower(e.name), low));
    FirstHolds(es, (e: Element) => low == lex.lower(lex.strip(e.name)));
  }

  lemma SnapKeeps<P>(lex: Lexicon, s: State<P>, es: seq<Element>)
    requires GateState(lex, s)
    ensures var s1 := Log(s, Snapped(es));
      && GateState(lex, s1) && Current(s1.trace) == es
      && GateState(lex, Log(s1, ModelCalled)) && Current(Log(s1, ModelCalled).trace) == es
  {
    var s1 := Log(s, Snapped(es));
    LogKeeps(lex, s, Snapped(es));
    LogKeeps(lex, s1, ModelCalled);
    assert (s1.trace + [ModelCalled])[..|s1.trace|] == s1.trace;
  }

  lemma LiveStepKeeps<P>(lex: Lexicon, w: World<P>, s: State<P>)
    requires GateState(lex, s) && DistinctIndices(LiveStep(lex, w, s).0.trace)
    ensures GateState(lex, LiveStep(lex, w, s).0)
  {
    if w.view(s.page).Elements? {
      var es := w.view(s.page).es;
      var s1 := Log(Log(s, Snapped(es)), ModelCalled);
      SnapKeeps(lex, s, es);
      assert LiveStep(lex, w, s).0.trace[|s.trace|] == Snapped(es);
      match w.plan(s1.trace)
      case ClickPlan(i) => ChosenKeeps(lex, w, s1, es, i, None);
      case TypePlan(i, text) => ChosenKeeps(lex, w, s1, es, i, Some(text));
      case KeyPlan(key) => KeyKeeps(lex, w, s1, key, KeyRecord(key));
      case _ =>
    }
  }

  lemma HealedKeeps<P>(lex: Lexicon, w: World<P>, s: State<P>, es: seq<Element>, r: Recorded)
    requires GateState(lex, s) && forall a <- es, b <- es | a.i == b.i :: a == b
    ensures GateState(lex, HealedStep(lex, w, Log(s, Snapped(es)), es, r).0)
  {
    SnapKeeps(lex, s, es);
    var s2 := Log(Log(s, Snapped(es)), ModelCalled);
    match w.heal(s2.trace, r)
    case ClickPlan(i) => ChosenKeeps(lex, w, s2, es, i, None);
    case TypePlan(i, text) => ChosenKeeps(lex, w, s2, es, i, Some(text));
    case _ =>
  }

  lemma SeenDistinct<P>(lex: Lexicon, w: World<P>, s: State<P>, r: Recorded)
    requires IsAction(r, "click") || IsAction(r, "type")
    requires w.view(s.page).Elements? && DistinctIndices(ReplayStep(lex, w, s, r).0.trace)
    ensures var es := w.view(s.page).es;
      forall a <- es, b <- es | a.i == b.i :: a == b
  {
    var u := ReplayStep(lex, w, s, r).0.trace;
    assert u[|s.trace|] == Snapped(w.view(s.page).es);
  }

  lemma ReplayStepKeeps<P>(lex: Lexicon, w: World<P>, s: State<P>, r: Recorded)
    requires GateState(lex, s) && DistinctIndices(ReplayStep(lex, w, s, r).0.trace)
    ensures GateState(lex, ReplayStep(lex, w, s, r).0)
  {
    if IsAction(r, "press_key") {
      KeyKeeps(lex, w, s, OrEmpty(r.key), r);
    } else if (IsAction(r, "click") || IsAction(r, "type")) && w.view(s.page).Elements? {
      var es := w.view(s.page).es;
      SeenDistinct(lex, w, s, r);
      SnapKeeps(lex, s, es);
      FindsMember(lex, es, r.role, r.name);
      var found := FindElement(lex, es, r.role, r.name);
      if found.Some? {
        MatchedKeeps(lex, w, Log(s, Snapped(es)), es, found.value, r);
      } else {
        HealedKeeps(lex, w, s, es, r);
      }
    }
  }

  lemma {:induction false} LiveKeeps<P>(lex: Lexicon, w: World<P>, s: State<P>, turns: nat)
    requires GateState(lex, s) && DistinctIndices(Live(lex, w, s, turns).0.trace)
    ensures GateState(lex, Live(lex, w, s, turns).0)
    decreases turns
  {
    if turns > 0 {
      var (s1, end) := LiveStep(lex, w, s);
      if end.Going? { LiveTrace(lex, w, s1, turns - 1); }
      DistinctPrefix(s1.trace, Live(lex, w, s, turns).0.trace);
      LiveStepKeeps(lex, w, s);
      if end.Going? { LiveKeeps(lex, w, s1, turns - 1); }
    }
  }

  lemma {:induction false} ReplayKeeps<P>(lex: Lexicon, w: World<P>, s: State<P>, steps: seq<Recorded>)
    requires GateState(lex, s) && DistinctIndices(Replay(lex, w, s, steps).0.trace)
    ensures GateState(lex, Replay(lex, w, s, steps).0)
    decreases |steps|
  {
    if steps != [] {
      var (s1, end) := ReplayStep(lex, w, s, steps[0]);
      if end.Going? { ReplayTrace(lex, w, s1, steps[1..]); }
      DistinctPrefix(s1.trace, Replay(lex, w, s, steps).0.trace);
      ReplayStepKeeps(lex, w, s, steps[0]);
      if end.Going? { ReplayKeeps(lex, w, s1, steps[1..]); }
    }
  }

  // In any live run: a click or type on a send-like element of the current snapshot
  // follows a granted approval of that element's label with no command in between
  // (a type has its own click there), a pressed Enter or Return after typing follows its own
  // granted approval, and every key is one of the listed names.
  lemma LiveSendsAreApproved<P>(lex: Lexicon, w: World<P>, page: P, turns: nat)
    requires DistinctIndices(Live(lex, w, Start(page), turns).0.trace)
    ensures GateKept(lex, Live(lex, w, Start(page), turns).0.trace)
  {
    LiveKeeps(lex, w, Start(page), turns);
  }

  // The same in any replay, whatever was recorded and however it is healed.
  lemma ReplaySendsAreApproved<P>(lex: Lexicon, w: World<P>, page: P, steps: seq<Recorded>)
    requires DistinctIndices(Replay(lex, w, Start(page), steps).0.trace)
    ensures GateKept(lex, Replay(lex, w, Start(page), steps).0.trace)
  {
    ReplayKeeps(lex, w, Start(page), steps);
  }
}
