/** The computer-use runner: a live loop that records a trajectory and a replay
    loop that matches recorded steps by role and label, heals the missing ones and
    re-emits a trajectory. Both gate external sends. */
module ComputerUse {
  import opened Wrappers

  datatype Element = Element(i: int, role: string, name: string)
  datatype Snapshot = Elements(es: seq<Element>) | SnapshotError(message: string)

  datatype Command = Click(i: int) | TypeText(i: int, text: string) | PressKey(key: string)

  // One recorded step; a field the recorder did not write is None.
  datatype Recorded = Recorded(
    action: Option<string>, role: Option<string>, name: Option<string>, text: Option<string>, key: Option<string>)

  // What a model call returns. `Broken` is any reply whose arguments raise.
  datatype Plan =
    | ClickPlan(i: int)
    | TypePlan(i: int, text: string)
    | KeyPlan(key: string)
    | DonePlan
    | OtherPlan(name: string)
    | NoCall
    | Broken

  // Everything observable, in order.
  datatype Event =
    | Snapped(es: seq<Element>)
    | ModelCalled
    | Asked(name: string, granted: bool)
    | Did(command: Command)

  type Trace = seq<Event>

  // Text helpers of the host language and the send pattern; nothing is assumed of them.
  datatype Lexicon = Lexicon(strip: string -> string, lower: string -> string, contains: (string, string) -> bool,
                             sendLike: string -> bool)

  // A deterministic application window, and arbitrary planner, healer and operator
  // answering from the history so far.
  datatype World<!P> = World(
    view: P -> Snapshot,
    act: (P, Command) -> P,
    plan: Trace -> Plan,
    heal: (Trace, Recorded) -> Plan,
    approve: (Trace, string) -> bool)

  const ALLOWED_KEYS: set<string> := {
    "enter", "return", "tab", "escape", "esc", "backspace", "delete",
    "space", "up", "down", "left", "right",
    "arrowup", "arrowdown", "arrowleft", "arrowright",
    "home", "end", "pageup", "pagedown"
  }
  const SEND_KEYS: set<string> := {"enter", "return"}

  function Norm(lex: Lexicon, key: string): string {
    lex.lower(lex.strip(key))
  }

  predicate SafeKey(lex: Lexicon, key: string) {
    var norm := Norm(lex, key);
    '+' !in norm && ' ' !in norm && '\t' !in norm && norm in ALLOWED_KEYS
  }

  predicate SubmitKey(lex: Lexicon, key: string) {
    Norm(lex, key) in SEND_KEYS
  }

  // ------------------------------------------------------------------
  // Finding elements
  // ------------------------------------------------------------------

  function First(es: seq<Element>, p: Element -> bool): Option<Element> {
    if es == [] then None else if p(es[0]) then Some(es[0]) else First(es[1..], p)
  }

  function ByIndex(es: seq<Element>, i: int): Option<Element> {
    First(es, (e: Element) => e.i == i)
  }

  function LabelAt(es: seq<Element>, i: int): string {
    var e := ByIndex(es, i);
    if e.Some? then e.value.name else ""
  }

  function OrEmpty(s: Option<string>): string {
    if s.Some? then s.value else ""
  }

  function FindElement(lex: Lexicon, es: seq<Element>, role: Option<string>, name: Option<string>): Option<Element> {
    var wanted := lex.strip(OrEmpty(name));
    var exact := First(es, (e: Element) => Some(e.role) == role && e.name == wanted);
    if exact.Some? then exact
    else
      var low := lex.lower(wanted);
      if low == "" then None
      else
        var fuzzy := First(es, (e: Element) => Some(e.role) == role && lex.contains(lex.lower(e.name), low));
        if fuzzy.Some? then fuzzy
        else First(es, (e: Element) => low == lex.lower(lex.strip(e.name)))
  }

  // ------------------------------------------------------------------
  // One step of either loop
  // ------------------------------------------------------------------

  datatype State<P> = State(page: P, typed: bool, steps: seq<Recorded>, trace: Trace)
  datatype End = Going | Finished | Errored

  function Do<P>(w: World<P>, s: State<P>, c: Command): State<P> {
    s.(page := w.act(s.page, c), trace := s.trace + [Did(c)])
  }

  function Log<P>(s: State<P>, e: Event): State<P> {
    s.(trace := s.trace + [e])
  }

  function Record<P>(s: State<P>, r: Recorded): State<P> {
    s.(steps := s.steps + [r])
  }

  // Ask the operator about `label` when `needed`; the flag says whether to go on.
  function Gate<P>(w: World<P>, s: State<P>, needed: bool, name: string): (State<P>, bool) {
    if needed then
      var granted := w.approve(s.trace, name);
      (Log(s, Asked(name, granted)), granted)
    else (s, true)
  }

  // Click the element, and type into it when there is text.
  function Perform<P>(w: World<P>, s: State<P>, i: int, text: Option<string>): State<P> {
    var s1 := Do(w, s, Click(i));
    if text.Some? then Do(w, s1, TypeText(i, text.value)).(typed := true) else s1
  }

  function Target(es: seq<Element>, i: int, text: Option<string>): Recorded {
    var e := ByIndex(es, i);
    Recorded(Some(if text.Some? then "type" else "click"),
             if e.Some? then Some(e.value.role) else None,
             if e.Some? then Some(e.value.name) else None,
             text, None)
  }

  // A live click or typing, and a healed one: gated on the label of the chosen index.
  function ChosenStep<P>(lex: Lexicon, w: World<P>, s: State<P>, es: seq<Element>, i: int, text: Option<string>): State<P> {
    var name := LabelAt(es, i);
    var (s1, go) := Gate(w, s, lex.sendLike(name), name);
    if go then Record(Perform(w, s1, i, text), Target(es, i, text)) else s1
  }

  function KeyStep<P>(lex: Lexicon, w: World<P>, s: State<P>, key: string, r: Recorded): State<P> {
    if !SafeKey(lex, key) then s
    else
      var (s1, go) := Gate(w, s, SubmitKey(lex, key) && s.typed, "Press " + key);
      if !go then s1
      else
        var s2 := Record(Do(w, s1, PressKey(key)), r);
        if SubmitKey(lex, key) then s2.(typed := false) else s2
  }

  function KeyRecord(key: string): Recorded {
    Recorded(Some("press_key"), None, None, None, Some(key))
  }

  // One turn of the live loop (`run` without dry-run).
  function LiveStep<P>(lex: Lexicon, w: World<P>, s: State<P>): (State<P>, End) {
    match w.view(s.page)
    case SnapshotError(_) => (s, Errored)
    case Elements(es) =>
      var s1 := Log(Log(s, Snapped(es)), ModelCalled);
      match w.plan(s1.trace)
      case Broken => (s1, Errored)
      case NoCall => (s1, Finished)
      case DonePlan => (s1, Finished)
      case OtherPlan(_) => (s1, Going)
      case ClickPlan(i) => (ChosenStep(lex, w, s1, es, i, None), Going)
      case TypePlan(i, text) => (ChosenStep(lex, w, s1, es, i, Some(text)), Going)
      case KeyPlan(key) => (KeyStep(lex, w, s1, key, KeyRecord(key)), Going)
  }

  // The live loop, `turns` being the step limit.
  function Live<P>(lex: Lexicon, w: World<P>, s: State<P>, turns: nat): (State<P>, End)
    decreases turns
  {
    if turns == 0 then (s, Finished)
    else
      var (s1, end) := LiveStep(lex, w, s);
      if end.Going? then Live(lex, w, s1, turns - 1) else (s1, end)
  }

  predicate IsAction(r: Recorded, name: string) {
    r.action == Some(name)
  }

  // A matched step is gated on the recorded label and on the label about to be clicked.
  function MatchedStep<P>(lex: Lexicon, w: World<P>, s: State<P>, el: Element, r: Recorded): State<P> {
    var recorded := OrEmpty(r.name);
    var shown := if lex.sendLike(el.name) then el.name else recorded;
    var (s1, go) := Gate(w, s, lex.sendLike(recorded) || lex.sendLike(el.name), shown);
    if !go then s1
    else Record(Perform(w, s1, el.i, if IsAction(r, "type") then Some(OrEmpty(r.text)) else None), r)
  }

  function HealedStep<P>(lex: Lexicon, w: World<P>, s: State<P>, es: seq<Element>, r: Recorded): (State<P>, End) {
    var s1 := Log(s, ModelCalled);
    match w.heal(s1.trace, r)
    case Broken => (s1, Errored)
    case ClickPlan(i) => (ChosenStep(lex, w, s1, es, i, None), Going)
    case TypePlan(i, text) => (ChosenStep(lex, w, s1, es, i, Some(text)), Going)
    case _ => (s1, Going)
  }

  // One recorded step of `replay`.
  function ReplayStep<P>(lex: Lexicon, w: World<P>, s: State<P>, r: Recorded): (State<P>, End) {
    if IsAction(r, "press_key") then (KeyStep(lex, w, s, OrEmpty(r.key), r), Going)
    else if !IsAction(r, "click") && !IsAction(r, "type") then (s, Going)
    else
      match w.view(s.page)
      case SnapshotError(_) => (s, Errored)
      case Elements(es) =>
        var s1 := Log(s, Snapped(es));
        var found := FindElement(lex, es, r.role, r.name);
        if found.Some? then (MatchedStep(lex, w, s1, found.value, r), Going)
        else HealedStep(lex, w, s1, es, r)
  }

  function Replay<P>(lex: Lexicon, w: World<P>, s: State<P>, steps: seq<Recorded>): (State<P>, End)
    decreases |steps|
  {
    if steps == [] then (s, Finished)
    else
      var (s1, end) := ReplayStep(lex, w, s, steps[0]);
      if end.Going? then Replay(lex, w, s1, steps[1..]) else (s1, end)
  }

  function Start<P>(page: P): State<P> {
    State(page, false, [], [])
  }

  // The trajectory event: only a finished run with something recorded emits one.
  function Emitted<P>(s: State<P>, end: End): Option<seq<Recorded>> {
    if end.Finished? && s.steps != [] then Some(s.steps) else None
  }

  // ------------------------------------------------------------------
  // The loops themselves
  // ------------------------------------------------------------------

  method RunLive<P>(lex: Lexicon, w: World<P>, page: P, turns: nat) returns (s: State<P>, end: End)
    ensures (s, end) == Live(lex, w, Start(page), turns)
  {
    s, end := Start(page), Finished;
    var left := turns;
    while left > 0
      invariant Live(lex, w, s, left) == Live(lex, w, Start(page), turns)
      invariant end == Finished
    {
      var snap := w.view(s.page);
      if snap.SnapshotError? { return s, Errored; }
      var es := snap.es;
      s := Log(Log(s, Snapped(es)), ModelCalled);
      match w.plan(s.trace) {
        case Broken => return s, Errored;
        case NoCall => return s, Finished;
        case DonePlan => return s, Finished;
        case OtherPlan(_) =>
        case ClickPlan(i) => s := ChosenStep(lex, w, s, es, i, None);
        case TypePlan(i, text) => s := ChosenStep(lex, w, s, es, i, Some(text));
        case KeyPlan(key) => s := KeyStep(lex, w, s, key, KeyRecord(key));
      }
      left := left - 1;
    }
  }

  method RunReplay<P>(lex: Lexicon, w: World<P>, page: P, steps: seq<Recorded>) returns (s: State<P>, end: End)
    ensures (s, end) == Replay(lex, w, Start(page), steps)
  {
    s, end := Start(page), Finished;
    for k := 0 to |steps|
      invariant Replay(lex, w, s, steps[k..]) == Replay(lex, w, Start(page), steps)
      invariant end == Finished
    {
      assert steps[k..][1..] == steps[k + 1..];
      var r := steps[k];
      if r.action == Some("press_key") {
        s := KeyStep(lex, w, s, OrEmpty(r.key), r);
        continue;
      }
      if r.action != Some("click") && r.action != Some("type") { continue; }
      var snap := w.view(s.page);
      if snap.SnapshotError? { return s, Errored; }
      s := Log(s, Snapped(snap.es));
      var found := FindElement(lex, snap.es, r.role, r.name);
      if found.Some? {
        s := MatchedStep(lex, w, s, found.value, r);
        continue;
      }
      s := Log(s, ModelCalled);
      match w.heal(s.trace, r) {
        case Broken => return s, Errored;
        case ClickPlan(i) => s := ChosenStep(lex, w, s, snap.es, i, None);
        case TypePlan(i, text) => s := ChosenStep(lex, w, s, snap.es, i, Some(text));
        case _ =>
      }
    }
  }

  // ------------------------------------------------------------------
  // Reading a trace
  // ------------------------------------------------------------------

  function Commands(t: Trace): seq<Command> {
    if t == [] then []
    else Commands(t[..|t| - 1]) + (if t[|t| - 1].Did? then [t[|t| - 1].command] else [])
  }

  ghost predicate NoModel(t: Trace) {
    ModelCalled !in t
  }

  // The elements of the latest snapshot.
  function Current(t: Trace): seq<Element> {
    if t == [] then []
    else if t[|t| - 1].Snapped? then t[|t| - 1].es
    else Current(t[..|t| - 1])
  }

  // Whether a model call came after the latest snapshot: a click there is of an index the
  // model chose.
  predicate ByModel(t: Trace) {
    t != [] && (t[|t| - 1].ModelCalled? || (!t[|t| - 1].Snapped? && ByModel(t[..|t| - 1])))
  }

  // What is recorded for this index finds an element with this index again.
  predicate Again(lex: Lexicon, es: seq<Element>, i: int) {
    var r := Target(es, i, None);
    var el := FindElement(lex, es, r.role, r.name);
    el.Some? && el.value.i == i
  }

  // Every index the model chose and the run clicked is found again so in the snapshot it
  // was chosen from.
  ghost predicate FoundAgain(lex: Lexicon, t: Trace) {
    forall k | 0 <= k < |t| && t[k].Did? && t[k].command.Click? && ByModel(t[..k]) ::
      Again(lex, Current(t[..k]), t[k].command.i)
  }

  lemma AgainPrefix(lex: Lexicon, t: Trace, u: Trace)
    requires t <= u && FoundAgain(lex, u)
    ensures FoundAgain(lex, t)
  {
    forall k | 0 <= k < |t| ensures t[k] == u[k] && t[..k] == u[..k] {
    }
  }

  lemma LiveGrows<P>(lex: Lexicon, w: World<P>, s: State<P>)
    ensures s.trace <= LiveStep(lex, w, s).0.trace
  {
  }

  lemma MatchedGrows<P>(lex: Lexicon, w: World<P>, s: State<P>, el: Element, r: Recorded)
    ensures s.trace <= MatchedStep(lex, w, s, el, r).trace
  {
  }

  lemma HealedGrows<P>(lex: Lexicon, w: World<P>, s: State<P>, es: seq<Element>, r: Recorded)
    ensures Log(s, ModelCalled).trace <= HealedStep(lex, w, s, es, r).0.trace
  {
  }

  lemma ReplayGrows<P>(lex: Lexicon, w: World<P>, s: State<P>, r: Recorded)
    ensures s.trace <= ReplayStep(lex, w, s, r).0.trace
  {
    if !IsAction(r, "press_key") && w.view(s.page).Elements? {
      var es := w.view(s.page).es;
      var found := FindElement(lex, es, r.role, r.name);
      if found.Some? {
        MatchedGrows(lex, w, Log(s, Snapped(es)), found.value, r);
      } else {
        HealedGrows(lex, w, Log(s, Snapped(es)), es, r);
      }
    }
  }

  lemma {:induction false} LiveTrace<P>(lex: Lexicon, w: World<P>, s: State<P>, turns: nat)
    ensures s.trace <= Live(lex, w, s, turns).0.trace
    decreases turns
  {
    if turns > 0 {
      LiveGrows(lex, w, s);
      var (s1, end) := LiveStep(lex, w, s);
      if end.Going? { LiveTrace(lex, w, s1, turns - 1); }
    }
  }

  lemma {:induction false} ReplayTrace<P>(lex: Lexicon, w: World<P>, s: State<P>, steps: seq<Recorded>)
    ensures s.trace <= Replay(lex, w, s, steps).0.trace
    decreases |steps|
  {
    if steps != [] {
      ReplayGrows(lex, w, s, steps[0]);
      var (s1, end) := ReplayStep(lex, w, s, steps[0]);
      if end.Going? { ReplayTrace(lex, w, s1, steps[1..]); }
    }
  }

  // ------------------------------------------------------------------
  // Replaying what was recorded
  // ------------------------------------------------------------------

  ghost predicate SameWindow<P(!new)>(w: World<P>, v: World<P>) {
    && (forall p :: w.view(p) == v.view(p))
    && (forall p, c :: w.act(p, c) == v.act(p, c))
  }

  ghost predicate GrantsAll<P>(w: World<P>) {
    forall t, name :: w.approve(t, name)
  }

  lemma {:induction false} ReplaySnoc<P>(lex: Lexicon, w: World<P>, s: State<P>, steps: seq<Recorded>, r: Recorded)
    requires Replay(lex, w, s, steps).1 == Finished
    ensures Replay(lex, w, s, steps + [r]) ==
            var (s1, end) := ReplayStep(lex, w, Replay(lex, w, s, steps).0, r);
            (s1, if end.Going? then Finished else end)
    decreases |steps|
  {
    if steps == [] {
      assert (steps + [r])[1..] == [];
    } else {
      assert (steps + [r])[0] == steps[0] && (steps + [r])[1..] == steps[1..] + [r];
      ReplaySnoc(lex, w, ReplayStep(lex, w, s, steps[0]).0, steps[1..], r);
    }
  }

  // `t` is where a model-free replay of `s.steps` stands when it retraced `s`.
  ghost predicate Retraces<P>(t: State<P>, s: State<P>) {
    && t.page == s.page && t.typed == s.typed && t.steps == s.steps
    && Commands(t.trace) == Commands(s.trace)
    && NoModel(t.trace)
  }

  // Replaying `s.steps` from `page` in the world `v` retraces `s`.
  ghost predicate Reproduces<P>(lex: Lexicon, v: World<P>, page: P, s: State<P>) {
    var (t, end) := Replay(lex, v, Start(page), s.steps);
    end == Finished && Retraces(t, s)
  }

  lemma CommandsLog(t: Trace, e: Event)
    ensures Commands(t + [e]) == Commands(t) + (if e.Did? then [e.command] else [])
  {
    assert (t + [e])[..|t|] == t;
  }

  lemma {:induction false} FirstHolds(es: seq<Element>, p: Element -> bool)
    ensures First(es, p).Some? ==> First(es, p).value in es && p(First(es, p).value)
    ensures First(es, p).None? ==> forall e <- es :: !p(e)
  {
    if es != [] && !p(es[0]) {
      FirstHolds(es[1..], p);
      assert es == [es[0]] + es[1..];
    }
  }

  lemma DoRetraces<P(!new)>(w: World<P>, v: World<P>, s: State<P>, t: State<P>, c: Command)
    requires SameWindow(w, v) && Retraces(t, s)
    ensures Retraces(Do(v, t, c), Do(w, s, c))
  {
    CommandsLog(s.trace, Did(c));
    CommandsLog(t.trace, Did(c));
  }

  lemma PerformRetraces<P(!new)>(w: World<P>, v: World<P>, s: State<P>, t: State<P>, i: int, text: Option<string>)
    requires SameWindow(w, v) && Retraces(t, s)
    ensures Retraces(Perform(v, t, i, text), Perform(w, s, i, text))
  {
    DoRetraces(w, v, s, t, Click(i));
    if text.Some? { DoRetraces(w, v, Do(w, s, Click(i)), Do(v, t, Click(i)), TypeText(i, text.value)); }
  }

  lemma LogRetraces<P>(s: State<P>, t: State<P>, e: Event)
    requires Retraces(t, s) && !e.Did?
    ensures Retraces(t, Log(s, e))
    ensures !e.ModelCalled? ==> Retraces(Log(t, e), s)
  {
    CommandsLog(s.trace, e);
    CommandsLog(t.trace, e);
  }

  // Asking changes nothing but the trace, and a granting operator lets everything pass.
  lemma GateRetraces<P>(w: World<P>, v: World<P>, s: State<P>, t: State<P>,
                        needs: bool, names: string, needt: bool, namet: string)
    requires GrantsAll(v) && Retraces(t, s)
    ensures Retraces(Gate(v, t, needt, namet).0, Gate(w, s, needs, names).0)
    ensures Retraces(t, Gate(w, s, needs, names).0)
    ensures Gate(v, t, needt, namet).1
    ensures Gate(w, s, needs, names).0.page == s.page && Gate(w, s, needs, names).0.steps == s.steps
  {
    LogRetraces(s, t, Asked(names, w.approve(s.trace, names)));
    var s1 := Gate(w, s, needs, names).0;
    LogRetraces(s1, t, Asked(namet, v.approve(t.trace, namet)));
  }

  // A step that performs an element and records `r` is retraced by matching `r`.
  lemma MatchRetraces<P(!new)>(lex: Lexicon, w: World<P>, v: World<P>, s: State<P>, t: State<P>, el: Element, r: Recorded, es: seq<Element>)
    requires SameWindow(w, v) && GrantsAll(v) && Retraces(t, s)
    requires IsAction(r, "click") || IsAction(r, "type")
    ensures Retraces(MatchedStep(lex, v, Log(t, Snapped(es)), el, r),
                     Record(Perform(w, s, el.i, if IsAction(r, "type") then Some(OrEmpty(r.text)) else None), r))
  {
    var text := if IsAction(r, "type") then Some(OrEmpty(r.text)) else None;
    var t1 := Log(t, Snapped(es));
    LogRetraces(s, t, Snapped(es));
    var recorded := OrEmpty(r.name);
    var shown := if lex.sendLike(el.name) then el.name else recorded;
    var needed := lex.sendLike(recorded) || lex.sendLike(el.name);
    GateRetraces(w, v, s, t1, false, "", needed, shown);
    PerformRetraces(w, v, s, Gate(v, t1, needed, shown).0, el.i, text);
  }

  lemma SnocReproduces<P(!new)>(lex: Lexicon, w: World<P>, v: World<P>, page: P, s: State<P>, s1: State<P>, es: seq<Element>, el: Element, r: Recorded)
    requires SameWindow(w, v) && GrantsAll(v)
    requires Reproduces(lex, v, page, s)
    requires w.view(s.page) == Elements(es)
    requires IsAction(r, "click") || IsAction(r, "type")
    requires FindElement(lex, es, r.role, r.name) == Some(el)
    requires Retraces(Replay(lex, v, Start(page), s.steps).0, s1)
    ensures Reproduces(lex, v, page,
                       Record(Perform(w, s1, el.i, if IsAction(r, "type") then Some(OrEmpty(r.text)) else None), r))
  {
    var t := Replay(lex, v, Start(page), s.steps).0;
    ReplaySnoc(lex, v, Start(page), s.steps, r);
    assert v.view(t.page) == Elements(es);
    MatchRetraces(lex, w, v, s1, t, el, r, es);
    assert s1.steps == s.steps;
  }

  // A performed choice is reproduced by replaying its record.
  lemma ChosenReproduces<P(!new)>(lex: Lexicon, w: World<P>, v: World<P>, page: P, s: State<P>, es: seq<Element>, i: int, text: Option<string>)
    requires SameWindow(w, v) && GrantsAll(v)
    requires w.view(s.page) == Elements(es)
    requires Reproduces(lex, v, page, s)
    requires ChosenStep(lex, w, s, es, i, text).steps != s.steps ==> Again(lex, es, i)
    ensures Reproduces(lex, v, page, ChosenStep(lex, w, s, es, i, text))
  {
    var label_ := LabelAt(es, i);
    var needed := lex.sendLike(label_);
    var (s1, go) := Gate(w, s, needed, label_);
    var t := Replay(lex, v, Start(page), s.steps).0;
    GateRetraces(w, v, s, t, needed, label_, false, "");
    if go {
      assert |ChosenStep(lex, w, s, es, i, text).steps| == |s.steps| + 1;
      var r := Target(es, i, text);
      var el := FindElement(lex, es, r.role, r.name).value;
      SnocReproduces(lex, w, v, page, s, s1, es, el, r);
    }
  }

  // A pressed key is reproduced by replaying its record.
  lemma KeyReproduces<P(!new)>(lex: Lexicon, w: World<P>, v: World<P>, page: P, s: State<P>, key: string, r: Recorded)
    requires SameWindow(w, v) && GrantsAll(v)
    requires Reproduces(lex, v, page, s)
    requires IsAction(r, "press_key") && OrEmpty(r.key) == key
    ensures Reproduces(lex, v, page, KeyStep(lex, w, s, key, r))
  {
    if SafeKey(lex, key) {
      var needed := SubmitKey(lex, key) && s.typed;
      var (s1, go) := Gate(w, s, needed, "Press " + key);
      var t := Replay(lex, v, Start(page), s.steps).0;
      GateRetraces(w, v, s, t, needed, "Press " + key, needed, "Press " + key);
      if go {
        ReplaySnoc(lex, v, Start(page), s.steps, r);
        var t1 := Gate(v, t, needed, "Press " + key).0;
        DoRetraces(w, v, s1, t1, PressKey(key));
      }
    }
  }

  lemma LogReproduces<P>(lex: Lexicon, v: World<P>, page: P, s: State<P>, e: Event)
    requires Reproduces(lex, v, page, s) && !e.Did?
    ensures Reproduces(lex, v, page, Log(s, e))
  {
    CommandsLog(s.trace, e);
  }

  // The target of a choice that went through is found again in its snapshot.
  lemma ChoiceFoundAgain<P>(lex: Lexicon, w: World<P>, s: State<P>, es: seq<Element>, i: int, text: Option<string>)
    requires Current(s.trace) == es && ByModel(s.trace)
    requires FoundAgain(lex, ChosenStep(lex, w, s, es, i, text).trace)
    ensures ChosenStep(lex, w, s, es, i, text).steps != s.steps ==> Again(lex, es, i)
  {
    var name := LabelAt(es, i);
    var (s1, go) := Gate(w, s, lex.sendLike(name), name);
    var u := ChosenStep(lex, w, s, es, i, text).trace;
    if go {
      var k := |s1.trace|;
      assert s1.trace == s.trace || s1.trace[..|s1.trace| - 1] == s.trace;
      assert u[k] == Did(Click(i));
      assert u[..k] == s1.trace;
    }
  }

  lemma SnapReproduces<P>(lex: Lexicon, w: World<P>, v: World<P>, page: P, s: State<P>, es: seq<Element>, model: bool)
    requires Reproduces(lex, v, page, s)
    ensures var s1 := if model then Log(Log(s, Snapped(es)), ModelCalled) else Log(s, Snapped(es));
      Reproduces(lex, v, page, s1) && Current(s1.trace) == es && (model ==> ByModel(s1.trace))
  {
    var s0 := Log(s, Snapped(es));
    LogReproduces(lex, v, page, s, Snapped(es));
    LogReproduces(lex, v, page, s0, ModelCalled);
    assert (s0.trace + [ModelCalled])[..|s0.trace|] == s0.trace;
  }

  // A choice made from the snapshot just taken, by the planner or by the healer.
  lemma ChoiceReproduces<P(!new)>(lex: Lexicon, w: World<P>, v: World<P>, page: P, s: State<P>, es: seq<Element>, i: int, text: Option<string>)
    requires SameWindow(w, v) && GrantsAll(v)
    requires Reproduces(lex, v, page, s)
    requires w.view(s.page) == Elements(es)
    requires FoundAgain(lex, ChosenStep(lex, w, Log(Log(s, Snapped(es)), ModelCalled), es, i, text).trace)
    ensures Reproduces(lex, v, page, ChosenStep(lex, w, Log(Log(s, Snapped(es)), ModelCalled), es, i, text))
  {
    var s1 := Log(Log(s, Snapped(es)), ModelCalled);
    SnapReproduces(lex, w, v, page, s, es, true);
    ChoiceFoundAgain(lex, w, s1, es, i, text);
    ChosenReproduces(lex, w, v, page, s1, es, i, text);
  }

  // A planned click or typing: what the live loop does with it.
  lemma PlannedChoice<P>(lex: Lexicon, w: World<P>, s: State<P>, i: int, text: Option<string>)
    requires w.view(s.page).Elements?
    requires var plan := w.plan(s.trace + [Snapped(w.view(s.page).es)] + [ModelCalled]);
      plan == if text.Some? then TypePlan(i, text.value) else ClickPlan(i)
    ensures var es := w.view(s.page).es;
      LiveStep(lex, w, s) == (ChosenStep(lex, w, Log(Log(s, Snapped(es)), ModelCalled), es, i, text), Going)
  {}

  lemma PlannedChoiceReproduces<P(!new)>(lex: Lexicon, w: World<P>, v: World<P>, page: P, s: State<P>, i: int, text: Option<string>)
    requires SameWindow(w, v) && GrantsAll(v)
    requires Reproduces(lex, v, page, s)
    requires FoundAgain(lex, LiveStep(lex, w, s).0.trace)
    requires w.view(s.page).Elements?
    requires var plan := w.plan(s.trace + [Snapped(w.view(s.page).es)] + [ModelCalled]);
      plan == if text.Some? then TypePlan(i, text.value) else ClickPlan(i)
    ensures Reproduces(lex, v, page, LiveStep(lex, w, s).0)
  {
    var es := w.view(s.page).es;
    PlannedChoice(lex, w, s, i, text);
    ChoiceReproduces(lex, w, v, page, s, es, i, text);
    ReproducesSame(lex, v, page, ChosenStep(lex, w, Log(Log(s, Snapped(es)), ModelCalled), es, i, text),
                   LiveStep(lex, w, s).0);
  }

  lemma PlannedKeyReproduces<P(!new)>(lex: Lexicon, w: World<P>, v: World<P>, page: P, s: State<P>, key: string)
    requires SameWindow(w, v) && GrantsAll(v)
    requires Reproduces(lex, v, page, s)
    requires w.view(s.page).Elements?
    requires w.plan(s.trace + [Snapped(w.view(s.page).es)] + [ModelCalled]) == KeyPlan(key)
    ensures Reproduces(lex, v, page, LiveStep(lex, w, s).0)
  {
    var es := w.view(s.page).es;
    var s1 := Log(Log(s, Snapped(es)), ModelCalled);
    SnapReproduces(lex, w, v, page, s, es, true);
    KeyReproduces(lex, w, v, page, s1, key, KeyRecord(key));
    ReproducesSame(lex, v, page, KeyStep(lex, w, s1, key, KeyRecord(key)), LiveStep(lex, w, s).0);
  }

  predicate Idle(plan: Plan) {
    !plan.ClickPlan? && !plan.TypePlan? && !plan.KeyPlan?
  }

  lemma PlannedNothingReproduces<P(!new)>(lex: Lexicon, w: World<P>, v: World<P>, page: P, s: State<P>)
    requires Reproduces(lex, v, page, s)
    requires w.view(s.page).Elements?
    requires Idle(w.plan(s.trace + [Snapped(w.view(s.page).es)] + [ModelCalled]))
    ensures Reproduces(lex, v, page, LiveStep(lex, w, s).0)
  {
    var es := w.view(s.page).es;
    SnapReproduces(lex, w, v, page, s, es, true);
    ReproducesSame(lex, v, page, Log(Log(s, Snapped(es)), ModelCalled), LiveStep(lex, w, s).0);
  }

  lemma LiveStepReproduces<P(!new)>(lex: Lexicon, w: World<P>, v: World<P>, page: P, s: State<P>)
    requires SameWindow(w, v) && GrantsAll(v)
    requires Reproduces(lex, v, page, s)
    requires FoundAgain(lex, LiveStep(lex, w, s).0.trace)
    ensures Reproduces(lex, v, page, LiveStep(lex, w, s).0)
  {
    if w.view(s.page).Elements? {
      var es := w.view(s.page).es;
      match w.plan(s.trace + [Snapped(es)] + [ModelCalled]) {
        case ClickPlan(i) => PlannedChoiceReproduces(lex, w, v, page, s, i, None);
        case TypePlan(i, text) => PlannedChoiceReproduces(lex, w, v, page, s, i, Some(text));
        case KeyPlan(key) => PlannedKeyReproduces(lex, w, v, page, s, key);
        case _ => PlannedNothingReproduces(lex, w, v, page, s);
      }
    }
  }

  lemma ReproducesSame<P>(lex: Lexicon, v: World<P>, page: P, s: State<P>, t: State<P>)
    requires s == t
    ensures Reproduces(lex, v, page, s) ==> Reproduces(lex, v, page, t)
  {}

  lemma LiveAgainStep<P>(lex: Lexicon, w: World<P>, s: State<P>, turns: nat)
    requires turns > 0 && FoundAgain(lex, Live(lex, w, s, turns).0.trace)
    ensures var (s1, end) := LiveStep(lex, w, s);
      && FoundAgain(lex, s1.trace)
      && (end.Going? ==> FoundAgain(lex, Live(lex, w, s1, turns - 1).0.trace))
      && Live(lex, w, s, turns).0 == if end.Going? then Live(lex, w, s1, turns - 1).0 else s1
  {
    var (s1, end) := LiveStep(lex, w, s);
    if end.Going? {
      LiveTrace(lex, w, s1, turns - 1);
      AgainPrefix(lex, s1.trace, Live(lex, w, s1, turns - 1).0.trace);
    }
  }

  // The state after one turn, and whether the run goes on from it.
  lemma LiveNext<P(!new)>(lex: Lexicon, w: World<P>, v: World<P>, page: P, s: State<P>, turns: nat)
    returns (s1: State<P>, going: bool)
    requires turns > 0 && SameWindow(w, v) && GrantsAll(v)
    requires Reproduces(lex, v, page, s)
    requires FoundAgain(lex, Live(lex, w, s, turns).0.trace)
    ensures Reproduces(lex, v, page, s1)
    ensures Live(lex, w, s, turns).0 == if going then Live(lex, w, s1, turns - 1).0 else s1
    ensures going ==> FoundAgain(lex, Live(lex, w, s1, turns - 1).0.trace)
  {
    LiveAgainStep(lex, w, s, turns);
    LiveStepReproduces(lex, w, v, page, s);
    s1, going := LiveStep(lex, w, s).0, LiveStep(lex, w, s).1.Going?;
    ReproducesSame(lex, v, page, LiveStep(lex, w, s).0, s1);
  }

  lemma {:induction false} LiveReproduces<P(!new)>(lex: Lexicon, w: World<P>, v: World<P>, page: P, s: State<P>, turns: nat)
    requires SameWindow(w, v) && GrantsAll(v)
    requires Reproduces(lex, v, page, s)
    requires FoundAgain(lex, Live(lex, w, s, turns).0.trace)
    ensures Reproduces(lex, v, page, Live(lex, w, s, turns).0)
    decreases turns
  {
    if turns > 0 {
      var s1, going := LiveNext(lex, w, v, page, s, turns);
      if going {
        LiveReproduces(lex, w, v, page, s1, turns - 1);
        ReproducesSame(lex, v, page, Live(lex, w, s1, turns - 1).0, Live(lex, w, s, turns).0);
      } else {
        ReproducesSame(lex, v, page, s1, Live(lex, w, s, turns).0);
      }
    }
  }

  // Record, then replay: on the same window, when every index the live run clicked is found
  // again by its role and label, the replay of what it recorded issues exactly the live
  // commands, calls no model, ends on the same page and emits the same trajectory.
  // Only the replay's approvals must be granted; the live run's may be anything.
  lemma RecordReplayRoundTrip<P(!new)>(lex: Lexicon, live: World<P>, again: World<P>, page: P, turns: nat)
    requires SameWindow(live, again) && GrantsAll(again)
    requires FoundAgain(lex, Live(lex, live, Start(page), turns).0.trace)
    ensures var (s, end) := Live(lex, live, Start(page), turns);
      var (t, tend) := Replay(lex, again, Start(page), s.steps);
      && tend == Finished
      && Commands(t.trace) == Commands(s.trace)
      && NoModel(t.trace)
      && t.page == s.page
      && t.steps == s.steps
      && (end == Finished ==> Emitted(t, tend) == Emitted(s, end))
  {
    LiveReproduces(lex, live, again, page, Start(page), turns);
  }

  // ------------------------------------------------------------------
  // Replay is stable after healing
  // ------------------------------------------------------------------

  lemma MatchedReproduces<P(!new)>(lex: Lexicon, w: World<P>, v: World<P>, page: P, s0: State<P>, es: seq<Element>, el: Element, r: Recorded)
    requires SameWindow(w, v) && GrantsAll(v)
    requires Reproduces(lex, v, page, s0)
    requires w.view(s0.page) == Elements(es)
    requires IsAction(r, "click") || IsAction(r, "type")
    requires FindElement(lex, es, r.role, r.name) == Some(el)
    ensures Reproduces(lex, v, page, MatchedStep(lex, w, Log(s0, Snapped(es)), el, r))
  {
    var s := Log(s0, Snapped(es));
    var t := Replay(lex, v, Start(page), s0.steps).0;
    LogRetraces(s0, t, Snapped(es));
    var recorded := OrEmpty(r.name);
    var shown := if lex.sendLike(el.name) then el.name else recorded;
    var needed := lex.sendLike(recorded) || lex.sendLike(el.name);
    GateRetraces(w, v, s, t, needed, shown, false, "");
    var (s1, go) := Gate(w, s, needed, shown);
    if go { SnocReproduces(lex, w, v, page, s0, s1, es, el, r); }
  }

  lemma HealedReproduces<P(!new)>(lex: Lexicon, w: World<P>, v: World<P>, page: P, s: State<P>, es: seq<Element>, r: Recorded)
    requires SameWindow(w, v) && GrantsAll(v)
    requires Reproduces(lex, v, page, s)
    requires w.view(s.page) == Elements(es)
    requires FoundAgain(lex, HealedStep(lex, w, Log(s, Snapped(es)), es, r).0.trace)
    ensures Reproduces(lex, v, page, HealedStep(lex, w, Log(s, Snapped(es)), es, r).0)
  {
    var s1 := Log(Log(s, Snapped(es)), ModelCalled);
    match w.heal(s1.trace, r)
    case ClickPlan(i) => ChoiceReproduces(lex, w, v, page, s, es, i, None);
    case TypePlan(i, text) => ChoiceReproduces(lex, w, v, page, s, es, i, Some(text));
    case _ => SnapReproduces(lex, w, v, page, s, es, true);
  }

  lemma ReplayStepReproduces<P(!new)>(lex: Lexicon, w: World<P>, v: World<P>, page: P, s: State<P>, r: Recorded)
    requires SameWindow(w, v) && GrantsAll(v)
    requires Reproduces(lex, v, page, s)
    requires FoundAgain(lex, ReplayStep(lex, w, s, r).0.trace)
    ensures Reproduces(lex, v, page, ReplayStep(lex, w, s, r).0)
  {
    if IsAction(r, "press_key") {
      KeyReproduces(lex, w, v, page, s, OrEmpty(r.key), r);
    } else if (IsAction(r, "click") || IsAction(r, "type")) && w.view(s.page).Elements? {
      var es := w.view(s.page).es;
      var s1 := Log(s, Snapped(es));
      var found := FindElement(lex, es, r.role, r.name);
      if found.Some? {
        MatchedReproduces(lex, w, v, page, s, es, found.value, r);
      } else {
        HealedReproduces(lex, w, v, page, s, es, r);
      }
    }
  }

  lemma {:induction false} ReplayReproduces<P(!new)>(lex: Lexicon, w: World<P>, v: World<P>, page: P, s: State<P>, steps: seq<Recorded>)
    requires SameWindow(w, v) && GrantsAll(v)
    requires Reproduces(lex, v, page, s)
    requires FoundAgain(lex, Replay(lex, w, s, steps).0.trace)
    ensures Reproduces(lex, v, page, Replay(lex, w, s, steps).0)
    decreases |steps|
  {
    if steps != [] {
      var (s1, end) := ReplayStep(lex, w, s, steps[0]);
      if end.Going? { ReplayTrace(lex, w, s1, steps[1..]); }
      AgainPrefix(lex, s1.trace, Replay(lex, w, s, steps).0.trace);
      ReplayStepReproduces(lex, w, v, page, s, steps[0]);
      if end.Going? { ReplayReproduces(lex, w, v, page, s1, steps[1..]); }
    }
  }

  // Whatever steps are replayed and whatever the operator answers, when every index the
  // healer chose is found again, replaying the emitted trajectory with approvals granted
  // issues the commands the first replay issued, never heals, and emits it unchanged.
  lemma ReplayStableAfterHealing<P(!new)>(lex: Lexicon, first: World<P>, second: World<P>, page: P, steps: seq<Recorded>)
    requires SameWindow(first, second) && GrantsAll(second)
    requires FoundAgain(lex, Replay(lex, first, Start(page), steps).0.trace)
    ensures var (s, end) := Replay(lex, first, Start(page), steps);
      var (t, tend) := Replay(lex, second, Start(page), s.steps);
      && tend == Finished
      && Commands(t.trace) == Commands(s.trace)
      && NoModel(t.trace)
      && t.steps == s.steps
      && (end == Finished ==> Emitted(t, tend) == Emitted(s, end))
  {
    ReplayReproduces(lex, first, second, page, Start(page), steps);
  }
}
