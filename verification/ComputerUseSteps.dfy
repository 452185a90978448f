/** What each turn of the runner does: which element a recorded step finds, which commands a
    plan or a recorded step leads to, and what is recorded. */
module ComputerUseSteps {
  import opened Wrappers
  import opened ComputerUse
  import opened ComputerUseGate

  // ------------------------------------------------------------------
  // Which element is found
  // ------------------------------------------------------------------

  // The leftmost element that qualifies, if any does.
  ghost predicate Leftmost(es: seq<Element>, p: Element -> bool, r: Option<Element>) {
    match r
    case None => forall k | 0 <= k < |es| :: !p(es[k])
    case Some(e) => exists k | 0 <= k < |es| :: es[k] == e && p(e) && forall j | 0 <= j < k :: !p(es[j])
  }

  lemma {:induction false} FirstIsLeftmost(es: seq<Element>, p: Element -> bool)
    ensures Leftmost(es, p, First(es, p))
  {
    if es != [] && !p(es[0]) {
      FirstIsLeftmost(es[1..], p);
      match First(es, p) {
        case None =>
          forall k | 0 <= k < |es| ensures !p(es[k]) {
            if k > 0 { assert es[k] == es[1..][k - 1]; }
          }
        case Some(e) =>
          var k :| 0 <= k < |es[1..]| && es[1..][k] == e && p(e) && forall j | 0 <= j < k :: !p(es[1..][j]);
          assert es[k + 1] == e;
          forall j | 0 <= j < k + 1 ensures !p(es[j]) {
            if j > 0 { assert es[j] == es[1..][j - 1]; }
          }
      }
    } else if es != [] {
      assert es[0] == First(es, p).value;
    }
  }

  ghost predicate Any(es: seq<Element>, p: Element -> bool) {
    exists k | 0 <= k < |es| :: p(es[k])
  }

  // The search: the first element with the role and the stripped label; failing that, unless
  // the label is blank, the first of the role whose label has it as a part, case aside; and
  // failing that the first of any role with the label, case and outer white space aside.
  lemma FindElementRanks(lex: Lexicon, es: seq<Element>, role: Option<string>, name: Option<string>)
    ensures var wanted := lex.strip(OrEmpty(name));
      var low := lex.lower(wanted);
      var exact := (e: Element) => Some(e.role) == role && e.name == wanted;
      var near := (e: Element) => Some(e.role) == role && lex.contains(lex.lower(e.name), low);
      var named := (e: Element) => lex.lower(lex.strip(e.name)) == low;
      var found := FindElement(lex, es, role, name);
      if Any(es, exact) then Leftmost(es, exact, found)
      else if low == "" then found == None
      else if Any(es, near) then Leftmost(es, near, found)
      else Leftmost(es, named, found)
  {
    var wanted := lex.strip(OrEmpty(name));
    var low := lex.lower(wanted);
    FirstIsLeftmost(es, (e: Element) => Some(e.role) == role && e.name == wanted);
    FirstIsLeftmost(es, (e: Element) => Some(e.role) == role && lex.contains(lex.lower(e.name), low));
    FirstIsLeftmost(es, (e: Element) => low == lex.lower(lex.strip(e.name)));
  }

  // ------------------------------------------------------------------
  // What one step does
  // ------------------------------------------------------------------

  function Acted<P>(w: World<P>, page: P, cs: seq<Command>): P {
    if cs == [] then page else Acted(w, w.act(page, cs[0]), cs[1..])
  }

  // From s to t these commands were issued, in order and on the page, and these steps
  // recorded; `typed` says whether a typed text may now be submitted.
  ghost predicate Does<P>(w: World<P>, s: State<P>, t: State<P>, cs: seq<Command>, rs: seq<Recorded>, typed: bool) {
    && Commands(t.trace) == Commands(s.trace) + cs && t.page == Acted(w, s.page, cs)
    && t.steps == s.steps + rs && t.typed == typed
  }

  lemma LogDoes<P>(w: World<P>, s: State<P>, e: Event)
    requires !e.Did?
    ensures Does(w, s, Log(s, e), [], [], s.typed)
  {
    CommandsLog(s.trace, e);
  }

  lemma NothingThen<P>(w: World<P>, s: State<P>, m: State<P>, t: State<P>, cs: seq<Command>, rs: seq<Recorded>, typed: bool)
    requires Does(w, s, m, [], [], s.typed) && Does(w, m, t, cs, rs, typed)
    ensures Does(w, s, t, cs, rs, typed)
  {
  }

  lemma GateDoes<P>(w: World<P>, s: State<P>, needed: bool, name: string)
    ensures var (t, go) := Gate(w, s, needed, name);
      Does(w, s, t, [], [], s.typed) && (go <==> (needed ==> w.approve(s.trace, name)))
  {
    LogDoes(w, s, Asked(name, w.approve(s.trace, name)));
  }

  lemma ActedTwo<P>(w: World<P>, page: P, c: Command, d: Command)
    ensures Acted(w, page, [c, d]) == w.act(w.act(page, c), d)
  {
    assert [c, d][1..] == [d] && [d][1..] == [];
    assert Acted(w, w.act(page, c), [d]) == w.act(w.act(page, c), d);
  }

  // A click, and a typing after its own click.
  lemma PerformDoes<P>(w: World<P>, s: State<P>, i: int, text: Option<string>, r: Recorded)
    ensures Does(w, s, Record(Perform(w, s, i, text), r),
                 if text.Some? then [Click(i), TypeText(i, text.value)] else [Click(i)], [r], s.typed || text.Some?)
  {
    CommandsLog(s.trace, Did(Click(i)));
    assert [Click(i)][1..] == [];
    if text.Some? {
      ActedTwo(w, s.page, Click(i), TypeText(i, text.value));
      CommandsLog(s.trace + [Did(Click(i))], Did(TypeText(i, text.value)));
    }
  }

  // The element an index names: the leftmost that has it.
  lemma ByIndexIsLeftmost(es: seq<Element>, i: int)
    ensures Leftmost(es, (e: Element) => e.i == i, ByIndex(es, i))
  {
    FirstIsLeftmost(es, (e: Element) => e.i == i);
  }

  // An index the model chose in state s: asked about when its element's label is send-like;
  // unless denied, clicked, typed into, and recorded with the element's role and label.
  ghost predicate ChoiceDone<P>(lex: Lexicon, w: World<P>, s: State<P>, t: State<P>, es: seq<Element>, i: int, text: Option<string>) {
    var e := ByIndex(es, i);
    var shown := if e.Some? then e.value.name else "";
    if lex.sendLike(shown) && !w.approve(s.trace, shown) then Does(w, s, t, [], [], s.typed)
    else
      Does(w, s, t, if text.Some? then [Click(i), TypeText(i, text.value)] else [Click(i)],
           [Recorded(Some(if text.Some? then "type" else "click"), if e.Some? then Some(e.value.role) else None,
                     if e.Some? then Some(e.value.name) else None, text, None)],
           s.typed || text.Some?)
  }

  lemma ChosenDoes<P>(lex: Lexicon, w: World<P>, s: State<P>, es: seq<Element>, i: int, text: Option<string>)
    ensures ChoiceDone(lex, w, s, ChosenStep(lex, w, s, es, i, text), es, i, text)
  {
    var shown := LabelAt(es, i);
    GateDoes(w, s, lex.sendLike(shown), shown);
    var (m, go) := Gate(w, s, lex.sendLike(shown), shown);
    if go {
      PerformDoes(w, m, i, text, Target(es, i, text));
      NothingThen(w, s, m, ChosenStep(lex, w, s, es, i, text),
                  if text.Some? then [Click(i), TypeText(i, text.value)] else [Click(i)], [Target(es, i, text)], s.typed || text.Some?);
    }
  }

  // Whether a key is pressed: it is a listed one, and if it would submit a typed text the
  // operator grants it.
  predicate Pressed<P>(lex: Lexicon, w: World<P>, s: State<P>, key: string) {
    Listed(lex, key) && (Submits(lex, key) && s.typed ==> w.approve(s.trace, "Press " + key))
  }

  lemma KeyDoes<P>(lex: Lexicon, w: World<P>, s: State<P>, key: string, r: Recorded)
    ensures var t := KeyStep(lex, w, s, key, r);
      if Pressed(lex, w, s, key) then Does(w, s, t, [PressKey(key)], [r], s.typed && !Submits(lex, key))
      else Does(w, s, t, [], [], s.typed)
  {
    KeysByName(lex, key);
    var needed := SubmitKey(lex, key) && s.typed;
    GateDoes(w, s, needed, "Press " + key);
    var (m, go) := Gate(w, s, needed, "Press " + key);
    CommandsLog(m.trace, Did(PressKey(key)));
    assert [PressKey(key)][1..] == [];
  }

  // ------------------------------------------------------------------
  // A turn of the live loop
  // ------------------------------------------------------------------

  // The live loop takes a snapshot, asks the model and does what it plans: a click, a typing
  // or a key as above; "done" and no call end the run, an unreadable call fails it, and an
  // unknown tool is passed over.
  lemma LiveStepDoes<P>(lex: Lexicon, w: World<P>, s: State<P>)
    ensures var (t, end) := LiveStep(lex, w, s);
      match w.view(s.page)
      case SnapshotError(_) => t == s && end == Errored
      case Elements(es) =>
        var m := s.(trace := s.trace + [Snapped(es), ModelCalled]);
        match w.plan(m.trace)
        case ClickPlan(i) => end == Going && ChoiceDone(lex, w, m, t, es, i, None)
        case TypePlan(i, text) => end == Going && ChoiceDone(lex, w, m, t, es, i, Some(text))
        case KeyPlan(key) =>
          && end == Going
          && (if Pressed(lex, w, m, key) then
                Does(w, m, t, [PressKey(key)], [Recorded(Some("press_key"), None, None, None, Some(key))],
                     s.typed && !Submits(lex, key))
              else Does(w, m, t, [], [], s.typed))
        case DonePlan => t == m && end == Finished
        case NoCall => t == m && end == Finished
        case Broken => t == m && end == Errored
        case OtherPlan(_) => t == m && end == Going
  {
    if w.view(s.page).Elements? {
      var es := w.view(s.page).es;
      var m := Log(Log(s, Snapped(es)), ModelCalled);
      assert m.trace == s.trace + [Snapped(es), ModelCalled];
      match w.plan(m.trace) {
        case ClickPlan(i) => ChosenDoes(lex, w, m, es, i, None);
        case TypePlan(i, text) => ChosenDoes(lex, w, m, es, i, Some(text));
        case KeyPlan(key) => KeyDoes(lex, w, m, key, KeyRecord(key));
        case _ =>
      }
    }
  }

  // ------------------------------------------------------------------
  // A step of the replay
  // ------------------------------------------------------------------

  // A matched step: asked about when the recorded label or the one about to be clicked is
  // send-like, showing the latter if it is; unless denied, clicked at the element found,
  // typed into when it was a typing, and recorded as it was.
  lemma MatchedDoes<P>(lex: Lexicon, w: World<P>, s: State<P>, el: Element, r: Recorded)
    ensures var t := MatchedStep(lex, w, s, el, r);
      var recorded := OrEmpty(r.name);
      var shown := if lex.sendLike(el.name) then el.name else recorded;
      if (lex.sendLike(recorded) || lex.sendLike(el.name)) && !w.approve(s.trace, shown) then Does(w, s, t, [], [], s.typed)
      else if r.action == Some("type") then
        Does(w, s, t, [Click(el.i), TypeText(el.i, OrEmpty(r.text))], [r], true)
      else Does(w, s, t, [Click(el.i)], [r], s.typed)
  {
    var recorded := OrEmpty(r.name);
    var shown := if lex.sendLike(el.name) then el.name else recorded;
    var needed := lex.sendLike(recorded) || lex.sendLike(el.name);
    GateDoes(w, s, needed, shown);
    var (m, go) := Gate(w, s, needed, shown);
    if go {
      var text := if IsAction(r, "type") then Some(OrEmpty(r.text)) else None;
      PerformDoes(w, m, el.i, text, r);
      NothingThen(w, s, m, MatchedStep(lex, w, s, el, r),
                  if text.Some? then [Click(el.i), TypeText(el.i, text.value)] else [Click(el.i)], [r], s.typed || text.Some?);
    }
  }

  // The replay presses recorded keys, passes over unknown actions, does a matched click or
  // typing without the model, and otherwise asks the healer once and does what it chose.
  lemma ReplayStepDoes<P>(lex: Lexicon, w: World<P>, s: State<P>, r: Recorded)
    ensures var (t, end) := ReplayStep(lex, w, s, r);
      if r.action == Some("press_key") then
        end == Going && t == KeyStep(lex, w, s, OrEmpty(r.key), r)
      else if r.action != Some("click") && r.action != Some("type") then t == s && end == Going
      else
        match w.view(s.page)
        case SnapshotError(_) => t == s && end == Errored
        case Elements(es) =>
          var found := FindElement(lex, es, r.role, r.name);
          var m := s.(trace := s.trace + [Snapped(es)]);
          if found.Some? then end == Going && t == MatchedStep(lex, w, m, found.value, r)
          else
            var h := s.(trace := s.trace + [Snapped(es), ModelCalled]);
            match w.heal(h.trace, r)
            case ClickPlan(i) => end == Going && ChoiceDone(lex, w, h, t, es, i, None)
            case TypePlan(i, text) => end == Going && ChoiceDone(lex, w, h, t, es, i, Some(text))
            case Broken => t == h && end == Errored
            case _ => t == h && end == Going
  {
    if (r.action == Some("click") || r.action == Some("type")) && w.view(s.page).Elements? {
      var es := w.view(s.page).es;
      var found := FindElement(lex, es, r.role, r.name);
      if found.None? {
        var h := Log(Log(s, Snapped(es)), ModelCalled);
        assert h.trace == s.trace + [Snapped(es), ModelCalled];
        match w.heal(h.trace, r) {
          case ClickPlan(i) => ChosenDoes(lex, w, h, es, i, None);
          case TypePlan(i, text) => ChosenDoes(lex, w, h, es, i, Some(text));
          case _ =>
        }
      }
    }
  }

  // ------------------------------------------------------------------
  // The page a run ends on
  // ------------------------------------------------------------------

  lemma {:induction false} ActedAppend<P>(w: World<P>, page: P, a: seq<Command>, b: seq<Command>)
    ensures Acted(w, page, a + b) == Acted(w, Acted(w, page, a), b)
  {
    if a == [] {
      assert a + b == b;
    } else {
      assert (a + b)[0] == a[0] && (a + b)[1..] == a[1..] + b;
      ActedAppend(w, w.act(page, a[0]), a[1..], b);
    }
  }

  ghost predicate OnPage<P>(w: World<P>, page: P, s: State<P>) {
    s.page == Acted(w, page, Commands(s.trace))
  }

  lemma StaysOnPage<P>(w: World<P>, page: P, s: State<P>, t: State<P>, cs: seq<Command>, rs: seq<Recorded>, typed: bool)
    requires OnPage(w, page, s) && Does(w, s, t, cs, rs, typed)
    ensures OnPage(w, page, t)
  {
    ActedAppend(w, page, Commands(s.trace), cs);
  }

  lemma LogOnPage<P>(w: World<P>, page: P, s: State<P>, e: Event)
    requires OnPage(w, page, s) && !e.Did?
    ensures OnPage(w, page, Log(s, e))
  {
    LogDoes(w, s, e);
    StaysOnPage(w, page, s, Log(s, e), [], [], s.typed);
  }

  lemma KeyOnPage<P>(lex: Lexicon, w: World<P>, page: P, s: State<P>, key: string, r: Recorded)
    requires OnPage(w, page, s)
    ensures OnPage(w, page, KeyStep(lex, w, s, key, r))
  {
    KeyDoes(lex, w, s, key, r);
    if Pressed(lex, w, s, key) {
      StaysOnPage(w, page, s, KeyStep(lex, w, s, key, r), [PressKey(key)], [r], s.typed && !Submits(lex, key));
    } else {
      StaysOnPage(w, page, s, KeyStep(lex, w, s, key, r), [], [], s.typed);
    }
  }

  lemma LiveStepOnPage<P>(lex: Lexicon, w: World<P>, page: P, s: State<P>)
    requires OnPage(w, page, s)
    ensures OnPage(w, page, LiveStep(lex, w, s).0)
  {
    if w.view(s.page).Elements? {
      var es := w.view(s.page).es;
      var m := Log(Log(s, Snapped(es)), ModelCalled);
      LogOnPage(w, page, s, Snapped(es));
      LogOnPage(w, page, Log(s, Snapped(es)), ModelCalled);
      match w.plan(m.trace) {
        case ClickPlan(i) => ChoiceOnPage(lex, w, page, m, es, i, None);
        case TypePlan(i, text) => ChoiceOnPage(lex, w, page, m, es, i, Some(text));
        case KeyPlan(key) => KeyOnPage(lex, w, page, m, key, KeyRecord(key));
        case _ =>
      }
    }
  }

  lemma ChoiceOnPage<P>(lex: Lexicon, w: World<P>, page: P, s: State<P>, es: seq<Element>, i: int, text: Option<string>)
    requires OnPage(w, page, s)
    ensures OnPage(w, page, ChosenStep(lex, w, s, es, i, text))
  {
    var shown := LabelAt(es, i);
    var (m, go) := Gate(w, s, lex.sendLike(shown), shown);
    GateDoes(w, s, lex.sendLike(shown), shown);
    StaysOnPage(w, page, s, m, [], [], s.typed);
    if go {
      PerformDoes(w, m, i, text, Target(es, i, text));
      StaysOnPage(w, page, m, ChosenStep(lex, w, s, es, i, text),
                  if text.Some? then [Click(i), TypeText(i, text.value)] else [Click(i)], [Target(es, i, text)], m.typed || text.Some?);
    }
  }

  // A live run ends on the page its commands, in order, make of the first.
  lemma {:induction false} LivePage<P>(lex: Lexicon, w: World<P>, page: P, s: State<P>, turns: nat)
    requires OnPage(w, page, s)
    ensures OnPage(w, page, Live(lex, w, s, turns).0)
    decreases turns
  {
    if turns > 0 {
      LiveStepOnPage(lex, w, page, s);
      var (s1, end) := LiveStep(lex, w, s);
      if end.Going? { LivePage(lex, w, page, s1, turns - 1); }
    }
  }
}
