/** Whole sessions of the feed: the operator's map of expanded threads, the frames drawn
    from it through the two caches, and exactly when a cached layout is the wrong one. */
module FeedSession {
  import opened Text
  import opened KeyStream
  import opened RenderCache
  import opened Threads
  import opened Viewport

  // Expanding and collapsing are the operator's; `Reset` is `/collapse all` or a workspace
  // reset; a frame is one call of the virtualized viewport.
  datatype Event =
    | Expand(id: string)
    | Collapse(id: string)
    | Reset
    | Frame(view: View, defaultExpand: bool, messages: seq<Message>, msgH: int, scroll: int, tail: seq<Line>)

  function Step(e: map<string, bool>, ev: Event): map<string, bool> {
    match ev
    case Expand(id) => e[id := true]
    case Collapse(id) => e - {id}
    case Reset => map[]
    case Frame(_, flag, ms, _, _, _) => WithDefaults(ms, e, flag)
  }

  // The operator's map after the first n events.
  function MapAt(events: seq<Event>, n: nat): map<string, bool>
    requires n <= |events|
  {
    if n == 0 then map[] else Step(MapAt(events, n - 1), events[n - 1])
  }

  predicate Draws(events: seq<Event>, i: nat) {
    i < |events| && events[i].Frame? && events[i].messages != []
  }

  function AskAt(events: seq<Event>, i: nat): Ask
    requires Draws(events, i)
  {
    Ask(events[i].defaultExpand, events[i].messages, MapAt(events, i + 1))
  }

  function PlainFrame(r: Renderer, ev: Event, after: map<string, bool>): seq<Line>
    requires ev.Frame?
  {
    LastN(FullFeed(r, ev.view, ev.messages, after, ev.tail), Limit(ev.msgH, ev.scroll))
  }

  function Shown(r: Renderer, ev: Event, after: map<string, bool>): seq<seq<Line>> {
    if ev.Frame? then [PlainFrame(r, ev, after)] else []
  }

  // What the frames among the first n events show with no cache at all.
  function PlainFrames(r: Renderer, events: seq<Event>, n: nat): seq<seq<Line>>
    requires n <= |events|
  {
    if n == 0 then [] else PlainFrames(r, events, n - 1) + Shown(r, events[n - 1], MapAt(events, n))
  }

  // ------------------------------------------------------------------
  // What a session asks of the caches
  // ------------------------------------------------------------------

  ghost predicate LayoutAsked(events: seq<Event>, a: Ask) {
    exists i: nat :: Draws(events, i) && a == AskAt(events, i)
  }

  ghost predicate BlockOfFrame(names: Names, v: View, a: Ask, b: Block) {
    b == Separator(v) || exists tm <- Layouter(names)(a) :: b == BlockOf(v, tm)
  }

  ghost predicate BlockAsked(names: Names, events: seq<Event>, b: Block) {
    exists i: nat :: Draws(events, i) && BlockOfFrame(names, events[i].view, AskAt(events, i), b)
  }

  ghost function AskedBy(names: Names, events: seq<Event>): Asked {
    Asked(iset a: Ask | LayoutAsked(events, a), iset b: Block | BlockAsked(names, events, b))
  }

  // The hash keeps the streams of these arguments apart.
  ghost predicate Separates<A(!new)>(hash: string -> nat, asked: iset<A>, streamOf: A -> string) {
    forall a, b | a in asked && b in asked && hash(streamOf(a)) == hash(streamOf(b)) :: streamOf(a) == streamOf(b)
  }

  ghost function LayoutStream(): Ask -> string {
    (a: Ask) => Stream(ThreadedParts(a.defaultExpand, a.messages, a.expanded))
  }

  ghost function BlockStream(): Block -> string {
    (b: Block) => Stream(BlockParts(b))
  }

  ghost predicate HashSeparates(r: Renderer, events: seq<Event>) {
    var asked := AskedBy(r.names, events);
    Separates(r.hash, asked.layouts, LayoutStream()) && Separates(r.hash, asked.blocks, BlockStream())
  }

  // Messages as a broker sends them: plain ids, no NUL bytes, an id is a root's or a
  // reply's, and messages alike in every hashed field are alike in reactions and usage.
  ghost predicate CleanMessage(names: Names, m: Message) {
    PlainId(m.id) && NulFree(Fields(m)) && NulFree(ReactionParts(m.reactions)) && NUL !in names(m.sender)
  }

  ghost predicate RootsFixed(world: set<Message>) {
    forall m, n | m in world && n in world && m.id == n.id :: m.replyTo == "" <==> n.replyTo == ""
  }

  ghost predicate CleanWorld(names: Names, world: set<Message>) {
    FieldsTell(world) && RootsFixed(world) && forall m <- world :: CleanMessage(names, m)
  }

  ghost predicate KnownId(world: set<Message>, id: string) {
    exists m <- world :: m.id == id
  }

  ghost predicate RootId(world: set<Message>, id: string) {
    exists m <- world :: m.id == id && m.replyTo == ""
  }

  ghost predicate EventWithin(world: set<Message>, ev: Event) {
    && (ev.Frame? ==> forall m <- ev.messages :: m in world)
    && (ev.Expand? ==> KnownId(world, ev.id))
  }

  ghost predicate Within(world: set<Message>, events: seq<Event>) {
    forall ev <- events :: EventWithin(world, ev)
  }

  // Two asks with one key: the same default, messages and expanded ids, and both maps have
  // entries or neither has.
  ghost predicate SameAsk(a: Ask, b: Ask) {
    && a.defaultExpand == b.defaultExpand && a.messages == b.messages
    && ExpandedKeys(a.expanded) == ExpandedKeys(b.expanded) && (a.expanded == map[] <==> b.expanded == map[])
  }

  // Frames that expand by default and have one key agree on which thread roots are
  // collapsed.
  ghost predicate FramesAgree(events: seq<Event>) {
    forall i: nat, j: nat | Draws(events, i) && Draws(events, j) && events[i].defaultExpand
      && SameAsk(AskAt(events, i), AskAt(events, j)) ::
      RootsAgree(events[j].messages, MapAt(events, i + 1), MapAt(events, j + 1))
  }

  ghost predicate NoneCollapsed(e: map<string, bool>) {
    forall id <- e :: e[id]
  }

  // No thread is marked collapsed when a frame is drawn with threads expanded by default.
  ghost predicate ModesApart(events: seq<Event>) {
    forall i: nat | Draws(events, i) && events[i].defaultExpand :: NoneCollapsed(MapAt(events, i))
  }

  ghost predicate Steady(events: seq<Event>, flag: bool) {
    forall ev <- events :: ev.Frame? ==> ev.defaultExpand == flag
  }

  // ------------------------------------------------------------------
  // The operator's map over a run
  // ------------------------------------------------------------------

  // Nothing from event i to event n takes the id out of the map.
  ghost predicate Kept(events: seq<Event>, i: nat, n: nat, id: string)
    requires n <= |events|
  {
    forall j | i < j < n :: events[j] != Collapse(id) && events[j] != Reset
  }

  // The operator expanded the id and has not collapsed it since.
  ghost predicate Opened(events: seq<Event>, n: nat, id: string)
    requires n <= |events|
  {
    exists i | 0 <= i < n :: events[i] == Expand(id) && Kept(events, i, n, id)
  }

  // A frame collapsed by default showed the id as a thread root, and it has stayed in the
  // map since.
  ghost predicate Defaulted(events: seq<Event>, n: nat, id: string)
    requires n <= |events|
  {
    exists i | 0 <= i < n ::
      events[i].Frame? && !events[i].defaultExpand && IsThreadRoot(events[i].messages, id) && Kept(events, i, n, id)
  }

  // An id reads as expanded exactly when the operator left it so, and as collapsed exactly
  // when that is not the case and a frame collapsed by default has shown its thread.
  lemma {:induction false} MapTells(events: seq<Event>, n: nat, id: string)
    requires n <= |events|
    ensures id in MapAt(events, n) && MapAt(events, n)[id] <==> Opened(events, n, id)
    ensures Collapsed(MapAt(events, n), id) <==> !Opened(events, n, id) && Defaulted(events, n, id)
  {
    if n > 0 {
      MapTells(events, n - 1, id);
      OpenedNext(events, n - 1, id);
      DefaultedNext(events, n - 1, id);
    }
  }

  lemma OpenedNext(events: seq<Event>, n: nat, id: string)
    requires n < |events|
    ensures Opened(events, n + 1, id) <==>
      events[n] == Expand(id) || (Opened(events, n, id) && events[n] != Collapse(id) && events[n] != Reset)
  {
    if Opened(events, n, id) && events[n] != Collapse(id) && events[n] != Reset {
      var i :| 0 <= i < n && events[i] == Expand(id) && Kept(events, i, n, id);
      assert Kept(events, i, n + 1, id);
    }
    if events[n] == Expand(id) { assert Kept(events, n, n + 1, id); }
    if Opened(events, n + 1, id) {
      var i :| 0 <= i < n + 1 && events[i] == Expand(id) && Kept(events, i, n + 1, id);
      assert Kept(events, i, n, id);
    }
  }

  lemma DefaultedNext(events: seq<Event>, n: nat, id: string)
    requires n < |events|
    ensures Defaulted(events, n + 1, id) <==>
      || (events[n].Frame? && !events[n].defaultExpand && IsThreadRoot(events[n].messages, id))
      || (Defaulted(events, n, id) && events[n] != Collapse(id) && events[n] != Reset)
  {
    if Defaulted(events, n, id) && events[n] != Collapse(id) && events[n] != Reset {
      var i :| 0 <= i < n && events[i].Frame? && !events[i].defaultExpand && IsThreadRoot(events[i].messages, id)
        && Kept(events, i, n, id);
      assert Kept(events, i, n + 1, id);
    }
    assert Kept(events, n, n + 1, id);
    if Defaulted(events, n + 1, id) {
      var i :| 0 <= i < n + 1 && events[i].Frame? && !events[i].defaultExpand && IsThreadRoot(events[i].messages, id)
        && Kept(events, i, n + 1, id);
      assert Kept(events, i, n, id);
    }
  }

  // Every id in the map is a known message's, and one marked collapsed is a thread root's.
  lemma {:induction false} FalseAreRoots(world: set<Message>, events: seq<Event>, n: nat, id: string)
    requires n <= |events| && Within(world, events)
    ensures id in MapAt(events, n) ==> KnownId(world, id)
    ensures Collapsed(MapAt(events, n), id) ==> RootId(world, id)
  {
    if n > 0 {
      FalseAreRoots(world, events, n - 1, id);
      assert EventWithin(world, events[n - 1]);
    }
  }

  // A session whose frames all have the same default never mixes the modes.
  lemma {:induction false} SteadyNoneCollapsed(events: seq<Event>, n: nat)
    requires n <= |events| && Steady(events, true)
    ensures NoneCollapsed(MapAt(events, n))
  {
    if n > 0 {
      SteadyNoneCollapsed(events, n - 1);
      assert events[n - 1].Frame? ==> events[n - 1].defaultExpand;
    }
  }

  lemma SteadyIsApart(events: seq<Event>, flag: bool)
    requires Steady(events, flag)
    ensures ModesApart(events)
  {
    forall i: nat | Draws(events, i) && events[i].defaultExpand ensures NoneCollapsed(MapAt(events, i)) {
      assert events[i] in events;
      SteadyNoneCollapsed(events, i);
    }
  }

  lemma ApartAgrees(events: seq<Event>)
    requires ModesApart(events)
    ensures FramesAgree(events)
  {
    forall i: nat, j: nat | Draws(events, i) && Draws(events, j) && events[i].defaultExpand
      && SameAsk(AskAt(events, i), AskAt(events, j))
      ensures RootsAgree(events[j].messages, MapAt(events, i + 1), MapAt(events, j + 1))
    {
      assert NoneCollapsed(MapAt(events, i)) && NoneCollapsed(MapAt(events, j));
    }
  }

  lemma ReplyUncollapsed(world: set<Message>, events: seq<Event>, n: nat, m: Message)
    requires RootsFixed(world) && Within(world, events) && n <= |events| && m in world && m.replyTo != ""
    ensures !Collapsed(MapAt(events, n), m.id)
  {
    FalseAreRoots(world, events, n, m.id);
    ReplyIsNoRoot(world, m);
  }

  // Every session marks thread roots alone.
  lemma SessionRootsOnly(world: set<Message>, events: seq<Event>, i: nat)
    requires RootsFixed(world) && Within(world, events) && Draws(events, i)
    ensures RootsOnly(events[i].messages, MapAt(events, i + 1))
  {
    var ms, e := events[i].messages, MapAt(events, i + 1);
    assert EventWithin(world, events[i]);
    forall m | m in ms && m.replyTo != "" ensures !Collapsed(e, m.id) {
      ReplyUncollapsed(world, events, i + 1, m);
    }
  }

  // With threads collapsed by default the expanded ids tell every root.
  lemma DefaultsTell(events: seq<Event>, i: nat, j: nat)
    requires Draws(events, i) && Draws(events, j) && !events[i].defaultExpand
    requires SameAsk(AskAt(events, i), AskAt(events, j))
    ensures RootsAgree(events[j].messages, MapAt(events, i + 1), MapAt(events, j + 1))
  {
    var ms, e, f := events[j].messages, MapAt(events, i + 1), MapAt(events, j + 1);
    forall m | m in ms && m.replyTo == "" && HasReplies(ms, m.id) ensures Collapsed(e, m.id) == Collapsed(f, m.id) {
      assert IsThreadRoot(ms, m.id);
      assert m.id in e && m.id in f;
      assert m.id in ExpandedKeys(e) <==> m.id in ExpandedKeys(f);
    }
  }

  lemma ReplyIsNoRoot(world: set<Message>, m: Message)
    requires RootsFixed(world) && m in world && m.replyTo != ""
    ensures !RootId(world, m.id)
  {
  }

  // ------------------------------------------------------------------
  // Parts without NUL bytes
  // ------------------------------------------------------------------

  lemma {:induction false} JoinFree(parts: seq<string>, sep: char, c: char)
    requires c != sep && forall p <- parts :: c !in p
    ensures c !in Join(parts, sep)
  {
    if |parts| > 1 {
      JoinFree(parts[1..], sep, c);
    }
  }

  lemma {:induction false} AllFieldsFree(ms: seq<Message>)
    requires forall m <- ms :: NulFree(Fields(m))
    ensures NulFree(AllFields(ms))
  {
    if ms != [] {
      assert ms[0] in ms && forall m <- ms[1..] :: m in ms;
      AllFieldsFree(ms[1..]);
    }
  }

  lemma ThreadedPartsFree(d: bool, ms: seq<Message>, e: map<string, bool>)
    requires (forall m <- ms :: NulFree(Fields(m))) && PlainKeys(e)
    ensures NulFree(ThreadedParts(d, ms, e))
  {
    AllFieldsFree(ms);
    ItoaNulFree(|ms|);
    var l := Listing(ExpandedKeys(e));
    forall p | p in l ensures NUL !in p {
      assert p in Elems(l);
    }
    JoinFree(l, ',', NUL);
  }

  lemma ShapeFree(tm: Threaded)
    requires NUL !in tm.parentLabel && forall p <- tm.participants :: NUL !in p
    ensures NulFree(ShapeParts(tm))
  {
    ItoaNulFree(tm.depth);
    ItoaNulFree(tm.hiddenReplies);
    JoinFree(tm.participants, ',', NUL);
  }

  lemma {:induction false} SenderFree(ms: seq<Message>, id: string)
    requires forall m <- ms :: NUL !in m.sender
    ensures NUL !in SenderOf(ms, id)
  {
    if ms != [] {
      assert ms[|ms| - 1] in ms && forall m <- ms[..|ms| - 1] :: m in ms;
      SenderFree(ms[..|ms| - 1], id);
    }
  }

  lemma CleanSender(names: Names, m: Message)
    requires CleanMessage(names, m)
    ensures NUL !in m.sender && NUL !in m.replyTo && NUL !in m.id
  {
    assert Fields(m)[0] == m.id && Fields(m)[1] == m.sender && Fields(m)[5] == m.replyTo;
  }

  // The label and participants of an entry made from clean messages.
  lemma EntryFree(names: Names, ms: seq<Message>, e: map<string, bool>, tm: Threaded)
    requires (forall m <- ms :: CleanMessage(names, m)) && Entered(names, ms, e, tm)
    ensures NulFree(ShapeParts(tm))
  {
    forall m | m in ms ensures NUL !in m.sender && NUL !in m.replyTo && NUL !in names(m.sender) {
      CleanSender(names, m);
    }
    SenderFree(ms, tm.message.replyTo);
    ShapeFree(tm);
  }

  // Every block of a clean layout has a plain key.
  lemma LayoutBlocksPlain(names: Names, a: Ask, v: View, tm: Threaded)
    requires forall m <- a.messages :: CleanMessage(names, m)
    requires tm in Layouter(names)(a)
    ensures PlainBlock(BlockOf(v, tm)) && tm.message in a.messages
  {
    LayoutEntries(names, a.messages, a.expanded, tm);
    var sorted := ByTime(a.messages);
    forall m | m in sorted ensures CleanMessage(names, m) {
      ByTimeMembers(a.messages, m);
    }
    EntryFree(names, sorted, a.expanded, tm);
    BlockFree(names, BlockOf(v, tm));
  }

  lemma BlockFree(names: Names, b: Block)
    requires b.MessageBlock? && CleanMessage(names, b.tm.message) && NulFree(ShapeParts(b.tm))
    ensures PlainBlock(b)
  {
    CleanSender(names, b.tm.message);
    ItoaNulFree(b.width);
    ItoaNulFree(b.unread);
    HeadParts(b);
  }

  // ------------------------------------------------------------------
  // The code's keys determine layouts and blocks over a session
  // ------------------------------------------------------------------

  ghost predicate CleanAsk(names: Names, world: set<Message>, a: Ask) {
    && (forall m <- a.messages :: m in world && CleanMessage(names, m))
    && PlainKeys(a.expanded) && NulFree(ThreadedParts(a.defaultExpand, a.messages, a.expanded))
  }

  lemma AskedClean(names: Names, world: set<Message>, events: seq<Event>, i: nat)
    requires CleanWorld(names, world) && Within(world, events) && Draws(events, i)
    ensures CleanAsk(names, world, AskAt(events, i))
  {
    var a := AskAt(events, i);
    assert EventWithin(world, events[i]);
    forall id | id in a.expanded ensures PlainId(id) {
      FalseAreRoots(world, events, i + 1, id);
    }
    ThreadedPartsFree(a.defaultExpand, a.messages, a.expanded);
  }

  lemma SameStreamExactly(names: Names, world: set<Message>, a: Ask, b: Ask)
    requires FieldsTell(world) && CleanAsk(names, world, a) && CleanAsk(names, world, b)
    ensures LayoutStream()(a) == LayoutStream()(b) <==> SameAsk(a, b)
  {
    ThreadedKeysExactly(a.defaultExpand, a.messages, a.expanded, b.defaultExpand, b.messages, b.expanded);
    if Alike(a.messages, b.messages) { SameMessages(world, a.messages, b.messages); }
  }

  lemma SameMessages(world: set<Message>, a: seq<Message>, b: seq<Message>)
    requires Alike(a, b) && FieldsTell(world) && (forall m <- a :: m in world) && forall m <- b :: m in world
    ensures a == b
  {
    forall k | 0 <= k < |a| ensures a[k] == b[k] {
      assert a[k] in a && b[k] in b;
      assert Fields(a[k]) == Fields(b[k]);
    }
  }

  // The same for two frames of a session.
  lemma SameKeyedFrames(names: Names, world: set<Message>, events: seq<Event>, i: nat, j: nat)
    requires CleanWorld(names, world) && Within(world, events) && Draws(events, i) && Draws(events, j)
    ensures LayoutStream()(AskAt(events, i)) == LayoutStream()(AskAt(events, j)) <==>
            SameAsk(AskAt(events, i), AskAt(events, j))
  {
    AskedClean(names, world, events, i);
    AskedClean(names, world, events, j);
    SameStreamExactly(names, world, AskAt(events, i), AskAt(events, j));
  }

  // Two frames with one key have one layout exactly when their maps agree on every thread
  // root among the messages.
  lemma SameKeyLayoutExactly(names: Names, world: set<Message>, events: seq<Event>, i: nat, j: nat)
    requires CleanWorld(names, world) && Within(world, events) && Draws(events, i) && Draws(events, j)
    requires LayoutStream()(AskAt(events, i)) == LayoutStream()(AskAt(events, j))
    ensures Layouter(names)(AskAt(events, i)) == Layouter(names)(AskAt(events, j)) <==>
            RootsAgree(events[j].messages, MapAt(events, i + 1), MapAt(events, j + 1))
  {
    SameKeyedFrames(names, world, events, i, j);
    SessionRootsOnly(world, events, i);
    SessionRootsOnly(world, events, j);
    assert EventWithin(world, events[j]);
    LayoutsAgreeExactly(names, events[j].messages, MapAt(events, i + 1), MapAt(events, j + 1));
  }

  lemma SeparatorPlain(v: View)
    ensures PlainBlock(Separator(v))
  {
    ItoaNulFree(v.width);
    var p := BlockParts(Separator(v));
    assert p == ["viewport-text-block", "Today", Itoa(v.width)];
    assert NUL !in p[0] && NUL !in p[1] && NUL !in p[2];
  }

  lemma BlockAskedPlain(names: Names, world: set<Message>, events: seq<Event>, b: Block)
    requires CleanWorld(names, world) && Within(world, events) && BlockAsked(names, events, b)
    ensures PlainBlock(b) && (b.MessageBlock? ==> b.tm.message in world)
  {
    var i: nat :| Draws(events, i) && BlockOfFrame(names, events[i].view, AskAt(events, i), b);
    var v, a := events[i].view, AskAt(events, i);
    AskedClean(names, world, events, i);
    if b == Separator(v) {
      SeparatorPlain(v);
    } else {
      var tm :| tm in Layouter(names)(a) && b == BlockOf(v, tm);
      LayoutBlocksPlain(names, a, v, tm);
    }
  }

  lemma SameKeySameBlock(r: Renderer, world: set<Message>, events: seq<Event>, a: Block, b: Block)
    requires CleanWorld(r.names, world) && Within(world, events)
    requires BlockAsked(r.names, events, a) && BlockAsked(r.names, events, b) && BlockStream()(a) == BlockStream()(b)
    ensures Drawn(r, a) == Drawn(r, b)
  {
    BlockAskedPlain(r.names, world, events, a);
    BlockAskedPlain(r.names, world, events, b);
    BlockKeysExactly(a, b);
    if a.MessageBlock? {
      assert Fields(a.tm.message) == Fields(b.tm.message);
    }
  }

  // Over a session of clean messages, the code's key determines every layout asked for
  // exactly when frames that expand by default and have one key agree on the thread roots.
  lemma LayoutKeysExactly(r: Renderer, world: set<Message>, events: seq<Event>)
    requires CleanWorld(r.names, world) && Within(world, events) && HashSeparates(r, events)
    ensures KeyDetermines(AskedBy(r.names, events).layouts, LayoutKeys(r.hash), Layouter(r.names)) <==> FramesAgree(events)
  {
    if FramesAgree(events) {
      AgreeingDetermine(r, world, events);
    } else {
      var i: nat, j: nat :| Draws(events, i) && Draws(events, j) && events[i].defaultExpand
        && SameAsk(AskAt(events, i), AskAt(events, j))
        && !RootsAgree(events[j].messages, MapAt(events, i + 1), MapAt(events, j + 1));
      DisagreeingFrames(r, world, events, i, j);
    }
  }

  lemma DisagreeingFrames(r: Renderer, world: set<Message>, events: seq<Event>, i: nat, j: nat)
    requires CleanWorld(r.names, world) && Within(world, events) && Draws(events, i) && Draws(events, j)
    requires SameAsk(AskAt(events, i), AskAt(events, j))
    requires !RootsAgree(events[j].messages, MapAt(events, i + 1), MapAt(events, j + 1))
    ensures !KeyDetermines(AskedBy(r.names, events).layouts, LayoutKeys(r.hash), Layouter(r.names))
  {
    var a, b := AskAt(events, i), AskAt(events, j);
    SameKeyedFrames(r.names, world, events, i, j);
    SameKeyLayoutExactly(r.names, world, events, i, j);
    assert LayoutAsked(events, a) && LayoutAsked(events, b);
    assert r.hash(LayoutStream()(a)) == r.hash(LayoutStream()(b));
  }

  lemma AgreeingDetermine(r: Renderer, world: set<Message>, events: seq<Event>)
    requires CleanWorld(r.names, world) && Within(world, events) && HashSeparates(r, events) && FramesAgree(events)
    ensures KeyDetermines(AskedBy(r.names, events).layouts, LayoutKeys(r.hash), Layouter(r.names))
  {
    var asked := AskedBy(r.names, events).layouts;
    forall a, b | a in asked && b in asked && LayoutKeys(r.hash)(a) == LayoutKeys(r.hash)(b)
      ensures Layouter(r.names)(a) == Layouter(r.names)(b)
    {
      var i: nat :| Draws(events, i) && a == AskAt(events, i);
      var j: nat :| Draws(events, j) && b == AskAt(events, j);
      assert r.hash(LayoutStream()(a)) == r.hash(LayoutStream()(b));
      SameKeyedFrames(r.names, world, events, i, j);
      SameKeyLayoutExactly(r.names, world, events, i, j);
      if !events[i].defaultExpand { DefaultsTell(events, i, j); }
    }
  }

  // Over such a session both keys the code computes determine what is asked for.
  lemma SessionKeysDetermine(r: Renderer, world: set<Message>, events: seq<Event>)
    requires CleanWorld(r.names, world) && Within(world, events) && FramesAgree(events) && HashSeparates(r, events)
    ensures KeysDetermine(r, AskedBy(r.names, events))
  {
    LayoutKeysExactly(r, world, events);
    var asked := AskedBy(r.names, events);
    forall a, b | a in asked.blocks && b in asked.blocks && BlockKeys(r.hash)(a) == BlockKeys(r.hash)(b)
      ensures Drawer(r)(a) == Drawer(r)(b)
    {
      assert r.hash(BlockStream()(a)) == r.hash(BlockStream()(b));
      SameKeySameBlock(r, world, events, a, b);
    }
  }

  lemma FrameIsAsked(r: Renderer, events: seq<Event>, i: nat)
    requires Draws(events, i)
    ensures FrameAsked(r, AskedBy(r.names, events), events[i].view, AskAt(events, i))
  {
    var a, v, asked := AskAt(events, i), events[i].view, AskedBy(r.names, events);
    assert LayoutAsked(events, a);
    assert BlockOfFrame(r.names, v, a, Separator(v));
    assert BlockAsked(r.names, events, Separator(v));
    forall tm | tm in Layouter(r.names)(a) ensures BlockOf(v, tm) in asked.blocks {
      assert BlockOfFrame(r.names, v, a, BlockOf(v, tm));
      assert BlockAsked(r.names, events, BlockOf(v, tm));
    }
  }

  method Handle(r: Renderer, ghost asked: Asked, threads: SliceCache<Threaded>, blocks: SliceCache<Line>,
                before: map<string, bool>, ev: Event)
    returns (shown: seq<seq<Line>>, expanded: map<string, bool>)
    requires KeysDetermine(r, asked) && CachesSound(r, asked, threads, blocks)
    requires ev.Frame? && ev.messages != [] ==>
               FrameAsked(r, asked, ev.view, Ask(ev.defaultExpand, ev.messages, Step(before, ev)))
    modifies threads, blocks
    ensures CachesSound(r, asked, threads, blocks)
    ensures expanded == Step(before, ev) && shown == Shown(r, ev, expanded)
  {
    shown := [];
    match ev {
      case Expand(id) => expanded := before[id := true];
      case Collapse(id) => expanded := before - {id};
      case Reset => expanded := map[];
      case Frame(v, flag, ms, msgH, scroll, tail) =>
        var out: seq<Line>;
        out, expanded := BuildVirtualizedOfficeViewport(r, asked, threads, blocks, v, ms, before, msgH, scroll, flag, tail);
        shown := [out];
    }
  }

  method OpenCaches(r: Renderer, ghost asked: Asked) returns (threads: SliceCache<Threaded>, blocks: SliceCache<Line>)
    ensures fresh(threads) && fresh(blocks) && CachesSound(r, asked, threads, blocks)
  {
    threads := new SliceCache<Threaded>(THREADED_CACHE_LIMIT);
    blocks := new SliceCache<Line>(VIEWPORT_BLOCK_LIMIT);
  }

  method RunEvents(r: Renderer, ghost asked: Asked, events: seq<Event>) returns (shown: seq<seq<Line>>)
    requires KeysDetermine(r, asked)
    requires forall i: nat | Draws(events, i) :: FrameAsked(r, asked, events[i].view, AskAt(events, i))
    ensures shown == PlainFrames(r, events, |events|)
  {
    var threads, blocks := OpenCaches(r, asked);
    var expanded := map[];
    shown := [];
    for i := 0 to |events|
      invariant fresh(threads) && fresh(blocks) && CachesSound(r, asked, threads, blocks)
      invariant expanded == MapAt(events, i) && shown == PlainFrames(r, events, i)
    {
      assert events[i].Frame? && events[i].messages != [] ==> Draws(events, i);
      var out: seq<seq<Line>>;
      out, expanded := Handle(r, asked, threads, blocks, expanded, events[i]);
      shown := shown + out;
    }
  }

  // Every frame of such a session, drawn through the caches from the first event on, is
  // the tail of the plain full feed.
  method RunSession(r: Renderer, ghost world: set<Message>, events: seq<Event>) returns (shown: seq<seq<Line>>)
    requires CleanWorld(r.names, world) && Within(world, events) && FramesAgree(events) && HashSeparates(r, events)
    ensures shown == PlainFrames(r, events, |events|)
  {
    ghost var asked := AskedBy(r.names, events);
    SessionKeysDetermine(r, world, events);
    forall i: nat | Draws(events, i) ensures FrameAsked(r, asked, events[i].view, AskAt(events, i)) {
      FrameIsAsked(r, events, i);
    }
    shown := RunEvents(r, asked, events);
  }

  // ------------------------------------------------------------------
  // When a cached layout is the wrong one
  // ------------------------------------------------------------------

  // The layout found under the key asked for is the fresh one exactly when both maps agree
  // on every thread root among the messages.
  lemma ServedLayoutFreshExactly(names: Names, hash: string -> nat, was: Ask, now: Ask)
    requires Separates(hash, iset{was, now}, LayoutStream())
    requires FieldsTell(Among(was.messages) + Among(now.messages))
    requires PlainKeys(was.expanded) && RootsOnly(was.messages, was.expanded)
    requires PlainKeys(now.expanded) && RootsOnly(now.messages, now.expanded)
    requires NulFree(ThreadedParts(was.defaultExpand, was.messages, was.expanded))
    requires NulFree(ThreadedParts(now.defaultExpand, now.messages, now.expanded))
    requires LayoutKeys(hash)(was) == LayoutKeys(hash)(now)
    ensures Layouter(names)(was) == Layouter(names)(now) <==> RootsAgree(now.messages, was.expanded, now.expanded)
  {
    assert was in iset{was, now} && now in iset{was, now} && hash(LayoutStream()(was)) == hash(LayoutStream()(now));
    ThreadedKeysExactly(was.defaultExpand, was.messages, was.expanded, now.defaultExpand, now.messages, now.expanded);
    SameMessages(Among(was.messages) + Among(now.messages), was.messages, now.messages);
    LayoutsAgreeExactly(names, now.messages, was.expanded, now.expanded);
  }

  // Reactions and usage are not in the key: two such messages share it, and their layouts
  // differ, whatever the hash.
  lemma ReactionsMissingFromKey(names: Names, hash: string -> nat, flag: bool, e: map<string, bool>, m: Message,
                                reactions: seq<Reaction>, usage: string)
    requires m.reactions != reactions || m.usage != usage
    ensures var was, now := Ask(flag, [m], e), Ask(flag, [m.(reactions := reactions, usage := usage)], e);
      LayoutKeys(hash)(was) == LayoutKeys(hash)(now) && Layouter(names)(was) != Layouter(names)(now)
  {
    var n := m.(reactions := reactions, usage := usage);
    assert Fields(m) == Fields(n);
    SameParts(hash, Ask(flag, [m], e), Ask(flag, [n], e));
    OneMessage(names, m, e);
    OneMessage(names, n, e);
  }

  lemma SameParts(hash: string -> nat, a: Ask, b: Ask)
    requires a.defaultExpand == b.defaultExpand && Alike(a.messages, b.messages)
    requires ExpandedPart(a.expanded) == ExpandedPart(b.expanded)
    ensures LayoutKeys(hash)(a) == LayoutKeys(hash)(b)
  {
    AlikeFields(a.messages, b.messages);
    assert LayoutStream()(a) == LayoutStream()(b);
  }

  lemma OneMessage(names: Names, m: Message, e: map<string, bool>)
    ensures var out := FlattenThreadMessages(names, [m], e);
      out != [] && out[0].message == m
  {
    assert [m][..0] == [] && ByTime([m]) == [m];
    assert Select([m], IsRoot([m])) == if IsRoot([m])(m) then [m] else [];
    FirstShown(names, [m], e);
  }

  // Office frames, then one with threads expanded by default while the map still marks the
  // thread collapsed; then everything is collapsed and the same thread expanded again.
  function ModeSwitch(v: View, root: Message, reply: Message): seq<Event> {
    var ms := [root, reply];
    [Frame(v, false, ms, 20, 0, []), Expand(reply.id), Frame(v, true, ms, 20, 0, []),
     Reset, Expand(reply.id), Frame(v, true, ms, 20, 0, [])]
  }

  // The operator reaches two frames with one key and different layouts, whatever the hash:
  // the second is served the first one's, with the thread still collapsed.
  lemma StaleAfterModeSwitch(names: Names, hash: string -> nat, v: View, root: Message, reply: Message)
    requires root.replyTo == "" && reply.replyTo == root.id != "" && reply.id !in {"", root.id}
    requires Leq(root.timestamp, reply.timestamp)
    ensures var events := ModeSwitch(v, root, reply);
      && Within({root, reply}, events) && Draws(events, 2) && Draws(events, 5)
      && LayoutKeys(hash)(AskAt(events, 2)) == LayoutKeys(hash)(AskAt(events, 5))
      && Layouter(names)(AskAt(events, 2)) != Layouter(names)(AskAt(events, 5))
      && Calls(map[], THREADED_CACHE_LIMIT, LayoutKeys(hash), Layouter(names), [AskAt(events, 2), AskAt(events, 5)]).0
         == [Layouter(names)(AskAt(events, 2)), Layouter(names)(AskAt(events, 2))]
  {
    var ms, e, f := [root, reply], map[root.id := false, reply.id := true], map[reply.id := true];
    assert ExpandedKeys(e) == ExpandedKeys(f) == {reply.id};
    assert reply.id in e && reply.id in f;
    SameParts(hash, Ask(true, ms, e), Ask(true, ms, f));
    PairLayout(names, root, reply, e);
    PairLayout(names, root, reply, f);
    ModeSwitchAsks(v, root, reply);
    ServedTwice(THREADED_CACHE_LIMIT, LayoutKeys(hash), Layouter(names), Ask(true, ms, e), Ask(true, ms, f));
  }

  lemma ModeSwitchAsks(v: View, root: Message, reply: Message)
    requires root.replyTo == "" && reply.replyTo == root.id != "" && reply.id !in {"", root.id}
    ensures var events, ms := ModeSwitch(v, root, reply), [root, reply];
      && Within({root, reply}, events) && Draws(events, 2) && Draws(events, 5)
      && AskAt(events, 2) == Ask(true, ms, map[root.id := false, reply.id := true])
      && AskAt(events, 5) == Ask(true, ms, map[reply.id := true])
  {
    var events, ms := ModeSwitch(v, root, reply), [root, reply];
    assert ms[0] == root && ms[1] == reply;
    assert IsThreadRoot(ms, root.id);
    assert events[1] == events[4] == Expand(reply.id) && events[3] == Reset;
    assert WithDefaults(ms, map[], false) == map[root.id := false];
    assert MapAt(events, 0) == map[];
    var e1, e2, e3 := MapAt(events, 1), MapAt(events, 2), MapAt(events, 3);
    assert e1 == Step(map[], events[0]) && e2 == Step(e1, events[1]) && e3 == Step(e2, events[2]);
    assert e2 == map[root.id := false, reply.id := true];
    var e4, e5, e6 := MapAt(events, 4), MapAt(events, 5), MapAt(events, 6);
    assert e4 == map[] && e5 == Step(e4, events[4]) && e6 == Step(e5, events[5]);
  }

  lemma PairLayout(names: Names, root: Message, reply: Message, e: map<string, bool>)
    requires root.replyTo == "" && reply.replyTo == root.id != "" && reply.id !in {"", root.id}
    requires Leq(root.timestamp, reply.timestamp)
    ensures var out := FlattenThreadMessages(names, [root, reply], e);
      out != [] && (out[0].collapsed <==> Collapsed(e, root.id))
  {
    var ms := [root, reply];
    assert ms[..1] == [root] && [root][..0] == [];
    assert ByTime([root]) == [root];
    assert ByTime(ms) == InsertByTime([root], reply) == ms;
    assert Select([root], IsRoot(ms)) == [root];
    assert root in ms && HasId(ms, root.id);
    assert Roots(ms) == [root];
    FirstShown(names, ms, e);
    var out := FlattenThreadMessages(names, ms, e);
    assert out[0] in out && reply in ms;
    LayoutEntries(names, ms, e, out[0]);
  }

  // Token usage is not in the block key either: of two blocks differing in it alone, the
  // second is served the first one's lines.
  lemma UsageMissingFromBlockKey(r: Renderer, b: Block, usage: string)
    requires b.MessageBlock?
    ensures var other := b.(tm := b.tm.(message := b.tm.message.(usage := usage)));
      && BlockKeys(r.hash)(b) == BlockKeys(r.hash)(other)
      && Calls(map[], VIEWPORT_BLOCK_LIMIT, BlockKeys(r.hash), Drawer(r), [b, other]).0 == [Drawn(r, b), Drawn(r, b)]
      && Drawn(r, other) == r.draw(HashedOf(b), usage)
  {
    var other := b.(tm := b.tm.(message := b.tm.message.(usage := usage)));
    assert Fields(b.tm.message) == Fields(other.tm.message);
    assert HashedOf(b) == HashedOf(other);
    SameHashedSameParts(b, other);
    ServedTwice(VIEWPORT_BLOCK_LIMIT, BlockKeys(r.hash), Drawer(r), b, other);
  }
}
