/** The virtualized office feed: built bottom-up, stopping as soon as the window is
    full, over cached blocks. It shows the tail of the plain full render. */
module Viewport {
  import opened Text
  import opened KeyStream
  import opened RenderCache
  import opened Threads

  datatype Line = Line(text: string, threadID: string)

  // Drawing, display names and the hash, unknown here. A block is drawn from what its key
  // is meant to cover and from the message's token usage.
  datatype Renderer = Renderer(
    draw: (Hashed, string) -> seq<Line>,
    welcome: seq<Line>,
    names: Names,
    hash: string -> nat)

  function Drawn(r: Renderer, b: Block): seq<Line> {
    r.draw(HashedOf(b), if b.MessageBlock? then b.tm.message.usage else "")
  }

  // A layout asked of the cache, the defaults already in the map.
  datatype Ask = Ask(defaultExpand: bool, messages: seq<Message>, expanded: map<string, bool>)

  function Drawer(r: Renderer): Block -> seq<Line> {
    (b: Block) => Drawn(r, b)
  }

  function Layouter(names: Names): Ask -> seq<Threaded> {
    (a: Ask) => FlattenThreadMessages(names, a.messages, a.expanded)
  }

  // The keys the code computes.
  ghost function LayoutKeys(hash: string -> nat): Ask -> nat {
    (a: Ask) => hash(Stream(ThreadedParts(a.defaultExpand, a.messages, a.expanded)))
  }

  ghost function BlockKeys(hash: string -> nat): Block -> nat {
    (b: Block) => hash(Stream(BlockParts(b)))
  }

  // What the caller asks to see.
  datatype View = View(width: int, anchor: string, unread: int)

  function Limit(msgH: int, scroll: int): nat {
    if msgH + scroll < 1 then 1 else msgH + scroll
  }

  function LastN<T>(s: seq<T>, n: nat): seq<T> {
    if |s| <= n then s else s[|s| - n..]
  }

  function Concat<T>(xs: seq<seq<T>>): seq<T> {
    if xs == [] then [] else xs[0] + Concat(xs[1..])
  }

  function BlockOf(v: View, tm: Threaded): Block {
    MessageBlock(tm, v.width, v.anchor, v.unread)
  }

  function Separator(v: View): Block {
    TextBlock(v.width, "Today")
  }

  function Blocks(r: Renderer, v: View, threaded: seq<Threaded>): seq<seq<Line>> {
    seq(|threaded|, i requires 0 <= i < |threaded| => Drawn(r, BlockOf(v, threaded[i])))
  }

  // ------------------------------------------------------------------
  // Collapsed-by-default threads
  // ------------------------------------------------------------------

  predicate IsThreadRoot(ms: seq<Message>, id: string) {
    HasReplies(ms, id) && exists m <- ms :: m.id == id && m.replyTo == ""
  }

  // Every thread root the operator has not toggled reads as collapsed.
  function WithDefaults(ms: seq<Message>, expanded: map<string, bool>, defaultExpand: bool): map<string, bool> {
    if defaultExpand then expanded
    else (map m <- ms | IsThreadRoot(ms, m.id) :: m.id := false) + expanded
  }

  method EnsureCollapsedThreadDefaults(ms: seq<Message>, before: map<string, bool>, defaultExpand: bool)
    returns (expanded: map<string, bool>)
    ensures expanded == WithDefaults(ms, before, defaultExpand)
    ensures forall id <- before :: id in expanded && expanded[id] == before[id]
    ensures forall id | id !in before ::
      && (id in expanded <==> !defaultExpand && (exists m <- ms :: m.replyTo == id) && exists m <- ms :: m.id == id && m.replyTo == "")
      && (id in expanded ==> !expanded[id])
  {
    expanded := before;
    if defaultExpand { return; }
    for i := 0 to |ms|
      invariant forall k :: k in expanded <==> k in before || RootAmong(ms, i, k)
      invariant forall k <- expanded :: expanded[k] == if k in before then before[k] else false
    {
      var m := ms[i];
      if m.replyTo != "" || !HasReplies(ms, m.id) { continue; }
      if m.id !in expanded { expanded := expanded[m.id := false]; }
    }
    forall k ensures k in expanded <==> k in WithDefaults(ms, before, defaultExpand) {
      RootsAmongAll(ms, k);
    }
  }

  // One of the first n messages is this thread root.
  ghost predicate RootAmong(ms: seq<Message>, n: nat, id: string)
    requires n <= |ms|
  {
    HasReplies(ms, id) && exists j | 0 <= j < n :: ms[j].id == id && ms[j].replyTo == ""
  }

  lemma RootsAmongAll(ms: seq<Message>, id: string)
    ensures RootAmong(ms, |ms|, id) <==> IsThreadRoot(ms, id)
  {
    if IsThreadRoot(ms, id) {
      var m :| m in ms && m.id == id && m.replyTo == "";
      var j :| 0 <= j < |ms| && ms[j] == m;
    }
  }

  // ------------------------------------------------------------------
  // The plain render and the fast one
  // ------------------------------------------------------------------

  function Feed(r: Renderer, v: View, threaded: seq<Threaded>, tail: seq<Line>): seq<Line> {
    Drawn(r, Separator(v)) + Concat(Blocks(r, v, threaded)) + tail
  }

  // `buildOfficeMessageLines` followed by the tail.
  function FullFeed(r: Renderer, v: View, ms: seq<Message>, expanded: map<string, bool>, tail: seq<Line>): seq<Line> {
    if ms == [] then r.welcome + tail
    else Feed(r, v, FlattenThreadMessages(r.names, ms, expanded), tail)
  }

  lemma {:induction false} ConcatAppend<T>(a: seq<seq<T>>, b: seq<seq<T>>)
    ensures Concat(a + b) == Concat(a) + Concat(b)
  {
    if a == [] {
      assert a + b == b;
    } else {
      assert (a + b)[1..] == a[1..] + b;
      ConcatAppend(a[1..], b);
    }
  }

  lemma LastNOfSuffix<T>(a: seq<T>, b: seq<T>, n: nat)
    requires |b| >= n
    ensures LastN(a + b, n) == LastN(b, n)
  {
  }

  // A feed with one more entry: that entry's lines, drawn from what its key covers and its
  // token usage, come between the earlier ones and the tail.
  lemma FeedGrows(r: Renderer, v: View, threaded: seq<Threaded>, tm: Threaded, tail: seq<Line>)
    ensures var lines := r.draw(HashedOf(MessageBlock(tm, v.width, v.anchor, v.unread)), tm.message.usage);
      Feed(r, v, threaded + [tm], tail) == Feed(r, v, threaded, lines + tail)
    ensures Feed(r, v, [], tail) == r.draw(HashedText(v.width, "Today"), "") + tail
  {
    var lines := Drawn(r, BlockOf(v, tm));
    assert Blocks(r, v, threaded + [tm]) == Blocks(r, v, threaded) + [lines];
    ConcatAppend(Blocks(r, v, threaded), [lines]);
    assert Concat([lines]) == lines by { assert [lines][1..] == []; }
    EntryBeforeTail(Drawn(r, Separator(v)), Concat(Blocks(r, v, threaded)), lines, tail);
    assert Blocks(r, v, []) == [];
  }

  lemma EntryBeforeTail(separator: seq<Line>, earlier: seq<Line>, lines: seq<Line>, tail: seq<Line>)
    ensures separator + (earlier + lines) + tail == separator + earlier + (lines + tail)
  {
  }

  // Every argument the two caches are ever asked for.
  datatype Asked = Asked(layouts: iset<Ask>, blocks: iset<Block>)

  ghost predicate BlocksSound(r: Renderer, asked: iset<Block>, blocks: SliceCache<Line>)
    reads blocks, blocks.entries.Values
  {
    blocks.Valid() && Sound(asked, blocks.Contents(), BlockKeys(r.hash), Drawer(r))
  }

  ghost predicate LayoutsSound(r: Renderer, asked: iset<Ask>, threads: SliceCache<Threaded>)
    reads threads, threads.entries.Values
  {
    threads.Valid() && Sound(asked, threads.Contents(), LayoutKeys(r.hash), Layouter(r.names))
  }

  ghost predicate CachesSound(r: Renderer, asked: Asked, threads: SliceCache<Threaded>, blocks: SliceCache<Line>)
    reads threads, threads.entries.Values, blocks, blocks.entries.Values
  {
    LayoutsSound(r, asked.layouts, threads) && BlocksSound(r, asked.blocks, blocks)
  }

  ghost predicate KeysDetermine(r: Renderer, asked: Asked) {
    && KeyDetermines(asked.layouts, LayoutKeys(r.hash), Layouter(r.names))
    && KeyDetermines(asked.blocks, BlockKeys(r.hash), Drawer(r))
  }

  ghost predicate BlocksAsked(asked: iset<Block>, v: View, threaded: seq<Threaded>) {
    Separator(v) in asked && forall tm <- threaded :: BlockOf(v, tm) in asked
  }

  // What one frame asks for is among what is asked.
  ghost predicate FrameAsked(r: Renderer, asked: Asked, v: View, a: Ask) {
    a in asked.layouts && BlocksAsked(asked.blocks, v, FlattenThreadMessages(r.names, a.messages, a.expanded))
  }

  method BlockKey(hash: string -> nat, b: Block) returns (key: nat)
    ensures key == hash(Stream(BlockParts(b)))
  {
    var h := new StateHasher(hash);
    h.Add(BlockParts(b));
    assert h.written == Stream(BlockParts(b));
    key := h.Sum();
  }

  method ThreadedKey(hash: string -> nat, d: bool, ms: seq<Message>, e: map<string, bool>) returns (key: nat)
    ensures key == hash(Stream(ThreadedParts(d, ms, e)))
  {
    var h := new StateHasher(hash);
    var name, flag := ["threaded-messages"], [BoolPart(d)];
    h.Add(name);
    h.Add(flag);
    h.AddMessages(ms);
    h.AddExpandedThreads(e);
    ghost var all, last := MessageParts(ms), [ExpandedPart(e)];
    Joined(name, flag, all, last, h.written);
    assert ThreadedParts(d, ms, e) == name + flag + all + last;
    key := h.Sum();
  }

  // Four runs of parts written one after the other.
  lemma Joined(a: seq<string>, b: seq<string>, c: seq<string>, d: seq<string>, written: string)
    requires written == "" + Stream(a) + Stream(b) + Stream(c) + Stream(d)
    ensures written == Stream(a + b + c + d)
  {
    StreamAppend(a, b);
    StreamAppend(a + b, c);
    StreamAppend(a + b + c, d);
  }

  method CachedBlock(r: Renderer, ghost asked: iset<Block>, blocks: SliceCache<Line>, b: Block) returns (lines: seq<Line>)
    requires KeyDetermines(asked, BlockKeys(r.hash), Drawer(r))
    requires BlocksSound(r, asked, blocks) && b in asked
    modifies blocks
    ensures BlocksSound(r, asked, blocks)
    ensures lines == Drawn(r, b)
    ensures forall a <- blocks.entries.Values :: a in old(blocks.entries.Values) || fresh(a)
  {
    LookupSound(asked, blocks.Contents(), blocks.limit, BlockKeys(r.hash), Drawer(r), b);
    var key := BlockKey(r.hash, b);
    var slice := Cached(blocks, BlockKeys(r.hash), key, Drawer(r), b);
    lines := slice[..];
  }

  // The layout asked for, the defaults already in its map.
  method CachedThreadedMessages(r: Renderer, ghost asked: iset<Ask>, threads: SliceCache<Threaded>, a: Ask)
    returns (threaded: seq<Threaded>)
    requires KeyDetermines(asked, LayoutKeys(r.hash), Layouter(r.names))
    requires LayoutsSound(r, asked, threads) && a in asked
    modifies threads
    ensures LayoutsSound(r, asked, threads)
    ensures threaded == FlattenThreadMessages(r.names, a.messages, a.expanded)
  {
    LookupSound(asked, threads.Contents(), threads.limit, LayoutKeys(r.hash), Layouter(r.names), a);
    var key := ThreadedKey(r.hash, a.defaultExpand, a.messages, a.expanded);
    var layout := Cached(threads, LayoutKeys(r.hash), key, Layouter(r.names), a);
    threaded := layout[..];
  }

  lemma TakeOne<T>(parts: seq<seq<T>>, first: nat, selected: seq<seq<T>>, block: seq<T>)
    requires first < |parts| && block == parts[first] && Backwards(selected) == Concat(parts[first + 1..])
    ensures Backwards(selected + [block]) == Concat(parts[first..])
    ensures |Backwards(selected + [block])| == |block| + |Backwards(selected)|
  {
    assert parts[first..] == [parts[first]] + parts[first + 1..];
    BackwardsSnoc(selected, block);
  }

  // Cached blocks from the last upwards until the window is full; `selected` holds
  // them last first, down to the block at `first`.
  method SelectBlocks(r: Renderer, ghost asked: iset<Block>, blocks: SliceCache<Line>, v: View, threaded: seq<Threaded>,
                      have: nat, limit: nat)
    returns (selected: seq<seq<Line>>, total: nat, first: nat)
    requires KeyDetermines(asked, BlockKeys(r.hash), Drawer(r)) && BlocksSound(r, asked, blocks)
    requires BlocksAsked(asked, v, threaded)
    modifies blocks
    ensures BlocksSound(r, asked, blocks)
    ensures first <= |threaded|
    ensures Backwards(selected) == Concat(Blocks(r, v, threaded)[first..])
    ensures total == have + |Backwards(selected)|
    ensures first == 0 || total >= limit
  {
    ghost var parts := Blocks(r, v, threaded);
    selected, total, first := [], have, |threaded|;
    assert parts[first..] == [];
    while first > 0 && total < limit
      invariant first <= |threaded|
      invariant BlocksSound(r, asked, blocks)
      invariant Backwards(selected) == Concat(parts[first..])
      invariant total == have + |Backwards(selected)|
    {
      first := first - 1;
      var block := CachedBlock(r, asked, blocks, BlockOf(v, threaded[first]));
      TakeOne(parts, first, selected, block);
      selected := selected + [block];
      total := total + |block|;
    }
  }

  // Stopping early loses nothing that the window shows.
  lemma EarlyExit(separator: seq<Line>, parts: seq<seq<Line>>, first: nat, tail: seq<Line>, limit: nat)
    requires first <= |parts|
    requires first == 0 || |Concat(parts[first..]) + tail| >= limit
    ensures |Concat(parts[first..]) + tail| >= limit ==>
              LastN(separator + Concat(parts) + tail, limit) == LastN(Concat(parts[first..]) + tail, limit)
    ensures |Concat(parts[first..]) + tail| < limit ==> Concat(parts[first..]) == Concat(parts)
  {
    var above, below := Concat(parts[..first]), Concat(parts[first..]);
    ConcatAppend(parts[..first], parts[first..]);
    assert parts[..first] + parts[first..] == parts;
    Regroup(separator, above, below, tail);
    if |below + tail| >= limit {
      LastNOfSuffix(separator + above, below + tail, limit);
    } else {
      assert parts[first..] == parts;
    }
  }

  lemma Regroup<T>(a: seq<T>, b: seq<T>, c: seq<T>, d: seq<T>)
    ensures a + (b + c) + d == (a + b) + (c + d)
  {
  }

  method FillWindow(r: Renderer, ghost asked: iset<Block>, blocks: SliceCache<Line>, v: View, threaded: seq<Threaded>, tail: seq<Line>, limit: nat)
    returns (out: seq<Line>)
    requires KeyDetermines(asked, BlockKeys(r.hash), Drawer(r)) && BlocksSound(r, asked, blocks)
    requires BlocksAsked(asked, v, threaded)
    modifies blocks
    ensures BlocksSound(r, asked, blocks)
    ensures out == LastN(Feed(r, v, threaded, tail), limit)
  {
    var collected := LastN(tail, limit);
    ghost var parts := Blocks(r, v, threaded);
    if |collected| >= limit {
      LastNOfSuffix(Drawn(r, Separator(v)) + Concat(parts), tail, limit);
      return collected;
    }
    var selected, total, first := SelectBlocks(r, asked, blocks, v, threaded, |collected|, limit);
    EarlyExit(Drawn(r, Separator(v)), parts, first, tail, limit);
    if total < limit {
      var separator := CachedBlock(r, asked, blocks, Separator(v));
      BackwardsSnoc(selected, separator);
      selected := selected + [separator];
    }
    out := Unwind(selected);
    out := LastN(out + collected, limit);
  }

  lemma SoundKept<A(!new), V(0)>(asked: iset<A>, cache: SliceCache<V>, was: map<nat, seq<V>>, keyOf: A -> nat, compute: A -> seq<V>)
    requires cache.Contents() == was && Sound(asked, was, keyOf, compute)
    ensures Sound(asked, cache.Contents(), keyOf, compute)
  {
  }

  // The layout, with the block cache as it was.
  method LayoutFor(r: Renderer, ghost asked: Asked, threads: SliceCache<Threaded>, ghost blocks: SliceCache<Line>, a: Ask)
    returns (threaded: seq<Threaded>)
    requires KeyDetermines(asked.layouts, LayoutKeys(r.hash), Layouter(r.names))
    requires CachesSound(r, asked, threads, blocks) && a in asked.layouts
    modifies threads
    ensures CachesSound(r, asked, threads, blocks)
    ensures threaded == FlattenThreadMessages(r.names, a.messages, a.expanded)
  {
    ghost var drawn := blocks.Contents();
    threaded := CachedThreadedMessages(r, asked.layouts, threads, a);
    SoundKept(asked.blocks, blocks, drawn, BlockKeys(r.hash), Drawer(r));
  }

  method FillFeed(r: Renderer, ghost asked: Asked, threads: SliceCache<Threaded>, blocks: SliceCache<Line>, v: View, a: Ask,
                  tail: seq<Line>, limit: nat)
    returns (out: seq<Line>)
    requires KeysDetermine(r, asked) && CachesSound(r, asked, threads, blocks) && FrameAsked(r, asked, v, a)
    modifies threads, blocks
    ensures CachesSound(r, asked, threads, blocks)
    ensures out == LastN(Feed(r, v, FlattenThreadMessages(r.names, a.messages, a.expanded), tail), limit)
  {
    var threaded := LayoutFor(r, asked, threads, blocks, a);
    ghost var laidOut := threads.Contents();
    out := FillWindow(r, asked.blocks, blocks, v, threaded, tail, limit);
    SoundKept(asked.layouts, threads, laidOut, LayoutKeys(r.hash), Layouter(r.names));
  }

  // The last lines, as many as the height and at least one, or all there are.
  ghost predicate EndOf<T>(out: seq<T>, full: seq<T>, height: int) {
    && |out| <= |full| && out == full[|full| - |out|..]
    && |out| == (var window := if height < 1 then 1 else height; if |full| <= window then |full| else window)
  }

  lemma LastNIsEnd<T>(full: seq<T>, msgH: int, scroll: int)
    ensures EndOf(LastN(full, Limit(msgH, scroll)), full, msgH + scroll)
  {
  }

  // The window built bottom-up with early exits is the tail of the full feed.
  method BuildVirtualizedOfficeViewport(r: Renderer, ghost asked: Asked, threads: SliceCache<Threaded>,
                                        blocks: SliceCache<Line>, v: View, ms: seq<Message>, before: map<string, bool>,
                                        msgH: int, scroll: int, defaultExpand: bool, tail: seq<Line>)
    returns (out: seq<Line>, expanded: map<string, bool>)
    requires KeysDetermine(r, asked) && CachesSound(r, asked, threads, blocks)
    requires ms != [] ==> FrameAsked(r, asked, v, Ask(defaultExpand, ms, WithDefaults(ms, before, defaultExpand)))
    modifies threads, blocks
    ensures CachesSound(r, asked, threads, blocks)
    ensures expanded == WithDefaults(ms, before, defaultExpand)
    ensures out == LastN(FullFeed(r, v, ms, WithDefaults(ms, before, defaultExpand), tail), Limit(msgH, scroll))
    ensures EndOf(out, FullFeed(r, v, ms, expanded, tail), msgH + scroll)
  {
    var limit := Limit(msgH, scroll);
    LastNIsEnd(FullFeed(r, v, ms, WithDefaults(ms, before, defaultExpand), tail), msgH, scroll);
    if ms == [] { return LastN(r.welcome + tail, limit), before; }
    expanded := EnsureCollapsedThreadDefaults(ms, before, defaultExpand);
    out := FillFeed(r, asked, threads, blocks, v, Ask(defaultExpand, ms, expanded), tail, limit);
  }

  // The blocks of `selected`, last selected first.
  function Backwards<T>(selected: seq<seq<T>>): seq<T> {
    if selected == [] then []
    else selected[|selected| - 1] + Backwards(selected[..|selected| - 1])
  }

  lemma BackwardsSnoc<T>(selected: seq<seq<T>>, block: seq<T>)
    ensures Backwards(selected + [block]) == block + Backwards(selected)
  {
    assert (selected + [block])[..|selected|] == selected;
  }

  method Unwind(selected: seq<seq<Line>>) returns (out: seq<Line>)
    ensures out == Backwards(selected)
  {
    out := [];
    var i := |selected|;
    assert selected[..i] == selected;
    while i > 0
      invariant 0 <= i <= |selected|
      invariant out + Backwards(selected[..i]) == Backwards(selected)
    {
      i := i - 1;
      assert selected[..i + 1][..i] == selected[..i];
      out := out + selected[i];
    }
    assert selected[..0] == [];
  }
}
