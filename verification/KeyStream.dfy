/** Cache keys: a hash of NUL-terminated parts. What a key's stream determines, and
    what it does not. */
module KeyStream {
  import opened Wrappers
  import opened Text

  datatype Message = Message(
    id: string, sender: string, kind: string, source: string, title: string, replyTo: string,
    timestamp: string, content: string, tagged: seq<string>, reactions: seq<Reaction>, usage: string)
  datatype Reaction = Reaction(emoji: string, sender: string)
  datatype Threaded = Threaded(
    message: Message, depth: int, parentLabel: string, collapsed: bool, hiddenReplies: int, participants: seq<string>)

  // A cached block: a message, or a line of text such as the date separator.
  datatype Block =
    | MessageBlock(tm: Threaded, width: int, anchor: string, unread: int)
    | TextBlock(width: int, text: string)

  const NUL := '\0'

  function Stream(parts: seq<string>): string {
    if parts == [] then "" else parts[0] + [NUL] + Stream(parts[1..])
  }

  ghost predicate NulFree(parts: seq<string>) {
    forall p <- parts :: NUL !in p
  }

  lemma {:induction false} SplitStream(parts: seq<string>)
    requires NulFree(parts)
    ensures Split(Stream(parts), NUL) == parts + [""]
  {
    if parts != [] {
      SplitStream(parts[1..]);
      SplitAtFirst(parts[0], Stream(parts[1..]), NUL);
      assert parts == [parts[0]] + parts[1..];
    }
  }

  // The stream determines the list of parts.
  lemma StreamDecodes(a: seq<string>, b: seq<string>)
    requires NulFree(a) && NulFree(b) && Stream(a) == Stream(b)
    ensures a == b
  {
    SplitStream(a);
    SplitStream(b);
    assert (a + [""])[..|a|] == a && (b + [""])[..|b|] == b;
  }

  lemma {:induction false} StreamAppend(a: seq<string>, b: seq<string>)
    ensures Stream(a + b) == Stream(a) + Stream(b)
  {
    if a == [] {
      assert a + b == b;
    } else {
      assert (a + b)[1..] == a[1..] + b;
      StreamAppend(a[1..], b);
    }
  }

  // ------------------------------------------------------------------
  // The parts each hasher method feeds
  // ------------------------------------------------------------------

  function BoolPart(b: bool): string {
    if b then "1" else "0"
  }

  const FIELD_COUNT := 9

  function Fields(m: Message): (f: seq<string>)
    ensures |f| == FIELD_COUNT
  {
    [m.id, m.sender, m.kind, m.source, m.title, m.replyTo, m.timestamp, m.content, Join(m.tagged, ',')]
  }

  function AllFields(ms: seq<Message>): seq<string> {
    if ms == [] then [] else Fields(ms[0]) + AllFields(ms[1..])
  }

  function MessageParts(ms: seq<Message>): seq<string> {
    [Itoa(|ms|)] + AllFields(ms)
  }

  ghost function ExpandedKeys(expanded: map<string, bool>): set<string> {
    set k | k in expanded && expanded[k]
  }

  ghost function ExpandedPart(expanded: map<string, bool>): string {
    if expanded == map[] then "no-expanded" else Join(Listing(ExpandedKeys(expanded)), ',')
  }

  ghost function ThreadedParts(defaultExpand: bool, ms: seq<Message>, expanded: map<string, bool>): seq<string> {
    ["threaded-messages", BoolPart(defaultExpand)] + MessageParts(ms) + [ExpandedPart(expanded)]
  }

  function ReactionParts(rs: seq<Reaction>): (parts: seq<string>)
    ensures |parts| == 2 * |rs|
  {
    if rs == [] then [] else [rs[0].emoji, rs[0].sender] + ReactionParts(rs[1..])
  }

  function ShapeParts(tm: Threaded): seq<string> {
    [Itoa(tm.depth), tm.parentLabel, BoolPart(tm.collapsed), Itoa(tm.hiddenReplies), Join(tm.participants, ',')]
  }

  predicate Anchored(b: Block)
    requires b.MessageBlock?
  {
    b.tm.message.id == b.anchor
  }

  function BlockParts(b: Block): seq<string> {
    match b
    case MessageBlock(tm, width, anchor, unread) =>
      ["threaded-block", Itoa(width)] + Fields(tm.message) + ReactionParts(tm.message.reactions) + ShapeParts(tm) +
      (if Anchored(b) then [anchor, Itoa(unread)] else [])
    case TextBlock(width, text) => ["viewport-text-block", text, Itoa(width)]
  }

  // What a block's key is meant to cover.
  datatype Hashed =
    | HashedMessage(
        width: int, fields: seq<string>, reactions: seq<Reaction>, depth: int, parentLabel: string, collapsed: bool,
        hiddenReplies: int, participants: string, unreadAnchor: Option<int>)
    | HashedText(width: int, text: string)

  function HashedOf(b: Block): Hashed {
    match b
    case MessageBlock(tm, width, anchor, unread) =>
      HashedMessage(width, Fields(tm.message), tm.message.reactions, tm.depth, tm.parentLabel, tm.collapsed,
                    tm.hiddenReplies, Join(tm.participants, ','), if Anchored(b) then Some(unread) else None)
    case TextBlock(width, text) => HashedText(width, text)
  }

  // ------------------------------------------------------------------
  // The hasher, fed part by part
  // ------------------------------------------------------------------

  class StateHasher {
    const hash: string -> nat
    var written: string

    constructor (hash: string -> nat)
      ensures written == "" && this.hash == hash
    {
      this.hash := hash;
      written := "";
    }

    method Add(parts: seq<string>)
      modifies this
      ensures written == old(written) + Stream(parts)
    {
      for i := 0 to |parts|
        invariant written == old(written) + Stream(parts[..i])
      {
        assert parts[..i + 1] == parts[..i] + [parts[i]];
        StreamAppend(parts[..i], [parts[i]]);
        assert Stream([parts[i]]) == parts[i] + [NUL];
        written := written + parts[i] + [NUL];
      }
      assert parts[..|parts|] == parts;
    }

    method Sum() returns (key: nat)
      ensures key == hash(written)
    {
      key := hash(written);
    }

    method AddMessages(ms: seq<Message>)
      modifies this
      ensures written == old(written) + Stream(MessageParts(ms))
    {
      Add([Itoa(|ms|)]);
      for i := 0 to |ms|
        invariant written == old(written) + Stream(PartsTo(ms, i))
      {
        Add(Fields(ms[i]));
        PartsNext(ms, i);
      }
      assert ms[..|ms|] == ms;
    }

    // The map is read in an arbitrary order; what is written does not depend on it.
    method AddExpandedThreads(expanded: map<string, bool>)
      modifies this
      ensures written == old(written) + Stream([ExpandedPart(expanded)])
    {
      if expanded == map[] {
        Add(["no-expanded"]);
        return;
      }
      var keys: seq<string> := [];
      var left := expanded.Keys;
      while left != {}
        invariant left <= expanded.Keys
        invariant Elems(keys) == set k | k in expanded.Keys - left && expanded[k]
        invariant forall i, j :: 0 <= i < j < |keys| ==> keys[i] != keys[j]
        decreases left
      {
        var key :| key in left;
        assert forall k <- keys :: k in Elems(keys) && k != key;
        left := left - {key};
        if expanded[key] {
          assert Elems(keys + [key]) == Elems(keys) + {key};
          keys := keys + [key];
        }
      }
      SortSorts(keys);
      NoRepeats(keys);
      var sorted := Sort(keys);
      forall i, j | 0 <= i < j < |sorted| ensures sorted[i] != sorted[j] {
        Repeated(sorted, i, j);
      }
      CanonicalUnique(sorted, Listing(ExpandedKeys(expanded)));
      Add([Join(sorted, ',')]);
    }
  }

  // What `AddMessages` has added after n messages.
  function PartsTo(ms: seq<Message>, n: nat): seq<string>
    requires n <= |ms|
  {
    [Itoa(|ms|)] + AllFields(ms[..n])
  }

  lemma PartsNext(ms: seq<Message>, n: nat)
    requires n < |ms|
    ensures Stream(PartsTo(ms, n + 1)) == Stream(PartsTo(ms, n)) + Stream(Fields(ms[n]))
  {
    AllFieldsSnoc(ms[..n], ms[n]);
    assert ms[..n + 1] == ms[..n] + [ms[n]];
    StreamAppend(PartsTo(ms, n), Fields(ms[n]));
    assert PartsTo(ms, n + 1) == PartsTo(ms, n) + Fields(ms[n]);
  }

  lemma {:induction false} AllFieldsSnoc(ms: seq<Message>, m: Message)
    ensures AllFields(ms + [m]) == AllFields(ms) + Fields(m)
  {
    if ms == [] {
      assert (ms + [m])[1..] == [];
    } else {
      assert (ms + [m])[1..] == ms[1..] + [m];
      AllFieldsSnoc(ms[1..], m);
    }
  }

  // ------------------------------------------------------------------
  // What equal streams imply
  // ------------------------------------------------------------------

  lemma {:induction false} FieldsDecode(a: seq<Message>, b: seq<Message>)
    requires |a| == |b| && AllFields(a) == AllFields(b)
    ensures forall i | 0 <= i < |a| :: Fields(a[i]) == Fields(b[i])
  {
    if a != [] {
      var u, v := AllFields(a), AllFields(b);
      assert u[..FIELD_COUNT] == Fields(a[0]) && v[..FIELD_COUNT] == Fields(b[0]);
      assert u[FIELD_COUNT..] == AllFields(a[1..]) && v[FIELD_COUNT..] == AllFields(b[1..]);
      FieldsDecode(a[1..], b[1..]);
      forall i | 0 <= i < |a| ensures Fields(a[i]) == Fields(b[i]) {
        if i > 0 { assert a[i] == a[1..][i - 1] && b[i] == b[1..][i - 1]; }
      }
    }
  }

  // What a key covers of a message: everything but its reactions and token usage, the
  // tagged names as one joined text.
  ghost predicate FieldsAgree(m: Message, n: Message) {
    && m.id == n.id && m.sender == n.sender && m.kind == n.kind && m.source == n.source && m.title == n.title
    && m.replyTo == n.replyTo && m.timestamp == n.timestamp && m.content == n.content
    && Join(m.tagged, ',') == Join(n.tagged, ',')
  }

  lemma FieldsExactly(m: Message, n: Message)
    ensures Fields(m) == Fields(n) <==> FieldsAgree(m, n)
  {
    var f, g := Fields(m), Fields(n);
    assert f == g ==> f[0] == g[0] && f[1] == g[1] && f[2] == g[2] && f[3] == g[3] && f[4] == g[4];
    assert f == g ==> f[5] == g[5] && f[6] == g[6] && f[7] == g[7] && f[8] == g[8];
  }

  lemma AlikeExactly(a: seq<Message>, b: seq<Message>)
    ensures Alike(a, b) <==> |a| == |b| && forall i | 0 <= i < |a| :: FieldsAgree(a[i], b[i])
  {
    forall i | 0 <= i < |a| && |a| == |b| ensures Fields(a[i]) == Fields(b[i]) <==> FieldsAgree(a[i], b[i]) {
      FieldsExactly(a[i], b[i]);
    }
  }

  // Messages that agree on every hashed field.
  ghost predicate Alike(a: seq<Message>, b: seq<Message>) {
    |a| == |b| && forall i | 0 <= i < |a| :: Fields(a[i]) == Fields(b[i])
  }

  lemma {:induction false} AlikeFields(a: seq<Message>, b: seq<Message>)
    requires Alike(a, b)
    ensures AllFields(a) == AllFields(b)
  {
    if a != [] {
      assert Fields(a[0]) == Fields(b[0]);
      forall i | 0 <= i < |a| - 1 ensures Fields(a[1..][i]) == Fields(b[1..][i]) {
        assert Fields(a[i + 1]) == Fields(b[i + 1]);
      }
      AlikeFields(a[1..], b[1..]);
    }
  }

  lemma {:induction false} AllFieldsLength(ms: seq<Message>)
    ensures |AllFields(ms)| == FIELD_COUNT * |ms|
  {
    if ms != [] { AllFieldsLength(ms[1..]); }
  }

  // Message streams are equal exactly when there are as many messages on both sides and
  // every hashed field agrees.
  lemma MessageStreamDecodes(a: seq<Message>, b: seq<Message>)
    requires NulFree(MessageParts(a)) && NulFree(MessageParts(b))
    ensures Stream(MessageParts(a)) == Stream(MessageParts(b)) <==> Alike(a, b)
    ensures Alike(a, b) <==> |a| == |b| && forall i | 0 <= i < |a| :: FieldsAgree(a[i], b[i])
  {
    AlikeExactly(a, b);
    if Alike(a, b) {
      AlikeFields(a, b);
    }
    if Stream(MessageParts(a)) == Stream(MessageParts(b)) {
      StreamDecodes(MessageParts(a), MessageParts(b));
      assert MessageParts(a)[0] == MessageParts(b)[0];
      ItoaInjective(|a|, |b|);
      assert MessageParts(a)[1..] == AllFields(a) && MessageParts(b)[1..] == AllFields(b);
      FieldsDecode(a, b);
    }
  }

  // An id as the broker gives them: it can be told apart from every other part of a key.
  ghost predicate PlainId(id: string) {
    id != "" && id != "no-expanded" && ',' !in id && NUL !in id && !Numeric(id)
  }

  lemma BrokerIdsArePlain(n: nat)
    ensures PlainId("msg-" + Itoa(n))
  {
    var id := "msg-" + Itoa(n);
    assert id[0] == 'm' && id != "";
    assert id != "no-expanded" by { assert "no-expanded"[0] == 'n'; }
    assert forall c <- id :: c in "msg-" || c in DIGITS;
    forall k: int ensures id != Itoa(k) {
      ItoaHead(k);
    }
  }

  lemma ItoaHead(k: int)
    ensures Itoa(k) != "" && Itoa(k)[0] != 'm'
  {
    ItoaSign(k);
    assert k >= 0 ==> Itoa(k)[0] in DIGITS;
    assert 'm' !in DIGITS;
  }

  ghost predicate PlainKeys(expanded: map<string, bool>) {
    forall k <- expanded :: PlainId(k)
  }

  // The expanded ids can be read back from the key part.
  lemma ExpandedPartMembers(expanded: map<string, bool>, id: string)
    requires PlainKeys(expanded) && expanded != map[]
    ensures id in ExpandedKeys(expanded) <==> id != "" && id in Split(ExpandedPart(expanded), ',')
  {
    var l := Listing(ExpandedKeys(expanded));
    assert forall x <- l :: x in Elems(l);
    assert id in l <==> id in Elems(l);
    if l == [] {
      assert Split("", ',') == [""];
    } else {
      SplitJoin(l, ',');
    }
  }

  // The part tells an empty map from one with entries.
  lemma NoExpandedApart(expanded: map<string, bool>)
    requires PlainKeys(expanded)
    ensures ExpandedPart(expanded) == "no-expanded" <==> expanded == map[]
  {
    if expanded != map[] {
      var l := Listing(ExpandedKeys(expanded));
      assert forall x <- l :: x in Elems(l);
      if l != [] {
        SplitJoin(l, ',');
        SplitAtFirst("no-expanded", "", ',');
        assert l[0] in l && PlainId(l[0]);
      }
    }
  }

  // Key parts of expanded maps are equal exactly when the same ids are expanded and both
  // maps have entries or neither has.
  lemma ExpandedPartsExactly(e: map<string, bool>, f: map<string, bool>)
    requires PlainKeys(e) && PlainKeys(f)
    ensures ExpandedPart(e) == ExpandedPart(f) <==> ExpandedKeys(e) == ExpandedKeys(f) && (e == map[] <==> f == map[])
  {
    NoExpandedApart(e);
    NoExpandedApart(f);
    if ExpandedPart(e) == ExpandedPart(f) {
      if e == map[] {
        assert ExpandedKeys(e) == ExpandedKeys(f);
      } else {
        forall id ensures id in ExpandedKeys(e) <==> id in ExpandedKeys(f) {
          ExpandedPartMembers(e, id);
          ExpandedPartMembers(f, id);
        }
      }
    }
  }

  // Threaded keys are equal exactly when flag, message count, hashed fields and expanded
  // ids agree (and both maps have entries or neither has).
  lemma ThreadedKeysExactly(d: bool, a: seq<Message>, e: map<string, bool>, g: bool, b: seq<Message>, f: map<string, bool>)
    requires NulFree(ThreadedParts(d, a, e)) && NulFree(ThreadedParts(g, b, f))
    requires PlainKeys(e) && PlainKeys(f)
    ensures Stream(ThreadedParts(d, a, e)) == Stream(ThreadedParts(g, b, f)) <==>
      d == g && Alike(a, b) && ExpandedKeys(e) == ExpandedKeys(f) && (e == map[] <==> f == map[])
    ensures Alike(a, b) <==> |a| == |b| && forall i | 0 <= i < |a| :: FieldsAgree(a[i], b[i])
  {
    AlikeExactly(a, b);
    ExpandedPartsExactly(e, f);
    if Alike(a, b) { AlikeFields(a, b); }
    if Stream(ThreadedParts(d, a, e)) == Stream(ThreadedParts(g, b, f)) {
      StreamDecodes(ThreadedParts(d, a, e), ThreadedParts(g, b, f));
      ThreadedLayout(d, a, e);
      ThreadedLayout(g, b, f);
      ItoaInjective(|a|, |b|);
      FieldsDecode(a, b);
    }
  }

  // Where each part of a threaded key sits.
  lemma ThreadedLayout(d: bool, ms: seq<Message>, e: map<string, bool>)
    ensures var p, n := ThreadedParts(d, ms, e), FIELD_COUNT * |ms|;
      && |p| == n + 4 && p[1] == BoolPart(d) && p[2] == Itoa(|ms|)
      && p[3..n + 3] == AllFields(ms) && p[n + 3] == ExpandedPart(e)
  {
    AllFieldsLength(ms);
  }

  // A message block and a text block never share a key stream.
  lemma BlockKindsDiffer(a: Block, b: Block)
    requires a.MessageBlock? && b.TextBlock?
    requires NulFree(BlockParts(a)) && NulFree(BlockParts(b))
    ensures Stream(BlockParts(a)) != Stream(BlockParts(b))
  {
    assert BlockParts(a)[0] != BlockParts(b)[0];
    if Stream(BlockParts(a)) == Stream(BlockParts(b)) {
      StreamDecodes(BlockParts(a), BlockParts(b));
    }
  }

  // The one way an anchored block can pass for one with a further reaction.
  ghost predicate Numeric(s: string) {
    exists n: int :: s == Itoa(n)
  }

  ghost predicate Ambiguous(b: Block)
    requires b.MessageBlock?
  {
    Anchored(b) && Numeric(b.tm.message.id) && Join(b.tm.participants, ',') in {"0", "1"}
  }

  lemma {:induction false} ReactionsDecode(a: seq<Reaction>, b: seq<Reaction>)
    requires |a| == |b| && ReactionParts(a) == ReactionParts(b)
    ensures a == b
  {
    if a != [] {
      var u, v := ReactionParts(a), ReactionParts(b);
      assert u[0] == a[0].emoji && u[1] == a[0].sender && v[0] == b[0].emoji && v[1] == b[0].sender;
      assert u[2..] == ReactionParts(a[1..]) && v[2..] == ReactionParts(b[1..]);
      ReactionsDecode(a[1..], b[1..]);
      assert a == [a[0]] + a[1..] && b == [b[0]] + b[1..];
    }
  }

  // Where each part of a message block's key sits.
  lemma BlockLayout(b: Block)
    requires b.MessageBlock?
    ensures var p, n := BlockParts(b), 11 + 2 * |b.tm.message.reactions|;
      && |p| == n + 5 + (if Anchored(b) then 2 else 0)
      && p[1] == Itoa(b.width) && p[2..11] == Fields(b.tm.message) && p[2] == b.tm.message.id
      && p[11..n] == ReactionParts(b.tm.message.reactions)
      && p[n..n + 5] == ShapeParts(b.tm)
      && (Anchored(b) ==> p[n + 5] == b.anchor && p[n + 6] == Itoa(b.unread))
  {
  }

  lemma ShapeDecodes(a: Threaded, b: Threaded)
    requires ShapeParts(a) == ShapeParts(b)
    ensures a.depth == b.depth && a.parentLabel == b.parentLabel && a.collapsed == b.collapsed
    ensures a.hiddenReplies == b.hiddenReplies && Join(a.participants, ',') == Join(b.participants, ',')
  {
    var u, v := ShapeParts(a), ShapeParts(b);
    assert u[0] == v[0] && u[1] == v[1] && u[2] == v[2] && u[3] == v[3] && u[4] == v[4];
    ItoaInjective(a.depth, b.depth);
    ItoaInjective(a.hiddenReplies, b.hiddenReplies);
  }

  lemma SameAnchorDecodes(a: Block, b: Block)
    requires a.MessageBlock? && b.MessageBlock? && BlockParts(a) == BlockParts(b)
    requires Anchored(a) <==> Anchored(b)
    ensures HashedOf(a) == HashedOf(b)
  {
    BlockLayout(a);
    BlockLayout(b);
    ItoaInjective(a.width, b.width);
    ReactionsDecode(a.tm.message.reactions, b.tm.message.reactions);
    ShapeDecodes(a.tm, b.tm);
    if Anchored(a) { ItoaInjective(a.unread, b.unread); }
  }

  lemma CrossAnchorAmbiguous(a: Block, b: Block)
    requires a.MessageBlock? && b.MessageBlock? && BlockParts(a) == BlockParts(b)
    requires Anchored(a) && !Anchored(b)
    ensures Ambiguous(a)
  {
    BlockLayout(a);
    BlockLayout(b);
    var p, n := BlockParts(a), 11 + 2 * |a.tm.message.reactions|;
    assert |b.tm.message.reactions| == |a.tm.message.reactions| + 1;
    assert p[n..n + 5][4] == p[n + 4];
    assert p[n + 2..n + 7][2] == p[n + 4] && p[n + 2..n + 7][3] == p[n + 5];
    assert a.tm.message.id == Itoa(b.tm.hiddenReplies);
  }

  // Equal block keys: every hashed field agrees, unless one of the blocks is an
  // anchored message with a numeric id and participants reading "0" or "1".
  lemma BlockKeyDecodes(a: Block, b: Block)
    requires a.MessageBlock? && b.MessageBlock?
    requires NulFree(BlockParts(a)) && NulFree(BlockParts(b))
    requires Stream(BlockParts(a)) == Stream(BlockParts(b))
    ensures HashedOf(a) == HashedOf(b) || Ambiguous(a) || Ambiguous(b)
  {
    StreamDecodes(BlockParts(a), BlockParts(b));
    if Anchored(a) == Anchored(b) {
      SameAnchorDecodes(a, b);
    } else if Anchored(a) {
      CrossAnchorAmbiguous(a, b);
    } else {
      CrossAnchorAmbiguous(b, a);
    }
  }

  // Every ambiguous block does have a double: the anchor's two parts read as the
  // tail of a block with one more reaction.
  lemma AmbiguousHasDouble(a: Block) returns (b: Block)
    requires a.MessageBlock? && Ambiguous(a)
    ensures b.MessageBlock? && !Anchored(b) && BlockParts(a) == BlockParts(b)
    ensures HashedOf(a) != HashedOf(b)
  {
    var n :| a.tm.message.id == Itoa(n);
    b := MessageBlock(DoubleOf(a, n), a.width, a.tm.message.id + "x", a.unread);
    assert |b.anchor| != |a.tm.message.id|;
    assert |b.tm.message.reactions| != |a.tm.message.reactions|;
    DoubleParts(a, n);
    HeadParts(a);
    HeadParts(b);
  }

  lemma SameHashedSameParts(a: Block, b: Block)
    requires HashedOf(a) == HashedOf(b)
    ensures BlockParts(a) == BlockParts(b)
  {
    if a.MessageBlock? {
      assert Fields(a.tm.message)[0] == a.tm.message.id && Fields(b.tm.message)[0] == b.tm.message.id;
      assert Anchored(a) <==> Anchored(b);
    }
  }

  ghost predicate PlainBlock(b: Block) {
    NulFree(BlockParts(b)) && (b.MessageBlock? ==> PlainId(b.tm.message.id))
  }

  // What a key covers of a block. Of the place of the unread line it holds no more than
  // whether the line stands at this message, and then how many are unread.
  ghost predicate BlocksAgree(a: Block, b: Block) {
    match (a, b)
    case (MessageBlock(s, v, x, m), MessageBlock(t, w, y, n)) =>
      && v == w && FieldsAgree(s.message, t.message) && s.message.reactions == t.message.reactions
      && s.depth == t.depth && s.parentLabel == t.parentLabel && s.collapsed == t.collapsed
      && s.hiddenReplies == t.hiddenReplies && Join(s.participants, ',') == Join(t.participants, ',')
      && (s.message.id == x <==> t.message.id == y) && (s.message.id == x ==> m == n)
    case (TextBlock(v, s), TextBlock(w, t)) => v == w && s == t
    case _ => false
  }

  lemma HashedExactly(a: Block, b: Block)
    ensures HashedOf(a) == HashedOf(b) <==> BlocksAgree(a, b)
  {
    if a.MessageBlock? && b.MessageBlock? {
      FieldsExactly(a.tm.message, b.tm.message);
    }
  }

  // For messages with plain ids, block keys are equal exactly when everything they are
  // meant to cover is.
  lemma BlockKeysExactly(a: Block, b: Block)
    requires PlainBlock(a) && PlainBlock(b)
    ensures Stream(BlockParts(a)) == Stream(BlockParts(b)) <==> HashedOf(a) == HashedOf(b)
    ensures HashedOf(a) == HashedOf(b) <==> BlocksAgree(a, b)
  {
    HashedExactly(a, b);
    if HashedOf(a) == HashedOf(b) { SameHashedSameParts(a, b); }
    if Stream(BlockParts(a)) == Stream(BlockParts(b)) {
      match (a, b) {
        case (MessageBlock(_, _, _, _), MessageBlock(_, _, _, _)) => BlockKeyDecodes(a, b);
        case (TextBlock(v, s), TextBlock(w, t)) =>
          StreamDecodes(BlockParts(a), BlockParts(b));
          assert BlockParts(a)[1] == BlockParts(b)[1] && BlockParts(a)[2] == BlockParts(b)[2];
          ItoaInjective(v, w);
        case (MessageBlock(_, _, _, _), TextBlock(_, _)) =>
          BlockKindsDiffer(a, b);
          assert false;
        case (TextBlock(_, _), MessageBlock(_, _, _, _)) =>
          BlockKindsDiffer(b, a);
          assert false;
      }
    }
  }

  function Extra(tm: Threaded): Reaction {
    Reaction(Itoa(tm.depth), tm.parentLabel)
  }

  function DoubleOf(a: Block, n: int): Threaded
    requires a.MessageBlock?
  {
    var m := a.tm.message;
    Threaded(m.(reactions := m.reactions + [Extra(a.tm)]), if a.tm.collapsed then 1 else 0, Itoa(a.tm.hiddenReplies),
             Join(a.tm.participants, ',') == "1", n, [Itoa(a.unread)])
  }

  lemma DoubleParts(a: Block, n: int)
    requires a.MessageBlock? && Ambiguous(a) && a.tm.message.id == Itoa(n)
    ensures var tm := DoubleOf(a, n);
      && Fields(tm.message) == Fields(a.tm.message)
      && ReactionParts(tm.message.reactions) + ShapeParts(tm) ==
         ReactionParts(a.tm.message.reactions) + ShapeParts(a.tm) + [a.anchor, Itoa(a.unread)]
  {
    var tm, r := DoubleOf(a, n), Extra(a.tm);
    ReactionPartsSnoc(a.tm.message.reactions, r);
    assert Itoa(0) == "0" && Itoa(1) == "1";
    assert [r.emoji, r.sender] + ShapeParts(tm) == ShapeParts(a.tm) + [a.anchor, Itoa(a.unread)];
  }

  lemma HeadParts(b: Block)
    requires b.MessageBlock?
    ensures BlockParts(b) == ["threaded-block", Itoa(b.width)] + Fields(b.tm.message) +
                             (ReactionParts(b.tm.message.reactions) + ShapeParts(b.tm) +
                              (if Anchored(b) then [b.anchor, Itoa(b.unread)] else []))
  {
  }

  lemma {:induction false} ReactionPartsSnoc(rs: seq<Reaction>, r: Reaction)
    ensures ReactionParts(rs + [r]) == ReactionParts(rs) + [r.emoji, r.sender]
  {
    if rs == [] {
      assert (rs + [r])[1..] == [];
    } else {
      assert (rs + [r])[1..] == rs[1..] + [r];
      ReactionPartsSnoc(rs[1..], r);
    }
  }
}
