/** The office feed's thread layout: what `FlattenThreadMessages` makes of messages and of
    the map of expanded threads, and exactly how far it depends on that map. */
module Threads {
  import opened Text
  import opened KeyStream

  type Names = string -> string   // DisplayName

  // ------------------------------------------------------------------
  // The layout
  // ------------------------------------------------------------------

  // Stable insertion: after everything not later than it.
  function InsertByTime(sorted: seq<Message>, m: Message): seq<Message> {
    if sorted == [] then [m]
    else
      var last := sorted[|sorted| - 1];
      if Leq(last.timestamp, m.timestamp) then sorted + [m]
      else InsertByTime(sorted[..|sorted| - 1], m) + [last]
  }

  function ByTime(ms: seq<Message>): seq<Message> {
    if ms == [] then [] else InsertByTime(ByTime(ms[..|ms| - 1]), ms[|ms| - 1])
  }

  predicate HasId(ms: seq<Message>, id: string) {
    exists m <- ms :: m.id == id
  }

  // `HasThreadReplies`.
  predicate HasReplies(ms: seq<Message>, id: string) {
    exists m <- ms :: m.replyTo == id
  }

  function Select(ms: seq<Message>, keep: Message -> bool): seq<Message> {
    if ms == [] then []
    else Select(ms[..|ms| - 1], keep) + (if keep(ms[|ms| - 1]) then [ms[|ms| - 1]] else [])
  }

  // The replies to a message, in the order of the list.
  function Kids(ms: seq<Message>, id: string): seq<Message> {
    if id == "" then [] else Select(ms, (m: Message) => m.replyTo == id)
  }

  function IsRoot(ms: seq<Message>): Message -> bool {
    (m: Message) => m.replyTo == "" || !HasId(ms, m.replyTo)
  }

  // Messages answering nothing that is there; the earliest one when all are in cycles.
  function Roots(ms: seq<Message>): seq<Message> {
    var roots := Select(ms, IsRoot(ms));
    if roots == [] && ms != [] then [ms[0]] else roots
  }

  // Who sent the last message with this id.
  function SenderOf(ms: seq<Message>, id: string): string {
    if ms == [] then ""
    else if ms[|ms| - 1].id == id then ms[|ms| - 1].sender
    else SenderOf(ms[..|ms| - 1], id)
  }

  function ParentLabel(ms: seq<Message>, m: Message): string {
    if m.replyTo != "" && HasId(ms, m.replyTo) then "@" + SenderOf(ms, m.replyTo) else m.replyTo
  }

  predicate Collapsed(expanded: map<string, bool>, id: string) {
    id in expanded && !expanded[id]
  }

  function Ids(ms: seq<Message>): set<string> {
    set m | m in ms :: m.id
  }

  lemma SelectFrom(ms: seq<Message>, keep: Message -> bool)
    ensures forall m :: m in Select(ms, keep) <==> m in ms && keep(m)
  {
    if ms != [] {
      var init, last := ms[..|ms| - 1], ms[|ms| - 1];
      SelectFrom(init, keep);
      assert ms == init + [last];
    }
  }

  lemma KidsFrom(ms: seq<Message>, id: string)
    ensures forall m :: m in Kids(ms, id) <==> m in ms && id != "" && m.replyTo == id
  {
    SelectFrom(ms, (m: Message) => m.replyTo == id);
  }

  // Descendants not met before, counted depth first.
  function CountBelow(ms: seq<Message>, queue: seq<Message>, visited: set<string>): (r: (nat, set<string>))
    requires forall m <- queue :: m in ms
    ensures visited <= r.1
    decreases Ids(ms) - visited, |queue|
  {
    if queue == [] then (0, visited)
    else
      var m, rest := queue[0], queue[1..];
      assert m in queue && forall x <- rest :: x in queue;
      if m.id in visited then CountBelow(ms, rest, visited)
      else
        KidsFrom(ms, m.id);
        assert m.id in Ids(ms) - visited;
        var (n, v) := CountBelow(ms, Kids(ms, m.id), visited + {m.id});
        assert m.id !in Ids(ms) - v;
        var (k, w) := CountBelow(ms, rest, v);
        (1 + n + k, w)
  }

  function CountReplies(ms: seq<Message>, id: string): nat {
    KidsFrom(ms, id);
    CountBelow(ms, Kids(ms, id), {id}).0
  }

  // Display names of the senders below, each once, in walk order.
  function NamesBelow(names: Names, ms: seq<Message>, queue: seq<Message>, visited: set<string>, seen: seq<string>)
    : (r: (seq<string>, set<string>))
    requires forall m <- queue :: m in ms
    ensures visited <= r.1
    ensures forall n <- r.0 :: n in seen || exists m <- ms :: n == names(m.sender)
    decreases Ids(ms) - visited, |queue|
  {
    if queue == [] then (seen, visited)
    else
      var m, rest := queue[0], queue[1..];
      assert m in queue && forall x <- rest :: x in queue;
      var name := names(m.sender);
      var met := if name in seen then seen else seen + [name];
      if m.id in visited then NamesBelow(names, ms, rest, visited, met)
      else
        KidsFrom(ms, m.id);
        assert m.id in Ids(ms) - visited;
        var (below, v) := NamesBelow(names, ms, Kids(ms, m.id), visited + {m.id}, met);
        assert m.id !in Ids(ms) - v;
        NamesBelow(names, ms, rest, v, below)
  }

  function Participants(names: Names, ms: seq<Message>, id: string): (r: seq<string>)
    ensures forall n <- r :: exists m <- ms :: n == names(m.sender)
  {
    KidsFrom(ms, id);
    NamesBelow(names, ms, Kids(ms, id), {id}, []).0
  }

  function EntryFor(names: Names, ms: seq<Message>, expanded: map<string, bool>, m: Message, depth: nat): Threaded {
    var collapsed := Kids(ms, m.id) != [] && Collapsed(expanded, m.id);
    Threaded(m, depth, ParentLabel(ms, m), collapsed,
             if collapsed then CountReplies(ms, m.id) else 0,
             if collapsed then Participants(names, ms, m.id) else [])
  }

  // Depth first, each id once, not below a collapsed message.
  function Walk(names: Names, ms: seq<Message>, expanded: map<string, bool>, queue: seq<Message>, depth: nat,
                visited: set<string>)
    : (r: (seq<Threaded>, set<string>))
    requires forall m <- queue :: m in ms
    ensures visited <= r.1
    decreases Ids(ms) - visited, |queue|
  {
    if queue == [] then ([], visited)
    else
      var m, rest := queue[0], queue[1..];
      assert m in queue && forall x <- rest :: x in queue;
      if m.id in visited then Walk(names, ms, expanded, rest, depth, visited)
      else
        KidsFrom(ms, m.id);
        assert m.id in Ids(ms) - visited;
        var tm, met := EntryFor(names, ms, expanded, m, depth), visited + {m.id};
        var (below, v) := if tm.collapsed then ([], met) else Walk(names, ms, expanded, Kids(ms, m.id), depth + 1, met);
        assert m.id !in Ids(ms) - v;
        var (after, w) := Walk(names, ms, expanded, rest, depth, v);
        ([tm] + below + after, w)
  }

  lemma RootsFrom(ms: seq<Message>)
    ensures forall m <- Roots(ms) :: m in ms
  {
    SelectFrom(ms, IsRoot(ms));
  }

  function FlattenThreadMessages(names: Names, ms: seq<Message>, expanded: map<string, bool>): seq<Threaded> {
    var sorted := ByTime(ms);
    RootsFrom(sorted);
    Walk(names, sorted, expanded, Roots(sorted), 0, {}).0
  }

  // ------------------------------------------------------------------
  // Messages alike in every hashed field are laid out alike
  // ------------------------------------------------------------------

  lemma SameFields(m: Message, n: Message)
    requires Fields(m) == Fields(n)
    ensures m.id == n.id && m.sender == n.sender && m.replyTo == n.replyTo && m.timestamp == n.timestamp
  {
    var f, g := Fields(m), Fields(n);
    assert f[0] == g[0] && f[1] == g[1] && f[5] == g[5] && f[6] == g[6];
  }

  lemma AlikeInit(a: seq<Message>, b: seq<Message>)
    requires Alike(a, b) && a != []
    ensures Alike(a[..|a| - 1], b[..|b| - 1]) && Fields(a[|a| - 1]) == Fields(b[|b| - 1])
  {
    var n := |a| - 1;
    forall i | 0 <= i < n ensures Fields(a[..n][i]) == Fields(b[..n][i]) {
      assert Fields(a[i]) == Fields(b[i]);
    }
  }

  lemma AlikeTail(a: seq<Message>, b: seq<Message>)
    requires Alike(a, b) && a != []
    ensures Alike(a[1..], b[1..]) && Fields(a[0]) == Fields(b[0])
  {
    forall i | 0 <= i < |a| - 1 ensures Fields(a[1..][i]) == Fields(b[1..][i]) {
      assert Fields(a[i + 1]) == Fields(b[i + 1]);
    }
  }

  lemma AlikeSnoc(a: seq<Message>, b: seq<Message>, m: Message, n: Message)
    requires Alike(a, b) && Fields(m) == Fields(n)
    ensures Alike(a + [m], b + [n])
  {}

  lemma {:induction false} InsertAlike(a: seq<Message>, b: seq<Message>, m: Message, n: Message)
    requires Alike(a, b) && Fields(m) == Fields(n)
    ensures Alike(InsertByTime(a, m), InsertByTime(b, n))
  {
    if a != [] {
      AlikeInit(a, b);
      SameFields(m, n);
      var x, y := a[|a| - 1], b[|b| - 1];
      SameFields(x, y);
      if Leq(x.timestamp, m.timestamp) {
        AlikeSnoc(a, b, m, n);
      } else {
        InsertAlike(a[..|a| - 1], b[..|b| - 1], m, n);
        AlikeSnoc(InsertByTime(a[..|a| - 1], m), InsertByTime(b[..|b| - 1], n), x, y);
      }
    }
  }

  lemma {:induction false} ByTimeAlike(a: seq<Message>, b: seq<Message>)
    requires Alike(a, b)
    ensures Alike(ByTime(a), ByTime(b))
  {
    if a != [] {
      AlikeInit(a, b);
      ByTimeAlike(a[..|a| - 1], b[..|b| - 1]);
      InsertAlike(ByTime(a[..|a| - 1]), ByTime(b[..|b| - 1]), a[|a| - 1], b[|b| - 1]);
    }
  }

  lemma {:induction false} InsertMembers(a: seq<Message>, m: Message, x: Message)
    ensures x in InsertByTime(a, m) <==> x in a || x == m
  {
    if a != [] {
      assert a == a[..|a| - 1] + [a[|a| - 1]];
      InsertMembers(a[..|a| - 1], m, x);
    }
  }

  lemma {:induction false} ByTimeMembers(ms: seq<Message>, x: Message)
    ensures x in ByTime(ms) <==> x in ms
  {
    if ms != [] {
      assert ms == ms[..|ms| - 1] + [ms[|ms| - 1]];
      ByTimeMembers(ms[..|ms| - 1], x);
      InsertMembers(ByTime(ms[..|ms| - 1]), ms[|ms| - 1], x);
    }
  }

  lemma {:induction false} SelectAlike(a: seq<Message>, b: seq<Message>, keep: Message -> bool, hold: Message -> bool)
    requires Alike(a, b) && forall m, n | Fields(m) == Fields(n) :: keep(m) == hold(n)
    ensures Alike(Select(a, keep), Select(b, hold))
  {
    if a != [] {
      AlikeInit(a, b);
      var x, y := a[|a| - 1], b[|b| - 1];
      SelectAlike(a[..|a| - 1], b[..|b| - 1], keep, hold);
      assert keep(x) == hold(y);
      AlikeSnoc(Select(a[..|a| - 1], keep), Select(b[..|b| - 1], hold), x, y);
    }
  }

  lemma KidsAlike(a: seq<Message>, b: seq<Message>, id: string)
    requires Alike(a, b)
    ensures Alike(Kids(a, id), Kids(b, id))
  {
    var keep := (m: Message) => m.replyTo == id;
    forall m, n | Fields(m) == Fields(n) ensures keep(m) == keep(n) {
      SameFields(m, n);
    }
    SelectAlike(a, b, keep, keep);
  }

  lemma HasIdAlike(a: seq<Message>, b: seq<Message>, id: string)
    requires Alike(a, b)
    ensures HasId(a, id) == HasId(b, id)
  {
    forall i | 0 <= i < |a| ensures a[i].id == b[i].id {
      assert Fields(a[i]) == Fields(b[i]);
      SameFields(a[i], b[i]);
    }
    if HasId(a, id) {
      var m :| m in a && m.id == id;
      var i :| 0 <= i < |a| && a[i] == m;
      assert b[i] in b;
    }
    if HasId(b, id) {
      var m :| m in b && m.id == id;
      var i :| 0 <= i < |b| && b[i] == m;
      assert a[i] in a;
    }
  }

  lemma RootsAlike(a: seq<Message>, b: seq<Message>)
    requires Alike(a, b)
    ensures Alike(Roots(a), Roots(b))
  {
    forall m, n | Fields(m) == Fields(n) ensures IsRoot(a)(m) == IsRoot(b)(n) {
      SameFields(m, n);
      HasIdAlike(a, b, m.replyTo);
    }
    SelectAlike(a, b, IsRoot(a), IsRoot(b));
    if a != [] { assert Fields(a[0]) == Fields(b[0]); }
  }

  lemma {:induction false} SenderAlike(a: seq<Message>, b: seq<Message>, id: string)
    requires Alike(a, b)
    ensures SenderOf(a, id) == SenderOf(b, id)
  {
    if a != [] {
      AlikeInit(a, b);
      SameFields(a[|a| - 1], b[|b| - 1]);
      SenderAlike(a[..|a| - 1], b[..|b| - 1], id);
    }
  }

  lemma QueueParts(ms: seq<Message>, queue: seq<Message>)
    requires (forall m <- queue :: m in ms) && queue != []
    ensures queue[0] in ms && (forall m <- queue[1..] :: m in ms) && forall m <- Kids(ms, queue[0].id) :: m in ms
  {
    assert queue[0] in queue && forall x <- queue[1..] :: x in queue;
    KidsFrom(ms, queue[0].id);
  }

  // The queue's first message, when it is new: its replies, and the rest after them.
  lemma CountNext(ms: seq<Message>, queue: seq<Message>, visited: set<string>) returns (v: set<string>)
    requires (forall m <- queue :: m in ms) && queue != [] && queue[0].id !in visited
    ensures queue[0] in ms && (forall m <- queue[1..] :: m in ms) && forall m <- Kids(ms, queue[0].id) :: m in ms
    ensures var below := CountBelow(ms, Kids(ms, queue[0].id), visited + {queue[0].id});
      var after := CountBelow(ms, queue[1..], v);
      v == below.1 && queue[0].id in v && visited <= v
      && CountBelow(ms, queue, visited) == (1 + below.0 + after.0, after.1)
  {
    QueueParts(ms, queue);
    v := CountBelow(ms, Kids(ms, queue[0].id), visited + {queue[0].id}).1;
  }

  lemma {:induction false} CountAlike(
    a: seq<Message>, b: seq<Message>, p: seq<Message>, q: seq<Message>, visited: set<string>)
    requires Alike(a, b) && Alike(p, q)
    requires (forall m <- p :: m in a) && forall m <- q :: m in b
    ensures CountBelow(a, p, visited) == CountBelow(b, q, visited)
    decreases Ids(a) - visited, |p|
  {
    if p != [] {
      AlikeTail(p, q);
      SameFields(p[0], q[0]);
      var id := p[0].id;
      if id in visited {
        assert (forall x <- p[1..] :: x in p) && forall x <- q[1..] :: x in q;
        CountAlike(a, b, p[1..], q[1..], visited);
      } else {
        var v := CountNext(a, p, visited);
        var w := CountNext(b, q, visited);
        KidsAlike(a, b, id);
        assert id in Ids(a) - visited;
        CountAlike(a, b, Kids(a, id), Kids(b, id), visited + {id});
        CountAlike(a, b, p[1..], q[1..], v);
      }
    }
  }

  lemma {:induction false} NamesAlike(names: Names, a: seq<Message>, b: seq<Message>, p: seq<Message>, q: seq<Message>,
                                      visited: set<string>, seen: seq<string>)
    requires Alike(a, b) && Alike(p, q)
    requires (forall m <- p :: m in a) && forall m <- q :: m in b
    ensures NamesBelow(names, a, p, visited, seen) == NamesBelow(names, b, q, visited, seen)
    decreases Ids(a) - visited, |p|
  {
    if p != [] {
      var m, n := p[0], q[0];
      assert m in p && n in q && (forall x <- p[1..] :: x in p) && forall x <- q[1..] :: x in q;
      AlikeTail(p, q);
      SameFields(m, n);
      var met := if names(m.sender) in seen then seen else seen + [names(m.sender)];
      if m.id in visited {
        NamesAlike(names, a, b, p[1..], q[1..], visited, met);
      } else {
        KidsFrom(a, m.id);
        KidsFrom(b, m.id);
        KidsAlike(a, b, m.id);
        assert m.id in Ids(a) - visited;
        NamesAlike(names, a, b, Kids(a, m.id), Kids(b, m.id), visited + {m.id}, met);
        var (below, v) := NamesBelow(names, a, Kids(a, m.id), visited + {m.id}, met);
        assert m.id !in Ids(a) - v;
        NamesAlike(names, a, b, p[1..], q[1..], v, below);
      }
    }
  }

  // Equal but for what a message carries beside its hashed fields.
  ghost predicate SameShape(s: Threaded, t: Threaded) {
    && Fields(s.message) == Fields(t.message) && s.depth == t.depth && s.parentLabel == t.parentLabel
    && s.collapsed == t.collapsed && s.hiddenReplies == t.hiddenReplies && s.participants == t.participants
  }

  ghost predicate SameShapes(s: seq<Threaded>, t: seq<Threaded>) {
    |s| == |t| && forall i | 0 <= i < |s| :: SameShape(s[i], t[i])
  }

  // The two maps agree on whether this message, if it has replies, is collapsed.
  ghost predicate Agree(ms: seq<Message>, e: map<string, bool>, f: map<string, bool>, id: string) {
    id != "" && HasReplies(ms, id) ==> Collapsed(e, id) == Collapsed(f, id)
  }

  lemma HasKids(ms: seq<Message>, id: string)
    ensures Kids(ms, id) != [] <==> id != "" && HasReplies(ms, id)
  {
    KidsFrom(ms, id);
    if Kids(ms, id) != [] { assert Kids(ms, id)[0] in Kids(ms, id); }
  }

  lemma EntryAlike(names: Names, a: seq<Message>, b: seq<Message>, e: map<string, bool>, f: map<string, bool>,
                   m: Message, n: Message, depth: nat)
    requires Alike(a, b) && Fields(m) == Fields(n) && Agree(b, e, f, n.id)
    ensures SameShape(EntryFor(names, a, e, m, depth), EntryFor(names, b, f, n, depth))
  {
    SameFields(m, n);
    KidsAlike(a, b, m.id);
    HasKids(b, m.id);
    HasIdAlike(a, b, m.replyTo);
    SenderAlike(a, b, m.replyTo);
    KidsFrom(a, m.id);
    KidsFrom(b, m.id);
    CountAlike(a, b, Kids(a, m.id), Kids(b, m.id), {m.id});
    NamesAlike(names, a, b, Kids(a, m.id), Kids(b, m.id), {m.id}, []);
  }

  lemma ShapesAppend(a: seq<Threaded>, b: seq<Threaded>, c: seq<Threaded>, d: seq<Threaded>)
    requires SameShapes(a, b) && SameShapes(c, d)
    ensures SameShapes(a + c, b + d)
  {}

  // Walks over messages alike, with maps that agree on everything the second one shows,
  // have the same shape.
  lemma {:induction false} WalkAlike(
    names: Names, a: seq<Message>, b: seq<Message>, e: map<string, bool>, f: map<string, bool>,
    p: seq<Message>, q: seq<Message>, depth: nat, visited: set<string>)
    requires Alike(a, b) && Alike(p, q)
    requires (forall m <- p :: m in a) && forall m <- q :: m in b
    requires forall tm <- Walk(names, b, f, q, depth, visited).0 :: Agree(b, e, f, tm.message.id)
    ensures SameShapes(Walk(names, a, e, p, depth, visited).0, Walk(names, b, f, q, depth, visited).0)
    ensures Walk(names, a, e, p, depth, visited).1 == Walk(names, b, f, q, depth, visited).1
    decreases Ids(a) - visited, |p|
  {
    if p != [] {
      var m, n := p[0], q[0];
      assert m in p && n in q && (forall x <- p[1..] :: x in p) && forall x <- q[1..] :: x in q;
      AlikeTail(p, q);
      SameFields(m, n);
      if m.id in visited {
        WalkAlike(names, a, b, e, f, p[1..], q[1..], depth, visited);
      } else {
        WalkStepAlike(names, a, b, e, f, p, q, depth, visited);
      }
    }
  }

  // The same for a walk.
  lemma WalkNext(names: Names, ms: seq<Message>, e: map<string, bool>, queue: seq<Message>, depth: nat, visited: set<string>)
    returns (below: seq<Threaded>, v: set<string>, after: seq<Threaded>)
    requires (forall m <- queue :: m in ms) && queue != [] && queue[0].id !in visited
    ensures queue[0] in ms && (forall m <- queue[1..] :: m in ms) && forall m <- Kids(ms, queue[0].id) :: m in ms
    ensures var tm := EntryFor(names, ms, e, queue[0], depth);
      && (below, v) == (if tm.collapsed then ([], visited + {queue[0].id})
                        else Walk(names, ms, e, Kids(ms, queue[0].id), depth + 1, visited + {queue[0].id}))
      && after == Walk(names, ms, e, queue[1..], depth, v).0
      && queue[0].id in v && visited <= v
      && Walk(names, ms, e, queue, depth, visited) == ([tm] + below + after, Walk(names, ms, e, queue[1..], depth, v).1)
  {
    QueueParts(ms, queue);
    var tm, met := EntryFor(names, ms, e, queue[0], depth), visited + {queue[0].id};
    var r := if tm.collapsed then ([], met) else Walk(names, ms, e, Kids(ms, queue[0].id), depth + 1, met);
    below, v := r.0, r.1;
    after := Walk(names, ms, e, queue[1..], depth, v).0;
  }

  lemma {:induction false} WalkStepAlike(
    names: Names, a: seq<Message>, b: seq<Message>, e: map<string, bool>, f: map<string, bool>,
    p: seq<Message>, q: seq<Message>, depth: nat, visited: set<string>)
    requires Alike(a, b) && Alike(p, q) && p != [] && p[0].id !in visited && q[0].id == p[0].id
    requires (forall m <- p :: m in a) && forall m <- q :: m in b
    requires forall tm <- Walk(names, b, f, q, depth, visited).0 :: Agree(b, e, f, tm.message.id)
    ensures SameShapes(Walk(names, a, e, p, depth, visited).0, Walk(names, b, f, q, depth, visited).0)
    ensures Walk(names, a, e, p, depth, visited).1 == Walk(names, b, f, q, depth, visited).1
    decreases Ids(a) - visited, |p|, 0
  {
    var id := p[0].id;
    AlikeTail(p, q);
    KidsAlike(a, b, id);
    assert id in Ids(a) - visited;
    var over, u, past := WalkNext(names, a, e, p, depth, visited);
    var below, v, after := WalkNext(names, b, f, q, depth, visited);
    var s, t := EntryFor(names, a, e, p[0], depth), EntryFor(names, b, f, q[0], depth);
    ShownParts(b, e, f, t, below, after);
    EntryAlike(names, a, b, e, f, p[0], q[0], depth);
    if !t.collapsed {
      WalkAlike(names, a, b, e, f, Kids(a, id), Kids(b, id), depth + 1, visited + {id});
    }
    WalkAlike(names, a, b, e, f, p[1..], q[1..], depth, v);
    ShapesAppend([s], [t], over, below);
    ShapesAppend([s] + over, [t] + below, past, after);
  }

  lemma ShownParts(ms: seq<Message>, e: map<string, bool>, f: map<string, bool>,
                   t: Threaded, below: seq<Threaded>, after: seq<Threaded>)
    requires forall tm <- [t] + below + after :: Agree(ms, e, f, tm.message.id)
    ensures Agree(ms, e, f, t.message.id)
    ensures (forall tm <- below :: Agree(ms, e, f, tm.message.id)) && forall tm <- after :: Agree(ms, e, f, tm.message.id)
  {
    var all := [t] + below + after;
    assert all[0] == t;
    assert (forall tm <- below :: tm in all) && forall tm <- after :: tm in all;
  }

  // ------------------------------------------------------------------
  // What a layout shows, and when two layouts are the same
  // ------------------------------------------------------------------

  // An entry made from one of these messages under this map.
  ghost predicate Entered(names: Names, ms: seq<Message>, e: map<string, bool>, tm: Threaded) {
    && tm.message in ms && tm.depth >= 0
    && tm == EntryFor(names, ms, e, tm.message, tm.depth)
  }

  lemma {:induction false} WalkEntered(names: Names, ms: seq<Message>, e: map<string, bool>, queue: seq<Message>,
                                       depth: nat, visited: set<string>)
    requires forall m <- queue :: m in ms
    ensures forall tm <- Walk(names, ms, e, queue, depth, visited).0 :: Entered(names, ms, e, tm)
    decreases Ids(ms) - visited, |queue|
  {
    if queue != [] {
      var m := queue[0];
      assert m in queue && forall x <- queue[1..] :: x in queue;
      if m.id in visited {
        WalkEntered(names, ms, e, queue[1..], depth, visited);
      } else {
        var below, v, after := WalkNext(names, ms, e, queue, depth, visited);
        assert m.id in Ids(ms) - visited;
        WalkEntered(names, ms, e, Kids(ms, m.id), depth + 1, visited + {m.id});
        WalkEntered(names, ms, e, queue[1..], depth, v);
      }
    }
  }

  // Every entry of a layout is one of the messages, collapsed exactly when it has replies
  // and its own entry in the map says so.
  lemma LayoutEntries(names: Names, ms: seq<Message>, e: map<string, bool>, tm: Threaded)
    requires tm in FlattenThreadMessages(names, ms, e)
    ensures tm.message in ms && Entered(names, ByTime(ms), e, tm)
    ensures tm.collapsed <==> tm.message.id != "" && HasReplies(ms, tm.message.id) && Collapsed(e, tm.message.id)
  {
    var sorted := ByTime(ms);
    RootsFrom(sorted);
    WalkEntered(names, sorted, e, Roots(sorted), 0, {});
    ByTimeMembers(ms, tm.message);
    HasKids(sorted, tm.message.id);
    SortedReplies(ms, tm.message.id);
  }

  lemma SortedReplies(ms: seq<Message>, id: string)
    ensures HasReplies(ByTime(ms), id) <==> HasReplies(ms, id)
  {
    forall m ensures m in ByTime(ms) <==> m in ms {
      ByTimeMembers(ms, m);
    }
  }

  // No two of these messages differ only in what the key leaves out.
  ghost predicate FieldsTell(ms: set<Message>) {
    forall m, n | m in ms && n in ms && Fields(m) == Fields(n) :: m == n
  }

  ghost function Among(ms: seq<Message>): set<Message> {
    set m | m in ms
  }

  // A layout of messages alike is the fresh one exactly when every message shown is among
  // those it was made from, reactions and usage included, and for every message shown that
  // has replies both maps say the same about collapsing it.
  lemma LayoutFreshExactly(names: Names, was: seq<Message>, e: map<string, bool>, now: seq<Message>, f: map<string, bool>)
    requires Alike(was, now) && FieldsTell(Among(was))
    ensures FlattenThreadMessages(names, was, e) == FlattenThreadMessages(names, now, f) <==>
            forall tm <- FlattenThreadMessages(names, now, f) :: tm.message in was && Agree(now, e, f, tm.message.id)
  {
    var s, t := FlattenThreadMessages(names, was, e), FlattenThreadMessages(names, now, f);
    if s == t {
      forall tm | tm in t ensures tm.message in was && Agree(now, e, f, tm.message.id) {
        LayoutEntries(names, was, e, tm);
        LayoutEntries(names, now, f, tm);
        RepliesAlike(was, now, tm.message.id);
      }
    }
    if forall tm <- t :: tm.message in was && Agree(now, e, f, tm.message.id) {
      LayoutsAlike(names, was, e, now, f);
      forall i | 0 <= i < |t| ensures s[i] == t[i] {
        assert SameShape(s[i], t[i]) && s[i] in s && t[i] in t;
        LayoutEntries(names, was, e, s[i]);
        assert s[i].message in Among(was) && t[i].message in Among(was);
      }
    }
  }

  lemma RepliesAlike(a: seq<Message>, b: seq<Message>, id: string)
    requires Alike(a, b)
    ensures HasReplies(a, id) == HasReplies(b, id)
  {
    forall i | 0 <= i < |a| ensures a[i].replyTo == b[i].replyTo {
      assert Fields(a[i]) == Fields(b[i]);
      SameFields(a[i], b[i]);
    }
    if HasReplies(a, id) {
      var i :| 0 <= i < |a| && a[i].replyTo == id;
      assert b[i] in b;
    }
    if HasReplies(b, id) {
      var i :| 0 <= i < |b| && b[i].replyTo == id;
      assert a[i] in a;
    }
  }

  lemma LayoutsAlike(names: Names, a: seq<Message>, e: map<string, bool>, b: seq<Message>, f: map<string, bool>)
    requires Alike(a, b)
    requires forall tm <- FlattenThreadMessages(names, b, f) :: Agree(b, e, f, tm.message.id)
    ensures SameShapes(FlattenThreadMessages(names, a, e), FlattenThreadMessages(names, b, f))
  {
    var p, q := ByTime(a), ByTime(b);
    ByTimeAlike(a, b);
    RootsAlike(p, q);
    RootsFrom(p);
    RootsFrom(q);
    forall tm | tm in FlattenThreadMessages(names, b, f) ensures Agree(q, e, f, tm.message.id) {
      SortedReplies(b, tm.message.id);
    }
    WalkAlike(names, p, q, e, f, Roots(p), Roots(q), 0, {});
  }

  // Every id a walk has met was met before, or is shown; so are the ids of its queue.
  lemma {:induction false} WalkShows(names: Names, ms: seq<Message>, e: map<string, bool>, queue: seq<Message>,
                                     depth: nat, visited: set<string>, id: string)
    requires forall m <- queue :: m in ms
    ensures var (shown, met) := Walk(names, ms, e, queue, depth, visited);
      && (id in met ==> id in visited || Shows(shown, id))
      && (forall m <- queue :: m.id in met)
    decreases Ids(ms) - visited, |queue|
  {
    if queue != [] {
      var m := queue[0];
      assert m in queue && forall x <- queue[1..] :: x in queue;
      assert forall x <- queue :: x == m || x in queue[1..];
      if m.id in visited {
        WalkShows(names, ms, e, queue[1..], depth, visited, id);
      } else {
        var below, v, after := WalkNext(names, ms, e, queue, depth, visited);
        assert m.id in Ids(ms) - visited;
        WalkShows(names, ms, e, Kids(ms, m.id), depth + 1, visited + {m.id}, id);
        WalkShows(names, ms, e, queue[1..], depth, v, id);
        ShowsParts(EntryFor(names, ms, e, m, depth), below, after, id);
      }
    }
  }

  ghost predicate Shows(shown: seq<Threaded>, id: string) {
    exists tm <- shown :: tm.message.id == id
  }

  lemma ShowsParts(t: Threaded, below: seq<Threaded>, after: seq<Threaded>, id: string)
    ensures Shows([t] + below + after, id) <==> t.message.id == id || Shows(below, id) || Shows(after, id)
  {
    var all := [t] + below + after;
    assert all[0] == t;
    assert forall tm :: tm in all <==> tm == t || tm in below || tm in after;
  }

  // A message that answers nothing is shown, or another with its id is.
  lemma RootShown(names: Names, ms: seq<Message>, e: map<string, bool>, m: Message)
    requires m in ms && m.replyTo == ""
    ensures Shows(FlattenThreadMessages(names, ms, e), m.id)
  {
    var sorted := ByTime(ms);
    ByTimeMembers(ms, m);
    SelectFrom(sorted, IsRoot(sorted));
    RootsFrom(sorted);
    assert m in Roots(sorted);
    WalkShows(names, sorted, e, Roots(sorted), 0, {}, m.id);
  }

  // Only messages that answer nothing are marked collapsed.
  ghost predicate RootsOnly(ms: seq<Message>, e: map<string, bool>) {
    forall m <- ms :: m.replyTo != "" ==> !Collapsed(e, m.id)
  }

  ghost predicate RootsAgree(ms: seq<Message>, e: map<string, bool>, f: map<string, bool>) {
    forall m <- ms :: m.replyTo == "" && m.id != "" && HasReplies(ms, m.id) ==> Collapsed(e, m.id) == Collapsed(f, m.id)
  }

  lemma RootsDecide(ms: seq<Message>, e: map<string, bool>, f: map<string, bool>, m: Message)
    requires RootsOnly(ms, e) && RootsOnly(ms, f) && RootsAgree(ms, e, f) && m in ms
    ensures Agree(ms, e, f, m.id)
  {
  }

  lemma RootAgreed(names: Names, ms: seq<Message>, e: map<string, bool>, f: map<string, bool>, m: Message)
    requires m in ms && m.replyTo == "" && m.id != "" && HasReplies(ms, m.id)
    requires forall tm <- FlattenThreadMessages(names, ms, f) :: Agree(ms, e, f, tm.message.id)
    ensures Collapsed(e, m.id) == Collapsed(f, m.id)
  {
    RootShown(names, ms, f, m);
    var tm :| tm in FlattenThreadMessages(names, ms, f) && tm.message.id == m.id;
    assert Agree(ms, e, f, tm.message.id);
  }

  // Where only roots are collapsed, two maps lay the messages out alike exactly when they
  // agree on every root that has replies.
  lemma LayoutsAgreeExactly(names: Names, ms: seq<Message>, e: map<string, bool>, f: map<string, bool>)
    requires FieldsTell(Among(ms)) && RootsOnly(ms, e) && RootsOnly(ms, f)
    ensures FlattenThreadMessages(names, ms, e) == FlattenThreadMessages(names, ms, f) <==> RootsAgree(ms, e, f)
  {
    LayoutFreshExactly(names, ms, e, ms, f);
    if RootsAgree(ms, e, f) {
      forall tm | tm in FlattenThreadMessages(names, ms, f) ensures tm.message in ms && Agree(ms, e, f, tm.message.id) {
        LayoutEntries(names, ms, f, tm);
        RootsDecide(ms, e, f, tm.message);
      }
    } else {
      var m :| m in ms && m.replyTo == "" && m.id != "" && HasReplies(ms, m.id) && Collapsed(e, m.id) != Collapsed(f, m.id);
      if forall tm <- FlattenThreadMessages(names, ms, f) :: Agree(ms, e, f, tm.message.id) {
        RootAgreed(names, ms, e, f, m);
        assert false;
      }
    }
  }

  // A layout starts with the first root.
  lemma FirstShown(names: Names, ms: seq<Message>, e: map<string, bool>)
    requires Roots(ByTime(ms)) != []
    ensures FlattenThreadMessages(names, ms, e) != []
    ensures FlattenThreadMessages(names, ms, e)[0].message == Roots(ByTime(ms))[0]
  {
    var sorted := ByTime(ms);
    RootsFrom(sorted);
    var below, v, after := WalkNext(names, sorted, e, Roots(sorted), 0, {});
  }
}
