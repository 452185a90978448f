/** The order of the office feed: by time, replies below their parents, siblings by time; and
    what a collapsed thread says about the replies it hides. */
module ThreadOrder {
  import opened Text
  import opened KeyStream
  import opened Threads

  // ------------------------------------------------------------------
  // Messages by time
  // ------------------------------------------------------------------

  ghost predicate InTime(ms: seq<Message>) {
    forall i, j | 0 <= i < j < |ms| :: Leq(ms[i].timestamp, ms[j].timestamp)
  }

  // The messages of one timestamp, in the order of the list.
  function AtTime(ms: seq<Message>, time: string): seq<Message> {
    if ms == [] then []
    else AtTime(ms[..|ms| - 1], time) + (if ms[|ms| - 1].timestamp == time then [ms[|ms| - 1]] else [])
  }

  lemma AtTimeSnoc(ms: seq<Message>, m: Message, time: string)
    ensures AtTime(ms + [m], time) == AtTime(ms, time) + (if m.timestamp == time then [m] else [])
  {
    assert (ms + [m])[..|ms|] == ms;
  }

  lemma UpToLast(ms: seq<Message>, m: Message)
    requires InTime(ms) && ms != [] && m in ms
    ensures Leq(m.timestamp, ms[|ms| - 1].timestamp)
  {
    var k :| 0 <= k < |ms| && ms[k] == m;
    LeqRefl(m.timestamp);
  }

  lemma InTimeSnoc(ms: seq<Message>, m: Message)
    requires InTime(ms) && forall x <- ms :: Leq(x.timestamp, m.timestamp)
    ensures InTime(ms + [m])
  {
  }

  lemma {:induction false} InsertInTime(sorted: seq<Message>, m: Message)
    requires InTime(sorted)
    ensures InTime(InsertByTime(sorted, m))
  {
    if sorted != [] {
      var init, last := sorted[..|sorted| - 1], sorted[|sorted| - 1];
      assert sorted == init + [last];
      if Leq(last.timestamp, m.timestamp) {
        forall x | x in sorted ensures Leq(x.timestamp, m.timestamp) {
          UpToLast(sorted, x);
          LeqTrans(x.timestamp, last.timestamp, m.timestamp);
        }
        InTimeSnoc(sorted, m);
      } else {
        InsertInTime(init, m);
        LeqTotal(last.timestamp, m.timestamp);
        forall x | x in InsertByTime(init, m) ensures Leq(x.timestamp, last.timestamp) {
          InsertMembers(init, m, x);
          if x in init { UpToLast(sorted, x); }
        }
        InTimeSnoc(InsertByTime(init, m), last);
      }
    }
  }

  lemma {:induction false} InsertKeeps(sorted: seq<Message>, m: Message)
    ensures multiset(InsertByTime(sorted, m)) == multiset(sorted) + multiset{m}
  {
    if sorted != [] {
      assert sorted == sorted[..|sorted| - 1] + [sorted[|sorted| - 1]];
      InsertKeeps(sorted[..|sorted| - 1], m);
    }
  }

  lemma {:induction false} InsertStable(sorted: seq<Message>, m: Message, time: string)
    ensures AtTime(InsertByTime(sorted, m), time) == AtTime(sorted, time) + (if m.timestamp == time then [m] else [])
  {
    if sorted == [] {
      AtTimeSnoc([], m, time);
      assert [] + [m] == [m];
    } else {
      var init, last := sorted[..|sorted| - 1], sorted[|sorted| - 1];
      if Leq(last.timestamp, m.timestamp) {
        AtTimeSnoc(sorted, m, time);
      } else {
        InsertStable(init, m, time);
        AtTimeSnoc(InsertByTime(init, m), last, time);
        LeqRefl(m.timestamp);
      }
    }
  }

  // `sort.SliceStable` by timestamp: ascending, the same messages, and those of one time in
  // their old order.
  lemma {:induction false} ByTimeSorts(ms: seq<Message>)
    ensures InTime(ByTime(ms)) && multiset(ByTime(ms)) == multiset(ms)
    ensures forall time :: AtTime(ByTime(ms), time) == AtTime(ms, time)
  {
    if ms != [] {
      var init, last := ms[..|ms| - 1], ms[|ms| - 1];
      assert ms == init + [last];
      ByTimeSorts(init);
      InsertInTime(ByTime(init), last);
      InsertKeeps(ByTime(init), last);
      forall time ensures AtTime(ByTime(ms), time) == AtTime(ms, time) {
        InsertStable(ByTime(init), last, time);
      }
    }
  }

  lemma {:induction false} SelectInTime(ms: seq<Message>, keep: Message -> bool)
    requires InTime(ms)
    ensures InTime(Select(ms, keep))
  {
    if ms != [] {
      var init, last := ms[..|ms| - 1], ms[|ms| - 1];
      SelectInTime(init, keep);
      SelectFrom(init, keep);
      var r := Select(init, keep);
      forall i | 0 <= i < |r| ensures Leq(r[i].timestamp, last.timestamp) {
        assert r[i] in init;
        var k :| 0 <= k < |init| && init[k] == r[i];
        assert ms[k] == r[i];
      }
    }
  }

  lemma KidsInTime(ms: seq<Message>, id: string)
    requires InTime(ms)
    ensures InTime(Kids(ms, id))
  {
    SelectInTime(ms, (m: Message) => m.replyTo == id);
  }

  lemma RootsInTime(ms: seq<Message>)
    requires InTime(ms)
    ensures InTime(Roots(ms))
  {
    SelectInTime(ms, IsRoot(ms));
  }

  // ------------------------------------------------------------------
  // Each message once, below its parent
  // ------------------------------------------------------------------

  ghost predicate IdsDiffer(out: seq<Threaded>) {
    forall i, j | 0 <= i < j < |out| :: out[i].message.id != out[j].message.id
  }

  // What a walk from this depth, past these ids, may show.
  ghost predicate Fits(out: seq<Threaded>, queue: seq<Message>, depth: int, visited: set<string>, met: set<string>) {
    && IdsDiffer(out)
    && forall tm <- out ::
         && tm.depth >= depth && tm.message.id !in visited && tm.message.id in met
         && (tm.depth == depth ==> tm.message in queue)
  }

  lemma {:induction false} WalkFits(names: Names, ms: seq<Message>, e: map<string, bool>, queue: seq<Message>,
                                    depth: nat, visited: set<string>)
    requires forall m <- queue :: m in ms
    ensures var (out, met) := Walk(names, ms, e, queue, depth, visited);
      Fits(out, queue, depth, visited, met)
    decreases Ids(ms) - visited, |queue|
  {
    if queue != [] {
      var m := queue[0];
      assert m in queue && forall x <- queue[1..] :: x in queue;
      if m.id in visited {
        WalkFits(names, ms, e, queue[1..], depth, visited);
      } else {
        var below, v, after := WalkNext(names, ms, e, queue, depth, visited);
        assert m.id in Ids(ms) - visited;
        WalkFits(names, ms, e, Kids(ms, m.id), depth + 1, visited + {m.id});
        WalkFits(names, ms, e, queue[1..], depth, v);
        FitsTogether(EntryFor(names, ms, e, m, depth), below, after, queue, Kids(ms, m.id), depth, visited, v,
                     Walk(names, ms, e, queue, depth, visited).1);
      }
    }
  }

  lemma FitsTogether(tm: Threaded, below: seq<Threaded>, after: seq<Threaded>, queue: seq<Message>, kids: seq<Message>,
                     depth: int, visited: set<string>, v: set<string>, met: set<string>)
    requires queue != [] && tm.message == queue[0] && tm.depth == depth && tm.message.id !in visited
    requires visited <= v <= met && tm.message.id in v
    requires Fits(below, kids, depth + 1, visited + {tm.message.id}, v) && Fits(after, queue[1..], depth, v, met)
    ensures Fits([tm] + below + after, queue, depth, visited, met)
  {
    var out := [tm] + below + after;
    forall t | t in out
      ensures t.depth >= depth && t.message.id !in visited && t.message.id in met && (t.depth == depth ==> t.message in queue)
    {
      assert t == tm || t in below || t in after;
    }
    forall i, j | 0 <= i < j < |out| ensures out[i].message.id != out[j].message.id {
      if i == 0 {
        assert out[j] in below || out[j] in after;
      } else if j <= |below| {
        assert out[i] == below[i - 1] && out[j] == below[j - 1];
      } else if i <= |below| {
        assert out[i] == below[i - 1] && out[j] == after[j - 1 - |below|];
        assert below[i - 1] in below && after[j - 1 - |below|] in after;
      } else {
        assert out[i] == after[i - 1 - |below|] && out[j] == after[j - 1 - |below|];
      }
    }
  }

  // Entry k is the parent of entry i, one level up, and everything between is below it.
  ghost predicate ParentAt(out: seq<Threaded>, k: int, i: int) {
    && 0 <= k < i < |out| && out[k].message.id == out[i].message.replyTo
    && out[k].depth + 1 == out[i].depth && !out[k].collapsed
    && forall l | k < l <= i :: out[l].depth > out[k].depth
  }

  ghost predicate HasParent(out: seq<Threaded>, i: int) {
    exists k :: ParentAt(out, k, i)
  }

  ghost predicate Parented(out: seq<Threaded>, depth: int) {
    forall i | 0 <= i < |out| && out[i].depth > depth :: HasParent(out, i)
  }

  lemma {:induction false} WalkParented(names: Names, ms: seq<Message>, e: map<string, bool>, queue: seq<Message>,
                                        depth: nat, visited: set<string>)
    requires forall m <- queue :: m in ms
    ensures Parented(Walk(names, ms, e, queue, depth, visited).0, depth)
    decreases Ids(ms) - visited, |queue|
  {
    if queue != [] {
      var m := queue[0];
      assert m in queue && forall x <- queue[1..] :: x in queue;
      if m.id in visited {
        WalkParented(names, ms, e, queue[1..], depth, visited);
      } else {
        var below, v, after := WalkNext(names, ms, e, queue, depth, visited);
        assert m.id in Ids(ms) - visited;
        WalkParented(names, ms, e, Kids(ms, m.id), depth + 1, visited + {m.id});
        WalkFits(names, ms, e, Kids(ms, m.id), depth + 1, visited + {m.id});
        WalkParented(names, ms, e, queue[1..], depth, v);
        KidsFrom(ms, m.id);
        ParentedTogether(EntryFor(names, ms, e, m, depth), below, after, depth);
      }
    }
  }

  // `part` stands in `out` from position n on.
  ghost predicate Within(out: seq<Threaded>, part: seq<Threaded>, n: nat) {
    n + |part| <= |out| && forall l | 0 <= l < |part| :: out[n + l] == part[l]
  }

  lemma Placed(tm: Threaded, below: seq<Threaded>, after: seq<Threaded>)
    ensures var out := [tm] + below + after;
      && out[0] == tm && Within(out, below, 1) && Within(out, after, 1 + |below|)
      && |out| == 1 + |below| + |after|
  {
  }

  lemma ParentWithin(out: seq<Threaded>, part: seq<Threaded>, n: nat, k: int, i: int)
    requires Within(out, part, n) && ParentAt(part, k, i)
    ensures ParentAt(out, k + n, i + n)
  {
    assert out[n + k] == part[k] && out[n + i] == part[i];
    forall l | k + n < l <= i + n ensures out[l].depth > out[k + n].depth {
      assert out[n + (l - n)] == part[l - n];
    }
  }

  // A direct reply of the first entry.
  lemma ParentFirst(out: seq<Threaded>, below: seq<Threaded>, i: nat)
    requires out != [] && Within(out, below, 1) && i < |below| && !out[0].collapsed
    requires below[i].depth == out[0].depth + 1 && below[i].message.replyTo == out[0].message.id
    requires forall t <- below :: t.depth > out[0].depth
    ensures ParentAt(out, 0, i + 1)
  {
    assert out[1 + i] == below[i];
    forall l | 0 < l <= i + 1 ensures out[l].depth > out[0].depth {
      assert out[1 + (l - 1)] == below[l - 1] && below[l - 1] in below;
    }
  }

  lemma ParentedBelow(out: seq<Threaded>, below: seq<Threaded>, i: nat)
    requires out != [] && Within(out, below, 1) && Parented(below, out[0].depth + 1) && i < |below|
    requires out[0].collapsed ==> below == []
    requires forall t <- below ::
      t.depth > out[0].depth && (t.depth == out[0].depth + 1 ==> t.message.replyTo == out[0].message.id)
    ensures HasParent(out, i + 1)
  {
    assert below[i] in below;
    if below[i].depth == out[0].depth + 1 {
      ParentFirst(out, below, i);
    } else {
      var k :| ParentAt(below, k, i);
      ParentWithin(out, below, 1, k, i);
    }
  }

  lemma ParentedAfter(out: seq<Threaded>, after: seq<Threaded>, n: nat, depth: int, i: nat)
    requires Within(out, after, n) && Parented(after, depth) && i < |after| && after[i].depth > depth
    ensures HasParent(out, i + n)
  {
    var k :| ParentAt(after, k, i);
    ParentWithin(out, after, n, k, i);
  }

  lemma ParentedTogether(tm: Threaded, below: seq<Threaded>, after: seq<Threaded>, depth: int)
    requires tm.depth == depth && Parented(below, depth + 1) && Parented(after, depth)
    requires tm.collapsed ==> below == []
    requires forall t <- below :: t.depth > depth && (t.depth == depth + 1 ==> t.message.replyTo == tm.message.id)
    ensures Parented([tm] + below + after, depth)
  {
    Placed(tm, below, after);
    ParentedWhole([tm] + below + after, below, after, depth);
  }

  lemma ParentedWhole(out: seq<Threaded>, below: seq<Threaded>, after: seq<Threaded>, depth: int)
    requires out != [] && out[0].depth == depth && Parented(below, depth + 1) && Parented(after, depth)
    requires Within(out, below, 1) && Within(out, after, 1 + |below|) && |out| == 1 + |below| + |after|
    requires out[0].collapsed ==> below == []
    requires forall t <- below :: t.depth > depth && (t.depth == depth + 1 ==> t.message.replyTo == out[0].message.id)
    ensures Parented(out, depth)
  {
    forall i | 0 <= i < |out| && out[i].depth > depth ensures HasParent(out, i) {
      ParentedEntry(out, below, after, depth, i);
    }
  }

  lemma ParentedEntry(out: seq<Threaded>, below: seq<Threaded>, after: seq<Threaded>, depth: int, i: nat)
    requires out != [] && out[0].depth == depth && Parented(below, depth + 1) && Parented(after, depth)
    requires Within(out, below, 1) && Within(out, after, 1 + |below|) && |out| == 1 + |below| + |after|
    requires out[0].collapsed ==> below == []
    requires forall t <- below :: t.depth > depth && (t.depth == depth + 1 ==> t.message.replyTo == out[0].message.id)
    requires i < |out| && out[i].depth > depth
    ensures HasParent(out, i)
  {
    var n := 1 + |below|;
    assert i > 0;
    if i < n {
      ParentedBelow(out, below, i - 1);
    } else {
      assert out[n + (i - n)] == after[i - n];
      ParentedAfter(out, after, n, depth, i - n);
    }
  }

  // ------------------------------------------------------------------
  // Siblings by time
  // ------------------------------------------------------------------

  // The entries of this depth come in time order.
  ghost predicate TopsInTime(out: seq<Threaded>, depth: int) {
    forall i, j | 0 <= i < j < |out| && out[i].depth == depth && out[j].depth == depth ::
      Leq(out[i].message.timestamp, out[j].message.timestamp)
  }

  // Entries below this depth that answer the same message come in time order.
  ghost predicate SiblingsInTime(out: seq<Threaded>, depth: int) {
    forall i, j | 0 <= i < j < |out| && out[i].depth > depth && out[j].depth > depth
      && out[i].message.replyTo == out[j].message.replyTo ::
      Leq(out[i].message.timestamp, out[j].message.timestamp)
  }

  lemma TailInTime(queue: seq<Message>)
    requires InTime(queue) && queue != []
    ensures InTime(queue[1..]) && forall m <- queue[1..] :: Leq(queue[0].timestamp, m.timestamp)
  {
  }

  lemma {:induction false} WalkTops(names: Names, ms: seq<Message>, e: map<string, bool>, queue: seq<Message>,
                                    depth: nat, visited: set<string>)
    requires (forall m <- queue :: m in ms) && InTime(queue)
    ensures TopsInTime(Walk(names, ms, e, queue, depth, visited).0, depth)
    decreases |queue|
  {
    if queue != [] {
      var m := queue[0];
      assert m in queue && forall x <- queue[1..] :: x in queue;
      TailInTime(queue);
      if m.id in visited {
        WalkTops(names, ms, e, queue[1..], depth, visited);
      } else {
        var below, v, after := WalkNext(names, ms, e, queue, depth, visited);
        WalkTops(names, ms, e, queue[1..], depth, v);
        WalkFits(names, ms, e, Kids(ms, m.id), depth + 1, visited + {m.id});
        WalkFits(names, ms, e, queue[1..], depth, v);
        TopsTogether(EntryFor(names, ms, e, m, depth), below, after, queue, depth);
      }
    }
  }

  lemma TopsTogether(tm: Threaded, below: seq<Threaded>, after: seq<Threaded>, queue: seq<Message>, depth: int)
    requires queue != [] && tm.message == queue[0] && TopsInTime(after, depth)
    requires forall m <- queue[1..] :: Leq(queue[0].timestamp, m.timestamp)
    requires (forall t <- below :: t.depth > depth) && forall t <- after | t.depth == depth :: t.message in queue[1..]
    ensures TopsInTime([tm] + below + after, depth)
  {
    var out, n := [tm] + below + after, 1 + |below|;
    Placed(tm, below, after);
    forall i | 0 < i < n ensures out[i].depth > depth {
      assert out[1 + (i - 1)] == below[i - 1] && below[i - 1] in below;
    }
    forall i | n <= i < |out| ensures out[i] == after[i - n] && out[i] in after {
      assert out[n + (i - n)] == after[i - n];
    }
  }

  lemma {:induction false} WalkSiblings(names: Names, ms: seq<Message>, e: map<string, bool>, queue: seq<Message>,
                                        depth: nat, visited: set<string>)
    requires (forall m <- queue :: m in ms) && InTime(ms)
    ensures SiblingsInTime(Walk(names, ms, e, queue, depth, visited).0, depth)
    decreases Ids(ms) - visited, |queue|
  {
    if queue != [] {
      var m := queue[0];
      assert m in queue && forall x <- queue[1..] :: x in queue;
      if m.id in visited {
        WalkSiblings(names, ms, e, queue[1..], depth, visited);
      } else {
        var below, v, after := WalkNext(names, ms, e, queue, depth, visited);
        var kids := Kids(ms, m.id);
        assert m.id in Ids(ms) - visited;
        KidsFrom(ms, m.id);
        KidsInTime(ms, m.id);
        WalkFits(names, ms, e, kids, depth + 1, visited + {m.id});
        WalkTops(names, ms, e, kids, depth + 1, visited + {m.id});
        WalkSiblings(names, ms, e, kids, depth + 1, visited + {m.id});
        WalkParented(names, ms, e, kids, depth + 1, visited + {m.id});
        WalkFits(names, ms, e, queue[1..], depth, v);
        WalkSiblings(names, ms, e, queue[1..], depth, v);
        WalkParented(names, ms, e, queue[1..], depth, v);
        var tm := EntryFor(names, ms, e, m, depth);
        SiblingsBelow(tm, below, depth, visited + {m.id});
        SiblingsTogether(tm, below, after, depth, v);
      }
    }
  }

  // Below one message: its replies are in order, and none deeper answers it.
  lemma SiblingsBelow(tm: Threaded, below: seq<Threaded>, depth: int, visited: set<string>)
    requires TopsInTime(below, depth + 1) && SiblingsInTime(below, depth + 1) && Parented(below, depth + 1)
    requires tm.message.id in visited
    requires forall t <- below ::
      t.depth > depth && t.message.id !in visited && (t.depth == depth + 1 ==> t.message.replyTo == tm.message.id)
    ensures SiblingsInTime(below, depth)
    ensures forall t <- below :: t.message.replyTo == tm.message.id || exists u <- below :: u.message.id == t.message.replyTo
  {
    forall i | 0 <= i < |below| && below[i].depth > depth + 1
      ensures below[i].message.replyTo != tm.message.id && exists u <- below :: u.message.id == below[i].message.replyTo
    {
      var k :| ParentAt(below, k, i);
      assert below[k] in below;
    }
    forall i, j | 0 <= i < j < |below| && below[i].message.replyTo == below[j].message.replyTo
      ensures Leq(below[i].message.timestamp, below[j].message.timestamp)
    {
      assert below[i] in below && below[j] in below;
    }
  }

  lemma SiblingsTogether(tm: Threaded, below: seq<Threaded>, after: seq<Threaded>, depth: int, v: set<string>)
    requires tm.depth == depth && SiblingsInTime(below, depth) && SiblingsInTime(after, depth) && Parented(after, depth)
    requires tm.message.id in v && (forall t <- below :: t.message.id in v) && forall t <- after :: t.message.id !in v
    requires forall t <- below :: t.message.replyTo == tm.message.id || exists u <- below :: u.message.id == t.message.replyTo
    ensures SiblingsInTime([tm] + below + after, depth)
  {
    var out, n := [tm] + below + after, 1 + |below|;
    Placed(tm, below, after);
    RepliesApart(tm, below, after, depth, v);
    forall i, j | 0 <= i < j < |out| && out[i].depth > depth && out[j].depth > depth
      ensures out[i].message.replyTo == out[j].message.replyTo ==> Leq(out[i].message.timestamp, out[j].message.timestamp)
    {
      assert i > 0;
      SiblingsPlaced(out, below, after, i, j);
    }
  }

  // Two entries past the first: both below it, both after, or one in each part.
  lemma SiblingsPlaced(out: seq<Threaded>, below: seq<Threaded>, after: seq<Threaded>, i: nat, j: nat)
    requires Within(out, below, 1) && Within(out, after, 1 + |below|) && |out| == 1 + |below| + |after| && 0 < i < j < |out|
    ensures var n := 1 + |below|;
      && (j < n ==> out[i] == below[i - 1] && out[j] == below[j - 1])
      && (i >= n ==> out[i] == after[i - n] && out[j] == after[j - n])
      && (i < n <= j ==> out[i] in below && out[j] in after)
  {
    var n := 1 + |below|;
    assert i < n ==> out[1 + (i - 1)] == below[i - 1];
    assert j < n ==> out[1 + (j - 1)] == below[j - 1];
    assert i >= n ==> out[n + (i - n)] == after[i - n];
    assert j >= n ==> out[n + (j - n)] == after[j - n];
  }

  // Nothing below the first message answers what something further down answers.
  lemma RepliesApart(tm: Threaded, below: seq<Threaded>, after: seq<Threaded>, depth: int, v: set<string>)
    requires Parented(after, depth) && tm.message.id in v
    requires (forall t <- below :: t.message.id in v) && forall t <- after :: t.message.id !in v
    requires forall t <- below :: t.message.replyTo == tm.message.id || exists u <- below :: u.message.id == t.message.replyTo
    ensures forall x <- below, y <- after | y.depth > depth :: x.message.replyTo != y.message.replyTo
  {
    forall x <- below ensures x.message.replyTo in v {
      if x.message.replyTo != tm.message.id {
        var u :| u in below && u.message.id == x.message.replyTo;
      }
    }
    forall y | y in after && y.depth > depth ensures y.message.replyTo !in v {
      var j :| 0 <= j < |after| && after[j] == y;
      var k :| ParentAt(after, k, j);
      assert after[k] in after;
    }
  }

  // ------------------------------------------------------------------
  // The feed
  // ------------------------------------------------------------------

  lemma {:induction false} WalkCloses(names: Names, ms: seq<Message>, e: map<string, bool>, queue: seq<Message>,
                                      depth: nat, visited: set<string>, m: Message)
    requires (forall x <- queue :: x in ms) && m in ms && m.replyTo != ""
    ensures var (out, met) := Walk(names, ms, e, queue, depth, visited);
      (exists tm <- out :: tm.message.id == m.replyTo && !tm.collapsed) ==> m.id in met
    decreases Ids(ms) - visited, |queue|
  {
    if queue != [] {
      var q := queue[0];
      assert q in queue && forall x <- queue[1..] :: x in queue;
      if q.id in visited {
        WalkCloses(names, ms, e, queue[1..], depth, visited, m);
      } else {
        var below, v, after := WalkNext(names, ms, e, queue, depth, visited);
        var kids := Kids(ms, q.id);
        assert q.id in Ids(ms) - visited;
        WalkCloses(names, ms, e, kids, depth + 1, visited + {q.id}, m);
        WalkCloses(names, ms, e, queue[1..], depth, v, m);
        KidsFrom(ms, q.id);
        WalkShows(names, ms, e, kids, depth + 1, visited + {q.id}, m.id);
        var t := EntryFor(names, ms, e, q, depth);
        assert forall tm <- [t] + below + after :: tm == t || tm in below || tm in after;
      }
    }
  }

  // The office feed: each id once; threads in time order; each reply below its parent, one
  // level in and before the next message of the parent's level; replies to one message in
  // time order; and every reply to a message shown uncollapsed is shown too.
  lemma LayoutOrder(names: Names, ms: seq<Message>, e: map<string, bool>)
    ensures var out := FlattenThreadMessages(names, ms, e);
      && IdsDiffer(out) && TopsInTime(out, 0) && Parented(out, 0) && SiblingsInTime(out, 0)
      && forall tm <- out, m <- ms | !tm.collapsed && m.replyTo == tm.message.id != "" :: Shows(out, m.id)
  {
    var sorted, out := ByTime(ms), FlattenThreadMessages(names, ms, e);
    ByTimeSorts(ms);
    RootsInTime(sorted);
    RootsFrom(sorted);
    WalkFits(names, sorted, e, Roots(sorted), 0, {});
    WalkTops(names, sorted, e, Roots(sorted), 0, {});
    WalkParented(names, sorted, e, Roots(sorted), 0, {});
    WalkSiblings(names, sorted, e, Roots(sorted), 0, {});
    forall tm, m | tm in out && m in ms && !tm.collapsed && m.replyTo == tm.message.id != "" ensures Shows(out, m.id) {
      ByTimeMembers(ms, m);
      WalkCloses(names, sorted, e, Roots(sorted), 0, {}, m);
      WalkShows(names, sorted, e, Roots(sorted), 0, {}, m.id);
    }
  }

  // ------------------------------------------------------------------
  // What a collapsed thread hides
  // ------------------------------------------------------------------

  ghost predicate RepliesClosed(ms: seq<Message>, ids: set<string>) {
    forall m <- ms :: m.replyTo != "" && m.replyTo in ids ==> m.id in ids
  }

  // The id and those of its descendants: the least set with it that replies do not leave.
  ghost predicate Thread(ms: seq<Message>, id: string, ids: set<string>) {
    && id in ids && RepliesClosed(ms, ids)
    && forall c: set<string> | id in c && RepliesClosed(ms, c) :: ids <= c
  }

  ghost predicate InQueue(queue: seq<Message>, ids: set<string>) {
    forall m <- queue :: m.id in ids
  }

  // Counting goes through the queue and everything below what is new in it.
  lemma {:induction false} CountCovers(ms: seq<Message>, queue: seq<Message>, visited: set<string>)
    requires forall m <- queue :: m in ms
    ensures var (n, met) := CountBelow(ms, queue, visited);
      && n == |met| - |visited| && InQueue(queue, met)
      && (forall id <- met - visited :: InQueue(Kids(ms, id), met))
    decreases Ids(ms) - visited, |queue|
  {
    if queue != [] {
      var m := queue[0];
      assert m in queue && forall x <- queue[1..] :: x in queue;
      assert forall x <- queue :: x == m || x in queue[1..];
      if m.id in visited {
        CountCovers(ms, queue[1..], visited);
      } else {
        var v := CountNext(ms, queue, visited);
        assert m.id in Ids(ms) - visited;
        assert |visited + {m.id}| == |visited| + 1;
        CountCovers(ms, Kids(ms, m.id), visited + {m.id});
        CountCovers(ms, queue[1..], v);
      }
    }
  }

  // And through nothing else.
  lemma {:induction false} CountWithin(ms: seq<Message>, queue: seq<Message>, visited: set<string>, c: set<string>)
    requires (forall m <- queue :: m in ms) && visited <= c && InQueue(queue, c) && RepliesClosed(ms, c)
    ensures CountBelow(ms, queue, visited).1 <= c
    decreases Ids(ms) - visited, |queue|
  {
    if queue != [] {
      var m := queue[0];
      assert m in queue && forall x <- queue[1..] :: x in queue;
      if m.id in visited {
        CountWithin(ms, queue[1..], visited, c);
      } else {
        var v := CountNext(ms, queue, visited);
        assert m.id in Ids(ms) - visited;
        KidsFrom(ms, m.id);
        CountWithin(ms, Kids(ms, m.id), visited + {m.id}, c);
        CountWithin(ms, queue[1..], v, c);
      }
    }
  }

  // `CountThreadReplies`: the number of the id's descendants.
  lemma CountsDescendants(ms: seq<Message>, id: string) returns (ids: set<string>)
    ensures Thread(ms, id, ids) && CountReplies(ms, id) == |ids| - 1
    ensures (forall m <- Kids(ms, id) :: m in ms) && ids == CountBelow(ms, Kids(ms, id), {id}).1
  {
    KidsFrom(ms, id);
    ids := CountBelow(ms, Kids(ms, id), {id}).1;
    CountCovers(ms, Kids(ms, id), {id});
    forall m | m in ms && m.replyTo != "" && m.replyTo in ids ensures m.id in ids {
      KidsFrom(ms, m.replyTo);
      assert m in Kids(ms, m.replyTo);
      if m.replyTo != id { assert InQueue(Kids(ms, m.replyTo), ids); }
    }
    forall c: set<string> | id in c && RepliesClosed(ms, c) ensures ids <= c {
      CountWithin(ms, Kids(ms, id), {id}, c);
    }
  }

  lemma {:induction false} NamesVisitCounted(names: Names, ms: seq<Message>, queue: seq<Message>, visited: set<string>, seen: seq<string>)
    requires forall m <- queue :: m in ms
    ensures NamesBelow(names, ms, queue, visited, seen).1 == CountBelow(ms, queue, visited).1
    decreases Ids(ms) - visited, |queue|
  {
    if queue != [] {
      var m := queue[0];
      assert m in queue && forall x <- queue[1..] :: x in queue;
      var met := if names(m.sender) in seen then seen else seen + [names(m.sender)];
      if m.id in visited {
        NamesVisitCounted(names, ms, queue[1..], visited, met);
      } else {
        KidsFrom(ms, m.id);
        assert m.id in Ids(ms) - visited;
        NamesVisitCounted(names, ms, Kids(ms, m.id), visited + {m.id}, met);
        var (below, v) := NamesBelow(names, ms, Kids(ms, m.id), visited + {m.id}, met);
        NamesVisitCounted(names, ms, queue[1..], v, below);
      }
    }
  }

  ghost predicate Once(ns: seq<string>) {
    forall i, j | 0 <= i < j < |ns| :: ns[i] != ns[j]
  }

  // The queue's first message, when it is new.
  lemma NamesNext(names: Names, ms: seq<Message>, queue: seq<Message>, visited: set<string>, seen: seq<string>)
    returns (met: seq<string>, below: seq<string>, v: set<string>)
    requires (forall m <- queue :: m in ms) && queue != [] && queue[0].id !in visited
    ensures queue[0] in ms && (forall m <- queue[1..] :: m in ms) && forall m <- Kids(ms, queue[0].id) :: m in ms
    ensures met == if names(queue[0].sender) in seen then seen else seen + [names(queue[0].sender)]
    ensures (below, v) == NamesBelow(names, ms, Kids(ms, queue[0].id), visited + {queue[0].id}, met)
    ensures NamesBelow(names, ms, queue, visited, seen) == NamesBelow(names, ms, queue[1..], v, below)
    ensures queue[0].id in v && visited <= v
  {
    QueueParts(ms, queue);
    met := if names(queue[0].sender) in seen then seen else seen + [names(queue[0].sender)];
    var r := NamesBelow(names, ms, Kids(ms, queue[0].id), visited + {queue[0].id}, met);
    below, v := r.0, r.1;
  }

  lemma {:induction false} NamesOnce(names: Names, ms: seq<Message>, queue: seq<Message>, visited: set<string>, seen: seq<string>)
    requires (forall m <- queue :: m in ms) && Once(seen)
    ensures Once(NamesBelow(names, ms, queue, visited, seen).0)
    decreases Ids(ms) - visited, |queue|
  {
    if queue != [] {
      assert queue[0] in queue && forall x <- queue[1..] :: x in queue;
      var met := if names(queue[0].sender) in seen then seen else seen + [names(queue[0].sender)];
      if queue[0].id in visited {
        NamesOnce(names, ms, queue[1..], visited, met);
      } else {
        var _, below, v := NamesNext(names, ms, queue, visited, seen);
        assert queue[0].id in Ids(ms) - visited;
        NamesOnce(names, ms, Kids(ms, queue[0].id), visited + {queue[0].id}, met);
        NamesOnce(names, ms, queue[1..], v, below);
      }
    }
  }

  ghost predicate SentBy(names: Names, queue: seq<Message>, n: string) {
    exists m <- queue :: n == names(m.sender)
  }

  ghost predicate Answers(names: Names, ms: seq<Message>, ids: set<string>, n: string) {
    exists m <- ms :: m.replyTo != "" && m.replyTo in ids && n == names(m.sender)
  }

  lemma SentByCons(names: Names, queue: seq<Message>, n: string)
    requires queue != []
    ensures SentBy(names, queue, n) <==> n == names(queue[0].sender) || SentBy(names, queue[1..], n)
  {
    assert queue[0] in queue && forall m <- queue[1..] :: m in queue;
    assert forall m <- queue :: m == queue[0] || m in queue[1..];
  }

  lemma AnswersParts(names: Names, ms: seq<Message>, id: string, a: set<string>, b: set<string>, n: string)
    ensures Answers(names, ms, {id} + a + b, n) <==>
            SentBy(names, Kids(ms, id), n) || Answers(names, ms, a, n) || Answers(names, ms, b, n)
  {
    KidsFrom(ms, id);
  }

  // The names listed are those given, those of the queue's senders and those of everyone who
  // answers an id newly met.
  lemma {:induction false} NamesExactly(names: Names, ms: seq<Message>, queue: seq<Message>, visited: set<string>,
                                        seen: seq<string>, n: string)
    requires forall m <- queue :: m in ms
    ensures var (ns, met) := NamesBelow(names, ms, queue, visited, seen);
      n in ns <==> n in seen || SentBy(names, queue, n) || Answers(names, ms, met - visited, n)
    decreases Ids(ms) - visited, |queue|
  {
    if queue != [] {
      var m := queue[0];
      assert m in queue && forall x <- queue[1..] :: x in queue;
      SentByCons(names, queue, n);
      var met := if names(m.sender) in seen then seen else seen + [names(m.sender)];
      if m.id in visited {
        NamesExactly(names, ms, queue[1..], visited, met, n);
      } else {
        var _, below, v := NamesNext(names, ms, queue, visited, seen);
        var w := NamesBelow(names, ms, queue[1..], v, below).1;
        assert m.id in Ids(ms) - visited;
        NamesExactly(names, ms, Kids(ms, m.id), visited + {m.id}, met, n);
        NamesExactly(names, ms, queue[1..], v, below, n);
        assert w - visited == {m.id} + (v - (visited + {m.id})) + (w - v);
        AnswersParts(names, ms, m.id, v - (visited + {m.id}), w - v, n);
      }
    }
  }

  // `ThreadParticipants`: the display names of everyone who answers the id or a descendant,
  // each once.
  lemma ParticipantsExactly(names: Names, ms: seq<Message>, id: string, ids: set<string>)
    requires Thread(ms, id, ids)
    ensures Once(Participants(names, ms, id))
    ensures forall n :: n in Participants(names, ms, id) <==> Answers(names, ms, ids, n)
  {
    KidsFrom(ms, id);
    var kids := Kids(ms, id);
    var met := NamesBelow(names, ms, kids, {id}, []).1;
    NamesOnce(names, ms, kids, {id}, []);
    NamesVisitCounted(names, ms, kids, {id}, []);
    var counted := CountsDescendants(ms, id);
    SameThread(ms, id, ids, counted);
    assert met == ids;
    forall n ensures n in Participants(names, ms, id) <==> Answers(names, ms, ids, n) {
      NamesExactly(names, ms, kids, {id}, [], n);
      AnswersParts(names, ms, id, met - {id}, {}, n);
      assert {id} + (met - {id}) + {} == met;
    }
  }

  // Every reply met on the way down, depth first; one met before is met again, but not
  // followed again.
  function Met(ms: seq<Message>, queue: seq<Message>, visited: set<string>): seq<Message>
    requires forall m <- queue :: m in ms
    decreases Ids(ms) - visited, |queue|
  {
    if queue == [] then []
    else
      var m, rest := queue[0], queue[1..];
      assert m in queue && forall x <- rest :: x in queue;
      if m.id in visited then [m] + Met(ms, rest, visited)
      else
        KidsFrom(ms, m.id);
        assert m.id in Ids(ms) - visited;
        var v := CountBelow(ms, Kids(ms, m.id), visited + {m.id}).1;
        assert m.id !in Ids(ms) - v;
        [m] + Met(ms, Kids(ms, m.id), visited + {m.id}) + Met(ms, rest, v)
  }

  // The name is first met at place k.
  ghost predicate FirstAt(names: Names, list: seq<Message>, n: string, k: int) {
    0 <= k < |list| && names(list[k].sender) == n && forall j | 0 <= j < k :: names(list[j].sender) != n
  }

  ghost predicate InMetOrder(names: Names, list: seq<Message>, ns: seq<string>) {
    && (forall n <- ns :: exists k :: FirstAt(names, list, n, k))
    && forall i, j, k, l | 0 <= i < j < |ns| && FirstAt(names, list, ns[i], k) && FirstAt(names, list, ns[j], l) :: k < l
  }

  function MetAfter(names: Names, seen: seq<string>, list: seq<Message>): seq<string>
    decreases |list|
  {
    if list == [] then seen
    else
      var n := names(list[0].sender);
      MetAfter(names, if n in seen then seen else seen + [n], list[1..])
  }

  lemma {:induction false} MetAfterAppend(names: Names, seen: seq<string>, a: seq<Message>, b: seq<Message>)
    ensures MetAfter(names, seen, a + b) == MetAfter(names, MetAfter(names, seen, a), b)
    decreases |a|
  {
    if a == [] {
      assert a + b == b;
    } else {
      var n := names(a[0].sender);
      assert (a + b)[1..] == a[1..] + b;
      MetAfterAppend(names, if n in seen then seen else seen + [n], a[1..], b);
    }
  }

  lemma MetAfterCons(names: Names, seen: seq<string>, m: Message, list: seq<Message>)
    ensures MetAfter(names, seen, [m] + list) ==
            MetAfter(names, if names(m.sender) in seen then seen else seen + [names(m.sender)], list)
  {
    assert ([m] + list)[1..] == list;
  }

  lemma {:induction false} MetInOrder(names: Names, list: seq<Message>)
    ensures InMetOrder(names, list, MetAfter(names, [], list))
    ensures forall m <- list :: names(m.sender) in MetAfter(names, [], list)
    decreases |list|
  {
    if list != [] {
      var init, m := list[..|list| - 1], list[|list| - 1];
      MetInOrder(names, init);
      assert list == init + [m] && [m][1..] == [];
      MetAfterAppend(names, [], init, [m]);
      MetOneMore(names, init, m, MetAfter(names, [], init));
    }
  }

  lemma MetOneMore(names: Names, init: seq<Message>, m: Message, ns: seq<string>)
    requires InMetOrder(names, init, ns) && forall x <- init :: names(x.sender) in ns
    ensures var n := names(m.sender);
      var now := if n in ns then ns else ns + [n];
      InMetOrder(names, init + [m], now) && forall x <- init + [m] :: names(x.sender) in now
  {
    var n, list := names(m.sender), init + [m];
    forall x, k | x in ns ensures FirstAt(names, init, x, k) <==> FirstAt(names, list, x, k) {
      StillFirst(names, init, m, x, k);
    }
    if n !in ns {
      forall j | 0 <= j < |init| ensures names(init[j].sender) != n { assert init[j] in init; }
      assert FirstAt(names, list, n, |init|);
    }
  }

  lemma StillFirst(names: Names, init: seq<Message>, m: Message, n: string, k: int)
    requires exists i :: FirstAt(names, init, n, i)
    ensures FirstAt(names, init, n, k) <==> FirstAt(names, init + [m], n, k)
  {
    var i :| FirstAt(names, init, n, i);
    assert FirstAt(names, init + [m], n, i);
  }

  lemma {:induction false} NamesAsMet(names: Names, ms: seq<Message>, queue: seq<Message>, visited: set<string>, seen: seq<string>)
    requires forall m <- queue :: m in ms
    ensures NamesBelow(names, ms, queue, visited, seen).0 == MetAfter(names, seen, Met(ms, queue, visited))
    decreases Ids(ms) - visited, |queue|
  {
    if queue != [] {
      var m := queue[0];
      assert m in queue && forall x <- queue[1..] :: x in queue;
      var met := if names(m.sender) in seen then seen else seen + [names(m.sender)];
      if m.id in visited {
        NamesAsMet(names, ms, queue[1..], visited, met);
        MetAfterCons(names, seen, m, Met(ms, queue[1..], visited));
      } else {
        KidsFrom(ms, m.id);
        assert m.id in Ids(ms) - visited;
        var _, below, v := NamesNext(names, ms, queue, visited, seen);
        NamesVisitCounted(names, ms, Kids(ms, m.id), visited + {m.id}, met);
        NamesAsMet(names, ms, Kids(ms, m.id), visited + {m.id}, met);
        NamesAsMet(names, ms, queue[1..], v, below);
        MetParts(names, seen, m, Met(ms, Kids(ms, m.id), visited + {m.id}), Met(ms, queue[1..], v));
      }
    }
  }

  lemma MetParts(names: Names, seen: seq<string>, m: Message, a: seq<Message>, b: seq<Message>)
    ensures MetAfter(names, seen, [m] + a + b) ==
            MetAfter(names, MetAfter(names, if names(m.sender) in seen then seen else seen + [names(m.sender)], a), b)
  {
    assert [m] + a + b == [m] + (a + b);
    MetAfterCons(names, seen, m, a + b);
    MetAfterAppend(names, if names(m.sender) in seen then seen else seen + [names(m.sender)], a, b);
  }

  // They come in the order in which a walk down the thread, depth first, meets them.
  lemma ParticipantsAsMet(names: Names, ms: seq<Message>, id: string)
    ensures forall m <- Kids(ms, id) :: m in ms
    ensures InMetOrder(names, Met(ms, Kids(ms, id), {id}), Participants(names, ms, id))
  {
    KidsFrom(ms, id);
    NamesAsMet(names, ms, Kids(ms, id), {id}, []);
    MetInOrder(names, Met(ms, Kids(ms, id), {id}));
  }

  lemma SameThread(ms: seq<Message>, id: string, a: set<string>, b: set<string>)
    requires Thread(ms, id, a) && Thread(ms, id, b)
    ensures a == b
  {
  }

  lemma SortedThread(ms: seq<Message>, id: string, ids: set<string>)
    ensures Thread(ByTime(ms), id, ids) <==> Thread(ms, id, ids)
  {
    forall m ensures m in ByTime(ms) <==> m in ms { ByTimeMembers(ms, m); }
    forall c: set<string> ensures RepliesClosed(ByTime(ms), c) <==> RepliesClosed(ms, c) {}
  }

  // What an entry says: whom it answers, and, exactly when it is collapsed, how many replies
  // it hides and who wrote them.
  lemma EntryTells(names: Names, ms: seq<Message>, e: map<string, bool>, tm: Threaded) returns (ids: set<string>)
    requires tm in FlattenThreadMessages(names, ms, e)
    ensures Thread(ms, tm.message.id, ids)
    ensures tm.message.replyTo == "" ==> tm.parentLabel == ""
    ensures tm.message.replyTo != "" ==>
              if exists m <- ms :: m.id == tm.message.replyTo then
                exists m <- ms :: m.id == tm.message.replyTo && tm.parentLabel == "@" + m.sender
              else tm.parentLabel == tm.message.replyTo
    ensures if tm.collapsed then
              && tm.hiddenReplies == |ids| - 1 && Once(tm.participants)
              && forall n :: n in tm.participants <==> Answers(names, ms, ids, n)
            else tm.hiddenReplies == 0 && tm.participants == []
  {
    var sorted, id := ByTime(ms), tm.message.id;
    LayoutEntries(names, ms, e, tm);
    ids := CountsDescendants(sorted, id);
    ParticipantsExactly(names, sorted, id, ids);
    SortedThread(ms, id, ids);
    forall m ensures m in sorted <==> m in ms { ByTimeMembers(ms, m); }
    SenderFrom(sorted, tm.message.replyTo);
    forall n ensures Answers(names, sorted, ids, n) <==> Answers(names, ms, ids, n) {}
  }

  lemma {:induction false} SenderFrom(ms: seq<Message>, id: string)
    ensures HasId(ms, id) ==> exists m <- ms :: m.id == id && SenderOf(ms, id) == m.sender
  {
    if ms != [] {
      var init, last := ms[..|ms| - 1], ms[|ms| - 1];
      assert ms == init + [last];
      if last.id != id {
        SenderFrom(init, id);
        if HasId(ms, id) {
          var m :| m in ms && m.id == id;
          assert m in init;
        }
      }
    }
  }
}
