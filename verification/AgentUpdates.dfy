/** Several processes each adding a tool to one agent's file: each loads the file, and
    later stores what it loaded with its own tool in it. Nothing locks the file. */
module AgentUpdates {
  import opened Wrappers
  import opened AgentStore

  datatype Author = Author(name: string, code: string)

  // A load takes what was last published when it opens the file; a store is the rename
  // that publishes.
  datatype Act = Load(p: nat) | Store(p: nat)

  // The tools published and what each process has in hand.
  datatype Shared = Shared(tools: seq<Tool>, held: map<nat, seq<Tool>>)

  function Does(authors: seq<Author>, s: Shared, a: Act): Shared {
    match a
    case Load(p) => s.(held := s.held[p := s.tools])
    case Store(p) =>
      if p in s.held && p < |authors| then s.(tools := Upserted(s.held[p], authors[p].name, authors[p].code)) else s
  }

  // After the first n acts.
  function After(start: seq<Tool>, authors: seq<Author>, acts: seq<Act>, n: nat): Shared
    requires n <= |acts|
  {
    if n == 0 then Shared(start, map[]) else Does(authors, After(start, authors, acts, n - 1), acts[n - 1])
  }

  // Each process loads once and stores at most once, after its load.
  ghost predicate Schedule(authors: seq<Author>, acts: seq<Act>) {
    && (forall i | 0 <= i < |acts| :: acts[i].p < |authors|)
    && (forall i, j | 0 <= i < j < |acts| :: acts[i] != acts[j])
    && (forall t | 0 <= t < |acts| && acts[t].Store? :: LoadedBefore(acts, t, acts[t].p))
  }

  ghost predicate LoadedBefore(acts: seq<Act>, t: nat, p: nat)
    requires t <= |acts|
  {
    exists l | 0 <= l < t :: acts[l] == Load(p)
  }

  // Tools of different names, none of them there at the start.
  ghost predicate NewTools(start: seq<Tool>, authors: seq<Author>) {
    && (forall i, j | 0 <= i < j < |authors| :: authors[i].name != authors[j].name)
    && (forall p | 0 <= p < |authors| :: FindTool(start, authors[p].name).None?)
  }

  ghost predicate StoredBy(acts: seq<Act>, n: nat, p: nat)
    requires n <= |acts|
  {
    exists t | 0 <= t < n :: acts[t] == Store(p)
  }

  // Another process stores between this load and its own store.
  ghost predicate Overtaken(acts: seq<Act>, l: nat, s: nat, t: nat) {
    l < s < t < |acts| && acts[l].Load? && acts[s].Store? && acts[t] == Store(acts[l].p)
  }

  ghost predicate NoOverlap(acts: seq<Act>, n: nat)
    requires n <= |acts|
  {
    forall l: nat, s: nat, t: nat | t < n :: !Overtaken(acts, l, s, t)
  }

  predicate InFile(tools: seq<Tool>, authors: seq<Author>, p: nat) {
    p < |authors| && FindTool(tools, authors[p].name) == Some(Tool(authors[p].name, authors[p].code, 1))
  }

  lemma {:induction false} HeldIsLoaded(start: seq<Tool>, authors: seq<Author>, acts: seq<Act>, n: nat, l: nat)
    requires Schedule(authors, acts) && l < n <= |acts| && acts[l].Load?
    ensures var s := After(start, authors, acts, n);
      acts[l].p in s.held && s.held[acts[l].p] == After(start, authors, acts, l).tools
    decreases n
  {
    if l < n - 1 {
      HeldIsLoaded(start, authors, acts, n - 1, l);
      assert acts[n - 1] != acts[l];
    }
  }

  // A store that no other store came before since the load publishes on top of the file.
  lemma {:induction false} QuietSince(start: seq<Tool>, authors: seq<Author>, acts: seq<Act>, l: nat, n: nat)
    requires l <= n <= |acts| && forall s | l <= s < n :: acts[s].Load?
    ensures After(start, authors, acts, n).tools == After(start, authors, acts, l).tools
    decreases n
  {
    if l < n { QuietSince(start, authors, acts, l, n - 1); }
  }

  lemma StoreEffect(start: seq<Tool>, authors: seq<Author>, acts: seq<Act>, n: nat) returns (l: nat)
    requires Schedule(authors, acts) && n < |acts| && acts[n].Store?
    ensures l < n && acts[l] == Load(acts[n].p)
    ensures var a, loaded := authors[acts[n].p], After(start, authors, acts, l).tools;
      After(start, authors, acts, n + 1).tools == Upserted(loaded, a.name, a.code)
  {
    assert LoadedBefore(acts, n, acts[n].p);
    l :| 0 <= l < n && acts[l] == Load(acts[n].p);
    HeldIsLoaded(start, authors, acts, n, l);
  }

  lemma StoredMore(acts: seq<Act>, n: nat, p: nat)
    requires n < |acts|
    ensures StoredBy(acts, n + 1, p) <==> StoredBy(acts, n, p) || acts[n] == Store(p)
  {
    if StoredBy(acts, n, p) {
      var t :| 0 <= t < n && acts[t] == Store(p);
      assert 0 <= t < n + 1 && acts[t] == Store(p);
    }
  }

  lemma StoredLater(acts: seq<Act>, m: nat, n: nat, p: nat)
    requires m <= n <= |acts|
    ensures StoredBy(acts, m, p) ==> StoredBy(acts, n, p)
  {
    if StoredBy(acts, m, p) {
      var t :| 0 <= t < m && acts[t] == Store(p);
      assert 0 <= t < n && acts[t] == Store(p);
    }
  }

  // What is in the file was stored by its author, and is at version 1.
  lemma {:induction false} OnlyStored(start: seq<Tool>, authors: seq<Author>, acts: seq<Act>, n: nat, p: nat)
    requires Schedule(authors, acts) && NewTools(start, authors) && n <= |acts| && p < |authors|
    ensures var found := FindTool(After(start, authors, acts, n).tools, authors[p].name);
      found.Some? ==> StoredBy(acts, n, p) && found == Some(Tool(authors[p].name, authors[p].code, 1))
    decreases n
  {
    if n > 0 {
      OnlyStored(start, authors, acts, n - 1, p);
      StoredMore(acts, n - 1, p);
      if acts[n - 1].Store? {
        var l := StoreEffect(start, authors, acts, n - 1);
        var q, loaded := acts[n - 1].p, After(start, authors, acts, l).tools;
        OnlyStored(start, authors, acts, l, p);
        FindAfter(loaded, authors[q].name, authors[q].code, authors[p].name);
        NotYetStored(acts, n - 1, l);
        StoredLater(acts, l, n, p);
      }
    }
  }

  lemma NotYetStored(acts: seq<Act>, t: nat, n: nat)
    requires n <= t < |acts| && forall i, j | 0 <= i < j < |acts| :: acts[i] != acts[j]
    ensures acts[t].Store? ==> !StoredBy(acts, n, acts[t].p)
  {
  }

  ghost predicate AllKept(start: seq<Tool>, authors: seq<Author>, acts: seq<Act>, n: nat)
    requires n <= |acts|
  {
    forall p: nat | StoredBy(acts, n, p) :: InFile(After(start, authors, acts, n).tools, authors, p)
  }

  // No update is lost exactly when no process stores between another's load and store.
  lemma {:induction false} NoLostUpdateExactly(start: seq<Tool>, authors: seq<Author>, acts: seq<Act>, n: nat)
    requires Schedule(authors, acts) && NewTools(start, authors) && n <= |acts|
    ensures AllKept(start, authors, acts, n) <==> NoOverlap(acts, n)
    decreases n
  {
    if n > 0 {
      NoLostUpdateExactly(start, authors, acts, n - 1);
      if acts[n - 1].Load? {
        LoadKeeps(start, authors, acts, n - 1);
      } else {
        StoreKeeps(start, authors, acts, n - 1);
      }
    }
  }

  lemma SameOverlaps(acts: seq<Act>, n: nat)
    requires n < |acts| && forall l: nat, s: nat :: !Overtaken(acts, l, s, n)
    ensures NoOverlap(acts, n + 1) <==> NoOverlap(acts, n)
  {
  }

  lemma LoadKeeps(start: seq<Tool>, authors: seq<Author>, acts: seq<Act>, n: nat)
    requires n < |acts| && acts[n].Load?
    ensures AllKept(start, authors, acts, n + 1) <==> AllKept(start, authors, acts, n)
    ensures NoOverlap(acts, n + 1) <==> NoOverlap(acts, n)
  {
    assert After(start, authors, acts, n + 1).tools == After(start, authors, acts, n).tools;
    forall p: nat ensures StoredBy(acts, n + 1, p) == StoredBy(acts, n, p) {
      StoredMore(acts, n, p);
    }
    SameOverlaps(acts, n);
  }

  lemma StoreKeeps(start: seq<Tool>, authors: seq<Author>, acts: seq<Act>, n: nat)
    requires Schedule(authors, acts) && NewTools(start, authors) && n < |acts| && acts[n].Store?
    requires AllKept(start, authors, acts, n) <==> NoOverlap(acts, n)
    ensures AllKept(start, authors, acts, n + 1) <==> NoOverlap(acts, n + 1)
  {
    var l := StoreEffect(start, authors, acts, n);
    if s: nat :| l < s < n && acts[s].Store? {
      assert Overtaken(acts, l, s, n);
      OvertakenLoses(start, authors, acts, n, l, s);
    } else {
      QuietSince(start, authors, acts, l, n);
      OverlapSoFar(acts, l, n);
      QuietStoreKeeps(start, authors, acts, n, l);
    }
  }

  lemma OverlapSoFar(acts: seq<Act>, l: nat, n: nat)
    requires l < n < |acts| && acts[l] == Load(acts[n].p) && acts[n].Store?
    requires forall i, j | 0 <= i < j < |acts| :: acts[i] != acts[j]
    requires forall s | l < s < n :: acts[s].Load?
    ensures NoOverlap(acts, n + 1) <==> NoOverlap(acts, n)
  {
    forall k: nat, s: nat ensures !Overtaken(acts, k, s, n) {
      assert k < l && acts[k].Load? ==> acts[k] != acts[l];
    }
    SameOverlaps(acts, n);
  }

  // The store published from what was loaded before s: the update stored at s is gone.
  lemma OvertakenLoses(start: seq<Tool>, authors: seq<Author>, acts: seq<Act>, n: nat, l: nat, s: nat)
    requires Schedule(authors, acts) && NewTools(start, authors) && l < s < n < |acts|
    requires acts[n].Store? && acts[l] == Load(acts[n].p) && acts[s].Store?
    requires var a, loaded := authors[acts[n].p], After(start, authors, acts, l).tools;
      After(start, authors, acts, n + 1).tools == Upserted(loaded, a.name, a.code)
    ensures !AllKept(start, authors, acts, n + 1)
  {
    var p, q := acts[n].p, acts[s].p;
    assert acts[s] != acts[n];
    OnlyStored(start, authors, acts, l, q);
    NotYetStored(acts, s, l);
    FindAfter(After(start, authors, acts, l).tools, authors[p].name, authors[p].code, authors[q].name);
    assert StoredBy(acts, n + 1, q);
  }

  lemma QuietStoreKeeps(start: seq<Tool>, authors: seq<Author>, acts: seq<Act>, n: nat, l: nat)
    requires Schedule(authors, acts) && NewTools(start, authors) && l < n < |acts|
    requires acts[n].Store? && acts[l] == Load(acts[n].p)
    requires var a := authors[acts[n].p];
      After(start, authors, acts, n + 1).tools == Upserted(After(start, authors, acts, n).tools, a.name, a.code)
    ensures AllKept(start, authors, acts, n + 1) <==> AllKept(start, authors, acts, n)
  {
    var p, before, now := acts[n].p, After(start, authors, acts, n).tools, After(start, authors, acts, n + 1).tools;
    NotYetStored(acts, n, n);
    forall q: nat | q < |authors|
      ensures StoredBy(acts, n + 1, q) == (q == p || StoredBy(acts, n, q))
      ensures InFile(now, authors, q) == (q == p || InFile(before, authors, q))
    {
      StoredMore(acts, n, q);
      FindAfter(before, authors[p].name, authors[p].code, authors[q].name);
      OnlyStored(start, authors, acts, n, q);
    }
    forall q: nat | StoredBy(acts, n, q) ensures q < |authors| && StoredBy(acts, n + 1, q) {
      StoredMore(acts, n, q);
    }
    if AllKept(start, authors, acts, n) {
      forall q: nat | StoredBy(acts, n + 1, q) ensures InFile(now, authors, q) {
        StoredMore(acts, n, q);
      }
    }
    if AllKept(start, authors, acts, n + 1) {
      forall q: nat | StoredBy(acts, n, q) ensures InFile(before, authors, q) {
        assert InFile(now, authors, q);
      }
    }
  }

  // The tools stored by the first n acts, in order.
  function Stores(authors: seq<Author>, acts: seq<Act>, n: nat): seq<(string, string)>
    requires n <= |acts|
  {
    if n == 0 then []
    else
      var before, a := Stores(authors, acts, n - 1), acts[n - 1];
      if a.Store? && a.p < |authors| then before + [(authors[a.p].name, authors[a.p].code)] else before
  }

  // Without overlaps the file is what one process authoring the same tools in the order of
  // the stores would leave, names in common or not.
  lemma {:induction false} NoOverlapIsSerial(start: seq<Tool>, authors: seq<Author>, acts: seq<Act>, n: nat)
    requires Schedule(authors, acts) && n <= |acts| && NoOverlap(acts, n)
    ensures After(start, authors, acts, n).tools == UpsertAll(start, Stores(authors, acts, n))
    decreases n
  {
    if n > 0 {
      NoOverlapIsSerial(start, authors, acts, n - 1);
      if acts[n - 1].Store? {
        var l := StoreEffect(start, authors, acts, n - 1);
        forall s | l <= s < n - 1 ensures acts[s].Load? {
          assert !Overtaken(acts, l, s, n - 1);
        }
        QuietSince(start, authors, acts, l, n - 1);
        var before, a := Stores(authors, acts, n - 1), authors[acts[n - 1].p];
        assert (before + [(a.name, a.code)])[..|before|] == before;
      }
    }
  }
}
