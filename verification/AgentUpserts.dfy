/** The upserts of several processes at the level of system calls: each loads the file and
    then saves it with its own tool in it. Every run is a schedule of loads and stores. */
module AgentUpserts {
  import opened Wrappers
  import opened Text
  import opened AgentStore
  import opened AgentUpdates

  // What each process is to add, and its private temp name.
  datatype Upsert = Upsert(author: Author, tmp: string)

  function Authors(us: seq<Upsert>): seq<Author> {
    seq(|us|, i requires 0 <= i < |us| => us[i].author)
  }

  // A system call of a process, or the step from what it loaded to what it will save.
  datatype Move = Call(event: Event) | Edit(p: nat)

  function Edited(d: AgentData, a: Author): AgentData {
    d.(tools := Upserted(d.tools, a.name, a.code))
  }

  function Make(codec: Codec, us: seq<Upsert>, st: State, m: Move): State {
    match m
    case Call(event) => AgentStore.Step(codec, st, event)
    case Edit(p) =>
      if p < |st.procs| && p < |us| && st.procs[p].Loaded? then
        st.(procs := st.procs[p := ToSave(st.procs[p].file, us[p].tmp, Edited(st.procs[p].data, us[p].author))])
      else st
  }

  function Run(codec: Codec, us: seq<Upsert>, st: State, moves: seq<Move>): State {
    if moves == [] then st else Make(codec, us, Run(codec, us, st, moves[..|moves| - 1]), moves[|moves| - 1])
  }

  // The move's load or store, if it is one: looking the file up, or renaming over it.
  function ActOf(codec: Codec, st: State, m: Move): seq<Act> {
    if m.Edit? || m.event.proc >= |st.procs| then []
    else
      match st.procs[m.event.proc]
      case ToLoad(_) => [Load(m.event.proc)]
      case Writing(_, _, d, _, w) => if w == |codec.dump(d)| then [AgentUpdates.Store(m.event.proc)] else []
      case _ => []
  }

  function Acts(codec: Codec, us: seq<Upsert>, st: State, moves: seq<Move>): seq<Act> {
    if moves == [] then []
    else
      var init, last := moves[..|moves| - 1], moves[|moves| - 1];
      Acts(codec, us, st, init) + ActOf(codec, Run(codec, us, st, init), last)
  }

  // What a load that opens the file now will return.
  function Published(log: seq<(string, AgentData)>, file: string): AgentData {
    match Latest(log, file)
    case Some(d) => d
    case None => EMPTY
  }

  // ------------------------------------------------------------------
  // The names stay apart
  // ------------------------------------------------------------------

  ghost predicate NamesApart(file: string, us: seq<Upsert>) {
    && EndsWith(file, ".json")
    && (forall p | 0 <= p < |us| :: !EndsWith(us[p].tmp, ".json"))
    && (forall p, q | 0 <= p < q < |us| :: us[p].tmp != us[q].tmp)
  }

  // Each process is at its own file, and its temp name is free until it saves.
  ghost predicate Owns(file: string, us: seq<Upsert>, st: State, p: nat)
    requires p < |us| && p < |st.procs|
  {
    && st.procs[p].file == file
    && (if IsSaver(st.procs[p]) then st.procs[p].tmp == us[p].tmp else us[p].tmp !in st.fs.dir)
  }

  ghost predicate Ordered(codec: Codec, file: string, us: seq<Upsert>, st: State) {
    && NamesApart(file, us) && Inv(codec, st) && |st.procs| == |us|
    && forall p | 0 <= p < |us| :: Owns(file, us, st, p)
  }

  lemma CallOrdered(codec: Codec, file: string, us: seq<Upsert>, st: State, e: Event)
    requires ParseUndoesPrint(codec) && Ordered(codec, file, us, st)
    ensures Ordered(codec, file, us, AgentStore.Step(codec, st, e))
  {
    AgentStore.StepKeeps(codec, st, e);
    if e.proc < |st.procs| {
      var next := AgentStore.Step(codec, st, e);
      assert Owns(file, us, st, e.proc) && Sound(codec, st, st.procs[e.proc]);
      forall p | 0 <= p < |us| ensures Owns(file, us, next, p) {
        assert Owns(file, us, st, p);
      }
    }
  }

  lemma EditOrdered(codec: Codec, file: string, us: seq<Upsert>, st: State, p: nat)
    requires Ordered(codec, file, us, st)
    ensures Ordered(codec, file, us, Make(codec, us, st, Edit(p)))
  {
    var next := Make(codec, us, st, Edit(p));
    if p < |us| && st.procs[p].Loaded? {
      assert Owns(file, us, st, p);
      forall q | 0 <= q < |us| ensures Owns(file, us, next, q) && Sound(codec, next, next.procs[q]) {
        assert Owns(file, us, st, q) && Sound(codec, st, st.procs[q]);
      }
      assert Named(next) by {
        forall j, k | 0 <= j < k < |us| && IsSaver(next.procs[j]) && IsSaver(next.procs[k])
          ensures next.procs[j].tmp != next.procs[k].tmp
        {
          assert Owns(file, us, next, j) && Owns(file, us, next, k);
        }
      }
      assert TargetsWhole(codec, next) by {
        forall f | EndsWith(f, ".json")
          ensures Read(next.fs, f) == (if Latest(next.log, f).Some? then Some(codec.dump(Latest(next.log, f).value)) else None)
        {}
      }
    }
  }

  // ------------------------------------------------------------------
  // Every run is a schedule
  // ------------------------------------------------------------------

  // What a process has in hand is what the schedule says it has.
  ghost predicate InHand(file: string, u: Upsert, log: seq<(string, AgentData)>, s: Shared, acts: seq<Act>, p: nat, proc: Proc) {
    match proc
    case ToLoad(_) => Load(p) !in acts && AgentUpdates.Store(p) !in acts
    case Reading(_, _, _, since) =>
      && Load(p) in acts && AgentUpdates.Store(p) !in acts
      && since <= |log| && p in s.held && s.held[p] == Published(log[..since], file).tools
    case Loaded(_, d, _) =>
      Load(p) in acts && AgentUpdates.Store(p) !in acts && p in s.held && s.held[p] == d.tools
    case ToSave(_, _, d) =>
      && Load(p) in acts && AgentUpdates.Store(p) !in acts
      && p in s.held && d.tools == Upserted(s.held[p], u.author.name, u.author.code)
    case Writing(_, _, d, _, _) =>
      && Load(p) in acts && AgentUpdates.Store(p) !in acts
      && p in s.held && d.tools == Upserted(s.held[p], u.author.name, u.author.code)
    case Saved(_, _, _) => AgentUpdates.Store(p) in acts
    case _ => false
  }

  ghost predicate Simulates(file: string, us: seq<Upsert>, start: seq<Tool>, st: State, acts: seq<Act>) {
    var s := After(start, Authors(us), acts, |acts|);
    && Schedule(Authors(us), acts)
    && s.tools == Published(st.log, file).tools
    && |st.procs| == |us| && forall p | 0 <= p < |us| :: InHand(file, us[p], st.log, s, acts, p, st.procs[p])
  }

  lemma {:induction false} AfterPrefix(start: seq<Tool>, authors: seq<Author>, acts: seq<Act>, more: seq<Act>, n: nat)
    requires n <= |acts|
    ensures After(start, authors, acts + more, n) == After(start, authors, acts, n)
    decreases n
  {
    if n > 0 {
      AfterPrefix(start, authors, acts, more, n - 1);
      assert (acts + more)[n - 1] == acts[n - 1];
    }
  }

  lemma AfterOne(start: seq<Tool>, authors: seq<Author>, acts: seq<Act>, a: Act)
    ensures After(start, authors, acts + [a], |acts| + 1) == Does(authors, After(start, authors, acts, |acts|), a)
  {
    AfterPrefix(start, authors, acts, [a], |acts|);
  }

  lemma ScheduleOne(authors: seq<Author>, acts: seq<Act>, a: Act)
    requires Schedule(authors, acts) && a.p < |authors| && a !in acts && (a.Store? ==> Load(a.p) in acts)
    ensures Schedule(authors, acts + [a])
  {
    var more := acts + [a];
    forall t | 0 <= t < |more| && more[t].Store? ensures LoadedBefore(more, t, more[t].p) {
      if t < |acts| {
        assert LoadedBefore(acts, t, acts[t].p);
        var l :| 0 <= l < t && acts[l] == Load(acts[t].p);
        assert more[l] == Load(more[t].p);
      } else {
        var l :| 0 <= l < |acts| && acts[l] == Load(a.p);
        assert more[l] == Load(more[t].p);
      }
    }
  }

  lemma LoadSimulates(codec: Codec, file: string, us: seq<Upsert>, start: seq<Tool>, st: State, acts: seq<Act>, e: Event)
    requires Ordered(codec, file, us, st) && Simulates(file, us, start, st, acts)
    requires e.proc < |us| && st.procs[e.proc].ToLoad?
    ensures Simulates(file, us, start, AgentStore.Step(codec, st, e), acts + [Load(e.proc)])
  {
    var k, more, next := e.proc, acts + [Load(e.proc)], AgentStore.Step(codec, st, e);
    assert Owns(file, us, st, k) && InHand(file, us[k], st.log, After(start, Authors(us), acts, |acts|), acts, k, st.procs[k]);
    AfterOne(start, Authors(us), acts, Load(k));
    ScheduleOne(Authors(us), acts, Load(k));
    assert st.log[..|st.log|] == st.log;
    var s, t := After(start, Authors(us), acts, |acts|), After(start, Authors(us), more, |more|);
    assert Read(st.fs, file) == (if Latest(st.log, file).Some? then Some(codec.dump(Latest(st.log, file).value)) else None);
    forall p | 0 <= p < |us| ensures InHand(file, us[p], next.log, t, more, p, next.procs[p]) {
      assert InHand(file, us[p], st.log, s, acts, p, st.procs[p]);
    }
  }

  lemma StoreSimulates(codec: Codec, file: string, us: seq<Upsert>, start: seq<Tool>, st: State, acts: seq<Act>, e: Event)
    requires Ordered(codec, file, us, st) && Simulates(file, us, start, st, acts)
    requires e.proc < |us| && st.procs[e.proc].Writing?
    requires st.procs[e.proc].written == |codec.dump(st.procs[e.proc].payload)|
    ensures Simulates(file, us, start, AgentStore.Step(codec, st, e), acts + [AgentUpdates.Store(e.proc)])
  {
    var k, next := e.proc, AgentStore.Step(codec, st, e);
    var a := AgentUpdates.Store(k);
    var more := acts + [a];
    var s, t := After(start, Authors(us), acts, |acts|), After(start, Authors(us), more, |more|);
    assert Owns(file, us, st, k) && InHand(file, us[k], st.log, s, acts, k, st.procs[k]);
    AfterOne(start, Authors(us), acts, a);
    ScheduleOne(Authors(us), acts, a);
    LatestOfLonger(st.log, file, st.procs[k].payload, file, 0);
    forall p | 0 <= p < |us| ensures InHand(file, us[p], next.log, t, more, p, next.procs[p]) {
      assert InHand(file, us[p], st.log, s, acts, p, st.procs[p]);
      if st.procs[p].Reading? { LatestOfLonger(st.log, file, st.procs[k].payload, file, st.procs[p].since); }
    }
  }

  // A step of one process that publishes nothing and looks nothing up.
  lemma QuietSimulates(codec: Codec, file: string, us: seq<Upsert>, start: seq<Tool>, st: State, acts: seq<Act>, k: nat, proc: Proc,
                       next: State)
    requires Simulates(file, us, start, st, acts) && k < |us|
    requires next.procs == st.procs[k := proc] && next.log == st.log
    requires InHand(file, us[k], st.log, After(start, Authors(us), acts, |acts|), acts, k, proc)
    ensures Simulates(file, us, start, next, acts)
  {
  }

  lemma ReadSimulates(codec: Codec, file: string, us: seq<Upsert>, start: seq<Tool>, st: State, acts: seq<Act>, e: Event)
    requires ParseUndoesPrint(codec) && Ordered(codec, file, us, st) && Simulates(file, us, start, st, acts)
    requires e.proc < |us| && st.procs[e.proc].Reading?
    ensures Simulates(file, us, start, AgentStore.Step(codec, st, e), acts)
  {
    var k, next := e.proc, AgentStore.Step(codec, st, e);
    var s := After(start, Authors(us), acts, |acts|);
    AgentStore.StepKeeps(codec, st, e);
    assert Owns(file, us, st, k) && Sound(codec, st, st.procs[k]) && Sound(codec, next, next.procs[k]);
    assert InHand(file, us[k], st.log, s, acts, k, st.procs[k]);
    QuietSimulates(codec, file, us, start, st, acts, k, next.procs[k], next);
  }

  lemma MoveSimulates(codec: Codec, file: string, us: seq<Upsert>, start: seq<Tool>, st: State, acts: seq<Act>, m: Move)
    requires ParseUndoesPrint(codec) && Ordered(codec, file, us, st) && Simulates(file, us, start, st, acts)
    ensures Simulates(file, us, start, Make(codec, us, st, m), acts + ActOf(codec, st, m))
  {
    var k := if m.Call? then m.event.proc else m.p;
    assert acts + [] == acts;
    if k < |us| {
      var s := After(start, Authors(us), acts, |acts|);
      var next := Make(codec, us, st, m);
      assert Owns(file, us, st, k) && Sound(codec, st, st.procs[k]) && InHand(file, us[k], st.log, s, acts, k, st.procs[k]);
      var q := next.procs[k];
      if m.Call? && st.procs[k].ToLoad? {
        LoadSimulates(codec, file, us, start, st, acts, m.event);
      } else if m.Call? && st.procs[k].Reading? {
        ReadSimulates(codec, file, us, start, st, acts, m.event);
      } else if m.Call? && st.procs[k].Writing? && st.procs[k].written == |codec.dump(st.procs[k].payload)| {
        StoreSimulates(codec, file, us, start, st, acts, m.event);
      } else {
        QuietSimulates(codec, file, us, start, st, acts, k, q, next);
      }
    }
  }

  // From a clean start with every process about to load: every run keeps the store's
  // invariant and is the schedule of its loads and stores.
  ghost predicate Begins(codec: Codec, file: string, us: seq<Upsert>, st: State) {
    && NamesApart(file, us) && Clean(codec, st) && |st.procs| == |us|
    && (forall p | 0 <= p < |us| :: st.procs[p] == ToLoad(file))
    && (forall u <- us :: u.tmp !in st.fs.dir)
  }

  lemma {:induction false} RunsAreSchedules(codec: Codec, file: string, us: seq<Upsert>, st: State, moves: seq<Move>)
    requires ParseUndoesPrint(codec) && Begins(codec, file, us, st)
    ensures var end, acts := Run(codec, us, st, moves), Acts(codec, us, st, moves);
      Ordered(codec, file, us, end) && Simulates(file, us, Published(st.log, file).tools, end, acts)
  {
    if moves == [] {
      forall p | 0 <= p < |us| ensures Owns(file, us, st, p) {
        assert us[p] in us;
      }
    } else {
      var init, last := moves[..|moves| - 1], moves[|moves| - 1];
      RunsAreSchedules(codec, file, us, st, init);
      var mid := Run(codec, us, st, init);
      MoveSimulates(codec, file, us, Published(st.log, file).tools, mid, Acts(codec, us, st, init), last);
      match last {
        case Call(e) => CallOrdered(codec, file, us, mid, e);
        case Edit(p) => EditOrdered(codec, file, us, mid, p);
      }
    }
  }

  // The tool of every process whose save went through is in the published file if and only
  // if no process renamed between another's lookup and rename.
  lemma SavedToolsKeptExactly(codec: Codec, file: string, us: seq<Upsert>, st: State, moves: seq<Move>)
    requires ParseUndoesPrint(codec) && Begins(codec, file, us, st)
    requires NewTools(Published(st.log, file).tools, Authors(us))
    ensures var end, acts := Run(codec, us, st, moves), Acts(codec, us, st, moves);
      && Read(end.fs, file) == (if Latest(end.log, file).Some? then Some(codec.dump(Published(end.log, file))) else None)
      && ((forall p: nat | p < |end.procs| && end.procs[p].Saved? :: InFile(Published(end.log, file).tools, Authors(us), p))
          <==> NoOverlap(acts, |acts|))
  {
    var end, acts, start := Run(codec, us, st, moves), Acts(codec, us, st, moves), Published(st.log, file).tools;
    RunsAreSchedules(codec, file, us, st, moves);
    NoLostUpdateExactly(start, Authors(us), acts, |acts|);
    var s := After(start, Authors(us), acts, |acts|);
    forall p: nat ensures StoredBy(acts, |acts|, p) <==> p < |us| && end.procs[p].Saved? {
      assert StoredBy(acts, |acts|, p) <==> AgentUpdates.Store(p) in acts;
      if p < |us| {
        assert InHand(file, us[p], end.log, s, acts, p, end.procs[p]) && Sound(codec, end, end.procs[p]);
      }
    }
  }
}
