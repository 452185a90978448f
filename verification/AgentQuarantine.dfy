/** A load that starts on a corrupt file while other processes save: what its quarantine
    moves aside. */
module AgentQuarantine {
  import opened Wrappers
  import opened Text
  import opened AgentStore

  // Before anything has happened: the file does not parse, process k is about to load it
  // and every other process is about to save it.
  ghost predicate Corrupt(codec: Codec, file: string, bad: string, st: State, k: nat) {
    && WellFormed(st.fs) && Named(st) && st.log == []
    && Read(st.fs, file) == Some(bad) && codec.parse(bad) == Bad
    && k < |st.procs| && st.procs[k] == ToLoad(file)
    && forall j | 0 <= j < |st.procs| && j != k ::
         st.procs[j].ToSave? && st.procs[j].file == file && st.procs[j].tmp !in st.fs.dir
  }

  // The file's bytes after these publications.
  function Bytes(codec: Codec, bad: string, log: seq<(string, AgentData)>): string {
    if log == [] then bad else codec.dump(log[|log| - 1].1)
  }

  ghost predicate Saving(codec: Codec, file: string, st: State, p: Proc) {
    IsSaver(p) && p.file == file && Sound(codec, st, p)
  }

  // Until the load has ended, the file holds what was last published, and the load has in
  // hand a part of what it opened.
  ghost predicate Held(codec: Codec, file: string, bad: string, st: State, k: nat) {
    k < |st.procs| && (st.procs[k].Loaded? || Holding(codec, file, bad, st, k))
  }

  ghost predicate Holding(codec: Codec, file: string, bad: string, st: State, k: nat)
    requires k < |st.procs|
  {
    && WellFormed(st.fs) && Named(st) && Read(st.fs, file) == Some(Bytes(codec, bad, st.log))
    && (forall j | 0 <= j < |st.procs| && j != k :: Saving(codec, file, st, st.procs[j]))
    && match st.procs[k]
       case ToLoad(f) => f == file
       case Reading(f, i, got, since) =>
         && f == file && since <= |st.log| && i in st.fs.data
         && st.fs.data[i] == Bytes(codec, bad, st.log[..since]) && got <= st.fs.data[i]
         && forall j | 0 <= j < |st.procs| && st.procs[j].Writing? :: st.procs[j].inode != i
       case Unparseable(f) => f == file
       case _ => false
  }

  lemma CorruptHolds(codec: Codec, file: string, bad: string, st: State, k: nat)
    requires Corrupt(codec, file, bad, st, k)
    ensures Held(codec, file, bad, st, k)
  {
  }

  // Opening and writing touch only the saver's own temp file.
  lemma SaverHolds(codec: Codec, file: string, bad: string, st: State, k: nat, j: nat, amount: nat)
    requires k < |st.procs| && Holding(codec, file, bad, st, k) && j < |st.procs| && j != k
    requires st.procs[j].ToSave? || (st.procs[j].Writing? && st.procs[j].written < |codec.dump(st.procs[j].payload)|)
    ensures Held(codec, file, bad, AgentStore.Step(codec, st, Event(j, amount)), k)
  {
    var next := AgentStore.Step(codec, st, Event(j, amount));
    var p := st.procs[j];
    assert Saving(codec, file, st, p) && p.tmp != file;
    if p.Writing? {
      var text, w := codec.dump(p.payload), next.procs[j].written;
      assert text[..p.written] + text[p.written..w] == text[..w];
    }
    forall i | 0 <= i < |next.procs| && i != k ensures Saving(codec, file, next, next.procs[i]) {
      assert Saving(codec, file, st, st.procs[i]);
    }
  }

  lemma PublishHolds(codec: Codec, file: string, bad: string, st: State, k: nat, j: nat, amount: nat)
    requires k < |st.procs| && Holding(codec, file, bad, st, k) && j < |st.procs| && j != k
    requires st.procs[j].Writing? && st.procs[j].written == |codec.dump(st.procs[j].payload)|
    ensures Held(codec, file, bad, AgentStore.Step(codec, st, Event(j, amount)), k)
  {
    var next := AgentStore.Step(codec, st, Event(j, amount));
    var p := st.procs[j];
    assert Saving(codec, file, st, p) && p.tmp != file;
    assert codec.dump(p.payload)[..p.written] == codec.dump(p.payload);
    forall i | 0 <= i < |next.procs| && i != k ensures Saving(codec, file, next, next.procs[i]) {
      assert Saving(codec, file, st, st.procs[i]);
    }
    if st.procs[k].Reading? {
      assert next.log[..st.procs[k].since] == st.log[..st.procs[k].since];
    }
  }

  lemma LoaderHolds(codec: Codec, file: string, bad: string, st: State, k: nat, amount: nat)
    requires ParseUndoesPrint(codec) && codec.parse(bad) == Bad && k < |st.procs| && Holding(codec, file, bad, st, k)
    ensures Held(codec, file, bad, AgentStore.Step(codec, st, Event(k, amount)), k)
  {
    var next, p := AgentStore.Step(codec, st, Event(k, amount)), st.procs[k];
    if !next.procs[k].Loaded? {
      forall i | 0 <= i < |next.procs| && i != k ensures Saving(codec, file, next, next.procs[i]) {
        assert Saving(codec, file, st, st.procs[i]);
      }
      if p.ToLoad? {
        assert st.log[..|st.log|] == st.log;
        forall j | 0 <= j < |st.procs| && st.procs[j].Writing? ensures st.procs[j].inode != st.fs.dir[file] {
          assert Saving(codec, file, st, st.procs[j]) && st.procs[j].tmp != file;
        }
      } else {
        var text := st.fs.data[p.inode];
        if |p.got| < |text| {
          assert next.procs[k].got == text[..|next.procs[k].got|];
        } else {
          assert p.got == text;
        }
      }
    }
  }

  lemma StepHolds(codec: Codec, file: string, bad: string, st: State, k: nat, e: Event)
    requires ParseUndoesPrint(codec) && codec.parse(bad) == Bad && Held(codec, file, bad, st, k)
    ensures Held(codec, file, bad, AgentStore.Step(codec, st, e), k)
  {
    if !st.procs[k].Loaded? && e.proc < |st.procs| {
      var p := st.procs[e.proc];
      if e.proc == k {
        LoaderHolds(codec, file, bad, st, k, e.amount);
      } else {
        assert Saving(codec, file, st, p);
        if p.Writing? && p.written == |codec.dump(p.payload)| {
          PublishHolds(codec, file, bad, st, k, e.proc, e.amount);
        } else if !p.Saved? {
          SaverHolds(codec, file, bad, st, k, e.proc, e.amount);
        } else {
          assert AgentStore.Step(codec, st, e).procs == st.procs;
        }
      }
    }
  }

  lemma {:induction false} RunHolds(codec: Codec, file: string, bad: string, st: State, k: nat, events: seq<Event>)
    requires ParseUndoesPrint(codec) && codec.parse(bad) == Bad && Held(codec, file, bad, st, k)
    ensures Held(codec, file, bad, RunAll(codec, st, events), k)
    decreases |events|
  {
    if events != [] {
      StepHolds(codec, file, bad, st, k, events[0]);
      RunHolds(codec, file, bad, AgentStore.Step(codec, st, events[0]), k, events[1..]);
    }
  }

  // In every interleaving of the load with any number of saves: when the load comes to
  // quarantine, what it moves aside is the file as last published, so it is the corrupt
  // bytes exactly when nobody published since.
  lemma QuarantineMovesExactly(codec: Codec, file: string, bad: string, st: State, k: nat, events: seq<Event>, at: nat)
    requires ParseUndoesPrint(codec) && Corrupt(codec, file, bad, st, k)
    ensures var end := RunAll(codec, st, events);
      && k < |end.procs|
      && (end.procs[k].Unparseable? ==>
            var next := AgentStore.Step(codec, end, Event(k, at));
            && Read(next.fs, file) == None
            && Read(next.fs, CorruptName(file, at)) == Some(Bytes(codec, bad, end.log))
            && (Bytes(codec, bad, end.log) == bad <==> end.log == []))
  {
    var end := RunAll(codec, st, events);
    CorruptHolds(codec, file, bad, st, k);
    RunHolds(codec, file, bad, st, k, events);
    if end.procs[k].Unparseable? {
      assert |CorruptName(file, at)| > |file|;
      assert end.log != [] ==> codec.parse(Bytes(codec, bad, end.log)).Shape?;
    }
  }

  // A load that opens the file after someone published it.
  ghost predicate Late(st: State, k: nat) {
    k < |st.procs| && st.log != [] &&
    match st.procs[k]
    case ToLoad(_) => true
    case Reading(_, _, _, since) => since > 0
    case Loaded(_, _, _) => true
    case _ => false
  }

  lemma LateStep(codec: Codec, file: string, bad: string, st: State, k: nat, e: Event)
    requires ParseUndoesPrint(codec) && Held(codec, file, bad, st, k) && Late(st, k)
    ensures Late(AgentStore.Step(codec, st, e), k)
  {
    var p := st.procs[k];
    if e.proc == k && p.Reading? {
      assert st.log[..p.since] != [];
      assert |p.got| >= |st.fs.data[p.inode]| ==> p.got == st.fs.data[p.inode];
    }
  }

  // Such a load never quarantines: the publication that costs a good file falls between
  // the lookup and the rename.
  lemma {:induction false} LateLoadsAreSafe(codec: Codec, file: string, bad: string, st: State, k: nat, events: seq<Event>)
    requires ParseUndoesPrint(codec) && codec.parse(bad) == Bad && Held(codec, file, bad, st, k) && Late(st, k)
    ensures Late(RunAll(codec, st, events), k)
    decreases |events|
  {
    if events != [] {
      StepHolds(codec, file, bad, st, k, events[0]);
      LateStep(codec, file, bad, st, k, events[0]);
      LateLoadsAreSafe(codec, file, bad, AgentStore.Step(codec, st, events[0]), k, events[1..]);
    }
  }

  // ------------------------------------------------------------------
  // An interleaving that costs a good file
  // ------------------------------------------------------------------

  lemma {:induction false} RunSnoc(codec: Codec, st: State, events: seq<Event>, e: Event)
    ensures RunAll(codec, st, events + [e]) == AgentStore.Step(codec, RunAll(codec, st, events), e)
    decreases |events|
  {
    if events == [] {
      assert [e][1..] == [];
    } else {
      assert (events + [e])[1..] == events[1..] + [e];
      RunSnoc(codec, AgentStore.Step(codec, st, events[0]), events[1..], e);
    }
  }

  // The load reads the corrupt bytes, a save publishes, and the load moves that aside.
  lemma GoodFileQuarantined(codec: Codec, file: string, tmp: string, bad: string, a: AgentData, at: nat)
    returns (events: seq<Event>)
    requires ParseUndoesPrint(codec) && codec.parse(bad) == Bad && bad != "" && codec.dump(a) != ""
    requires EndsWith(file, ".json") && !EndsWith(tmp, ".json")
    ensures var end := RunAll(codec, State(Fs(map[file := 0], map[0 := bad], 1), [ToLoad(file), ToSave(file, tmp, a)], []), events);
      end.log == [(file, a)] && Read(end.fs, file) == None && Read(end.fs, CorruptName(file, at)) == Some(codec.dump(a))
  {
    var s0 := State(Fs(map[file := 0], map[0 := bad], 1), [ToLoad(file), ToSave(file, tmp, a)], []);
    var n := |codec.dump(a)|;
    var load, save := [Event(0, 0), Event(0, |bad|), Event(0, 0)], [Event(1, 0), Event(1, n), Event(1, 0)];
    var s3 := LoadReadsBad(codec, s0, file, bad);
    var s6 := SavePublishes(codec, s3, tmp);
    RunThree(codec, s0, load[0], load[1], load[2]);
    RunThree(codec, s3, save[0], save[1], save[2]);
    RunParts(codec, s0, load, save);
    assert RunAll(codec, s0, load + save) == s6;
    QuarantineMovesExactly(codec, file, bad, s0, 0, load + save, at);
    RunSnoc(codec, s0, load + save, Event(0, at));
    events := load + save + [Event(0, at)];
  }

  lemma LoadReadsBad(codec: Codec, st: State, file: string, bad: string) returns (next: State)
    requires codec.parse(bad) == Bad && bad != "" && |st.procs| == 2 && st.procs[0] == ToLoad(file)
    requires file in st.fs.dir && st.fs.dir[file] in st.fs.data && st.fs.data[st.fs.dir[file]] == bad
    ensures next == AgentStore.Step(codec, AgentStore.Step(codec, AgentStore.Step(codec, st, Event(0, 0)), Event(0, |bad|)), Event(0, 0))
    ensures next == State(st.fs, [Unparseable(file), st.procs[1]], st.log)
  {
    var s1 := AgentStore.Step(codec, st, Event(0, 0));
    var s2 := AgentStore.Step(codec, s1, Event(0, |bad|));
    assert "" + bad[0..|bad|] == bad;
    assert s2.procs[0] == Reading(file, st.fs.dir[file], bad, |st.log|);
    next := AgentStore.Step(codec, s2, Event(0, 0));
    assert next.procs == [Unparseable(file), st.procs[1]];
  }

  lemma SavePublishes(codec: Codec, st: State, tmp: string) returns (next: State)
    requires |st.procs| == 2 && st.procs[1].ToSave? && st.procs[1].tmp == tmp && codec.dump(st.procs[1].payload) != ""
    ensures var n := |codec.dump(st.procs[1].payload)|;
      next == AgentStore.Step(codec, AgentStore.Step(codec, AgentStore.Step(codec, st, Event(1, 0)), Event(1, n)), Event(1, 0))
    ensures next.log == st.log + [(st.procs[1].file, st.procs[1].payload)] && |next.procs| == 2 && next.procs[0] == st.procs[0]
  {
    var n := |codec.dump(st.procs[1].payload)|;
    var s1 := AgentStore.Step(codec, st, Event(1, 0));
    var s2 := AgentStore.Step(codec, s1, Event(1, n));
    assert s2.procs[1].Writing? && s2.procs[1].written == n;
    next := AgentStore.Step(codec, s2, Event(1, 0));
  }

  lemma RunThree(codec: Codec, st: State, a: Event, b: Event, c: Event)
    ensures RunAll(codec, st, [a, b, c]) == AgentStore.Step(codec, AgentStore.Step(codec, AgentStore.Step(codec, st, a), b), c)
  {
    RunSnoc(codec, st, [], a);
    RunSnoc(codec, st, [a], b);
    RunSnoc(codec, st, [a, b], c);
    assert [] + [a] == [a] && [a] + [b] == [a, b] && [a, b] + [c] == [a, b, c];
  }

  lemma {:induction false} RunParts(codec: Codec, st: State, a: seq<Event>, b: seq<Event>)
    ensures RunAll(codec, st, a + b) == RunAll(codec, RunAll(codec, st, a), b)
    decreases |a|
  {
    if a == [] {
      assert a + b == b;
    } else {
      assert (a + b)[1..] == a[1..] + b;
      RunParts(codec, AgentStore.Step(codec, st, a[0]), a[1..], b);
    }
  }
}
