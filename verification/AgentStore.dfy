/** The per-agent JSON file store: save writes a private temp file and renames it over
    the target, load reads the target and quarantines what does not parse. */
module AgentStore {
  import opened Wrappers
  import opened Text

  // ------------------------------------------------------------------
  // File names
  // ------------------------------------------------------------------

  predicate SafeChar(c: char) {
    'A' <= c <= 'Z' || 'a' <= c <= 'z' || '0' <= c <= '9' || c == '.' || c == '_' || c == '-'
  }

  predicate White(c: char) {
    || c in " \t\n\r" || c in "\U{000b}\U{000c}\U{00a0}\U{1680}\U{2028}\U{2029}\U{202f}\U{205f}\U{3000}\U{feff}"
    || '\U{2000}' <= c <= '\U{200a}'
  }

  function TrimLeft(s: string): string {
    if s != "" && White(s[0]) then TrimLeft(s[1..]) else s
  }

  function TrimRight(s: string): string {
    if s != "" && White(s[|s| - 1]) then TrimRight(s[..|s| - 1]) else s
  }

  // Every run of unsafe characters becomes one underscore.
  function Collapse(s: string, inRun: bool): string {
    if s == "" then ""
    else if SafeChar(s[0]) then [s[0]] + Collapse(s[1..], false)
    else (if inRun then "" else "_") + Collapse(s[1..], true)
  }

  function Sanitize(agent: string): Option<string> {
    var safe := Collapse(TrimRight(TrimLeft(agent)), false);
    if forall c <- safe :: c == '.' then None else Some(safe)
  }

  function TargetName(id: string): string {
    id + ".json"
  }

  function TempName(file: string, pid: nat, tag: string): string {
    file + "." + Itoa(pid) + "." + tag + ".tmp"
  }

  function CorruptName(file: string, at: nat): string {
    file + ".corrupt-" + Itoa(at)
  }

  lemma {:induction false} CollapseSafe(s: string, inRun: bool)
    ensures forall c <- Collapse(s, inRun) :: SafeChar(c)
    ensures (forall c <- s :: SafeChar(c)) ==> Collapse(s, inRun) == s
  {
    if s != "" {
      CollapseSafe(s[1..], !SafeChar(s[0]));
      if forall c <- s :: SafeChar(c) {
        assert forall c <- s[1..] :: SafeChar(c);
        assert s == [s[0]] + s[1..];
      }
    }
  }

  // An accepted id has only safe characters, so no path separator; it is not made of
  // dots, and is its own sanitized form.
  lemma SanitizeSafe(agent: string)
    ensures match Sanitize(agent)
      case None => true
      case Some(id) =>
        && (forall c <- id :: SafeChar(c)) && '/' !in id && '\\' !in id
        && (exists c <- id :: c != '.') && Sanitize(id) == Some(id)
  {
    CollapseSafe(TrimRight(TrimLeft(agent)), false);
    if Sanitize(agent).Some? {
      var id := Sanitize(agent).value;
      SafeUntrimmed(id);
      CollapseSafe(id, false);
    }
  }

  lemma SafeUntrimmed(id: string)
    requires forall c <- id :: SafeChar(c)
    ensures TrimRight(TrimLeft(id)) == id
  {
    assert forall c | SafeChar(c) :: !White(c);
  }

  ghost predicate AllWhite(s: string) {
    forall c <- s :: White(c)
  }

  // No white space at either end.
  ghost predicate Trimmed(s: string) {
    s == "" || (!White(s[0]) && !White(s[|s| - 1]))
  }

  lemma {:induction false} TrimLeftDrops(before: string, s: string)
    requires AllWhite(before) && (s == "" || !White(s[0]))
    ensures TrimLeft(before + s) == s
    decreases |before|
  {
    if before == "" {
      assert before + s == s;
    } else {
      assert (before + s)[1..] == before[1..] + s;
      TrimLeftDrops(before[1..], s);
    }
  }

  lemma {:induction false} TrimRightDrops(s: string, after: string)
    requires AllWhite(after) && (s == "" || !White(s[|s| - 1]))
    ensures TrimRight(s + after) == s
    decreases |after|
  {
    if after == "" {
      assert s + after == s;
    } else {
      assert (s + after)[..|s + after| - 1] == s + after[..|after| - 1];
      TrimRightDrops(s, after[..|after| - 1]);
    }
  }

  // Safe characters stay; a run of others, as long as it is, becomes one underscore.
  lemma {:induction false} OneUnderscore(safe: string, run: string, rest: string)
    requires forall c <- safe :: SafeChar(c)
    requires run != "" && forall c <- run :: !SafeChar(c)
    requires rest == "" || SafeChar(rest[0])
    ensures Collapse(safe + run + rest, false) == safe + "_" + Collapse(rest, false)
    decreases |safe|
  {
    if safe == "" {
      assert safe + run + rest == [run[0]] + (run[1..] + rest);
      RunSwallowed(run[1..], rest);
      assert safe + "_" + Collapse(rest, false) == "_" + Collapse(rest, false);
    } else {
      OneUnderscore(safe[1..], run, rest);
      assert safe + run + rest == [safe[0]] + (safe[1..] + run + rest);
      assert [safe[0]] + (safe[1..] + "_" + Collapse(rest, false)) == safe + "_" + Collapse(rest, false);
    }
  }

  lemma {:induction false} RunSwallowed(run: string, rest: string)
    requires forall c <- run :: !SafeChar(c)
    requires rest == "" || SafeChar(rest[0])
    ensures Collapse(run + rest, true) == Collapse(rest, false)
  {
    if run == "" {
      assert run + rest == rest;
    } else {
      assert (run + rest)[1..] == run[1..] + rest;
      RunSwallowed(run[1..], rest);
    }
  }

  ghost predicate Dots(s: string) {
    forall c <- s :: c == '.'
  }

  lemma DotsCons(c: char, rest: string)
    ensures Dots([c] + rest) <==> c == '.' && Dots(rest)
  {
    var s := [c] + rest;
    assert s[0] in s && forall d <- rest :: d in s;
    if c == '.' && Dots(rest) {
      forall d | d in s ensures d == '.' {
        assert d == c || d in rest;
      }
    }
  }

  lemma {:induction false} DotsCollapse(s: string)
    ensures Dots(Collapse(s, false)) <==> Dots(s)
  {
    if s != "" {
      var rest := s[1..];
      assert s == [s[0]] + rest;
      DotsCons(s[0], rest);
      if SafeChar(s[0]) {
        DotsCons(s[0], Collapse(rest, false));
        DotsCollapse(rest);
      } else {
        DotsCons('_', Collapse(rest, true));
      }
    }
  }

  // White space around an id is dropped. It is refused exactly when nothing but dots is
  // left; otherwise the collapsed core is the id.
  lemma SanitizedExactly(before: string, core: string, after: string)
    requires AllWhite(before) && AllWhite(after) && Trimmed(core)
    ensures Sanitize(before + core + after) == None <==> Dots(core)
    ensures Sanitize(before + core + after).Some? ==> Sanitize(before + core + after).value == Collapse(core, false)
  {
    CoreLeft(before, core, after);
    DotsCollapse(core);
  }

  lemma CoreLeft(before: string, core: string, after: string)
    requires AllWhite(before) && AllWhite(after) && Trimmed(core)
    ensures TrimRight(TrimLeft(before + core + after)) == core
  {
    if core == "" {
      assert before + core + after == (before + after) + "";
      TrimLeftDrops(before + after, "");
    } else {
      assert before + core + after == before + (core + after);
      TrimLeftDrops(before, core + after);
      TrimRightDrops(core, after);
    }
  }

  lemma EndsDiffer(s: string, suffix: string)
    requires s != "" && suffix != "" && s[|s| - 1] != suffix[|suffix| - 1]
    ensures !EndsWith(s, suffix)
  {
    assert |suffix| <= |s| ==> s[|s| - |suffix|..][|suffix| - 1] == s[|s| - 1];
  }

  // A temp or quarantined file is never taken for a data file.
  lemma NameKinds(file: string, pid: nat, tag: string, at: nat)
    ensures !EndsWith(TempName(file, pid, tag), ".json") && EndsWith(TempName(file, pid, tag), ".tmp")
    ensures !EndsWith(CorruptName(file, at), ".json")
  {
    var t, c, d := TempName(file, pid, tag), CorruptName(file, at), Itoa(at);
    assert t[|t| - 4..] == ".tmp";
    EndsDiffer(t, ".json");
    assert c[|c| - 1] == d[|d| - 1] && d[|d| - 1] in DIGITS;
    EndsDiffer(c, ".json");
  }

  // `agents`: the ids with a data file.
  function Agents(dir: set<string>): set<string> {
    set n | n in dir && EndsWith(n, ".json") :: n[..|n| - 5]
  }

  // A data file is listed under an id that leads back to it.
  lemma ListedAgentsLeadBack(dir: set<string>, agent: string)
    requires Sanitize(agent).Some?
    ensures var id := Sanitize(agent).value;
      (TargetName(id) in dir <==> id in Agents(dir)) && Sanitize(id) == Some(id)
  {
    SanitizeSafe(agent);
    var id := Sanitize(agent).value;
    var n := TargetName(id);
    assert n[|n| - 5..] == ".json" && n[..|n| - 5] == id;
    if id in Agents(dir) {
      var m :| m in dir && EndsWith(m, ".json") && m[..|m| - 5] == id;
      assert m == m[..|m| - 5] + m[|m| - 5..];
    }
  }

  // ------------------------------------------------------------------
  // Files
  // ------------------------------------------------------------------

  type Inode = nat

  datatype Fs = Fs(dir: map<string, Inode>, data: map<Inode, string>, next: Inode)

  ghost predicate WellFormed(fs: Fs) {
    && (forall n <- fs.dir :: fs.dir[n] in fs.data)
    && (forall i <- fs.data :: i < fs.next)
    && (forall m, n | m in fs.dir && n in fs.dir && m != n :: fs.dir[m] != fs.dir[n])
  }

  function Read(fs: Fs, name: string): Option<string> {
    if name in fs.dir && fs.dir[name] in fs.data then Some(fs.data[fs.dir[name]]) else None
  }

  // open(name, "w"): create, or empty what is there.
  function OpenW(fs: Fs, name: string): (Fs, Inode) {
    if name in fs.dir then (fs.(data := fs.data[fs.dir[name] := ""]), fs.dir[name])
    else (Fs(fs.dir[name := fs.next], fs.data[fs.next := ""], fs.next + 1), fs.next)
  }

  function Append(fs: Fs, i: Inode, s: string): Fs {
    if i in fs.data then fs.(data := fs.data[i := fs.data[i] + s]) else fs
  }

  function Rename(fs: Fs, a: string, b: string): Fs {
    if a in fs.dir then fs.(dir := (fs.dir - {a})[b := fs.dir[a]]) else fs
  }

  // ------------------------------------------------------------------
  // Contents
  // ------------------------------------------------------------------

  datatype Tool = Tool(name: string, code: string, version: nat)
  datatype Artifact = Artifact(id: string, at: string, body: string)
  datatype AgentData = AgentData(tools: seq<Tool>, artifacts: seq<Artifact>)

  // What JSON.parse may find: not JSON, null, or a value whose sections may be missing.
  datatype Parsed = Bad | Null | Shape(tools: Option<seq<Tool>>, artifacts: Option<seq<Artifact>>)
  datatype Codec = Codec(dump: AgentData -> string, parse: string -> Parsed)

  const EMPTY := AgentData([], [])

  ghost predicate ParseUndoesPrint(codec: Codec) {
    forall d :: codec.parse(codec.dump(d)) == Shape(Some(d.tools), Some(d.artifacts))
  }

  function OrEmpty<T>(o: Option<seq<T>>): seq<T> {
    if o.Some? then o.value else []
  }

  // ------------------------------------------------------------------
  // Any number of saves and loads, interleaved at the level of system calls.
  // A crash is a process that takes no further step.
  // ------------------------------------------------------------------

  datatype Proc =
    | ToSave(file: string, tmp: string, payload: AgentData)
    | Writing(file: string, tmp: string, payload: AgentData, inode: Inode, written: nat)
    | Saved(file: string, tmp: string, payload: AgentData)
    | ToLoad(file: string)
    | Reading(file: string, inode: Inode, got: string, since: nat)
    | Unparseable(file: string)
    | Loaded(file: string, data: AgentData, since: nat)
    | Threw(file: string)

  // `log` lists what the saves published, oldest first; `since` in a load is its length
  // when the load looked the file up.
  datatype State = State(fs: Fs, procs: seq<Proc>, log: seq<(string, AgentData)>)

  datatype Event = Event(proc: nat, amount: nat)

  function StepProc(codec: Codec, st: State, p: Proc, amount: nat): (Fs, Proc, seq<(string, AgentData)>) {
    match p
    case ToSave(file, tmp, d) =>
      var (fs, i) := OpenW(st.fs, tmp);
      (fs, Writing(file, tmp, d, i, 0), st.log)
    case Writing(file, tmp, d, i, w) =>
      var text := codec.dump(d);
      if w < |text| then
        var upTo := if w + 1 + amount <= |text| then w + 1 + amount else |text|;
        (Append(st.fs, i, text[w..upTo]), Writing(file, tmp, d, i, upTo), st.log)
      else
        (Rename(st.fs, tmp, file), Saved(file, tmp, d), st.log + [(file, d)])
    case ToLoad(file) =>
      if file in st.fs.dir then (st.fs, Reading(file, st.fs.dir[file], "", |st.log|), st.log)
      else (st.fs, Loaded(file, EMPTY, |st.log|), st.log)
    case Reading(file, i, got, since) =>
      var text := if i in st.fs.data then st.fs.data[i] else "";
      if |got| < |text| then
        var upTo := if |got| + 1 + amount <= |text| then |got| + 1 + amount else |text|;
        (st.fs, Reading(file, i, got + text[|got|..upTo], since), st.log)
      else
        (match codec.parse(got)
         case Bad => (st.fs, Unparseable(file), st.log)
         case Null => (st.fs, Threw(file), st.log)
         case Shape(tools, artifacts) =>
           (st.fs, Loaded(file, AgentData(OrEmpty(tools), OrEmpty(artifacts)), since), st.log))
    case Unparseable(file) =>
      (Rename(st.fs, file, CorruptName(file, amount)), Loaded(file, EMPTY, |st.log|), st.log)
    case _ => (st.fs, p, st.log)
  }

  function Step(codec: Codec, st: State, e: Event): State {
    if e.proc < |st.procs| then
      var (fs, p, log) := StepProc(codec, st, st.procs[e.proc], e.amount);
      State(fs, st.procs[e.proc := p], log)
    else st
  }

  function RunAll(codec: Codec, st: State, events: seq<Event>): State
    decreases |events|
  {
    if events == [] then st else RunAll(codec, Step(codec, st, events[0]), events[1..])
  }

  // The last thing published under a name.
  function Latest(log: seq<(string, AgentData)>, file: string): Option<AgentData> {
    if log == [] then None
    else if log[|log| - 1].0 == file then Some(log[|log| - 1].1)
    else Latest(log[..|log| - 1], file)
  }

  predicate IsSaver(p: Proc) {
    p.ToSave? || p.Writing? || p.Saved?
  }

  // Distinct temp names, as the per-write pid and random tag give; data files and temps
  // are told apart by their endings.
  ghost predicate Named(st: State) {
    && (forall k | 0 <= k < |st.procs| :: EndsWith(st.procs[k].file, ".json"))
    && (forall k | 0 <= k < |st.procs| && IsSaver(st.procs[k]) :: !EndsWith(st.procs[k].tmp, ".json"))
    && (forall j, k | 0 <= j < k < |st.procs| && IsSaver(st.procs[j]) && IsSaver(st.procs[k]) ::
          st.procs[j].tmp != st.procs[k].tmp)
  }

  ghost predicate Sound(codec: Codec, st: State, p: Proc) {
    match p
    case ToSave(_, tmp, _) => tmp !in st.fs.dir
    case Writing(_, tmp, d, i, w) =>
      && tmp in st.fs.dir && st.fs.dir[tmp] == i && i in st.fs.data
      && w <= |codec.dump(d)| && st.fs.data[i] == codec.dump(d)[..w]
    case Reading(file, i, got, since) =>
      && since <= |st.log| && i in st.fs.data && Latest(st.log[..since], file).Some?
      && st.fs.data[i] == codec.dump(Latest(st.log[..since], file).value)
      && got <= st.fs.data[i]
    case Loaded(file, d, since) =>
      since <= |st.log| && d == (if Latest(st.log[..since], file).Some? then Latest(st.log[..since], file).value else EMPTY)
    case Unparseable(_) => false
    case Threw(_) => false
    case _ => true
  }

  // No reader holds the file a writer is still filling.
  ghost predicate Apart(procs: seq<Proc>) {
    forall j, k | 0 <= j < |procs| && 0 <= k < |procs| && procs[j].Writing? && procs[k].Reading? ::
      procs[j].inode != procs[k].inode
  }

  // Every data file holds one complete serialization: the last one published.
  ghost predicate TargetsWhole(codec: Codec, st: State) {
    forall f | EndsWith(f, ".json") ::
      Read(st.fs, f) == (if Latest(st.log, f).Some? then Some(codec.dump(Latest(st.log, f).value)) else None)
  }

  ghost predicate Inv(codec: Codec, st: State) {
    && WellFormed(st.fs) && Named(st) && Apart(st.procs) && TargetsWhole(codec, st)
    && forall k | 0 <= k < |st.procs| :: Sound(codec, st, st.procs[k])
  }

  // Before any process has begun: every data file is whole and no temp name is taken.
  ghost predicate Clean(codec: Codec, st: State) {
    && WellFormed(st.fs) && Named(st) && TargetsWhole(codec, st)
    && forall k | 0 <= k < |st.procs| ::
         st.procs[k].ToLoad? || (st.procs[k].ToSave? && st.procs[k].tmp !in st.fs.dir)
  }

  // ------------------------------------------------------------------
  // Every step keeps the invariant
  // ------------------------------------------------------------------

  lemma LatestOfLonger(log: seq<(string, AgentData)>, file: string, d: AgentData, f: string, n: nat)
    requires n <= |log|
    ensures Latest(log + [(file, d)], f) == (if f == file then Some(d) else Latest(log, f))
    ensures (log + [(file, d)])[..n] == log[..n]
  {
    assert (log + [(file, d)])[..|log|] == log;
  }

  lemma {:induction false} LatestNames(log: seq<(string, AgentData)>, file: string)
    requires Latest(log, file).Some?
    ensures (file, Latest(log, file).value) in log
  {
    if log[|log| - 1].0 != file { LatestNames(log[..|log| - 1], file); }
  }

  lemma OpenKeeps(codec: Codec, st: State, k: nat, amount: nat)
    requires Inv(codec, st) && k < |st.procs| && st.procs[k].ToSave?
    ensures Inv(codec, Step(codec, st, Event(k, amount)))
  {
    var next := Step(codec, st, Event(k, amount));
    assert Sound(codec, st, st.procs[k]);
    forall j | 0 <= j < |next.procs| && j != k ensures Sound(codec, next, next.procs[j]) {
      assert Sound(codec, st, st.procs[j]);
    }
    forall f | EndsWith(f, ".json")
      ensures Read(next.fs, f) == (if Latest(next.log, f).Some? then Some(codec.dump(Latest(next.log, f).value)) else None)
    {
      assert f != st.procs[k].tmp;
    }
    forall j | 0 <= j < |st.procs| && st.procs[j].Reading? ensures st.procs[j].inode < st.fs.next {
      assert Sound(codec, st, st.procs[j]);
    }
  }

  lemma WriteKeeps(codec: Codec, st: State, k: nat, amount: nat)
    requires Inv(codec, st) && k < |st.procs| && st.procs[k].Writing?
    requires st.procs[k].written < |codec.dump(st.procs[k].payload)|
    ensures Inv(codec, Step(codec, st, Event(k, amount)))
  {
    var next := Step(codec, st, Event(k, amount));
    var p := st.procs[k];
    var text := codec.dump(p.payload);
    assert Sound(codec, st, p);
    var w := next.procs[k].written;
    assert text[..p.written] + text[p.written..w] == text[..w];
    forall j | 0 <= j < |next.procs| && j != k ensures Sound(codec, next, next.procs[j]) {
      assert Sound(codec, st, st.procs[j]);
    }
    forall f | EndsWith(f, ".json")
      ensures Read(next.fs, f) == (if Latest(next.log, f).Some? then Some(codec.dump(Latest(next.log, f).value)) else None)
    {
      assert f != p.tmp;
    }
  }

  lemma PublishKeeps(codec: Codec, st: State, k: nat, amount: nat)
    requires Inv(codec, st) && k < |st.procs| && st.procs[k].Writing?
    requires st.procs[k].written == |codec.dump(st.procs[k].payload)|
    ensures Inv(codec, Step(codec, st, Event(k, amount)))
  {
    var next := Step(codec, st, Event(k, amount));
    var p := st.procs[k];
    assert Sound(codec, st, p) && p.tmp != p.file;
    forall j | 0 <= j < |next.procs| && j != k ensures Sound(codec, next, next.procs[j]) {
      var q := st.procs[j];
      assert Sound(codec, st, q);
      if q.Reading? || q.Loaded? { LatestOfLonger(st.log, p.file, p.payload, q.file, q.since); }
    }
    forall f | EndsWith(f, ".json")
      ensures Read(next.fs, f) == (if Latest(next.log, f).Some? then Some(codec.dump(Latest(next.log, f).value)) else None)
    {
      assert f != p.tmp && codec.dump(p.payload)[..p.written] == codec.dump(p.payload);
      LatestOfLonger(st.log, p.file, p.payload, f, 0);
    }
  }

  // A load touches no file, so what the others rely on stands.
  lemma OthersStand(codec: Codec, st: State, k: nat, p: Proc)
    requires Inv(codec, st) && k < |st.procs| && !IsSaver(st.procs[k])
    requires !IsSaver(p) && p.file == st.procs[k].file
    requires Sound(codec, st, p)
    requires p.Reading? ==> forall j | 0 <= j < |st.procs| && st.procs[j].Writing? :: st.procs[j].inode != p.inode
    ensures Inv(codec, st.(procs := st.procs[k := p]))
  {
    var next := st.(procs := st.procs[k := p]);
    forall j | 0 <= j < |next.procs| ensures Sound(codec, next, next.procs[j]) {
      assert Sound(codec, st, if j == k then p else st.procs[j]);
    }
    assert TargetsWhole(codec, next) by {
      forall f | EndsWith(f, ".json")
        ensures Read(next.fs, f) == (if Latest(next.log, f).Some? then Some(codec.dump(Latest(next.log, f).value)) else None)
      {}
    }
  }

  lemma LookupKeeps(codec: Codec, st: State, k: nat, amount: nat)
    requires Inv(codec, st) && k < |st.procs| && st.procs[k].ToLoad?
    ensures Inv(codec, Step(codec, st, Event(k, amount)))
  {
    var p := st.procs[k];
    assert st.log[..|st.log|] == st.log;
    assert Read(st.fs, p.file) == (if Latest(st.log, p.file).Some? then Some(codec.dump(Latest(st.log, p.file).value)) else None);
    forall j | 0 <= j < |st.procs| && st.procs[j].Writing? && p.file in st.fs.dir
      ensures st.procs[j].inode != st.fs.dir[p.file]
    {
      assert Sound(codec, st, st.procs[j]) && st.procs[j].tmp != p.file;
    }
    OthersStand(codec, st, k, StepProc(codec, st, p, amount).1);
  }

  lemma ReadKeeps(codec: Codec, st: State, k: nat, amount: nat)
    requires ParseUndoesPrint(codec)
    requires Inv(codec, st) && k < |st.procs| && st.procs[k].Reading?
    ensures Inv(codec, Step(codec, st, Event(k, amount)))
  {
    var p := st.procs[k];
    assert Sound(codec, st, p);
    var text, next := st.fs.data[p.inode], StepProc(codec, st, p, amount).1;
    if |p.got| < |text| {
      assert next.got == text[..|next.got|];
    } else {
      assert p.got == text;
    }
    OthersStand(codec, st, k, next);
  }

  lemma StepKeeps(codec: Codec, st: State, e: Event)
    requires ParseUndoesPrint(codec) && Inv(codec, st)
    ensures Inv(codec, Step(codec, st, e))
  {
    if e.proc < |st.procs| {
      var p := st.procs[e.proc];
      assert Sound(codec, st, p);
      match p {
        case ToSave(_, _, _) => OpenKeeps(codec, st, e.proc, e.amount);
        case Writing(_, _, d, _, w) =>
          if w < |codec.dump(d)| {
            WriteKeeps(codec, st, e.proc, e.amount);
          } else {
            PublishKeeps(codec, st, e.proc, e.amount);
          }
        case ToLoad(_) => LookupKeeps(codec, st, e.proc, e.amount);
        case Reading(_, _, _, _) => ReadKeeps(codec, st, e.proc, e.amount);
        case Saved(_, _, _) => assert Step(codec, st, e).procs == st.procs;
        case Loaded(_, _, _) => assert Step(codec, st, e).procs == st.procs;
        case _ =>
      }
    }
  }

  lemma {:induction false} RunKeeps(codec: Codec, st: State, events: seq<Event>)
    requires ParseUndoesPrint(codec) && Inv(codec, st)
    ensures Inv(codec, RunAll(codec, st, events))
    decreases |events|
  {
    if events != [] {
      StepKeeps(codec, st, events[0]);
      RunKeeps(codec, Step(codec, st, events[0]), events[1..]);
    }
  }

  // From a clean start, under every interleaving and with any process dying between any
  // two steps: each data file is absent or exactly the last complete serialization
  // published for it; no load finds bytes it cannot parse, so none quarantines or throws;
  // and a finished load returns what was the last published data when it looked the file up.
  lemma NoTornReads(codec: Codec, st: State, events: seq<Event>)
    requires ParseUndoesPrint(codec) && Clean(codec, st)
    ensures var end := RunAll(codec, st, events);
      && TargetsWhole(codec, end)
      && forall k | 0 <= k < |end.procs| ::
        && !end.procs[k].Unparseable? && !end.procs[k].Threw?
        && (end.procs[k].Loaded? ==>
              end.procs[k].since <= |end.log| &&
              end.procs[k].data ==
                match Latest(end.log[..end.procs[k].since], end.procs[k].file)
                case Some(d) => d
                case None => EMPTY)
  {
    assert Inv(codec, st);
    RunKeeps(codec, st, events);
    var end := RunAll(codec, st, events);
    forall k | 0 <= k < |end.procs| ensures Sound(codec, end, end.procs[k]) {}
  }

  // Why the temp name must be the write's own: two saves sharing one leave an empty data
  // file behind, under every pair of payloads that print to something.
  lemma SharedTempTears(codec: Codec, file: string, tmp: string, a: AgentData, b: AgentData)
    requires file != tmp && codec.dump(a) != ""
    ensures exists events ::
      var end := RunAll(codec, State(Fs(map[], map[], 0), [ToSave(file, tmp, a), ToSave(file, tmp, b)], []), events);
      end.log == [(file, a)] && Read(end.fs, file) == Some("")
  {
    var s0 := State(Fs(map[], map[], 0), [ToSave(file, tmp, a), ToSave(file, tmp, b)], []);
    var e0, e1, e2 := Event(0, 0), Event(0, |codec.dump(a)|), Event(1, 0);
    var s1 := Step(codec, s0, e0);
    var s2 := Step(codec, s1, e1);
    var s3 := Step(codec, s2, e2);
    var s4 := Step(codec, s3, e0);
    RunFour(codec, s0, e0, e1, e2, e0);
    assert s2.procs[0] == Writing(file, tmp, a, 0, |codec.dump(a)|);
    assert s3.fs.data[0] == "" && s3.fs.dir == map[tmp := 0];
    assert RunAll(codec, s0, [e0, e1, e2, e0]) == s4;
  }

  lemma RunFour(codec: Codec, st: State, a: Event, b: Event, c: Event, d: Event)
    ensures RunAll(codec, st, [a, b, c, d]) == Step(codec, Step(codec, Step(codec, Step(codec, st, a), b), c), d)
  {
    assert [a, b, c, d][1..] == [b, c, d] && [b, c, d][1..] == [c, d] && [c, d][1..] == [d] && [d][1..] == [];
    assert RunAll(codec, Step(codec, Step(codec, st, a), b), [c, d])
        == RunAll(codec, Step(codec, Step(codec, Step(codec, st, a), b), c), [d]);
  }

  // ------------------------------------------------------------------
  // Tools
  // ------------------------------------------------------------------

  function FindTool(tools: seq<Tool>, name: string): Option<Tool> {
    if tools == [] then None else if tools[0].name == name then Some(tools[0]) else FindTool(tools[1..], name)
  }

  // The stored tool: one version past the tool it replaces.
  function NextVersion(tools: seq<Tool>, name: string, code: string): Tool {
    var found := FindTool(tools, name);
    Tool(name, code, if found.Some? then found.value.version + 1 else 1)
  }

  function Replaced(tools: seq<Tool>, stored: Tool): seq<Tool> {
    seq(|tools|, i requires 0 <= i < |tools| => if tools[i].name == stored.name then stored else tools[i])
  }

  function Upserted(tools: seq<Tool>, name: string, code: string): seq<Tool> {
    var stored := NextVersion(tools, name, code);
    if FindTool(tools, name).Some? then Replaced(tools, stored) else tools + [stored]
  }

  function UpsertAll(tools: seq<Tool>, history: seq<(string, string)>): seq<Tool> {
    if history == [] then tools
    else
      var last := history[|history| - 1];
      Upserted(UpsertAll(tools, history[..|history| - 1]), last.0, last.1)
  }

  // How often a name was authored, and with what code last.
  function Authored(history: seq<(string, string)>, name: string): nat {
    if history == [] then 0
    else Authored(history[..|history| - 1], name) + (if history[|history| - 1].0 == name then 1 else 0)
  }

  function LastCode(history: seq<(string, string)>, name: string): string {
    if history == [] then ""
    else if history[|history| - 1].0 == name then history[|history| - 1].1
    else LastCode(history[..|history| - 1], name)
  }

  lemma {:induction false} FoundAt(tools: seq<Tool>, name: string)
    ensures FindTool(tools, name).Some? ==> FindTool(tools, name).value in tools && FindTool(tools, name).value.name == name
    ensures FindTool(tools, name).None? ==> forall t <- tools :: t.name != name
  {
    if tools != [] { FoundAt(tools[1..], name); }
  }

  lemma {:induction false} FindAfter(tools: seq<Tool>, name: string, code: string, other: string)
    ensures FindTool(Upserted(tools, name, code), other)
         == (if other == name then Some(NextVersion(tools, name, code)) else FindTool(tools, other))
  {
    if FindTool(tools, name).Some? {
      FindReplaced(tools, NextVersion(tools, name, code), other);
      FoundAt(tools, name);
    } else {
      FindAppended(tools, NextVersion(tools, name, code), other);
    }
  }

  lemma {:induction false} FindReplaced(tools: seq<Tool>, stored: Tool, other: string)
    ensures FindTool(Replaced(tools, stored), other)
         == (if other == stored.name && FindTool(tools, other).Some? then Some(stored) else FindTool(tools, other))
  {
    if tools != [] {
      FindReplaced(tools[1..], stored, other);
      assert Replaced(tools, stored)[1..] == Replaced(tools[1..], stored);
    }
  }

  lemma {:induction false} FindAppended(tools: seq<Tool>, t: Tool, other: string)
    ensures FindTool(tools + [t], other)
         == (if FindTool(tools, other).None? && t.name == other then Some(t) else FindTool(tools, other))
  {
    if tools == [] {
      assert (tools + [t])[1..] == [];
    } else {
      FindAppended(tools[1..], t, other);
      assert (tools + [t])[1..] == tools[1..] + [t];
    }
  }

  // After any history of authoring, each tool's version counts how often it was authored
  // and its code is the last authored; no name is stored twice.
  lemma {:induction false} VersionsCountAuthoring(history: seq<(string, string)>)
    ensures forall name ::
      FindTool(UpsertAll([], history), name) ==
        if Authored(history, name) == 0 then None
        else Some(Tool(name, LastCode(history, name), Authored(history, name)))
    ensures NamesDiffer(UpsertAll([], history))
  {
    if history != [] {
      var before, last := UpsertAll([], history[..|history| - 1]), history[|history| - 1];
      VersionsCountAuthoring(history[..|history| - 1]);
      forall name ensures FindTool(UpsertAll([], history), name)
        == (if Authored(history, name) == 0 then None
            else Some(Tool(name, LastCode(history, name), Authored(history, name))))
      {
        FindAfter(before, last.0, last.1, name);
      }
      FoundAt(before, last.0);
    }
  }

  // Storing a tool leaves every other where it was. A tool stored before is replaced in its
  // place, one version on; a new one goes last, as version 1.
  lemma UpsertedAt(tools: seq<Tool>, name: string, code: string)
    requires NamesDiffer(tools)
    ensures var now := Upserted(tools, name, code);
      && |now| == |tools| + (if exists t <- tools :: t.name == name then 0 else 1)
      && (forall i | 0 <= i < |tools| ::
            now[i] == if tools[i].name == name then Tool(name, code, tools[i].version + 1) else tools[i])
      && (|now| > |tools| ==> now[|tools|] == Tool(name, code, 1))
  {
    FoundAt(tools, name);
  }

  ghost predicate NamesDiffer(tools: seq<Tool>) {
    forall i, j | 0 <= i < j < |tools| :: tools[i].name != tools[j].name
  }

  // ------------------------------------------------------------------
  // The store, one operation at a time
  // ------------------------------------------------------------------

  // What `load` makes of a file's bytes; None when reading its sections throws.
  function Interpret(codec: Codec, raw: Option<string>): Option<AgentData> {
    match raw
    case None => Some(EMPTY)
    case Some(text) =>
      match codec.parse(text)
      case Bad => Some(EMPTY)
      case Null => None
      case Shape(tools, artifacts) => Some(AgentData(OrEmpty(tools), OrEmpty(artifacts)))
  }

  // Reading the sections throws exactly when the file holds something that parses as null;
  // nothing that `save` prints does.
  lemma LoadThrowsExactly(codec: Codec, raw: Option<string>)
    ensures Interpret(codec, raw) == None <==> raw.Some? && codec.parse(raw.value) == Null
    ensures ParseUndoesPrint(codec) && Interpret(codec, raw) == None ==> forall d :: raw != Some(codec.dump(d))
  {
  }

  // What is saved is what is loaded. A missing file, one that does not parse and a missing
  // section all read as empty.
  lemma LoadedBack(codec: Codec, raw: Option<string>, d: AgentData)
    ensures ParseUndoesPrint(codec) && raw == Some(codec.dump(d)) ==> Interpret(codec, raw) == Some(d)
    ensures raw.None? || codec.parse(raw.value).Bad? ==> Interpret(codec, raw) == Some(AgentData([], []))
    ensures raw.Some? && codec.parse(raw.value) == Shape(None, Some(d.artifacts)) ==>
      Interpret(codec, raw) == Some(AgentData([], d.artifacts))
    ensures raw.Some? && codec.parse(raw.value) == Shape(Some(d.tools), None) ==>
      Interpret(codec, raw) == Some(AgentData(d.tools, []))
  {
  }

  // A file holding null makes the process that loads it throw, and stays as it is.
  lemma NullFileThrows(codec: Codec, file: string, text: string)
    requires codec.parse(text) == Null
    ensures exists events ::
      var start := State(Fs(map[file := 0], map[0 := text], 1), [ToLoad(file)], []);
      var end := RunAll(codec, start, events);
      end.procs == [Threw(file)] && end.fs == start.fs
  {
    var s0 := State(Fs(map[file := 0], map[0 := text], 1), [ToLoad(file)], []);
    var e := Event(0, |text|);
    var s1 := Step(codec, s0, e);
    var s2 := Step(codec, s1, e);
    assert s1.procs[0] == Reading(file, 0, "", 0);
    assert text == "" || s2.procs[0] == Reading(file, 0, text, 0);
    var s3 := Step(codec, s2, e);
    assert s3.procs == [Threw(file)];
    assert RunAll(codec, s0, [e, e, e]) == s3 by {
      assert [e, e, e][1..] == [e, e] && [e, e][1..] == [e] && [e][1..] == [];
      assert RunAll(codec, s1, [e, e]) == RunAll(codec, s2, [e]);
    }
  }

  // Opening a new temp file, writing it and renaming it over the target.
  lemma SaveSteps(fs: Fs, file: string, tmp: string, text: string)
    requires WellFormed(fs) && tmp != file && tmp !in fs.dir
    ensures var (withTemp, inode) := OpenW(fs, tmp);
      var end := Rename(Append(withTemp, inode, text), tmp, file);
      && WellFormed(end) && Read(end, file) == Some(text) && end.dir.Keys == fs.dir.Keys + {file}
      && forall n | n != file :: Read(end, n) == Read(fs, n)
  {
    TempWritten(fs, tmp, text);
    var (withTemp, inode) := OpenW(fs, tmp);
    RenamedOver(Append(withTemp, inode, text), tmp, file);
  }

  lemma TempWritten(fs: Fs, tmp: string, text: string)
    requires WellFormed(fs) && tmp !in fs.dir
    ensures var (withTemp, inode) := OpenW(fs, tmp);
      var end := Append(withTemp, inode, text);
      && WellFormed(end) && Read(end, tmp) == Some(text) && end.dir.Keys == fs.dir.Keys + {tmp}
      && forall n | n != tmp :: Read(end, n) == Read(fs, n)
  {
    assert "" + text == text;
  }

  lemma RenamedOver(fs: Fs, tmp: string, file: string)
    requires WellFormed(fs) && tmp != file && tmp in fs.dir
    ensures var end := Rename(fs, tmp, file);
      && WellFormed(end) && Read(end, file) == Read(fs, tmp) && end.dir.Keys == fs.dir.Keys - {tmp} + {file}
      && Read(end, tmp) == None && forall n | n != file && n != tmp :: Read(end, n) == Read(fs, n)
  {
  }

  class Store {
    const codec: Codec
    var fs: Fs

    constructor (codec: Codec)
      ensures this.codec == codec && WellFormed(fs) && fs.dir == map[]
    {
      this.codec := codec;
      fs := Fs(map[], map[], 0);
    }

    method Save(file: string, tmp: string, payload: AgentData)
      requires WellFormed(fs) && tmp != file && tmp !in fs.dir
      modifies this
      ensures WellFormed(fs)
      ensures Read(fs, file) == Some(codec.dump(payload))
      ensures forall n | n != file :: Read(fs, n) == old(Read(fs, n))
      ensures fs.dir.Keys == old(fs.dir.Keys) + {file}
    {
      var (withTemp, inode) := OpenW(fs, tmp);
      SaveSteps(fs, file, tmp, codec.dump(payload));
      fs := Append(withTemp, inode, codec.dump(payload));
      fs := Rename(fs, tmp, file);
    }

    // Bytes that do not parse are moved aside whole; anything else stays put.
    method Load(file: string, now: nat) returns (r: Option<AgentData>)
      requires WellFormed(fs)
      modifies this
      ensures WellFormed(fs)
      ensures r == Interpret(codec, old(Read(fs, file)))
      ensures
        if old(Read(fs, file)).Some? && codec.parse(old(Read(fs, file)).value).Bad? then
          && Read(fs, file) == None && Read(fs, CorruptName(file, now)) == old(Read(fs, file))
          && (forall n | n != file && n != CorruptName(file, now) :: Read(fs, n) == old(Read(fs, n)))
          && fs.dir.Keys == old(fs.dir.Keys) - {file} + {CorruptName(file, now)}
        else fs == old(fs)
    {
      var raw := Read(fs, file);
      if raw.None? { return Some(EMPTY); }
      var parsed := codec.parse(raw.value);
      match parsed {
        case Bad =>
          Quarantine(file, now);
          return Some(EMPTY);
        case Null => return None;
        case Shape(tools, artifacts) =>
          return Some(AgentData(OrEmpty(tools), OrEmpty(artifacts)));
      }
    }

    method Quarantine(file: string, now: nat)
      requires WellFormed(fs) && Read(fs, file).Some?
      modifies this
      ensures WellFormed(fs)
      ensures Read(fs, file) == None && Read(fs, CorruptName(file, now)) == old(Read(fs, file))
      ensures forall n | n != file && n != CorruptName(file, now) :: Read(fs, n) == old(Read(fs, n))
      ensures fs.dir.Keys == old(fs.dir.Keys) - {file} + {CorruptName(file, now)}
    {
      assert |CorruptName(file, now)| > |file|;
      fs := Rename(fs, file, CorruptName(file, now));
    }

    method UpsertTool(file: string, tmp: string, now: nat, name: string, code: string) returns (r: Option<Tool>)
      requires WellFormed(fs) && tmp !in fs.dir && tmp != file && tmp != CorruptName(file, now)
      modifies this
      ensures WellFormed(fs)
      ensures var d := Interpret(codec, old(Read(fs, file)));
        if d.None? then r == None && fs == old(fs)
        else
          && r == Some(NextVersion(d.value.tools, name, code))
          && Read(fs, file) == Some(codec.dump(d.value.(tools := Upserted(d.value.tools, name, code))))
      ensures forall n | n != file && n != CorruptName(file, now) :: Read(fs, n) == old(Read(fs, n))
    {
      var d := Load(file, now);
      if d.None? { return None; }
      var existing := FindTool(d.value.tools, name);
      var stored := Tool(name, code, if existing.Some? then existing.value.version + 1 else 1);
      var tools :=
        if existing.Some? then Replaced(d.value.tools, stored) else d.value.tools + [stored];
      Save(file, tmp, d.value.(tools := tools));
      r := Some(stored);
    }

    // `tag` is the random part of the new id, `at` the time of storing.
    method AddArtifact(file: string, tmp: string, now: nat, body: string, tag: string, at: string)
      returns (r: Option<Artifact>)
      requires WellFormed(fs) && tmp !in fs.dir && tmp != file && tmp != CorruptName(file, now)
      modifies this
      ensures WellFormed(fs)
      ensures var d := Interpret(codec, old(Read(fs, file)));
        if d.None? then r == None && fs == old(fs)
        else
          && r == Some(Artifact("art_" + tag, at, body))
          && Read(fs, file) == Some(codec.dump(d.value.(artifacts := d.value.artifacts + [r.value])))
      ensures forall n | n != file && n != CorruptName(file, now) :: Read(fs, n) == old(Read(fs, n))
    {
      var d := Load(file, now);
      if d.None? { return None; }
      var stored := Artifact("art_" + tag, at, body);
      Save(file, tmp, d.value.(artifacts := d.value.artifacts + [stored]));
      r := Some(stored);
    }
  }
}
