/** The tool run as a protocol: a worker isolate posts numbered capability calls,
    the host executes them behind the send-gate and posts replies back, while a
    timer, a worker error and the tool's own result race to settle the run.
    Every interleaving is a list of events. */
module ToolRpc {
  import opened Wrappers

  // What crosses `postMessage`: plain data, represented by its JSON text.
  type Value = string

  datatype Call = Call(path: string, args: seq<Value>)
  datatype Outcome = Resolved(value: Value) | Rejected(detail: string)
  datatype WorkerMsg = CapMsg(id: nat, call: Call) | DoneMsg(result: string) | ErrMsg(detail: string)
  datatype Reply = Reply(id: nat, outcome: Outcome)

  datatype RunResult =
    | RunOk(result: string, actions: seq<string>)
    | RunNeedsApproval(capability: string, detail: string, actions: seq<string>)
    | RunError(detail: string, actions: seq<string>)

  // One run's fixed parameters. `plain`, `actionLabel` and `gateDetail` are the
  // formatting helpers; nothing is assumed about them.
  datatype Config = Config(
    table: set<string>,
    gated: set<string>,
    approved: bool,
    plain: Value -> Value,
    actionLabel: Call -> string,
    gateDetail: Call -> string)

  const TIMEOUT_DETAIL := "this took too long, so the run was stopped — try again, or ask for something smaller"
  const CRASH_DETAIL := "the run stopped unexpectedly — nothing was sent; try again"
  const UNKNOWN_PREFIX := "unknown capability: "

  // ------------------------------------------------------------------
  // The host
  // ------------------------------------------------------------------

  datatype HostState = HostState(
    settled: Option<RunResult>,
    actions: seq<string>,
    inflight: map<nat, Call>,
    aborted: bool)

  // A host step's effects: replies posted and capability functions started.
  datatype HostOut = HostOut(host: HostState, replies: seq<Reply>, started: seq<(nat, Call)>)

  predicate Blocked(cfg: Config, call: Call) {
    call.path in cfg.table && call.path in cfg.gated && !cfg.approved
  }

  function Settle(h: HostState, r: RunResult): HostState {
    if h.settled.Some? then h else h.(settled := Some(r), aborted := true)
  }

  function HostOnCap(cfg: Config, h: HostState, id: nat, call: Call): HostOut {
    if h.settled.Some? then HostOut(h, [], [])
    else if call.path !in cfg.table then
      HostOut(h, [Reply(id, Rejected(UNKNOWN_PREFIX + call.path))], [])
    else
      var h1 := h.(actions := h.actions + [cfg.actionLabel(call)]);
      if Blocked(cfg, call) then
        HostOut(Settle(h1, RunNeedsApproval(call.path, cfg.gateDetail(call), h1.actions)), [], [])
      else
        HostOut(h1.(inflight := h1.inflight[id := call]), [], [(id, call)])
  }

  function HostOnMessage(cfg: Config, h: HostState, m: WorkerMsg): HostOut {
    match m
    case DoneMsg(result) => HostOut(Settle(h, RunOk(result, h.actions)), [], [])
    case ErrMsg(detail) => HostOut(Settle(h, RunError(detail, h.actions)), [], [])
    case CapMsg(id, call) => HostOnCap(cfg, h, id, call)
  }

  // What the host posts for a settled capability promise.
  function Posted(cfg: Config, o: Outcome): Outcome {
    if o.Resolved? then Resolved(cfg.plain(o.value)) else o
  }

  function HostOnOutcome(cfg: Config, h: HostState, id: nat, o: Outcome): HostOut {
    if id !in h.inflight then HostOut(h, [], [])
    else
      var h1 := h.(inflight := h.inflight - {id});
      HostOut(h1, if h.settled.Some? then [] else [Reply(id, Posted(cfg, o))], [])
  }

  function HostOnTimer(h: HostState): HostState {
    Settle(h, RunError(TIMEOUT_DETAIL, h.actions))
  }

  function HostOnError(h: HostState, message: string): HostState {
    Settle(h, RunError(if message != "" then message else CRASH_DETAIL, h.actions))
  }

  // ------------------------------------------------------------------
  // The worker
  // ------------------------------------------------------------------

  datatype WorkerState = WorkerState(seqNo: nat, pending: set<nat>)

  function PlainArgs(cfg: Config, args: seq<Value>): seq<Value> {
    seq(|args|, i requires 0 <= i < |args| => cfg.plain(args[i]))
  }

  function WorkerCall(cfg: Config, w: WorkerState, path: string, args: seq<Value>): (WorkerState, WorkerMsg) {
    var id := w.seqNo + 1;
    (WorkerState(id, w.pending + {id}), CapMsg(id, Call(path, PlainArgs(cfg, args))))
  }

  // A reply settles the promise it names, or nothing when none is waiting.
  function WorkerOnReply(w: WorkerState, r: Reply): (WorkerState, Option<Outcome>) {
    if r.id !in w.pending then (w, None)
    else (w.(pending := w.pending - {r.id}), Some(r.outcome))
  }

  // ------------------------------------------------------------------
  // The two sides and their queues
  // ------------------------------------------------------------------

  datatype Event =
    | ToolCalls(path: string, args: seq<Value>)   // tool code invokes a proxy
    | ToolReturns(result: string)                 // the worker posts "done"
    | ToolThrows(detail: string)                  // the worker posts "err"
    | HostReads                                   // the host handles its next message
    | CapabilitySettles(id: nat, outcome: Outcome)
    | WorkerReads                                 // the worker handles its next reply
    | TimerFires
    | WorkerErrors(message: string)

  // What happened so far; no step reads it.
  datatype History = History(
    posted: seq<Call>,                      // posted[k - 1] is the call with id k
    handled: nat,                           // calls handled while the run was unsettled
    started: seq<(nat, Call)>,              // capability functions started
    settlements: seq<(nat, Outcome)>,       // what each capability function settled with
    answered: seq<(nat, Call, Outcome)>,    // replies posted, with the call the host executed
    resolved: seq<(nat, Outcome)>)          // promises settled in the worker

  datatype System = System(
    host: HostState,
    worker: WorkerState,
    toHost: seq<WorkerMsg>,
    toWorker: seq<Reply>,
    log: History)

  const INITIAL := System(
    HostState(None, [], map[], false), WorkerState(0, {}), [], [],
    History([], 0, [], [], [], []))

  function DeliverToHost(cfg: Config, s: System): System
    requires s.toHost != []
  {
    var m := s.toHost[0];
    var out := HostOnMessage(cfg, s.host, m);
    var counted := if m.CapMsg? && s.host.settled.None? then 1 else 0;
    s.(host := out.host,
       toHost := s.toHost[1..],
       toWorker := s.toWorker + out.replies,
       log := s.log.(handled := s.log.handled + counted,
                     started := s.log.started + out.started,
                     answered := s.log.answered +
                       (if m.CapMsg? && out.replies != [] then [(m.id, m.call, out.replies[0].outcome)] else [])))
  }

  function SettleCapability(cfg: Config, s: System, id: nat, o: Outcome): System {
    var out := HostOnOutcome(cfg, s.host, id, o);
    s.(host := out.host,
       toWorker := s.toWorker + out.replies,
       log := s.log.(settlements := s.log.settlements + (if id in s.host.inflight then [(id, o)] else []),
                     answered := s.log.answered +
                       (if id in s.host.inflight && out.replies != []
                        then [(id, s.host.inflight[id], out.replies[0].outcome)] else [])))
  }

  function DeliverToWorker(s: System): System
    requires s.toWorker != []
  {
    var r := s.toWorker[0];
    var (w, o) := WorkerOnReply(s.worker, r);
    s.(worker := w,
       toWorker := s.toWorker[1..],
       log := s.log.(resolved := s.log.resolved + (if o.Some? then [(r.id, o.value)] else [])))
  }

  // An event that is not enabled leaves the system as it is.
  function Step(cfg: Config, s: System, e: Event): System {
    match e
    case ToolCalls(path, args) =>
      var (w, m) := WorkerCall(cfg, s.worker, path, args);
      s.(worker := w, toHost := s.toHost + [m],
         log := s.log.(posted := s.log.posted + [Call(path, PlainArgs(cfg, args))]))
    case ToolReturns(result) => s.(toHost := s.toHost + [DoneMsg(result)])
    case ToolThrows(detail) => s.(toHost := s.toHost + [ErrMsg(detail)])
    case HostReads => if s.toHost == [] then s else DeliverToHost(cfg, s)
    case CapabilitySettles(id, o) => SettleCapability(cfg, s, id, o)
    case WorkerReads => if s.toWorker == [] then s else DeliverToWorker(s)
    case TimerFires => s.(host := HostOnTimer(s.host))
    case WorkerErrors(message) => s.(host := HostOnError(s.host, message))
  }

  function Run(cfg: Config, s: System, events: seq<Event>): System
    decreases |events|
  {
    if events == [] then s else Run(cfg, Step(cfg, s, events[0]), events[1..])
  }

  function Reached(cfg: Config, events: seq<Event>): System {
    Run(cfg, INITIAL, events)
  }

  // ------------------------------------------------------------------
  // Run safety: one settlement, and nothing starts or is recorded after it
  // ------------------------------------------------------------------

  lemma {:induction false} RunAppend(cfg: Config, s: System, a: seq<Event>, b: seq<Event>)
    ensures Run(cfg, s, a + b) == Run(cfg, Run(cfg, s, a), b)
    decreases |a|
  {
    if a == [] {
      assert a + b == b;
    } else {
      assert (a + b)[0] == a[0] && (a + b)[1..] == a[1..] + b;
      RunAppend(cfg, Step(cfg, s, a[0]), a[1..], b);
    }
  }

  lemma {:induction false} SettledIsFinal(cfg: Config, s: System, events: seq<Event>)
    requires s.host.settled.Some?
    ensures var t := Run(cfg, s, events);
      && t.host.settled == s.host.settled
      && t.host.actions == s.host.actions
      && t.host.aborted == s.host.aborted
      && t.log.started == s.log.started
      && t.log.answered == s.log.answered
      && t.log.handled == s.log.handled
    decreases |events|
  {
    if events != [] {
      SettledIsFinal(cfg, Step(cfg, s, events[0]), events[1..]);
    }
  }

  // The recorded actions, as a function of the calls handled.
  function ActionsOf(cfg: Config, calls: seq<Call>): seq<string> {
    if calls == [] then []
    else
      var n := |calls| - 1;
      ActionsOf(cfg, calls[..n]) + (if calls[n].path in cfg.table then [cfg.actionLabel(calls[n])] else [])
  }

  // The capability functions started, with their ids.
  function StartedOf(cfg: Config, calls: seq<Call>): seq<(nat, Call)> {
    if calls == [] then []
    else
      var n := |calls| - 1;
      StartedOf(cfg, calls[..n]) +
      (if calls[n].path in cfg.table && (calls[n].path in cfg.gated ==> cfg.approved) then [(n + 1, calls[n])] else [])
  }

  ghost predicate NoneBlocked(cfg: Config, calls: seq<Call>) {
    forall c <- calls :: !Blocked(cfg, c)
  }

  // The ids the host has still to read: consecutive, in posting order.
  ghost predicate Queued(s: System, from: nat) {
    && from <= |s.log.posted|
    && CapIds(s.toHost) == seq(|s.log.posted| - from, i => from + i + 1)
    && (forall m <- s.toHost | m.CapMsg? :: 1 <= m.id <= |s.log.posted| && m.call == s.log.posted[m.id - 1])
  }

  function CapIds(q: seq<WorkerMsg>): (ids: seq<nat>)
  {
    if q == [] then []
    else (if q[0].CapMsg? then [q[0].id] else []) + CapIds(q[1..])
  }

  function ReplyIds(q: seq<Reply>): seq<nat> {
    seq(|q|, i requires 0 <= i < |q| => q[i].id)
  }

  lemma {:induction false} CapIdsAppend(q: seq<WorkerMsg>, m: WorkerMsg)
    ensures CapIds(q + [m]) == CapIds(q) + (if m.CapMsg? then [m.id] else [])
  {
    if q != [] {
      assert (q + [m])[1..] == q[1..] + [m];
      CapIdsAppend(q[1..], m);
    } else {
      assert (q + [m])[1..] == [];
    }
  }

  // `n` calls were handled before the run settled, and they decide everything
  // the operator is shown.
  ghost predicate GateInv(cfg: Config, s: System) {
    var n, posted := s.log.handled, s.log.posted;
    && n <= |posted|
    && s.worker.seqNo == |posted|
    && s.host.actions == ActionsOf(cfg, posted[..n])
    && s.log.started == StartedOf(cfg, posted[..n])
    && (s.host.settled.None? ==> Queued(s, n) && NoneBlocked(cfg, posted[..n]))
    && (s.host.settled.Some? <==> s.host.aborted)
    && (s.host.settled.Some? ==>
          && s.host.settled.value.actions == s.host.actions
          && (if s.host.settled.value.RunNeedsApproval? then
                && n > 0 && Blocked(cfg, posted[n - 1]) && NoneBlocked(cfg, posted[..n - 1])
                && s.host.settled.value.capability == posted[n - 1].path
                && s.host.settled.value.detail == cfg.gateDetail(posted[n - 1])
              else NoneBlocked(cfg, posted[..n])))
  }

  lemma GateStepPost(cfg: Config, s: System, path: string, args: seq<Value>)
    requires GateInv(cfg, s)
    ensures GateInv(cfg, Step(cfg, s, ToolCalls(path, args)))
  {
    var t := Step(cfg, s, ToolCalls(path, args));
    var n := s.log.handled;
    assert t.log.posted[..n] == s.log.posted[..n];
    if n > 0 { assert t.log.posted[..n - 1] == s.log.posted[..n - 1]; }
    CapIdsAppend(s.toHost, t.toHost[|s.toHost|]);
    if s.host.settled.None? {
      forall m <- t.toHost | m.CapMsg?
        ensures 1 <= m.id <= |t.log.posted| && m.call == t.log.posted[m.id - 1]
      {
        assert m in s.toHost || m == t.toHost[|s.toHost|];
      }
    }
  }

  // Reading one message leaves a queue that starts at the next id.
  lemma QueuedRead(s: System, n: nat, t: System)
    requires Queued(s, n) && s.toHost != []
    requires t.toHost == s.toHost[1..] && t.log.posted == s.log.posted
    ensures if s.toHost[0].CapMsg? then
              n < |s.log.posted| && s.toHost[0].id == n + 1 && s.toHost[0].call == s.log.posted[n] && Queued(t, n + 1)
            else Queued(t, n)
  {
    var m := s.toHost[0];
    assert m in s.toHost && forall x <- t.toHost :: x in s.toHost;
    if m.CapMsg? {
      assert CapIds(s.toHost)[0] == m.id;
      assert CapIds(t.toHost) == CapIds(s.toHost)[1..];
    }
  }

  lemma GateStepCap(cfg: Config, s: System)
    requires GateInv(cfg, s) && s.toHost != [] && s.toHost[0].CapMsg? && s.host.settled.None?
    ensures GateInv(cfg, DeliverToHost(cfg, s))
  {
    var n, posted := s.log.handled, s.log.posted;
    QueuedRead(s, n, DeliverToHost(cfg, s));
    assert posted[..n + 1][..n] == posted[..n];
    assert posted[..n + 1] == posted[..n] + [posted[n]];
  }

  lemma GateStepRead(cfg: Config, s: System)
    requires GateInv(cfg, s) && s.toHost != []
    ensures GateInv(cfg, DeliverToHost(cfg, s))
  {
    if s.host.settled.None? {
      if s.toHost[0].CapMsg? {
        GateStepCap(cfg, s);
      } else {
        QueuedRead(s, s.log.handled, DeliverToHost(cfg, s));
      }
    }
  }

  lemma GateStep(cfg: Config, s: System, e: Event)
    requires GateInv(cfg, s)
    ensures GateInv(cfg, Step(cfg, s, e))
  {
    match e
    case ToolCalls(path, args) => GateStepPost(cfg, s, path, args);
    case HostReads => if s.toHost != [] { GateStepRead(cfg, s); }
    case ToolReturns(result) =>
      CapIdsAppend(s.toHost, DoneMsg(result));
    case ToolThrows(detail) =>
      CapIdsAppend(s.toHost, ErrMsg(detail));
    case _ =>
  }

  lemma {:induction false} GateRun(cfg: Config, s: System, events: seq<Event>)
    requires GateInv(cfg, s)
    ensures GateInv(cfg, Run(cfg, s, events))
    decreases |events|
  {
    if events != [] {
      GateStep(cfg, s, events[0]);
      GateRun(cfg, Step(cfg, s, events[0]), events[1..]);
    }
  }

  // Over every interleaving: the run's visible record is exactly the labels of
  // the known calls handled, in posting order; a gated capability starts only in
  // an approved run; and the run ends "needs approval" exactly when it handled a
  // gated call without approval, naming that call.
  lemma SendGate(cfg: Config, events: seq<Event>)
    ensures Reached(cfg, events).log.handled <= |Reached(cfg, events).log.posted|
    ensures var s := Reached(cfg, events);
      var calls := s.log.posted[..s.log.handled];
      && s.host.actions == ActionsOf(cfg, calls)
      && s.log.started == StartedOf(cfg, calls)
      && (forall x <- s.log.started :: x.1.path in cfg.table && (x.1.path in cfg.gated ==> cfg.approved))
      && ((exists c <- calls :: c.path in cfg.table && c.path in cfg.gated && !cfg.approved)
          <==> s.host.settled.Some? && s.host.settled.value.RunNeedsApproval?)
      && (s.host.settled.Some? ==> s.host.settled.value.actions == s.host.actions)
      && (s.host.settled.Some? && s.host.settled.value.RunNeedsApproval? ==>
            && calls != [] && Blocked(cfg, calls[|calls| - 1])
            && s.host.settled.value.capability == calls[|calls| - 1].path
            && s.host.settled.value.detail == cfg.gateDetail(calls[|calls| - 1]))
  {
    assert INITIAL.log.posted[..0] == [];
    GateRun(cfg, INITIAL, events);
    var s := Reached(cfg, events);
    var n := s.log.handled;
    var calls := s.log.posted[..n];
    StartedUngated(cfg, calls);
    if s.host.settled.Some? && s.host.settled.value.RunNeedsApproval? {
      assert calls[n - 1] in calls;
    }
  }

  lemma {:induction false} StartedUngated(cfg: Config, calls: seq<Call>)
    ensures forall x <- StartedOf(cfg, calls) ::
      && x.1.path in cfg.table && !Blocked(cfg, x.1)
      && 1 <= x.0 <= |calls| && x.1 == calls[x.0 - 1]
  {
    if calls != [] { StartedUngated(cfg, calls[..|calls| - 1]); }
  }

  // A run settles at most once: whatever the first settlement was, no later
  // interleaving changes the result or the recorded actions, or starts anything.
  lemma SettlesOnce(cfg: Config, before: seq<Event>, after: seq<Event>)
    requires Reached(cfg, before).host.settled.Some?
    ensures var s, t := Reached(cfg, before), Reached(cfg, before + after);
      && t.host.settled == s.host.settled && t.host.actions == s.host.actions
      && t.log.started == s.log.started && t.log.answered == s.log.answered
      && t.host.aborted
  {
    RunAppend(cfg, INITIAL, before, after);
    SettledIsFinal(cfg, Reached(cfg, before), after);
    assert INITIAL.log.posted[..0] == [];
    GateRun(cfg, INITIAL, before);
  }

  // ------------------------------------------------------------------
  // Conservation and correlation of ids
  // ------------------------------------------------------------------

  // Every id waiting in the worker is in exactly one place.
  ghost predicate Conserved(s: System) {
    multiset(CapIds(s.toHost)) + multiset(s.host.inflight.Keys) + multiset(ReplyIds(s.toWorker))
    == multiset(s.worker.pending)
  }

  ghost predicate IsCall(h: History, id: nat, call: Call) {
    1 <= id <= |h.posted| && call == h.posted[id - 1]
  }

  ghost predicate Answered(h: History, id: nat, o: Outcome) {
    1 <= id <= |h.posted| && (id, h.posted[id - 1], o) in h.answered
  }

  // An answer carries the outcome of the call posted under its id: the host
  // started exactly that call and posts what it settled with, or refused its
  // unknown path.
  ghost predicate Earned(cfg: Config, h: History, a: (nat, Call, Outcome)) {
    && IsCall(h, a.0, a.1)
    && (if a.1.path in cfg.table then (a.0, a.1) in h.started && Carries(cfg, h, a.0, a.2)
        else a.2 == Rejected(UNKNOWN_PREFIX + a.1.path))
  }

  // A value is passed on in its plain form, and a rejection as the same rejection.
  ghost predicate PassedOn(cfg: Config, o: Outcome, posted: Outcome) {
    match o
    case Resolved(v) => posted == Resolved(cfg.plain(v))
    case Rejected(detail) => posted == Rejected(detail)
  }

  ghost predicate Carries(cfg: Config, h: History, id: nat, posted: Outcome) {
    exists o :: (id, o) in h.settlements && PassedOn(cfg, o, posted)
  }

  // No id occurs twice.
  ghost predicate Once(outcomes: seq<(nat, Outcome)>) {
    forall i, j :: 0 <= i < j < |outcomes| ==> outcomes[i].0 != outcomes[j].0
  }

  ghost predicate Linked(cfg: Config, s: System) {
    && s.worker.seqNo == |s.log.posted|
    && (forall id <- s.worker.pending :: 1 <= id <= s.worker.seqNo)
    && (forall m <- s.toHost | m.CapMsg? :: IsCall(s.log, m.id, m.call))
    && (forall id <- s.host.inflight ::
          IsCall(s.log, id, s.host.inflight[id]) && s.host.inflight[id].path in cfg.table
          && (id, s.host.inflight[id]) in s.log.started)
    && (forall r <- s.toWorker :: Answered(s.log, r.id, r.outcome))
    && (forall a <- s.log.answered :: Earned(cfg, s.log, a))
    && (forall r <- s.log.resolved :: Answered(s.log, r.0, r.1) && r.0 !in s.worker.pending)
    && Once(s.log.resolved)
  }

  // A history only grows.
  ghost predicate Extends(h: History, g: History) {
    h.posted <= g.posted && h.started <= g.started && h.answered <= g.answered && h.settlements <= g.settlements
  }

  lemma ExtendsKeeps(cfg: Config, h: History, g: History)
    requires Extends(h, g)
    ensures forall id, call :: IsCall(h, id, call) ==> IsCall(g, id, call)
    ensures forall id, o :: Answered(h, id, o) ==> Answered(g, id, o)
    ensures forall a :: Earned(cfg, h, a) ==> Earned(cfg, g, a)
  {
    forall id: nat, posted | Carries(cfg, h, id, posted) ensures Carries(cfg, g, id, posted) {
      var o :| (id, o) in h.settlements && PassedOn(cfg, o, posted);
      assert (id, o) in g.settlements;
    }
    forall a | Earned(cfg, h, a) ensures Earned(cfg, g, a) {
      assert IsCall(h, a.0, a.1);
    }
  }

  lemma LinkedPost(cfg: Config, s: System, path: string, args: seq<Value>)
    requires Linked(cfg, s)
    ensures Linked(cfg, Step(cfg, s, ToolCalls(path, args)))
  {
    var t := Step(cfg, s, ToolCalls(path, args));
    ExtendsKeeps(cfg, s.log, t.log);
    forall m <- t.toHost | m.CapMsg? ensures IsCall(t.log, m.id, m.call) {
      assert m in s.toHost || m == t.toHost[|s.toHost|];
    }
  }

  lemma LinkedRead(cfg: Config, s: System)
    requires Linked(cfg, s) && s.toHost != []
    ensures Linked(cfg, DeliverToHost(cfg, s))
  {
    var t := DeliverToHost(cfg, s);
    var m := s.toHost[0];
    ExtendsKeeps(cfg, s.log, t.log);
    assert forall x <- t.toHost :: x in s.toHost;
    assert m in s.toHost;
    if m.CapMsg? {
      var out := HostOnCap(cfg, s.host, m.id, m.call);
      if out.replies != [] {
        var a := (m.id, m.call, out.replies[0].outcome);
        assert t.log.answered == s.log.answered + [a];
        assert Earned(cfg, t.log, a);
        assert a in t.log.answered;
        assert t.toWorker == s.toWorker + [out.replies[0]];
      } else if out.started != [] {
        assert (m.id, m.call) in t.log.started;
      }
    }
  }

  lemma LinkedSettle(cfg: Config, s: System, id: nat, o: Outcome)
    requires Linked(cfg, s)
    ensures Linked(cfg, SettleCapability(cfg, s, id, o))
  {
    var t := SettleCapability(cfg, s, id, o);
    ExtendsKeeps(cfg, s.log, t.log);
    if id in s.host.inflight && s.host.settled.None? {
      var r := Reply(id, Posted(cfg, o));
      var a := (id, s.host.inflight[id], r.outcome);
      assert (id, o) in t.log.settlements && PassedOn(cfg, o, r.outcome);
      assert t.log.answered == s.log.answered + [a];
      assert a in t.log.answered;
      assert Earned(cfg, t.log, a);
      assert t.toWorker == s.toWorker + [r];
    }
  }

  lemma LinkedReply(cfg: Config, s: System)
    requires Linked(cfg, s) && s.toWorker != []
    ensures Linked(cfg, DeliverToWorker(s))
  {
    var t := DeliverToWorker(s);
    var r := s.toWorker[0];
    assert forall x <- t.toWorker :: x in s.toWorker;
    assert r in s.toWorker;
    forall i | 0 <= i < |s.log.resolved| ensures s.log.resolved[i].0 !in s.worker.pending {
      assert s.log.resolved[i] in s.log.resolved;
    }
    ExtendsKeeps(cfg, s.log, t.log);
  }

  lemma LinkedStep(cfg: Config, s: System, e: Event)
    requires Linked(cfg, s)
    ensures Linked(cfg, Step(cfg, s, e))
  {
    match e
    case ToolCalls(path, args) => LinkedPost(cfg, s, path, args);
    case HostReads => if s.toHost != [] { LinkedRead(cfg, s); }
    case CapabilitySettles(id, o) => LinkedSettle(cfg, s, id, o);
    case WorkerReads => if s.toWorker != [] { LinkedReply(cfg, s); }
    case _ =>
  }

  lemma ReplyIdsAppend(q: seq<Reply>, r: Reply)
    ensures multiset(ReplyIds(q + [r])) == multiset(ReplyIds(q)) + multiset{r.id}
  {
    assert ReplyIds(q + [r]) == ReplyIds(q) + [r.id];
  }

  lemma ConservedPost(cfg: Config, s: System, path: string, args: seq<Value>)
    requires Linked(cfg, s) && Conserved(s)
    ensures Conserved(Step(cfg, s, ToolCalls(path, args)))
  {
    var t := Step(cfg, s, ToolCalls(path, args));
    var id := s.worker.seqNo + 1;
    CapIdsAppend(s.toHost, t.toHost[|s.toHost|]);
    assert id !in s.worker.pending;
    assert multiset(t.worker.pending) == multiset(s.worker.pending) + multiset{id};
  }

  lemma ConservedRead(cfg: Config, s: System)
    requires Conserved(s) && s.toHost != [] && s.host.settled.None?
    requires DeliverToHost(cfg, s).host.settled.None?
    ensures Conserved(DeliverToHost(cfg, s))
  {
    if s.toHost[0].CapMsg? {
      var id, t := s.toHost[0].id, DeliverToHost(cfg, s);
      assert CapIds(s.toHost) == [id] + CapIds(t.toHost);
      if HostOnCap(cfg, s.host, id, s.toHost[0].call).replies != [] {
        ConservedRefusal(cfg, s);
      } else {
        ConservedStart(cfg, s);
      }
    }
  }

  lemma ConservedRefusal(cfg: Config, s: System)
    requires Conserved(s) && s.toHost != [] && s.host.settled.None? && s.toHost[0].CapMsg?
    requires HostOnCap(cfg, s.host, s.toHost[0].id, s.toHost[0].call).replies != []
    ensures Conserved(DeliverToHost(cfg, s))
  {
    var id, t := s.toHost[0].id, DeliverToHost(cfg, s);
    assert CapIds(s.toHost) == [id] + CapIds(t.toHost);
    ReplyIdsAppend(s.toWorker, HostOnCap(cfg, s.host, id, s.toHost[0].call).replies[0]);
  }

  lemma ConservedStart(cfg: Config, s: System)
    requires Conserved(s) && s.toHost != [] && s.host.settled.None? && s.toHost[0].CapMsg?
    requires HostOnCap(cfg, s.host, s.toHost[0].id, s.toHost[0].call).replies == []
    requires DeliverToHost(cfg, s).host.settled.None?
    ensures Conserved(DeliverToHost(cfg, s))
  {
    var id, t := s.toHost[0].id, DeliverToHost(cfg, s);
    assert CapIds(s.toHost) == [id] + CapIds(t.toHost);
    assert t.toWorker == s.toWorker;
    assert id !in s.host.inflight by {
      assert multiset(s.worker.pending)[id] <= 1;
      assert multiset(CapIds(s.toHost))[id] >= 1;
    }
    assert t.host.inflight.Keys == s.host.inflight.Keys + {id};
  }

  lemma ConservedSettle(cfg: Config, s: System, id: nat, o: Outcome)
    requires Conserved(s) && s.host.settled.None?
    ensures Conserved(SettleCapability(cfg, s, id, o))
  {
    var t := SettleCapability(cfg, s, id, o);
    if id in s.host.inflight {
      assert t.host.inflight.Keys == s.host.inflight.Keys - {id};
      ReplyIdsAppend(s.toWorker, Reply(id, Posted(cfg, o)));
    } else {
      assert t.toWorker == s.toWorker;
    }
  }

  lemma CancelOne(a: multiset<nat>, b: multiset<nat>, x: nat)
    requires a + multiset{x} == b + multiset{x}
    ensures a == b
  {
    assert a == a + multiset{x} - multiset{x} && b == b + multiset{x} - multiset{x};
  }

  lemma ConservedReply(s: System)
    requires Conserved(s) && s.toWorker != []
    ensures Conserved(DeliverToWorker(s))
  {
    var t := DeliverToWorker(s);
    var r := s.toWorker[0];
    assert ReplyIds(s.toWorker) == [r.id] + ReplyIds(t.toWorker);
    assert multiset(ReplyIds(s.toWorker)) == multiset{r.id} + multiset(ReplyIds(t.toWorker));
    assert r.id in multiset(s.worker.pending);
    assert t.worker.pending == s.worker.pending - {r.id};
    assert multiset(s.worker.pending) == multiset(t.worker.pending) + multiset{r.id};
    var waiting := multiset(CapIds(s.toHost)) + multiset(s.host.inflight.Keys);
    assert multiset(s.worker.pending) == waiting + multiset(ReplyIds(t.toWorker)) + multiset{r.id};
    CancelOne(multiset(t.worker.pending), waiting + multiset(ReplyIds(t.toWorker)), r.id);
  }

  lemma ConservedEnd(cfg: Config, s: System, m: WorkerMsg, e: Event)
    requires Conserved(s) && !m.CapMsg?
    requires Step(cfg, s, e) == s || Step(cfg, s, e) == s.(toHost := s.toHost + [m])
    ensures Conserved(Step(cfg, s, e))
  {
    CapIdsAppend(s.toHost, m);
    assert CapIds(s.toHost) + [] == CapIds(s.toHost);
  }

  lemma ConservedStep(cfg: Config, s: System, e: Event)
    requires Linked(cfg, s) && (s.host.settled.None? ==> Conserved(s))
    ensures Step(cfg, s, e).host.settled.None? ==> Conserved(Step(cfg, s, e))
  {
    if s.host.settled.None? {
      match e
      case ToolCalls(path, args) => ConservedPost(cfg, s, path, args);
      case HostReads => ConservedHostReads(cfg, s);
      case CapabilitySettles(id, o) => ConservedSettle(cfg, s, id, o);
      case WorkerReads => if s.toWorker != [] { ConservedReply(s); }
      case ToolReturns(result) => ConservedEnd(cfg, s, DoneMsg(result), e);
      case ToolThrows(detail) => ConservedEnd(cfg, s, ErrMsg(detail), e);
      case _ =>
    }
  }

  lemma ConservedHostReads(cfg: Config, s: System)
    requires Conserved(s) && s.host.settled.None?
    ensures Step(cfg, s, HostReads).host.settled.None? ==> Conserved(Step(cfg, s, HostReads))
  {
    if s.toHost != [] && DeliverToHost(cfg, s).host.settled.None? { ConservedRead(cfg, s); }
  }

  lemma {:induction false} LinkedRun(cfg: Config, s: System, events: seq<Event>)
    requires Linked(cfg, s) && (s.host.settled.None? ==> Conserved(s))
    ensures var t := Run(cfg, s, events);
      Linked(cfg, t) && (t.host.settled.None? ==> Conserved(t))
    decreases |events|
  {
    if events != [] {
      LinkedStep(cfg, s, events[0]);
      ConservedStep(cfg, s, events[0]);
      LinkedRun(cfg, Step(cfg, s, events[0]), events[1..]);
    }
  }

  // While the run is unsettled, each waiting id is in exactly one of: the request
  // queue, executing on the host, the reply queue.
  lemma Conservation(cfg: Config, events: seq<Event>)
    requires Reached(cfg, events).host.settled.None?
    ensures Conserved(Reached(cfg, events))
  {
    LinkedRun(cfg, INITIAL, events);
  }

  // ------------------------------------------------------------------
  // Each capability function settles once
  // ------------------------------------------------------------------

  ghost predicate SettledApart(s: System) {
    && Once(s.log.settlements)
    && (forall x <- s.log.settlements :: x.0 !in s.host.inflight)
    && (s.host.settled.None? ==>
          (forall x <- s.log.settlements :: x.0 <= s.log.handled) && forall id <- s.host.inflight :: id <= s.log.handled)
  }

  lemma SettledApartStep(cfg: Config, s: System, e: Event)
    requires GateInv(cfg, s) && SettledApart(s)
    ensures SettledApart(Step(cfg, s, e))
  {
    var t := Step(cfg, s, e);
    if e.HostReads? && s.toHost != [] && s.toHost[0].CapMsg? && s.host.settled.None? {
      assert CapIds(s.toHost)[0] == s.toHost[0].id;
      assert s.toHost[0].id == s.log.handled + 1;
    } else if e.CapabilitySettles? && e.id in s.host.inflight {
      assert t.log.settlements == s.log.settlements + [(e.id, e.outcome)];
    }
  }

  lemma {:induction false} SettledApartRun(cfg: Config, s: System, events: seq<Event>)
    requires GateInv(cfg, s) && SettledApart(s)
    ensures SettledApart(Run(cfg, s, events))
    decreases |events|
  {
    if events != [] {
      GateStep(cfg, s, events[0]);
      SettledApartStep(cfg, s, events[0]);
      SettledApartRun(cfg, Step(cfg, s, events[0]), events[1..]);
    }
  }

  // Event k is where the function started under this id settles.
  ghost predicate SettlesAt(cfg: Config, events: seq<Event>, k: nat, x: (nat, Outcome)) {
    k < |events| && events[k] == CapabilitySettles(x.0, x.1) && x.0 in Reached(cfg, events[..k]).host.inflight
  }

  // The settlements on record are exactly those of the event list.
  lemma {:induction false} SettlementsAreEvents(cfg: Config, events: seq<Event>, x: (nat, Outcome))
    ensures x in Reached(cfg, events).log.settlements <==> exists k: nat :: SettlesAt(cfg, events, k, x)
    decreases |events|
  {
    if events != [] {
      var n := |events| - 1;
      var before, last := events[..n], events[n];
      SettlementsAreEvents(cfg, before, x);
      assert events == before + [last] && [last][1..] == [];
      RunAppend(cfg, INITIAL, before, [last]);
      assert Reached(cfg, events) == Step(cfg, Reached(cfg, before), last);
      forall k: nat | k < n ensures SettlesAt(cfg, events, k, x) <==> SettlesAt(cfg, before, k, x) {
        assert before[..k] == events[..k];
      }
      assert SettlesAt(cfg, events, n, x) <==>
        last == CapabilitySettles(x.0, x.1) && x.0 in Reached(cfg, before).host.inflight;
    }
  }

  // A promise settles at most once, and with the outcome of executing exactly the call
  // posted under its id: for a known path, what the one function started under that id
  // settled with; for an unknown one, its refusal.
  lemma RepliesMatchCalls(cfg: Config, events: seq<Event>)
    ensures var s := Reached(cfg, events);
      && Once(s.log.resolved)
      && (forall r <- s.log.resolved :: Answered(s.log, r.0, r.1) && r.0 !in s.worker.pending)
      && (forall a <- s.log.answered :: Earned(cfg, s.log, a))
      && Once(s.log.settlements)
      && (forall x :: x in s.log.settlements <==> exists k: nat :: SettlesAt(cfg, events, k, x))
  {
    LinkedRun(cfg, INITIAL, events);
    assert INITIAL.log.posted[..0] == [];
    SettledApartRun(cfg, INITIAL, events);
    forall x ensures x in Reached(cfg, events).log.settlements <==> exists k: nat :: SettlesAt(cfg, events, k, x) {
      SettlementsAreEvents(cfg, events, x);
    }
  }
}
