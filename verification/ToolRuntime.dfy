/** The objects behind the protocol: the host's run state, the worker's module
    state, and the deadline each real capability composes over the run signal. */
module ToolRuntime {
  import opened Wrappers
  import opened ToolRpc

  class Host {
    const cfg: Config
    var settled: Option<RunResult>
    var actions: seq<string>
    var inflight: map<nat, Call>
    var aborted: bool

    ghost function View(): HostState
      reads this
    {
      HostState(settled, actions, inflight, aborted)
    }

    constructor (cfg: Config)
      ensures View() == INITIAL.host && this.cfg == cfg
    {
      this.cfg := cfg;
      settled, actions, inflight, aborted := None, [], map[], false;
    }

    method Finish(r: RunResult)
      modifies this
      ensures View() == Settle(old(View()), r)
    {
      if settled.Some? { return; }
      settled := Some(r);
      aborted := true;
    }

    // Handles one message together with the promise reactions it triggers at once.
    method OnMessage(m: WorkerMsg) returns (replies: seq<Reply>, started: seq<(nat, Call)>)
      modifies this
      ensures HostOut(View(), replies, started) == HostOnMessage(cfg, old(View()), m)
    {
      replies, started := [], [];
      match m
      case DoneMsg(result) => Finish(RunOk(result, actions));
      case ErrMsg(detail) => Finish(RunError(detail, actions));
      case CapMsg(id, call) =>
        if settled.Some? { return; }
        if call.path !in cfg.table {
          replies := [Reply(id, Rejected(UNKNOWN_PREFIX + call.path))];
          return;
        }
        actions := actions + [cfg.actionLabel(call)];
        if call.path in cfg.gated && !cfg.approved {
          Finish(RunNeedsApproval(call.path, cfg.gateDetail(call), actions));
        } else {
          inflight := inflight[id := call];
          started := [(id, call)];
        }
    }

    method OnOutcome(id: nat, o: Outcome) returns (replies: seq<Reply>)
      modifies this
      ensures HostOut(View(), replies, []) == HostOnOutcome(cfg, old(View()), id, o)
      ensures id in old(inflight) && settled.None? ==> |replies| == 1 && replies[0].id == id && PassedOn(cfg, o, replies[0].outcome)
    {
      replies := [];
      if id in inflight {
        inflight := inflight - {id};
        if settled.None? {
          replies := [Reply(id, if o.Resolved? then Resolved(cfg.plain(o.value)) else o)];
        }
      }
    }

    method OnTimer()
      modifies this
      ensures View() == HostOnTimer(old(View()))
    {
      Finish(RunError(TIMEOUT_DETAIL, actions));
    }

    method OnError(message: string)
      modifies this
      ensures View() == HostOnError(old(View()), message)
    {
      Finish(RunError(if message != "" then message else CRASH_DETAIL, actions));
    }
  }

  class Worker {
    const cfg: Config
    var seqNo: nat
    var pending: set<nat>

    ghost function View(): WorkerState
      reads this
    {
      WorkerState(seqNo, pending)
    }

    constructor (cfg: Config)
      ensures View() == INITIAL.worker && this.cfg == cfg
    {
      this.cfg := cfg;
      seqNo, pending := 0, {};
    }

    method Invoke(path: string, args: seq<Value>) returns (m: WorkerMsg)
      modifies this
      ensures (View(), m) == WorkerCall(cfg, old(View()), path, args)
    {
      seqNo := seqNo + 1;
      pending := pending + {seqNo};
      var plained: seq<Value> := [];
      for i := 0 to |args|
        invariant plained == PlainArgs(cfg, args[..i])
      {
        plained := plained + [cfg.plain(args[i])];
      }
      assert args[..|args|] == args;
      m := CapMsg(seqNo, Call(path, plained));
    }

    method OnReply(r: Reply) returns (o: Option<Outcome>)
      modifies this
      ensures (View(), o) == WorkerOnReply(old(View()), r)
    {
      if r.id !in pending { return None; }
      pending := pending - {r.id};
      o := Some(r.outcome);
    }
  }

  // ------------------------------------------------------------------
  // One signal from a caller's signal and a timeout
  // ------------------------------------------------------------------

  datatype DeadlineEvent = CallerAborts(reason: string) | TimeoutFires | Released

  datatype DeadlineState = DeadlineState(reason: Option<string>, listening: bool, armed: bool)

  function Abort(d: DeadlineState, reason: string): DeadlineState {
    if d.reason.Some? then d else d.(reason := Some(reason))
  }

  // `caller` is None without a caller signal, Some(None) for a live one and
  // Some(Some(reason)) for one already aborted.
  function DeadlineStart(caller: Option<Option<string>>): DeadlineState {
    if caller.Some? && caller.value.Some? then DeadlineState(caller.value, false, true)
    else DeadlineState(None, caller.Some?, true)
  }

  function DeadlineStep(d: DeadlineState, e: DeadlineEvent, timeoutMessage: string): DeadlineState {
    match e
    case CallerAborts(reason) => if d.listening then Abort(d, reason).(listening := false) else d
    case TimeoutFires => if d.armed then Abort(d, timeoutMessage).(armed := false) else d
    case Released => d.(listening := false, armed := false)
  }

  function DeadlineRun(d: DeadlineState, events: seq<DeadlineEvent>, timeoutMessage: string): DeadlineState
    decreases |events|
  {
    if events == [] then d
    else DeadlineRun(DeadlineStep(d, events[0], timeoutMessage), events[1..], timeoutMessage)
  }

  class Deadline {
    const timeoutMessage: string
    var reason: Option<string>
    var listening: bool
    var armed: bool

    ghost function View(): DeadlineState
      reads this
    {
      DeadlineState(reason, listening, armed)
    }

    constructor (caller: Option<Option<string>>, timeoutMessage: string)
      ensures View() == DeadlineStart(caller) && this.timeoutMessage == timeoutMessage
    {
      this.timeoutMessage := timeoutMessage;
      reason, listening, armed := None, false, true;
      if caller.Some? {
        if caller.value.Some? { reason := caller.value; } else { listening := true; }
      }
    }

    method AbortWith(why: string)
      modifies this`reason
      ensures View() == Abort(old(View()), why)
    {
      if reason.None? { reason := Some(why); }
    }

    method OnEvent(e: DeadlineEvent)
      modifies this
      ensures View() == DeadlineStep(old(View()), e, timeoutMessage)
    {
      match e
      case CallerAborts(why) => if listening { AbortWith(why); listening := false; }
      case TimeoutFires => if armed { AbortWith(timeoutMessage); armed := false; }
      case Released => listening, armed := false, false;
    }
  }

  // The first cause that fires before the deadline is released.
  function FirstCause(hasCaller: bool, events: seq<DeadlineEvent>, timeoutMessage: string): Option<string> {
    if events == [] || events[0].Released? then None
    else if events[0].TimeoutFires? then Some(timeoutMessage)
    else if hasCaller then Some(events[0].reason)
    else FirstCause(hasCaller, events[1..], timeoutMessage)
  }

  lemma {:induction false} DeadDeadline(d: DeadlineState, events: seq<DeadlineEvent>, timeoutMessage: string)
    requires d.reason.Some? || (!d.listening && !d.armed)
    ensures DeadlineRun(d, events, timeoutMessage).reason == d.reason
    decreases |events|
  {
    if events != [] { DeadDeadline(DeadlineStep(d, events[0], timeoutMessage), events[1..], timeoutMessage); }
  }

  // For any order of caller abort, timeout and release: the signal carries the
  // first cause, and none once released.
  lemma {:induction false} DeadlineAborts(caller: Option<Option<string>>, events: seq<DeadlineEvent>, timeoutMessage: string)
    ensures DeadlineRun(DeadlineStart(caller), events, timeoutMessage).reason ==
            if caller.Some? && caller.value.Some? then caller.value
            else FirstCause(caller.Some?, events, timeoutMessage)
    decreases |events|
  {
    if events != [] {
      var d := DeadlineStep(DeadlineStart(caller), events[0], timeoutMessage);
      if d == DeadlineStart(caller) {
        DeadlineAborts(caller, events[1..], timeoutMessage);
        if d.reason.Some? { DeadDeadline(d, events[1..], timeoutMessage); }
      } else {
        DeadDeadline(d, events[1..], timeoutMessage);
      }
    }
  }

  // ------------------------------------------------------------------
  // Deadlines composed over the run signal
  // ------------------------------------------------------------------

  // A run together with the deadlines its capabilities hold.
  datatype Live = Live(sys: System, deadlines: map<nat, DeadlineState>)

  datatype LiveEvent = Rpc(event: Event) | Opens(key: nat) | TimesOut(key: nat) | Releases(key: nat)

  function StatusName(r: RunResult): string {
    match r
    case RunOk(_, _) => "ok"
    case RunNeedsApproval(_, _, _) => "needs_approval"
    case RunError(_, _) => "error"
  }

  // Why the run signal aborted.
  function SettledReason(settled: Option<RunResult>): string {
    if settled.Some? then "tool run settled (" + StatusName(settled.value) + ")" else ""
  }

  // Settling aborts the run signal, which reaches every deadline still listening; one
  // opened later finds the signal aborted.
  function LiveStep(cfg: Config, l: Live, e: LiveEvent, timeoutMessage: string): Live {
    match e
    case Rpc(event) =>
      var t := Step(cfg, l.sys, event);
      if t.host.aborted && !l.sys.host.aborted then
        Live(t, map k | k in l.deadlines ::
          DeadlineStep(l.deadlines[k], CallerAborts(SettledReason(t.host.settled)), timeoutMessage))
      else l.(sys := t)
    case Opens(k) =>
      if k in l.deadlines then l
      else
        var caller := Some(if l.sys.host.aborted then Some(SettledReason(l.sys.host.settled)) else None);
        l.(deadlines := l.deadlines[k := DeadlineStart(caller)])
    case TimesOut(k) =>
      if k in l.deadlines then
        l.(deadlines := l.deadlines[k := DeadlineStep(l.deadlines[k], TimeoutFires, timeoutMessage)])
      else l
    case Releases(k) =>
      if k in l.deadlines then
        l.(deadlines := l.deadlines[k := DeadlineStep(l.deadlines[k], Released, timeoutMessage)])
      else l
  }

  function LiveReached(cfg: Config, events: seq<LiveEvent>, timeoutMessage: string): Live {
    if events == [] then Live(INITIAL, map[])
    else LiveStep(cfg, LiveReached(cfg, events[..|events| - 1], timeoutMessage), events[|events| - 1], timeoutMessage)
  }

  function RpcEvents(events: seq<LiveEvent>): seq<Event> {
    if events == [] then []
    else
      RpcEvents(events[..|events| - 1]) +
      (if events[|events| - 1].Rpc? then [events[|events| - 1].event] else [])
  }

  // The deadlines do not disturb the protocol.
  lemma {:induction false} LiveIsReached(cfg: Config, events: seq<LiveEvent>, timeoutMessage: string)
    ensures LiveReached(cfg, events, timeoutMessage).sys == Reached(cfg, RpcEvents(events))
  {
    if events != [] {
      var init, last := events[..|events| - 1], events[|events| - 1];
      LiveIsReached(cfg, init, timeoutMessage);
      if last.Rpc? {
        RunAppend(cfg, INITIAL, RpcEvents(init), [last.event]);
        assert [last.event][1..] == [];
      } else {
        assert RpcEvents(events) == RpcEvents(init);
      }
    }
  }

  // Opened, and released after that.
  ghost predicate GivenUp(events: seq<LiveEvent>, k: nat) {
    exists i, j | 0 <= i < j < |events| :: events[i] == Opens(k) && events[j] == Releases(k)
  }

  lemma GivenUpStays(events: seq<LiveEvent>, e: LiveEvent, k: nat)
    ensures GivenUp(events, k) ==> GivenUp(events + [e], k)
    ensures e == Releases(k) && Opens(k) in events ==> GivenUp(events + [e], k)
  {
    var more := events + [e];
    if i, j :| 0 <= i < j < |events| && events[i] == Opens(k) && events[j] == Releases(k) {
      assert more[i] == Opens(k) && more[j] == Releases(k);
    }
    if e == Releases(k) && Opens(k) in events {
      var i :| 0 <= i < |events| && events[i] == Opens(k);
      assert more[i] == Opens(k) && more[|events|] == Releases(k);
    }
  }

  // A deadline was opened; one without a reason was given up, or is listening on a live run.
  ghost predicate Accounted(events: seq<LiveEvent>, l: Live, k: nat) {
    k in l.deadlines ==>
      && Opens(k) in events
      && (l.deadlines[k].reason.None? ==> GivenUp(events, k) || (l.deadlines[k].listening && !l.sys.host.aborted))
  }

  lemma {:induction false} LiveAccounted(cfg: Config, events: seq<LiveEvent>, timeoutMessage: string, k: nat)
    ensures Accounted(events, LiveReached(cfg, events, timeoutMessage), k)
  {
    if events != [] {
      var init, last := events[..|events| - 1], events[|events| - 1];
      LiveAccounted(cfg, init, timeoutMessage, k);
      GivenUpStays(init, last, k);
      assert events == init + [last];
      assert last in events && (Opens(k) in init ==> Opens(k) in events);
    }
  }

  // Over every interleaving of the protocol with deadlines opening, timing out and being
  // released: once the run has settled, every deadline composed over its signal has
  // aborted or was released after it was opened.
  lemma SettledRunAbortsDeadlines(cfg: Config, events: seq<LiveEvent>, timeoutMessage: string)
    ensures var l := LiveReached(cfg, events, timeoutMessage);
      && l.sys == Reached(cfg, RpcEvents(events))
      && (l.sys.host.settled.Some? ==>
            forall k | k in l.deadlines :: l.deadlines[k].reason.Some? || GivenUp(events, k))
  {
    LiveIsReached(cfg, events, timeoutMessage);
    var l := LiveReached(cfg, events, timeoutMessage);
    if l.sys.host.settled.Some? {
      SettlesOnce(cfg, RpcEvents(events), []);
      assert RpcEvents(events) + [] == RpcEvents(events);
      forall k | k in l.deadlines ensures l.deadlines[k].reason.Some? || GivenUp(events, k) {
        LiveAccounted(cfg, events, timeoutMessage, k);
      }
    }
  }

  // ------------------------------------------------------------------
  // The objects, driven
  // ------------------------------------------------------------------

  // The host and worker objects with their two queues stand where the protocol does.
  ghost predicate Stands(host: Host, worker: Worker, toHost: seq<WorkerMsg>, toWorker: seq<Reply>, s: System)
    reads host, worker
  {
    host.View() == s.host && worker.View() == s.worker && toHost == s.toHost && toWorker == s.toWorker
  }

  method Handle(cfg: Config, host: Host, worker: Worker, queued: seq<WorkerMsg>, posted: seq<Reply>, e: Event, ghost s: System)
    returns (toHost: seq<WorkerMsg>, toWorker: seq<Reply>)
    requires host.cfg == cfg && worker.cfg == cfg && Stands(host, worker, queued, posted, s)
    modifies host, worker
    ensures Stands(host, worker, toHost, toWorker, Step(cfg, s, e))
  {
    toHost, toWorker := queued, posted;
    match e {
      case ToolCalls(path, args) =>
        var m := worker.Invoke(path, args);
        toHost := toHost + [m];
      case ToolReturns(result) => toHost := toHost + [DoneMsg(result)];
      case ToolThrows(detail) => toHost := toHost + [ErrMsg(detail)];
      case HostReads =>
        if toHost != [] {
          var replies, started := host.OnMessage(toHost[0]);
          toHost, toWorker := toHost[1..], toWorker + replies;
        }
      case CapabilitySettles(id, o) =>
        var replies := host.OnOutcome(id, o);
        toWorker := toWorker + replies;
      case WorkerReads =>
        if toWorker != [] {
          var o := worker.OnReply(toWorker[0]);
          toWorker := toWorker[1..];
        }
      case TimerFires => host.OnTimer();
      case WorkerErrors(message) => host.OnError(message);
    }
  }

  // The host and worker objects and their two queues, fed an event list, arrive at the
  // protocol's state for it.
  method Drive(cfg: Config, events: seq<Event>)
    returns (host: Host, worker: Worker, toHost: seq<WorkerMsg>, toWorker: seq<Reply>)
    ensures Stands(host, worker, toHost, toWorker, Reached(cfg, events))
  {
    host := new Host(cfg);
    worker := new Worker(cfg);
    toHost, toWorker := [], [];
    for i := 0 to |events|
      invariant fresh(host) && fresh(worker) && host.cfg == cfg && worker.cfg == cfg
      invariant Stands(host, worker, toHost, toWorker, Reached(cfg, events[..i]))
    {
      ReachedNext(cfg, events, i);
      toHost, toWorker := Handle(cfg, host, worker, toHost, toWorker, events[i], Reached(cfg, events[..i]));
    }
    assert events[..|events|] == events;
  }

  lemma ReachedNext(cfg: Config, events: seq<Event>, i: nat)
    requires i < |events|
    ensures Reached(cfg, events[..i + 1]) == Step(cfg, Reached(cfg, events[..i]), events[i])
  {
    assert events[..i + 1] == events[..i] + [events[i]] && [events[i]][1..] == [];
    RunAppend(cfg, INITIAL, events[..i], [events[i]]);
  }

  // ------------------------------------------------------------------
  // The deadline objects, driven with them
  // ------------------------------------------------------------------

  ghost function Views(ds: map<nat, Deadline>): map<nat, DeadlineState>
    reads ds.Values
  {
    map k | k in ds :: ds[k].View()
  }

  // One object a key.
  ghost predicate Apart(ds: map<nat, Deadline>) {
    forall j, k | j in ds && k in ds && j != k :: ds[j] != ds[k]
  }

  // The run signal's abort, heard by every deadline in an arbitrary order.
  method AbortAll(ds: map<nat, Deadline>, why: string)
    requires Apart(ds)
    modifies ds.Values
    ensures forall k <- ds :: ds[k].View() == DeadlineStep(old(ds[k].View()), CallerAborts(why), ds[k].timeoutMessage)
  {
    var left := ds.Keys;
    while left != {}
      invariant left <= ds.Keys
      invariant forall k <- left :: ds[k].View() == old(ds[k].View())
      invariant forall k <- ds.Keys - left ::
        ds[k].View() == DeadlineStep(old(ds[k].View()), CallerAborts(why), ds[k].timeoutMessage)
      decreases left
    {
      var k :| k in left;
      left := left - {k};
      ds[k].OnEvent(CallerAborts(why));
    }
  }

  // The deadline objects stand where the model does.
  ghost predicate Holds(ds: map<nat, Deadline>, deadlines: map<nat, DeadlineState>, timeoutMessage: string)
    reads ds.Values
  {
    Apart(ds) && Views(ds) == deadlines && forall k <- ds :: ds[k].timeoutMessage == timeoutMessage
  }

  method Tell(ds: map<nat, Deadline>, k: nat, e: DeadlineEvent, ghost was: map<nat, DeadlineState>, timeoutMessage: string)
    requires k in ds && Holds(ds, was, timeoutMessage)
    modifies ds[k]
    ensures Holds(ds, was[k := DeadlineStep(was[k], e, timeoutMessage)], timeoutMessage)
  {
    ds[k].OnEvent(e);
  }

  method TellAll(ds: map<nat, Deadline>, why: string, ghost was: map<nat, DeadlineState>, timeoutMessage: string)
    requires Holds(ds, was, timeoutMessage)
    modifies ds.Values
    ensures Holds(ds, map k | k in was :: DeadlineStep(was[k], CallerAborts(why), timeoutMessage), timeoutMessage)
  {
    AbortAll(ds, why);
  }

  method Open(ds: map<nat, Deadline>, k: nat, caller: Option<Option<string>>, ghost was: map<nat, DeadlineState>,
              timeoutMessage: string)
    returns (after: map<nat, Deadline>)
    requires Holds(ds, was, timeoutMessage) && k !in ds
    ensures Holds(after, was[k := DeadlineStart(caller)], timeoutMessage)
    ensures forall d <- after.Values :: d in ds.Values || fresh(d)
  {
    var d := new Deadline(caller, timeoutMessage);
    after := ds[k := d];
  }

  method HandleLive(cfg: Config, host: Host, worker: Worker, queued: seq<WorkerMsg>, posted: seq<Reply>,
                    ds: map<nat, Deadline>, e: LiveEvent, timeoutMessage: string, ghost l: Live)
    returns (toHost: seq<WorkerMsg>, toWorker: seq<Reply>, after: map<nat, Deadline>)
    requires host.cfg == cfg && worker.cfg == cfg && Stands(host, worker, queued, posted, l.sys)
    requires Holds(ds, l.deadlines, timeoutMessage)
    modifies host, worker, ds.Values
    ensures var next := LiveStep(cfg, l, e, timeoutMessage);
      Stands(host, worker, toHost, toWorker, next.sys) && Holds(after, next.deadlines, timeoutMessage)
    ensures forall d <- after.Values :: d in ds.Values || fresh(d)
  {
    toHost, toWorker, after := queued, posted, ds;
    match e {
      case Rpc(event) =>
        var was := host.aborted;
        toHost, toWorker := Handle(cfg, host, worker, queued, posted, event, l.sys);
        assert Holds(ds, l.deadlines, timeoutMessage);
        if host.aborted && !was {
          TellAll(ds, SettledReason(host.settled), l.deadlines, timeoutMessage);
        }
      case Opens(k) =>
        if k !in ds {
          var signal := if host.aborted then Some(SettledReason(host.settled)) else None;
          after := Open(ds, k, Some(signal), l.deadlines, timeoutMessage);
        }
      case TimesOut(k) =>
        if k in ds { Tell(ds, k, TimeoutFires, l.deadlines, timeoutMessage); }
      case Releases(k) =>
        if k in ds { Tell(ds, k, Released, l.deadlines, timeoutMessage); }
    }
  }

  // Host, worker, queues and deadline objects, fed any interleaving, arrive at the model's
  // state for it.
  method DriveLive(cfg: Config, events: seq<LiveEvent>, timeoutMessage: string)
    returns (host: Host, worker: Worker, toHost: seq<WorkerMsg>, toWorker: seq<Reply>, ds: map<nat, Deadline>)
    ensures var l := LiveReached(cfg, events, timeoutMessage);
      Stands(host, worker, toHost, toWorker, l.sys) && Holds(ds, l.deadlines, timeoutMessage)
  {
    host := new Host(cfg);
    worker := new Worker(cfg);
    toHost, toWorker, ds := [], [], map[];
    for i := 0 to |events|
      invariant fresh(host) && fresh(worker) && host.cfg == cfg && worker.cfg == cfg
      invariant forall d <- ds.Values :: fresh(d)
      invariant var l := LiveReached(cfg, events[..i], timeoutMessage);
        Stands(host, worker, toHost, toWorker, l.sys) && Holds(ds, l.deadlines, timeoutMessage)
    {
      assert events[..i + 1][..i] == events[..i] && events[..i + 1][i] == events[i];
      toHost, toWorker, ds := HandleLive(cfg, host, worker, toHost, toWorker, ds, events[i], timeoutMessage,
                                         LiveReached(cfg, events[..i], timeoutMessage));
    }
    assert events[..|events|] == events;
  }
}
