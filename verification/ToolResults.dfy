/** What a tool run's replies, calls and result say about what happened: read off the list
    of events. */
module ToolResults {
  import opened Wrappers
  import opened ToolRpc

  // ------------------------------------------------------------------
  // Replies
  // ------------------------------------------------------------------

  // The function started under an id settled so.
  ghost predicate SettledWith(cfg: Config, events: seq<Event>, id: nat, o: Outcome) {
    exists k: nat :: SettlesAt(cfg, events, k, (id, o))
  }

  // Over every interleaving, for a promise on a known path: it is rejected exactly when the
  // capability was, with the same detail, and resolved exactly when the capability was, with
  // the plain form of its value. On an unknown path it is rejected, naming the path.
  lemma RejectionsStayRejections(cfg: Config, events: seq<Event>, id: nat, o: Outcome)
    requires (id, o) in Reached(cfg, events).log.resolved
    ensures var s := Reached(cfg, events);
      && 1 <= id <= |s.log.posted|
      && (s.log.posted[id - 1].path !in cfg.table ==> o == Rejected("unknown capability: " + s.log.posted[id - 1].path))
      && (s.log.posted[id - 1].path in cfg.table ==>
            && (forall d :: o == Rejected(d) <==> SettledWith(cfg, events, id, Rejected(d)))
            && (o.Resolved? <==> exists v :: SettledWith(cfg, events, id, Resolved(v)))
            && (forall v :: SettledWith(cfg, events, id, Resolved(v)) ==> o == Resolved(cfg.plain(v))))
  {
    var s := Reached(cfg, events);
    RepliesMatchCalls(cfg, events);
    assert Answered(s.log, id, o);
    var call := s.log.posted[id - 1];
    assert Earned(cfg, s.log, (id, call, o));
    if call.path in cfg.table {
      var u :| (id, u) in s.log.settlements && PassedOn(cfg, u, o);
      OneSettlement(cfg, events, id, u);
      assert SettledWith(cfg, events, id, u);
    }
  }

  // A function settles in one way.
  lemma OneSettlement(cfg: Config, events: seq<Event>, id: nat, u: Outcome)
    requires (id, u) in Reached(cfg, events).log.settlements
    ensures forall v :: SettledWith(cfg, events, id, v) <==> v == u
  {
    var all := Reached(cfg, events).log.settlements;
    RepliesMatchCalls(cfg, events);
    forall v ensures SettledWith(cfg, events, id, v) <==> v == u {
      assert (id, v) in all <==> SettledWith(cfg, events, id, v);
      if (id, v) in all {
        var i :| 0 <= i < |all| && all[i] == (id, u);
        var j :| 0 <= j < |all| && all[j] == (id, v);
        assert i == j;
      }
    }
  }

  // ------------------------------------------------------------------
  // Calls and the run's result
  // ------------------------------------------------------------------

  // The tool's capability calls, in order.
  function CallsMade(events: seq<Event>): seq<(string, seq<Value>)> {
    if events == [] then []
    else
      var last := events[|events| - 1];
      CallsMade(events[..|events| - 1]) + (if last.ToolCalls? then [(last.path, last.args)] else [])
  }

  // A posted call carries the path and, one by one, the plain forms of the arguments.
  ghost predicate Carried(cfg: Config, made: (string, seq<Value>), posted: Call) {
    && posted.path == made.0 && |posted.args| == |made.1|
    && forall j | 0 <= j < |made.1| :: posted.args[j] == cfg.plain(made.1[j])
  }

  // Where a settled run's result comes from.
  ghost predicate Justified(cfg: Config, events: seq<Event>, posted: seq<Call>, r: RunResult) {
    match r
    case RunOk(result, _) => ToolReturns(result) in events
    case RunError(detail, _) =>
      || ToolThrows(detail) in events
      || (TimerFires in events
          && detail == "this took too long, so the run was stopped — try again, or ask for something smaller")
      || (detail != "" && WorkerErrors(detail) in events)
      || (WorkerErrors("") in events && detail == "the run stopped unexpectedly — nothing was sent; try again")
    case RunNeedsApproval(capability, detail, _) =>
      exists c <- posted ::
        && c.path == capability && detail == cfg.gateDetail(c)
        && c.path in cfg.table && c.path in cfg.gated && !cfg.approved
  }

  ghost predicate Sent(events: seq<Event>, posted: seq<Call>, m: WorkerMsg) {
    match m
    case DoneMsg(result) => ToolReturns(result) in events
    case ErrMsg(detail) => ToolThrows(detail) in events
    case CapMsg(_, call) => call in posted
  }

  // What ends a run ends it, at the latest when the host has read it.
  ghost predicate Ends(events: seq<Event>, s: System) {
    forall e <- events ::
      match e
      case ToolReturns(result) => s.host.settled.Some? || DoneMsg(result) in s.toHost
      case ToolThrows(detail) => s.host.settled.Some? || ErrMsg(detail) in s.toHost
      case TimerFires => s.host.settled.Some?
      case WorkerErrors(_) => s.host.settled.Some?
      case _ => true
  }

  ghost predicate Explained(cfg: Config, events: seq<Event>, s: System) {
    && |s.log.posted| == |CallsMade(events)|
    && (forall k | 0 <= k < |s.log.posted| :: Carried(cfg, CallsMade(events)[k], s.log.posted[k]))
    && (forall m <- s.toHost :: Sent(events, s.log.posted, m))
    && (s.host.settled.Some? ==> Justified(cfg, events, s.log.posted, s.host.settled.value))
  }

  lemma MoreJustifies(cfg: Config, events: seq<Event>, e: Event, posted: seq<Call>, more: seq<Call>, r: RunResult)
    requires Justified(cfg, events, posted, r)
    ensures Justified(cfg, events + [e], posted + more, r)
  {
    if r.RunNeedsApproval? {
      var c :| c in posted && c.path == r.capability && r.detail == cfg.gateDetail(c)
        && c.path in cfg.table && c.path in cfg.gated && !cfg.approved;
      assert c in posted + more;
    }
  }

  lemma SentStep(cfg: Config, events: seq<Event>, s: System, e: Event)
    requires forall m <- s.toHost :: Sent(events, s.log.posted, m)
    ensures var t := Step(cfg, s, e);
      forall m <- t.toHost :: Sent(events + [e], t.log.posted, m)
  {
    var t := Step(cfg, s, e);
    assert (events + [e])[|events|] == e && forall x <- events :: x in events + [e];
    forall m | m in t.toHost ensures Sent(events + [e], t.log.posted, m) {
      if m in s.toHost {
        assert Sent(events, s.log.posted, m);
      } else {
        assert t.toHost == s.toHost + [m];
        if e.ToolCalls? { assert t.log.posted[|s.log.posted|] == m.call; }
      }
    }
  }

  lemma ExplainedStep(cfg: Config, events: seq<Event>, s: System, e: Event)
    requires Explained(cfg, events, s)
    ensures Explained(cfg, events + [e], Step(cfg, s, e))
  {
    var t, after := Step(cfg, s, e), events + [e];
    var more := t.log.posted[|s.log.posted|..];
    assert after[..|events|] == events && after[|events|] == e;
    assert t.log.posted == s.log.posted + more;
    SentStep(cfg, events, s, e);
    if s.host.settled.Some? {
      MoreJustifies(cfg, events, e, s.log.posted, more, s.host.settled.value);
    } else if e.HostReads? && s.toHost != [] {
      assert Sent(events, s.log.posted, s.toHost[0]);
    }
  }

  lemma EndsStep(cfg: Config, events: seq<Event>, s: System, e: Event)
    requires Ends(events, s)
    ensures Ends(events + [e], Step(cfg, s, e))
  {
    var t := Step(cfg, s, e);
    assert forall m <- s.toHost :: m in t.toHost || (s.toHost != [] && m == s.toHost[0]);
    assert e.ToolReturns? || e.ToolThrows? ==> t.toHost[|s.toHost|] in t.toHost;
  }

  lemma {:induction false} AllExplained(cfg: Config, events: seq<Event>)
    ensures Explained(cfg, events, Reached(cfg, events)) && Ends(events, Reached(cfg, events))
    decreases |events|
  {
    if events != [] {
      var before, last := events[..|events| - 1], events[|events| - 1];
      AllExplained(cfg, before);
      ExplainedStep(cfg, before, Reached(cfg, before), last);
      EndsStep(cfg, before, Reached(cfg, before), last);
      assert events == before + [last] && [last][1..] == [];
      RunAppend(cfg, INITIAL, before, [last]);
    }
  }

  // Over every interleaving: the posted calls are the tool's, path by path and argument by
  // argument in plain form; the result says what the tool returned, threw or was stopped by,
  // or the gated call it stopped at; a timer, a worker error and every return or throw the
  // host has read end the run; and the run signal is aborted exactly when the run has ended.
  lemma ResultsAreEarned(cfg: Config, events: seq<Event>)
    ensures var s := Reached(cfg, events);
      && |s.log.posted| == |CallsMade(events)|
      && (forall k | 0 <= k < |s.log.posted| :: Carried(cfg, CallsMade(events)[k], s.log.posted[k]))
      && (s.host.settled.Some? ==> Justified(cfg, events, s.log.posted, s.host.settled.value))
      && Ends(events, s)
      && (s.host.aborted <==> s.host.settled.Some?)
  {
    AllExplained(cfg, events);
    assert INITIAL.log.posted[..0] == [];
    GateRun(cfg, INITIAL, events);
  }
}
