/** The workflow executor: run a compiled spec step by step, halt at a gated step
    nobody approved, and start over with that step's id added to the approvals. */
module Executor {
  import opened Wrappers
  import opened Text
  import opened Sniff
  import opened SniffFacts

  datatype Step = Step(
    id: string, kind: string, title: string, detail: string,
    integration: Option<string>, gated: bool, api: Option<ApiCall>)

  // What replaying one call came back with.
  datatype Reply = Reply(ok: bool, status: int, detail: string)

  datatype Mark = Fine | Failed | AwaitingApproval
  datatype RunStep = RunStep(stepId: string, mark: Mark, detail: string, httpStatus: Option<int>)
  datatype Pending = Pending(stepId: string, title: string, integration: Option<string>, detail: string)
  datatype Status = Done | NeedsApproval | Error
  datatype RunResult = RunResult(status: Status, steps: seq<RunStep>, digest: string, pending: Option<Pending>)

  predicate Waits(s: Step, approved: set<string>) {
    s.gated && s.id !in approved
  }

  predicate Passes(s: Step, approved: set<string>, reply: Reply) {
    !Waits(s, approved) && (s.api.Some? ==> reply.ok)
  }

  // ------------------------------------------------------------------
  // One run. `reply(i)` is what step i's call gets if it is issued.
  // ------------------------------------------------------------------

  // The first step at or after i that does not pass.
  function StopAt(steps: seq<Step>, approved: set<string>, reply: nat -> Reply, i: nat): (k: nat)
    requires i <= |steps|
    ensures i <= k <= |steps|
    ensures forall j | i <= j < k :: Passes(steps[j], approved, reply(j))
    ensures k < |steps| ==> !Passes(steps[k], approved, reply(k))
    decreases |steps| - i
  {
    if i < |steps| && Passes(steps[i], approved, reply(i)) then StopAt(steps, approved, reply, i + 1) else i
  }

  function PassedStep(s: Step, reply: Reply): RunStep {
    if s.api.Some? then RunStep(s.id, Fine, reply.detail, Some(reply.status))
    else RunStep(s.id, Fine, s.title + " ran (simulated).", None)
  }

  function Passed(steps: seq<Step>, reply: nat -> Reply, n: nat): seq<RunStep>
    requires n <= |steps|
  {
    seq(n, i requires 0 <= i < n => PassedStep(steps[i], reply(i)))
  }

  function Run(steps: seq<Step>, approved: set<string>, reply: nat -> Reply): RunResult {
    var k := StopAt(steps, approved, reply, 0);
    var passed := Passed(steps, reply, k);
    if k == |steps| then
      RunResult(Done, passed, "Ran " + Itoa(k) + " steps to completion.", None)
    else if Waits(steps[k], approved) then
      var s := steps[k];
      var system := if s.integration.Some? then s.integration.value else "an external system";
      RunResult(NeedsApproval,
        passed + [RunStep(s.id, AwaitingApproval, s.title + " mutates " + system + " — needs approval.", None)],
        "Paused at " + s.title + ": external mutation needs the human approval card.",
        Some(Pending(s.id, s.title, s.integration, s.detail)))
    else
      RunResult(Error,
        passed + [RunStep(steps[k].id, Failed, reply(k).detail, Some(reply(k).status))],
        "Halted at " + steps[k].title + ": " + reply(k).detail,
        None)
  }

  // How many leading steps had their turn: those that passed, and one that failed.
  function Reach(steps: seq<Step>, approved: set<string>, reply: nat -> Reply): (n: nat)
    ensures n <= |steps|
  {
    var k := StopAt(steps, approved, reply, 0);
    if k < |steps| && !Waits(steps[k], approved) then k + 1 else k
  }

  // The calls of the first n steps, in order.
  function Calls(steps: seq<Step>, n: nat): seq<ApiCall>
    requires n <= |steps|
  {
    if n == 0 then []
    else Calls(steps, n - 1) + (if steps[n - 1].api.Some? then [steps[n - 1].api.value] else [])
  }

  function Issued(steps: seq<Step>, approved: set<string>, reply: nat -> Reply): seq<ApiCall> {
    Calls(steps, Reach(steps, approved, reply))
  }

  lemma StopsOrPasses(steps: seq<Step>, approved: set<string>, reply: nat -> Reply, i: nat)
    requires i < |steps|
    ensures StopAt(steps, approved, reply, i)
         == if Passes(steps[i], approved, reply(i)) then StopAt(steps, approved, reply, i + 1) else i
  {
  }

  lemma PassedNext(steps: seq<Step>, reply: nat -> Reply, i: nat)
    requires i < |steps|
    ensures Passed(steps, reply, i + 1) == Passed(steps, reply, i) + [PassedStep(steps[i], reply(i))]
    ensures Calls(steps, i + 1) == Calls(steps, i) + (if steps[i].api.Some? then [steps[i].api.value] else [])
  {
  }

  method RunWorkflow(steps: seq<Step>, approvals: seq<string>, reply: nat -> Reply)
    returns (r: RunResult, calls: seq<ApiCall>)
    ensures r == Run(steps, Elems(approvals), reply)
    ensures calls == Issued(steps, Elems(approvals), reply)
  {
    ghost var approved := Elems(approvals);
    var log: seq<RunStep> := [];
    calls := [];
    for i := 0 to |steps|
      invariant StopAt(steps, approved, reply, i) == StopAt(steps, approved, reply, 0)
      invariant log == Passed(steps, reply, i)
      invariant calls == Calls(steps, i)
    {
      var s := steps[i];
      assert s.id in approvals <==> s.id in approved;
      StopsOrPasses(steps, approved, reply, i);
      PassedNext(steps, reply, i);
      if s.gated && s.id !in approvals {
        var system := if s.integration.Some? then s.integration.value else "an external system";
        log := log + [RunStep(s.id, AwaitingApproval, s.title + " mutates " + system + " — needs approval.", None)];
        return RunResult(NeedsApproval, log,
                         "Paused at " + s.title + ": external mutation needs the human approval card.",
                         Some(Pending(s.id, s.title, s.integration, s.detail))), calls;
      }
      if s.api.Some? {
        var got := reply(i);
        calls := calls + [s.api.value];
        log := log + [RunStep(s.id, if got.ok then Fine else Failed, got.detail, Some(got.status))];
        if !got.ok {
          return RunResult(Error, log, "Halted at " + s.title + ": " + got.detail, None), calls;
        }
      } else {
        log := log + [RunStep(s.id, Fine, s.title + " ran (simulated).", None)];
      }
    }
    r := RunResult(Done, log, "Ran " + Itoa(|log|) + " steps to completion.", None);
  }

  // Step i has its turn exactly when every step before it passed and no gate up to
  // and including its own is closed.
  lemma TurnExactly(steps: seq<Step>, approved: set<string>, reply: nat -> Reply, i: nat)
    requires i < |steps|
    ensures i < Reach(steps, approved, reply)
       <==> !Waits(steps[i], approved) && forall j | 0 <= j < i :: Passes(steps[j], approved, reply(j))
  {
    var k := StopAt(steps, approved, reply, 0);
    if k < i { assert !Passes(steps[k], approved, reply(k)); }
  }

  // A step whose gate, if it has one, is open, and whose call, if it makes one, succeeds.
  ghost predicate Goes(s: Step, approved: set<string>, reply: Reply) {
    (s.gated ==> s.id in approved) && (s.api.Some? ==> reply.ok)
  }

  // Step k is the first that does not go; all do when it is the end.
  ghost predicate FirstStop(steps: seq<Step>, approved: set<string>, reply: nat -> Reply, k: nat) {
    && k <= |steps| && (forall i | 0 <= i < k :: Goes(steps[i], approved, reply(i)))
    && (k < |steps| ==> !Goes(steps[k], approved, reply(k)))
  }

  // What a run reports: each step before the first that does not go as fine, with its reply or
  // as simulated; and that one as awaiting approval when its gate is closed, with the card to
  // show, or as failed with what its call came back with.
  lemma RunReports(steps: seq<Step>, approved: set<string>, reply: nat -> Reply, k: nat)
    requires FirstStop(steps, approved, reply, k)
    ensures var r := Run(steps, approved, reply);
      && |r.steps| == (if k == |steps| then k else k + 1)
      && (forall i | 0 <= i < k :: r.steps[i] ==
            if steps[i].api.Some? then RunStep(steps[i].id, Fine, reply(i).detail, Some(reply(i).status))
            else RunStep(steps[i].id, Fine, steps[i].title + " ran (simulated).", None))
    ensures var r := Run(steps, approved, reply);
      if k == |steps| then r.status == Done && r.pending == None
      else if steps[k].gated && steps[k].id !in approved then
        && r.status == NeedsApproval && r.steps[k].stepId == steps[k].id
        && r.steps[k].mark == AwaitingApproval && r.steps[k].httpStatus == None
        && r.pending == Some(Pending(steps[k].id, steps[k].title, steps[k].integration, steps[k].detail))
      else
        && r.status == Error && r.pending == None
        && r.steps[k] == RunStep(steps[k].id, Failed, reply(k).detail, Some(reply(k).status))
  {
    var j := StopAt(steps, approved, reply, 0);
    assert forall i | 0 <= i < |steps| :: Goes(steps[i], approved, reply(i)) == Passes(steps[i], approved, reply(i));
    assert j == k;
  }

  // ------------------------------------------------------------------
  // More approvals only carry a run further
  // ------------------------------------------------------------------

  lemma {:induction false} CallsPrefix(steps: seq<Step>, m: nat, n: nat)
    requires m <= n <= |steps|
    ensures Calls(steps, m) <= Calls(steps, n)
    decreases n
  {
    if m < n { CallsPrefix(steps, m, n - 1); }
  }

  lemma ApprovalsExtendARun(steps: seq<Step>, a: set<string>, b: set<string>, reply: nat -> Reply)
    requires a <= b
    ensures Issued(steps, a, reply) <= Issued(steps, b, reply)
    ensures Run(steps, a, reply).status != NeedsApproval
        ==> Run(steps, b, reply) == Run(steps, a, reply) && Issued(steps, b, reply) == Issued(steps, a, reply)
  {
    var k, l := StopAt(steps, a, reply, 0), StopAt(steps, b, reply, 0);
    assert k <= l;
    assert k < |steps| && !Waits(steps[k], a) ==> l == k;
    CallsPrefix(steps, Reach(steps, a, reply), Reach(steps, b, reply));
  }

  // ------------------------------------------------------------------
  // Approve and run again
  // ------------------------------------------------------------------

  // One run of the loop: its result, its calls, and how many leading steps had their turn.
  datatype Turn = Turn(result: RunResult, calls: seq<ApiCall>, reach: nat)

  function TurnOf(steps: seq<Step>, approved: set<string>, reply: nat -> Reply): Turn {
    Turn(Run(steps, approved, reply), Issued(steps, approved, reply), Reach(steps, approved, reply))
  }

  function GatedIds(steps: seq<Step>): set<string> {
    set s | s in steps && s.gated :: s.id
  }

  lemma PendingIsNew(steps: seq<Step>, approved: set<string>, reply: nat -> Reply)
    ensures var r := Run(steps, approved, reply);
      r.status == NeedsApproval ==> r.pending.Some? && r.pending.value.stepId in GatedIds(steps) - approved
  {
    var k := StopAt(steps, approved, reply, 0);
    if k < |steps| && Waits(steps[k], approved) {
      assert steps[k] in steps && steps[k].gated;
    }
  }

  lemma ApprovalShrinks(ids: set<string>, approved: set<string>, id: string)
    requires id in ids - approved
    ensures |ids - (approved + {id})| == |ids - approved| - 1
  {
    assert ids - (approved + {id}) == (ids - approved) - {id};
  }

  // Each halt is answered by approving the pending step and starting over; the world
  // may answer differently each time.
  function Reruns(steps: seq<Step>, approved: set<string>, world: nat -> nat -> Reply, n: nat): (turns: seq<Turn>)
    ensures turns != []
    decreases |GatedIds(steps) - approved|
  {
    var r := Run(steps, approved, world(n));
    var turn := TurnOf(steps, approved, world(n));
    PendingIsNew(steps, approved, world(n));
    if r.status == NeedsApproval then
      ApprovalShrinks(GatedIds(steps), approved, r.pending.value.stepId);
      [turn] + Reruns(steps, approved + {r.pending.value.stepId}, world, n + 1)
    else [turn]
  }

  ghost predicate AllFine(world: nat -> nat -> Reply) {
    forall n: nat, i: nat :: world(n)(i).ok
  }

  // One turn of the loop: either it halts at an id not yet approved and goes on with that
  // id approved, or it ends.
  lemma RerunsNext(steps: seq<Step>, approved: set<string>, world: nat -> nat -> Reply, n: nat)
    ensures var r, turns := Run(steps, approved, world(n)), Reruns(steps, approved, world, n);
      if r.status == NeedsApproval then
        && r.pending.Some?
        && (var next := approved + {r.pending.value.stepId};
            && |GatedIds(steps) - next| == |GatedIds(steps) - approved| - 1
            && turns == [TurnOf(steps, approved, world(n))] + Reruns(steps, next, world, n + 1))
      else turns == [TurnOf(steps, approved, world(n))]
  {
    PendingIsNew(steps, approved, world(n));
    var r := Run(steps, approved, world(n));
    if r.status == NeedsApproval {
      ApprovalShrinks(GatedIds(steps), approved, r.pending.value.stepId);
    }
  }

  ghost predicate HaltsUntilTheLast(turns: seq<Turn>) {
    && turns != [] && turns[|turns| - 1].result.status != NeedsApproval
    && forall t | 0 <= t < |turns| - 1 :: turns[t].result.status == NeedsApproval
  }

  lemma HaltsBefore(turn: Turn, rest: seq<Turn>)
    requires turn.result.status == NeedsApproval && HaltsUntilTheLast(rest)
    ensures HaltsUntilTheLast([turn] + rest)
  {
  }

  lemma {:induction false} RerunsHalt(steps: seq<Step>, approved: set<string>, world: nat -> nat -> Reply, n: nat)
    ensures var turns := Reruns(steps, approved, world, n);
      HaltsUntilTheLast(turns) && |turns| <= |GatedIds(steps) - approved| + 1
    decreases |GatedIds(steps) - approved|
  {
    var r := Run(steps, approved, world(n));
    RerunsNext(steps, approved, world, n);
    if r.status == NeedsApproval {
      var next := approved + {r.pending.value.stepId};
      RerunsHalt(steps, next, world, n + 1);
      HaltsBefore(TurnOf(steps, approved, world(n)), Reruns(steps, next, world, n + 1));
    }
  }

  lemma {:induction false} RerunsFinish(steps: seq<Step>, approved: set<string>, world: nat -> nat -> Reply, n: nat)
    requires AllFine(world)
    ensures var turns := Reruns(steps, approved, world, n);
      |turns| == |GatedIds(steps) - approved| + 1 && turns[|turns| - 1].result.status == Done
    decreases |GatedIds(steps) - approved|
  {
    var r := Run(steps, approved, world(n));
    RerunsNext(steps, approved, world, n);
    if r.status == NeedsApproval {
      RerunsFinish(steps, approved + {r.pending.value.stepId}, world, n + 1);
    } else {
      AllFineFinishes(steps, approved, world(n));
    }
  }

  // The loop settles within one run per distinct gated id plus one, and when every call
  // succeeds it takes exactly that many.
  lemma RerunsSettle(steps: seq<Step>, approved: set<string>, world: nat -> nat -> Reply, n: nat)
    ensures var turns := Reruns(steps, approved, world, n);
      && |turns| <= |GatedIds(steps) - approved| + 1
      && turns[|turns| - 1].result.status != NeedsApproval
      && (forall t | 0 <= t < |turns| - 1 :: turns[t].result.status == NeedsApproval)
    ensures var turns := Reruns(steps, approved, world, n);
      AllFine(world) ==>
        |turns| == |GatedIds(steps) - approved| + 1 && turns[|turns| - 1].result.status == Done
  {
    RerunsHalt(steps, approved, world, n);
    if AllFine(world) { RerunsFinish(steps, approved, world, n); }
  }

  // With every call answered, a run that needs no approval met no closed gate at all.
  lemma AllFineFinishes(steps: seq<Step>, approved: set<string>, reply: nat -> Reply)
    requires forall i: nat :: reply(i).ok
    requires Run(steps, approved, reply).status != NeedsApproval
    ensures Run(steps, approved, reply).status == Done
    ensures GatedIds(steps) - approved == {}
  {
    var k := StopAt(steps, approved, reply, 0);
    assert k == |steps|;
    forall id | id in GatedIds(steps) ensures id in approved {
      var s :| s in steps && s.gated && s.id == id;
      var i :| 0 <= i < |steps| && steps[i] == s;
      assert Passes(steps[i], approved, reply(i));
    }
  }

  // ------------------------------------------------------------------
  // A call made before a later halt is made again
  // ------------------------------------------------------------------

  ghost predicate LastTurnOnly(turns: seq<Turn>) {
    forall t | 0 <= t < |turns| - 1 :: turns[t].calls == []
  }

  // Step i has a call, and a later step waits on an approval that no step up to i asks for.
  ghost predicate CallAhead(steps: seq<Step>, approved: set<string>, i: nat, j: nat) {
    && i < j < |steps| && steps[i].api.Some?
    && Waits(steps[j], approved) && steps[j].id !in GatedIds(steps[..i + 1])
  }

  ghost predicate CallAheadOfGate(steps: seq<Step>, approved: set<string>) {
    exists i: nat, j: nat :: CallAhead(steps, approved, i, j)
  }

  // No step's call goes out in two turns.
  ghost predicate IssuedOnce(steps: seq<Step>, turns: seq<Turn>) {
    forall i, t, u | 0 <= i < |steps| && steps[i].api.Some? && 0 <= t < u < |turns| ::
      !(i < turns[t].reach && i < turns[u].reach)
  }

  // No step's call is issued twice on the way through the approvals, in whatever world,
  // exactly when no call stands ahead of a fresh gate.
  lemma CallsRepeatExactly(steps: seq<Step>, approved: set<string>)
    ensures (forall world: nat -> nat -> Reply :: IssuedOnce(steps, Reruns(steps, approved, world, 0)))
       <==> !CallAheadOfGate(steps, approved)
  {
    if CallAheadOfGate(steps, approved) {
      var i: nat, j: nat :| CallAhead(steps, approved, i, j);
      var world: nat -> nat -> Reply := (n: nat) => (k: nat) => Reply(true, 200, "");
      CallRepeats(steps, approved, world, 0, i, j);
      OnceIffLastOnly(steps, approved, world, 0);
      assert !IssuedOnce(steps, Reruns(steps, approved, world, 0));
    } else {
      forall world: nat -> nat -> Reply ensures IssuedOnce(steps, Reruns(steps, approved, world, 0)) {
        NothingAhead(steps, approved, world, 0);
        OnceIffLastOnly(steps, approved, world, 0);
      }
    }
  }

  lemma {:induction false} FirstCall(steps: seq<Step>, n: nat) returns (i: nat)
    requires n <= |steps| && Calls(steps, n) != []
    ensures i < n && steps[i].api.Some? && forall j | 0 <= j < i :: steps[j].api.None?
  {
    if Calls(steps, n - 1) != [] {
      i := FirstCall(steps, n - 1);
    } else {
      i := n - 1;
      forall j | 0 <= j < i && steps[j].api.Some? ensures false { CallsHold(steps, i, j); }
    }
  }

  // The first call of a run goes out again in every run under more approvals, however
  // the world then answers.
  lemma FirstCallAgain(steps: seq<Step>, a: set<string>, b: set<string>, r: nat -> Reply, q: nat -> Reply) returns (i: nat)
    requires a <= b && Issued(steps, a, r) != []
    ensures i < |steps| && steps[i].api.Some? && i < Reach(steps, a, r) && i < Reach(steps, b, q)
    ensures forall j | 0 <= j < i :: steps[j].api.None?
  {
    i := FirstCall(steps, Reach(steps, a, r));
    TurnExactly(steps, a, r, i);
    TurnExactly(steps, b, q, i);
    forall j | 0 <= j < i ensures Passes(steps[j], b, q(j)) {
      assert Passes(steps[j], a, r(j));
    }
  }

  // Turns each run under some approvals, the next under no fewer.
  ghost predicate Linked(turns: seq<Turn>, turnOf: (set<string>, nat) -> Turn, a: set<string>, n: nat)
    decreases |turns|
  {
    && turns != [] && turns[0] == turnOf(a, n)
    && (|turns| > 1 ==> exists b :: a <= b && Linked(turns[1..], turnOf, b, n + 1))
  }

  function TurnUnder(steps: seq<Step>, world: nat -> nat -> Reply): (set<string>, nat) -> Turn {
    (a: set<string>, n: nat) => TurnOf(steps, a, world(n))
  }

  lemma {:induction false} RerunsLinked(steps: seq<Step>, approved: set<string>, world: nat -> nat -> Reply, n: nat)
    ensures Linked(Reruns(steps, approved, world, n), TurnUnder(steps, world), approved, n)
    decreases |GatedIds(steps) - approved|
  {
    RerunsNext(steps, approved, world, n);
    var r := Run(steps, approved, world(n));
    if r.status == NeedsApproval {
      var next := approved + {r.pending.value.stepId};
      RerunsLinked(steps, next, world, n + 1);
      var rest := Reruns(steps, next, world, n + 1);
      LinkedCons(TurnOf(steps, approved, world(n)), rest, TurnUnder(steps, world), approved, next, n);
    }
  }

  lemma LinkedCons(first: Turn, rest: seq<Turn>, turnOf: (set<string>, nat) -> Turn, a: set<string>, b: set<string>, n: nat)
    requires first == turnOf(a, n) && a <= b && Linked(rest, turnOf, b, n + 1)
    ensures Linked([first] + rest, turnOf, a, n)
  {
    assert ([first] + rest)[1..] == rest;
  }

  lemma {:induction false} LinkedAt(turns: seq<Turn>, turnOf: (set<string>, nat) -> Turn, a0: set<string>, n: nat, t: nat)
    returns (a: set<string>, b: set<string>)
    requires Linked(turns, turnOf, a0, n) && t < |turns|
    ensures turns[t] == turnOf(a, n + t) && a <= b
    ensures t + 1 < |turns| ==> turns[t + 1] == turnOf(b, n + t + 1)
    decreases t
  {
    if |turns| == 1 {
      return a0, a0;
    }
    var next :| a0 <= next && Linked(turns[1..], turnOf, next, n + 1);
    if t == 0 {
      a, b := a0, next;
    } else {
      a, b := LinkedAt(turns[1..], turnOf, next, n + 1, t - 1);
    }
  }

  lemma TurnAt(steps: seq<Step>, approved: set<string>, world: nat -> nat -> Reply, n: nat, t: nat)
    returns (a: set<string>, b: set<string>)
    requires t < |Reruns(steps, approved, world, n)|
    ensures var turns := Reruns(steps, approved, world, n);
      && turns[t] == TurnOf(steps, a, world(n + t)) && a <= b
      && (t + 1 < |turns| ==> turns[t + 1] == TurnOf(steps, b, world(n + t + 1)))
  {
    RerunsLinked(steps, approved, world, n);
    a, b := LinkedAt(Reruns(steps, approved, world, n), TurnUnder(steps, world), approved, n, t);
  }

  // A run that halts after calling is followed by one that makes its first call again.
  lemma HaltedCallsGoOutAgain(steps: seq<Step>, approved: set<string>, world: nat -> nat -> Reply, n: nat, t: nat)
    returns (i: nat)
    requires var turns := Reruns(steps, approved, world, n);
      t < |turns| - 1 && turns[t].calls != []
    ensures var turns := Reruns(steps, approved, world, n);
      i < |steps| && steps[i].api.Some? && i < turns[t].reach && i < turns[t + 1].reach
    ensures forall j | 0 <= j < i :: steps[j].api.None?
  {
    var a, b := TurnAt(steps, approved, world, n, t);
    i := FirstCallAgain(steps, a, b, world(n + t), world(n + t + 1));
  }

  // When the world answers the same call the same way each time, a run repeats every call
  // of the run before it, in order, before it makes a new one.
  lemma SteadyWorldRepeatsAll(steps: seq<Step>, approved: set<string>, world: nat -> nat -> Reply, n: nat, t: nat)
    requires forall k: nat, l: nat :: world(k) == world(l)
    requires t < |Reruns(steps, approved, world, n)| - 1
    ensures var turns := Reruns(steps, approved, world, n);
      turns[t].calls <= turns[t + 1].calls
  {
    var a, b := TurnAt(steps, approved, world, n, t);
    ApprovalsExtendARun(steps, a, b, world(n + t));
  }

  lemma OnceIffLastOnly(steps: seq<Step>, approved: set<string>, world: nat -> nat -> Reply, n: nat)
    ensures var turns := Reruns(steps, approved, world, n);
      IssuedOnce(steps, turns) <==> LastTurnOnly(turns)
  {
    var turns := Reruns(steps, approved, world, n);
    if t :| 0 <= t < |turns| - 1 && turns[t].calls != [] {
      var i := HaltedCallsGoOutAgain(steps, approved, world, n, t);
      assert !IssuedOnce(steps, turns);
    } else {
      forall i, t | 0 <= t < |turns| - 1 && 0 <= i < |steps| && steps[i].api.Some? ensures i >= turns[t].reach {
        var a, b := TurnAt(steps, approved, world, n, t);
        if i < turns[t].reach { CallsHold(steps, turns[t].reach, i); }
      }
    }
  }

  // When every call succeeds, the run halts at a gate no later than j; if it is j's id it
  // asks for, step i's call went out before.
  lemma HaltsByGate(steps: seq<Step>, approved: set<string>, reply: nat -> Reply, i: nat, j: nat)
    requires (forall k: nat :: reply(k).ok) && CallAhead(steps, approved, i, j)
    ensures var r := Run(steps, approved, reply);
      && r.status == NeedsApproval && r.pending.Some?
      && (r.pending.value.stepId == steps[j].id ==> Issued(steps, approved, reply) != [])
  {
    var k := StopAt(steps, approved, reply, 0);
    assert k <= j;
    assert reply(k).ok && Waits(steps[k], approved);
    if steps[k].id == steps[j].id {
      assert forall m | 0 <= m <= i :: steps[m] in steps[..i + 1];
      assert i < k;
      CallsHold(steps, k, i);
    }
  }

  lemma {:induction false} CallRepeats(
    steps: seq<Step>, approved: set<string>, world: nat -> nat -> Reply, n: nat, i: nat, j: nat)
    requires AllFine(world) && CallAhead(steps, approved, i, j)
    ensures !LastTurnOnly(Reruns(steps, approved, world, n))
    decreases |GatedIds(steps) - approved|
  {
    HaltsByGate(steps, approved, world(n), i, j);
    RerunsNext(steps, approved, world, n);
    var id := Run(steps, approved, world(n)).pending.value.stepId;
    var rest := Reruns(steps, approved + {id}, world, n + 1);
    var turns := Reruns(steps, approved, world, n);
    if id == steps[j].id {
      assert turns[0].calls != [];
    } else {
      CallRepeats(steps, approved + {id}, world, n + 1, i, j);
      var t :| 0 <= t < |rest| - 1 && rest[t].calls != [];
      assert turns[t + 1] == rest[t];
    }
  }

  lemma {:induction false} CallsHold(steps: seq<Step>, n: nat, i: nat)
    requires i < n <= |steps| && steps[i].api.Some?
    ensures Calls(steps, n) != []
  {
    if i < n - 1 { CallsHold(steps, n - 1, i); }
  }

  lemma {:induction false} CallsFrom(steps: seq<Step>, n: nat) returns (i: nat)
    requires n <= |steps| && Calls(steps, n) != []
    ensures i < n && steps[i].api.Some?
  {
    if steps[n - 1].api.Some? { i := n - 1; } else { i := CallsFrom(steps, n - 1); }
  }

  lemma {:induction false} NothingAhead(steps: seq<Step>, approved: set<string>, world: nat -> nat -> Reply, n: nat)
    requires !CallAheadOfGate(steps, approved)
    ensures LastTurnOnly(Reruns(steps, approved, world, n))
    decreases |GatedIds(steps) - approved|
  {
    var r := Run(steps, approved, world(n));
    RerunsNext(steps, approved, world, n);
    if r.status == NeedsApproval {
      var id := r.pending.value.stepId;
      if Issued(steps, approved, world(n)) != [] {
        CallBeforeHalt(steps, approved, world(n));
        assert false;
      }
      forall i: nat, j: nat ensures !CallAhead(steps, approved + {id}, i, j) {
        assert !CallAhead(steps, approved, i, j);
      }
      NothingAhead(steps, approved + {id}, world, n + 1);
    }
  }

  lemma CallBeforeHalt(steps: seq<Step>, approved: set<string>, reply: nat -> Reply)
    requires Run(steps, approved, reply).status == NeedsApproval && Issued(steps, approved, reply) != []
    ensures CallAheadOfGate(steps, approved)
  {
    var k := StopAt(steps, approved, reply, 0);
    var i := CallsFrom(steps, k);
    forall s | s in steps[..i + 1] && s.gated ensures s.id in approved {
      var m :| 0 <= m < i + 1 && steps[..i + 1][m] == s;
      assert Passes(steps[m], approved, reply(m));
    }
    assert CallAhead(steps, approved, i, k);
  }

  // ------------------------------------------------------------------
  // Workflows captured from traffic
  // ------------------------------------------------------------------

  function KindName(kind: AuthKind): string {
    match kind
    case ApiKey => "api_key"
    case Bearer => "bearer"
    case Session => "session"
    case NoAuth => "none"
  }

  function ToStep(lex: Lexicon, r: SniffResult, i: nat): Step {
    var mutating := r.call.verb in MUTATING;
    Step("sniff-" + Itoa(i), if mutating then "action" else "enrich",
         r.call.verb + " " + lex.path(r.call.url),
         if r.rotating then "Captured call — auth is a rotating " + KindName(r.kind) + "; needs a live session."
         else "Captured call (auth: " + KindName(r.kind) + ").",
         Some(lex.host(r.call.url)), mutating, Some(r.call))
  }

  function SniffToSteps(lex: Lexicon, entries: seq<Entry>): (steps: seq<Step>) {
    var found := SniffAll(lex, entries);
    seq(|found|, i requires 0 <= i < |found| => ToStep(lex, found[i], i))
  }

  lemma StepIdsDiffer(lex: Lexicon, entries: seq<Entry>, i: nat, j: nat)
    requires i < |SniffToSteps(lex, entries)| && j < |SniffToSteps(lex, entries)|
    requires SniffToSteps(lex, entries)[i].id == SniffToSteps(lex, entries)[j].id
    ensures i == j
  {
    var a, b := "sniff-" + Itoa(i), "sniff-" + Itoa(j);
    assert a[6..] == Itoa(i) && b[6..] == Itoa(j);
    ItoaInjective(i, j);
  }

  // Every step of a captured workflow makes a call, so the k-th call is the k-th step's.
  lemma {:induction false} CapturedCalls(steps: seq<Step>, n: nat)
    requires n <= |steps| && forall s <- steps :: s.api.Some?
    ensures |Calls(steps, n)| == n && forall k | 0 <= k < n :: Calls(steps, n)[k] == steps[k].api.value
  {
    if n > 0 {
      assert steps[n - 1] in steps;
      CapturedCalls(steps, n - 1);
    }
  }

  // The methods that change something on the other side.
  predicate Mutates(lex: Lexicon, e: Entry) {
    lex.upper(if e.verb == "" then "GET" else e.verb) in {"POST", "PUT", "PATCH", "DELETE"}
  }

  // What the approval card shows of a call.
  ghost predicate Shows(lex: Lexicon, s: Step, call: ApiCall) {
    s.title == call.verb + " " + lex.path(call.url) && s.integration == Some(lex.host(call.url))
  }

  lemma StepIsRequest(lex: Lexicon, r: SniffResult, e: Entry, k: nat)
    requires r == SniffEntry(lex, e)
    ensures var s := ToStep(lex, r, k);
      && s.id == "sniff-" + Itoa(k) && s.api == Some(r.call) && Shows(lex, s, r.call)
      && (s.gated <==> Mutates(lex, e)) && s.kind == (if Mutates(lex, e) then "action" else "enrich")
  {
  }

  // The k-th step of a captured workflow is the k-th captured request's: gated exactly when
  // its method, upper-cased, is one of the four.
  lemma StepsAreRequests(lex: Lexicon, entries: seq<Entry>)
    ensures var steps, requests := SniffToSteps(lex, entries), Requests(entries);
      |steps| == |requests| && forall k | 0 <= k < |steps| ::
        && steps[k].id == "sniff-" + Itoa(k) && steps[k].api == Some(SniffEntry(lex, requests[k]).call)
        && (steps[k].gated <==> Mutates(lex, requests[k])) && Shows(lex, steps[k], SniffEntry(lex, requests[k]).call)
        && steps[k].kind == (if Mutates(lex, requests[k]) then "action" else "enrich")
  {
    ResultsAreRequests(lex, entries);
    var found, requests := SniffAll(lex, entries), Requests(entries);
    forall k | 0 <= k < |requests|
      ensures var s := ToStep(lex, found[k], k);
        && s.id == "sniff-" + Itoa(k) && s.api == Some(SniffEntry(lex, requests[k]).call)
        && Shows(lex, s, SniffEntry(lex, requests[k]).call)
        && (s.gated <==> Mutates(lex, requests[k])) && s.kind == (if Mutates(lex, requests[k]) then "action" else "enrich")
    {
      StepIsRequest(lex, found[k], requests[k], k);
    }
  }

  // Whatever the approvals and the world, the k-th request issued is the k-th captured one,
  // as `SniffedRequest` says it is kept; and one captured with a mutating method goes out only
  // with its own step's id approved, so with no approvals none does.
  lemma MutationsNeedApproval(lex: Lexicon, entries: seq<Entry>, approved: set<string>, reply: nat -> Reply)
    ensures var calls, requests := Issued(SniffToSteps(lex, entries), approved, reply), Requests(entries);
      |calls| <= |requests| && forall k | 0 <= k < |calls| ::
        && calls[k] == SniffEntry(lex, requests[k]).call
        && (Mutates(lex, requests[k]) ==> "sniff-" + Itoa(k) in approved)
    ensures var calls, requests := Issued(SniffToSteps(lex, entries), {}, reply), Requests(entries);
      |calls| <= |requests| && forall k | 0 <= k < |calls| :: !Mutates(lex, requests[k])
  {
    StepsAreRequests(lex, entries);
    MutationsApproved(lex, entries, approved, reply);
    MutationsApproved(lex, entries, {}, reply);
  }

  lemma MutationsApproved(lex: Lexicon, entries: seq<Entry>, approved: set<string>, reply: nat -> Reply)
    ensures var steps, calls := SniffToSteps(lex, entries), Issued(SniffToSteps(lex, entries), approved, reply);
      |calls| <= |steps| && forall k | 0 <= k < |calls| ::
        steps[k].api == Some(calls[k]) && (steps[k].gated ==> steps[k].id in approved)
  {
    var steps := SniffToSteps(lex, entries);
    CapturedCalls(steps, Reach(steps, approved, reply));
    forall k | 0 <= k < Reach(steps, approved, reply) ensures !Waits(steps[k], approved) {
      TurnExactly(steps, approved, reply, k);
    }
  }

  // A captured workflow carried through its approvals repeats no request exactly when
  // only its first request, if any, was captured with a mutating method.
  lemma CapturedCallsRepeatExactly(lex: Lexicon, entries: seq<Entry>)
    ensures var steps, requests := SniffToSteps(lex, entries), Requests(entries);
      (forall world: nat -> nat -> Reply :: IssuedOnce(steps, Reruns(steps, {}, world, 0)))
      <==> forall j | 1 <= j < |requests| :: !Mutates(lex, requests[j])
  {
    var steps := SniffToSteps(lex, entries);
    StepsAreRequests(lex, entries);
    CallsRepeatExactly(steps, {});
    forall j | 1 <= j < |steps| && steps[j].gated ensures CallAhead(steps, {}, 0, j) {
      CapturedAhead(lex, entries, j);
    }
  }

  lemma CapturedAhead(lex: Lexicon, entries: seq<Entry>, j: nat)
    requires var steps := SniffToSteps(lex, entries);
      1 <= j < |steps| && steps[j].gated
    ensures CallAhead(SniffToSteps(lex, entries), {}, 0, j)
  {
    var steps := SniffToSteps(lex, entries);
    forall s | s in steps[..1] ensures s.id != steps[j].id {
      assert s == steps[0];
      if s.id == steps[j].id { StepIdsDiffer(lex, entries, 0, j); }
    }
  }
}
