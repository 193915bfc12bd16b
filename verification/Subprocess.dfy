/**
 What the allow subprocess returned and what became of it: every `applied` or `apply_failed` event of a run, and
 every allowed row, goes back to the step in which that call's subprocess returned just that outcome
 (src/egress_broker_host.py:1219-1258).
 */
module Subprocess {
  import opened Wrappers
  import opened RequestStore
  import opened DenyZones
  import opened Protocol
  import opened ProtocolInvariant
  import opened ProtocolSafety

  // ------------------------------------------------------------------ one call

  /** The subprocess of this call has returned, with this outcome, and the call has not ended. */
  predicate HasReturned(t: Thread, id: Id, ok: bool) {
    || (t.ApplyReturned? && t.id == id && t.ok == ok)
    || (ok && (t.AllowMark? || t.AllowClose?) && t.id == id)
    || (!ok && t.AllowFail? && t.id == id)
  }

  predicate ReturnedTo(s: State, tid: Tid, id: Id, ok: bool) {
    tid in s.threads && HasReturned(s.threads[tid], id, ok)
  }

  /** The step in which the subprocess returns: the thread waits for it, and the outcome is the step's. */
  predicate Returns(s: State, a: Action, tid: Tid, id: Id, ok: bool) {
    && a.Step? && a.tid == tid && a.choice.flag == ok
    && tid in s.threads && s.threads[tid].Applying? && s.threads[tid].id == id
  }

  lemma ReturnComesFromTheSubprocess(s: State, w: Thread, c: Choice, id: Id, ok: bool)
    requires UniqueOpen(s.store) && |s.file| > 0 && MoveOf(s, w, c).Some?
    requires !HasReturned(w, id, ok) && HasReturned(MoveOf(s, w, c).value.next, id, ok)
    ensures w.Applying? && w.id == id && c.flag == ok
  {
  }

  lemma StepReturns(s: State, a: Action, tid: Tid, id: Id, ok: bool)
    requires Inv(s) && !ReturnedTo(s, tid, id, ok) && ReturnedTo(Act(s, a), tid, id, ok)
    ensures Returns(s, a, tid, id, ok)
  {
    ThreadChanges(s, a, tid);
    ReturnComesFromTheSubprocess(s, s.threads[tid], a.choice, id, ok);
  }

  ghost predicate ReturnedSince(s: State, schedule: seq<Action>, k: nat, tid: Tid, id: Id, ok: bool)
    requires Inv(s)
  {
    forall j :: k < j <= |schedule| ==> ReturnedTo(Exec(s, schedule[..j]), tid, id, ok)
  }

  /** In the k-th step the subprocess returned this outcome to the call, which is under way ever since. */
  ghost predicate ReturnsAt(s: State, schedule: seq<Action>, k: nat, tid: Tid, id: Id, ok: bool)
    requires Inv(s) && k < |schedule|
  {
    Returns(Exec(s, schedule[..k]), schedule[k], tid, id, ok) && ReturnedSince(s, schedule, k, tid, id, ok)
  }

  lemma TurningStepReturns(s: State, schedule: seq<Action>, k: nat, tid: Tid, id: Id, ok: bool)
    requires Inv(s) && k < |schedule|
    requires !ReturnedTo(Exec(s, schedule[..k]), tid, id, ok) && ReturnedSince(s, schedule, k, tid, id, ok)
    ensures ReturnsAt(s, schedule, k, tid, id, ok)
  {
    ExecStep(s, schedule, k);
    StepReturns(Exec(s, schedule[..k]), schedule[k], tid, id, ok);
  }

  /** After how many steps of the run the outcome had been returned to the call. */
  ghost function ReturnedAfter(s: State, schedule: seq<Action>, tid: Tid, id: Id, ok: bool): (p: seq<bool>)
    requires Inv(s)
    ensures |p| == |schedule| + 1
    ensures forall k :: 0 <= k <= |schedule| ==> p[k] == ReturnedTo(Exec(s, schedule[..k]), tid, id, ok)
  {
    seq(|schedule| + 1, k requires 0 <= k <= |schedule| => ReturnedTo(Exec(s, schedule[..k]), tid, id, ok))
  }

  /** Every call past its subprocess had that outcome returned to it. */
  lemma OutcomesWereReturned(s: State, schedule: seq<Action>, tid: Tid, id: Id, ok: bool)
    requires Inv(s) && !ReturnedTo(s, tid, id, ok) && ReturnedTo(Exec(s, schedule), tid, id, ok)
    ensures exists k :: 0 <= k < |schedule| && ReturnsAt(s, schedule, k, tid, id, ok)
  {
    var p := ReturnedAfter(s, schedule, tid, id, ok);
    assert schedule[..0] == [] && schedule[..|schedule|] == schedule;
    var k := SomeStepTurns(p);
    TurningStepReturns(s, schedule, k, tid, id, ok);
  }

  // ------------------------------------------------------------------ what a step logs

  /** Only a call whose subprocess succeeded logs `applied` or allows; only one whose subprocess failed logs that. */
  lemma WhoLogs(s: State, w: Thread, c: Choice)
    requires UniqueOpen(s.store) && |s.file| > 0 && ThreadOk(s, w) && MoveOf(s, w, c).Some?
    requires MoveOf(s, w, c).value.op.Some?
    ensures var op := MoveOf(s, w, c).value.op.value;
      && (op.DoApply? && op.outcome == Applied ==> HasReturned(w, op.id, true))
      && (op.DoApply? && op.outcome == ApplyFailed ==> HasReturned(w, op.id, false))
      && (op.DoClose? && op.verdict.status == Allowed ==> HasReturned(w, op.id, true))
  {
  }

  /** The outcome an event of the log reports, if it reports one of a subprocess. */
  function Reported(kind: EventKind): Option<bool> {
    match kind
    case ApplySucceeded => Some(true)
    case ApplyError(outcome, _) => if outcome == ApplyFailed then Some(false) else None
    case _ => None
  }

  lemma OpLogs(s: Store, op: Op)
    requires UniqueOpen(s) && |Perform(s, op).events| > |s.events|
    ensures |Perform(s, op).events| == |s.events| + 1
    ensures var e := Perform(s, op).events[|s.events|];
      Reported(e.kind).Some? ==>
        op.DoApply? && op.id == e.request && op.outcome == if Reported(e.kind).value then Applied else ApplyFailed
  {
  }

  /** The step appends the n-th event of the log. */
  ghost predicate Appends(s: State, a: Action, n: nat)
    requires UniqueOpen(s.store) && |s.file| > 0
  {
    |s.store.events| <= n < |Act(s, a).store.events|
  }

  lemma StepLogs(s: State, a: Action, n: nat)
    requires Inv(s) && Appends(s, a, n) && Reported(Act(s, a).store.events[n].kind).Some?
    ensures var e := Act(s, a).store.events[n]; a.Step? && ReturnedTo(s, a.tid, e.request, Reported(e.kind).value)
  {
    var w := s.threads[a.tid];
    assert ThreadOk(s, w);
    OpLogs(s.store, MoveOf(s, w, a.choice).value.op.value);
    WhoLogs(s, w, a.choice);
  }

  lemma StepAllows(s: State, a: Action, id: Id)
    requires Inv(s) && id in Act(s, a).store.rows && Act(s, a).store.rows[id].status == Allowed
    requires !(id in s.store.rows && s.store.rows[id].status == Allowed)
    ensures a.Step? && ReturnedTo(s, a.tid, id, true)
  {
    var w := s.threads[a.tid];
    assert ThreadOk(s, w);
    OnlyAllowingAllows(s.store, MoveOf(s, w, a.choice).value.op.value, id);
    WhoLogs(s, w, a.choice);
  }

  lemma OnlyAllowingAllows(s: Store, op: Op, id: Id)
    requires UniqueOpen(s) && id in Perform(s, op).rows && Perform(s, op).rows[id].status == Allowed
    requires !(id in s.rows && s.rows[id].status == Allowed)
    ensures op.DoClose? && op.id == id && op.verdict.status == Allowed
  {
  }

  // ------------------------------------------------------------------ whole runs

  /** The j-th step is one of a call whose subprocess returned this outcome in the k-th. */
  ghost predicate BackedAt(s: State, schedule: seq<Action>, j: nat, k: nat, id: Id, ok: bool)
    requires Inv(s)
  {
    k < j < |schedule| && schedule[j].Step? && ReturnsAt(s, schedule[..j], k, schedule[j].tid, id, ok)
  }

  /** The j-th step appends the n-th event. */
  ghost predicate AppendsAt(s: State, schedule: seq<Action>, j: nat, n: nat)
    requires Inv(s) && j < |schedule|
  {
    Appends(Exec(s, schedule[..j]), schedule[j], n)
  }

  lemma StepIsBacked(s: State, schedule: seq<Action>, j: nat, id: Id, ok: bool)
    requires Inv(s) && s.threads == map[] && j < |schedule| && schedule[j].Step?
    requires ReturnedTo(Exec(s, schedule[..j]), schedule[j].tid, id, ok)
    ensures exists k: nat :: BackedAt(s, schedule, j, k, id, ok)
  {
    OutcomesWereReturned(s, schedule[..j], schedule[j].tid, id, ok);
    var k: nat :| k < |schedule[..j]| && ReturnsAt(s, schedule[..j], k, schedule[j].tid, id, ok);
    assert BackedAt(s, schedule, j, k, id, ok);
  }

  lemma EventsGrow(s: State, schedule: seq<Action>, j: nat)
    requires Inv(s) && j <= |schedule|
    ensures Exec(s, schedule[..j]).store.events <= Exec(s, schedule).store.events
  {
    assert schedule[..j] + schedule[j..] == schedule;
    ExecConcat(s, schedule[..j], schedule[j..]);
    DecisionsAreFinal(Exec(s, schedule[..j]), schedule[j..]);
  }

  /** After how many steps of the run the log has its n-th event. */
  ghost function LoggedAfter(s: State, schedule: seq<Action>, n: nat): (p: seq<bool>)
    requires Inv(s)
    ensures |p| == |schedule| + 1
    ensures forall k :: 0 <= k <= |schedule| ==> p[k] == (n < |Exec(s, schedule[..k]).store.events|)
  {
    seq(|schedule| + 1, k requires 0 <= k <= |schedule| => n < |Exec(s, schedule[..k]).store.events|)
  }

  lemma EventWasAppended(s: State, schedule: seq<Action>, n: nat) returns (j: nat)
    requires Inv(s) && |s.store.events| <= n < |Exec(s, schedule).store.events|
    ensures j < |schedule| && AppendsAt(s, schedule, j, n)
    ensures Act(Exec(s, schedule[..j]), schedule[j]).store.events[n] == Exec(s, schedule).store.events[n]
  {
    var p := LoggedAfter(s, schedule, n);
    assert schedule[..0] == [] && schedule[..|schedule|] == schedule;
    j := SomeStepTurns(p);
    assert p[j + 1];
    ExecStep(s, schedule, j);
    EventsGrow(s, schedule, j + 1);
  }

  /** The n-th event, which reports what a subprocess did, was appended by a call whose subprocess did that. */
  ghost predicate BackedEvent(s: State, schedule: seq<Action>, n: nat)
    requires Inv(s) && n < |Exec(s, schedule).store.events| && Reported(Exec(s, schedule).store.events[n].kind).Some?
  {
    var e := Exec(s, schedule).store.events[n];
    exists j: nat, k: nat :: j < |schedule| && AppendsAt(s, schedule, j, n)
                             && BackedAt(s, schedule, j, k, e.request, Reported(e.kind).value)
  }

  /** In every run from a restart each event that reports what a subprocess did was appended by a call whose
      subprocess did just that in an earlier step. */
  lemma ReportsAreBacked(store: Store, entries: seq<Entry>, schedule: seq<Action>, n: nat)
    requires StoreOk(store)
    requires var t := Exec(Boot(store, entries), schedule).store;
      |store.events| <= n < |t.events| && Reported(t.events[n].kind).Some?
    ensures BackedEvent(Boot(store, entries), schedule, n)
  {
    RunReportsAreBacked(Boot(store, entries), schedule, n);
  }

  lemma RunReportsAreBacked(s: State, schedule: seq<Action>, n: nat)
    requires Inv(s) && s.threads == map[]
    requires var t := Exec(s, schedule).store; |s.store.events| <= n < |t.events| && Reported(t.events[n].kind).Some?
    ensures BackedEvent(s, schedule, n)
  {
    var e := Exec(s, schedule).store.events[n];
    var j := EventWasAppended(s, schedule, n);
    StepLogs(Exec(s, schedule[..j]), schedule[j], n);
    StepIsBacked(s, schedule, j, e.request, Reported(e.kind).value);
    var k: nat :| BackedAt(s, schedule, j, k, e.request, Reported(e.kind).value);
  }

  predicate IsAllowed(s: Store, id: Id) {
    id in s.rows && s.rows[id].status == Allowed
  }

  /** The j-th step allows the row. */
  ghost predicate AllowsAt(s: State, schedule: seq<Action>, j: nat, id: Id)
    requires Inv(s) && j < |schedule|
  {
    !IsAllowed(Exec(s, schedule[..j]).store, id) && IsAllowed(Act(Exec(s, schedule[..j]), schedule[j]).store, id)
  }

  /** The run allows the row in a step of a call whose subprocess had succeeded. */
  ghost predicate AllowedByReturn(s: State, schedule: seq<Action>, id: Id)
    requires Inv(s)
  {
    exists j: nat, k: nat :: j < |schedule| && AllowsAt(s, schedule, j, id) && BackedAt(s, schedule, j, k, id, true)
  }

  /** In every run each row that gets allowed is allowed by a call whose subprocess succeeded in an earlier step. */
  lemma AllowsAreBacked(s: State, schedule: seq<Action>, id: Id)
    requires Inv(s) && s.threads == map[] && !IsAllowed(s.store, id) && IsAllowed(Exec(s, schedule).store, id)
    ensures AllowedByReturn(s, schedule, id)
  {
    var p := seq(|schedule| + 1, i requires 0 <= i <= |schedule| => IsAllowed(Exec(s, schedule[..i]).store, id));
    assert schedule[..0] == [] && schedule[..|schedule|] == schedule;
    var j := SomeStepTurns(p);
    assert p[j + 1];
    ExecStep(s, schedule, j);
    StepAllows(Exec(s, schedule[..j]), schedule[j], id);
    StepIsBacked(s, schedule, j, id, true);
    var k: nat :| BackedAt(s, schedule, j, k, id, true);
  }

  /** Every row allowed in a run was applied, its log says so before it says allowed, and the step that allowed it is
      one of a call whose subprocess had succeeded. */
  lemma AllowedMeansReturned(store: Store, entries: seq<Entry>, schedule: seq<Action>, id: Id)
    requires StoreOk(store) && !IsAllowed(store, id) && IsAllowed(Exec(Boot(store, entries), schedule).store, id)
    ensures var t := Exec(Boot(store, entries), schedule).store;
      t.rows[id].applyStatus == Some(Applied) && AppliedThenAllowed(t.events, id)
    ensures AllowedByReturn(Boot(store, entries), schedule, id)
  {
    var s := Boot(store, entries);
    AllowedMeansApplied(s, schedule, id);
    AllowsAreBacked(s, schedule, id);
  }
}
