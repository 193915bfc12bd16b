/**
 What the approval protocol guarantees over every schedule: one apply at a time, nothing allowed that was
 not applied, decisions that are final, and a persisted deny that no filing slips past.
 */
module ProtocolSafety {
  import opened Wrappers
  import opened RequestStore
  import opened DenyZones
  import opened HitWindow
  import opened Protocol
  import opened ProtocolInvariant

  // ------------------------------------------------------------------ whole runs

  lemma ActExtends(s: State, a: Action)
    requires Inv(s)
    ensures Extends(s.store, Act(s, a).store) && s.file <= Act(s, a).file
  {
    if a.Step? && a.tid in s.threads && MoveOf(s, s.threads[a.tid], a.choice).Some? {
      var m := MoveOf(s, s.threads[a.tid], a.choice).value;
      if m.op.Some? { PerformKeeps(s.store, m.op.value); }
    }
  }

  /** Whatever happens later, a decided row keeps its status, decision time, decider and body, no row
      goes away, and the log and the denylist history only grow. */
  lemma {:induction false} DecisionsAreFinal(s: State, schedule: seq<Action>)
    requires Inv(s)
    ensures Extends(s.store, Exec(s, schedule).store) && s.file <= Exec(s, schedule).file
  {
    if schedule != [] {
      var before := Exec(s, schedule[..|schedule| - 1]);
      DecisionsAreFinal(s, schedule[..|schedule| - 1]);
      ActExtends(before, schedule[|schedule| - 1]);
      ExtendsTransitive(s.store, before.store, Exec(s, schedule).store);
    }
  }

  /** In every reachable state each ask has at most one open row, and a row has a decision body,
      decision time and decider exactly when it is not open. */
  lemma OneOpenRowPerAsk(store: Store, entries: seq<Entry>, schedule: seq<Action>, a: Id, b: Id)
    requires StoreOk(store)
    ensures var t := Exec(Boot(store, entries), schedule).store;
            && (IsOpen(t, a) && IsOpen(t, b) && KeyOf(t.rows[a].filing) == KeyOf(t.rows[b].filing) ==> a == b)
            && (a in t.rows ==> RowOk(t.rows[a]))
  {
  }

  // ------------------------------------------------------------------ allows

  /** At most one allow subprocess is in flight per request. */
  lemma OneApplyPerRequest(s: State, schedule: seq<Action>, t: Tid, u: Tid, id: Id)
    requires Inv(s)
    requires var e := Exec(s, schedule);
      t in e.threads && u in e.threads && InFlight(e.threads[t], id) && InFlight(e.threads[u], id)
    ensures t == u
  {
  }

  lemma OnlyCloseCloses(s: Store, op: Op, id: Id)
    requires UniqueOpen(s) && IsOpen(s, id) && !IsOpen(Perform(s, op), id)
    ensures op.DoClose? && op.id == id && Perform(s, op).rows[id].status == op.verdict.status
  {
  }

  lemma StaleCloseIsASweep(s: State, t: Thread, c: Choice)
    requires UniqueOpen(s.store) && |s.file| > 0 && ThreadOk(s, t)
    ensures var m := MoveOf(s, t, c);
            m.Some? && m.value.op.Some? && m.value.op.value.DoClose? && m.value.op.value.verdict.status == Stale ==>
              t.SweepClose? && m.value.op.value.id in t.todo && m.value.op.value.id == c.pick
  {
  }

  /** The action decides a row whose allow subprocess is running. */
  ghost predicate ClosesInFlight(s: State, a: Action, id: Id)
    requires Inv(s)
  {
    id in s.applying && IsOpen(s.store, id) && !IsOpen(Act(s, a).store, id)
  }

  /** A row whose allow is in flight is closed by a stale sweep that has it in hand and comes to it, and by
      nothing else. */
  lemma OnlyASweepClosesAnInFlightRow(s: State, a: Action, id: Id)
    requires Inv(s)
    ensures ClosesInFlight(s, a, id) <==>
              id in s.applying && IsOpen(s.store, id) && a.Step? && Sweeps(s, a.tid, id) && a.choice.pick == id
    ensures ClosesInFlight(s, a, id) ==> id in Act(s, a).store.rows && Act(s, a).store.rows[id].status == Stale
  {
    if ClosesInFlight(s, a, id) {
      ClosedInFlightIsSwept(s, a, id);
    } else if IsOpen(s.store, id) && a.Step? && Sweeps(s, a.tid, id) && a.choice.pick == id {
      SweepClosesItsPick(s, a.tid, a.choice);
    }
  }

  /** A sweep's step needs no lock and always closes the open row it comes to. */
  lemma SweepClosesItsPick(s: State, tid: Tid, c: Choice)
    requires UniqueOpen(s.store) && |s.file| > 0 && Sweeps(s, tid, c.pick) && IsOpen(s.store, c.pick)
    ensures var t := Act(s, Step(tid, c)).store;
      && c.pick in t.rows && t.rows[c.pick].status == Stale
      && forall id :: id != c.pick && id in s.store.rows ==> id in t.rows && t.rows[id] == s.store.rows[id]
    ensures forall u ::
             u in s.threads && u != tid
             ==> u in Act(s, Step(tid, c)).threads && Act(s, Step(tid, c)).threads[u] == s.threads[u]
  {
  }

  lemma ClosedInFlightIsSwept(s: State, a: Action, id: Id)
    requires Inv(s) && ClosesInFlight(s, a, id)
    ensures a.Step? && Sweeps(s, a.tid, id) && a.choice.pick == id
    ensures id in Act(s, a).store.rows && Act(s, a).store.rows[id].status == Stale
  {
    var w := s.threads[a.tid];
    assert ThreadOk(s, w);
    EveryMoveOpOk(s, w, a.choice);
    StaleCloseIsASweep(s, w, a.choice);
    OnlyCloseCloses(s.store, MoveOf(s, w, a.choice).value.op.value, id);
  }

  /** A sweep picks no row whose allow is in flight. */
  lemma SweepPicksSpareInFlight(s: State, tid: Tid, c: Choice)
    requires Inv(s) && tid in s.threads && s.threads[tid].SweepPick? && Act(s, Step(tid, c)).threads[tid].SweepClose?
    ensures Act(s, Step(tid, c)).threads[tid].todo !! s.applying
  {
  }

  /** A thread changes only by its own call or its own move. */
  lemma ThreadChanges(s: State, a: Action, tid: Tid)
    requires Inv(s) && tid in Act(s, a).threads && !(tid in s.threads && s.threads[tid] == Act(s, a).threads[tid])
    ensures || (a.Start? && Act(s, a).threads[tid] == Begin(a.command))
            || (a.Step? && a.tid == tid && tid in s.threads && MoveOf(s, s.threads[tid], a.choice).Some?
                && Act(s, a).threads[tid] == MoveOf(s, s.threads[tid], a.choice).value.next)
  {
  }

  /** The sweep is about to pick, and no allow of this request is in flight. */
  ghost predicate PicksIdle(s: State, tid: Tid, id: Id) {
    tid in s.threads && s.threads[tid].SweepPick? && id !in s.applying
  }

  predicate Sweeps(s: State, tid: Tid, id: Id) {
    tid in s.threads && s.threads[tid].SweepClose? && id in s.threads[tid].todo
  }

  /** Whatever is false first and true last becomes true at some step and stays so. */
  lemma {:induction false} SomeStepTurns(p: seq<bool>) returns (k: nat)
    requires |p| > 0 && !p[0] && p[|p| - 1]
    ensures k + 1 < |p| && !p[k] && forall j :: k < j < |p| ==> p[j]
  {
    var n := |p| - 1;
    if !p[n - 1] {
      k := n - 1;
    } else {
      k := SomeStepTurns(p[..n]);
      assert forall j :: k < j < n ==> p[..n][j];
    }
  }

  lemma ExecStep(s: State, schedule: seq<Action>, k: nat)
    requires Inv(s) && k < |schedule|
    ensures Exec(s, schedule[..k + 1]) == Act(Exec(s, schedule[..k]), schedule[k])
  {
    assert schedule[..k + 1][..k] == schedule[..k];
  }

  /** A run is its beginning and then its rest. */
  lemma {:induction false} ExecConcat(s: State, run: seq<Action>, rest: seq<Action>)
    requires Inv(s)
    ensures Exec(s, run + rest) == Exec(Exec(s, run), rest)
    decreases |rest|
  {
    if rest == [] {
      assert run + rest == run;
    } else {
      ExecConcat(s, run, rest[..|rest| - 1]);
      assert (run + rest)[..|run + rest| - 1] == run + rest[..|rest| - 1];
    }
  }

  ghost predicate SweepsSince(s: State, schedule: seq<Action>, k: nat, tid: Tid, id: Id)
    requires Inv(s)
  {
    forall j :: k < j <= |schedule| ==> Sweeps(Exec(s, schedule[..j]), tid, id)
  }

  /** The k-th step is the one in which the sweep picks the row, idle, to have it in hand from then on. */
  ghost predicate PicksAt(s: State, schedule: seq<Action>, k: nat, tid: Tid, id: Id)
    requires Inv(s) && k < |schedule|
  {
    && PicksIdle(Exec(s, schedule[..k]), tid, id) && schedule[k].Step? && schedule[k].tid == tid
    && SweepsSince(s, schedule, k, tid, id)
  }

  /** Every row a sweep is about to close was picked while no allow of it was in flight. */
  lemma SweptRowsWerePickedIdle(s: State, schedule: seq<Action>, tid: Tid, id: Id)
    requires Inv(s) && !Sweeps(s, tid, id) && Sweeps(Exec(s, schedule), tid, id)
    ensures exists k :: 0 <= k < |schedule| && PicksAt(s, schedule, k, tid, id)
  {
    var p := seq(|schedule| + 1, k requires 0 <= k <= |schedule| => Sweeps(Exec(s, schedule[..k]), tid, id));
    assert schedule[..0] == [] && schedule[..|schedule|] == schedule;
    var k := SomeStepTurns(p);
    assert SweepsSince(s, schedule, k, tid, id) by {
      forall j | k < j <= |schedule| ensures Sweeps(Exec(s, schedule[..j]), tid, id) { assert p[j]; }
    }
    TurningStepPicks(s, schedule, k, tid, id);
  }

  lemma TurningStepPicks(s: State, schedule: seq<Action>, k: nat, tid: Tid, id: Id)
    requires Inv(s) && k < |schedule|
    requires !Sweeps(Exec(s, schedule[..k]), tid, id) && SweepsSince(s, schedule, k, tid, id)
    ensures PicksAt(s, schedule, k, tid, id)
  {
    ExecStep(s, schedule, k);
    StepPicks(Exec(s, schedule[..k]), schedule[k], tid, id);
  }

  /** A row is closed under a running allow only by a sweep that picked it before that allow began. */
  lemma ClosedInFlightMeansPickedBefore(s: State, schedule: seq<Action>, a: Action, id: Id)
    requires Inv(s) && s.threads == map[] && ClosesInFlight(Exec(s, schedule), a, id)
    ensures a.Step? && exists k :: 0 <= k < |schedule| && PicksAt(s, schedule, k, a.tid, id)
  {
    OnlyASweepClosesAnInFlightRow(Exec(s, schedule), a, id);
    SweptRowsWerePickedIdle(s, schedule, a.tid, id);
  }

  lemma StepPicks(s: State, a: Action, tid: Tid, id: Id)
    requires Inv(s) && !Sweeps(s, tid, id) && Sweeps(Act(s, a), tid, id)
    ensures PicksIdle(s, tid, id) && a.Step? && a.tid == tid
  {
    ThreadChanges(s, a, tid);
    SweepTodoComesFromAPick(s, s.threads[tid], a.choice, id);
  }

  lemma SweepTodoComesFromAPick(s: State, w: Thread, c: Choice, id: Id)
    requires UniqueOpen(s.store) && |s.file| > 0 && MoveOf(s, w, c).Some?
    requires id !in Swept(w) && id in Swept(MoveOf(s, w, c).value.next)
    ensures w.SweepPick? && id !in s.applying
  {
  }

  lemma {:induction false} ReplayFindsTheClose(events: seq<Event>, id: Id)
    requires Replay(events, id).Some? && Replay(events, id).value.status == Allowed
    ensures exists j ::
             0 <= j < |events| && events[j].request == id && events[j].kind.Closed? && events[j].kind.status == Allowed
  {
    var n := |events| - 1;
    if !(events[n].request == id && events[n].kind.Closed? && events[n].kind.status == Allowed) {
      ReplayFindsTheClose(events[..n], id);
      var j :| 0 <= j < n && events[..n][j].request == id && events[..n][j].kind.Closed?
          && events[..n][j].kind.status == Allowed;
      assert events[j] == events[..n][j];
    }
  }

  ghost predicate AppliedThenAllowed(events: seq<Event>, id: Id) {
    exists i, j :: 0 <= i < j < |events|
      && events[i].request == id && events[i].kind == ApplySucceeded
      && events[j].request == id && events[j].kind.Closed? && events[j].kind.status == Allowed
  }

  /** An allowed row was applied, and its log says so before it says allowed. */
  lemma AllowedMeansApplied(s: State, schedule: seq<Action>, id: Id)
    requires Inv(s)
    requires var t := Exec(s, schedule).store; id in t.rows && t.rows[id].status == Allowed
    ensures var t := Exec(s, schedule).store;
            t.rows[id].applyStatus == Some(Applied) && AppliedThenAllowed(t.events, id)
  {
    var t := Exec(s, schedule).store;
    assert DecisionOk(t.rows[id]);
    var silent :| Logged(t, silent);
    assert Recovered(t.rows[id], Replay(t.events, id).value, Silent(silent, id));
    ReplayFindsTheClose(t.events, id);
    var j :| 0 <= j < |t.events| && t.events[j].request == id && t.events[j].kind.Closed?
        && t.events[j].kind.status == Allowed;
    assert HasApplied(t.events, id, j);
    var i :| 0 <= i < j && i < |t.events| && t.events[i].request == id && t.events[i].kind == ApplySucceeded;
  }
}
