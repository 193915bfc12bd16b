/**
 The exact conditions behind the two races: when an allow can be overtaken by a stale sweep, and when a persisted
 deny can break off.  Both can be told from the sweeps under way when the broker lock was held last.
 */
module Overtaking {
  import opened Wrappers
  import opened RequestStore
  import opened DenyZones
  import opened HitWindow
  import opened Protocol
  import opened ProtocolInvariant
  import opened ProtocolSafety

  // ------------------------------------------------------------------ an allow and the sweeps that hold its row

  /** While the row's allow runs, nothing but a sweep that already holds the row closes it, and no sweep takes it up. */
  lemma StepLeavesTheAllowAlone(s: State, a: Action, id: Id)
    requires Inv(s) && id in s.applying && IsOpen(s.store, id) && Unpicked(s, id)
    ensures IsOpen(Act(s, a).store, id) && Unpicked(Act(s, a), id)
  {
    OnlyASweepClosesAnInFlightRow(s, a, id);
    forall t | t in Act(s, a).threads && Act(s, a).threads[t].SweepClose? ensures id !in Act(s, a).threads[t].todo {
      if Sweeps(Act(s, a), t, id) { StepPicks(s, a, t, id); }
    }
  }

  /** The row's allow is in flight at every point of the run. */
  ghost predicate InFlightThroughout(s: State, schedule: seq<Action>, id: Id)
    requires Inv(s)
  {
    id in Exec(s, schedule).applying && (schedule != [] ==> InFlightThroughout(s, schedule[..|schedule| - 1], id))
  }

  lemma {:induction false} TheAllowIsLeftAlone(s: State, schedule: seq<Action>, id: Id)
    requires Inv(s) && IsOpen(s.store, id) && Unpicked(s, id) && InFlightThroughout(s, schedule, id)
    ensures IsOpen(Exec(s, schedule).store, id) && Unpicked(Exec(s, schedule), id)
  {
    if schedule != [] {
      var init, last := schedule[..|schedule| - 1], schedule[|schedule| - 1];
      TheAllowIsLeftAlone(s, init, id);
      StepLeavesTheAllowAlone(Exec(s, init), last, id);
    }
  }

  /** Some continuation decides the row while its allow is still in flight. */
  ghost predicate CanBeOvertaken(s: State, id: Id)
    requires Inv(s)
  {
    exists schedule, a :: InFlightThroughout(s, schedule, id) && ClosesInFlight(Exec(s, schedule), a, id)
  }

  lemma OvertakenIffHeld(s: State, id: Id)
    requires Inv(s) && id in s.applying && IsOpen(s.store, id)
    ensures CanBeOvertaken(s, id) <==> !Unpicked(s, id)
  {
    if CanBeOvertaken(s, id) && Unpicked(s, id) {
      var schedule, a :| InFlightThroughout(s, schedule, id) && ClosesInFlight(Exec(s, schedule), a, id);
      TheAllowIsLeftAlone(s, schedule, id);
      OnlyASweepClosesAnInFlightRow(Exec(s, schedule), a, id);
    } else if !Unpicked(s, id) {
      HeldRowsCanBeClosed(s, id);
    }
  }

  lemma HeldBySome(s: State, id: Id) returns (tid: Tid)
    requires !Unpicked(s, id)
    ensures Sweeps(s, tid, id)
  {
    tid :| tid in s.threads && s.threads[tid].SweepClose? && id in s.threads[tid].todo;
  }

  lemma HeldRowsCanBeClosed(s: State, id: Id)
    requires Inv(s) && id in s.applying && IsOpen(s.store, id) && !Unpicked(s, id)
    ensures CanBeOvertaken(s, id)
  {
    var t := HeldBySome(s, id);
    var a := Step(t, Choice(0, false, "", 0, id));
    OnlyASweepClosesAnInFlightRow(s, a, id);
    var none: seq<Action> := [];
    assert Exec(s, none) == s;
    assert InFlightThroughout(s, none, id);
  }

  /** A step of a thread that is no sweep leaves every sweep as it is. */
  lemma OthersPickNothing(s: State, tid: Tid, c: Choice, id: Id)
    requires UniqueOpen(s.store) && |s.file| > 0 && tid in s.threads
    requires !s.threads[tid].SweepPick? && !s.threads[tid].SweepClose?
    ensures Unpicked(Act(s, Step(tid, c)), id) <==> Unpicked(s, id)
  {
    var t := Act(s, Step(tid, c));
    if MoveOf(s, s.threads[tid], c).Some? { NextIsNoSweep(s, s.threads[tid], c); }
    forall u | u in s.threads && u != tid ensures u in t.threads && t.threads[u] == s.threads[u] {}
  }

  lemma NextIsNoSweep(s: State, w: Thread, c: Choice)
    requires UniqueOpen(s.store) && |s.file| > 0 && !w.SweepPick? && !w.SweepClose? && MoveOf(s, w, c).Some?
    ensures !MoveOf(s, w, c).value.next.SweepClose?
  {
  }

  lemma AllowBegins(s: State, tid: Tid, c: Choice, id: Id)
    requires Inv(s) && tid in s.threads && s.threads[tid].AllowWait?
    requires id !in s.applying && id in Act(s, Step(tid, c)).applying
    ensures IsOpen(Act(s, Step(tid, c)).store, id)
  {
  }

  /** An allow can be overtaken exactly when, as it begins, some sweep holds its row. */
  lemma AllowIsOvertakenIffHeldWhenItBegins(s: State, tid: Tid, c: Choice, id: Id)
    requires Inv(s) && tid in s.threads && s.threads[tid].AllowWait?
    requires id !in s.applying && id in Act(s, Step(tid, c)).applying
    ensures Inv(Act(s, Step(tid, c))) && (CanBeOvertaken(Act(s, Step(tid, c)), id) <==> !Unpicked(s, id))
  {
    ActKeepsInv(s, Step(tid, c));
    AllowBegins(s, tid, c, id);
    OthersPickNothing(s, tid, c, id);
    OvertakenIffHeld(Act(s, Step(tid, c)), id);
  }

  // ------------------------------------------------------------------ a persisted deny and the sweeps that hold a row

  /** The phases of a persist call that has not ended. */
  predicate Persisting(t: Thread) {
    t.PersistWrite? || t.PersistLoad? || t.PersistList? || t.PersistSweep? || t.PersistClose? || t.PersistMark?
    || t.TriggerWait? || t.TriggerClose? || t.TriggerMark?
  }

  lemma CloseBreaksOff(s: State, w: Thread, c: Choice)
    requires UniqueOpen(s.store) && |s.file| > 0 && w.PersistClose? && OpenOrStale(s.store, w.id)
    ensures MoveOf(s, w, c).Some?
    ensures var n := MoveOf(s, w, c).value.next;
      && (n.Done? <==> s.store.rows[w.id].status == Stale)
      && (n.Done? ==> n.answer == StoreRaised(AlreadyDecided))
  {
  }

  lemma OtherPhasesGoOn(s: State, w: Thread, c: Choice)
    requires UniqueOpen(s.store) && |s.file| > 0 && Persisting(w) && !w.PersistClose?
    ensures MoveOf(s, w, c).Some? ==> !MoveOf(s, w, c).value.next.Done?
  {
  }

  lemma StepsTo(s: State, tid: Tid, c: Choice)
    requires UniqueOpen(s.store) && |s.file| > 0 && tid in s.threads
    ensures tid in Act(s, Step(tid, c)).threads
    ensures Act(s, Step(tid, c)).threads[tid] ==
              match MoveOf(s, s.threads[tid], c) case None => s.threads[tid] case Some(m) => m.next
  {
  }

  /** Over the whole call, the one step that breaks it off is the close of a row gone stale under its eyes. */
  lemma OnlyAStaleRowBreaksOff(s: State, tid: Tid, c: Choice)
    requires Inv(s) && tid in s.threads && Persisting(s.threads[tid])
    ensures var w, n := s.threads[tid], Act(s, Step(tid, c)).threads[tid];
      && (n.Done? <==> w.PersistClose? && w.id in s.store.rows && s.store.rows[w.id].status == Stale)
      && (n.Done? ==> n.answer == StoreRaised(AlreadyDecided))
  {
    var w := s.threads[tid];
    assert ThreadOk(s, w);
    StepsTo(s, tid, c);
    if w.PersistClose? { CloseBreaksOff(s, w, c); } else { OtherPhasesGoOn(s, w, c); }
  }

  /** The thread stays where it is at every point of the run. */
  ghost predicate WaitsThroughout(s: State, schedule: seq<Action>, tid: Tid, w: Thread)
    requires Inv(s)
  {
    && tid in Exec(s, schedule).threads && Exec(s, schedule).threads[tid] == w
    && (schedule != [] ==> WaitsThroughout(s, schedule[..|schedule| - 1], tid, w))
  }

  ghost predicate BreaksOffAfter(s: State, schedule: seq<Action>, tid: Tid, c: Choice)
    requires Inv(s) && tid in s.threads
  {
    WaitsThroughout(s, schedule, tid, s.threads[tid]) && Act(Exec(s, schedule), Step(tid, c)).threads[tid].Done?
  }

  /** Some continuation ends the call at the row it is about to close. */
  ghost predicate CanBreakOff(s: State, tid: Tid)
    requires Inv(s) && tid in s.threads
  {
    exists schedule, c :: BreaksOffAfter(s, schedule, tid, c)
  }

  /** A sweep picks only while the lock is free. */
  lemma PicksNeedTheLockFree(s: State, w: Thread, c: Choice)
    requires UniqueOpen(s.store) && |s.file| > 0 && w.SweepPick? && MoveOf(s, w, c).Some?
    ensures s.holder.None?
  {
  }

  lemma StepLeavesTheCloseAlone(s: State, a: Action, tid: Tid)
    requires Inv(s) && tid in s.threads && s.threads[tid].PersistClose?
    requires IsOpen(s.store, s.threads[tid].id) && Unpicked(s, s.threads[tid].id)
    requires tid in Act(s, a).threads && Act(s, a).threads[tid] == s.threads[tid]
    ensures IsOpen(Act(s, a).store, s.threads[tid].id) && Unpicked(Act(s, a), s.threads[tid].id)
  {
    var id := s.threads[tid].id;
    if !IsOpen(Act(s, a).store, id) { ClosedBesideTheHolder(s, a, tid, id); }
    forall t | t in Act(s, a).threads && Act(s, a).threads[t].SweepClose? ensures id !in Act(s, a).threads[t].todo {
      if Sweeps(Act(s, a), t, id) {
        StepPicks(s, a, t, id);
        PicksNeedTheLockFree(s, s.threads[t], a.choice);
      }
    }
  }

  /** While one thread waits to close, a row is closed only by a sweep that holds it. */
  lemma ClosedBesideTheHolder(s: State, a: Action, tid: Tid, id: Id)
    requires Inv(s) && tid in s.threads && s.threads[tid].PersistClose?
    requires IsOpen(s.store, id) && !IsOpen(Act(s, a).store, id)
    requires tid in Act(s, a).threads && Act(s, a).threads[tid] == s.threads[tid]
    ensures a.Step? && Sweeps(s, a.tid, id)
  {
    var w := s.threads[a.tid];
    assert LockOk(s) && ThreadOk(s, w);
    CloseMovesOn(s, s.threads[tid], a.choice);
    EveryMoveShape(s, w, a.choice);
    OnlyCloseCloses(s.store, MoveOf(s, w, a.choice).value.op.value, id);
  }

  lemma CloseMovesOn(s: State, w: Thread, c: Choice)
    requires UniqueOpen(s.store) && |s.file| > 0 && w.PersistClose?
    ensures MoveOf(s, w, c).Some? && MoveOf(s, w, c).value.next != w
  {
  }

  lemma {:induction false} TheCloseIsLeftAlone(s: State, schedule: seq<Action>, tid: Tid)
    requires Inv(s) && tid in s.threads && s.threads[tid].PersistClose?
    requires IsOpen(s.store, s.threads[tid].id) && Unpicked(s, s.threads[tid].id)
    requires WaitsThroughout(s, schedule, tid, s.threads[tid])
    ensures IsOpen(Exec(s, schedule).store, s.threads[tid].id) && Unpicked(Exec(s, schedule), s.threads[tid].id)
  {
    if schedule != [] {
      var init, last := schedule[..|schedule| - 1], schedule[|schedule| - 1];
      TheCloseIsLeftAlone(s, init, tid);
      StepLeavesTheCloseAlone(Exec(s, init), last, tid);
    }
  }

  lemma BreaksOffIffHeld(s: State, tid: Tid)
    requires Inv(s) && tid in s.threads && s.threads[tid].PersistClose? && IsOpen(s.store, s.threads[tid].id)
    ensures CanBreakOff(s, tid) <==> !Unpicked(s, s.threads[tid].id)
  {
    var w := s.threads[tid];
    if CanBreakOff(s, tid) && Unpicked(s, w.id) {
      var schedule, c :| BreaksOffAfter(s, schedule, tid, c);
      TheCloseIsLeftAlone(s, schedule, tid);
      OnlyAStaleRowBreaksOff(Exec(s, schedule), tid, c);
    } else if !Unpicked(s, w.id) {
      HeldRowBreaksOff(s, tid);
    }
  }

  /** The sweep's step lets the waiting call find its row stale. */
  lemma SweepSpoilsTheClose(s: State, tid: Tid, u: Tid, c: Choice)
    requires Inv(s) && tid in s.threads && s.threads[tid].PersistClose? && s.threads[tid].id == c.pick
    requires IsOpen(s.store, c.pick) && Sweeps(s, u, c.pick)
    ensures var t := Act(s, Step(u, c)); Inv(t) && tid in t.threads && t.threads[tid] == s.threads[tid]
                                         && Act(t, Step(tid, c)).threads[tid].Done?
  {
    ActKeepsInv(s, Step(u, c));
    SweepClosesItsPick(s, u, c);
    OnlyAStaleRowBreaksOff(Act(s, Step(u, c)), tid, c);
  }

  lemma RunOfOne(s: State, a: Action)
    requires Inv(s)
    ensures Exec(s, []) == s && Exec(s, [a]) == Act(s, a)
  {
    assert [a][..0] == [];
  }

  lemma WaitsOneStep(s: State, a: Action, tid: Tid)
    requires Inv(s) && tid in s.threads && tid in Act(s, a).threads && Act(s, a).threads[tid] == s.threads[tid]
    ensures WaitsThroughout(s, [a], tid, s.threads[tid])
  {
    RunOfOne(s, a);
    assert [a][..0] == [];
  }

  lemma OneSweepStepBreaksOff(s: State, tid: Tid, u: Tid, c: Choice)
    requires Inv(s) && tid in s.threads && s.threads[tid].PersistClose? && s.threads[tid].id == c.pick
    requires IsOpen(s.store, c.pick) && Sweeps(s, u, c.pick)
    ensures BreaksOffAfter(s, [Step(u, c)], tid, c)
  {
    SweepSpoilsTheClose(s, tid, u, c);
    RunOfOne(s, Step(u, c));
    WaitsOneStep(s, Step(u, c), tid);
  }

  lemma HeldRowBreaksOff(s: State, tid: Tid)
    requires Inv(s) && tid in s.threads && s.threads[tid].PersistClose?
    requires IsOpen(s.store, s.threads[tid].id) && !Unpicked(s, s.threads[tid].id)
    ensures CanBreakOff(s, tid)
  {
    var id := s.threads[tid].id;
    var u := HeldBySome(s, id);
    OneSweepStepBreaksOff(s, tid, u, Choice(0, false, "", 0, id));
  }

  lemma TakesThePick(s: State, w: Thread, c: Choice)
    requires UniqueOpen(s.store) && |s.file| > 0 && w.PersistSweep?
    requires MoveOf(s, w, c).Some? && MoveOf(s, w, c).value.next.PersistClose?
    ensures MoveOf(s, w, c).value.next.id == c.pick && IsOpen(s.store, c.pick) && MoveOf(s, w, c).value.op.None?
  {
  }

  /** The call can break off at a row exactly when, as it takes the lock to close it, some sweep holds it. */
  lemma PersistBreaksOffIffHeldWhenItLocks(s: State, tid: Tid, c: Choice)
    requires Inv(s) && tid in s.threads && s.threads[tid].PersistSweep?
    requires Act(s, Step(tid, c)).threads[tid].PersistClose?
    ensures var t := Act(s, Step(tid, c));
      Inv(t) && t.threads[tid].id == c.pick && (CanBreakOff(t, tid) <==> !Unpicked(s, c.pick))
  {
    ActKeepsInv(s, Step(tid, c));
    StepsTo(s, tid, c);
    TakesThePick(s, s.threads[tid], c);
    OthersPickNothing(s, tid, c, c.pick);
    BreaksOffIffHeld(Act(s, Step(tid, c)), tid);
  }

  /** The call takes the lock to close a row that some sweep holds. */
  ghost predicate TakesAHeldRow(s: State, a: Action, tid: Tid, id: Id)
    requires UniqueOpen(s.store) && |s.file| > 0
  {
    && a.Step? && a.tid == tid && a.choice.pick == id && tid in s.threads && s.threads[tid].PersistSweep?
    && tid in Act(s, a).threads && Act(s, a).threads[tid].PersistClose? && Act(s, a).threads[tid].id == id
    && !Unpicked(s, id)
  }

  /** The call is about to close a row that is closed already, or may be before the call comes to it. */
  ghost predicate Threatened(s: State, tid: Tid, id: Id) {
    && tid in s.threads && s.threads[tid].PersistClose? && s.threads[tid].id == id
    && (!IsOpen(s.store, id) || !Unpicked(s, id))
  }

  lemma ClosesBeginAtASweep(s: State, w: Thread, c: Choice)
    requires UniqueOpen(s.store) && |s.file| > 0 && MoveOf(s, w, c).Some? && MoveOf(s, w, c).value.next.PersistClose?
    ensures w.PersistSweep?
  {
  }

  lemma ThreatBegins(s: State, a: Action, tid: Tid, id: Id)
    requires Inv(s) && Threatened(Act(s, a), tid, id) && !Threatened(s, tid, id)
    ensures TakesAHeldRow(s, a, tid, id)
  {
    if tid in s.threads && s.threads[tid] == Act(s, a).threads[tid] {
      StepLeavesTheCloseAlone(s, a, tid);
    } else {
      ThreadChanges(s, a, tid);
      ClosesBeginAtASweep(s, s.threads[tid], a.choice);
      TakesThePick(s, s.threads[tid], a.choice);
      OthersPickNothing(s, tid, a.choice, a.choice.pick);
    }
  }

  lemma ThreatsBeginAtAHeldRow(s: State, schedule: seq<Action>, tid: Tid, id: Id)
    requires Inv(s) && !Threatened(s, tid, id) && Threatened(Exec(s, schedule), tid, id)
    ensures exists k :: 0 <= k < |schedule| && TakesAHeldRow(Exec(s, schedule[..k]), schedule[k], tid, id)
  {
    var p := seq(|schedule| + 1, k requires 0 <= k <= |schedule| => Threatened(Exec(s, schedule[..k]), tid, id));
    assert schedule[..0] == [] && schedule[..|schedule|] == schedule;
    var k := SomeStepTurns(p);
    assert p[k + 1];
    ExecStep(s, schedule, k);
    ThreatBegins(Exec(s, schedule[..k]), schedule[k], tid, id);
  }

  /** Whenever a persist call breaks off at a row, some sweep held that row as the call took the lock to close it. */
  lemma BrokenOffCallsTookAHeldRow(s: State, schedule: seq<Action>, tid: Tid, c: Choice)
    requires Inv(s) && tid !in s.threads
    requires tid in Exec(s, schedule).threads && Persisting(Exec(s, schedule).threads[tid])
    requires Act(Exec(s, schedule), Step(tid, c)).threads[tid].Done?
    ensures var w := Exec(s, schedule).threads[tid];
      && w.PersistClose?
      && exists k :: 0 <= k < |schedule| && TakesAHeldRow(Exec(s, schedule[..k]), schedule[k], tid, w.id)
  {
    OnlyAStaleRowBreaksOff(Exec(s, schedule), tid, c);
    ThreatsBeginAtAHeldRow(s, schedule, tid, Exec(s, schedule).threads[tid].id);
  }
}
