/**
 A persisted deny that nothing interrupts: run alone, the machine's call leaves of the table what the broker object's
 method does, whether its entry could be written or not (src/egress_broker_host.py:1366-1533).
 */
module LonePersist {
  import opened Wrappers
  import opened RequestStore
  import opened DenyZones
  import opened Protocol
  import opened ProtocolInvariant
  import opened ProtocolSafety
  import R = Rulings

  /** The rows the call is to close or to skip. */
  function Targets(s: Store, e: Entry): set<Id> {
    CoveredOpen(s, e)
  }

  /** These rows are denied and marked, these denied and not yet marked, all others as they were. */
  ghost predicate Halfway(s: Store, t: Store, o: Order, now: Time, done: set<Id>, unmarked: set<Id>) {
    && t.rows.Keys == s.rows.Keys
    && forall id :: id in s.rows ==>
         t.rows[id] == if id in done then R.MadeDenied(s.rows[id], o, now)
                       else if id in unmarked
                           then R.MadeDenied(s.rows[id], o, now).(persistStatus := s.rows[id].persistStatus)
                       else s.rows[id]
  }

  /** What is so while the sweep goes on: the rows it has passed are done or were skipped for their running allow. */
  ghost predicate Sweeping(s: Store, applying: set<Id>, o: Order, now: Time, store: Store, todo: set<Id>,
                           skipped: set<Id>, current: set<Id>, unmarked: set<Id>) {
    var all := Targets(s, o.entry);
    && todo <= all && current <= all && skipped == (all - todo - current) * applying
    && todo !! current && current !! applying
    && Halfway(s, store, o, now, all - todo - current - applying, unmarked)
  }

  /** What is so at each phase of the call, given the table and the running applies it started with. */
  ghost predicate AtPhase(s: Store, applying: set<Id>, o: Order, now: Time, store: Store, w: Thread) {
    match w
    case PersistWrite(p) => p == o && store == s
    case PersistLoad(p, _) => p == o && store == s
    case PersistList(p, _) => p == o && store == s
    case PersistSweep(p, _, todo, skipped) => p == o && Sweeping(s, applying, o, now, store, todo, skipped, {}, {})
    case PersistClose(p, _, id, todo, skipped) =>
        p == o && Sweeping(s, applying, o, now, store, todo, skipped, {id}, {})
    case PersistMark(p, _, id, todo, skipped) =>
        p == o && Sweeping(s, applying, o, now, store, todo, skipped, {id}, {id})
    case PersistDone(p, _, skipped) => p == o && Sweeping(s, applying, o, now, store, {}, skipped, {}, {})
    case TriggerWait(p, id) => p == o && o.trigger == Some(id) && store == s
    case TriggerClose(p, id) => p == o && o.trigger == Some(id) && store == s && IsOpen(s, id) && id !in applying
    case TriggerMark(id) => o.trigger == Some(id) && AboutToMark(s, applying, o, now, store, id)
    case PersistRefused => R.TriggerFails(s, applying, o, now, store)
    case _ => false
  }

  ghost predicate AboutToMark(s: Store, applying: set<Id>, o: Order, now: Time, store: Store, id: Id) {
    && IsOpen(s, id) && id in store.rows && store.rows == s.rows[id := store.rows[id]]
    && store.rows[id] == (if id in applying then s.rows[id] else R.DeniedOnce(s.rows[id], o.reason, o.decider, now))
    && store.events == s.events + if id in applying then []
                                  else [Event(id, Closed(Denied, Some("once"), o.reason, o.decider, None), now)]
  }

  // ------------------------------------------------------------------ the sweep

  lemma Ends(s: Store, applying: set<Id>, o: Order, now: Time, store: Store, skipped: set<Id>)
    requires Sweeping(s, applying, o, now, store, {}, skipped, {}, {})
    ensures R.SweepsCovered(s, applying, o, now, store) && skipped == Targets(s, o.entry) * applying
  {
    var all := Targets(s, o.entry);
    assert all - {} - {} - applying == all - applying;
    forall id | id in s.rows ensures id in all - applying <==> R.Struck(s, applying, id, o.entry) {
      R.CoveredIsStruck(s, applying, o.entry, id);
    }
  }

  lemma Starts(s: Store, applying: set<Id>, o: Order, now: Time)
    ensures Sweeping(s, applying, o, now, s, Targets(s, o.entry), {}, {}, {})
  {
  }

  lemma StillOpen(s: Store, applying: set<Id>, o: Order, now: Time, store: Store, todo: set<Id>, skipped: set<Id>,
                  id: Id)
    requires Sweeping(s, applying, o, now, store, todo, skipped, {}, {}) && id in todo
    ensures IsOpen(store, id)
  {
  }

  lemma Skips(s: Store, applying: set<Id>, o: Order, now: Time, store: Store, todo: set<Id>, skipped: set<Id>, id: Id)
    requires Sweeping(s, applying, o, now, store, todo, skipped, {}, {}) && id in todo && id in applying
    ensures Sweeping(s, applying, o, now, store, todo - {id}, skipped + {id}, {}, {})
  {
    var all := Targets(s, o.entry);
    assert all - (todo - {id}) - {} - applying == all - todo - {} - applying;
  }

  lemma Takes(s: Store, applying: set<Id>, o: Order, now: Time, store: Store, todo: set<Id>, skipped: set<Id>, id: Id)
    requires Sweeping(s, applying, o, now, store, todo, skipped, {}, {}) && id in todo && id !in applying
    ensures Sweeping(s, applying, o, now, store, todo - {id}, skipped, {id}, {})
  {
    var all := Targets(s, o.entry);
    assert all - (todo - {id}) - {id} == all - todo - {};
  }

  lemma Closes(s: Store, applying: set<Id>, o: Order, now: Time, store: Store, todo: set<Id>, skipped: set<Id>, id: Id)
    requires UniqueOpen(store) && Sweeping(s, applying, o, now, store, todo, skipped, {id}, {})
    ensures var op := DoClose(id, OrderVerdict(o), now);
      ErrorOf(store, op).None? && Sweeping(s, applying, o, now, Perform(store, op), todo, skipped, {id}, {id})
  {
    assert id in {id};
  }

  lemma Marks(s: Store, applying: set<Id>, o: Order, now: Time, store: Store, todo: set<Id>, skipped: set<Id>, id: Id)
    requires UniqueOpen(store) && Sweeping(s, applying, o, now, store, todo, skipped, {id}, {id})
    ensures Sweeping(s, applying, o, now, Perform(store, DoPersist(id, Persisted, now)), todo, skipped, {}, {})
  {
    var all := Targets(s, o.entry);
    assert id in {id} && all - todo - {} - applying == (all - todo - {id} - applying) + {id};
  }

  // ------------------------------------------------------------------ a write that failed

  lemma TriggerClosed(s: Store, applying: set<Id>, o: Order, now: Time, id: Id)
    requires UniqueOpen(s) && IsOpen(s, id) && id !in applying
    ensures var op := DoClose(id, OnceVerdict("once", o.reason, o.decider), now);
      ErrorOf(s, op).None? && AboutToMark(s, applying, o, now, Perform(s, op), id)
  {
  }

  lemma TriggerMarked(s: Store, applying: set<Id>, o: Order, now: Time, store: Store, id: Id)
    requires UniqueOpen(store) && o.trigger == Some(id) && AboutToMark(s, applying, o, now, store, id)
    ensures R.TriggerFails(s, applying, o, now, Perform(store, DoPersist(id, PersistFailed, now)))
  {
  }

  // ------------------------------------------------------------------ one step

  function AfterMove(store: Store, m: Move): Store
    requires UniqueOpen(store)
  {
    if m.op.Some? then Perform(store, m.op.value) else store
  }

  lemma SweepMoves(s: Store, applying: set<Id>, o: Order, now: Time, u: State, w: Thread, c: Choice)
    requires UniqueOpen(u.store) && |u.file| > 0 && u.applying == applying && c.now == now
    requires AtPhase(s, applying, o, now, u.store, w) && w.PersistSweep? && MovePersist(u, w, c).Some?
    ensures var m := MovePersist(u, w, c).value; m.op.None? && AtPhase(s, applying, o, now, u.store, m.next)
  {
    if w.todo != {} {
      StillOpen(s, applying, o, now, u.store, w.todo, w.skipped, c.pick);
      if c.pick in applying {
        Skips(s, applying, o, now, u.store, w.todo, w.skipped, c.pick);
      } else {
        Takes(s, applying, o, now, u.store, w.todo, w.skipped, c.pick);
      }
    }
  }

  lemma ClosingMoves(s: Store, applying: set<Id>, o: Order, now: Time, u: State, w: Thread, c: Choice)
    requires UniqueOpen(u.store) && |u.file| > 0 && u.applying == applying && c.now == now
    requires AtPhase(s, applying, o, now, u.store, w) && (w.PersistClose? || w.PersistMark?)
    requires MovePersist(u, w, c).Some?
    ensures var m := MovePersist(u, w, c).value; AtPhase(s, applying, o, now, AfterMove(u.store, m), m.next)
  {
    if w.PersistClose? {
      Closes(s, applying, o, now, u.store, w.todo, w.skipped, w.id);
    } else {
      Marks(s, applying, o, now, u.store, w.todo, w.skipped, w.id);
    }
  }

  lemma TriggerMoves(s: Store, applying: set<Id>, o: Order, now: Time, u: State, w: Thread, c: Choice)
    requires UniqueOpen(u.store) && |u.file| > 0 && u.applying == applying && c.now == now
    requires AtPhase(s, applying, o, now, u.store, w) && (w.TriggerWait? || w.TriggerClose? || w.TriggerMark?)
    requires MovePersist(u, w, c).Some?
    ensures var m := MovePersist(u, w, c).value; AtPhase(s, applying, o, now, AfterMove(u.store, m), m.next)
  {
    if w.TriggerClose? {
      TriggerClosed(s, applying, o, now, w.id);
    } else if w.TriggerMark? {
      TriggerMarked(s, applying, o, now, u.store, w.id);
    }
  }

  lemma EarlyMoves(s: Store, applying: set<Id>, o: Order, now: Time, u: State, w: Thread, c: Choice)
    requires UniqueOpen(u.store) && |u.file| > 0 && u.applying == applying
    requires AtPhase(s, applying, o, now, u.store, w) && (w.PersistWrite? || w.PersistLoad? || w.PersistList?)
    requires MovePersist(u, w, c).Some?
    ensures var m := MovePersist(u, w, c).value; m.op.None? && AtPhase(s, applying, o, now, u.store, m.next)
  {
    if w.PersistList? { Starts(s, applying, o, now); }
  }

  lemma PersistMoves(s: Store, applying: set<Id>, o: Order, now: Time, u: State, w: Thread, c: Choice)
    requires UniqueOpen(u.store) && |u.file| > 0 && u.applying == applying && c.now == now
    requires AtPhase(s, applying, o, now, u.store, w) && MovePersist(u, w, c).Some?
    ensures var m := MovePersist(u, w, c).value; AtPhase(s, applying, o, now, AfterMove(u.store, m), m.next)
  {
    if w.PersistSweep? { SweepMoves(s, applying, o, now, u, w, c); }
    else if w.PersistClose? || w.PersistMark? { ClosingMoves(s, applying, o, now, u, w, c); }
    else if w.TriggerWait? || w.TriggerClose? || w.TriggerMark? { TriggerMoves(s, applying, o, now, u, w, c); }
    else { EarlyMoves(s, applying, o, now, u, w, c); }
  }

  // ------------------------------------------------------------------ the whole call

  /** Every action is a step of this thread at this time. */
  ghost predicate Uninterrupted(schedule: seq<Action>, tid: Tid, now: Time) {
    forall a :: a in schedule ==> a.Step? && a.tid == tid && a.choice.now == now
  }

  ghost predicate OnItsWay(s: State, tid: Tid, o: Order, now: Time, u: State) {
    && tid in u.threads && u.applying == s.applying
    && AtPhase(s.store, s.applying, o, now, u.store, u.threads[tid])
  }

  lemma PhaseIsAPersist(s: State, tid: Tid, o: Order, now: Time, u: State, c: Choice)
    requires UniqueOpen(u.store) && |u.file| > 0 && OnItsWay(s, tid, o, now, u)
    ensures MoveOf(u, u.threads[tid], c) == MovePersist(u, u.threads[tid], c)
    ensures MovePersist(u, u.threads[tid], c).Some? ==> MovePersist(u, u.threads[tid], c).value.apply.Unmoved?
  {
  }

  lemma StepStaysOnItsWay(s: State, tid: Tid, o: Order, now: Time, u: State, c: Choice)
    requires UniqueOpen(u.store) && |u.file| > 0 && OnItsWay(s, tid, o, now, u) && c.now == now
    ensures OnItsWay(s, tid, o, now, Act(u, Step(tid, c)))
  {
    PhaseIsAPersist(s, tid, o, now, u, c);
    if MovePersist(u, u.threads[tid], c).Some? { PersistMoves(s.store, s.applying, o, now, u, u.threads[tid], c); }
  }

  lemma {:induction false} RunStaysOnItsWay(s: State, tid: Tid, o: Order, now: Time, schedule: seq<Action>)
    requires Inv(s) && tid in s.threads && s.threads[tid] == PersistWrite(o) && Uninterrupted(schedule, tid, now)
    ensures OnItsWay(s, tid, o, now, Exec(s, schedule))
  {
    if schedule != [] {
      var init, last := schedule[..|schedule| - 1], schedule[|schedule| - 1];
      assert last in schedule && forall a :: a in init ==> a in schedule;
      RunStaysOnItsWay(s, tid, o, now, init);
      StepStaysOnItsWay(s, tid, o, now, Exec(s, init), last.choice);
    }
  }

  /** Denied exactly the open rows the entry is over, but for those whose allow is in flight, which were skipped; or,
      refused, denied the request that asked. */
  ghost predicate EndsAsTheMethod(s: State, o: Order, now: Time, u: State, w: Thread) {
    && !w.Done?
    && (w.PersistDone? ==>
          && R.SweepsCovered(s.store, s.applying, o, now, u.store)
          && forall id :: id in w.skipped <==> R.Struck(s.store, {}, id, o.entry) && id in s.applying)
    && (w.PersistRefused? ==> R.TriggerFails(s.store, s.applying, o, now, u.store))
  }

  lemma WayEndsAsTheMethod(s: State, tid: Tid, o: Order, now: Time, u: State)
    requires OnItsWay(s, tid, o, now, u)
    ensures EndsAsTheMethod(s, o, now, u, u.threads[tid])
  {
    if u.threads[tid].PersistDone? {
      Ends(s.store, s.applying, o, now, u.store, u.threads[tid].skipped);
      forall id ensures id in Targets(s.store, o.entry) <==> R.Struck(s.store, {}, id, o.entry) {
        R.CoveredIsStruck(s.store, {}, o.entry, id);
      }
    }
  }

  /** Run alone, a persist call that succeeds denies exactly the open rows its entry is over, but for those whose allow
      is in flight, which it skips; one whose write fails denies the request that asked for it; and it never breaks
      off. */
  lemma AloneItIsTheObjects(s: State, tid: Tid, o: Order, now: Time, schedule: seq<Action>)
    requires Inv(s) && tid in s.threads && s.threads[tid] == PersistWrite(o) && Uninterrupted(schedule, tid, now)
    ensures tid in Exec(s, schedule).threads
    ensures EndsAsTheMethod(s, o, now, Exec(s, schedule), Exec(s, schedule).threads[tid])
  {
    RunStaysOnItsWay(s, tid, o, now, schedule);
    WayEndsAsTheMethod(s, tid, o, now, Exec(s, schedule));
  }
}
