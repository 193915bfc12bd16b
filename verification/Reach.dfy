/**
 How far a persisted deny and a stale sweep reach: over every interleaving each row a deny closes is one its entry is
 over, by scope and by labels, and each row a sweep closes has been open for a day (src/egress_broker_host.py).
 */
module Reach {
  import opened Wrappers
  import opened RequestStore
  import opened DenyZones
  import opened Protocol
  import opened ProtocolInvariant
  import opened ProtocolSafety

  // ------------------------------------------------------------------ a persisted deny

  /** The rows a persist call still means to close. */
  function Aimed(t: Thread): set<Id> {
    if t.PersistSweep? || t.PersistMark? then t.todo else if t.PersistClose? then {t.id} + t.todo else {}
  }

  /** The entry is over the row's own filing: global or of its bottle, with a zone that ends its host. */
  ghost predicate OverRow(s: Store, e: Entry, id: Id) {
    id in s.rows && Under(e, s.rows[id].filing.container, s.rows[id].filing.host)
  }

  ghost predicate AimsRight(s: Store, t: Thread) {
    forall id :: id in Aimed(t) ==> OverRow(s, t.order.entry, id)
  }

  ghost predicate AllAimRight(s: State) {
    forall t :: t in s.threads ==> AimsRight(s.store, s.threads[t])
  }

  lemma OverRowLater(s: Store, t: Store, e: Entry, id: Id)
    requires OverRow(s, e, id) && Extends(s, t)
    ensures OverRow(t, e, id)
  {
  }

  lemma ListedAreOver(s: Store, e: Entry, id: Id)
    requires id in CoveredOpen(s, e)
    ensures OverRow(s, e, id)
  {
    CoversIsUnder(e, s.rows[id].filing.container, s.rows[id].filing.host);
  }

  /** The listing takes exactly the open rows the entry is over. */
  lemma ListsExactly(s: State, tid: Tid, c: Choice, id: Id)
    requires Inv(s) && tid in s.threads && s.threads[tid].PersistList? && s.holder.None?
    ensures var n := Act(s, Step(tid, c)).threads[tid];
      n.PersistSweep? && n.order == s.threads[tid].order && n.skipped == {}
      && (id in n.todo <==> OverRow(s.store, n.order.entry, id) && s.store.rows[id].status == Open)
  {
    var e := s.threads[tid].order.entry;
    if id in s.store.rows { CoversIsUnder(e, s.store.rows[id].filing.container, s.store.rows[id].filing.host); }
  }

  predicate IsPersist(w: Thread) {
    !IsFile(w) && !IsAllow(w) && !w.DenyWait? && !w.DenyClose? && !w.SweepPick? && !w.SweepClose?
  }

  lemma OthersAimAtNothing(s: State, w: Thread, c: Choice)
    requires UniqueOpen(s.store) && |s.file| > 0 && !IsPersist(w) && MoveOf(s, w, c).Some?
    ensures Aimed(MoveOf(s, w, c).value.next) == {}
  {
  }

  lemma PersistAims(s: State, w: Thread, c: Choice, id: Id)
    requires UniqueOpen(s.store) && |s.file| > 0 && MovePersist(s, w, c).Some?
    requires id in Aimed(MovePersist(s, w, c).value.next)
    ensures var n := MovePersist(s, w, c).value.next;
      || (id in Aimed(w) && n.order == w.order)
      || (id in CoveredOpen(s.store, n.order.entry) && MovePersist(s, w, c).value.op.None?)
  {
  }

  /** A call aims at what it aimed at before, or at what it has just listed. */
  lemma AimsNarrow(s: State, w: Thread, c: Choice, id: Id)
    requires UniqueOpen(s.store) && |s.file| > 0 && MoveOf(s, w, c).Some? && id in Aimed(MoveOf(s, w, c).value.next)
    ensures var n := MoveOf(s, w, c).value.next;
      || (id in Aimed(w) && n.order == w.order)
      || (id in CoveredOpen(s.store, n.order.entry) && MoveOf(s, w, c).value.op.None?)
  {
    if IsPersist(w) { PersistAims(s, w, c, id); } else { OthersAimAtNothing(s, w, c); }
  }

  lemma NextAimsRight(s: State, tid: Tid, c: Choice)
    requires Inv(s) && tid in s.threads && AimsRight(s.store, s.threads[tid]) && MoveOf(s, s.threads[tid], c).Some?
    ensures AimsRight(Act(s, Step(tid, c)).store, MoveOf(s, s.threads[tid], c).value.next)
  {
    var w, n := s.threads[tid], MoveOf(s, s.threads[tid], c).value.next;
    ActExtends(s, Step(tid, c));
    forall id | id in Aimed(n) ensures OverRow(Act(s, Step(tid, c)).store, n.order.entry, id) {
      AimsNarrow(s, w, c, id);
      if id in CoveredOpen(s.store, n.order.entry) { ListedAreOver(s.store, n.order.entry, id); }
      OverRowLater(s.store, Act(s, Step(tid, c)).store, n.order.entry, id);
    }
  }

  lemma AimsRightLater(s: Store, t: Store, w: Thread)
    requires AimsRight(s, w) && Extends(s, t)
    ensures AimsRight(t, w)
  {
    forall id | id in Aimed(w) ensures OverRow(t, w.order.entry, id) { OverRowLater(s, t, w.order.entry, id); }
  }

  lemma BeginsAimless(s: Store, command: Command)
    ensures AimsRight(s, Begin(command))
  {
  }

  lemma ActKeepsAim(s: State, a: Action)
    requires Inv(s) && AllAimRight(s)
    ensures AllAimRight(Act(s, a))
  {
    ActExtends(s, a);
    var t := Act(s, a);
    forall u | u in t.threads ensures AimsRight(t.store, t.threads[u]) {
      if u in s.threads && t.threads[u] == s.threads[u] {
        AimsRightLater(s.store, t.store, s.threads[u]);
      } else {
        ThreadChanges(s, a, u);
        if a.Start? { BeginsAimless(t.store, a.command); } else { NextAimsRight(s, u, a.choice); }
      }
    }
  }

  lemma {:induction false} RunKeepsAim(s: State, schedule: seq<Action>)
    requires Inv(s) && AllAimRight(s)
    ensures AllAimRight(Exec(s, schedule))
  {
    if schedule != [] {
      RunKeepsAim(s, schedule[..|schedule| - 1]);
      ActKeepsAim(Exec(s, schedule[..|schedule| - 1]), schedule[|schedule| - 1]);
    }
  }

  /** What a persisted deny leaves of a row it closes: denied, the zone and scope of its entry told to the bottle. */
  ghost predicate DeniedBy(row: Row, o: Order) {
    && row.status == Denied && row.decidedBy == Some(o.decider) && row.denyReason == o.reason
    && row.scope == Some(if o.entry.scope == GLOBAL then GLOBAL else "bottle")
    && row.denylistZone == Some(o.entry.zone) && row.denylistScope == Some(o.entry.scope)
    && row.decisionBody == Some(DenyBody(Some("denylist"), Some(o.entry.zone), Some(o.entry.scope)))
  }

  lemma PersistCloseMoves(s: State, w: Thread, c: Choice)
    requires UniqueOpen(s.store) && |s.file| > 0 && w.PersistClose? && MoveOf(s, w, c).Some?
    requires MoveOf(s, w, c).value.op.Some?
    ensures var op := MoveOf(s, w, c).value.op.value;
      op.DoClose? && op.id == w.id && op.verdict == OrderVerdict(w.order)
  {
  }

  lemma ClosedByOrder(s: Store, op: Op, o: Order, id: Id)
    requires UniqueOpen(s) && op.DoClose? && op.verdict == OrderVerdict(o)
    requires IsOpen(s, id) && !IsOpen(Perform(s, op), id)
    ensures id == op.id && id in Perform(s, op).rows && DeniedBy(Perform(s, op).rows[id], o)
  {
  }

  lemma CloseStepCloses(s: State, tid: Tid, c: Choice, id: Id)
    requires Inv(s) && tid in s.threads && s.threads[tid].PersistClose?
    requires IsOpen(s.store, id) && !IsOpen(Act(s, Step(tid, c)).store, id)
    ensures id == s.threads[tid].id && id !in s.applying
    ensures id in Act(s, Step(tid, c)).store.rows && DeniedBy(Act(s, Step(tid, c)).store.rows[id], s.threads[tid].order)
  {
    var w := s.threads[tid];
    assert ThreadOk(s, w);
    PersistCloseMoves(s, w, c);
    ClosedByOrder(s.store, MoveOf(s, w, c).value.op.value, w.order, id);
  }

  /** In every run a row that a persist call closes is one its entry is over, was open with no allow in flight, and is
      denied for that entry. */
  lemma PersistClosesOnlyWhatItIsOver(store: Store, entries: seq<Entry>, schedule: seq<Action>, tid: Tid, c: Choice,
                                      id: Id)
    requires StoreOk(store)
    requires var s := Exec(Boot(store, entries), schedule);
      && tid in s.threads && s.threads[tid].PersistClose?
      && IsOpen(s.store, id) && !IsOpen(Act(s, Step(tid, c)).store, id)
    ensures var s := Exec(Boot(store, entries), schedule); var t := Act(s, Step(tid, c)).store;
      && OverRow(s.store, s.threads[tid].order.entry, id) && id !in s.applying
      && id in t.rows && DeniedBy(t.rows[id], s.threads[tid].order)
  {
    RunKeepsAim(Boot(store, entries), schedule);
    CloseStepCloses(Exec(Boot(store, entries), schedule), tid, c, id);
  }

  // ------------------------------------------------------------------ a stale sweep

  const A_DAY := 24 * 60 * 60

  /** The row was opened a day or more before this time. */
  predicate DayOld(s: Store, id: Id, now: Time) {
    id in s.rows && s.rows[id].openedAt + A_DAY <= now
  }

  /** The pick takes exactly the open rows that are a day old and have no allow in flight. */
  lemma PicksExactly(s: State, tid: Tid, c: Choice, id: Id)
    requires Inv(s) && tid in s.threads && s.threads[tid].SweepPick? && s.holder.None?
    ensures var n := Act(s, Step(tid, c)).threads[tid];
      n.SweepClose? && n.now == s.threads[tid].now
      && (id in n.todo <==> DayOld(s.store, id, n.now) && s.store.rows[id].status == Open && id !in s.applying)
  {
  }

  ghost predicate SweepsOld(s: Store, t: Thread) {
    t.SweepClose? ==> forall id :: id in t.todo ==> DayOld(s, id, t.now)
  }

  ghost predicate AllSweepOld(s: State) {
    forall t :: t in s.threads ==> SweepsOld(s.store, s.threads[t])
  }

  lemma SweepNarrows(s: State, w: Thread, c: Choice, id: Id)
    requires UniqueOpen(s.store) && |s.file| > 0 && MoveOf(s, w, c).Some?
    requires MoveOf(s, w, c).value.next.SweepClose? && id in MoveOf(s, w, c).value.next.todo
    ensures var n := MoveOf(s, w, c).value.next;
      (w.SweepClose? && id in w.todo && n.now == w.now) || DayOld(s.store, id, n.now)
  {
  }

  lemma DayOldLater(s: Store, t: Store, id: Id, now: Time)
    requires DayOld(s, id, now) && Extends(s, t)
    ensures DayOld(t, id, now)
  {
  }

  lemma NextSweepsOld(s: State, tid: Tid, c: Choice)
    requires Inv(s) && tid in s.threads && SweepsOld(s.store, s.threads[tid]) && MoveOf(s, s.threads[tid], c).Some?
    ensures SweepsOld(Act(s, Step(tid, c)).store, MoveOf(s, s.threads[tid], c).value.next)
  {
    var w, n := s.threads[tid], MoveOf(s, s.threads[tid], c).value.next;
    ActExtends(s, Step(tid, c));
    if n.SweepClose? {
      forall id | id in n.todo ensures DayOld(Act(s, Step(tid, c)).store, id, n.now) {
        SweepNarrows(s, w, c, id);
        DayOldLater(s.store, Act(s, Step(tid, c)).store, id, n.now);
      }
    }
  }

  lemma SweepsOldLater(s: Store, t: Store, w: Thread)
    requires SweepsOld(s, w) && Extends(s, t)
    ensures SweepsOld(t, w)
  {
    if w.SweepClose? {
      forall id | id in w.todo ensures DayOld(t, id, w.now) { DayOldLater(s, t, id, w.now); }
    }
  }

  lemma ActKeepsSweeps(s: State, a: Action)
    requires Inv(s) && AllSweepOld(s)
    ensures AllSweepOld(Act(s, a))
  {
    ActExtends(s, a);
    var t := Act(s, a);
    forall u | u in t.threads ensures SweepsOld(t.store, t.threads[u]) {
      if u in s.threads && t.threads[u] == s.threads[u] {
        SweepsOldLater(s.store, t.store, s.threads[u]);
      } else {
        ThreadChanges(s, a, u);
        if a.Step? { NextSweepsOld(s, u, a.choice); }
      }
    }
  }

  lemma {:induction false} RunKeepsSweeps(s: State, schedule: seq<Action>)
    requires Inv(s) && AllSweepOld(s)
    ensures AllSweepOld(Exec(s, schedule))
  {
    if schedule != [] {
      RunKeepsSweeps(s, schedule[..|schedule| - 1]);
      ActKeepsSweeps(Exec(s, schedule[..|schedule| - 1]), schedule[|schedule| - 1]);
    }
  }

  predicate IsStale(s: Store, id: Id) {
    id in s.rows && s.rows[id].status == Stale
  }

  lemma OnlySweepsMakeStale(s: State, a: Action, id: Id)
    requires Inv(s) && !IsStale(s.store, id) && IsStale(Act(s, a).store, id)
    ensures a.Step? && Sweeps(s, a.tid, id)
  {
    var w := s.threads[a.tid];
    assert ThreadOk(s, w);
    OnlyStaleClosesMakeStale(s.store, MoveOf(s, w, a.choice).value.op.value, id);
    StaleCloseIsASweep(s, w, a.choice);
  }

  lemma OnlyStaleClosesMakeStale(s: Store, op: Op, id: Id)
    requires UniqueOpen(s) && !IsStale(s, id) && IsStale(Perform(s, op), id)
    ensures op.DoClose? && op.id == id && op.verdict.status == Stale && IsOpen(s, id)
  {
  }

  /** In every run a row goes stale only in a step of a sweep, and only a day or more after it was opened. */
  lemma StaleRowsAreADayOld(store: Store, entries: seq<Entry>, schedule: seq<Action>, a: Action, id: Id)
    requires StoreOk(store)
    requires var s := Exec(Boot(store, entries), schedule); !IsStale(s.store, id) && IsStale(Act(s, a).store, id)
    ensures var s := Exec(Boot(store, entries), schedule);
      a.Step? && Sweeps(s, a.tid, id) && DayOld(s.store, id, s.threads[a.tid].now)
  {
    RunKeepsSweeps(Boot(store, entries), schedule);
    OnlySweepsMakeStale(Exec(Boot(store, entries), schedule), a, id);
  }
}
