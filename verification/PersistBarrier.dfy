/**
 A persisted deny: once the written entry has been reloaded under the broker lock no filing it covers can
 open a row, and when the call returns every covered row still open had an allow in flight.
 */
module PersistBarrier {
  import opened Wrappers
  import opened RequestStore
  import opened DenyZones
  import opened HitWindow
  import opened Protocol
  import opened ProtocolInvariant
  import opened ProtocolSafety

  ghost predicate Lists(entries: seq<Entry>, e: Entry) {
    exists x :: x in entries && Names(x, e.zone, e.scope)
  }

  /** Every version of the denylist file since `at` has the entry for this zone and scope. */
  ghost predicate Stays(file: seq<seq<Entry>>, at: nat, e: Entry) {
    forall k :: at <= k < |file| ==> Lists(file[k], e)
  }

  /** The call has reloaded the entry it wrote. */
  predicate PastLoad(t: Thread) {
    t.PersistList? || t.PersistSweep? || t.PersistClose? || t.PersistMark? || t.PersistDone?
  }

  /** No thread can still open a row the entry covers: whoever has looked at the denylist since before
      the entry was written is gone. */
  ghost predicate Blocking(s: State, e: Entry, at: nat) {
    forall t :: t in s.threads ==>
      && (s.threads[t].FileMatch? ==> at <= s.threads[t].since)
      && (s.threads[t].FileInsert? ==> !Covers(e, s.threads[t].filing.container, s.threads[t].filing.host))
  }

  lemma LookupFindsIt(entries: seq<Entry>, e: Entry, container: string, host: string)
    requires Lists(entries, e) && Covers(e, container, host)
    ensures BestMatch(entries, container, host).Some?
  {
    BestMatchIsBest(entries, container, host);
    var x :| x in entries && Names(x, e.zone, e.scope);
    assert Covers(x, container, host);
  }

  lemma MoveKeepsBlocking(s: State, t: Thread, c: Choice, e: Entry, at: nat)
    requires UniqueOpen(s.store) && |s.file| > 0 && at < |s.file| && Stays(s.file, at, e)
    requires t.FileMatch? ==> at <= t.since
    ensures var m := MoveOf(s, t, c); m.Some? ==>
              && (m.value.next.FileMatch? ==> at <= m.value.next.since)
              && (m.value.next.FileInsert? ==> !Covers(e, m.value.next.filing.container, m.value.next.filing.host))
  {
    if t.FileMatch? && MoveOf(s, t, c).Some? && Covers(e, t.filing.container, t.filing.host) {
      LookupFindsIt(s.file[c.version], e, t.filing.container, t.filing.host);
    }
  }

  lemma ActKeepsBlocking(s: State, a: Action, e: Entry, at: nat)
    requires Inv(s) && at < |s.file| && Blocking(s, e, at) && Stays(s.file, at, e)
    ensures Blocking(Act(s, a), e, at)
  {
    if a.Step? && a.tid in s.threads {
      MoveKeepsBlocking(s, s.threads[a.tid], a.choice, e, at);
    }
  }

  lemma StaysEarlier(s: State, t: State, at: nat, e: Entry)
    requires s.file <= t.file && Stays(t.file, at, e)
    ensures Stays(s.file, at, e)
  {
    forall k | at <= k < |s.file| ensures Lists(s.file[k], e) {
      assert t.file[k] == s.file[k];
    }
  }

  /** The row of a filing that is being denied: open only inside the lock section that closes it. */
  ghost predicate Transient(s: State, id: Id) {
    && s.holder.Some? && s.holder.value in s.threads
    && s.threads[s.holder.value].FileDenyClose? && s.threads[s.holder.value].id == id
  }

  ghost predicate CoveredRow(s: State, e: Entry, id: Id) {
    IsOpen(s.store, id) && CoversRow(e, s.store.rows[id])
  }

  lemma FilingOp(s: State, t: Thread, c: Choice)
    requires UniqueOpen(s.store) && |s.file| > 0
    requires MoveOf(s, t, c).Some? && MoveOf(s, t, c).value.op.Some? && MoveOf(s, t, c).value.op.value.DoOpenOrHit?
    ensures t.FileHit? || t.FileInsert? || t.FileDenyOpen?
    ensures MoveOf(s, t, c).value.op.value == DoOpenOrHit(t.id, t.filing, t.now)
  {
  }

  lemma OpenedBy(s: Store, op: Op, id: Id)
    requires UniqueOpen(s) && !IsOpen(s, id) && IsOpen(Perform(s, op), id)
    ensures op.DoOpenOrHit? && op.id == id && id !in s.rows && Perform(s, op).rows[id].filing == op.filing
  {
    PerformWrites(s, op);
  }

  lemma OpenedByFiling(s: State, t: Thread, c: Choice, id: Id)
    requires UniqueOpen(s.store) && |s.file| > 0 && ThreadOk(s, t)
    requires MoveOf(s, t, c).Some? && MoveOf(s, t, c).value.op.Some?
    requires !IsOpen(s.store, id) && IsOpen(Perform(s.store, MoveOf(s, t, c).value.op.value), id)
    ensures t.FileInsert? || t.FileDenyOpen?
    ensures t.id == id && Perform(s.store, MoveOf(s, t, c).value.op.value).rows[id].filing == t.filing
    ensures t.FileDenyOpen? ==> MoveOf(s, t, c).value.next == FileDenyClose(t.filing, id, t.entry)
  {
    var op := MoveOf(s, t, c).value.op.value;
    OpenedBy(s.store, op, id);
    FilingOp(s, t, c);
  }

  /** A covered row that is open and not on its way to being denied. */
  ghost predicate Exposed(s: State, e: Entry, id: Id) {
    CoveredRow(s, e, id) && !Transient(s, id)
  }

  lemma DenyingThreadCloses(s: State, tid: Tid, c: Choice)
    requires Inv(s) && tid in s.threads && s.threads[tid].FileDenyClose?
    ensures !IsOpen(StepThread(s, tid, c).store, s.threads[tid].id)
  {
    assert ThreadOk(s, s.threads[tid]);
  }

  lemma TransientStays(s: State, tid: Tid, c: Choice, id: Id)
    requires Inv(s) && tid in s.threads && Transient(s, id) && IsOpen(StepThread(s, tid, c).store, id)
    ensures Transient(StepThread(s, tid, c), id)
  {
    var h := s.holder.value;
    if tid == h {
      DenyingThreadCloses(s, tid, c);
    } else {
      assert LockOk(s) && !HoldsLock(s.threads[tid]);
      EveryMoveShape(s, s.threads[tid], c);
    }
  }

  lemma NewRowsAreNotExposed(s: State, tid: Tid, c: Choice, e: Entry, at: nat, id: Id)
    requires Inv(s) && tid in s.threads && Blocking(s, e, at)
    requires !IsOpen(s.store, id) && IsOpen(StepThread(s, tid, c).store, id)
    ensures !Exposed(StepThread(s, tid, c), e, id)
  {
    var w := s.threads[tid];
    assert ThreadOk(s, w);
    OpenedByFiling(s, w, c, id);
    if w.FileDenyOpen? {
      EveryMoveShape(s, w, c);
      assert s.holder == Some(tid);
    }
  }

  /** While the entry stays, no step exposes a row it covers. */
  lemma ActExposesNothing(s: State, a: Action, e: Entry, at: nat, id: Id)
    requires Inv(s) && Blocking(s, e, at) && Exposed(Act(s, a), e, id)
    ensures Exposed(s, e, id)
  {
    ActExtends(s, a);
    if a.Step? && a.tid in s.threads {
      if !IsOpen(s.store, id) {
        NewRowsAreNotExposed(s, a.tid, a.choice, e, at, id);
      } else if Transient(s, id) {
        TransientStays(s, a.tid, a.choice, id);
      }
    }
  }

  /** From the moment the entry has been reloaded, and for as long as it stays in the file, no new row it
      covers is ever open while the broker lock is free, whatever anyone files, decides, sweeps or edits. */
  lemma NoNewRowUnderTheZone(s: State, schedule: seq<Action>, e: Entry, at: nat, id: Id)
    requires Inv(s) && at < |s.file| && Blocking(s, e, at) && Stays(Exec(s, schedule).file, at, e)
    requires Exec(s, schedule).holder.None? && CoveredRow(Exec(s, schedule), e, id)
    ensures Blocking(Exec(s, schedule), e, at)
    ensures CoveredRow(s, e, id)
  {
    NothingExposed(s, schedule, e, at, id);
  }

  lemma {:induction false} NothingExposed(s: State, schedule: seq<Action>, e: Entry, at: nat, id: Id)
    requires Inv(s) && at < |s.file| && Blocking(s, e, at) && Stays(Exec(s, schedule).file, at, e)
    ensures Blocking(Exec(s, schedule), e, at)
    ensures Exposed(Exec(s, schedule), e, id) ==> Exposed(s, e, id)
  {
    if schedule != [] {
      var init, last := schedule[..|schedule| - 1], schedule[|schedule| - 1];
      var before := Exec(s, init);
      ActExtends(before, last);
      StaysEarlier(before, Exec(s, schedule), at, e);
      NothingExposed(s, init, e, at, id);
      DecisionsAreFinal(s, init);
      ActKeepsBlocking(before, last, e, at);
      if Exposed(Exec(s, schedule), e, id) { ActExposesNothing(before, last, e, at, id); }
    }
  }

  /** The load step runs with the lock free, so no filing is half way through. */
  lemma LoadBlocks(s: State, tid: Tid, c: Choice)
    requires Inv(s) && tid in s.threads && s.threads[tid].PersistLoad? && Act(s, Step(tid, c)).threads[tid].PersistList?
    ensures Blocking(Act(s, Step(tid, c)), s.threads[tid].order.entry, s.threads[tid].at)
  {
    assert LockOk(s);
  }

  // ------------------------------------------------------------------ the sweep of a persisted deny

  predicate PastListing(t: Thread) {
    t.PersistSweep? || t.PersistClose? || t.PersistMark? || t.PersistDone?
  }

  /** The rows the call still has to close, and those it skipped because their allow was in flight. */
  function Accounted(t: Thread): set<Id>
    requires PastListing(t)
  {
    match t
    case PersistSweep(_, _, todo, skipped) => todo + skipped
    case PersistClose(_, _, id, todo, skipped) => {id} + todo + skipped
    case PersistMark(_, _, _, todo, skipped) => todo + skipped
    case PersistDone(_, _, skipped) => skipped
  }

  ghost predicate AccountsForAll(s: State, t: Thread)
    requires PastListing(t)
  {
    forall id :: Exposed(s, t.order.entry, id) ==> id in Accounted(t)
  }

  /** What is kept for each persist call: its entry was written at version `at`, and while it stays
      the call blocks new rows and accounts for the old ones. */
  ghost predicate CallOk(s: State, t: Thread) {
    && (t.PersistLoad? || PastLoad(t) ==> t.at < |s.file|)
    && (PastLoad(t) && Stays(s.file, t.at, t.order.entry) ==> Blocking(s, t.order.entry, t.at))
    && (PastListing(t) && Stays(s.file, t.at, t.order.entry) ==> AccountsForAll(s, t))
  }

  ghost predicate BarrierInv(s: State) {
    Inv(s) && forall t :: t in s.threads ==> CallOk(s, s.threads[t])
  }

  /** A persist call that another thread's action overtakes. */
  lemma OtherCallStaysOk(s: State, a: Action, t: Thread)
    requires Inv(s) && CallOk(s, t)
    ensures CallOk(Act(s, a), t)
  {
    ActExtends(s, a);
    if PastLoad(t) && Stays(Act(s, a).file, t.at, t.order.entry) {
      StaysEarlier(s, Act(s, a), t.at, t.order.entry);
      ActKeepsBlocking(s, a, t.order.entry, t.at);
      if PastListing(t) {
        forall id | Exposed(Act(s, a), t.order.entry, id) ensures id in Accounted(t) {
          ActExposesNothing(s, a, t.order.entry, t.at, id);
        }
      }
    }
  }

  /** What the call's own move takes off its account is closed, or was closed already. */
  lemma OwnAccount(s: State, w: Thread, c: Choice, id: Id)
    requires |s.file| > 0 && PastListing(w) && id in Accounted(w)
    requires MovePersist(s, w, c).Some? && PastListing(MovePersist(s, w, c).value.next)
    ensures var m := MovePersist(s, w, c).value;
            || id in Accounted(m.next)
            || (m.op.None? && !IsOpen(s.store, id))
            || (m.op.Some? && m.op.value.DoClose? && m.op.value.id == id
                && ErrorOf(s.store, m.op.value).None? && m.op.value.verdict.status == Denied)
  {
  }

  lemma ClosedIsNotOpen(s: Store, op: Op)
    requires UniqueOpen(s) && op.DoClose? && ErrorOf(s, op).None?
    ensures !IsOpen(Perform(s, op), op.id)
  {
  }

  lemma OthersNeverPersist(s: State, w: Thread, c: Choice)
    requires UniqueOpen(s.store) && |s.file| > 0 && MoveOf(s, w, c).Some?
    requires IsFile(w) || IsAllow(w) || w.DenyWait? || w.DenyClose? || w.SweepPick? || w.SweepClose?
    ensures !MoveOf(s, w, c).value.next.PersistLoad? && !PastLoad(MoveOf(s, w, c).value.next)
  {
  }

  /** What leads from one phase of a persist call to the next. */
  ghost predicate InOrder(s: State, w: Thread, m: Move) {
    var n := m.next;
    && (n.PersistLoad? ==> w.PersistWrite? && n.at == |s.file| && m.added.Some?)
    && (PastLoad(n) ==> (PastLoad(w) || w.PersistLoad?) && n.order == w.order && n.at == w.at)
    && (PastLoad(n) && !PastLoad(w) ==> n.PersistList?)
    && (PastListing(n) ==>
          PastListing(w) || (n.PersistSweep? && n.todo == CoveredOpen(s.store, n.order.entry) && m.op.None?))
  }

  lemma PersistOrder(s: State, w: Thread, c: Choice)
    requires |s.file| > 0 && MovePersist(s, w, c).Some?
    ensures InOrder(s, w, MovePersist(s, w, c).value)
  {
  }

  /** How the call's own move leads from one phase to the next. */
  lemma OwnOrder(s: State, w: Thread, c: Choice)
    requires UniqueOpen(s.store) && |s.file| > 0 && MoveOf(s, w, c).Some?
    ensures InOrder(s, w, MoveOf(s, w, c).value)
  {
    if IsFile(w) || IsAllow(w) || w.DenyWait? || w.DenyClose? || w.SweepPick? || w.SweepClose? {
      OthersNeverPersist(s, w, c);
    } else {
      PersistOrder(s, w, c);
    }
  }

  lemma OwnAccountStays(s: State, tid: Tid, c: Choice, id: Id)
    requires Inv(s) && tid in s.threads && PastListing(s.threads[tid]) && id in Accounted(s.threads[tid])
    requires var t := StepThread(s, tid, c); PastListing(t.threads[tid]) && IsOpen(t.store, id)
    ensures id in Accounted(StepThread(s, tid, c).threads[tid])
  {
    var w := s.threads[tid];
    if MoveOf(s, w, c).Some? {
      OwnAccount(s, w, c, id);
      var m := MoveOf(s, w, c).value;
      if m.op.Some? && m.op.value.DoClose? && ErrorOf(s.store, m.op.value).None? {
        ClosedIsNotOpen(s.store, m.op.value);
      }
    }
  }

  lemma OwnCallStaysOk(s: State, tid: Tid, c: Choice)
    requires Inv(s) && tid in s.threads && CallOk(s, s.threads[tid])
    ensures CallOk(StepThread(s, tid, c), StepThread(s, tid, c).threads[tid])
  {
    var a, w := Step(tid, c), s.threads[tid];
    var t := Act(s, a);
    var n := t.threads[tid];
    OtherCallStaysOk(s, a, w);
    ActExtends(s, a);
    if MoveOf(s, w, c).Some? {
      OwnOrder(s, w, c);
      if PastLoad(n) && !PastLoad(w) { LoadBlocks(s, tid, c); }
      if PastListing(n) && PastListing(w) && Stays(t.file, n.at, n.order.entry) {
        forall id | Exposed(t, n.order.entry, id) ensures id in Accounted(n) {
          OwnAccountStays(s, tid, c, id);
        }
      }
    }
  }

  lemma StepKeepsOthers(s: State, tid: Tid, c: Choice, u: Tid)
    requires Inv(s) && tid in s.threads && u in s.threads && u != tid
    ensures u in StepThread(s, tid, c).threads && StepThread(s, tid, c).threads[u] == s.threads[u]
    ensures StepThread(s, tid, c).threads.Keys == s.threads.Keys
  {
  }

  lemma StepKeepsBarrierInv(s: State, tid: Tid, c: Choice)
    requires BarrierInv(s) && tid in s.threads
    ensures BarrierInv(StepThread(s, tid, c))
  {
    ActKeepsInv(s, Step(tid, c));
    var t := StepThread(s, tid, c);
    forall u | u in t.threads ensures CallOk(t, t.threads[u]) {
      if u != tid {
        StepKeepsOthers(s, tid, c, u);
        OtherCallStaysOk(s, Step(tid, c), s.threads[u]);
      } else {
        OwnCallStaysOk(s, tid, c);
      }
    }
  }

  /** A call that has only begun has nothing to account for. */
  lemma NewCallIsOk(s: State, command: Command)
    ensures CallOk(s, Begin(command))
  {
  }

  lemma ActKeepsBarrierInv(s: State, a: Action)
    requires BarrierInv(s)
    ensures BarrierInv(Act(s, a))
  {
    if a.Step? {
      if a.tid in s.threads { StepKeepsBarrierInv(s, a.tid, a.choice); }
    } else {
      ActKeepsInv(s, a);
      OtherActsKeepCalls(s, a);
    }
  }

  lemma OtherActsKeepCalls(s: State, a: Action)
    requires BarrierInv(s) && !a.Step?
    ensures forall u :: u in Act(s, a).threads ==> CallOk(Act(s, a), Act(s, a).threads[u])
  {
    var t := Act(s, a);
    forall u | u in t.threads ensures CallOk(t, t.threads[u]) {
      if u in s.threads && t.threads[u] == s.threads[u] {
        OtherCallStaysOk(s, a, s.threads[u]);
      } else {
        NewCallIsOk(t, a.command);
      }
    }
  }

  lemma {:induction false} ExecKeepsBarrierInv(s: State, schedule: seq<Action>)
    requires BarrierInv(s)
    ensures BarrierInv(Exec(s, schedule))
  {
    if schedule != [] {
      ExecKeepsBarrierInv(s, schedule[..|schedule| - 1]);
      ActKeepsBarrierInv(Exec(s, schedule[..|schedule| - 1]), schedule[|schedule| - 1]);
    }
  }

  /** A call that has returned success, and whose entry is still in the file. */
  ghost predicate Persisted(s: State, tid: Tid) {
    tid in s.threads && s.threads[tid].PersistDone? && Stays(s.file, s.threads[tid].at, s.threads[tid].order.entry)
  }

  /** When a persisted deny returns success, and for as long as its entry stays, every covered row still
      open while the lock is free is one the call skipped. */
  lemma PersistedDenyClosesAllButSkipped(store: Store, entries: seq<Entry>, schedule: seq<Action>, tid: Tid, id: Id)
    requires StoreOk(store)
    requires var s := Exec(Boot(store, entries), schedule);
      Persisted(s, tid) && s.holder.None? && CoveredRow(s, s.threads[tid].order.entry, id)
    ensures id in Exec(Boot(store, entries), schedule).threads[tid].skipped
  {
    ExecKeepsBarrierInv(Boot(store, entries), schedule);
    var s := Exec(Boot(store, entries), schedule);
    assert CallOk(s, s.threads[tid]) && Exposed(s, s.threads[tid].order.entry, id);
  }

  predicate Skipped(t: Thread, o: Order, id: Id) {
    (t.PersistSweep? || t.PersistClose? || t.PersistMark? || t.PersistDone?) && t.order == o && id in t.skipped
  }

  predicate SkippedBy(s: State, tid: Tid, o: Order, id: Id) {
    tid in s.threads && Skipped(s.threads[tid], o, id)
  }

  /** The call has come to this row and finds its allow in flight. */
  ghost predicate FoundInFlight(s: State, tid: Tid, o: Order, id: Id) {
    && id in s.applying && IsOpen(s.store, id)
    && tid in s.threads && s.threads[tid].PersistSweep? && s.threads[tid].order == o && id in s.threads[tid].todo
  }

  ghost predicate SkippedSince(s: State, schedule: seq<Action>, k: nat, tid: Tid, o: Order, id: Id)
    requires Inv(s)
  {
    forall j :: k < j <= |schedule| ==> SkippedBy(Exec(s, schedule[..j]), tid, o, id)
  }

  /** The k-th step is the one in which the call comes to the row, finds its allow in flight, and skips it for good. */
  ghost predicate SkipsAt(s: State, schedule: seq<Action>, k: nat, tid: Tid, o: Order, id: Id)
    requires Inv(s) && k < |schedule|
  {
    && FoundInFlight(Exec(s, schedule[..k]), tid, o, id) && !SkippedBy(Exec(s, schedule[..k]), tid, o, id)
    && schedule[k].Step? && schedule[k].tid == tid && schedule[k].choice.pick == id
    && SkippedSince(s, schedule, k, tid, o, id)
  }

  ghost predicate SkippedInFlight(s: State, schedule: seq<Action>, tid: Tid, o: Order, id: Id)
    requires Inv(s)
  {
    exists k :: 0 <= k < |schedule| && SkipsAt(s, schedule, k, tid, o, id)
  }

  /** A row is skipped only because its allow was in flight when the call came to it. */
  lemma SkippedRowsWereInFlight(s: State, schedule: seq<Action>, tid: Tid, o: Order, id: Id)
    requires Inv(s) && !SkippedBy(s, tid, o, id) && SkippedBy(Exec(s, schedule), tid, o, id)
    ensures SkippedInFlight(s, schedule, tid, o, id)
  {
    var p := seq(|schedule| + 1, k requires 0 <= k <= |schedule| => SkippedBy(Exec(s, schedule[..k]), tid, o, id));
    assert schedule[..0] == [] && schedule[..|schedule|] == schedule;
    var k := SomeStepTurns(p);
    assert SkippedSince(s, schedule, k, tid, o, id) by {
      forall j | k < j <= |schedule| ensures SkippedBy(Exec(s, schedule[..j]), tid, o, id) { assert p[j]; }
    }
    TurningStepSkips(s, schedule, k, tid, o, id);
  }

  lemma TurningStepSkips(s: State, schedule: seq<Action>, k: nat, tid: Tid, o: Order, id: Id)
    requires Inv(s) && k < |schedule|
    requires !SkippedBy(Exec(s, schedule[..k]), tid, o, id) && SkippedSince(s, schedule, k, tid, o, id)
    ensures SkipsAt(s, schedule, k, tid, o, id)
  {
    ExecStep(s, schedule, k);
    StepSkips(Exec(s, schedule[..k]), schedule[k], tid, o, id);
  }

  lemma StepSkips(s: State, a: Action, tid: Tid, o: Order, id: Id)
    requires Inv(s) && !SkippedBy(s, tid, o, id) && SkippedBy(Act(s, a), tid, o, id)
    ensures FoundInFlight(s, tid, o, id) && a.Step? && a.tid == tid && a.choice.pick == id
  {
    ThreadChanges(s, a, tid);
    SkipIsInFlight(s, s.threads[tid], a.choice, o, id);
  }

  lemma SkipIsInFlight(s: State, w: Thread, c: Choice, o: Order, id: Id)
    requires UniqueOpen(s.store) && |s.file| > 0 && MoveOf(s, w, c).Some?
    requires !Skipped(w, o, id) && Skipped(MoveOf(s, w, c).value.next, o, id)
    ensures id in s.applying && IsOpen(s.store, id) && w.PersistSweep? && w.order == o && id in w.todo && c.pick == id
  {
    OwnOrder(s, w, c);
    PersistMoveSkips(s, w, c, o, id);
  }

  lemma PersistMoveSkips(s: State, w: Thread, c: Choice, o: Order, id: Id)
    requires |s.file| > 0 && PastLoad(w) && MovePersist(s, w, c).Some?
    requires !Skipped(w, o, id) && Skipped(MovePersist(s, w, c).value.next, o, id)
    ensures id in s.applying && IsOpen(s.store, id) && w.PersistSweep? && w.order == o && id in w.todo && c.pick == id
  {
  }

  /** The promise of a persisted deny, whole: after a call has returned success, and for as long as its entry
      stays, a covered row that is open while the lock is free is one the call's sweep came to while its allow
      was in flight, and passed over in that very step. */
  lemma PersistedDenyLeavesOnlyInFlight(store: Store, entries: seq<Entry>, schedule: seq<Action>, tid: Tid, id: Id)
    requires StoreOk(store)
    requires var s := Exec(Boot(store, entries), schedule);
      Persisted(s, tid) && s.holder.None? && CoveredRow(s, s.threads[tid].order.entry, id)
    ensures var o := Exec(Boot(store, entries), schedule).threads[tid].order;
      SkippedInFlight(Boot(store, entries), schedule, tid, o, id)
  {
    PersistedDenyClosesAllButSkipped(store, entries, schedule, tid, id);
    var boot := Boot(store, entries);
    SkippedRowsWereInFlight(boot, schedule, tid, Exec(boot, schedule).threads[tid].order, id);
  }
}
