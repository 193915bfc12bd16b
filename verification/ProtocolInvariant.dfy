/**
 The invariant of the approval protocol, and its proof for every step of every thread.
 */
module ProtocolInvariant {
  import opened Wrappers
  import opened RequestStore
  import opened DenyZones
  import opened HitWindow
  import opened Protocol

  // ------------------------------------------------------------------ what is kept

  ghost predicate HasApplied(events: seq<Event>, id: Id, before: nat) {
    exists i :: 0 <= i < before && i < |events| && events[i].request == id && events[i].kind == ApplySucceeded
  }

  /** Every `allowed` event follows an `applied` event of its request. */
  ghost predicate AllowedAfterApplied(events: seq<Event>) {
    forall j :: 0 <= j < |events| && events[j].kind.Closed? && events[j].kind.status == Allowed
                ==> HasApplied(events, events[j].request, j)
  }

  /** An allowed row was applied and tells its bottle so; any other decided row tells it no. */
  predicate DecisionOk(row: Row) {
    && (row.status == Allowed
       ==> row.applyStatus == Some(Applied) && row.decisionBody.Some? && row.decisionBody.value.AllowBody?)
    && (row.status == Denied || row.status == Stale ==> row.decisionBody.Some? && row.decisionBody.value.DenyBody?)
  }

  ghost predicate Replayed(s: Store) {
    exists silent :: Logged(s, silent)
  }

  ghost predicate StoreOk(s: Store) {
    && UniqueOpen(s) && RowsOk(s) && Replayed(s) && AllowedAfterApplied(s.events)
    && DecisionsOk(s)
  }

  ghost predicate DecisionsOk(s: Store) {
    forall id :: id in s.rows ==> DecisionOk(s.rows[id])
  }

  /** The broker lock has exactly the holder that is inside a lock section. */
  ghost predicate LockOk(s: State) {
    && (s.holder.Some? ==> s.holder.value in s.threads)
    && (forall t :: t in s.threads ==> (HoldsLock(s.threads[t]) <==> s.holder == Some(t)))
  }

  /** A request is marked as applying exactly while one thread waits for its subprocess. */
  ghost predicate ApplyingOk(s: State) {
    && (forall t, id :: t in s.threads && InFlight(s.threads[t], id) ==> id in s.applying)
    && (forall id :: id in s.applying ==> exists t :: t in s.threads && InFlight(s.threads[t], id))
    && (forall t, u, id ::
          t in s.threads && u in s.threads && InFlight(s.threads[t], id) && InFlight(s.threads[u], id) ==> t == u)
  }

  predicate DenylistDenial(s: Store, id: Id, key: HitKey) {
    && id in s.rows && s.rows[id].status == Denied && s.rows[id].decidedBy == Some("denylist")
    && s.rows[id].filing.container == key.container && s.rows[id].denylistZone == Some(key.zone)
  }

  /** The thread is about to write the denied row that the window of this key already names. */
  predicate WritesDenial(t: Thread, id: Id, key: HitKey) {
    (t.FileDenyOpen? || t.FileDenyClose?) && t.id == id && HitKey(t.filing.container, t.entry.zone) == key
  }

  /** Every window names a row the denylist denied for its container and zone. */
  ghost predicate HitsOk(s: State) {
    forall key :: key in s.hits ==>
      || DenylistDenial(s.store, s.hits[key].request, key)
      || (s.holder.Some? && s.holder.value in s.threads
         && WritesDenial(s.threads[s.holder.value], s.hits[key].request, key))
  }

  ghost predicate NoOpenRow(s: Store, key: AskKey) {
    forall id :: !OpenFor(s, id, key)
  }

  /** No running sweep has picked this request. */
  ghost predicate Unpicked(s: State, id: Id) {
    forall t :: t in s.threads && s.threads[t].SweepClose? ==> id !in s.threads[t].todo
  }

  predicate OpenOrStale(s: Store, id: Id) {
    id in s.rows && (s.rows[id].status == Open || s.rows[id].status == Stale)
  }

  predicate AnswerOk(s: Store, a: Answer) {
    match a
    case Pending(id, attempt, _) => id in s.rows && attempt <= s.rows[id].applyAttempts
    case Decided(body, id) => body.AllowBody? ==> id in s.rows && s.rows[id].status == Allowed
    case _ => true
  }

  /** What each thread knows where it is. */
  ghost predicate ThreadOk(s: State, t: Thread) {
    match t
    case FileHit(f, now, id) => id in s.store.rows && KeyOf(s.store.rows[id].filing) == KeyOf(f)
    case FileMatch(f, rid, now, since) =>
      since < |s.file| && (rid.Some? ==> rid.value !in s.store.rows) && NoOpenRow(s.store, KeyOf(f))
    case FileInsert(f, now, id) => id !in s.store.rows && NoOpenRow(s.store, KeyOf(f))
    case FileNotify(id, now, answer) => id in s.store.rows && AnswerOk(s.store, answer)
    case FileDenyOpen(f, now, id, e) => id !in s.store.rows && NoOpenRow(s.store, KeyOf(f))
    case FileDenyClose(f, id, e) =>
      IsOpen(s.store, id) && s.store.rows[id].filing == f && id !in s.applying && Unpicked(s, id)
    case FileSuppress(id, now, e) =>
        id in s.store.rows && s.store.rows[id].status == Denied && s.store.rows[id].decidedBy == Some("denylist")
    case AllowMarkIp(id) => OpenOrStale(s.store, id)
    case Applying(id, _, _) => OpenOrStale(s.store, id)
    case ApplyReturned(id, _, _, _) => OpenOrStale(s.store, id)
    case AllowMark(id, _, _) => OpenOrStale(s.store, id) && id !in s.applying
    case AllowClose(id, _, _) =>
      && OpenOrStale(s.store, id) && id !in s.applying
      && s.store.rows[id].applyStatus == Some(Applied) && HasApplied(s.store.events, id, |s.store.events|)
    case AllowFail(id) => OpenOrStale(s.store, id)
    case DenyClose(id, v) => OpenOrStale(s.store, id) && id !in s.applying && v.status == Denied && v.body.DenyBody?
    case PersistClose(_, _, id, _, _) => OpenOrStale(s.store, id) && id !in s.applying
    case TriggerClose(_, id) => OpenOrStale(s.store, id) && id !in s.applying
    case SweepClose(todo, _) => todo <= s.store.rows.Keys
    case Done(answer) => AnswerOk(s.store, answer)
    case _ => true
  }

  ghost predicate Inv(s: State) {
    && |s.file| > 0 && StoreOk(s.store) && LockOk(s) && ApplyingOk(s) && HitsOk(s)
    && forall t :: t in s.threads ==> ThreadOk(s, s.threads[t])
  }

  // ------------------------------------------------------------------ the store, one transaction at a time

  /** The calls that keep the store's promises: nothing is allowed before it was applied. */
  ghost predicate SafeOp(s: Store, op: Op) {
    match op
    case DoClose(id, v, _) =>
      if v.status == Allowed then
        v.body.AllowBody? && id in s.rows && s.rows[id].applyStatus == Some(Applied)
            && HasApplied(s.events, id, |s.events|)
      else v.body.DenyBody?
    case DoApply(id, outcome, _) => id in s.rows ==> s.rows[id].status != Allowed
    case _ => true
  }

  lemma SafeOpKeepsOrder(s: Store, op: Op)
    requires StoreOk(s) && SafeOp(s, op)
    ensures AllowedAfterApplied(Perform(s, op).events)
  {
    var t := Perform(s, op);
    PerformWrites(s, op);
    if t.events != s.events {
      var n := |s.events|;
      assert t.events == s.events + [t.events[n]];
      forall j | 0 <= j < |t.events| && t.events[j].kind.Closed? && t.events[j].kind.status == Allowed
        ensures HasApplied(t.events, t.events[j].request, j)
      {
        assert HasApplied(s.events, t.events[j].request, j);
        var i :| 0 <= i < j && i < |s.events| && s.events[i].request == t.events[j].request
            && s.events[i].kind == ApplySucceeded;
        assert t.events[i] == s.events[i];
      }
    }
  }

  lemma SafeOpKeepsDecisions(s: Store, op: Op)
    requires StoreOk(s) && SafeOp(s, op)
    ensures DecisionsOk(Perform(s, op))
  {
    PerformWrites(s, op);
    var id := Target(s, op);
    assert id in s.rows ==> DecisionOk(s.rows[id]);
    assert Perform(s, op) != s ==> DecisionOk(Perform(s, op).rows[id]);
  }

  lemma SafeOpKeepsStoreOk(s: Store, op: Op)
    requires StoreOk(s) && SafeOp(s, op)
    ensures StoreOk(Perform(s, op))
  {
    SafeOpKeepsDecisions(s, op);
    PerformKeeps(s, op);
    PerformKeepsRowsOk(s, op);
    SafeOpKeepsOrder(s, op);
    var silent :| Logged(s, silent);
    PerformKeepsLogged(s, op, silent);
  }

  // ------------------------------------------------------------------ the shape of a move

  /** The rows a thread may still close outside the broker lock. */
  function Swept(t: Thread): set<Id> {
    if t.SweepClose? then t.todo else {}
  }

  /** A transaction outside the broker lock closes a picked row as stale or notes a persist outcome. */
  predicate QuietOp(t: Thread, op: Op) {
    op.DoPersist? || (op.DoClose? && op.verdict == STALE_VERDICT && op.id in Swept(t))
  }

  /** What every move keeps to, whatever its thread: the lock discipline, the bookkeeping of running
      applies, and what may be done without the lock. */
  ghost predicate MoveShape(s: State, t: Thread, m: Move) {
    && (m.lock == Take ==> s.holder.None?)
    && (m.lock == Drop ==> HoldsLock(t))
    && (HoldsLock(m.next) <==> m.lock == Take || (m.lock == Keep && HoldsLock(t)))
    && (m.apply.Unmoved? ==> forall id :: InFlight(m.next, id) <==> InFlight(t, id))
    && (m.apply.Mark? ==>
          s.holder.None? && t.AllowWait? && m.apply.marked !in s.applying && m.next.Applying?
          && m.next.id == m.apply.marked)
    && (m.apply.Unmark? ==>
          s.holder.None? && t.ApplyReturned? && t.id == m.apply.unmarked && !m.next.Applying?
          && !m.next.ApplyReturned?)
    && (m.window.Some? ==> HoldsLock(t))
    && (m.op.Some? ==> HoldsLock(t) || QuietOp(t, m.op.value))
  }

  lemma CoalesceShape(s: State, t: Thread)
    requires UniqueOpen(s.store) && |s.file| > 0 && t.FileWait?
    ensures var m := Coalesce(s, t.filing, t.requestId, t.now); m.Some? ==> MoveShape(s, t, m.value)
  {
  }

  lemma ConsultedShape(s: State, t: Thread, c: Choice)
    requires t.FileMatch? && s.holder.Some?
    ensures Consulted(s, t, c).Some? ==> MoveShape(s, t, Consulted(s, t, c).value)
  {
  }

  lemma FileMoveShape(s: State, t: Thread, c: Choice)
    requires UniqueOpen(s.store) && |s.file| > 0 && (HoldsLock(t) ==> s.holder.Some?)
    ensures MoveFile(s, t, c).Some? ==> MoveShape(s, t, MoveFile(s, t, c).value)
  {
    if t.FileWait? {
      CoalesceShape(s, t);
    } else if t.FileMatch? {
      ConsultedShape(s, t, c);
    }
  }

  lemma AllowMoveShape(s: State, t: Thread, c: Choice)
    ensures MoveAllow(s, t, c).Some? ==> MoveShape(s, t, MoveAllow(s, t, c).value)
  {
  }

  lemma OtherMoveShape(s: State, t: Thread, c: Choice)
    requires |s.file| > 0
    ensures MoveDeny(s, t, c).Some? ==> MoveShape(s, t, MoveDeny(s, t, c).value)
    ensures MoveSweep(s, t, c).Some? ==> MoveShape(s, t, MoveSweep(s, t, c).value)
  {
  }

  lemma PersistMoveShape(s: State, t: Thread, c: Choice)
    requires |s.file| > 0
    ensures MovePersist(s, t, c).Some? ==> MoveShape(s, t, MovePersist(s, t, c).value)
  {
  }

  lemma EveryMoveShape(s: State, t: Thread, c: Choice)
    requires UniqueOpen(s.store) && |s.file| > 0 && (HoldsLock(t) ==> s.holder.Some?)
    ensures MoveOf(s, t, c).Some? ==> MoveShape(s, t, MoveOf(s, t, c).value)
  {
    if IsFile(t) { FileMoveShape(s, t, c); }
    else if IsAllow(t) { AllowMoveShape(s, t, c); }
    else { OtherMoveShape(s, t, c); PersistMoveShape(s, t, c); }
  }

  lemma MoveKeepsLockOk(s: State, tid: Tid, m: Move)
    requires UniqueOpen(s.store) && |s.file| > 0 && LockOk(s) && tid in s.threads && MoveShape(s, s.threads[tid], m)
    ensures LockOk(Install(s, tid, m))
  {
  }

  lemma MoveKeepsApplyingOk(s: State, tid: Tid, m: Move)
    requires UniqueOpen(s.store) && |s.file| > 0 && ApplyingOk(s) && tid in s.threads && MoveShape(s, s.threads[tid], m)
    ensures ApplyingOk(Install(s, tid, m))
  {
    var t := Install(s, tid, m);
    forall id | id in t.applying ensures exists u :: u in t.threads && InFlight(t.threads[u], id) {
      if InFlight(t.threads[tid], id) {
      } else {
        assert id in s.applying;
        var u :| u in s.threads && InFlight(s.threads[u], id);
        assert t.threads[u] == s.threads[u];
      }
    }
  }

  // ------------------------------------------------------------------ what a move does to the store

  /** A running apply's row is closed by nobody but a stale sweep. */
  predicate SparesApplying(s: State, op: Op) {
    op.DoClose? && op.verdict.status != Stale ==> op.id !in s.applying
  }

  ghost predicate OpOk(s: State, m: Move) {
    m.op.Some? ==> SafeOp(s.store, m.op.value) && SparesApplying(s, m.op.value)
  }

  lemma FileMoveOpOk(s: State, t: Thread, c: Choice)
    requires UniqueOpen(s.store) && |s.file| > 0 && ThreadOk(s, t)
    ensures MoveFile(s, t, c).Some? ==> OpOk(s, MoveFile(s, t, c).value)
  {
  }

  lemma AllowMoveOpOk(s: State, t: Thread, c: Choice)
    requires ThreadOk(s, t)
    ensures MoveAllow(s, t, c).Some? ==> OpOk(s, MoveAllow(s, t, c).value)
  {
  }

  lemma OtherMoveOpOk(s: State, t: Thread, c: Choice)
    requires |s.file| > 0 && ThreadOk(s, t)
    ensures MoveDeny(s, t, c).Some? ==> OpOk(s, MoveDeny(s, t, c).value)
    ensures MoveSweep(s, t, c).Some? ==> OpOk(s, MoveSweep(s, t, c).value)
    ensures MovePersist(s, t, c).Some? ==> OpOk(s, MovePersist(s, t, c).value)
  {
  }

  lemma EveryMoveOpOk(s: State, t: Thread, c: Choice)
    requires UniqueOpen(s.store) && |s.file| > 0 && ThreadOk(s, t)
    ensures MoveOf(s, t, c).Some? ==> OpOk(s, MoveOf(s, t, c).value)
  {
    if IsFile(t) { FileMoveOpOk(s, t, c); }
    else if IsAllow(t) { AllowMoveOpOk(s, t, c); }
    else { OtherMoveOpOk(s, t, c); }
  }

  /** What a transaction without the lock leaves alone: it adds no row, touches no apply status, and
      decides only rows its sweep picked, as stale. */
  ghost predicate Quiet(s: Store, t: Store, swept: set<Id>) {
    && t.rows.Keys == s.rows.Keys
    && forall id :: id in s.rows ==>
         && t.rows[id].applyStatus == s.rows[id].applyStatus && t.rows[id].filing == s.rows[id].filing
         && (t.rows[id].status == s.rows[id].status
            || (s.rows[id].status == Open && t.rows[id].status == Stale && id in swept))
  }

  lemma QuietOpIsQuiet(s: Store, t: Thread, op: Op)
    requires UniqueOpen(s) && QuietOp(t, op)
    ensures Quiet(s, Perform(s, op), Swept(t))
  {
  }

  lemma SpareKeepsOpenOrStale(s: Store, op: Op, id: Id)
    requires UniqueOpen(s) && OpenOrStale(s, id) && (op.DoClose? && op.verdict.status != Stale ==> op.id != id)
    ensures OpenOrStale(Perform(s, op), id)
  {
    PerformWrites(s, op);
  }

  // ------------------------------------------------------------------ the other threads

  /** A thread outside the lock keeps what it knows, whatever another thread does. */
  lemma UnlockedThreadStaysOk(s: State, tid: Tid, m: Move, u: Tid)
    requires Inv(s) && tid in s.threads && u in s.threads && u != tid && !HoldsLock(s.threads[u])
    requires MoveShape(s, s.threads[tid], m) && OpOk(s, m)
    ensures ThreadOk(Install(s, tid, m), s.threads[u])
  {
    var t := Install(s, tid, m);
    if m.op.Some? { PerformKeeps(s.store, m.op.value); }
    assert Extends(s.store, t.store);
    match s.threads[u] {
      case Applying(id, _, _) =>
        assert InFlight(s.threads[u], id);
        if m.op.Some? { SpareKeepsOpenOrStale(s.store, m.op.value, id); }
      case ApplyReturned(id, _, _, _) =>
        assert InFlight(s.threads[u], id);
        if m.op.Some? { SpareKeepsOpenOrStale(s.store, m.op.value, id); }
      case _ =>
    }
  }

  lemma QuietKeepsNoOpenRow(s: Store, t: Store, swept: set<Id>, key: AskKey)
    requires Quiet(s, t, swept) && NoOpenRow(s, key)
    ensures NoOpenRow(t, key)
  {
    forall id ensures !OpenFor(t, id, key) {
      assert !OpenFor(s, id, key);
    }
  }

  /** What a lock holder can rely on while another thread moves. */
  ghost predicate Undisturbed(s: State, t: State, swept: set<Id>) {
    && Quiet(s.store, t.store, swept) && Extends(s.store, t.store)
    && t.applying == s.applying && |s.file| <= |t.file|
    && (forall id :: Unpicked(s, id) ==> Unpicked(t, id) && id !in swept)
  }

  lemma UndisturbedStaysOk(s: State, t: State, swept: set<Id>, u: Thread)
    requires Undisturbed(s, t, swept) && HoldsLock(u) && ThreadOk(s, u)
    ensures ThreadOk(t, u)
  {
    match u {
      case FileMatch(f, rid, now, since) => QuietKeepsNoOpenRow(s.store, t.store, swept, KeyOf(f));
      case FileInsert(f, now, id) => QuietKeepsNoOpenRow(s.store, t.store, swept, KeyOf(f));
      case FileDenyOpen(f, now, id, e) => QuietKeepsNoOpenRow(s.store, t.store, swept, KeyOf(f));
      case _ =>
    }
  }

  /** A move never widens a sweep, and starts one only while the lock is free. */
  ghost predicate SweepShape(s: State, t: Thread, m: Move) {
    m.next.SweepClose? ==>
      (t.SweepClose? && m.next.todo <= t.todo) || (s.holder.None? && m.next.todo <= s.store.rows.Keys)
  }

  /** The lock holder keeps what it knows while another thread moves. */
  lemma HolderStaysOk(s: State, tid: Tid, m: Move, u: Tid)
    requires Inv(s) && tid in s.threads && u in s.threads && u != tid && HoldsLock(s.threads[u])
    requires MoveShape(s, s.threads[tid], m) && SweepShape(s, s.threads[tid], m)
    ensures ThreadOk(Install(s, tid, m), s.threads[u])
  {
    var t, swept := Install(s, tid, m), Swept(s.threads[tid]);
    assert s.holder == Some(u) && !HoldsLock(s.threads[tid]);
    if m.op.Some? {
      QuietOpIsQuiet(s.store, s.threads[tid], m.op.value);
      PerformKeeps(s.store, m.op.value);
    }
    UndisturbedStaysOk(s, t, swept, s.threads[u]);
  }

  lemma EverySweepShape(s: State, t: Thread, c: Choice)
    requires UniqueOpen(s.store) && |s.file| > 0
    ensures MoveOf(s, t, c).Some? ==> SweepShape(s, t, MoveOf(s, t, c).value)
  {
  }

  // ------------------------------------------------------------------ the moving thread

  /** A thread that moved without a transaction knows in the new state what it knew in the old. */
  lemma PlainMoveNextOk(s: State, tid: Tid, m: Move)
    requires UniqueOpen(s.store) && |s.file| > 0 && m.op.None? && m.apply.Unmoved?
    requires ThreadOk(s, m.next) && !m.next.FileDenyClose?
    ensures ThreadOk(Install(s, tid, m), m.next)
  {
  }

  lemma CoalesceNextOk(s: State, f: Filing, rid: Option<Id>, now: Time)
    requires UniqueOpen(s.store) && |s.file| > 0 && DecisionsOk(s.store)
    ensures var m := Coalesce(s, f, rid, now);
            m.Some? ==>
              ThreadOk(s, m.value.next) && m.value.op.None? && m.value.apply.Unmoved?
              && !m.value.next.FileDenyClose?
  {
    if rid.Some? && rid.value in s.store.rows {
      assert DecisionOk(s.store.rows[rid.value]);
    }
  }

  lemma ConsultedNextOk(s: State, t: Thread, c: Choice)
    requires t.FileMatch? && ThreadOk(s, t)
    requires forall key :: key in s.hits ==> DenylistDenial(s.store, s.hits[key].request, key)
    ensures var m := Consulted(s, t, c);
            m.Some? ==>
              ThreadOk(s, m.value.next) && m.value.op.None? && m.value.apply.Unmoved?
              && !m.value.next.FileDenyClose?
  {
  }

  /** No thread waits for, and no sweep has picked, a request that is not there. */
  lemma AbsentIsUntouched(s: State, id: Id)
    requires ApplyingOk(s) && (forall t :: t in s.threads ==> ThreadOk(s, s.threads[t])) && id !in s.store.rows
    ensures id !in s.applying && Unpicked(s, id)
  {
    forall t | t in s.threads && s.threads[t].SweepClose? ensures id !in s.threads[t].todo {
      assert ThreadOk(s, s.threads[t]);
    }
  }

  lemma InsertWrites(s: Store, id: Id, f: Filing, now: Time)
    requires UniqueOpen(s) && id !in s.rows && NoOpenRow(s, KeyOf(f))
    ensures var op := DoOpenOrHit(id, f, now);
            ErrorOf(s, op).None? && Target(s, op) == id && Perform(s, op) == InsertOpen(s, id, f, now)
  {
    assert FindOpen(s, KeyOf(f)).None?;
  }

  lemma DenyOpenNextOk(s: State, tid: Tid, c: Choice)
    requires Inv(s) && tid in s.threads && s.threads[tid].FileDenyOpen?
    ensures var m := MoveFile(s, s.threads[tid], c); m.Some? ==> ThreadOk(Install(s, tid, m.value), m.value.next)
  {
    var t := s.threads[tid];
    assert ThreadOk(s, t);
    AbsentIsUntouched(s, t.id);
    InsertWrites(s.store, t.id, t.filing, t.now);
  }

  lemma ExtendsKeepsAnswer(s: Store, t: Store, a: Answer)
    requires Extends(s, t) && AnswerOk(s, a)
    ensures AnswerOk(t, a)
  {
  }

  lemma FileHitNextOk(s: State, tid: Tid, c: Choice)
    requires UniqueOpen(s.store) && |s.file| > 0 && tid in s.threads && ThreadOk(s, s.threads[tid])
    requires s.threads[tid].FileHit?
    ensures var m := MoveFile(s, s.threads[tid], c); m.Some? ==> ThreadOk(Install(s, tid, m.value), m.value.next)
  {
    var t, m := s.threads[tid], MoveFile(s, s.threads[tid], c).value;
    PerformKeeps(s.store, m.op.value);
    ExtendsKeepsAnswer(s.store, Install(s, tid, m).store, RowAnswer(t.id, s.store.rows[t.id]));
  }

  lemma InsertNextOk(s: State, tid: Tid, c: Choice)
    requires UniqueOpen(s.store) && |s.file| > 0 && tid in s.threads && ThreadOk(s, s.threads[tid])
    requires s.threads[tid].FileInsert?
    ensures var m := MoveFile(s, s.threads[tid], c); m.Some? ==> ThreadOk(Install(s, tid, m.value), m.value.next)
  {
    var t := s.threads[tid];
    InsertWrites(s.store, t.id, t.filing, t.now);
  }

  lemma NotifyNextOk(s: State, tid: Tid, c: Choice)
    requires UniqueOpen(s.store) && |s.file| > 0 && tid in s.threads && ThreadOk(s, s.threads[tid])
    requires s.threads[tid].FileNotify?
    ensures var m := MoveFile(s, s.threads[tid], c); m.Some? ==> ThreadOk(Install(s, tid, m.value), m.value.next)
  {
    var t, m := s.threads[tid], MoveFile(s, s.threads[tid], c).value;
    PerformKeeps(s.store, m.op.value);
    ExtendsKeepsAnswer(s.store, Install(s, tid, m).store, t.answer);
  }

  lemma DeniedNextOk(s: State, tid: Tid, c: Choice)
    requires UniqueOpen(s.store) && |s.file| > 0 && tid in s.threads
    requires s.threads[tid].FileDenyClose? || s.threads[tid].FileSuppress?
    ensures var m := MoveFile(s, s.threads[tid], c); m.Some? ==> ThreadOk(Install(s, tid, m.value), m.value.next)
  {
  }

  lemma FileMoveNextOk(s: State, tid: Tid, c: Choice)
    requires Inv(s) && tid in s.threads && IsFile(s.threads[tid])
    ensures var m := MoveFile(s, s.threads[tid], c); m.Some? ==> ThreadOk(Install(s, tid, m.value), m.value.next)
  {
    var t := s.threads[tid];
    if MoveFile(s, t, c).Some? {
      if t.FileWait? {
        CoalesceNextOk(s, t.filing, t.requestId, t.now);
        PlainMoveNextOk(s, tid, MoveFile(s, t, c).value);
      } else if t.FileMatch? {
        ConsultedNextOk(s, t, c);
        PlainMoveNextOk(s, tid, MoveFile(s, t, c).value);
      } else if t.FileDenyOpen? {
        DenyOpenNextOk(s, tid, c);
      } else if t.FileHit? {
        FileHitNextOk(s, tid, c);
      } else if t.FileInsert? {
        InsertNextOk(s, tid, c);
      } else if t.FileNotify? {
        NotifyNextOk(s, tid, c);
      } else {
        DeniedNextOk(s, tid, c);
      }
    }
  }

  lemma AllowMoveNextOk(s: State, tid: Tid, c: Choice)
    requires UniqueOpen(s.store) && |s.file| > 0 && tid in s.threads && ThreadOk(s, s.threads[tid])
    ensures var m := MoveAllow(s, s.threads[tid], c); m.Some? ==> ThreadOk(Install(s, tid, m.value), m.value.next)
  {
    var t := s.threads[tid];
    if t.AllowMark? {
      var after := Perform(s.store, DoApply(t.id, Applied, c.now));
      assert after.events[|s.store.events|].kind == ApplySucceeded;
    }
  }

  lemma DenyMoveNextOk(s: State, tid: Tid, c: Choice)
    requires UniqueOpen(s.store) && |s.file| > 0 && tid in s.threads
    ensures var m := MoveDeny(s, s.threads[tid], c); m.Some? ==> ThreadOk(Install(s, tid, m.value), m.value.next)
  {
  }

  /** The places where a thread needs to know nothing. */
  predicate KnowsNothing(t: Thread) {
    t.PersistMark? || t.PersistSweep? || t.TriggerMark? || t.PersistRefused? || (t.Done? && t.answer.StoreRaised?)
  }

  lemma PersistNext(s: State, t: Thread, c: Choice)
    requires |s.file| > 0
    ensures var m := MovePersist(s, t, c);
            m.Some? ==> if m.value.op.Some? then KnowsNothing(m.value.next)
                        else ThreadOk(s, m.value.next) && m.value.apply.Unmoved? && !m.value.next.FileDenyClose?
  {
  }

  lemma PersistMoveNextOk(s: State, tid: Tid, c: Choice)
    requires UniqueOpen(s.store) && |s.file| > 0 && tid in s.threads
    ensures var m := MovePersist(s, s.threads[tid], c); m.Some? ==> ThreadOk(Install(s, tid, m.value), m.value.next)
  {
    PersistNext(s, s.threads[tid], c);
    var m := MovePersist(s, s.threads[tid], c);
    if m.Some? && m.value.op.None? { PlainMoveNextOk(s, tid, m.value); }
  }

  lemma SweepMoveNextOk(s: State, tid: Tid, c: Choice)
    requires UniqueOpen(s.store) && |s.file| > 0 && tid in s.threads && ThreadOk(s, s.threads[tid])
    ensures var m := MoveSweep(s, s.threads[tid], c); m.Some? ==> ThreadOk(Install(s, tid, m.value), m.value.next)
  {
    var m := MoveSweep(s, s.threads[tid], c);
    if m.Some? && m.value.op.Some? { PerformKeeps(s.store, m.value.op.value); }
  }

  lemma EveryMoveNextOk(s: State, tid: Tid, c: Choice)
    requires Inv(s) && tid in s.threads
    ensures var m := MoveOf(s, s.threads[tid], c); m.Some? ==> ThreadOk(Install(s, tid, m.value), m.value.next)
  {
    var t := s.threads[tid];
    assert ThreadOk(s, t);
    if IsFile(t) { FileMoveNextOk(s, tid, c); }
    else if IsAllow(t) { AllowMoveNextOk(s, tid, c); }
    else if t.DenyWait? || t.DenyClose? { DenyMoveNextOk(s, tid, c); }
    else if t.SweepPick? || t.SweepClose? { SweepMoveNextOk(s, tid, c); }
    else { PersistMoveNextOk(s, tid, c); }
  }

  // ------------------------------------------------------------------ the coalesce window

  /** A window gains a record only when its thread goes on to write the row the record names. */
  ghost predicate WindowShape(s: State, t: Thread, m: Move)
    requires UniqueOpen(s.store)
  {
    && (m.window.Some? ==>
          forall key :: key in m.window.value ==>
            || (key in s.hits && m.window.value[key].request == s.hits[key].request)
            || (m.next.FileDenyOpen? && WritesDenial(m.next, m.window.value[key].request, key)))
    && (forall id, key :: WritesDenial(t, id, key) && m.op.Some? ==>
          || WritesDenial(m.next, id, key)
          || DenylistDenial(Perform(s.store, m.op.value), id, key))
    && (m.op.None? ==> !t.FileDenyOpen? && !t.FileDenyClose?)
  }

  lemma FileWindowShape(s: State, t: Thread, c: Choice)
    requires UniqueOpen(s.store) && |s.file| > 0 && ThreadOk(s, t)
    ensures MoveFile(s, t, c).Some? ==> WindowShape(s, t, MoveFile(s, t, c).value)
  {
  }

  lemma EveryWindowShape(s: State, t: Thread, c: Choice)
    requires UniqueOpen(s.store) && |s.file| > 0 && ThreadOk(s, t)
    ensures MoveOf(s, t, c).Some? ==> WindowShape(s, t, MoveOf(s, t, c).value)
  {
    if IsFile(t) { FileWindowShape(s, t, c); }
  }

  lemma MoveKeepsHitsOk(s: State, tid: Tid, m: Move)
    requires Inv(s) && tid in s.threads && MoveShape(s, s.threads[tid], m)
    requires WindowShape(s, s.threads[tid], m)
    ensures HitsOk(Install(s, tid, m))
  {
    var t := Install(s, tid, m);
    if m.op.Some? { PerformKeeps(s.store, m.op.value); }
    assert Extends(s.store, t.store);
    forall key | key in t.hits
      ensures DenylistDenial(t.store, t.hits[key].request, key)
           || (t.holder.Some? && t.holder.value in t.threads
              && WritesDenial(t.threads[t.holder.value], t.hits[key].request, key))
    {
      var id := t.hits[key].request;
      if key in s.hits && s.hits[key].request == id {
        if DenylistDenial(s.store, id, key) {
        } else {
          var u := s.holder.value;
          assert WritesDenial(s.threads[u], id, key);
        }
      } else {
        assert WritesDenial(m.next, id, key);
      }
    }
  }

  // ------------------------------------------------------------------ every step, every schedule

  /** Every thread knows after the move what it has to know. */
  lemma MoveKeepsThreadsOk(s: State, tid: Tid, m: Move)
    requires Inv(s) && tid in s.threads && ThreadOk(Install(s, tid, m), m.next)
    requires MoveShape(s, s.threads[tid], m) && OpOk(s, m) && SweepShape(s, s.threads[tid], m)
    ensures forall u :: u in Install(s, tid, m).threads ==> ThreadOk(Install(s, tid, m), Install(s, tid, m).threads[u])
  {
    var t := Install(s, tid, m);
    forall u | u in t.threads ensures ThreadOk(t, t.threads[u]) {
      if u != tid {
        if HoldsLock(s.threads[u]) { HolderStaysOk(s, tid, m, u); } else { UnlockedThreadStaysOk(s, tid, m, u); }
      }
    }
  }

  lemma MoveKeepsInv(s: State, tid: Tid, c: Choice)
    requires Inv(s) && tid in s.threads && MoveOf(s, s.threads[tid], c).Some?
    ensures Inv(Install(s, tid, MoveOf(s, s.threads[tid], c).value))
  {
    var w, m := s.threads[tid], MoveOf(s, s.threads[tid], c).value;
    assert ThreadOk(s, w);
    EveryMoveShape(s, w, c);
    EveryMoveOpOk(s, w, c);
    EverySweepShape(s, w, c);
    EveryWindowShape(s, w, c);
    EveryMoveNextOk(s, tid, c);
    MoveKeepsLockOk(s, tid, m);
    MoveKeepsApplyingOk(s, tid, m);
    MoveKeepsHitsOk(s, tid, m);
    MoveKeepsThreadsOk(s, tid, m);
    if m.op.Some? { SafeOpKeepsStoreOk(s.store, m.op.value); }
  }

  lemma StartKeepsApplyingOk(s: State, tid: Tid, t: Thread)
    requires ApplyingOk(s) && (tid in s.threads ==> Finished(s.threads[tid]))
    requires forall id :: !InFlight(t, id)
    ensures ApplyingOk(s.(threads := s.threads[tid := t]))
  {
    var after := s.(threads := s.threads[tid := t]);
    forall id | id in after.applying ensures exists u :: u in after.threads && InFlight(after.threads[u], id) {
      var u :| u in s.threads && InFlight(s.threads[u], id);
      assert after.threads[u] == s.threads[u];
    }
  }

  /** What a thread knows does not depend on finished threads or on one that has only begun. */
  lemma StartKeepsThreadOk(s: State, tid: Tid, t: Thread, u: Thread)
    requires ThreadOk(s, u) && !t.SweepClose?
    ensures ThreadOk(s.(threads := s.threads[tid := t]), u)
  {
  }

  lemma StartKeepsLockAndHits(s: State, tid: Tid, t: Thread)
    requires LockOk(s) && HitsOk(s) && (tid in s.threads ==> Finished(s.threads[tid])) && !HoldsLock(t)
    ensures LockOk(s.(threads := s.threads[tid := t])) && HitsOk(s.(threads := s.threads[tid := t]))
  {
    assert s.holder != Some(tid);
  }

  lemma StartKeepsInv(s: State, tid: Tid, command: Command)
    requires Inv(s)
    ensures Inv(Act(s, Start(tid, command)))
  {
    var t := Begin(command);
    var after := s.(threads := s.threads[tid := t]);
    if tid !in s.threads || Finished(s.threads[tid]) {
      StartKeepsApplyingOk(s, tid, t);
      StartKeepsLockAndHits(s, tid, t);
      forall u | u in after.threads ensures ThreadOk(after, after.threads[u]) {
        if u != tid { StartKeepsThreadOk(s, tid, t, s.threads[u]); }
      }
      assert Act(s, Start(tid, command)) == after;
    }
  }

  lemma ReplaceKeepsInv(s: State, entries: seq<Entry>)
    requires Inv(s)
    ensures Inv(Act(s, Replace(entries)))
  {
    var t := Act(s, Replace(entries));
    forall u | u in t.threads ensures ThreadOk(t, t.threads[u]) {
      assert ThreadOk(s, s.threads[u]);
    }
  }

  /** No action of any thread, nor an edit of the denylist file, breaks the invariant. */
  lemma ActKeepsInv(s: State, a: Action)
    requires Inv(s)
    ensures Inv(Act(s, a))
  {
    match a
    case Start(tid, command) => StartKeepsInv(s, tid, command);
    case Replace(entries) => ReplaceKeepsInv(s, entries);
    case Step(tid, c) =>
      if tid in s.threads && MoveOf(s, s.threads[tid], c).Some? { MoveKeepsInv(s, tid, c); }
  }

  /** The state a schedule leads to. */
  ghost function Exec(s: State, schedule: seq<Action>): (t: State)
    requires Inv(s)
    ensures Inv(t)
  {
    if schedule == [] then s
    else
      var before := Exec(s, schedule[..|schedule| - 1]);
      ActKeepsInv(before, schedule[|schedule| - 1]);
      Act(before, schedule[|schedule| - 1])
  }

  /** The broker just started, with the database and the denylist file it finds. */
  ghost function Boot(store: Store, entries: seq<Entry>): (s: State)
    requires StoreOk(store)
    ensures Inv(s)
  {
    State(store, [entries], map[], {}, None, map[])
  }

  /** The first start: an empty database keeps every promise of a database. */
  lemma EmptyStoreOk()
    ensures StoreOk(EMPTY_STORE)
  {
    assert Logged(EMPTY_STORE, map[]);
  }
}
