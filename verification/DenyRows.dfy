/**
 The coalesce window and the table of requests: every row the denylist denied was opened by a call the window
 logged, so no two of one container and zone are opened within one window (src/egress_broker_host.py).
 */
module DenyRows {
  import opened Wrappers
  import opened RequestStore
  import opened DenyZones
  import opened HitWindow
  import opened Protocol
  import opened ProtocolInvariant
  import opened ProtocolSafety
  import opened DenyWindow
  import W = HitWindow

  /** The row was denied by the denylist itself: it names the zone, and no decision scope, which every
      operator's does. */
  predicate DeniedByList(row: Row) {
    row.status == Denied && row.scope.None? && row.denylistZone.Some?
  }

  function RowKey(row: Row): HitKey
    requires DeniedByList(row)
  {
    HitKey(row.filing.container, row.denylistZone.value)
  }

  /** The k-th call was logged, for this key, at this time and for this row. */
  predicate LoggedAt(calls: seq<Call>, k: nat, key: HitKey, now: Time, id: Id) {
    k < |calls| && calls[k] == Call(key, now, id) && AnswerAt(calls, k).logged
  }

  ghost predicate LoggedCall(calls: seq<Call>, key: HitKey, now: Time, id: Id) {
    exists k: nat :: LoggedAt(calls, k, key, now, id)
  }

  lemma LoggedLater(calls: seq<Call>, more: seq<Call>, key: HitKey, now: Time, id: Id)
    requires LoggedCall(calls, key, now, id)
    ensures LoggedCall(calls + more, key, now, id)
  {
    var k: nat :| LoggedAt(calls, k, key, now, id);
    assert (calls + more)[..k] == calls[..k];
    assert LoggedAt(calls + more, k, key, now, id);
  }

  lemma LoggedNow(calls: seq<Call>, call: Call)
    requires W.Answer(WindowAfter(calls), call).logged
    ensures LoggedCall(calls + [call], call.key, call.now, call.request)
  {
    assert (calls + [call])[..|calls|] == calls;
    assert LoggedAt(calls + [call], |calls|, call.key, call.now, call.request);
  }

  // ------------------------------------------------------------------ what is kept

  ghost predicate RowLogged(store: Store, calls: seq<Call>, id: Id) {
    id in store.rows && DeniedByList(store.rows[id]) ==>
          LoggedCall(calls, RowKey(store.rows[id]), store.rows[id].openedAt, id)
  }

  /** What is so of a thread on its way to deny a filing; an operator's denial has a decision scope. */
  ghost predicate ThreadLogged(store: Store, calls: seq<Call>, t: Thread) {
    match t
    case FileDenyOpen(f, now, id, e) => LoggedCall(calls, HitKey(f.container, e.zone), now, id)
    case FileDenyClose(f, id, e) =>
      id in store.rows && store.rows[id].filing == f
          && LoggedCall(calls, HitKey(f.container, e.zone), store.rows[id].openedAt, id)
    case DenyClose(_, v) => v.scope.Some?
    case _ => true
  }

  /** Every denied row that was not there at the start, and every denial under way, has its logged call. */
  ghost predicate AllLogged(s: State, calls: seq<Call>, found: set<Id>) {
    && (forall id :: id !in found ==> RowLogged(s.store, calls, id))
    && (forall t :: t in s.threads ==> ThreadLogged(s.store, calls, s.threads[t]))
  }

  // ------------------------------------------------------------------ one transaction

  predicate SameDenial(a: Row, b: Row) {
    a.filing == b.filing && a.openedAt == b.openedAt && a.denylistZone == b.denylistZone && a.status == b.status
        && a.scope == b.scope
  }

  /** A row becomes one the denylist denied only by a close that says so. */
  lemma OpDenies(s: Store, op: Op, id: Id)
    requires UniqueOpen(s) && id in Perform(s, op).rows && DeniedByList(Perform(s, op).rows[id])
    ensures id in s.rows
    ensures var row := Perform(s, op).rows[id];
      || SameDenial(s.rows[id], row)
      || (op.DoClose? && op.id == id && row == Decide(s.rows[id], op.verdict, op.now)
          && op.verdict.status == Denied && op.verdict.scope.None?)
  {
  }

  lemma OnlyDenyCloseDenies(s: State, t: Thread, c: Choice)
    requires UniqueOpen(s.store) && |s.file| > 0 && (t.DenyClose? ==> t.verdict.scope.Some?)
    ensures var m := MoveOf(s, t, c);
      m.Some? && m.value.op.Some? && m.value.op.value.DoClose? && m.value.op.value.verdict.status == Denied
      && m.value.op.value.verdict.scope.None? ==>
        t.FileDenyClose? && m.value.op.value.id == t.id && m.value.op.value.verdict == DenylistVerdict(t.entry)
  {
  }

  lemma MoveKeepsRow(s: State, t: Thread, c: Choice, calls: seq<Call>, id: Id)
    requires UniqueOpen(s.store) && |s.file| > 0 && ThreadLogged(s.store, calls, t) && RowLogged(s.store, calls, id)
    requires MoveOf(s, t, c).Some? && MoveOf(s, t, c).value.op.Some?
    ensures RowLogged(Perform(s.store, MoveOf(s, t, c).value.op.value), calls, id)
  {
    var op := MoveOf(s, t, c).value.op.value;
    var after := Perform(s.store, op);
    if id in after.rows && DeniedByList(after.rows[id]) {
      OpDenies(s.store, op, id);
      OnlyDenyCloseDenies(s, t, c);
    }
  }

  // ------------------------------------------------------------------ one step

  lemma RowStaysLogged(store: Store, calls: seq<Call>, more: seq<Call>, id: Id)
    requires RowLogged(store, calls, id)
    ensures RowLogged(store, calls + more, id)
  {
    if id in store.rows && DeniedByList(store.rows[id]) {
      LoggedLater(calls, more, RowKey(store.rows[id]), store.rows[id].openedAt, id);
    }
  }

  lemma ThreadStaysLogged(s: Store, u: Store, calls: seq<Call>, more: seq<Call>, t: Thread)
    requires ThreadLogged(s, calls, t) && Extends(s, u)
    ensures ThreadLogged(u, calls + more, t)
  {
    match t
    case FileDenyOpen(f, now, id, e) => LoggedLater(calls, more, HitKey(f.container, e.zone), now, id);
    case FileDenyClose(f, id, e) => LoggedLater(calls, more, HitKey(f.container, e.zone), s.rows[id].openedAt, id);
    case _ =>
  }

  /** How a thread comes to deny: by a logged consultation, which opens the row and closes it. */
  lemma WaysToDeny(s: State, t: Thread, c: Choice)
    requires UniqueOpen(s.store) && |s.file| > 0 && MoveOf(s, t, c).Some?
    ensures var m := MoveOf(s, t, c).value;
      && (m.next.FileDenyOpen? ==> t.FileMatch? && MoveOf(s, t, c) == Consulted(s, t, c))
      && (m.next.FileDenyClose? ==> t.FileDenyOpen? && m.op == Some(DoOpenOrHit(t.id, t.filing, t.now))
                                    && m.next == FileDenyClose(t.filing, t.id, t.entry))
      && (m.next.DenyClose? ==> m.next.verdict.scope.Some?)
  {
  }

  lemma OpenedForDenial(s: State, t: Thread, calls: seq<Call>)
    requires UniqueOpen(s.store) && |s.file| > 0 && t.FileDenyOpen? && ThreadOk(s, t) && ThreadLogged(s.store, calls, t)
    ensures ThreadLogged(Perform(s.store, DoOpenOrHit(t.id, t.filing, t.now)), calls,
      FileDenyClose(t.filing, t.id, t.entry))
  {
    InsertWrites(s.store, t.id, t.filing, t.now);
  }

  lemma ConsultationIsLogged(s: State, t: Thread, c: Choice, calls: seq<Call>)
    requires t.FileMatch? && Consulted(s, t, c).Some? && Consulted(s, t, c).value.next.FileDenyOpen?
    requires s.hits == WindowAfter(calls)
    ensures CallOf(s, t, c).Some?
    ensures ThreadLogged(s.store, calls + [CallOf(s, t, c).value], Consulted(s, t, c).value.next)
  {
    ConsultationIsACall(s, t, c);
    LoggedNow(calls, CallOf(s, t, c).value);
  }

  /** The thread that moves knows of the denial it is in. */
  lemma NextIsLogged(s: State, tid: Tid, c: Choice, calls: seq<Call>)
    requires Inv(s) && tid in s.threads && MoveOf(s, s.threads[tid], c).Some?
    requires ThreadLogged(s.store, calls, s.threads[tid]) && s.hits == WindowAfter(calls)
    ensures var m := MoveOf(s, s.threads[tid], c).value;
      ThreadLogged(Install(s, tid, m).store, calls + Listed(CallAt(s, Step(tid, c))), m.next)
  {
    var t, m := s.threads[tid], MoveOf(s, s.threads[tid], c).value;
    assert ThreadOk(s, t);
    WaysToDeny(s, t, c);
    if m.next.FileDenyOpen? {
      ConsultationIsLogged(s, t, c, calls);
    } else if m.next.FileDenyClose? {
      OpenedForDenial(s, t, calls);
      assert calls + [] == calls;
    }
  }

  lemma StepKeepsLogged(s: State, tid: Tid, c: Choice, calls: seq<Call>, found: set<Id>)
    requires Inv(s) && tid in s.threads && MoveOf(s, s.threads[tid], c).Some?
    requires AllLogged(s, calls, found) && s.hits == WindowAfter(calls)
    ensures AllLogged(Act(s, Step(tid, c)), calls + Listed(CallAt(s, Step(tid, c))), found)
  {
    var m, more := MoveOf(s, s.threads[tid], c).value, Listed(CallAt(s, Step(tid, c)));
    var u := Install(s, tid, m);
    ActExtends(s, Step(tid, c));
    forall id | id !in found ensures RowLogged(u.store, calls + more, id) {
      if m.op.Some? { MoveKeepsRow(s, s.threads[tid], c, calls, id); }
      RowStaysLogged(u.store, calls, more, id);
    }
    forall t | t in u.threads ensures ThreadLogged(u.store, calls + more, u.threads[t]) {
      if t == tid {
        NextIsLogged(s, tid, c, calls);
      } else {
        ThreadStaysLogged(s.store, u.store, calls, more, s.threads[t]);
      }
    }
  }

  lemma BeginsLogged(store: Store, calls: seq<Call>, command: Command)
    ensures ThreadLogged(store, calls, Begin(command))
  {
  }

  lemma ActKeepsLogged(s: State, a: Action, calls: seq<Call>, found: set<Id>)
    requires Inv(s) && AllLogged(s, calls, found) && s.hits == WindowAfter(calls)
    ensures AllLogged(Act(s, a), calls + Listed(CallAt(s, a)), found)
  {
    if a.Step? && a.tid in s.threads && MoveOf(s, s.threads[a.tid], a.choice).Some? {
      StepKeepsLogged(s, a.tid, a.choice, calls, found);
    } else {
      StandsStill(s, a, calls, found);
    }
  }

  lemma StandsStill(s: State, a: Action, calls: seq<Call>, found: set<Id>)
    requires Inv(s) && AllLogged(s, calls, found)
    requires a.Step? && a.tid in s.threads ==> MoveOf(s, s.threads[a.tid], a.choice).None?
    ensures AllLogged(Act(s, a), calls + Listed(CallAt(s, a)), found)
  {
    var u := Act(s, a);
    assert CallAt(s, a).None? && calls + [] == calls;
    if a.Start? { BeginsLogged(s.store, calls, a.command); }
    forall t | t in u.threads ensures ThreadLogged(u.store, calls, u.threads[t]) {
      if t in s.threads && u.threads[t] == s.threads[t] { assert ThreadLogged(s.store, calls, s.threads[t]); }
    }
  }

  lemma {:induction false} RunKeepsLogged(s: State, schedule: seq<Action>, found: set<Id>)
    requires Inv(s) && s.hits == map[] && AllLogged(s, [], found)
    ensures AllLogged(Exec(s, schedule), Calls(s, schedule), found)
  {
    if schedule != [] {
      var init, last := schedule[..|schedule| - 1], schedule[|schedule| - 1];
      RunKeepsLogged(s, init, found);
      TheWindowIsItsCalls(s, init);
      ActKeepsLogged(Exec(s, init), last, Calls(s, init), found);
    }
  }

  // ------------------------------------------------------------------ rows

  lemma LoggedApart(calls: seq<Call>, key: HitKey, i: nat, a: Id, j: nat, b: Id, first: Time, second: Time)
    requires ClockNeverBack(calls) && LoggedAt(calls, i, key, first, a) && LoggedAt(calls, j, key, second, b) && a != b
    ensures second - first >= SUPPRESS_SECONDS || first - second >= SUPPRESS_SECONDS
  {
    if i < j { LogsAreAWindowApart(calls, i, j); } else { LogsAreAWindowApart(calls, j, i); }
  }

  /** In every interleaving in which the clock the filings read never runs back, any two rows of the run that the
      denylist denied for one container and zone were opened at least a window apart. */
  lemma DeniedRowsAreAWindowApart(store: Store, entries: seq<Entry>, schedule: seq<Action>, a: Id, b: Id)
    requires StoreOk(store) && a != b && a !in store.rows && b !in store.rows
    requires ClockNeverBack(Calls(Boot(store, entries), schedule))
    requires var t := Exec(Boot(store, entries), schedule).store;
      && a in t.rows && DeniedByList(t.rows[a]) && b in t.rows && DeniedByList(t.rows[b])
         && RowKey(t.rows[a]) == RowKey(t.rows[b])
    ensures var t := Exec(Boot(store, entries), schedule).store;
      || t.rows[b].openedAt - t.rows[a].openedAt >= SUPPRESS_SECONDS
      || t.rows[a].openedAt - t.rows[b].openedAt >= SUPPRESS_SECONDS
  {
    var s := Boot(store, entries);
    RunKeepsLogged(s, schedule, store.rows.Keys);
    RowsApart(Exec(s, schedule).store, Calls(s, schedule), a, b);
  }

  lemma RowsApart(t: Store, calls: seq<Call>, a: Id, b: Id)
    requires ClockNeverBack(calls) && a != b && RowLogged(t, calls, a) && RowLogged(t, calls, b)
    requires a in t.rows && DeniedByList(t.rows[a]) && b in t.rows && DeniedByList(t.rows[b])
    requires RowKey(t.rows[a]) == RowKey(t.rows[b])
    ensures t.rows[b].openedAt - t.rows[a].openedAt >= SUPPRESS_SECONDS
      || t.rows[a].openedAt - t.rows[b].openedAt >= SUPPRESS_SECONDS
  {
    var i: nat :| LoggedAt(calls, i, RowKey(t.rows[a]), t.rows[a].openedAt, a);
    var j: nat :| LoggedAt(calls, j, RowKey(t.rows[b]), t.rows[b].openedAt, b);
    LoggedApart(calls, RowKey(t.rows[a]), i, a, j, b, t.rows[a].openedAt, t.rows[b].openedAt);
  }
}
