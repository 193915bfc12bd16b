/**
 The request store: a table of request rows and an append-only event log, changed
 together by one transaction per call (src/egress_store.py).

 The functions say what each transaction does to the pair; the object whose methods
 perform them is `EgressStore` (StoreObject.dfy).  The lemmas prove that the log alone
 recovers every row, that a decided row is frozen, and that an ask has at most one
 open row.
 */
module RequestStore {
  import opened Wrappers

  type Id = string
  type Time = int  // seconds: every timestamp is truncated to second resolution

  datatype Status = Open | Allowed | Denied | Stale

  datatype ApplyOutcome = Applied | ApplyFailed | IpRequiresCidr

  datatype PersistOutcome = Persisted | PersistFailed

  /** The per-request body a polling bottle parses. */
  datatype Body =
    | AllowBody(allowScope: string)
    | DenyBody(reason: Option<string>, zone: Option<string>, scope: Option<string>)

  /** What a bottle asks for: the fields of its `requested` event. */
  datatype Filing = Filing(container: string, host: string, port: int, hostIsIp: bool,
                           uid: Option<int>, comm: Option<string>, reason: Option<string>, holdSeconds: Option<int>)

  /** The ask two filings share when they coalesce. */
  datatype AskKey = AskKey(container: string, host: string, port: int)

  function KeyOf(f: Filing): AskKey {
    AskKey(f.container, f.host, f.port)
  }

  datatype LastError = LastError(outcome: ApplyOutcome, attempt: nat, at: Time)

  datatype Row = Row(
    filing: Filing,
    openedAt: Time, lastHitAt: Time, hitCount: nat,
    status: Status, scope: Option<string>,
    decidedAt: Option<Time>, decidedBy: Option<string>, denyReason: Option<string>,
    applyStatus: Option<ApplyOutcome>, applyAttempts: nat, lastError: Option<LastError>,
    persistStatus: Option<PersistOutcome>,
    denylistZone: Option<string>, denylistScope: Option<string>,
    decisionBody: Option<Body>)

  /** A terminal decision, as `close` receives it. */
  datatype Verdict = Verdict(status: Status, decider: string, scope: Option<string>, reason: Option<string>,
                             zone: Option<string>, zoneScope: Option<string>, body: Body)

  datatype EventKind =
    | Requested(filing: Filing)
    | Hit(count: nat)
    | Notified
    | Closed(status: Status, scope: Option<string>, reason: Option<string>, decider: string, zone: Option<string>)
    | ApplySucceeded
    | ApplyError(outcome: ApplyOutcome, attempt: nat)
    | PersistLogged(result: PersistOutcome)

  /** One row of the log; its id is its position. */
  datatype Event = Event(request: Id, kind: EventKind, ts: Time)

  datatype Store = Store(rows: map<Id, Row>, events: seq<Event>)

  datatype StoreError = UnknownRequest | NoRequest | AlreadyDecided | NotADenylistDenial | InvalidStatus

  const EMPTY_STORE := Store(map[], [])

  // ------------------------------------------------------------------ transactions

  predicate IsOpen(s: Store, id: Id) {
    id in s.rows && s.rows[id].status == Open
  }

  predicate OpenFor(s: Store, id: Id, key: AskKey) {
    IsOpen(s, id) && KeyOf(s.rows[id].filing) == key
  }

  /** No ask has two open rows. */
  ghost predicate UniqueOpen(s: Store) {
    forall a, b :: IsOpen(s, a) && IsOpen(s, b) && KeyOf(s.rows[a].filing) == KeyOf(s.rows[b].filing) ==> a == b
  }

  /** The open row for an ask, if there is one. */
  function FindOpen(s: Store, key: AskKey): (r: Option<Id>)
    requires UniqueOpen(s)
    ensures r.Some? ==> OpenFor(s, r.value, key)
    ensures r.None? ==> forall id :: !OpenFor(s, id, key)
  {
    var open := set id | id in s.rows && OpenFor(s, id, key);
    if open == {} then
      assert forall id :: OpenFor(s, id, key) ==> id in open;
      None
    else
      var id :| id in open;
      Some(id)
  }

  function FreshRow(f: Filing, now: Time): Row {
    Row(f, now, now, 1, Open, None, None, None, None, None, 0, None, None, None, None, None)
  }

  function Log(s: Store, id: Id, row: Row, kind: EventKind, now: Time): Store {
    Store(s.rows[id := row], s.events + [Event(id, kind, now)])
  }

  function ApplyHit(s: Store, id: Id, now: Time): Store
    requires id in s.rows
  {
    var row := s.rows[id];
    Log(s, id, row.(hitCount := row.hitCount + 1, lastHitAt := now), Hit(1), now)
  }

  function InsertOpen(s: Store, id: Id, f: Filing, now: Time): Store {
    Log(s, id, FreshRow(f, now), Requested(f), now)
  }

  datatype Filed = Filed(store: Store, id: Id, isNew: bool)

  function FilingError(s: Store, id: Id, f: Filing): Option<StoreError> {
    if id !in s.rows then None
    else if KeyOf(s.rows[id].filing) != KeyOf(f) then Some(UnknownRequest)
    else if s.rows[id].status != Open then Some(AlreadyDecided)
    else None
  }

  /** Files a request, or counts a hit on the named row or on the open row of the same ask. */
  function OpenOrHit(s: Store, id: Id, f: Filing, now: Time): Result<Filed, StoreError>
    requires UniqueOpen(s)
  {
    if FilingError(s, id, f).Some? then Err(FilingError(s, id, f).value)
    else if id in s.rows then Ok(Filed(ApplyHit(s, id, now), id, false))
    else
      match FindOpen(s, KeyOf(f))
      case Some(other) => Ok(Filed(ApplyHit(s, other, now), other, false))
      case None => Ok(Filed(InsertOpen(s, id, f, now), id, true))
  }

  function SuppressedError(s: Store, id: Id): Option<StoreError> {
    if id !in s.rows then Some(NoRequest)
    else if s.rows[id].status != Denied || s.rows[id].decidedBy != Some("denylist") then Some(NotADenylistDenial)
    else None
  }

  /** Counts a suppressed repeat; the one transaction that logs no event. */
  function SuppressedHit(s: Store, id: Id, now: Time): Result<Store, StoreError> {
    if SuppressedError(s, id).Some? then Err(SuppressedError(s, id).value)
    else
      var row := s.rows[id];
      Ok(Store(s.rows[id := row.(hitCount := row.hitCount + 1, lastHitAt := now)], s.events))
  }

  function MarkNotified(s: Store, id: Id, now: Time): Result<Store, StoreError> {
    if id !in s.rows then Err(NoRequest) else Ok(Log(s, id, s.rows[id], Notified, now))
  }

  function Decide(row: Row, v: Verdict, now: Time): Row {
    row.(status := v.status, decidedAt := Some(now), decidedBy := Some(v.decider), scope := v.scope,
         denyReason := v.reason, denylistZone := v.zone, denylistScope := v.zoneScope,
         decisionBody := Some(v.body), lastError := None)
  }

  function CloseError(s: Store, id: Id, v: Verdict): Option<StoreError> {
    if v.status == Open then Some(InvalidStatus)
    else if id !in s.rows then Some(NoRequest)
    else if s.rows[id].status != Open then Some(AlreadyDecided)
    else None
  }

  function Close(s: Store, id: Id, v: Verdict, now: Time): Result<Store, StoreError> {
    if CloseError(s, id, v).Some? then Err(CloseError(s, id, v).value)
    else Ok(Log(s, id, Decide(s.rows[id], v, now), Closed(v.status, v.scope, v.reason, v.decider, v.zone), now))
  }

  function MarkApply(s: Store, id: Id, outcome: ApplyOutcome, now: Time): Result<Store, StoreError> {
    if id !in s.rows then Err(NoRequest)
    else
      var row := s.rows[id];
      var attempt := row.applyAttempts + 1;
      if outcome == Applied then
        Ok(Log(s, id, row.(applyStatus := Some(Applied), applyAttempts := attempt, lastError := None),
            ApplySucceeded, now))
      else
        Ok(Log(s, id, row.(applyStatus := Some(outcome), applyAttempts := attempt,
                           lastError := Some(LastError(outcome, attempt, now))),
               ApplyError(outcome, attempt), now))
  }

  function MarkPersist(s: Store, id: Id, outcome: PersistOutcome, now: Time): Result<Store, StoreError> {
    if id !in s.rows then Err(NoRequest)
    else Ok(Log(s, id, s.rows[id].(persistStatus := Some(outcome)), PersistLogged(outcome), now))
  }

  // ------------------------------------------------------------------ runs of transactions

  datatype Op =
    | DoOpenOrHit(id: Id, filing: Filing, now: Time)
    | DoSuppressedHit(id: Id, now: Time)
    | DoNotified(id: Id, now: Time)
    | DoClose(id: Id, verdict: Verdict, now: Time)
    | DoApply(id: Id, outcome: ApplyOutcome, now: Time)
    | DoPersist(id: Id, result: PersistOutcome, now: Time)

  function OrElse(r: Result<Store, StoreError>, s: Store): Store {
    match r case Ok(t) => t case Err(_) => s
  }

  /** The store after a call, which is the old one when the call raises. */
  function Perform(s: Store, op: Op): Store
    requires UniqueOpen(s)
  {
    match op
    case DoOpenOrHit(id, f, now) => (match OpenOrHit(s, id, f, now) case Ok(filed) => filed.store case Err(_) => s)
    case DoSuppressedHit(id, now) => OrElse(SuppressedHit(s, id, now), s)
    case DoNotified(id, now) => OrElse(MarkNotified(s, id, now), s)
    case DoClose(id, v, now) => OrElse(Close(s, id, v, now), s)
    case DoApply(id, outcome, now) => OrElse(MarkApply(s, id, outcome, now), s)
    case DoPersist(id, result, now) => OrElse(MarkPersist(s, id, result, now), s)
  }

  /** Why a call would raise. */
  function ErrorOf(s: Store, op: Op): Option<StoreError> {
    match op
    case DoOpenOrHit(id, f, _) => FilingError(s, id, f)
    case DoSuppressedHit(id, _) => SuppressedError(s, id)
    case DoClose(id, v, _) => CloseError(s, id, v)
    case DoNotified(id, _) => if id in s.rows then None else Some(NoRequest)
    case DoApply(id, _, _) => if id in s.rows then None else Some(NoRequest)
    case DoPersist(id, _, _) => if id in s.rows then None else Some(NoRequest)
  }

  // ------------------------------------------------------------------ what one call changes

  predicate SameDecision(a: Row, b: Row) {
    && a.status == b.status && a.scope == b.scope && a.decidedAt == b.decidedAt && a.decidedBy == b.decidedBy
    && a.denyReason == b.denyReason && a.denylistZone == b.denylistZone && a.denylistScope == b.denylistScope
    && a.decisionBody == b.decisionBody
  }

  /** What no call ever undoes in a row: the ask and its filing time never change, counters
      only grow, and a decision is final. */
  predicate RowExtends(a: Row, b: Row) {
    && b.filing == a.filing && b.openedAt == a.openedAt
    && a.hitCount <= b.hitCount && a.applyAttempts <= b.applyAttempts
    && (a.status != Open ==> SameDecision(a, b))
  }

  ghost predicate Extends(s: Store, t: Store) {
    && s.events <= t.events
    && (forall id :: id in s.rows ==> id in t.rows && RowExtends(s.rows[id], t.rows[id]))
  }

  /** t is s with one row written and at most one event appended. */
  ghost predicate Writes(s: Store, t: Store, id: Id) {
    && id in t.rows && t.rows == s.rows[id := t.rows[id]]
    && (t.events == s.events || (|t.events| == |s.events| + 1 && t.events[..|s.events|] == s.events
                                 && t.events[|s.events|].request == id))
    && (id in s.rows ==> RowExtends(s.rows[id], t.rows[id]))
    && (id !in s.rows ==> t.rows[id].status == Open && forall other :: !OpenFor(s, other, KeyOf(t.rows[id].filing)))
  }

  /** The row a call writes. */
  function Target(s: Store, op: Op): Id
    requires UniqueOpen(s)
  {
    if op.DoOpenOrHit? && op.id !in s.rows
        && FindOpen(s, KeyOf(op.filing)).Some? then FindOpen(s, KeyOf(op.filing)).value
    else op.id
  }

  lemma PerformWrites(s: Store, op: Op)
    requires UniqueOpen(s)
    ensures Perform(s, op) == s || Writes(s, Perform(s, op), Target(s, op))
  {
  }

  lemma WritesExtends(s: Store, t: Store, id: Id)
    requires Writes(s, t, id)
    ensures Extends(s, t)
  {
  }

  lemma WritesKeepsUniqueOpen(s: Store, t: Store, id: Id)
    requires UniqueOpen(s) && Writes(s, t, id)
    ensures UniqueOpen(t)
  {
    forall a, b | IsOpen(t, a) && IsOpen(t, b) && KeyOf(t.rows[a].filing) == KeyOf(t.rows[b].filing)
      ensures a == b
    {
      if id !in s.rows {
        assert !OpenFor(s, a, KeyOf(t.rows[id].filing)) && !OpenFor(s, b, KeyOf(t.rows[id].filing));
      } else {
        assert IsOpen(s, a) && IsOpen(s, b);
      }
    }
  }

  /** One call leaves each ask with at most one open row, and undoes nothing. */
  lemma PerformKeeps(s: Store, op: Op)
    requires UniqueOpen(s)
    ensures UniqueOpen(Perform(s, op)) && Extends(s, Perform(s, op))
  {
    PerformWrites(s, op);
    if Perform(s, op) != s {
      WritesExtends(s, Perform(s, op), Target(s, op));
      WritesKeepsUniqueOpen(s, Perform(s, op), Target(s, op));
    }
  }

  ghost function Run(s: Store, ops: seq<Op>): (t: Store)
    requires UniqueOpen(s)
    ensures UniqueOpen(t)
  {
    if ops == [] then s
    else
      var before := Run(s, ops[..|ops| - 1]);
      PerformKeeps(before, ops[|ops| - 1]);
      Perform(before, ops[|ops| - 1])
  }

  lemma ExtendsTransitive(s: Store, t: Store, u: Store)
    requires Extends(s, t) && Extends(t, u)
    ensures Extends(s, u)
  {
    forall id | id in s.rows ensures id in u.rows && RowExtends(s.rows[id], u.rows[id]) {
      assert RowExtends(s.rows[id], t.rows[id]);
    }
  }

  /** Once decided, a row keeps its status, decision time, decider and body through every later call. */
  lemma {:induction false} RunExtends(s: Store, ops: seq<Op>)
    requires UniqueOpen(s)
    ensures Extends(s, Run(s, ops))
  {
    if ops != [] {
      var before := Run(s, ops[..|ops| - 1]);
      RunExtends(s, ops[..|ops| - 1]);
      PerformKeeps(before, ops[|ops| - 1]);
      ExtendsTransitive(s, before, Run(s, ops));
    }
  }

  // ------------------------------------------------------------------ replaying the log

  /** The part of a row the log is meant to record; `hits` counts the logged ones. */
  datatype Record = Record(
    filing: Filing, openedAt: Time,
    status: Status, scope: Option<string>, decidedAt: Option<Time>, decidedBy: Option<string>,
    denyReason: Option<string>, zone: Option<string>,
    applyStatus: Option<ApplyOutcome>, applyAttempts: nat, lastError: Option<LastError>,
    persistStatus: Option<PersistOutcome>, hits: nat)

  /** Reads one later event of a request into what the earlier ones recorded. */
  function Revise(r: Record, kind: EventKind, ts: Time): Record {
    match kind
    case Requested(_) => r
    case Notified => r
    case Hit(n) => r.(hits := r.hits + n)
    case Closed(status, scope, reason, decider, zone) =>
      r.(status := status, decidedAt := Some(ts), scope := scope, denyReason := reason,
         decidedBy := Some(decider), zone := zone, lastError := None)
    case ApplySucceeded =>
      r.(applyStatus := Some(Applied), applyAttempts := r.applyAttempts + 1, lastError := None)
    case ApplyError(outcome, attempt) =>
      r.(applyStatus := Some(outcome), applyAttempts := attempt, lastError := Some(LastError(outcome, attempt, ts)))
    case PersistLogged(result) => r.(persistStatus := Some(result))
  }

  function Absorb(r: Option<Record>, kind: EventKind, ts: Time): Option<Record> {
    if kind.Requested? then Some(Record(kind.filing, ts, Open, None, None, None, None, None, None, 0, None, None, 1))
    else if r.None? then None
    else Some(Revise(r.value, kind, ts))
  }

  /** What the log alone says about a request, reading its events in id order. */
  function Replay(events: seq<Event>, id: Id): Option<Record> {
    if events == [] then None
    else
      var last := events[|events| - 1];
      var before := Replay(events[..|events| - 1], id);
      if last.request == id then Absorb(before, last.kind, last.ts) else before
  }

  /** The row carries exactly what was recorded, plus `silent` hits that were not logged. */
  predicate Recovered(row: Row, r: Record, silent: nat) {
    && r == Record(row.filing, row.openedAt, row.status, row.scope, row.decidedAt, row.decidedBy, row.denyReason,
                   row.denylistZone, row.applyStatus, row.applyAttempts, row.lastError, row.persistStatus, r.hits)
    && row.hitCount == r.hits + silent
  }

  /** Every row is the replay of its events, and the log names no other request;
      silent counts the hits the log leaves out. */
  ghost predicate Logged(s: Store, silent: map<Id, nat>) {
    forall id ::
      && (id in s.rows <==> Replay(s.events, id).Some?)
      && (id in s.rows ==> Recovered(s.rows[id], Replay(s.events, id).value, Silent(silent, id)))
      && (id !in s.rows ==> Silent(silent, id) == 0)
  }

  function Silent(silent: map<Id, nat>, id: Id): nat {
    if id in silent then silent[id] else 0
  }

  /** The unlogged hits after a call: one more exactly when a suppressed hit lands. */
  function Tally(silent: map<Id, nat>, s: Store, op: Op): map<Id, nat>
    requires UniqueOpen(s)
  {
    var id := Target(s, op);
    silent[id := Silent(silent, id) + if op.DoSuppressedHit? && Perform(s, op) != s then 1 else 0]
  }

  lemma ReplayAppend(events: seq<Event>, e: Event, id: Id)
    ensures Replay(events + [e], id)
         == if e.request == id then Absorb(Replay(events, id), e.kind, e.ts) else Replay(events, id)
  {
    assert (events + [e])[..|events|] == events;
  }

  /** The written row is still the replay of its events. */
  lemma PerformRecovers(s: Store, op: Op, silent: map<Id, nat>)
    requires UniqueOpen(s) && Logged(s, silent) && Perform(s, op) != s
    ensures var t := Perform(s, op); var id := Target(s, op);
            && id in t.rows && Replay(t.events, id).Some?
            && Recovered(t.rows[id], Replay(t.events, id).value, Silent(Tally(silent, s, op), id))
  {
    var t, id := Perform(s, op), Target(s, op);
    PerformWrites(s, op);
    if id in s.rows {
      assert Recovered(s.rows[id], Replay(s.events, id).value, Silent(silent, id));
    }
    if t.events != s.events {
      assert t.events == s.events + [t.events[|s.events|]];
      ReplayAppend(s.events, t.events[|s.events|], id);
    }
  }

  lemma WritesKeepsLogged(s: Store, t: Store, id: Id, silent: map<Id, nat>, now: map<Id, nat>)
    requires Logged(s, silent) && Writes(s, t, id)
    requires id in now && now == silent[id := now[id]]
    requires Replay(t.events, id).Some? && Recovered(t.rows[id], Replay(t.events, id).value, now[id])
    ensures Logged(t, now)
  {
    forall other | other != id ensures Replay(t.events, other) == Replay(s.events, other) {
      if t.events != s.events {
        assert t.events == s.events + [t.events[|s.events|]];
        ReplayAppend(s.events, t.events[|s.events|], other);
      }
    }
  }

  lemma PerformKeepsLogged(s: Store, op: Op, silent: map<Id, nat>)
    requires UniqueOpen(s) && Logged(s, silent)
    ensures Logged(Perform(s, op), Tally(silent, s, op))
  {
    if Perform(s, op) != s {
      PerformRecovers(s, op, silent);
      PerformWrites(s, op);
      WritesKeepsLogged(s, Perform(s, op), Target(s, op), silent, Tally(silent, s, op));
    }
  }

  /** The unlogged hits of a whole run. */
  ghost function SilentHits(s: Store, ops: seq<Op>): map<Id, nat>
    requires UniqueOpen(s)
  {
    if ops == [] then map[]
    else Tally(SilentHits(s, ops[..|ops| - 1]), Run(s, ops[..|ops| - 1]), ops[|ops| - 1])
  }

  /** In every run from the empty database, the log alone recovers every row; a row's hit count is
      one for its filing, plus its logged hits, plus the suppressed hits that landed on it. */
  lemma {:induction false} RunIsReplayed(ops: seq<Op>)
    ensures UniqueOpen(EMPTY_STORE) && Logged(Run(EMPTY_STORE, ops), SilentHits(EMPTY_STORE, ops))
  {
    if ops != [] {
      RunIsReplayed(ops[..|ops| - 1]);
      PerformKeepsLogged(Run(EMPTY_STORE, ops[..|ops| - 1]), ops[|ops| - 1], SilentHits(EMPTY_STORE, ops[..|ops| - 1]));
    }
  }

  // ------------------------------------------------------------------ the shape of a row

  /** A row has a decision body, a decision time and a decider exactly when it is not open, and
      its last error is always that of the latest completed attempt. */
  predicate RowOk(row: Row) {
    && (row.status == Open <==> row.decisionBody.None?)
    && (row.status == Open <==> row.decidedAt.None?)
    && (row.status == Open <==> row.decidedBy.None?)
    && (row.applyAttempts == 0 <==> row.applyStatus.None?)
    && (row.lastError.Some? ==>
          && row.lastError.value.attempt == row.applyAttempts
          && row.applyStatus == Some(row.lastError.value.outcome)
          && row.lastError.value.outcome != Applied)
  }

  ghost predicate RowsOk(s: Store) {
    forall id :: id in s.rows ==> RowOk(s.rows[id])
  }

  lemma PerformKeepsRowsOk(s: Store, op: Op)
    requires UniqueOpen(s) && RowsOk(s)
    ensures RowsOk(Perform(s, op))
  {
    PerformWrites(s, op);
    var id := Target(s, op);
    assert id in s.rows ==> RowOk(s.rows[id]);
    assert Perform(s, op) != s ==> RowOk(Perform(s, op).rows[id]);
  }

  lemma {:induction false} RunKeepsRowsOk(s: Store, ops: seq<Op>)
    requires UniqueOpen(s) && RowsOk(s)
    ensures RowsOk(Run(s, ops))
  {
    if ops != [] {
      RunKeepsRowsOk(s, ops[..|ops| - 1]);
      PerformKeepsRowsOk(Run(s, ops[..|ops| - 1]), ops[|ops| - 1]);
    }
  }
}
