/**
 The egress approval protocol as a state machine over its atomic steps: broker lock sections cut at
 every store transaction, denylist file versions, and the allow subprocess that runs with the lock
 dropped (src/egress_broker_host.py).

 A schedule is any list of actions: a thread starts a call, a thread takes its next step, or somebody
 replaces the denylist file.  A step that is not enabled (the lock is taken) changes nothing, so every
 interleaving is some schedule, and a statement about all schedules is one about all interleavings.

 Two reads of one lock section are one step where the first can only answer "no such row" and that
 answer cannot change while the lock is held.
 */
module Protocol {
  import opened Wrappers
  import opened RequestStore
  import opened DenyZones
  import opened HitWindow

  type Tid = nat

  /** A deny entry an operator asks to persist, with the request that prompted it. */
  datatype Order = Order(entry: Entry, reason: Option<string>, trigger: Option<Id>, decider: string)

  datatype Command =
    | FileRequest(filing: Filing, requestId: Option<Id>, now: Time)
    | DecideAllow(id: Id, asked: Option<string>, decider: string)
    | DecideDeny(id: Id, asked: Option<string>, reason: Option<string>, decider: string)
    | PersistDeny(order: Order)
    | SweepStale(now: Time)

  /** What the environment decides in a step: the clock, an outcome (the subprocess, the disk, a parse),
      a minted id, the denylist version read, the next id a loop takes. */
  datatype Choice = Choice(now: Time, flag: bool, minted: Id, version: nat, pick: Id)

  datatype Action =
    | Start(tid: Tid, command: Command)
    | Step(tid: Tid, choice: Choice)
    | Replace(entries: seq<Entry>)

  datatype Answer =
    | Pending(id: Id, attempt: nat, lastError: Option<LastError>)
    | Decided(body: Body, id: Id)
    | Final
    | ApplyProblem(outcome: ApplyOutcome)
    | ApplyInProgress
    | Refused  // EgressBrokerHostError or UnknownRequest
    | StoreRaised(error: StoreError)

  /** Where a thread is; those marked L hold the broker lock. */
  datatype Thread =
    | FileWait(filing: Filing, requestId: Option<Id>, now: Time)
    | FileHit(filing: Filing, now: Time, id: Id)                              // L
    | FileMatch(filing: Filing, requestId: Option<Id>, now: Time, since: nat) // L, reading a version >= since
    | FileInsert(filing: Filing, now: Time, id: Id)                           // L
    | FileNotify(id: Id, now: Time, answer: Answer)                           // L
    | FileDenyOpen(filing: Filing, now: Time, id: Id, entry: Entry)           // L
    | FileDenyClose(filing: Filing, id: Id, entry: Entry)                     // L
    | FileSuppress(id: Id, now: Time, entry: Entry)                           // L
    | AllowWait(id: Id, asked: Option<string>, decider: string)
    | AllowMarkIp(id: Id)                                                     // L
    | Applying(id: Id, scope: string, decider: string)
    | ApplyReturned(id: Id, scope: string, decider: string, ok: bool)
    | AllowMark(id: Id, scope: string, decider: string)                       // L
    | AllowClose(id: Id, scope: string, decider: string)                      // L
    | AllowFail(id: Id)                                                       // L
    | DenyWait(id: Id, asked: Option<string>, reason: Option<string>, decider: string)
    | DenyClose(id: Id, verdict: Verdict)                                     // L
    | PersistWrite(order: Order)
    | PersistLoad(order: Order, at: nat)
    | PersistList(order: Order, at: nat)
    | PersistSweep(order: Order, at: nat, todo: set<Id>, skipped: set<Id>)
    | PersistClose(order: Order, at: nat, id: Id, todo: set<Id>, skipped: set<Id>)  // L
    | PersistMark(order: Order, at: nat, id: Id, todo: set<Id>, skipped: set<Id>)
    | PersistDone(order: Order, at: nat, skipped: set<Id>)
    | TriggerWait(order: Order, id: Id)
    | TriggerClose(order: Order, id: Id)                                      // L
    | TriggerMark(id: Id)
    | PersistRefused
    | SweepPick(now: Time)
    | SweepClose(todo: set<Id>, now: Time)
    | Done(answer: Answer)

  /** `file` holds every version the denylist file has had; the last one is current.
      A corrupt or missing file reads as the empty list. */
  datatype State = State(
    store: Store,
    file: seq<seq<Entry>>,
    hits: Window,
    applying: set<Id>,
    holder: Option<Tid>,
    threads: map<Tid, Thread>)

  predicate HoldsLock(t: Thread) {
    t.FileHit? || t.FileMatch? || t.FileInsert? || t.FileNotify? || t.FileDenyOpen? || t.FileDenyClose?
    || t.FileSuppress? || t.AllowMarkIp? || t.AllowMark? || t.AllowClose? || t.AllowFail? || t.DenyClose?
    || t.PersistClose? || t.TriggerClose?
  }

  predicate Finished(t: Thread) {
    t.Done? || t.PersistDone? || t.PersistRefused?
  }

  /** The request whose allow subprocess this thread is waiting for. */
  predicate InFlight(t: Thread, id: Id) {
    (t.Applying? || t.ApplyReturned?) && t.id == id
  }

  const DECIDE_SCOPES := {"once", "bottle", GLOBAL}
  const STALE_SECONDS := 24 * 3600

  function Default(o: Option<string>, d: string): string {
    if o.None? || o.value == "" then d else o.value
  }

  predicate ValidRequestId(id: Id) {
    |id| == 8 && forall c :: c in id ==> '0' <= c <= '9' || 'a' <= c <= 'f'
  }

  /** A persist order names the global scope or one bottle. */
  predicate ValidOrder(o: Order) {
    o.entry.scope != ""
  }

  function OrderScope(o: Order): string {
    if o.entry.scope == GLOBAL then GLOBAL else "bottle"
  }

  function DenylistBody(e: Entry): Body {
    DenyBody(Some("denylist"), Some(e.zone), Some(e.scope))
  }

  function AllowVerdict(scope: string, decider: string): Verdict {
    Verdict(Allowed, decider, Some(scope), None, None, None, AllowBody(scope))
  }

  function OnceVerdict(scope: string, reason: Option<string>, decider: string): Verdict {
    Verdict(Denied, decider, Some(scope), reason, None, None, DenyBody(None, None, None))
  }

  function OrderVerdict(o: Order): Verdict {
    Verdict(Denied, o.decider, Some(OrderScope(o)), o.reason, Some(o.entry.zone), Some(o.entry.scope),
        DenylistBody(o.entry))
  }

  function DenylistVerdict(e: Entry): Verdict {
    Verdict(Denied, "denylist", None, Some("denylist"), Some(e.zone), Some(e.scope), DenylistBody(e))
  }

  const STALE_VERDICT := Verdict(Stale, "sweep", None, Some("stale"), None, None, DenyBody(Some("stale"), None, None))

  predicate CoversRow(e: Entry, row: Row) {
    Covers(e, row.filing.container, row.filing.host)
  }

  // ------------------------------------------------------------------ steps

  datatype LockMove = Keep | Take | Drop

  datatype ApplyMove = Unmoved | Mark(marked: Id) | Unmark(unmarked: Id)

  /** One atomic step: what it does to the lock, where its thread goes next, and the one thing it
      changes: a store transaction, the set of running applies, the coalesce window, or the denylist file. */
  datatype Move = Move(lock: LockMove, next: Thread,
                       op: Option<Op> := None,
                       apply: ApplyMove := Unmoved,
                       window: Option<Window> := None,
                       added: Option<Entry> := None)

  /** A transaction inside a lock section; its error, if any, drops the lock and leaves the call. */
  function Commit(s: State, lock: LockMove, op: Op, next: Thread): Move {
    match ErrorOf(s.store, op)
    case None => Move(lock, next, Some(op))
    case Some(e) => Move(Drop, Done(StoreRaised(e)), Some(op))
  }

  /** A transaction whose error is caught and logged. */
  function Attempt(lock: LockMove, op: Op, next: Thread): Move {
    Move(lock, next, op := Some(op))
  }

  function RowAnswer(id: Id, row: Row): Answer {
    Pending(id, row.applyAttempts, row.lastError)
  }

  /** _coalesce_row: the row a filing lands on, or the start of the denylist check. */
  function Coalesce(s: State, f: Filing, rid: Option<Id>, now: Time): Option<Move>
    requires UniqueOpen(s.store) && |s.file| > 0
  {
    if rid.Some? && !ValidRequestId(rid.value) then Some(Move(Keep, Done(Refused)))
    else if s.holder.Some? then None
    else if rid.Some? && rid.value in s.store.rows then
      var row := s.store.rows[rid.value];
      if KeyOf(row.filing) != KeyOf(f) then Some(Move(Keep, Done(Refused)))
      else if row.status == Open then Some(Move(Take, FileHit(f, now, rid.value)))
      else Some(Move(Keep,
          Done(Decided(if row.decisionBody.Some? then row.decisionBody.value
              else DenyBody(None, None, None), rid.value))))
    else
      match FindOpen(s.store, KeyOf(f))
      case Some(id) => Some(Move(Take, FileHit(f, now, id)))
      case None => Some(Move(Take, FileMatch(f, rid, now, |s.file| - 1)))
  }

  /** The denylist answered: file the request, or deny it through the coalesce window. */
  function Consulted(s: State, t: Thread, c: Choice): Option<Move>
    requires t.FileMatch?
  {
    var id := if t.requestId.Some? then t.requestId.value else c.minted;
    if !(t.since <= c.version < |s.file|) || id in s.store.rows then None
    else
      match BestMatch(s.file[c.version], t.filing.container, t.filing.host)
      case None => Some(Move(Keep, FileInsert(t.filing, t.now, id)))
      case Some(e) =>
      var key := HitKey(t.filing.container, e.zone);
        if ShouldLog(s.hits, key, t.now) then
          Some(Move(Keep, FileDenyOpen(t.filing, t.now, id, e), window := Some(LogHit(s.hits, key, t.now, id))))
        else
          Some(Move(Keep, FileSuppress(s.hits[key].request, t.now, e), window := Some(SuppressHit(s.hits, key))))
  }

  function Insert(s: State, f: Filing, now: Time, id: Id): Move
    requires UniqueOpen(s.store)
  {
    var op := DoOpenOrHit(id, f, now);
    var target := Target(s.store, op);
    if target in s.store.rows then Commit(s, Drop, op, Done(RowAnswer(target, s.store.rows[target])))
    else Commit(s, Keep, op, FileNotify(id, now, Pending(id, 0, None)))
  }

  function MoveFile(s: State, t: Thread, c: Choice): Option<Move>
    requires UniqueOpen(s.store) && |s.file| > 0
  {
    match t
    case FileWait(f, rid, now) => Coalesce(s, f, rid, now)
    case FileHit(f, now, id) =>
      Some(Commit(s, Drop, DoOpenOrHit(id, f, now),
          Done(if id in s.store.rows then RowAnswer(id, s.store.rows[id]) else Refused)))
    case FileMatch(_, _, _, _) => Consulted(s, t, c)
    case FileInsert(f, now, id) => Some(Insert(s, f, now, id))
    case FileNotify(id, now, answer) => Some(Commit(s, Drop, DoNotified(id, now), Done(answer)))
    case FileDenyOpen(f, now, id, e) => Some(Commit(s, Keep, DoOpenOrHit(id, f, now), FileDenyClose(f, id, e)))
    case FileDenyClose(f, id, e) =>
      Some(Commit(s, Drop, DoClose(id, DenylistVerdict(e), c.now), Done(Decided(DenylistBody(e), id))))
    case FileSuppress(id, now, e) =>
      Some(Commit(s, Drop, DoSuppressedHit(id, now), Done(Decided(DenylistBody(e), id))))
    case _ => None
  }

  /** The checks every decision starts with, in their order. */
  function DecideRefusal(s: State, id: Id): Option<Answer> {
    if !IsOpen(s.store, id) then Some(Refused)
    else if id in s.applying then Some(ApplyInProgress)
    else None
  }

  function MoveAllow(s: State, t: Thread, c: Choice): Option<Move> {
    match t
    case AllowWait(id, asked, decider) =>
      var scope := Default(asked, "live");
      if s.holder.Some? then None
      else if DecideRefusal(s, id).Some? then Some(Move(Keep, Done(DecideRefusal(s, id).value)))
      else if scope != "live" && scope != "manifest" then Some(Move(Keep, Done(Refused)))
      else if s.store.rows[id].filing.hostIsIp || c.flag then Some(Move(Take, AllowMarkIp(id)))
      else Some(Move(Keep, Applying(id, scope, decider), apply := Mark(id)))
    case AllowMarkIp(id) =>
      Some(Commit(s, Drop, DoApply(id, IpRequiresCidr, c.now), Done(ApplyProblem(IpRequiresCidr))))
    case Applying(id, scope, decider) => Some(Move(Keep, ApplyReturned(id, scope, decider, c.flag)))
    case ApplyReturned(id, scope, decider, ok) =>
      if s.holder.Some? then None
      else if !IsOpen(s.store, id) then Some(Move(Keep, Done(Final), apply := Unmark(id)))
      else if ok then Some(Move(Take, AllowMark(id, scope, decider), apply := Unmark(id)))
      else Some(Move(Take, AllowFail(id), apply := Unmark(id)))
    case AllowMark(id, scope, decider) =>
      Some(Commit(s, Keep, DoApply(id, Applied, c.now), AllowClose(id, scope, decider)))
    case AllowClose(id, scope, decider) =>
      Some(Commit(s, Drop, DoClose(id, AllowVerdict(scope, decider), c.now), Done(Final)))
    case AllowFail(id) => Some(Commit(s, Drop, DoApply(id, ApplyFailed, c.now), Done(ApplyProblem(ApplyFailed))))
    case _ => None
  }

  function MoveDeny(s: State, t: Thread, c: Choice): Option<Move> {
    match t
    case DenyWait(id, asked, reason, decider) =>
      var scope := Default(asked, "once");
      if s.holder.Some? then None
      else if DecideRefusal(s, id).Some? then Some(Move(Keep, Done(DecideRefusal(s, id).value)))
      else if scope !in DECIDE_SCOPES then Some(Move(Keep, Done(Refused)))
      else Some(Move(Take, DenyClose(id, OnceVerdict(scope, reason, decider))))
    case DenyClose(id, v) => Some(Commit(s, Drop, DoClose(id, v, c.now), Done(Final)))
    case _ => None
  }

  /** The open rows a deny entry covers. */
  function CoveredOpen(store: Store, e: Entry): set<Id> {
    set id | id in store.rows && IsOpen(store, id) && CoversRow(e, store.rows[id])
  }

  function MovePersist(s: State, t: Thread, c: Choice): Option<Move>
    requires |s.file| > 0
  {
    match t
    case PersistWrite(o) =>
      if c.flag then Some(Move(Keep, PersistLoad(o, |s.file|), added := Some(o.entry)))
      else if o.trigger.Some? then Some(Move(Keep, TriggerWait(o, o.trigger.value)))
      else Some(Move(Keep, PersistRefused))
    case PersistLoad(o, at) => if s.holder.Some? then None else Some(Move(Keep, PersistList(o, at)))
    case PersistList(o, at) =>
      if s.holder.Some? then None else Some(Move(Keep, PersistSweep(o, at, CoveredOpen(s.store, o.entry), {})))
    case PersistSweep(o, at, todo, skipped) =>
      if todo == {} then Some(Move(Keep, PersistDone(o, at, skipped)))
      else if s.holder.Some? || c.pick !in todo then None
      else if !IsOpen(s.store, c.pick) then Some(Move(Keep, PersistSweep(o, at, todo - {c.pick}, skipped)))
      else if c.pick in s.applying then Some(Move(Keep, PersistSweep(o, at, todo - {c.pick}, skipped + {c.pick})))
      else Some(Move(Take, PersistClose(o, at, c.pick, todo - {c.pick}, skipped)))
    case PersistClose(o, at, id, todo, skipped) =>
      Some(Commit(s, Drop, DoClose(id, OrderVerdict(o), c.now), PersistMark(o, at, id, todo, skipped)))
    case PersistMark(o, at, id, todo, skipped) =>
      Some(Attempt(Keep, DoPersist(id, Persisted, c.now), PersistSweep(o, at, todo, skipped)))
    case TriggerWait(o, id) =>
      if s.holder.Some? then None
      else if DecideRefusal(s, id) == Some(Refused) then Some(Move(Keep, PersistRefused))
      else if DecideRefusal(s, id).Some? then Some(Move(Keep, TriggerMark(id)))
      else Some(Move(Take, TriggerClose(o, id)))
    case TriggerClose(o, id) =>
      var op := DoClose(id, OnceVerdict("once", o.reason, o.decider), c.now);
      Some(Attempt(Drop, op, if ErrorOf(s.store, op).None? then TriggerMark(id) else PersistRefused))
    case TriggerMark(id) => Some(Attempt(Keep, DoPersist(id, PersistFailed, c.now), PersistRefused))
    case _ => None
  }

  /** The open rows a sweep takes: a day old, with no apply in flight. */
  function StaleOpen(store: Store, applying: set<Id>, now: Time): set<Id> {
    set id | id in store.rows && IsOpen(store, id) && id !in applying && store.rows[id].openedAt <= now - STALE_SECONDS
  }

  function MoveSweep(s: State, t: Thread, c: Choice): Option<Move> {
    match t
    case SweepPick(now) =>
      if s.holder.Some? then None else Some(Move(Keep, SweepClose(StaleOpen(s.store, s.applying, now), now)))
    case SweepClose(todo, now) =>
      if todo == {} then Some(Move(Keep, Done(Final)))
      else if c.pick !in todo then None
      else Some(Attempt(Keep, DoClose(c.pick, STALE_VERDICT, now), SweepClose(todo - {c.pick}, now)))
    case _ => None
  }

  predicate IsFile(t: Thread) {
    t.FileWait? || t.FileHit? || t.FileMatch? || t.FileInsert? || t.FileNotify? || t.FileDenyOpen?
        || t.FileDenyClose? || t.FileSuppress?
  }

  predicate IsAllow(t: Thread) {
    t.AllowWait? || t.AllowMarkIp? || t.Applying? || t.ApplyReturned? || t.AllowMark? || t.AllowClose? || t.AllowFail?
  }

  function MoveOf(s: State, t: Thread, c: Choice): Option<Move>
    requires UniqueOpen(s.store) && |s.file| > 0
  {
    if IsFile(t) then MoveFile(s, t, c)
    else if IsAllow(t) then MoveAllow(s, t, c)
    else if t.DenyWait? || t.DenyClose? then MoveDeny(s, t, c)
    else if t.SweepPick? || t.SweepClose? then MoveSweep(s, t, c)
    else MovePersist(s, t, c)
  }

  function Install(s: State, tid: Tid, m: Move): State
    requires UniqueOpen(s.store) && |s.file| > 0
  {
    State(
      if m.op.Some? then Perform(s.store, m.op.value) else s.store,
      if m.added.Some? then s.file + [With(s.file[|s.file| - 1], m.added.value)] else s.file,
      if m.window.Some? then m.window.value else s.hits,
      match m.apply case Unmoved => s.applying case Mark(id) => s.applying + {id} case Unmark(id) => s.applying - {id},
      match m.lock case Keep => s.holder case Take => Some(tid) case Drop => None,
      s.threads[tid := m.next])
  }

  function Begin(command: Command): Thread {
    match command
    case FileRequest(f, rid, now) => FileWait(f, rid, now)
    case DecideAllow(id, asked, decider) => AllowWait(id, asked, decider)
    case DecideDeny(id, asked, reason, decider) => DenyWait(id, asked, reason, decider)
    case PersistDeny(o) => if ValidOrder(o) then PersistWrite(o) else PersistRefused
    case SweepStale(now) => SweepPick(now)
  }

  function StepThread(s: State, tid: Tid, c: Choice): State
    requires UniqueOpen(s.store) && |s.file| > 0 && tid in s.threads
  {
    match MoveOf(s, s.threads[tid], c)
    case None => s
    case Some(m) => Install(s, tid, m)
  }

  function Act(s: State, a: Action): State
    requires UniqueOpen(s.store) && |s.file| > 0
  {
    match a
    case Start(tid, command) =>
      if tid in s.threads && !Finished(s.threads[tid]) then s else s.(threads := s.threads[tid := Begin(command)])
    case Step(tid, c) => if tid in s.threads then StepThread(s, tid, c) else s
    case Replace(entries) => s.(file := s.file + [entries])
  }
}
