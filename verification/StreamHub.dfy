/**
 The live queue fan-out hub as a state machine over its lock sections (src/admin_daemon.py, class QueueStreamHub).

 Three locks: the state lock, under which a step here is one section; the fetch lock, held across an
 upstream poll and the fan-out that follows it; and each mailbox's own.  The fan-out pushes outside the
 state lock, one push a step, so connects, closes and ends come in between.
 */
module StreamHub {
  import opened Wrappers

  type Sid = nat
  type Tid = nat
  type Time = int
  type Key = string

  /** A frame carries the whole snapshot; its version counts the changes of key up to it. */
  datatype Item = Frame(version: nat, key: Key) | Close

  /** A stream: whether its first frame is queued, and all that was ever put in its mailbox. */
  datatype Box = Box(ready: bool, pushed: seq<Item>)

  datatype Limits = Limits(maxStreams: nat, pollSeconds: int, failureLimit: nat)

  /** What the state lock guards; `keys` holds every key the hub has had, the last one current. */
  datatype Hub = Hub(
    streams: set<Sid>,
    boxes: map<Sid, Box>,
    poller: Option<Tid>,
    closed: bool,
    keys: seq<Key>,
    fetchedAt: Time,
    failures: nat)

  const EMPTY_HUB := Hub({}, map[], None, false, [], 0, 0)

  function Current(h: Hub): Item
    requires h.keys != []
  {
    Frame(|h.keys|, h.keys[|h.keys| - 1])
  }

  // ------------------------------------------------------------------ lock sections

  function Push(boxes: map<Sid, Box>, sid: Sid, item: Item): map<Sid, Box>
    requires sid in boxes
  {
    boxes[sid := boxes[sid].(pushed := boxes[sid].pushed + [item])]
  }

  predicate Refuses(h: Hub, l: Limits) {
    h.closed || |h.streams| >= l.maxStreams
  }

  function Reserve(h: Hub, sid: Sid): Hub {
    h.(streams := h.streams + {sid}, boxes := h.boxes[sid := Box(false, [])])
  }

  predicate Fresh(h: Hub, l: Limits, now: Time) {
    h.keys != [] && now - h.fetchedAt < l.pollSeconds
  }

  /** A poll's snapshot: a new version when its key changed. */
  function Commit(h: Hub, key: Key, now: Time): Hub {
    h.(failures := 0, fetchedAt := now, keys := if Changes(h, key) then h.keys + [key] else h.keys)
  }

  predicate Changes(h: Hub, key: Key) {
    h.keys == [] || h.keys[|h.keys| - 1] != key
  }

  function Targets(h: Hub, key: Key): set<Sid> {
    if Changes(h, key) then set sid | sid in h.streams && sid in h.boxes && h.boxes[sid].ready else {}
  }

  function Deliver(h: Hub, sid: Sid, poller: Tid): Hub
    requires sid in h.boxes && h.keys != []
  {
    h.(boxes := h.boxes[sid := Box(true, h.boxes[sid].pushed + [Current(h)])],
       poller := if h.poller.None? then Some(poller) else h.poller)
  }

  /** The same item put in each of these mailboxes. */
  function PushAll(boxes: map<Sid, Box>, sids: set<Sid>, item: Item): map<Sid, Box> {
    map sid | sid in boxes :: if sid in sids then boxes[sid].(pushed := boxes[sid].pushed + [item]) else boxes[sid]
  }

  function EndAll(h: Hub): Hub {
    h.(streams := {}, boxes := PushAll(h.boxes, h.streams, Close))
  }

  // ------------------------------------------------------------------ threads

  datatype Reason = ForOpen(sid: Sid, asked: Time) | ForPoll

  datatype Thread =
    | Opening
    | Checking(sid: Sid)
    | FetchWait(reason: Reason)
    | Fetching(reason: Reason)                              // holds the fetch lock
    | Pushing(reason: Reason, todo: set<Sid>, frame: Item)  // holds the fetch lock
    | Delivering(sid: Sid, asked: Time)
    | Failing(sid: Sid)
    | Opened(sid: Sid, asked: Time)
    | Refused
    | PollWait
    | PollFailed
    | Stopped

  datatype State = State(hub: Hub, fetching: Option<Tid>, clock: Time, threads: map<Tid, Thread>)

  /** What the environment decides: the clock, a new stream's and thread's identity, the upstream's
      answer (None when the poll failed), the next target of a fan-out. */
  datatype Choice = Choice(now: Time, sid: Sid, tid: Tid, reply: Option<Key>, pick: Sid)

  datatype Action =
    | Open(tid: Tid)
    | Step(tid: Tid, choice: Choice)
    | CloseStream(sid: Sid)
    | EndStreams
    | Shutdown

  datatype FetchMove = Keep | Take | Drop

  datatype Move = Move(hub: Hub, next: Thread, fetch: FetchMove := Keep, spawn: Option<Tid> := None)

  /** Where a thread goes once its poll ended. */
  function AfterPoll(r: Reason, ok: bool): Thread {
    match r
    case ForOpen(sid, asked) => if ok then Delivering(sid, asked) else Failing(sid)
    case ForPoll => if ok then PollWait else PollFailed
  }

  function MoveFetch(s: State, t: Thread, c: Choice, now: Time): Option<Move> {
    match t
    case FetchWait(r) => if s.fetching.Some? then None else Some(Move(s.hub, Fetching(r), fetch := Take))
    case Fetching(r) =>
      (match c.reply
       case None => Some(Move(s.hub.(failures := s.hub.failures + 1), AfterPoll(r, false), fetch := Drop))
       case Some(key) =>
         var h := Commit(s.hub, key, now);
         Some(Move(h, Pushing(r, Targets(s.hub, key), Current(h)))))
    case Pushing(r, todo, frame) =>
      if todo == {} then Some(Move(s.hub, AfterPoll(r, true), fetch := Drop))
      else if c.pick !in todo || c.pick !in s.hub.boxes then None
      else Some(Move(s.hub.(boxes := Push(s.hub.boxes, c.pick, frame)), Pushing(r, todo - {c.pick}, frame)))
    case _ => None
  }

  function MoveOpen(l: Limits, s: State, t: Thread, c: Choice, now: Time): Option<Move> {
    match t
    case Opening =>
      if Refuses(s.hub, l) then Some(Move(s.hub, Refused))
      else if c.sid in s.hub.boxes then None
      else Some(Move(Reserve(s.hub, c.sid), Checking(c.sid)))
    case Checking(sid) =>
      Some(Move(s.hub, if Fresh(s.hub, l, now) then Delivering(sid, now) else FetchWait(ForOpen(sid, now))))
    case Delivering(sid, asked) =>
      if s.hub.closed then Some(Move(s.hub, Failing(sid)))
      else if sid !in s.hub.boxes || s.hub.keys == [] || c.tid in s.threads then None
      else Some(Move(Deliver(s.hub, sid, c.tid), Opened(sid, asked), spawn := if s.hub.poller.None? then Some(c.tid)
          else None))
    case Failing(sid) => Some(Move(s.hub.(streams := s.hub.streams - {sid}), Refused))
    case _ => None
  }

  function MovePoll(l: Limits, s: State, t: Thread): Option<Move> {
    match t
    case PollWait =>
      if s.hub.closed || s.hub.streams == {} then Some(Move(s.hub.(poller := None), Stopped))
      else Some(Move(s.hub, FetchWait(ForPoll)))
    case PollFailed => Some(Move(if s.hub.failures >= l.failureLimit then EndAll(s.hub) else s.hub, PollWait))
    case _ => None
  }

  function MoveOf(l: Limits, s: State, t: Thread, c: Choice, now: Time): Option<Move> {
    if t.FetchWait? || t.Fetching? || t.Pushing? then MoveFetch(s, t, c, now)
    else if t.PollWait? || t.PollFailed? then MovePoll(l, s, t)
    else MoveOpen(l, s, t, c, now)
  }

  function Install(s: State, tid: Tid, m: Move, now: Time): State {
    State(m.hub,
          match m.fetch case Keep => s.fetching case Take => Some(tid) case Drop => None,
          now,
          if m.spawn.Some? then s.threads[tid := m.next][m.spawn.value := PollWait] else s.threads[tid := m.next])
  }

  function Later(s: State, c: Choice): Time {
    if c.now > s.clock then c.now else s.clock
  }

  function Act(l: Limits, s: State, a: Action): State {
    match a
    case Open(tid) => if tid in s.threads then s else s.(threads := s.threads[tid := Opening])
    case Step(tid, c) =>
      if tid !in s.threads then s
      else (match MoveOf(l, s, s.threads[tid], c, Later(s, c)) case None => s case Some(m) =>
          Install(s, tid, m, Later(s, c)))
    case CloseStream(sid) => s.(hub := s.hub.(streams := s.hub.streams - {sid}))
    case EndStreams => s.(hub := EndAll(s.hub))
    case Shutdown => s.(hub := EndAll(s.hub).(closed := true))
  }

  const BOOT := State(EMPTY_HUB, None, 0, map[])

  function Exec(l: Limits, schedule: seq<Action>): State {
    if schedule == [] then BOOT else Act(l, Exec(l, schedule[..|schedule| - 1]), schedule[|schedule| - 1])
  }
}
