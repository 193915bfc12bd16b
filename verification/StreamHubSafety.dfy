/**
 What the hub keeps under every interleaving: each ready stream has every version since it connected, once
 and in order, up to the current one or the one the running fan-out still owes it; the cap; and one poller.
 */
module StreamHubSafety {
  import opened Wrappers
  import opened StreamHub

  // ------------------------------------------------------------------ one mailbox

  /** The versions put in a mailbox, in order. */
  function Versions(pushed: seq<Item>): seq<nat> {
    if pushed == [] then []
    else
      var last := pushed[|pushed| - 1];
      Versions(pushed[..|pushed| - 1]) + if last.Frame? then [last.version] else []
  }

  lemma VersionsOfPush(pushed: seq<Item>, item: Item)
    ensures Versions(pushed + [item]) == Versions(pushed) + if item.Frame? then [item.version] else []
  {
    assert (pushed + [item])[..|pushed|] == pushed;
  }

  /** No version is skipped or repeated. */
  ghost predicate Consecutive(vs: seq<nat>) {
    forall i :: 0 <= i < |vs| ==> vs[i] == vs[0] + i
  }

  /** A frame has a version the hub has had, and that version's key. */
  predicate FrameOk(item: Item, keys: seq<Key>) {
    item.Frame? ==> 1 <= item.version <= |keys| && item.key == keys[item.version - 1]
  }

  ghost predicate FramesOk(pushed: seq<Item>, keys: seq<Key>) {
    forall i :: 0 <= i < |pushed| ==> FrameOk(pushed[i], keys)
  }

  ghost predicate BoxOk(box: Box, keys: seq<Key>) {
    FramesOk(box.pushed, keys) && Consecutive(Versions(box.pushed)) && (box.ready <==> Versions(box.pushed) != [])
  }

  /** The version of the last frame of a ready stream. */
  function LastVersion(box: Box): nat
    requires Versions(box.pushed) != []
  {
    Versions(box.pushed)[|Versions(box.pushed)| - 1]
  }

  lemma FramesOfPush(pushed: seq<Item>, keys: seq<Key>, item: Item)
    requires FramesOk(pushed, keys) && FrameOk(item, keys)
    ensures FramesOk(pushed + [item], keys)
  {
    forall i | 0 <= i < |pushed + [item]| ensures FrameOk((pushed + [item])[i], keys) {
      if i < |pushed| { assert FrameOk(pushed[i], keys); }
    }
  }

  lemma OneMoreVersion(vs: seq<nat>, v: nat)
    requires Consecutive(vs) && (vs != [] ==> vs[|vs| - 1] == v - 1)
    ensures Consecutive(vs + [v])
  {
  }

  lemma CloseKeepsBox(box: Box, keys: seq<Key>)
    requires BoxOk(box, keys)
    ensures BoxOk(box.(pushed := box.pushed + [Close]), keys)
    ensures Versions(box.pushed + [Close]) == Versions(box.pushed)
  {
    VersionsOfPush(box.pushed, Close);
    FramesOfPush(box.pushed, keys, Close);
    assert Versions(box.pushed) + [] == Versions(box.pushed);
  }

  lemma FrameKeepsBox(box: Box, keys: seq<Key>, item: Item)
    requires BoxOk(box, keys) && item.Frame? && FrameOk(item, keys)
    requires box.ready ==> LastVersion(box) == item.version - 1
    ensures var b := Box(true, box.pushed + [item]); BoxOk(b, keys) && LastVersion(b) == item.version
  {
    VersionsOfPush(box.pushed, item);
    FramesOfPush(box.pushed, keys, item);
    OneMoreVersion(Versions(box.pushed), item.version);
  }

  // ------------------------------------------------------------------ the hub and what a fan-out owes

  predicate Registered(h: Hub, sid: Sid) {
    sid in h.streams && sid in h.boxes && h.boxes[sid].ready
  }

  ghost predicate HubOk(l: Limits, h: Hub) {
    && |h.streams| <= l.maxStreams && h.streams <= h.boxes.Keys && (h.closed ==> h.streams == {})
    && (forall i :: 0 < i < |h.keys| ==> h.keys[i] != h.keys[i - 1])
    && (forall sid :: sid in h.boxes ==> BoxOk(h.boxes[sid], h.keys))
    && (forall sid :: sid in h.streams ==> Close !in h.boxes[sid].pushed)
  }

  /** Every registered ready stream, and every stream the fan-out still owes, is at this version. */
  ghost predicate Level(h: Hub, debts: set<Sid>) {
    && (forall sid :: sid in debts ==> sid in h.boxes && h.boxes[sid].ready)
    && (forall sid :: sid in h.boxes && h.boxes[sid].ready && (sid in h.streams || sid in debts) ==>
         Versions(h.boxes[sid].pushed) != []
             && LastVersion(h.boxes[sid]) == if sid in debts then |h.keys| - 1 else |h.keys|)
  }

  ghost predicate CoreOk(l: Limits, h: Hub, debts: set<Sid>) {
    HubOk(l, h) && Level(h, debts)
  }

  lemma ReserveKeeps(l: Limits, h: Hub, debts: set<Sid>, sid: Sid)
    requires CoreOk(l, h, debts) && !Refuses(h, l) && sid !in h.boxes
    ensures CoreOk(l, Reserve(h, sid), debts)
  {
    assert sid !in h.streams;
  }

  lemma MoreKeysKeepBox(box: Box, keys: seq<Key>, key: Key)
    requires BoxOk(box, keys)
    ensures BoxOk(box, keys + [key])
  {
  }

  /** A change is owed to every ready stream; nothing else is. */
  lemma CommitKeeps(l: Limits, h: Hub, key: Key, now: Time)
    requires CoreOk(l, h, {})
    ensures CoreOk(l, Commit(h, key, now), Targets(h, key))
  {
    if Changes(h, key) {
      forall sid | sid in h.boxes ensures BoxOk(h.boxes[sid], h.keys + [key]) {
        MoreKeysKeepBox(h.boxes[sid], h.keys, key);
      }
    }
  }

  lemma PushKeeps(l: Limits, h: Hub, debts: set<Sid>, sid: Sid)
    requires CoreOk(l, h, debts) && sid in debts && h.keys != []
    ensures CoreOk(l, h.(boxes := Push(h.boxes, sid, Current(h))), debts - {sid})
  {
    FrameKeepsBox(h.boxes[sid], h.keys, Current(h));
  }

  lemma DeliverKeeps(l: Limits, h: Hub, debts: set<Sid>, sid: Sid, poller: Tid)
    requires CoreOk(l, h, debts) && sid in h.boxes && !h.boxes[sid].ready && h.keys != []
    ensures CoreOk(l, Deliver(h, sid, poller), debts)
  {
    FrameKeepsBox(h.boxes[sid], h.keys, Current(h));
    DeliverHubOk(l, h, sid, poller);
    DeliverLevels(h, debts, sid, poller);
  }

  lemma DeliverHubOk(l: Limits, h: Hub, sid: Sid, poller: Tid)
    requires HubOk(l, h) && sid in h.boxes && h.keys != []
    requires BoxOk(Box(true, h.boxes[sid].pushed + [Current(h)]), h.keys)
    ensures HubOk(l, Deliver(h, sid, poller))
  {
    var g := Deliver(h, sid, poller);
    forall x | x in h.boxes ensures BoxOk(g.boxes[x], h.keys) {
      if x != sid { assert g.boxes[x] == h.boxes[x]; }
    }
    forall x | x in h.streams ensures Close !in g.boxes[x].pushed {
      assert Close !in h.boxes[x].pushed;
      if x != sid { assert g.boxes[x] == h.boxes[x]; }
    }
  }

  lemma DeliverLevels(h: Hub, debts: set<Sid>, sid: Sid, poller: Tid)
    requires Level(h, debts) && sid in h.boxes && !h.boxes[sid].ready && h.keys != []
    requires var b := Box(true, h.boxes[sid].pushed + [Current(h)]);
      Versions(b.pushed) != [] && LastVersion(b) == |h.keys|
    ensures Level(Deliver(h, sid, poller), debts)
  {
    assert sid !in debts;
  }

  lemma EndKeeps(l: Limits, h: Hub, debts: set<Sid>)
    requires CoreOk(l, h, debts)
    ensures CoreOk(l, EndAll(h), debts)
  {
    var e := EndAll(h);
    forall sid | sid in h.boxes
      ensures BoxOk(e.boxes[sid], h.keys) && e.boxes[sid].ready == h.boxes[sid].ready
      ensures Versions(e.boxes[sid].pushed) == Versions(h.boxes[sid].pushed)
    {
      CloseKeepsBox(h.boxes[sid], h.keys);
    }
    EndLevels(h, debts);
  }

  lemma EndLevels(h: Hub, debts: set<Sid>)
    requires Level(h, debts)
    requires forall sid :: sid in h.boxes ==> Versions(EndAll(h).boxes[sid].pushed) == Versions(h.boxes[sid].pushed)
    ensures Level(EndAll(h), debts)
  {
  }

  lemma RemoveKeeps(l: Limits, h: Hub, debts: set<Sid>, sid: Sid)
    requires CoreOk(l, h, debts)
    ensures CoreOk(l, h.(streams := h.streams - {sid}), debts)
  {
    assert |h.streams - {sid}| <= |h.streams| by { SubsetIsSmaller(h.streams - {sid}, h.streams); }
  }

  lemma SubsetIsSmaller(a: set<Sid>, b: set<Sid>)
    requires a <= b
    ensures |a| <= |b|
  {
    assert a + (b - a) == b;
  }

  // ------------------------------------------------------------------ threads

  predicate HoldsFetch(t: Thread) {
    t.Fetching? || t.Pushing?
  }

  /** The thread of the one poller. */
  predicate IsPoller(t: Thread) {
    t.PollWait? || t.PollFailed? || ((t.FetchWait? || t.Fetching? || t.Pushing?) && t.reason.ForPoll?)
  }

  /** The stream a thread is opening, before its first frame. */
  function Owner(t: Thread): Option<Sid> {
    match t
    case Checking(sid) => Some(sid)
    case Delivering(sid, _) => Some(sid)
    case FetchWait(ForOpen(sid, _)) => Some(sid)
    case Fetching(ForOpen(sid, _)) => Some(sid)
    case Pushing(ForOpen(sid, _), _, _) => Some(sid)
    case _ => None
  }

  /** When a thread that has a poll behind it, or will, asked for a snapshot. */
  function Asked(t: Thread): Option<Time> {
    match t
    case Delivering(_, asked) => Some(asked)
    case FetchWait(ForOpen(_, asked)) => Some(asked)
    case Fetching(ForOpen(_, asked)) => Some(asked)
    case Pushing(ForOpen(_, asked), _, _) => Some(asked)
    case _ => None
  }

  function Debts(s: State): set<Sid> {
    if s.fetching.Some? && s.fetching.value in s.threads
        && s.threads[s.fetching.value].Pushing? then s.threads[s.fetching.value].todo else {}
  }

  /** What a thread relies on in the hub. */
  ghost predicate ThreadOk(l: Limits, h: Hub, clock: Time, t: Thread) {
    && (t.Pushing? ==> h.keys != [] && t.frame == Current(h))
    && (t.Delivering? ==> h.keys != [] && (h.fetchedAt > t.asked - l.pollSeconds || h.fetchedAt >= t.asked))
    && (t.Pushing? && t.reason.ForOpen? ==> h.fetchedAt >= t.reason.asked)
    && (Owner(t).Some? ==> Owner(t).value in h.boxes && !h.boxes[Owner(t).value].ready)
    && (Asked(t).Some? ==> Asked(t).value <= clock)
  }

  ghost predicate AllThreadsOk(l: Limits, s: State) {
    forall tid :: tid in s.threads ==> ThreadOk(l, s.hub, s.clock, s.threads[tid])
  }

  ghost predicate FetchOwned(s: State) {
    && (s.fetching.Some? ==> s.fetching.value in s.threads)
    && (forall tid :: tid in s.threads ==> (HoldsFetch(s.threads[tid]) <==> s.fetching == Some(tid)))
  }

  ghost predicate OnePoller(s: State) {
    && (s.hub.poller.Some? ==> s.hub.poller.value in s.threads)
    && (forall tid :: tid in s.threads ==> (IsPoller(s.threads[tid]) <==> s.hub.poller == Some(tid)))
  }

  ghost predicate OwnersDistinct(s: State) {
    forall a, b :: a in s.threads && b in s.threads && a != b && Owner(s.threads[a]).Some?
        ==> Owner(s.threads[a]) != Owner(s.threads[b])
  }

  /** While a ready stream is registered, somebody polls. */
  ghost predicate Polled(h: Hub) {
    h.poller.None? ==> forall sid :: sid in h.streams ==> !Registered(h, sid)
  }

  ghost predicate Inv(l: Limits, s: State) {
    && CoreOk(l, s.hub, Debts(s)) && AllThreadsOk(l, s) && FetchOwned(s) && OnePoller(s) && OwnersDistinct(s)
    && Polled(s.hub) && s.hub.fetchedAt <= s.clock
  }

  // ------------------------------------------------------------------ one step

  /** A move is enabled and this is it. */
  ghost predicate Moves(l: Limits, s: State, tid: Tid, c: Choice, now: Time, m: Move) {
    tid in s.threads && s.clock <= now && MoveOf(l, s, s.threads[tid], c, now) == Some(m)
  }

  /** How a move treats the fetch lock. */
  ghost predicate FetchShape(s: State, t: Thread, m: Move) {
    match m.fetch
    case Keep => HoldsFetch(m.next) == HoldsFetch(t)
    case Take => s.fetching.None? && !HoldsFetch(t) && HoldsFetch(m.next)
    case Drop => HoldsFetch(t) && !HoldsFetch(m.next)
  }

  lemma MoveFetchShape(l: Limits, s: State, tid: Tid, c: Choice, now: Time, m: Move)
    requires Moves(l, s, tid, c, now, m)
    ensures FetchShape(s, s.threads[tid], m)
  {
  }

  /** How a move treats the poller: it stays, it stops, or the first ready stream starts it. */
  ghost predicate PollerShape(s: State, t: Thread, c: Choice, m: Move) {
    || (m.spawn.None? && m.hub.poller == s.hub.poller && IsPoller(m.next) == IsPoller(t))
    || (m.spawn.None? && m.hub.poller.None? && IsPoller(t) && !IsPoller(m.next))
    || (m.spawn == Some(c.tid) && s.hub.poller.None? && m.hub.poller == m.spawn && c.tid !in s.threads
       && !IsPoller(t) && !IsPoller(m.next))
  }

  lemma MovePollerShape(l: Limits, s: State, tid: Tid, c: Choice, now: Time, m: Move)
    requires Moves(l, s, tid, c, now, m)
    ensures PollerShape(s, s.threads[tid], c, m)
  {
  }

  lemma DebtsAfter(l: Limits, s: State, tid: Tid, c: Choice, now: Time, m: Move)
    requires FetchOwned(s) && Moves(l, s, tid, c, now, m)
    ensures Debts(Install(s, tid, m, now)) ==
              if !HoldsFetch(s.threads[tid]) then Debts(s) else if m.next.Pushing? then m.next.todo else {}
  {
    MoveFetchShape(l, s, tid, c, now, m);
    MovePollerShape(l, s, tid, c, now, m);
  }

  lemma FetchKeepsCore(l: Limits, s: State, tid: Tid, c: Choice, now: Time, m: Move)
    requires Inv(l, s) && Moves(l, s, tid, c, now, m) && HoldsFetch(s.threads[tid])
    ensures CoreOk(l, m.hub, if m.next.Pushing? then m.next.todo else {})
  {
    var t := s.threads[tid];
    assert s.fetching == Some(tid) && ThreadOk(l, s.hub, s.clock, t);
    if t.Fetching? && c.reply.Some? {
      CommitKeeps(l, s.hub, c.reply.value, now);
    } else if t.Pushing? && t.todo != {} {
      PushKeeps(l, s.hub, t.todo, c.pick);
    }
  }

  lemma OpeningKeepsCore(l: Limits, s: State, debts: set<Sid>, t: Thread, c: Choice, now: Time)
    requires CoreOk(l, s.hub, debts) && ThreadOk(l, s.hub, s.clock, t) && MoveOpen(l, s, t, c, now).Some?
    ensures CoreOk(l, MoveOpen(l, s, t, c, now).value.hub, debts)
  {
    if t.Opening? {
      if !Refuses(s.hub, l) { ReserveKeeps(l, s.hub, debts, c.sid); }
    } else if t.Delivering? {
      if !s.hub.closed { DeliverKeeps(l, s.hub, debts, t.sid, c.tid); }
    } else if t.Failing? {
      RemoveKeeps(l, s.hub, debts, t.sid);
    }
  }

  lemma PollingKeepsCore(l: Limits, s: State, debts: set<Sid>, t: Thread)
    requires CoreOk(l, s.hub, debts) && MovePoll(l, s, t).Some?
    ensures CoreOk(l, MovePoll(l, s, t).value.hub, debts)
  {
    if t.PollFailed? { EndKeeps(l, s.hub, debts); }
  }

  lemma OthersKeepCore(l: Limits, s: State, tid: Tid, c: Choice, now: Time, m: Move)
    requires Inv(l, s) && Moves(l, s, tid, c, now, m) && !HoldsFetch(s.threads[tid])
    ensures CoreOk(l, m.hub, Debts(s))
  {
    var t := s.threads[tid];
    if t.PollWait? || t.PollFailed? {
      PollingKeepsCore(l, s, Debts(s), t);
    } else if !t.FetchWait? {
      OpeningKeepsCore(l, s, Debts(s), t, c, now);
    }
  }

  lemma StepKeepsCore(l: Limits, s: State, tid: Tid, c: Choice, now: Time, m: Move)
    requires Inv(l, s) && Moves(l, s, tid, c, now, m)
    ensures var t := Install(s, tid, m, now); CoreOk(l, t.hub, Debts(t))
  {
    DebtsAfter(l, s, tid, c, now, m);
    if HoldsFetch(s.threads[tid]) {
      FetchKeepsCore(l, s, tid, c, now, m); } else { OthersKeepCore(l, s, tid, c, now, m);
    }
  }

  // ------------------------------------------------------------------ the other threads

  /** What one hub section leaves to the threads that did not make it; only the stream being delivered turns ready. */
  ghost predicate Evolves(h: Hub, g: Hub, delivered: Option<Sid>) {
    && h.boxes.Keys <= g.boxes.Keys && h.fetchedAt <= g.fetchedAt && (h.keys != [] ==> g.keys != [])
    && (forall sid :: sid in h.boxes && Some(sid) != delivered ==> g.boxes[sid].ready == h.boxes[sid].ready)
  }

  lemma MoveEvolves(l: Limits, s: State, tid: Tid, c: Choice, now: Time, m: Move)
    requires Moves(l, s, tid, c, now, m) && s.hub.fetchedAt <= s.clock
    ensures Evolves(s.hub, m.hub, Owner(s.threads[tid])) && m.hub.fetchedAt <= now
    ensures m.hub.keys == s.hub.keys || s.threads[tid].Fetching?
  {
  }

  lemma OtherThreadOk(l: Limits, h: Hub, g: Hub, delivered: Option<Sid>, clock: Time, now: Time, t: Thread)
    requires ThreadOk(l, h, clock, t) && Evolves(h, g, delivered) && clock <= now
    requires t.Pushing? ==> g.keys == h.keys
    requires Owner(t).Some? ==> Owner(t) != delivered
    ensures ThreadOk(l, g, now, t)
  {
  }

  lemma NextOk(l: Limits, s: State, tid: Tid, c: Choice, now: Time, m: Move)
    requires Moves(l, s, tid, c, now, m) && ThreadOk(l, s.hub, s.clock, s.threads[tid]) && s.hub.fetchedAt <= s.clock
    ensures ThreadOk(l, m.hub, now, m.next)
  {
  }

  lemma NextOwner(l: Limits, s: State, tid: Tid, c: Choice, now: Time, m: Move)
    requires Moves(l, s, tid, c, now, m)
    ensures Owner(m.next).Some? ==> Owner(m.next) == Owner(s.threads[tid]) || Owner(m.next).value !in s.hub.boxes
  {
  }

  lemma StepKeepsThreads(l: Limits, s: State, tid: Tid, c: Choice, now: Time, m: Move)
    requires AllThreadsOk(l, s) && FetchOwned(s) && OwnersDistinct(s) && s.hub.fetchedAt <= s.clock
    requires Moves(l, s, tid, c, now, m)
    ensures AllThreadsOk(l, Install(s, tid, m, now))
  {
    var t := Install(s, tid, m, now);
    NextOk(l, s, tid, c, now, m);
    MoveEvolves(l, s, tid, c, now, m);
    forall u | u in t.threads && u != tid ensures ThreadOk(l, t.hub, now, t.threads[u]) {
      if t.threads[u] != PollWait { OtherThreadOk(l, s.hub, m.hub, Owner(s.threads[tid]), s.clock, now, s.threads[u]); }
    }
  }

  lemma StepKeepsOwners(l: Limits, s: State, tid: Tid, c: Choice, now: Time, m: Move)
    requires AllThreadsOk(l, s) && OwnersDistinct(s) && Moves(l, s, tid, c, now, m)
    ensures OwnersDistinct(Install(s, tid, m, now))
  {
    NextOwner(l, s, tid, c, now, m);
  }

  lemma StepKeepsFetch(l: Limits, s: State, tid: Tid, c: Choice, now: Time, m: Move)
    requires FetchOwned(s) && Moves(l, s, tid, c, now, m)
    ensures FetchOwned(Install(s, tid, m, now))
  {
    MoveFetchShape(l, s, tid, c, now, m);
    MovePollerShape(l, s, tid, c, now, m);
  }

  lemma StepKeepsOnePoller(l: Limits, s: State, tid: Tid, c: Choice, now: Time, m: Move)
    requires OnePoller(s) && Moves(l, s, tid, c, now, m)
    ensures OnePoller(Install(s, tid, m, now))
  {
    MovePollerShape(l, s, tid, c, now, m);
  }

  lemma RegisteredBefore(l: Limits, s: State, tid: Tid, c: Choice, now: Time, m: Move, sid: Sid)
    requires Moves(l, s, tid, c, now, m) && Registered(m.hub, sid) && m.hub.poller.None?
    ensures Registered(s.hub, sid)
  {
  }

  lemma StepKeepsPolled(l: Limits, s: State, tid: Tid, c: Choice, now: Time, m: Move)
    requires Polled(s.hub) && (s.hub.closed ==> s.hub.streams == {}) && Moves(l, s, tid, c, now, m)
    ensures Polled(m.hub)
  {
    if m.hub.poller.None? {
      PollerStops(l, s, tid, c, now, m);
      forall sid | sid in m.hub.streams ensures !Registered(m.hub, sid) {
        if Registered(m.hub, sid) { RegisteredBefore(l, s, tid, c, now, m, sid); }
      }
    }
  }

  lemma PollerStops(l: Limits, s: State, tid: Tid, c: Choice, now: Time, m: Move)
    requires Moves(l, s, tid, c, now, m) && m.hub.poller.None?
    ensures s.hub.poller.None? || s.hub.closed || s.hub.streams == {}
  {
  }

  lemma StepKeepsInv(l: Limits, s: State, tid: Tid, c: Choice, now: Time, m: Move)
    requires Inv(l, s) && Moves(l, s, tid, c, now, m)
    ensures Inv(l, Install(s, tid, m, now))
  {
    StepKeepsCore(l, s, tid, c, now, m);
    StepKeepsThreads(l, s, tid, c, now, m);
    StepKeepsOwners(l, s, tid, c, now, m);
    StepKeepsFetch(l, s, tid, c, now, m);
    StepKeepsOnePoller(l, s, tid, c, now, m);
    StepKeepsPolled(l, s, tid, c, now, m);
    MoveEvolves(l, s, tid, c, now, m);
  }

  /** A section run from outside: a stream closed by its handler, every stream ended, the shutdown. */
  lemma OutsideKeepsInv(l: Limits, s: State, g: Hub)
    requires Inv(l, s) && CoreOk(l, g, Debts(s)) && Evolves(s.hub, g, None)
    requires g.streams <= s.hub.streams && g.keys == s.hub.keys && g.fetchedAt == s.hub.fetchedAt
    requires g.poller == s.hub.poller
    ensures Inv(l, s.(hub := g))
  {
    forall tid | tid in s.threads ensures ThreadOk(l, g, s.clock, s.threads[tid]) {
      OtherThreadOk(l, s.hub, g, None, s.clock, s.clock, s.threads[tid]);
    }
  }

  lemma EndingKeepsInv(l: Limits, s: State, closed: bool)
    requires Inv(l, s) && (s.hub.closed ==> closed)
    ensures Inv(l, s.(hub := EndAll(s.hub).(closed := closed)))
  {
    EndKeeps(l, s.hub, Debts(s));
    OutsideKeepsInv(l, s, EndAll(s.hub).(closed := closed));
  }

  lemma ActKeepsInv(l: Limits, s: State, a: Action)
    requires Inv(l, s)
    ensures Inv(l, Act(l, s, a))
  {
    match a
    case Step(tid, c) =>
      if tid in s.threads && MoveOf(l, s, s.threads[tid], c, Later(s, c)).Some? {
        StepKeepsInv(l, s, tid, c, Later(s, c), MoveOf(l, s, s.threads[tid], c, Later(s, c)).value);
      }
    case Open(tid) => if tid !in s.threads { OpenKeepsInv(l, s, tid); }
    case CloseStream(sid) => CloseKeepsInv(l, s, sid);
    case EndStreams => EndingKeepsInv(l, s, s.hub.closed);
    case Shutdown => EndingKeepsInv(l, s, true);
  }

  lemma CloseKeepsInv(l: Limits, s: State, sid: Sid)
    requires Inv(l, s)
    ensures Inv(l, s.(hub := s.hub.(streams := s.hub.streams - {sid})))
  {
    RemoveKeeps(l, s.hub, Debts(s), sid);
    OutsideKeepsInv(l, s, s.hub.(streams := s.hub.streams - {sid}));
  }

  lemma OpenKeepsInv(l: Limits, s: State, tid: Tid)
    requires Inv(l, s) && tid !in s.threads
    ensures Inv(l, s.(threads := s.threads[tid := Opening]))
  {
    assert Debts(s.(threads := s.threads[tid := Opening])) == Debts(s);
  }

  lemma {:induction false} ExecKeepsInv(l: Limits, schedule: seq<Action>)
    ensures Inv(l, Exec(l, schedule))
  {
    if schedule != [] {
      ExecKeepsInv(l, schedule[..|schedule| - 1]);
      ActKeepsInv(l, Exec(l, schedule[..|schedule| - 1]), schedule[|schedule| - 1]);
    }
  }

  // ------------------------------------------------------------------ what every run keeps

  lemma LastIsAFrame(pushed: seq<Item>)
    requires Close !in pushed && Versions(pushed) != []
    ensures pushed != [] && pushed[|pushed| - 1].Frame?
    ensures pushed[|pushed| - 1].version == Versions(pushed)[|Versions(pushed)| - 1]
  {
    assert pushed[|pushed| - 1] in pushed;
  }

  /** The stream is in the fan-out that is running, which will put this frame in its mailbox. */
  predicate Owes(s: State, sid: Sid, frame: Item) {
    && s.fetching.Some? && s.fetching.value in s.threads
    && var t := s.threads[s.fetching.value]; t.Pushing? && sid in t.todo && t.frame == frame
  }

  /** The last frame is the current one, or the one before and the running fan-out owes it the current. */
  predicate CurrentOrOwed(s: State, sid: Sid, last: Item) {
    && s.hub.keys != []
    && (last == Current(s.hub)
        || (Owes(s, sid, Current(s.hub)) && last.Frame? && |s.hub.keys| > 1
           && last == Frame(|s.hub.keys| - 1, s.hub.keys[|s.hub.keys| - 2])))
  }

  lemma RegisteredIsCurrent(l: Limits, s: State, sid: Sid)
    requires Inv(l, s) && Registered(s.hub, sid)
    ensures var pushed := s.hub.boxes[sid].pushed; pushed != [] && CurrentOrOwed(s, sid, pushed[|pushed| - 1])
  {
    var box := s.hub.boxes[sid];
    assert BoxOk(box, s.hub.keys);
    LastIsAFrame(box.pushed);
    if sid in Debts(s) { assert ThreadOk(l, s.hub, s.clock, s.threads[s.fetching.value]); }
  }

  /** The last frame of every registered ready stream is the current one, unless the one running fan-out
      still owes it that frame and it has the one before; so it is current whenever no fan-out runs. */
  lemma ReadyStreamsAreCurrent(l: Limits, schedule: seq<Action>, sid: Sid)
    requires Registered(Exec(l, schedule).hub, sid)
    ensures var s := Exec(l, schedule); var pushed := s.hub.boxes[sid].pushed;
      && pushed != [] && CurrentOrOwed(s, sid, pushed[|pushed| - 1])
      && (s.fetching.None? ==> pushed[|pushed| - 1] == Current(s.hub))
  {
    ExecKeepsInv(l, schedule);
    RegisteredIsCurrent(l, Exec(l, schedule), sid);
  }

  /** Whatever happened to it, a stream was given consecutive versions, each with the key of that
      version, and no version repeats the key of the one before. */
  lemma FramesComeOnceInOrder(l: Limits, schedule: seq<Action>, sid: Sid)
    requires sid in Exec(l, schedule).hub.boxes
    ensures var h := Exec(l, schedule).hub;
      && Consecutive(Versions(h.boxes[sid].pushed)) && FramesOk(h.boxes[sid].pushed, h.keys)
      && forall i :: 0 < i < |h.keys| ==> h.keys[i] != h.keys[i - 1]
  {
    ExecKeepsInv(l, schedule);
  }

  lemma NeverTooManyStreams(l: Limits, schedule: seq<Action>)
    ensures var h := Exec(l, schedule).hub; |h.streams| <= l.maxStreams && (h.closed ==> h.streams == {})
  {
    ExecKeepsInv(l, schedule);
  }

  /** Never two pollers, and one for as long as a ready stream is registered. */
  lemma ExactlyOnePollerIsLive(l: Limits, schedule: seq<Action>)
    ensures var s := Exec(l, schedule);
      && (forall a, b ::
           a in s.threads && b in s.threads && IsPoller(s.threads[a]) && IsPoller(s.threads[b]) ==> a == b)
      && ((exists sid :: sid in s.hub.streams && Registered(s.hub, sid))
         ==> exists tid :: tid in s.threads && IsPoller(s.threads[tid]))
  {
    ExecKeepsInv(l, schedule);
    var s := Exec(l, schedule);
    if sid :| sid in s.hub.streams && Registered(s.hub, sid) {
      assert s.hub.poller.value in s.threads && IsPoller(s.threads[s.hub.poller.value]);
    }
  }

  /** A thread about to deliver a first frame finds one, fetched less than a poll interval before it asked or later. */
  lemma FirstFrameIsRecent(l: Limits, schedule: seq<Action>, tid: Tid)
    requires var s := Exec(l, schedule); tid in s.threads && s.threads[tid].Delivering?
    ensures var s := Exec(l, schedule); var t := s.threads[tid];
      s.hub.keys != [] && (t.asked - s.hub.fetchedAt < l.pollSeconds || s.hub.fetchedAt >= t.asked)
  {
    ExecKeepsInv(l, schedule);
    var s := Exec(l, schedule);
    assert ThreadOk(l, s.hub, s.clock, s.threads[tid]);
  }

  /** When it delivers, that frame is the stream's first. */
  lemma FirstFrameIsCurrent(l: Limits, s: State, tid: Tid, c: Choice, now: Time, m: Move)
    requires Inv(l, s) && Moves(l, s, tid, c, now, m) && s.threads[tid].Delivering? && m.next.Opened?
    ensures var sid := s.threads[tid].sid;
      && s.hub.keys != [] && sid in s.hub.boxes && sid in m.hub.boxes && m.hub.boxes[sid].ready
      && Versions(s.hub.boxes[sid].pushed) == []
         && m.hub.boxes[sid].pushed == s.hub.boxes[sid].pushed + [Current(s.hub)]
  {
    assert ThreadOk(l, s.hub, s.clock, s.threads[tid]);
    assert BoxOk(s.hub.boxes[s.threads[tid].sid], s.hub.keys);
  }

  // ------------------------------------------------------------------ the handler's end

  /** What one wake-up takes from the mailbox: the last frame before a close, or the close. */
  function Drained(items: seq<Item>): Option<Item> {
    if items == [] then None else if Close in items then Some(Close) else Some(items[|items| - 1])
  }

  /** A burst is one frame, since every frame is the whole snapshot; nothing is read past a close. */
  method Drain(mailbox: seq<Item>) returns (item: Option<Item>, left: seq<Item>)
    ensures item == Drained(mailbox)
    ensures item != Some(Close) ==> left == []
  {
    item, left := None, mailbox;
    while left != []
      invariant |left| <= |mailbox| && left == mailbox[|mailbox| - |left|..]
      invariant Close !in mailbox[..|mailbox| - |left|] && item == Drained(mailbox[..|mailbox| - |left|])
      decreases |left|
    {
      var later := left[0];
      ghost var n := |mailbox| - |left|;
      assert mailbox[..n + 1] == mailbox[..n] + [later] && later == mailbox[n];
      left := left[1..];
      if later == Close {
        return Some(Close), left;
      }
      item := Some(later);
    }
    assert mailbox[..|mailbox|] == mailbox;
  }

  /** What a client has been written after wake-ups at these points of its mailbox. */
  function Written(pushed: seq<Item>, cuts: seq<nat>): seq<Item>
    requires forall i :: 0 <= i < |cuts| ==> cuts[i] <= |pushed|
    requires forall i, j :: 0 <= i < j < |cuts| ==> cuts[i] <= cuts[j]
  {
    if cuts == [] then []
    else
      var n := |cuts| - 1;
      var item := Drained(pushed[if n == 0 then 0 else cuts[n - 1]..cuts[n]]);
      Written(pushed, cuts[..n]) + if item.Some? then [item.value] else []
  }

  /** A client that is not closed has been written the last frame put in its mailbox before its last
      wake-up, however its wake-ups fell. */
  lemma {:induction false} ClientHasTheLatest(pushed: seq<Item>, cuts: seq<nat>)
    requires cuts != [] && cuts[|cuts| - 1] > 0
    requires forall i :: 0 <= i < |cuts| ==> cuts[i] <= |pushed|
    requires forall i, j :: 0 <= i < j < |cuts| ==> cuts[i] <= cuts[j]
    requires Close !in pushed
    ensures var w := Written(pushed, cuts); w != [] && w[|w| - 1] == pushed[cuts[|cuts| - 1] - 1]
  {
    var n := |cuts| - 1;
    var from := if n == 0 then 0 else cuts[n - 1];
    assert Close !in pushed[from..cuts[n]];
    if from == cuts[n] {
      assert pushed[from..cuts[n]] == [];
      ClientHasTheLatest(pushed, cuts[..n]);
    }
  }
}
