/**
 The hub object: its lock sections as methods over the list of open streams, each doing what the machine's
 section does (src/admin_daemon.py, class QueueStreamHub).
 */
module StreamHubObject {
  import opened Wrappers
  import opened StreamHub
  import opened StreamHubSafety

  function Members(list: seq<Sid>): set<Sid> {
    set sid | sid in list
  }

  predicate Distinct(list: seq<Sid>) {
    forall i, j :: 0 <= i < j < |list| ==> list[i] != list[j]
  }

  lemma {:induction false} DistinctCounts(list: seq<Sid>)
    requires Distinct(list)
    ensures |Members(list)| == |list|
  {
    if list != [] {
      var init, last := list[..|list| - 1], list[|list| - 1];
      DistinctCounts(init);
      assert last !in init;
      assert Members(list) == Members(init) + {last};
    }
  }

  /** The last of these keys is this one. */
  predicate Held(keys: seq<Key>, key: Key) {
    keys != [] && keys[|keys| - 1] == key
  }

  /** This item went once to each ready stream of the list, and nothing else went anywhere. */
  ghost predicate GivenOnce(before: map<Sid, Box>, after: map<Sid, Box>, list: seq<Sid>, item: Item) {
    && after.Keys == before.Keys
    && forall sid :: sid in after ==>
         && after[sid].ready == before[sid].ready
         && after[sid].pushed == before[sid].pushed + if sid in list && before[sid].ready then [item] else []
  }

  /** It is the last thing each ready stream of the list was sent. */
  ghost predicate AllEndIn(boxes: map<Sid, Box>, list: seq<Sid>, item: Item) {
    forall sid :: sid in list && sid in boxes && boxes[sid].ready ==>
      boxes[sid].pushed != [] && boxes[sid].pushed[|boxes[sid].pushed| - 1] == item
  }

  class QueueStreamHub {
    const limits: Limits
    var streams: seq<Sid>
    var boxes: map<Sid, Box>
    var poller: Option<Tid>
    var closed: bool
    var keys: seq<Key>
    var fetchedAt: Time
    var failures: nat

    ghost function View(): Hub
      reads this
    {
      Hub(Members(streams), boxes, poller, closed, keys, fetchedAt, failures)
    }

    ghost predicate Valid()
      reads this
    {
      Distinct(streams) && forall sid :: sid in streams ==> sid in boxes
    }

    constructor (limits: Limits)
      ensures Valid() && this.limits == limits && View() == EMPTY_HUB
    {
      this.limits := limits;
      streams, boxes, poller, closed, keys, fetchedAt, failures := [], map[], None, false, [], 0, 0;
    }

    /** Puts one item in each of these mailboxes. */
    method FanOut(targets: seq<Sid>, item: Item)
      requires Distinct(targets) && forall sid :: sid in targets ==> sid in boxes
      modifies this`boxes
      ensures boxes == PushAll(old(boxes), Members(targets), item)
    {
      for i := 0 to |targets|
        invariant boxes.Keys == old(boxes).Keys
        invariant forall sid :: sid in boxes ==>
                    boxes[sid] == if sid in targets[..i]
                        then old(boxes)[sid].(pushed := old(boxes)[sid].pushed + [item]) else old(boxes)[sid]
      {
        assert targets[..i + 1] == targets[..i] + [targets[i]];
        boxes := Push(boxes, targets[i], item);
      }
      assert targets[..|targets|] == targets;
    }

    /** A slot, unless the hub is shut down or full. */
    method TakeSlot(sid: Sid) returns (ok: bool)
      requires Valid() && sid !in boxes
      modifies this`streams, this`boxes
      ensures Valid() && ok == !Refuses(old(View()), limits)
      ensures View() == if ok then Reserve(old(View()), sid) else old(View())
      ensures ok <==> !old(closed) && |old(streams)| < limits.maxStreams
      ensures streams == old(streams) + if ok then [sid] else []
      ensures ok ==> boxes == old(boxes)[sid := Box(false, [])]
    {
      DistinctCounts(streams);
      if closed || |streams| >= limits.maxStreams { return false; }
      assert Members(streams + [sid]) == Members(streams) + {sid};
      streams, boxes := streams + [sid], boxes[sid := Box(false, [])];
      return true;
    }

    /** Records a poll's snapshot; the ready streams when it changed. */
    method Record(key: Key, now: Time) returns (targets: seq<Sid>)
      requires Valid()
      modifies this`failures, this`keys, this`fetchedAt
      ensures Valid() && View() == Commit(old(View()), key, now)
      ensures Distinct(targets) && Members(targets) == Targets(old(View()), key)
      ensures keys == old(keys) + if Held(old(keys), key) then [] else [key]
      ensures forall sid :: sid in targets <==> !Held(old(keys), key) && sid in streams && boxes[sid].ready
      ensures failures == 0 && fetchedAt == now
    {
      var changed := keys == [] || keys[|keys| - 1] != key;
      failures, fetchedAt, targets := 0, now, [];
      if changed {
        keys := keys + [key];
        for i := 0 to |streams|
          invariant Distinct(targets) && forall sid :: sid in targets <==> sid in streams[..i] && boxes[sid].ready
        {
          assert streams[..i + 1] == streams[..i] + [streams[i]];
          if boxes[streams[i]].ready { targets := targets + [streams[i]]; }
        }
        assert streams[..|streams|] == streams;
      }
    }

    /** One upstream poll, uninterrupted: it leaves every ready stream at the hub's version. */
    method Refresh(reply: Option<Key>, now: Time) returns (ok: bool)
      requires Valid()
      modifies this
      ensures Valid() && ok == reply.Some?
      ensures reply.None? ==> View() == old(View()).(failures := old(failures) + 1)
      ensures reply.Some? ==> View() == Refreshed(old(View()), reply.value, now)
      ensures streams == old(streams) && poller == old(poller) && closed == old(closed)
      ensures reply.None? ==> boxes == old(boxes) && keys == old(keys) && fetchedAt == old(fetchedAt)
      ensures reply.Some? ==> Held(keys, reply.value) && failures == 0 && fetchedAt == now
      ensures reply.Some? && Held(old(keys), reply.value) ==> keys == old(keys) && boxes == old(boxes)
      ensures reply.Some? && !Held(old(keys), reply.value) ==>
                && keys == old(keys) + [reply.value]
                && GivenOnce(old(boxes), boxes, streams, Frame(|keys|, reply.value))
      ensures reply.Some? && CoreOk(limits, old(View()), {}) ==> AllEndIn(boxes, streams, Frame(|keys|, reply.value))
    {
      if reply.None? {
        failures := failures + 1;
        return false;
      }
      var targets := Record(reply.value, now);
      forall sid | sid in targets ensures sid in boxes { assert sid in Members(targets); }
      FanOut(targets, Frame(|keys|, keys[|keys| - 1]));
      RefreshSends(limits, old(View()), streams, reply.value, now);
      return true;
    }

    /** Queues the current frame as a stream's first and starts the poller if none is running. */
    method FirstFrame(sid: Sid, thread: Tid) returns (started: bool)
      requires Valid() && sid in boxes && keys != []
      modifies this`boxes, this`poller
      ensures Valid() && View() == Deliver(old(View()), sid, thread) && started == old(poller).None?
      ensures boxes == old(boxes)[sid := Box(true, old(boxes)[sid].pushed + [Frame(|keys|, keys[|keys| - 1])])]
      ensures poller == if old(poller).None? then Some(thread) else old(poller)
    {
      boxes := boxes[sid := Box(true, boxes[sid].pushed + [Frame(|keys|, keys[|keys| - 1])])];
      started := poller.None?;
      if started { poller := Some(thread); }
    }

    method CloseStream(sid: Sid)
      requires Valid()
      modifies this`streams
      ensures Valid() && View() == old(View()).(streams := old(View()).streams - {sid})
      ensures forall other :: other in streams <==> other in old(streams) && other != sid
    {
      for i := 0 to |streams|
        invariant streams == old(streams) && sid !in streams[..i]
      {
        if streams[i] == sid {
          var rest := streams[..i] + streams[i + 1..];
          assert Members(rest) == Members(streams) - {sid} && Distinct(rest);
          streams := rest;
          return;
        }
      }
    }

    method EndStreams()
      requires Valid()
      modifies this`streams, this`boxes
      ensures Valid() && View() == EndAll(old(View()))
      ensures streams == [] && boxes.Keys == old(boxes).Keys
      ensures forall sid :: sid in boxes ==> boxes[sid].pushed == old(boxes)[sid].pushed
                                                                      + if sid in old(streams) then [Close] else []
    {
      var ended := streams;
      streams := [];
      FanOut(ended, Close);
    }

    method Shutdown()
      requires Valid()
      modifies this`streams, this`boxes, this`closed
      ensures Valid() && View() == EndAll(old(View())).(closed := true)
    {
      closed := true;
      EndStreams();
    }

    /** The poller's check between two polls: it stops when the hub is shut down or nobody listens. */
    method PollOrStop() returns (stop: bool)
      requires Valid()
      modifies this`poller
      ensures Valid() && stop == (closed || View().streams == {})
      ensures View() == if stop then old(View()).(poller := None) else old(View())
    {
      stop := closed || streams == [];
      if stop {
        poller := None;
      } else if !closed {
        assert streams[0] in Members(streams);
      }
    }

    /** After a failed poll: the streams end once too many failed in a row. */
    method EndIfUnreachable()
      requires Valid()
      modifies this`streams, this`boxes
      ensures Valid() && View() == if failures >= limits.failureLimit then EndAll(old(View())) else old(View())
    {
      if failures >= limits.failureLimit { EndStreams(); }
    }
  }

  lemma PushOneThenAll(boxes: map<Sid, Box>, sids: set<Sid>, sid: Sid, item: Item)
    requires sid in sids && sid in boxes
    ensures PushAll(Push(boxes, sid, item), sids - {sid}, item) == PushAll(boxes, sids, item)
  {
  }

  /** A fan-out that pushes to every stream it owes leaves the hub owing nothing. */
  lemma {:induction false} FanOutPaysEveryDebt(l: Limits, h: Hub, debts: set<Sid>)
    requires CoreOk(l, h, debts) && h.keys != []
    ensures CoreOk(l, h.(boxes := PushAll(h.boxes, debts, Current(h))), {})
    decreases |debts|
  {
    if debts == {} {
      assert PushAll(h.boxes, debts, Current(h)) == h.boxes;
    } else {
      var sid :| sid in debts;
      PushKeeps(l, h, debts, sid);
      PushOneThenAll(h.boxes, debts, sid, Current(h));
      FanOutPaysEveryDebt(l, h.(boxes := Push(h.boxes, sid, Current(h))), debts - {sid});
    }
  }

  /** So a refresh that nothing interrupts leaves every registered ready stream at the hub's version. */
  lemma RefreshLevels(l: Limits, h: Hub, key: Key, now: Time)
    requires CoreOk(l, h, {})
    ensures CoreOk(l, Refreshed(h, key, now), {})
  {
    CommitKeeps(l, h, key, now);
    FanOutPaysEveryDebt(l, Commit(h, key, now), Targets(h, key));
  }

  /** The hub after a refresh that nothing interrupts. */
  function Refreshed(h: Hub, key: Key, now: Time): Hub {
    var g := Commit(h, key, now); g.(boxes := PushAll(h.boxes, Targets(h, key), Current(g)))
  }

  lemma UnchangedSendsNothing(h: Hub, key: Key, now: Time)
    requires Held(h.keys, key)
    ensures Refreshed(h, key, now).keys == h.keys && Refreshed(h, key, now).boxes == h.boxes
  {
    var g := Refreshed(h, key, now);
    assert Targets(h, key) == {};
    assert PushAll(h.boxes, {}, Current(g)) == h.boxes;
  }

  lemma ChangedSendsOnce(h: Hub, list: seq<Sid>, key: Key, now: Time)
    requires h.streams == Members(list) && !Held(h.keys, key)
    ensures var g := Refreshed(h, key, now);
      g.keys == h.keys + [key] && GivenOnce(h.boxes, g.boxes, list, Frame(|g.keys|, key))
  {
    forall sid ensures sid in Targets(h, key) <==> sid in list && sid in h.boxes && h.boxes[sid].ready {}
  }

  lemma AllEndInIt(l: Limits, h: Hub, list: seq<Sid>, key: Key, now: Time)
    requires h.streams == Members(list) && CoreOk(l, h, {})
    ensures var g := Refreshed(h, key, now); g.keys != [] && AllEndIn(g.boxes, list, Current(g))
  {
    RefreshLevels(l, h, key, now);
    LevelEndsIn(l, Refreshed(h, key, now), list);
  }

  /** What that refresh put in the mailboxes. */
  lemma RefreshSends(l: Limits, h: Hub, list: seq<Sid>, key: Key, now: Time)
    requires h.streams == Members(list)
    ensures var g := Refreshed(h, key, now);
      && Held(g.keys, key)
      && (Held(h.keys, key) ==> g.keys == h.keys && g.boxes == h.boxes)
      && (!Held(h.keys, key) ==>
            g.keys == h.keys + [key] && GivenOnce(h.boxes, g.boxes, list, Frame(|g.keys|, key)))
      && (CoreOk(l, h, {}) ==> AllEndIn(g.boxes, list, Frame(|g.keys|, key)))
  {
    if Held(h.keys, key) { UnchangedSendsNothing(h, key, now); } else { ChangedSendsOnce(h, list, key, now); }
    if CoreOk(l, h, {}) { AllEndInIt(l, h, list, key, now); }
  }

  /** A ready stream at the hub's version was last sent the hub's frame. */
  lemma LevelEndsIn(l: Limits, h: Hub, list: seq<Sid>)
    requires CoreOk(l, h, {}) && h.keys != [] && h.streams == Members(list)
    ensures AllEndIn(h.boxes, list, Current(h))
  {
    forall sid | sid in list && sid in h.boxes && h.boxes[sid].ready
      ensures h.boxes[sid].pushed != [] && h.boxes[sid].pushed[|h.boxes[sid].pushed| - 1] == Current(h)
    {
      assert sid in h.streams;
      LastIsTheFrame(l, h, sid);
    }
  }

  lemma LastIsTheFrame(l: Limits, h: Hub, sid: Sid)
    requires CoreOk(l, h, {}) && h.keys != [] && sid in h.streams && sid in h.boxes && h.boxes[sid].ready
    ensures h.boxes[sid].pushed != [] && h.boxes[sid].pushed[|h.boxes[sid].pushed| - 1] == Current(h)
  {
    var pushed := h.boxes[sid].pushed;
    LastIsAFrame(pushed);
    assert FrameOk(pushed[|pushed| - 1], h.keys);
  }
}
