/**
 The hub follows the queue: what it holds, and what its streams were sent, read off the answers of the
 upstream polls of a run (src/admin_daemon.py, QueueStreamHub._refresh, _ensure_fresh and _poll_loop).
 */
module HubFollows {
  import opened Wrappers
  import opened StreamHub
  import opened StreamHubSafety

  // ------------------------------------------------------------------ the polls of a run

  /** Step k of the run is the end of an upstream poll. */
  predicate Polls(l: Limits, schedule: seq<Action>, k: nat) {
    && k < |schedule| && schedule[k].Step?
    && var s := Exec(l, schedule[..k]); schedule[k].tid in s.threads && s.threads[schedule[k].tid].Fetching?
  }

  /** It brought a snapshot. */
  predicate Answered(l: Limits, schedule: seq<Action>, k: nat) {
    Polls(l, schedule, k) && schedule[k].choice.reply.Some?
  }

  predicate Failed(l: Limits, schedule: seq<Action>, k: nat) {
    Polls(l, schedule, k) && schedule[k].choice.reply.None?
  }

  ghost predicate NoneAnsweredAfter(l: Limits, schedule: seq<Action>, k: int) {
    forall j: nat :: k < j < |schedule| ==> !Answered(l, schedule, j)
  }

  ghost predicate LatestAnswer(l: Limits, schedule: seq<Action>, k: nat) {
    Answered(l, schedule, k) && NoneAnsweredAfter(l, schedule, k)
  }

  /** The failed polls since the last snapshot. */
  ghost function FailuresInARow(l: Limits, schedule: seq<Action>): set<nat> {
    set k: nat | k < |schedule| && Failed(l, schedule, k) && NoneAnsweredAfter(l, schedule, k)
  }

  lemma PollsInPrefix(l: Limits, schedule: seq<Action>, k: nat)
    requires schedule != [] && k < |schedule| - 1
    ensures Polls(l, schedule, k) == Polls(l, schedule[..|schedule| - 1], k)
    ensures Answered(l, schedule, k) == Answered(l, schedule[..|schedule| - 1], k)
    ensures Failed(l, schedule, k) == Failed(l, schedule[..|schedule| - 1], k)
    ensures schedule[..|schedule| - 1][..k + 1] == schedule[..k + 1]
  {
    assert schedule[..|schedule| - 1][..k] == schedule[..k];
    assert schedule[..|schedule| - 1][k] == schedule[k];
  }

  lemma NoneAnsweredInPrefix(l: Limits, schedule: seq<Action>, k: int)
    requires schedule != [] && -1 <= k < |schedule| - 1
    ensures NoneAnsweredAfter(l, schedule, k) <==>
              NoneAnsweredAfter(l, schedule[..|schedule| - 1], k) && !Answered(l, schedule, |schedule| - 1)
  {
    var init := schedule[..|schedule| - 1];
    forall j: nat | j < |init| ensures Answered(l, schedule, j) == Answered(l, init, j) {
      PollsInPrefix(l, schedule, j);
    }
    if NoneAnsweredAfter(l, schedule, k) {
      forall j: nat | k < j < |init| ensures !Answered(l, init, j) { assert !Answered(l, schedule, j); }
    }
    if NoneAnsweredAfter(l, init, k) && !Answered(l, schedule, |init|) {
      forall j: nat | k < j < |schedule| ensures !Answered(l, schedule, j) {
        if j < |init| { assert !Answered(l, init, j); }
      }
    }
  }

  // ------------------------------------------------------------------ one action

  predicate EndsAPoll(s: State, a: Action) {
    a.Step? && a.tid in s.threads && s.threads[a.tid].Fetching?
  }

  /** The end of a poll: the snapshot it brought becomes the hub's, a failure is counted. */
  lemma PollMoves(l: Limits, s: State, a: Action)
    requires EndsAPoll(s, a)
    ensures var g := Act(l, s, a).hub;
      match a.choice.reply
      case None => g == s.hub.(failures := s.hub.failures + 1)
      case Some(key) => && g.keys != [] && g.keys[|g.keys| - 1] == key && g.failures == 0
                        && g.fetchedAt == Act(l, s, a).clock
  {
  }

  lemma OpeningLeavesTheKeys(l: Limits, s: State, t: Thread, c: Choice, now: Time)
    requires MoveOpen(l, s, t, c, now).Some?
    ensures var g := MoveOpen(l, s, t, c, now).value.hub;
      g.keys == s.hub.keys && g.fetchedAt == s.hub.fetchedAt && g.failures == s.hub.failures
  {
  }

  lemma PollerLeavesTheKeys(l: Limits, s: State, t: Thread)
    requires MovePoll(l, s, t).Some?
    ensures var g := MovePoll(l, s, t).value.hub;
      g.keys == s.hub.keys && g.fetchedAt == s.hub.fetchedAt && g.failures == s.hub.failures
  {
  }

  lemma OthersLeaveTheKeys(l: Limits, s: State, a: Action)
    requires !EndsAPoll(s, a)
    ensures var g := Act(l, s, a).hub;
      g.keys == s.hub.keys && g.fetchedAt == s.hub.fetchedAt && g.failures == s.hub.failures
  {
    if a.Step? && a.tid in s.threads {
      var t, now := s.threads[a.tid], Later(s, a.choice);
      if t.PollWait? || t.PollFailed? {
        if MovePoll(l, s, t).Some? { PollerLeavesTheKeys(l, s, t); }
      } else if !t.FetchWait? && !t.Pushing? {
        if MoveOpen(l, s, t, a.choice, now).Some? { OpeningLeavesTheKeys(l, s, t, a.choice, now); }
      }
    }
  }

  /** What the last action of a run does to the key the hub holds, its time and its count of failures. */
  lemma PollingStep(l: Limits, schedule: seq<Action>)
    requires schedule != []
    ensures var n := |schedule| - 1; var h, g := Exec(l, schedule[..n]).hub, Exec(l, schedule).hub;
      && (Answered(l, schedule, n) ==>
            && g.keys != [] && g.keys[|g.keys| - 1] == schedule[n].choice.reply.value
            && g.fetchedAt == Exec(l, schedule).clock && g.failures == 0)
      && (!Answered(l, schedule, n) ==> g.keys == h.keys && g.fetchedAt == h.fetchedAt)
      && (Failed(l, schedule, n) ==> g.failures == h.failures + 1)
      && (!Polls(l, schedule, n) ==> g.failures == h.failures)
  {
    var n := |schedule| - 1;
    var s, a := Exec(l, schedule[..n]), schedule[n];
    if EndsAPoll(s, a) { PollMoves(l, s, a); } else { OthersLeaveTheKeys(l, s, a); }
  }

  // ------------------------------------------------------------------ whole runs

  /** The key and the time of a snapshot are the hub's. */
  ghost predicate Holds(l: Limits, schedule: seq<Action>, k: nat)
    requires Answered(l, schedule, k)
  {
    var h := Exec(l, schedule).hub;
    && h.keys != [] && h.keys[|h.keys| - 1] == schedule[k].choice.reply.value
    && h.fetchedAt == Exec(l, schedule[..k + 1]).clock
  }

  /** In every run the hub holds the snapshot of the latest poll that brought one. */
  lemma {:induction false} TheHubHoldsTheLatestAnswer(l: Limits, schedule: seq<Action>, k: nat)
    requires LatestAnswer(l, schedule, k)
    ensures Holds(l, schedule, k)
  {
    var n := |schedule| - 1;
    PollingStep(l, schedule);
    if k == n {
      assert schedule[..k + 1] == schedule;
    } else {
      PollsInPrefix(l, schedule, k);
      NoneAnsweredInPrefix(l, schedule, k);
      TheHubHoldsTheLatestAnswer(l, schedule[..n], k);
      assert schedule[..n][k] == schedule[k];
    }
  }

  /** It holds one as soon as some poll brought one, and not before. */
  lemma {:induction false} AnswersFillTheHub(l: Limits, schedule: seq<Action>)
    ensures Exec(l, schedule).hub.keys != [] <==> exists k: nat :: LatestAnswer(l, schedule, k)
  {
    if schedule != [] {
      var n := |schedule| - 1;
      PollingStep(l, schedule);
      AnswersFillTheHub(l, schedule[..n]);
      if Answered(l, schedule, n) {
        assert LatestAnswer(l, schedule, n);
      } else if Exec(l, schedule).hub.keys != [] {
        var k: nat :| LatestAnswer(l, schedule[..n], k);
        PollsInPrefix(l, schedule, k);
        NoneAnsweredInPrefix(l, schedule, k);
        assert LatestAnswer(l, schedule, k);
      }
    }
    if k: nat :| LatestAnswer(l, schedule, k) { TheHubHoldsTheLatestAnswer(l, schedule, k); }
  }

  /** The counter is the number of polls that failed since the last one that did not. */
  lemma {:induction false} FailuresAreCounted(l: Limits, schedule: seq<Action>)
    ensures Exec(l, schedule).hub.failures == |FailuresInARow(l, schedule)|
  {
    if schedule == [] {
      assert FailuresInARow(l, schedule) == {};
    } else {
      var n := |schedule| - 1;
      PollingStep(l, schedule);
      FailuresAreCounted(l, schedule[..n]);
      RowGrows(l, schedule);
    }
  }

  lemma RowGrows(l: Limits, schedule: seq<Action>)
    requires schedule != []
    ensures var n := |schedule| - 1; var before := FailuresInARow(l, schedule[..n]);
      && n !in before
      && FailuresInARow(l, schedule) ==
           if Answered(l, schedule, n) then {} else if Failed(l, schedule, n) then before + {n} else before
  {
    var n := |schedule| - 1;
    forall k: nat | k < n
      ensures k in FailuresInARow(l, schedule) <==>
                k in FailuresInARow(l, schedule[..n]) && !Answered(l, schedule, n)
    {
      PollsInPrefix(l, schedule, k);
      NoneAnsweredInPrefix(l, schedule, k);
    }
    assert NoneAnsweredAfter(l, schedule, n);
  }

  // ------------------------------------------------------------------ what the streams were sent

  /** The last thing put in a mailbox carries this key, or the fan-out that is running will put that there. */
  ghost predicate Carries(s: State, sid: Sid, key: Key)
    requires sid in s.hub.boxes
  {
    var pushed := s.hub.boxes[sid].pushed;
    && pushed != []
    && ((pushed[|pushed| - 1].Frame? && pushed[|pushed| - 1].key == key)
        || exists version: nat :: Owes(s, sid, Frame(version, key)))
  }

  /** The last thing put in it carries this key, or is owed to it while a fan-out runs. */
  ghost predicate Follows(s: State, sid: Sid, key: Key)
    requires sid in s.hub.boxes
  {
    && Carries(s, sid, key)
    && (s.fetching.None? ==>
          var pushed := s.hub.boxes[sid].pushed; pushed[|pushed| - 1].Frame? && pushed[|pushed| - 1].key == key)
  }

  lemma CurrentFollows(s: State, sid: Sid)
    requires sid in s.hub.boxes && s.hub.boxes[sid].pushed != []
    requires CurrentOrOwed(s, sid, s.hub.boxes[sid].pushed[|s.hub.boxes[sid].pushed| - 1])
    ensures s.hub.keys != [] && Follows(s, sid, s.hub.keys[|s.hub.keys| - 1])
  {
    if s.hub.boxes[sid].pushed[|s.hub.boxes[sid].pushed| - 1] != Current(s.hub) {
      assert Owes(s, sid, Frame(|s.hub.keys|, s.hub.keys[|s.hub.keys| - 1]));
    }
  }

  lemma ReadyFollowsTheKey(l: Limits, schedule: seq<Action>, sid: Sid)
    requires Registered(Exec(l, schedule).hub, sid)
    ensures var s := Exec(l, schedule); s.hub.keys != [] && Follows(s, sid, s.hub.keys[|s.hub.keys| - 1])
  {
    ReadyStreamsAreCurrent(l, schedule, sid);
    CurrentFollows(Exec(l, schedule), sid);
  }

  /** In every run a registered ready stream was sent, last, the snapshot of the latest poll that brought
      one, or the running fan-out owes it that snapshot; with no fan-out running it was sent it. */
  lemma ReadyStreamsFollowTheQueue(l: Limits, schedule: seq<Action>, sid: Sid)
    requires Registered(Exec(l, schedule).hub, sid)
    ensures exists k: nat ::
              LatestAnswer(l, schedule, k) && Follows(Exec(l, schedule), sid, schedule[k].choice.reply.value)
  {
    ReadyFollowsTheKey(l, schedule, sid);
    AnswersFillTheHub(l, schedule);
    var k: nat :| LatestAnswer(l, schedule, k);
    TheHubHoldsTheLatestAnswer(l, schedule, k);
  }

  // ------------------------------------------------------------------ connecting

  /** A connect does without a poll of its own when the latest snapshot is younger than the poll interval,
      and only then. */
  lemma ConnectPollsUnlessRecent(l: Limits, schedule: seq<Action>, tid: Tid, c: Choice)
    requires var s := Exec(l, schedule); tid in s.threads && s.threads[tid].Checking?
    ensures var s := Exec(l, schedule); var t := Act(l, s, Step(tid, c));
      && t.hub == s.hub && (t.threads[tid].Delivering? || t.threads[tid].FetchWait?)
      && (t.threads[tid].Delivering? <==>
            exists k: nat :: LatestAnswer(l, schedule, k)
                             && t.clock - Exec(l, schedule[..k + 1]).clock < l.pollSeconds)
  {
    AnswersFillTheHub(l, schedule);
    forall k: nat | LatestAnswer(l, schedule, k) ensures Holds(l, schedule, k) {
      TheHubHoldsTheLatestAnswer(l, schedule, k);
    }
  }

  // ------------------------------------------------------------------ ending

  /** After a failed poll the poller ends every stream when that many polls failed in a row, and leaves the
      hub as it is otherwise. */
  lemma StreamsEndWhenUnreachable(l: Limits, schedule: seq<Action>, tid: Tid, c: Choice)
    requires var s := Exec(l, schedule); tid in s.threads && s.threads[tid].PollFailed?
    ensures var s := Exec(l, schedule); var t := Act(l, s, Step(tid, c));
      if |FailuresInARow(l, schedule)| >= l.failureLimit then
        && t.hub.streams == {} && t.hub.keys == s.hub.keys && t.hub.boxes.Keys == s.hub.boxes.Keys
        && forall sid :: sid in s.hub.boxes ==>
             t.hub.boxes[sid].pushed == s.hub.boxes[sid].pushed + if sid in s.hub.streams then [Close] else []
      else t.hub == s.hub
  {
    FailuresAreCounted(l, schedule);
  }

  /** A stream leaves the list when it is closed, when all are ended, when its own connect fails, or when
      too many polls failed in a row; nothing else takes it off. */
  lemma WhatTakesAStreamOff(l: Limits, schedule: seq<Action>, a: Action, sid: Sid)
    requires var s := Exec(l, schedule); sid in s.hub.streams && sid !in Act(l, s, a).hub.streams
    ensures var s := Exec(l, schedule);
      || a == CloseStream(sid) || a == EndStreams || a == Shutdown
      || (a.Step? && a.tid in s.threads && s.threads[a.tid] == Failing(sid))
      || (a.Step? && a.tid in s.threads && s.threads[a.tid].PollFailed?
          && |FailuresInARow(l, schedule)| >= l.failureLimit)
  {
    FailuresAreCounted(l, schedule);
  }
}
