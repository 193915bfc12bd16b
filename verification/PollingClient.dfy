/**
 The client end of the approval protocol: `request-egress` files one destination, then polls the row its
 filing landed on (src/egress_request.py, src/egress_broker.py).
 */
module PollingClient {
  import opened Wrappers
  import opened RequestStore
  import opened DenyZones
  import opened Protocol
  import opened ProtocolInvariant
  import opened ProtocolSafety
  import opened Subprocess

  /** What one poll gets back. */
  datatype Reply =
    | HttpError(code: int)
    | Unreachable
    | InvalidJson
    | View(isOpen: bool, body: Option<Body>, lastError: Option<LastError>)

  /** What polling ends with: the row's decision body, or an error of the client's own. */
  datatype Final = Told(body: Body) | Failed(fault: Fault)

  datatype Fault = HttpStatus(code: int) | Because(reason: string)

  datatype HostResult = HostAllowed(scope: string) | HostDenied(detail: string) | HostError(fault: Fault) | HostPending

  function OutcomeName(outcome: ApplyOutcome): string {
    match outcome case Applied => "applied" case ApplyFailed => "apply_failed" case IpRequiresCidr => "ip_requires_cidr"
  }

  /** What a reply tells a client whose filing returned this baseline, or None to keep polling. */
  function Conclude(reply: Reply, baseline: nat): Option<Final> {
    match reply
    case HttpError(code) => Some(Failed(HttpStatus(code)))
    case Unreachable => None
    case InvalidJson => Some(Failed(Because("invalid_json")))
    case View(isOpen, body, lastError) =>
      if !isOpen then (if body.Some? then Some(Told(body.value)) else Some(Failed(Because("invalid_status"))))
      else if lastError.Some? && lastError.value.attempt > baseline then
        Some(Failed(Because(OutcomeName(lastError.value.outcome))))
      else None
  }

  /** A reply to poll past: nothing came back, or an open row without an apply error newer than the filing. */
  predicate KeepsWaiting(reply: Reply, baseline: nat) {
    || reply.Unreachable?
    || (reply.View? && reply.isOpen && (reply.lastError.None? || reply.lastError.value.attempt <= baseline))
  }

  /** What the client is told when this reply ends the polling, for each kind of reply. */
  predicate Settles(reply: Reply, baseline: nat, final: Final) {
    && !reply.Unreachable?
    && (reply.HttpError? ==> final == Failed(HttpStatus(reply.code)))
    && (reply.InvalidJson? ==> final == Failed(Because("invalid_json")))
    && (reply.View? && !reply.isOpen && reply.body.Some? ==> final == Told(reply.body.value))
    && (reply.View? && !reply.isOpen && reply.body.None? ==> final == Failed(Because("invalid_status")))
    && (reply.View? && reply.isOpen ==>
          reply.lastError.Some? && reply.lastError.value.attempt > baseline
          && final == Failed(Because(OutcomeName(reply.lastError.value.outcome))))
  }

  lemma ConcludeByKind(reply: Reply, baseline: nat)
    ensures Conclude(reply, baseline).None? <==> KeepsWaiting(reply, baseline)
    ensures Conclude(reply, baseline).Some? ==> Settles(reply, baseline, Conclude(reply, baseline).value)
  {
  }

  /** The first reply that concludes. */
  function FirstConclusion(replies: seq<Reply>, baseline: nat): Option<Final> {
    if replies == [] then None
    else
      match FirstConclusion(replies[..|replies| - 1], baseline)
      case Some(f) => Some(f)
      case None => Conclude(replies[|replies| - 1], baseline)
  }

  // ------------------------------------------------------------------ the polling loop

  function Min(a: int, b: int): int { if a < b then a else b }

  function Max(a: int, b: int): int { if a < b then b else a }

  /** A clock's readings, in ticks: `test(i)` at the i-th loop test, `beforeSleep(i)` where the i-th sleep is set. */
  datatype Clock = Clock(test: nat -> int, beforeSleep: nat -> int)

  /** It never runs backwards, and a sleep advances it at least by its length. */
  ghost predicate SleepAdvances(c: Clock, deadline: int, interval: int) {
    forall i: nat {:trigger c.beforeSleep(i)} ::
      c.test(i) <= c.beforeSleep(i)
          && c.beforeSleep(i) + Min(interval, Max(0, deadline - c.beforeSleep(i))) <= c.test(i + 1)
  }

  /** The replies to the first n polls. */
  function Replies(answer: nat -> Reply, n: nat): seq<Reply> {
    if n == 0 then [] else Replies(answer, n - 1) + [answer(n - 1)]
  }

  lemma OneMoreReply(answer: nat -> Reply, n: nat, baseline: nat)
    ensures var before := FirstConclusion(Replies(answer, n), baseline);
      FirstConclusion(Replies(answer, n + 1), baseline) == if before.Some? then before
          else Conclude(answer(n), baseline)
  {
    assert Replies(answer, n + 1)[..|Replies(answer, n + 1)| - 1] == Replies(answer, n);
  }

  /** Unless the deadline has passed, a sleep lasts an interval. */
  lemma SleptAnInterval(c: Clock, deadline: int, interval: int, i: nat)
    requires interval > 0 && SleepAdvances(c, deadline, interval) && c.test(i) < deadline
    ensures c.test(i) < c.test(i + 1) && (c.test(i + 1) < deadline ==> c.test(i) + interval <= c.test(i + 1))
  {
    assert c.test(i) <= c.beforeSleep(i);
  }

  /** The time n whole poll intervals take. */
  function Intervals(n: nat, interval: int): int {
    if n == 0 then 0 else Intervals(n - 1, interval) + interval
  }

  /** The n-th test comes n intervals after the first one, as long as the deadline has not passed. */
  ghost predicate OnTime(c: Clock, deadline: int, interval: int, n: nat) {
    && (c.test(n) < deadline ==> c.test(0) + Intervals(n, interval) <= c.test(n))
    && (n > 0 ==> Intervals(n - 1, interval) < deadline - c.test(0))
  }

  lemma OnePollMore(c: Clock, deadline: int, interval: int, n: nat)
    requires interval > 0 && SleepAdvances(c, deadline, interval) && c.test(n) < deadline
    requires OnTime(c, deadline, interval, n)
    ensures OnTime(c, deadline, interval, n + 1) && c.test(n) < c.test(n + 1)
  {
    SleptAnInterval(c, deadline, interval, n);
  }

  /** The i-th answer is the first that is not polled past. */
  ghost predicate NewsAt(answer: nat -> Reply, baseline: nat, i: nat) {
    !KeepsWaiting(answer(i), baseline) && forall j: nat :: j < i ==> KeepsWaiting(answer(j), baseline)
  }

  /** The first n answers are all polled past. */
  ghost predicate PolledPast(answer: nat -> Reply, baseline: nat, n: nat) {
    forall i: nat :: i < n ==> KeepsWaiting(answer(i), baseline)
  }

  /** Whenever polling reaches news before the deadline, it stops right there. */
  ghost predicate StopsAtNews(answer: nat -> Reply, clock: Clock, baseline: nat, deadline: int, polls: nat) {
    forall i: nat :: NewsAt(answer, baseline, i) && clock.test(i) < deadline ==> polls == i + 1
  }

  lemma {:induction false} ClockGoesOn(c: Clock, deadline: int, interval: int, i: nat, j: nat)
    requires interval > 0 && SleepAdvances(c, deadline, interval) && i <= j
    ensures c.test(i) <= c.test(j)
  {
    if i < j {
      ClockGoesOn(c, deadline, interval, i, j - 1);
      assert c.test(j - 1) <= c.beforeSleep(j - 1);
    }
  }

  /** Polling that ended on news, or at the deadline, missed none and asked for none after it. */
  lemma FirstNewsIsLast(answer: nat -> Reply, clock: Clock, baseline: nat, deadline: int, interval: int, polls: nat,
                        ended: bool)
    requires interval > 0 && SleepAdvances(clock, deadline, interval)
    requires if ended then polls > 0 && PolledPast(answer, baseline, polls - 1)
      && !KeepsWaiting(answer(polls - 1), baseline)
             else PolledPast(answer, baseline, polls) && clock.test(polls) >= deadline
    ensures StopsAtNews(answer, clock, baseline, deadline, polls)
  {
    forall i: nat | NewsAt(answer, baseline, i) && clock.test(i) < deadline ensures polls == i + 1 {
      if i >= polls { ClockGoesOn(clock, deadline, interval, polls, i); }
    }
  }

  /** Polls until a reply concludes or the deadline passes; the answers are the i-th GET's.  It asks at most
      once more than the whole poll intervals that fit before the deadline. */
  method PollDecision(token: string, answer: nat -> Reply, clock: Clock, baseline: nat, deadline: int, interval: int)
      returns (final: Option<Final>, polls: nat)
    requires interval > 0 && SleepAdvances(clock, deadline, interval)
    ensures token == "" ==> final == Some(Failed(Because("missing_broker_token"))) && polls == 0
    ensures token != "" ==> final == FirstConclusion(Replies(answer, polls), baseline)
    ensures token != "" && final.Some? ==> polls > 0 && Settles(answer(polls - 1), baseline, final.value)
    ensures PolledPast(answer, baseline, if final.None? || polls == 0 then polls else polls - 1)
    ensures final.None? ==> clock.test(polls) >= deadline
    ensures polls > 0 ==> clock.test(polls - 1) < deadline
    ensures token != "" ==> StopsAtNews(answer, clock, baseline, deadline, polls)
    ensures polls > 0 ==> Intervals(polls - 1, interval) < deadline - clock.test(0)
  {
    final, polls := None, 0;
    if token == "" {
      return Some(Failed(Because("missing_broker_token"))), 0;
    }
    while clock.test(polls) < deadline
      invariant final == None && FirstConclusion(Replies(answer, polls), baseline) == None
      invariant OnTime(clock, deadline, interval, polls)
      invariant PolledPast(answer, baseline, polls)
      invariant polls > 0 ==> clock.test(polls - 1) < deadline
      decreases deadline - clock.test(polls)
    {
      OneMoreReply(answer, polls, baseline);
      OnePollMore(clock, deadline, interval, polls);
      ConcludeByKind(answer(polls), baseline);
      final := Conclude(answer(polls), baseline);
      polls := polls + 1;
      if final.Some? {
        FirstNewsIsLast(answer, clock, baseline, deadline, interval, polls, true);
        return;
      }
    }
    FirstNewsIsLast(answer, clock, baseline, deadline, interval, polls, false);
  }

  // ------------------------------------------------------------------ one request, end to end

  function MapBody(body: Body): HostResult {
    match body
    case AllowBody(scope) => HostAllowed(scope)
    case DenyBody(reason, zone, scope) =>
      HostDenied(if reason == Some("denylist")
                 then "denylist: zone=" + (if zone.Some? then zone.value else "")
                      + " scope=" + (if scope.Some? then scope.value else "")
                 else "")
  }

  function MapFinal(final: Option<Final>): HostResult {
    match final
    case None => HostPending
    case Some(Told(body)) => MapBody(body)
    case Some(Failed(fault)) => HostError(fault)
  }

  /** request_host: an immediate decision is mapped at once, a pending answer is polled to its end. */
  function RequestHost(filed: Answer, replies: seq<Reply>): HostResult {
    match filed
    case Decided(body, _) => MapBody(body)
    case Pending(id, attempt, _) =>
      if id == "" then HostError(Because("pending body without request_id"))
          else MapFinal(FirstConclusion(replies, attempt))
    case _ => HostError(Because("refused"))
  }

  // ------------------------------------------------------------------ what the answers mean

  /** What a poll of this row sees in a state; None when the row is missing or another bottle's. */
  function ViewOf(s: State, id: Id, container: string): Reply {
    if id in s.store.rows && s.store.rows[id].filing.container == container then
      RowView(s.store.rows[id])
    else HttpError(404)
  }

  /** A poll that fails on the way tells nothing about the row. */
  predicate Noise(r: Reply) {
    r.Unreachable? || r.InvalidJson? || r.HttpError?
  }

  /** The replies to polls made at these points of a run, in which any may be lost on the way. */
  ghost predicate PollsOf(s: State, schedule: seq<Action>, at: seq<nat>, id: Id, container: string, replies: seq<Reply>)
    requires Inv(s)
  {
    && |at| == |replies|
    && forall i :: 0 <= i < |at| ==>
         at[i] <= |schedule|
         && (Noise(replies[i]) || replies[i] == ViewOf(Exec(s, schedule[..at[i]]), id, container))
  }

  lemma {:induction false} ConclusionIsSome(replies: seq<Reply>, baseline: nat)
    requires FirstConclusion(replies, baseline).Some?
    ensures exists i :: 0 <= i < |replies| && Conclude(replies[i], baseline) == FirstConclusion(replies, baseline)
  {
    var n := |replies| - 1;
    if FirstConclusion(replies[..n], baseline).Some? {
      ConclusionIsSome(replies[..n], baseline);
      var i :| 0 <= i < n && Conclude(replies[..n][i], baseline) == FirstConclusion(replies[..n], baseline);
      assert replies[i] == replies[..n][i];
    } else {
      assert Conclude(replies[n], baseline) == FirstConclusion(replies, baseline);
    }
  }

  /** The thread is about to record its filing: a hit on its row, or a new row. */
  predicate AboutToRecord(s: State, tid: Tid) {
    tid in s.threads && (s.threads[tid].FileHit? || s.threads[tid].FileInsert?)
  }

  ghost function Recorded(s: State, tid: Tid, c: Choice): (t: State)
    requires Inv(s) && AboutToRecord(s, tid)
    ensures Inv(t) && tid in t.threads
  {
    ActKeepsInv(s, Step(tid, c));
    Act(s, Step(tid, c))
  }

  /** What the filing answers once it is recorded; a new row is only notified first. */
  function FiledAnswer(t: Thread): Answer {
    if t.FileNotify? || t.Done? then t.answer else Refused
  }

  /** The baseline a pending filing returns is the number of attempts completed when it was recorded. */
  lemma FilingReturnsTheBaseline(s: State, tid: Tid, c: Choice)
    requires Inv(s) && AboutToRecord(s, tid)
    ensures var t := Recorded(s, tid, c); var a := FiledAnswer(t.threads[tid]);
      a.Pending? ==> IsOpen(t.store, a.id) && t.store.rows[a.id].applyAttempts == a.attempt
  {
    assert ThreadOk(s, s.threads[tid]);
  }

  ghost predicate ErrorLogged(events: seq<Event>, id: Id, from: nat, e: LastError) {
    exists j :: from <= j < |events| && events[j].request == id && events[j].kind == ApplyError(e.outcome, e.attempt)
  }

  predicate HasError(s: Store, id: Id) {
    id in s.rows && s.rows[id].lastError.Some?
  }

  lemma ErrorIsOldOrLogged(s: Store, op: Op, id: Id)
    requires UniqueOpen(s) && HasError(Perform(s, op), id)
    ensures var t := Perform(s, op);
            || (HasError(s, id) && s.rows[id].lastError == t.rows[id].lastError)
            || (t.events[..|s.events|] == s.events && ErrorLogged(t.events, id, |s.events|, t.rows[id].lastError.value))
  {
    var t := Perform(s, op);
    PerformWrites(s, op);
    if !(HasError(s, id) && s.rows[id].lastError == t.rows[id].lastError) {
      assert op.DoApply? && op.id == id;
      assert t.events[|s.events|].kind
          == ApplyError(t.rows[id].lastError.value.outcome, t.rows[id].lastError.value.attempt);
    }
  }

  lemma ActErrorIsOldOrLogged(s: State, a: Action, id: Id)
    requires Inv(s) && HasError(Act(s, a).store, id)
    ensures var t := Act(s, a).store;
            || (HasError(s.store, id) && s.store.rows[id].lastError == t.rows[id].lastError)
            || ErrorLogged(t.events, id, |s.store.events|, t.rows[id].lastError.value)
  {
    if a.Step? && a.tid in s.threads && MoveOf(s, s.threads[a.tid], a.choice).Some? {
      var m := MoveOf(s, s.threads[a.tid], a.choice).value;
      if m.op.Some? { ErrorIsOldOrLogged(s.store, m.op.value, id); }
    }
  }

  lemma ErrorLoggedLater(before: seq<Event>, after: seq<Event>, id: Id, from: nat, start: nat, e: LastError)
    requires before <= after && start <= from && (ErrorLogged(before, id, start, e) || ErrorLogged(after, id, from, e))
    ensures ErrorLogged(after, id, start, e)
  {
    if ErrorLogged(before, id, start, e) {
      var j :| start <= j < |before| && before[j].request == id && before[j].kind == ApplyError(e.outcome, e.attempt);
      assert after[j] == before[j];
    } else {
      var j :| from <= j < |after| && after[j].request == id && after[j].kind == ApplyError(e.outcome, e.attempt);
    }
  }

  /** An error numbered beyond a filing's baseline was logged after that filing. */
  lemma {:induction false} NewErrorIsLoggedLater(s: State, schedule: seq<Action>, id: Id, baseline: nat)
    requires Inv(s) && id in s.store.rows && s.store.rows[id].applyAttempts == baseline
    requires var t := Exec(s, schedule).store; HasError(t, id) && t.rows[id].lastError.value.attempt > baseline
    ensures var t := Exec(s, schedule).store; ErrorLogged(t.events, id, |s.store.events|, t.rows[id].lastError.value)
  {
    if schedule != [] {
      var n := |schedule| - 1;
      var before, after := Exec(s, schedule[..n]).store, Exec(s, schedule).store;
      ActErrorIsOldOrLogged(Exec(s, schedule[..n]), schedule[n], id);
      ActExtends(Exec(s, schedule[..n]), schedule[n]);
      DecisionsAreFinal(s, schedule[..n]);
      if HasError(before, id) && before.rows[id].lastError == after.rows[id].lastError {
        NewErrorIsLoggedLater(s, schedule[..n], id, baseline);
      }
      ErrorLoggedLater(before.events, after.events, id, |before.events|, |s.store.events|,
          after.rows[id].lastError.value);
    }
  }

  /** An attempt failed this way after the first `from` events. */
  ghost predicate FailedSince(events: seq<Event>, id: Id, from: nat, reason: string) {
    exists j :: from <= j < |events| && events[j].request == id && events[j].kind.ApplyError?
        && OutcomeName(events[j].kind.outcome) == reason
  }

  /** What a client may be told about a row: its final decision, or an apply that failed since it filed. */
  ghost predicate Honest(s: Store, t: Store, id: Id, c: Final) {
    match c
    case Told(body) => id in t.rows && t.rows[id].decisionBody == Some(body)
    case Failed(HttpStatus(_)) => true
    case Failed(Because(reason)) => reason == "invalid_json" || FailedSince(t.events, id, |s.events|, reason)
  }

  function RowView(row: Row): Reply {
    View(row.status == Open, row.decisionBody, row.lastError)
  }

  lemma RowViewIsHonest(s: Store, t: Store, id: Id, baseline: nat)
    requires id in t.rows && RowOk(t.rows[id])
    requires HasError(t, id) && t.rows[id].lastError.value.attempt > baseline
      ==> ErrorLogged(t.events, id, |s.events|, t.rows[id].lastError.value)
    ensures var c := Conclude(RowView(t.rows[id]), baseline); c.Some? ==> Honest(s, t, id, c.value)
  {
    if HasError(t, id) && t.rows[id].lastError.value.attempt > baseline {
      var e := t.rows[id].lastError.value;
      var j :| |s.events| <= j < |t.events| && t.events[j].request == id
          && t.events[j].kind == ApplyError(e.outcome, e.attempt);
      assert FailedSince(t.events, id, |s.events|, OutcomeName(e.outcome));
    }
  }

  lemma NewErrorsAreLogged(s: State, schedule: seq<Action>, id: Id, baseline: nat)
    requires Inv(s) && id in s.store.rows && s.store.rows[id].applyAttempts == baseline
    ensures var t := Exec(s, schedule).store;
      HasError(t, id) && t.rows[id].lastError.value.attempt > baseline ==>
        ErrorLogged(t.events, id, |s.store.events|, t.rows[id].lastError.value)
  {
    var t := Exec(s, schedule).store;
    if HasError(t, id) && t.rows[id].lastError.value.attempt > baseline {
      NewErrorIsLoggedLater(s, schedule, id, baseline);
    }
  }

  lemma RowStaysOk(s: State, schedule: seq<Action>, id: Id)
    requires Inv(s) && id in s.store.rows
    ensures id in Exec(s, schedule).store.rows && RowOk(Exec(s, schedule).store.rows[id])
  {
    DecisionsAreFinal(s, schedule);
  }

  lemma ViewIsHonest(s: State, schedule: seq<Action>, id: Id, container: string, baseline: nat)
    requires Inv(s) && id in s.store.rows && s.store.rows[id].applyAttempts == baseline
    ensures var c := Conclude(ViewOf(Exec(s, schedule), id, container), baseline);
            c.Some? ==> Honest(s.store, Exec(s, schedule).store, id, c.value)
  {
    RowStaysOk(s, schedule, id);
    NewErrorsAreLogged(s, schedule, id, baseline);
    RowViewIsHonest(s.store, Exec(s, schedule).store, id, baseline);
  }

  /** What was honest at one point of a run stays so: decisions are final and the log only grows. */
  lemma HonestLater(s: Store, t: Store, u: Store, id: Id, c: Final)
    requires Honest(s, t, id, c) && Extends(t, u) && RowsOk(t)
    ensures Honest(s, u, id, c)
  {
    match c
    case Told(body) => assert RowOk(t.rows[id]) && RowExtends(t.rows[id], u.rows[id]);
    case Failed(HttpStatus(_)) =>
    case Failed(Because(reason)) =>
      if reason != "invalid_json" {
        var j :| |s.events| <= j < |t.events| && t.events[j].request == id && t.events[j].kind.ApplyError?
            && OutcomeName(t.events[j].kind.outcome) == reason;
        assert u.events[j] == t.events[j];
      }
  }

  lemma PrefixExtends(s: State, run: seq<Action>, schedule: seq<Action>)
    requires Inv(s) && run <= schedule
    ensures Extends(Exec(s, run).store, Exec(s, schedule).store)
  {
    var rest := schedule[|run|..];
    assert run + rest == schedule;
    ExecConcat(s, run, rest);
    DecisionsAreFinal(Exec(s, run), rest);
  }

  lemma PollIsHonest(s: State, schedule: seq<Action>, at: nat, id: Id, container: string, baseline: nat)
    requires Inv(s) && id in s.store.rows && s.store.rows[id].applyAttempts == baseline && at <= |schedule|
    ensures var c := Conclude(ViewOf(Exec(s, schedule[..at]), id, container), baseline);
            c.Some? ==> Honest(s.store, Exec(s, schedule).store, id, c.value)
  {
    ViewIsHonest(s, schedule[..at], id, container, baseline);
    PrefixExtends(s, schedule[..at], schedule);
    var mid := Exec(s, schedule[..at]);
    var c := Conclude(ViewOf(mid, id, container), baseline);
    if c.Some? { HonestLater(s.store, mid.store, Exec(s, schedule).store, id, c.value); }
  }

  /** What a result claims about the row, given the store when the filing was recorded and the store now. */
  ghost predicate Justified(s: Store, t: Store, id: Id, r: HostResult) {
    && (r.HostAllowed? ==> id in t.rows && t.rows[id].status == Allowed && AppliedThenAllowed(t.events, id))
    && (r.HostDenied? ==> id in t.rows && (t.rows[id].status == Denied || t.rows[id].status == Stale))
    && (r.HostError? && r.fault.Because? && r.fault.reason != "invalid_json"
        && r.fault.reason != "pending body without request_id" ==>
          FailedSince(t.events, id, |s.events|, r.fault.reason))
  }

  lemma HonestIsJustified(s: Store, t: Store, id: Id, c: Final)
    requires Honest(s, t, id, c) && RowsOk(t) && DecisionsOk(t)
    requires id in t.rows && t.rows[id].status == Allowed ==> AppliedThenAllowed(t.events, id)
    ensures Justified(s, t, id, MapFinal(Some(c)))
  {
    if c.Told? { assert DecisionOk(t.rows[id]) && RowOk(t.rows[id]); }
  }

  lemma ConclusionIsHonest(s: State, schedule: seq<Action>, id: Id, baseline: nat, at: seq<nat>, container: string,
                           replies: seq<Reply>)
    requires Inv(s) && id in s.store.rows && s.store.rows[id].applyAttempts == baseline
    requires PollsOf(s, schedule, at, id, container, replies)
    ensures var c := FirstConclusion(replies, baseline);
      c.Some? ==> Honest(s.store, Exec(s, schedule).store, id, c.value)
  {
    if FirstConclusion(replies, baseline).Some? {
      ConclusionIsSome(replies, baseline);
      var i :| 0 <= i < |replies| && Conclude(replies[i], baseline) == FirstConclusion(replies, baseline);
      if !Noise(replies[i]) { PollIsHonest(s, schedule, at[i], id, container, baseline); }
    }
  }

  lemma PendingIsJustified(s: State, schedule: seq<Action>, filed: Answer, at: seq<nat>, container: string,
                           replies: seq<Reply>)
    requires Inv(s) && filed.Pending? && filed.id in s.store.rows
    requires s.store.rows[filed.id].applyAttempts == filed.attempt
    requires PollsOf(s, schedule, at, filed.id, container, replies)
    ensures Justified(s.store, Exec(s, schedule).store, filed.id, RequestHost(filed, replies))
  {
    var t := Exec(s, schedule).store;
    var c := FirstConclusion(replies, filed.attempt);
    ConclusionIsHonest(s, schedule, filed.id, filed.attempt, at, container, replies);
    if filed.id in t.rows && t.rows[filed.id].status == Allowed { AllowedMeansApplied(s, schedule, filed.id); }
    if c.Some? { HonestIsJustified(s.store, t, filed.id, c.value); }
  }

  /** The run from a restart to the step that records the filing, that step, and what follows it. */
  function Story(past: seq<Action>, tid: Tid, c: Choice, schedule: seq<Action>): seq<Action> {
    past + [Step(tid, c)] + schedule
  }

  lemma StoryLeadsOn(s: State, past: seq<Action>, tid: Tid, c: Choice, schedule: seq<Action>)
    requires Inv(s) && AboutToRecord(Exec(s, past), tid)
    ensures Exec(s, Story(past, tid, c, schedule)) == Exec(Recorded(Exec(s, past), tid, c), schedule)
    ensures Exec(s, Story(past, tid, c, schedule)[..|past| + 1]) == Recorded(Exec(s, past), tid, c)
  {
    var first := past + [Step(tid, c)];
    assert first[..|past|] == past && Story(past, tid, c, schedule)[..|past| + 1] == first;
    ExecConcat(s, first, schedule);
  }

  /** A call whose subprocess failed, after this step of the run, logged so. */
  ghost predicate FailureBacked(s: State, schedule: seq<Action>, from: nat, id: Id)
    requires Inv(s)
  {
    exists j: nat, k: nat :: from <= j && BackedAt(s, schedule, j, k, id, false)
  }

  /** An apply failure logged after a point of the run is backed by a later step. */
  lemma FailedSinceIsBacked(s: State, schedule: seq<Action>, from: nat, id: Id)
    requires Inv(s) && s.threads == map[] && from <= |schedule|
    requires FailedSince(Exec(s, schedule).store.events, id, |Exec(s, schedule[..from]).store.events|, "apply_failed")
    ensures FailureBacked(s, schedule, from, id)
  {
    var t := Exec(s, schedule).store;
    var n := FailureEvent(t.events, id, |Exec(s, schedule[..from]).store.events|);
    EventsGrow(s, schedule, from);
    DecisionsAreFinal(s, schedule[..from]);
    RunReportsAreBacked(s, schedule, n);
    var j: nat, k: nat :| j < |schedule| && AppendsAt(s, schedule, j, n)
                          && BackedAt(s, schedule, j, k, id, false);
    AppendsAfter(s, schedule, from, j, n);
  }

  lemma FailureEvent(events: seq<Event>, id: Id, from: nat) returns (n: nat)
    requires FailedSince(events, id, from, "apply_failed")
    ensures from <= n < |events| && events[n].request == id && Reported(events[n].kind) == Some(false)
  {
    n :| from <= n < |events| && events[n].request == id && events[n].kind.ApplyError?
         && OutcomeName(events[n].kind.outcome) == "apply_failed";
  }

  /** An event not there at one point of a run is appended no earlier. */
  lemma AppendsAfter(s: State, schedule: seq<Action>, from: nat, j: nat, n: nat)
    requires Inv(s) && from <= |schedule| && j < |schedule| && AppendsAt(s, schedule, j, n)
    requires |Exec(s, schedule[..from]).store.events| <= n
    ensures from <= j
  {
    ExecStep(s, schedule, j);
    if j < from { PrefixExtends(s, schedule[..j + 1], schedule[..from]); }
  }

  /** End to end, from a restart: a filing is recorded and answered with its row and baseline; whatever happens before
      that and between it and its polls, and whichever polls are lost, a request reported allowed was allowed by a call
      whose subprocess succeeded, one reported denied was decided against, and an apply failure it reports is that of a
      subprocess, logged after it filed. */
  lemma RequestHostIsJustified(store: Store, entries: seq<Entry>, past: seq<Action>, tid: Tid, c: Choice,
                               schedule: seq<Action>, at: seq<nat>, container: string, replies: seq<Reply>)
    requires StoreOk(store) && AboutToRecord(Exec(Boot(store, entries), past), tid)
    requires var t := Recorded(Exec(Boot(store, entries), past), tid, c); var filed := FiledAnswer(t.threads[tid]);
      filed.Pending? && PollsOf(t, schedule, at, filed.id, container, replies)
    ensures var t := Recorded(Exec(Boot(store, entries), past), tid, c); var filed := FiledAnswer(t.threads[tid]);
      Justified(t.store, Exec(t, schedule).store, filed.id, RequestHost(filed, replies))
    ensures var filed := FiledAnswer(Recorded(Exec(Boot(store, entries), past), tid, c).threads[tid]);
      var s, story, r := Boot(store, entries), Story(past, tid, c, schedule), RequestHost(filed, replies);
      && (r.HostAllowed? ==> AllowedByReturn(s, story, filed.id))
      && (r == HostError(Because("apply_failed")) ==> FailureBacked(s, story, |past| + 1, filed.id))
  {
    ResultIsBacked(Boot(store, entries), past, tid, c, schedule, at, container, replies);
  }

  lemma ResultIsBacked(s: State, past: seq<Action>, tid: Tid, c: Choice, schedule: seq<Action>, at: seq<nat>,
                       container: string, replies: seq<Reply>)
    requires Inv(s) && s.threads == map[] && AboutToRecord(Exec(s, past), tid)
    requires var t := Recorded(Exec(s, past), tid, c); var filed := FiledAnswer(t.threads[tid]);
      filed.Pending? && PollsOf(t, schedule, at, filed.id, container, replies)
    ensures var t := Recorded(Exec(s, past), tid, c); var filed := FiledAnswer(t.threads[tid]);
      var story, r := Story(past, tid, c, schedule), RequestHost(filed, replies);
      && Justified(t.store, Exec(t, schedule).store, filed.id, r)
      && (r.HostAllowed? ==> AllowedByReturn(s, story, filed.id))
      && (r == HostError(Because("apply_failed")) ==> FailureBacked(s, story, |past| + 1, filed.id))
  {
    var t := Recorded(Exec(s, past), tid, c);
    var filed := FiledAnswer(t.threads[tid]);
    var r := RequestHost(filed, replies);
    FilingReturnsTheBaseline(Exec(s, past), tid, c);
    PendingIsJustified(t, schedule, filed, at, container, replies);
    StoryLeadsOn(s, past, tid, c, schedule);
    if r.HostAllowed? {
      WasNotAllowed(s, past + [Step(tid, c)], filed.id);
      AllowsAreBacked(s, Story(past, tid, c, schedule), filed.id);
    }
    if r == HostError(Because("apply_failed")) {
      FailedSinceIsBacked(s, Story(past, tid, c, schedule), |past| + 1, filed.id);
    }
  }

  /** A row open at some point of a run was not allowed at its start. */
  lemma WasNotAllowed(s: State, run: seq<Action>, id: Id)
    requires Inv(s) && IsOpen(Exec(s, run).store, id)
    ensures !IsAllowed(s.store, id)
  {
    DecisionsAreFinal(s, run);
  }

  lemma ImmediateAllowIsARow(s: State, tid: Tid)
    requires Inv(s) && tid in s.threads && s.threads[tid].Done? && s.threads[tid].answer.Decided?
    requires s.threads[tid].answer.body.AllowBody?
    ensures IsAllowed(s.store, s.threads[tid].answer.id)
  {
    assert ThreadOk(s, s.threads[tid]);
  }

  /** A filing answered at once is reported allowed only when its row was applied and then allowed; in the run since the
      restart, unless it was allowed before, by a call whose subprocess succeeded. */
  lemma ImmediateAnswerIsJustified(store: Store, entries: seq<Entry>, schedule: seq<Action>, tid: Tid,
                                   replies: seq<Reply>)
    requires StoreOk(store)
    requires var e := Exec(Boot(store, entries), schedule);
      tid in e.threads && e.threads[tid].Done? && e.threads[tid].answer.Decided?
    ensures var s := Boot(store, entries); var e := Exec(s, schedule); var a := e.threads[tid].answer;
      RequestHost(a, replies).HostAllowed? ==>
        IsAllowed(e.store, a.id) && AppliedThenAllowed(e.store.events, a.id)
        && (IsAllowed(store, a.id) || AllowedByReturn(s, schedule, a.id))
  {
    ImmediateIsBacked(Boot(store, entries), schedule, tid, replies);
  }

  lemma ImmediateIsBacked(s: State, schedule: seq<Action>, tid: Tid, replies: seq<Reply>)
    requires Inv(s) && s.threads == map[]
    requires var e := Exec(s, schedule); tid in e.threads && e.threads[tid].Done? && e.threads[tid].answer.Decided?
    ensures var e := Exec(s, schedule); var a := e.threads[tid].answer;
      RequestHost(a, replies).HostAllowed? ==>
        IsAllowed(e.store, a.id) && AppliedThenAllowed(e.store.events, a.id)
        && (IsAllowed(s.store, a.id) || AllowedByReturn(s, schedule, a.id))
  {
    var a := Exec(s, schedule).threads[tid].answer;
    if a.body.AllowBody? {
      ImmediateAllowIsARow(Exec(s, schedule), tid);
      AllowedMeansApplied(s, schedule, a.id);
      if !IsAllowed(s.store, a.id) { AllowsAreBacked(s, schedule, a.id); }
    }
  }

  lemma {:induction false} FirstConclusionAt(replies: seq<Reply>, baseline: nat, i: nat)
    requires i < |replies| && Conclude(replies[i], baseline).Some?
    requires forall j :: 0 <= j < i ==> Conclude(replies[j], baseline).None?
    ensures FirstConclusion(replies, baseline) == Conclude(replies[i], baseline)
  {
    var n := |replies| - 1;
    if i < n {
      FirstConclusionAt(replies[..n], baseline, i);
    } else if FirstConclusion(replies[..n], baseline).Some? {
      ConclusionIsSome(replies[..n], baseline);
    }
  }

  /** The poll at this point of the run is not lost and reaches the row, and all earlier ones were polled past. */
  ghost predicate Reaches(s: State, schedule: seq<Action>, filed: Answer, at: seq<nat>, container: string,
                          replies: seq<Reply>, i: nat)
    requires Inv(s)
  {
    && filed.Pending? && filed.id != "" && filed.id in s.store.rows
    && PollsOf(s, schedule, at, filed.id, container, replies) && i < |replies| && !Noise(replies[i])
    && filed.id in Exec(s, schedule[..at[i]]).store.rows
    && Exec(s, schedule[..at[i]]).store.rows[filed.id].filing.container == container
    && forall j :: 0 <= j < i ==> KeepsWaiting(replies[j], filed.attempt)
  }

  lemma FirstNewsDecides(filed: Answer, replies: seq<Reply>, i: nat)
    requires filed.Pending? && filed.id != "" && i < |replies| && !KeepsWaiting(replies[i], filed.attempt)
    requires forall j :: 0 <= j < i ==> KeepsWaiting(replies[j], filed.attempt)
    ensures RequestHost(filed, replies) == MapFinal(Conclude(replies[i], filed.attempt))
  {
    forall j | 0 <= j <= i ensures Conclude(replies[j], filed.attempt).None?
        <==> KeepsWaiting(replies[j], filed.attempt) {
      ConcludeByKind(replies[j], filed.attempt);
    }
    FirstConclusionAt(replies, filed.attempt, i);
  }

  /** A filer whose poll reaches its row while it is open, after an attempt has failed since the filing, is told so. */
  lemma NewFailureIsReported(s: State, schedule: seq<Action>, filed: Answer, at: seq<nat>, container: string,
                             replies: seq<Reply>, i: nat)
    requires Inv(s) && Reaches(s, schedule, filed, at, container, replies, i)
    requires var row := Exec(s, schedule[..at[i]]).store.rows[filed.id];
      row.status == Open && row.lastError.Some? && row.applyAttempts > filed.attempt
    ensures var row := Exec(s, schedule[..at[i]]).store.rows[filed.id];
      RequestHost(filed, replies) == HostError(Because(OutcomeName(row.lastError.value.outcome)))
  {
    RowStaysOk(s, schedule[..at[i]], filed.id);
    FirstNewsDecides(filed, replies, i);
  }

  /** What a decided row tells a filer: the scope of an allow; of a deny, the zone and scope if the denylist denied. */
  ghost predicate TellsDecision(row: Row, r: HostResult) {
    && row.status != Open && row.decisionBody.Some?
    && (row.status == Allowed
       ==> row.decisionBody.value.AllowBody? && r == HostAllowed(row.decisionBody.value.allowScope))
    && (row.status != Allowed ==> row.decisionBody.value.DenyBody? && r.HostDenied?)
    && (row.status != Allowed && row.decisionBody.value.DenyBody? && r.HostDenied? ==>
          var body := row.decisionBody.value;
          && (body.reason != Some("denylist") ==> r.detail == "")
          && (body.reason == Some("denylist") && body.zone.Some? && body.scope.Some? ==>
                r.detail == "denylist: zone=" + body.zone.value + " scope=" + body.scope.value))
  }

  lemma DecidedRowIsTold(row: Row)
    requires row.status != Open && RowOk(row) && DecisionOk(row)
    ensures var v := RowView(row); v.View? && !v.isOpen && v.body.Some? && TellsDecision(row, MapBody(v.body.value))
  {
  }

  /** A filer, coalesced or not, whose poll reaches its row once it is decided learns the decision the row keeps from
      then on, unless an apply error newer than its filing reached it first. */
  lemma CoalescedFilerLearns(s: State, schedule: seq<Action>, filed: Answer, at: seq<nat>, container: string,
                             replies: seq<Reply>, i: nat)
    requires Inv(s) && Reaches(s, schedule, filed, at, container, replies, i)
    requires Exec(s, schedule[..at[i]]).store.rows[filed.id].status != Open
    ensures var t := Exec(s, schedule).store;
      filed.id in t.rows && TellsDecision(t.rows[filed.id], RequestHost(filed, replies))
  {
    var m, t := Exec(s, schedule[..at[i]]).store, Exec(s, schedule).store;
    RowStaysOk(s, schedule[..at[i]], filed.id);
    RowStaysOk(s, schedule, filed.id);
    assert DecisionOk(m.rows[filed.id]) && DecisionOk(t.rows[filed.id]);
    PrefixExtends(s, schedule[..at[i]], schedule);
    assert RowExtends(m.rows[filed.id], t.rows[filed.id]);
    DecidedRowIsTold(m.rows[filed.id]);
    DecidedRowIsTold(t.rows[filed.id]);
    FirstNewsDecides(filed, replies, i);
  }

  /** When every poll until the deadline is polled past, the filing is reported pending. */
  lemma NoNewsIsPending(filed: Answer, replies: seq<Reply>)
    requires filed.Pending? && filed.id != "" && forall i ::
                                                  0 <= i < |replies| ==> KeepsWaiting(replies[i], filed.attempt)
    ensures RequestHost(filed, replies) == HostPending
  {
    if FirstConclusion(replies, filed.attempt).Some? {
      ConclusionIsSome(replies, filed.attempt);
      var i :| 0 <= i < |replies| && Conclude(replies[i], filed.attempt) == FirstConclusion(replies, filed.attempt);
      ConcludeByKind(replies[i], filed.attempt);
      assert false;
    }
  }

  /** A filing that names a decided row of its own ask is answered with the body that row was decided with, and the
      client reports that decision; nothing is written. */
  lemma ReplayedFilingIsAnswered(s: State, tid: Tid, c: Choice, f: Filing, id: Id, now: Time, replies: seq<Reply>)
    requires Inv(s) && s.holder.None? && tid in s.threads && s.threads[tid] == FileWait(f, Some(id), now)
    requires ValidRequestId(id) && id in s.store.rows && s.store.rows[id].status != Open
    requires s.store.rows[id].filing.container == f.container && s.store.rows[id].filing.host == f.host
    requires s.store.rows[id].filing.port == f.port
    ensures var t := Act(s, Step(tid, c));
      && t.store == s.store && s.store.rows[id].decisionBody.Some?
      && t.threads[tid] == Done(Decided(s.store.rows[id].decisionBody.value, id))
      && TellsDecision(s.store.rows[id], RequestHost(t.threads[tid].answer, replies))
  {
    assert RowOk(s.store.rows[id]) && DecisionOk(s.store.rows[id]);
    DecidedRowIsTold(s.store.rows[id]);
  }
}
