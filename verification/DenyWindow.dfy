/**
 The coalesce window inside the protocol: in every interleaving the broker's window is what its consultations
 of the denylist made of it, one after the other, so what holds of a run of hits holds of the broker.
 */
module DenyWindow {
  import opened Wrappers
  import opened RequestStore
  import opened DenyZones
  import opened HitWindow
  import opened Protocol
  import opened ProtocolInvariant
  import W = HitWindow

  /** The denied filing a consultation step answers, if the step is enabled and an entry covers it. */
  function CallOf(s: State, t: Thread, c: Choice): Option<Call>
    requires t.FileMatch?
  {
    var id := if t.requestId.Some? then t.requestId.value else c.minted;
    if !(t.since <= c.version < |s.file|) || id in s.store.rows then None
    else
      match BestMatch(s.file[c.version], t.filing.container, t.filing.host)
      case None => None
      case Some(e) => Some(Call(HitKey(t.filing.container, e.zone), t.now, id))
  }

  /** A consultation does to the window what a denied filing does, and goes on to write a denied row or to
      suppress a hit onto one, as the window answers. */
  lemma ConsultationIsACall(s: State, t: Thread, c: Choice)
    requires t.FileMatch? && Consulted(s, t, c).Some?
    ensures var m := Consulted(s, t, c).value; var call := CallOf(s, t, c);
      && (call.None? ==> m.window.None? && m.next.FileInsert?)
      && (call.Some? ==> m.window == Some(After(s.hits, call.value)))
      && (call.Some? ==> (m.next.FileDenyOpen? <==> W.Answer(s.hits, call.value).logged))
      && (m.next.FileDenyOpen? ==>
            call.Some? && m.next.id == call.value.request && m.next.now == call.value.now
            && HitKey(m.next.filing.container, m.next.entry.zone) == call.value.key)
      && (call.Some? && !m.next.FileDenyOpen? ==>
            m.next.FileSuppress? && m.next.id == W.Answer(s.hits, call.value).request)
  {
  }

  lemma OnlyConsultationsTouchTheWindow(s: State, t: Thread, c: Choice)
    requires UniqueOpen(s.store) && |s.file| > 0 && !t.FileMatch? && MoveOf(s, t, c).Some?
    ensures MoveOf(s, t, c).value.window.None?
  {
  }

  function CallAt(s: State, a: Action): Option<Call> {
    if a.Step? && a.tid in s.threads && s.threads[a.tid].FileMatch? then CallOf(s, s.threads[a.tid], a.choice) else None
  }

  lemma ActOnTheWindow(s: State, a: Action)
    requires UniqueOpen(s.store) && |s.file| > 0
    ensures Act(s, a).hits == if CallAt(s, a).Some? then After(s.hits, CallAt(s, a).value) else s.hits
  {
    if a.Step? && a.tid in s.threads {
      var t := s.threads[a.tid];
      if t.FileMatch? {
        if Consulted(s, t, a.choice).Some? { ConsultationIsACall(s, t, a.choice); }
      } else if MoveOf(s, t, a.choice).Some? {
        OnlyConsultationsTouchTheWindow(s, t, a.choice);
      }
    }
  }

  function Listed(call: Option<Call>): seq<Call> {
    if call.Some? then [call.value] else []
  }

  /** The denied filings of a run, in the order the broker lock served them. */
  ghost function Calls(s: State, schedule: seq<Action>): seq<Call>
    requires Inv(s)
  {
    if schedule == [] then []
    else
      var n := |schedule| - 1;
      var call := CallAt(Exec(s, schedule[..n]), schedule[n]);
      Calls(s, schedule[..n]) + Listed(call)
  }

  lemma WindowStep(s: State, a: Action, calls: seq<Call>)
    requires UniqueOpen(s.store) && |s.file| > 0 && s.hits == WindowAfter(calls)
    ensures Act(s, a).hits == WindowAfter(calls + Listed(CallAt(s, a)))
  {
    ActOnTheWindow(s, a);
    var call := CallAt(s, a);
    if call.Some? {
      assert (calls + [call.value])[..|calls|] == calls;
    } else {
      assert calls + [] == calls;
    }
  }

  lemma {:induction false} TheWindowIsItsCalls(s: State, schedule: seq<Action>)
    requires Inv(s) && s.hits == map[]
    ensures Exec(s, schedule).hits == WindowAfter(Calls(s, schedule))
  {
    if schedule != [] {
      var n := |schedule| - 1;
      TheWindowIsItsCalls(s, schedule[..n]);
      WindowStep(Exec(s, schedule[..n]), schedule[n], Calls(s, schedule[..n]));
    }
  }

  /** In every interleaving each suppressed hit has been surfaced in a log line once, or is pending in the window. */
  lemma SuppressedHitsAreAccountedFor(s: State, schedule: seq<Action>, key: HitKey)
    requires Inv(s) && s.hits == map[]
    ensures SuppressedCalls(Calls(s, schedule), key)
      == SurfacedHits(Calls(s, schedule), key) + W.Pending(Exec(s, schedule).hits, key)
  {
    TheWindowIsItsCalls(s, schedule);
    SuppressedHitsAreSurfacedOnce(Calls(s, schedule), key);
  }

  /** After this run, the action is a consultation that goes on to write a denied row for the call's key,
      opened at its time. */
  ghost predicate StartsDenial(s: State, run: seq<Action>, a: Action, call: Call)
    requires Inv(s)
  {
    CallAt(Exec(s, run), a) == Some(call) && W.Answer(Exec(s, run).hits, call).logged
  }

  lemma CallsStep(s: State, run: seq<Action>, a: Action)
    requires Inv(s)
    ensures Calls(s, run + [a]) == Calls(s, run) + Listed(CallAt(Exec(s, run), a))
  {
    assert (run + [a])[..|run|] == run;
  }

  lemma {:induction false} CallsOfPrefix(s: State, run: seq<Action>, schedule: seq<Action>)
    requires Inv(s) && run <= schedule
    ensures Calls(s, run) <= Calls(s, schedule)
    decreases |schedule|
  {
    if |run| < |schedule| {
      CallsOfPrefix(s, run, schedule[..|schedule| - 1]);
    } else {
      assert run == schedule;
    }
  }

  lemma LoggedInPrefix(calls: seq<Call>, before: seq<Call>, call: Call)
    requires before + [call] <= calls && W.Answer(WindowAfter(before), call).logged
    ensures |before| < |calls| && calls[|before|] == call && AnswerAt(calls, |before|).logged
  {
    assert calls[..|before|] == before;
  }

  /** A started denial is a logged call of the run. */
  lemma DenialIsALoggedCall(s: State, schedule: seq<Action>, run: seq<Action>, a: Action, call: Call)
    requires Inv(s) && s.hits == map[] && run + [a] <= schedule && StartsDenial(s, run, a, call)
    ensures var k := |Calls(s, run)|; var calls := Calls(s, schedule);
      k < |calls| && |Calls(s, run + [a])| == k + 1 && calls[k] == call && AnswerAt(calls, k).logged
  {
    CallsStep(s, run, a);
    CallsOfPrefix(s, run + [a], schedule);
    TheWindowIsItsCalls(s, run);
    LoggedInPrefix(Calls(s, schedule), Calls(s, run), call);
  }

  /** Two denials of one container and zone, one started after the other, start at least a window apart. */
  lemma DenialsAreAWindowApart(s: State, schedule: seq<Action>, run: seq<Action>, a: Action, first: Call,
                               later: seq<Action>, b: Action, second: Call)
    requires Inv(s) && s.hits == map[] && run + [a] <= later && later + [b] <= schedule && first.key == second.key
    requires StartsDenial(s, run, a, first) && StartsDenial(s, later, b, second) && ClockNeverBack(Calls(s, schedule))
    ensures second.now - first.now >= SUPPRESS_SECONDS
  {
    assert run + [a] <= schedule;
    DenialIsALoggedCall(s, schedule, run, a, first);
    DenialIsALoggedCall(s, schedule, later, b, second);
    CallsOfPrefix(s, run + [a], later);
    LogsAreAWindowApart(Calls(s, schedule), |Calls(s, run)|, |Calls(s, later)|);
  }

  /** A suppressed hit never fails: the row it lands on was denied by the denylist. */
  lemma SuppressedHitsLandOnDenials(store: Store, entries: seq<Entry>, schedule: seq<Action>, tid: Tid)
    requires StoreOk(store)
    requires var s := Exec(Boot(store, entries), schedule); tid in s.threads && s.threads[tid].FileSuppress?
    ensures var s := Exec(Boot(store, entries), schedule); var t := s.threads[tid];
      && t.id in s.store.rows && s.store.rows[t.id].status == Denied && s.store.rows[t.id].decidedBy == Some("denylist")
      && ErrorOf(s.store, DoSuppressedHit(t.id, t.now)).None?
  {
    var s := Exec(Boot(store, entries), schedule);
    assert ThreadOk(s, s.threads[tid]);
  }
}
