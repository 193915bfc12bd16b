/**
 What one uninterrupted call does, row by row and case by case: filing, both halves of an allow, and a deny
 (src/egress_broker_host.py).  The predicates speak of rows, events, windows and answers, not of moves or transactions.
 */
module Rulings {
  import opened Wrappers
  import opened RequestStore
  import opened DenyZones
  import opened HitWindow
  import opened LoneThread
  import P = Protocol

  /** Nothing but this row, which was there, may differ. */
  ghost predicate OthersKept(s: Store, t: Store, id: Id) {
    && id in s.rows && t.rows.Keys == s.rows.Keys
    && forall other :: other in s.rows && other != id ==> t.rows[other] == s.rows[other]
  }

  function Asked(asked: Option<string>, otherwise: string): string {
    if asked.None? || asked.value == "" then otherwise else asked.value
  }

  // ------------------------------------------------------------------ allow

  /** An attempt that failed: the row is still open, counts it, and names it in its last error and its event. */
  ghost predicate Failed(s: Store, t: Store, id: Id, outcome: ApplyOutcome, now: Time) {
    && OthersKept(s, t, id) && id in t.rows
    && (var n := s.rows[id].applyAttempts + 1;
        && t.rows[id] == s.rows[id].(applyStatus := Some(outcome), applyAttempts := n,
                                     lastError := Some(LastError(outcome, n, now)))
        && t.rows[id].status == Status.Open
        && t.events == s.events + [Event(id, ApplyError(outcome, n), now)])
  }

  /** The first half of an allow. */
  ghost predicate AllowBegins(s: Store, applying: set<Id>, id: Id, asked: Option<string>, decider: string,
                              literal: bool, now: Time, t: Store, after: set<Id>, next: P.Thread) {
    var scope := Asked(asked, "live");
    if !(id in s.rows && s.rows[id].status == Status.Open) then t == s && after == applying && next == P.Done(P.Refused)
    else if id in applying then t == s && after == applying && next == P.Done(P.ApplyInProgress)
    else if scope != "live" && scope != "manifest" then t == s && after == applying && next == P.Done(P.Refused)
    else if s.rows[id].filing.hostIsIp || literal then
      Failed(s, t, id, IpRequiresCidr, now) && after == applying && next == P.Done(P.ApplyProblem(IpRequiresCidr))
    else t == s && after == applying + {id} && next == P.Applying(id, scope, decider)
  }

  lemma AllowBegunBegins(s: Store, applying: set<Id>, id: Id, asked: Option<string>, decider: string, literal: bool,
                         now: Time)
    requires UniqueOpen(s)
    ensures var r := AllowBegun(s, applying, id, asked, decider, literal, now);
      AllowBegins(s, applying, id, asked, decider, literal, now, r.store, r.applying, r.thread)
  {
  }

  /** A subprocess that succeeded: the row is allowed, applied, with the scope the operator chose. */
  ghost predicate AllowedNow(s: Store, t: Store, id: Id, scope: string, decider: string, now: Time, later: Time) {
    && OthersKept(s, t, id) && id in t.rows
    && t.rows[id] == s.rows[id].(status := Allowed, scope := Some(scope), decisionBody := Some(AllowBody(scope)),
                                 decidedBy := Some(decider), decidedAt := Some(later), denyReason := None,
                                 denylistZone := None, denylistScope := None, applyStatus := Some(Applied),
                                 applyAttempts := s.rows[id].applyAttempts + 1, lastError := None)
    && t.events == s.events + [Event(id, ApplySucceeded, now),
                               Event(id, Closed(Allowed, Some(scope), None, decider, None), later)]
  }

  /** The second half: what the subprocess returned decides, unless the row was decided meanwhile. */
  ghost predicate AllowEnds(s: Store, applying: set<Id>, id: Id, scope: string, decider: string, ok: bool,
                            now: Time, later: Time, t: Store, after: set<Id>, answer: P.Answer) {
    && after == applying - {id}
    && (if !(id in s.rows && s.rows[id].status == Status.Open) then t == s && answer == P.Final
        else if ok then AllowedNow(s, t, id, scope, decider, now, later) && answer == P.Final
        else Failed(s, t, id, ApplyFailed, now) && answer == P.ApplyProblem(ApplyFailed))
  }

  lemma AllowFinishedEnds(s: Store, applying: set<Id>, id: Id, scope: string, decider: string, ok: bool, now: Time,
                          later: Time)
    requires UniqueOpen(s)
    ensures var r := AllowFinished(s, applying, id, scope, decider, ok, now, later);
      r.thread.Done? && AllowEnds(s, applying, id, scope, decider, ok, now, later, r.store, r.applying, r.thread.answer)
  {
  }

  // ------------------------------------------------------------------ deny

  /** Denied, this row alone, by this decider. */
  ghost predicate DeniedNow(s: Store, t: Store, id: Id, scope: string, reason: Option<string>, decider: string,
                            now: Time) {
    && OthersKept(s, t, id) && id in t.rows
    && t.rows[id] == s.rows[id].(status := Denied, scope := Some(scope),
       decisionBody := Some(DenyBody(None, None, None)),
                                 decidedBy := Some(decider), decidedAt := Some(now), denyReason := reason,
                                 denylistZone := None, denylistScope := None, lastError := None)
    && t.events == s.events + [Event(id, Closed(Denied, Some(scope), reason, decider, None), now)]
  }

  ghost predicate Denies(s: Store, applying: set<Id>, id: Id, asked: Option<string>, reason: Option<string>,
                         decider: string, now: Time, t: Store, answer: P.Answer) {
    var scope := Asked(asked, "once");
    if !(id in s.rows && s.rows[id].status == Status.Open) then t == s && answer == P.Refused
    else if id in applying then t == s && answer == P.ApplyInProgress
    else if scope != "once" && scope != "bottle" && scope != "global" then t == s && answer == P.Refused
    else DeniedNow(s, t, id, scope, reason, decider, now) && answer == P.Final
  }

  lemma DenyDecidedDenies(s: Store, applying: set<Id>, id: Id, asked: Option<string>, reason: Option<string>,
                          decider: string, now: Time)
    requires UniqueOpen(s)
    ensures var r := DenyDecided(s, applying, id, asked, reason, decider, now);
      r.thread.Done? && r.applying == applying
          && Denies(s, applying, id, asked, reason, decider, now, r.store, r.thread.answer)
  {
  }

  // ------------------------------------------------------------------ a filing

  /** A hit on this open row, and what the filer is told of it. */
  ghost predicate HitNow(s: Store, t: Store, id: Id, now: Time, answer: P.Answer) {
    && OthersKept(s, t, id) && id in t.rows
    && t.rows[id] == s.rows[id].(hitCount := s.rows[id].hitCount + 1, lastHitAt := now)
    && t.events == s.events + [Event(id, Hit(1), now)]
    && answer == P.Pending(id, s.rows[id].applyAttempts, s.rows[id].lastError)
  }

  /** A filing that lands on a row there is: a hit while it is open, the body it was decided with once it is not. */
  ghost predicate LandsOn(s: Store, t: Store, id: Id, now: Time, answer: P.Answer) {
    && id in s.rows
    && (s.rows[id].status == Status.Open ==> HitNow(s, t, id, now, answer))
    && (s.rows[id].status != Status.Open ==> t == s && answer.Decided? && answer.id == id)
    && (s.rows[id].status != Status.Open && answer.Decided? ==>
          match s.rows[id].decisionBody case Some(body) => answer.body == body case None =>
              answer.body == DenyBody(None, None, None))
  }

  /** One new row, open, for this filing. */
  ghost predicate NewRow(s: Store, t: Store, id: Id, f: Filing, now: Time, answer: P.Answer) {
    && id !in s.rows && id in t.rows && t.rows == s.rows[id := t.rows[id]]
    && t.rows[id] == Row(f, now, now, 1, Status.Open, None, None, None, None, None, 0, None, None, None, None, None)
    && t.events == s.events + [Event(id, Requested(f), now), Event(id, Notified, now)]
    && answer == P.Pending(id, 0, None)
  }

  function ZoneBody(e: Entry): Body {
    DenyBody(Some("denylist"), Some(e.zone), Some(e.scope))
  }

  function DeniedRow(f: Filing, e: Entry, now: Time, later: Time): Row {
    Row(f, now, now, 1, Denied, None, Some(later), Some("denylist"), Some("denylist"), None, 0, None, None,
        Some(e.zone), Some(e.scope), Some(ZoneBody(e)))
  }

  /** One new row, denied at once for this entry, and a new window naming it. */
  ghost predicate DeniedAtOnce(s: Store, t: Store, id: Id, f: Filing, e: Entry, now: Time, later: Time, w: Window,
                               answer: P.Answer) {
    && id !in s.rows && id in t.rows && t.rows == s.rows[id := t.rows[id]]
    && t.rows[id] == DeniedRow(f, e, now, later)
    && t.events == s.events + [Event(id, Requested(f), now),
                               Event(id, Closed(Denied, None, Some("denylist"), "denylist", Some(e.zone)), later)]
    && answer == P.Decided(ZoneBody(e), id)
    && HitKey(f.container, e.zone) in w && w[HitKey(f.container, e.zone)] == HitState(now, id, 0)
  }

  /** Of the other windows those opened at most a minute ago are as they were, the others are gone. */
  ghost predicate FreshKept(hits: Window, w: Window, key: HitKey, now: Time) {
    && (forall k :: k != key ==> (k in w <==> k in hits && now - hits[k].last <= 60))
    && (forall k :: k != key && k in w ==> k in hits && w[k] == hits[k])
  }

  /** A hit counted onto the row of the window, without an event; nothing if that row is not a denylist denial. */
  ghost predicate Suppressed(s: Store, t: Store, onto: Id, e: Entry, now: Time, answer: P.Answer) {
    if onto in s.rows && s.rows[onto].status == Denied && s.rows[onto].decidedBy == Some("denylist") then
      && OthersKept(s, t, onto) && onto in t.rows && t.events == s.events
      && t.rows[onto] == s.rows[onto].(hitCount := s.rows[onto].hitCount + 1, lastHitAt := now)
      && answer == P.Decided(ZoneBody(e), onto)
    else t == s && answer.StoreRaised?
  }

  /** A covered filing: a new denied row, or a hit suppressed onto the one of its window while that is fresh. */
  ghost predicate ShortCircuits(s: Store, hits: Window, f: Filing, id: Id, e: Entry, now: Time, later: Time, t: Store,
                                w: Window, answer: P.Answer) {
    var key := HitKey(f.container, e.zone);
    if key in hits && now - hits[key].last < 60 then
      Suppressed(s, t, hits[key].request, e, now, answer)
      && w == hits[key := HitState(hits[key].last, hits[key].request, hits[key].suppressed + 1)]
    else DeniedAtOnce(s, t, id, f, e, now, later, w, answer) && FreshKept(hits, w, key, now)
  }

  /** The open row of an ask. */
  predicate OpenRowOf(s: Store, id: Id, f: Filing) {
    id in s.rows && s.rows[id].status == Status.Open && SameAsk(s.rows[id].filing, f)
  }

  predicate SameAsk(a: Filing, b: Filing) {
    a.container == b.container && a.host == b.host && a.port == b.port
  }

  /** A filing for a new ask: denied when the denylist is over its host, by the entry that matches best; else opened. */
  ghost predicate FilesNew(s: Store, entries: seq<Entry>, hits: Window, f: Filing, id: Id, now: Time, later: Time,
                           t: Store, w: Window, answer: P.Answer) {
    && ((forall e :: e in entries ==> !Under(e, f.container, f.host)) ==> w == hits && NewRow(s, t, id, f, now, answer))
    && ((exists e :: e in entries && Under(e, f.container, f.host)) ==>
          BestMatch(entries, f.container, f.host).Some?
          && ShortCircuits(s, hits, f, id, BestMatch(entries, f.container, f.host).value, now, later, t, w, answer))
  }

  /** A whole filing. */
  ghost predicate Files(s: Store, entries: seq<Entry>, hits: Window, f: Filing, requestId: Option<Id>, minted: Id,
                        now: Time, later: Time, t: Store, w: Window, answer: P.Answer) {
    if requestId.Some? && !P.ValidRequestId(requestId.value) then t == s && w == hits && answer == P.Refused
    else if requestId.Some? && requestId.value in s.rows then
      && w == hits
      && (!SameAsk(s.rows[requestId.value].filing, f) ==> t == s && answer == P.Refused)
      && (SameAsk(s.rows[requestId.value].filing, f) ==> LandsOn(s, t, requestId.value, now, answer))
    else
      && (forall id :: OpenRowOf(s, id, f) ==> w == hits && LandsOn(s, t, id, now, answer))
      && ((forall id :: !OpenRowOf(s, id, f)) ==>
            FilesNew(s, entries, hits, f, if requestId.Some? then requestId.value
                else minted, now, later, t, w, answer))
  }

  lemma OnRowLands(s: Store, hits: Window, f: Filing, id: Id, now: Time)
    requires UniqueOpen(s) && id in s.rows && KeyOf(s.rows[id].filing) == KeyOf(f)
    ensures var r := OnRow(s, hits, f, id, now); r.hits == hits && LandsOn(s, r.store, id, now, r.answer)
  {
  }

  lemma OpenedAnewIsNew(s: Store, hits: Window, f: Filing, id: Id, now: Time)
    requires NewAsk(s, f, id)
    ensures var r := OpenedAnew(s, hits, f, id, now); r.hits == hits && NewRow(s, r.store, id, f, now, r.answer)
  {
  }

  lemma ClosingTheNewRow(s: Store, f: Filing, id: Id, e: Entry, now: Time, later: Time)
    requires NewAsk(s, f, id)
    ensures var t := Perform(WithRow(s, f, id, now), DoClose(id, P.DenylistVerdict(e), later));
      && id in t.rows && t.rows == s.rows[id := t.rows[id]] && t.rows[id] == DeniedRow(f, e, now, later)
      && t.events == s.events + [Event(id, Requested(f), now),
                                 Event(id, Closed(Denied, None, Some("denylist"), "denylist", Some(e.zone)), later)]
  {
  }

  lemma ShortCircuitedDoes(s: Store, hits: Window, f: Filing, id: Id, e: Entry, now: Time, later: Time)
    requires NewAsk(s, f, id)
    ensures var r := ShortCircuited(s, hits, f, id, e, now, later);
      ShortCircuits(s, hits, f, id, e, now, later, r.store, r.hits, r.answer)
  {
    ClosingTheNewRow(s, f, id, e, now, later);
  }

  lemma FiledAnewFiles(s: Store, entries: seq<Entry>, hits: Window, f: Filing, id: Id, now: Time, later: Time)
    requires NewAsk(s, f, id)
    ensures var r := FiledAnew(s, entries, hits, f, id, now, later);
      FilesNew(s, entries, hits, f, id, now, later, r.store, r.hits, r.answer)
  {
    MatchByLabels(entries, f.container, f.host);
    match BestMatch(entries, f.container, f.host)
    case None => OpenedAnewIsNew(s, hits, f, id, now);
    case Some(e) => ShortCircuitedDoes(s, hits, f, id, e, now, later);
  }

  /** A whole filing does what is said of it, in every case. */
  lemma AfterFilingFiles(s: Store, entries: seq<Entry>, hits: Window, f: Filing, requestId: Option<Id>, minted: Id,
                         now: Time, later: Time)
    requires UniqueOpen(s) && minted !in s.rows
    ensures var r := AfterFiling(s, entries, hits, f, requestId, minted, now, later);
      Files(s, entries, hits, f, requestId, minted, now, later, r.store, r.hits, r.answer)
  {
    if requestId.Some? && !P.ValidRequestId(requestId.value) {
    } else if requestId.Some? && requestId.value in s.rows {
      if KeyOf(s.rows[requestId.value].filing) == KeyOf(f) { OnRowLands(s, hits, f, requestId.value, now); }
    } else {
      var id := if requestId.Some? then requestId.value else minted;
      match FindOpen(s, KeyOf(f)) {
        case Some(other) =>
          OnRowLands(s, hits, f, other, now);
          assert OpenRowOf(s, other, f);
          forall o | OpenRowOf(s, o, f) ensures o == other {}
        case None =>
          forall o ensures !OpenRowOf(s, o, f) { assert !OpenFor(s, o, KeyOf(f)); }
          FiledAnewFiles(s, entries, hits, f, id, now, later);
      }
    }
  }

  // ------------------------------------------------------------------ sweeps over many rows

  /** Open for a day, with no allow in flight. */
  predicate Overdue(s: Store, applying: set<Id>, id: Id, now: Time) {
    id in s.rows && s.rows[id].status == Status.Open && id !in applying && s.rows[id].openedAt + 24 * 60 * 60 <= now
  }

  function MadeStale(row: Row, now: Time): Row {
    row.(status := Stale, scope := None, decidedAt := Some(now), decidedBy := Some("sweep"),
        denyReason := Some("stale"),
         denylistZone := None, denylistScope := None, decisionBody := Some(DenyBody(Some("stale"), None, None)),
             lastError := None)
  }

  ghost predicate SweepsStale(s: Store, applying: set<Id>, now: Time, t: Store) {
    && t.rows.Keys == s.rows.Keys
    && forall id :: id in s.rows ==>
         t.rows[id] == if Overdue(s, applying, id, now) then MadeStale(s.rows[id], now) else s.rows[id]
  }

  /** Open, with no allow in flight, and under the entry by scope and labels. */
  ghost predicate Struck(s: Store, applying: set<Id>, id: Id, e: Entry) {
    && id in s.rows && s.rows[id].status == Status.Open && id !in applying
    && Under(e, s.rows[id].filing.container, s.rows[id].filing.host)
  }

  function MadeDenied(row: Row, o: P.Order, now: Time): Row {
    row.(status := Denied, scope := Some(if o.entry.scope == "global" then "global" else "bottle"),
        decidedAt := Some(now),
         decidedBy := Some(o.decider), denyReason := o.reason, denylistZone := Some(o.entry.zone),
         denylistScope := Some(o.entry.scope), decisionBody := Some(ZoneBody(o.entry)), lastError := None,
         persistStatus := Some(Persisted))
  }

  ghost predicate SweepsCovered(s: Store, applying: set<Id>, o: P.Order, now: Time, t: Store) {
    && t.rows.Keys == s.rows.Keys
    && forall id :: id in s.rows ==>
         t.rows[id] == if Struck(s, applying, id, o.entry) then MadeDenied(s.rows[id], o, now) else s.rows[id]
  }

  function DeniedOnce(row: Row, reason: Option<string>, decider: string, now: Time): Row {
    row.(status := Denied, scope := Some("once"), decidedAt := Some(now), decidedBy := Some(decider),
        denyReason := reason,
         denylistZone := None, denylistScope := None, decisionBody := Some(DenyBody(None, None, None)),
             lastError := None)
  }

  /** When the entry could not be written: the open request that asked for it is denied once, unless its allow is in
      flight, and marked; nothing else happens. */
  ghost predicate TriggerFails(s: Store, applying: set<Id>, o: P.Order, now: Time, t: Store) {
    if o.trigger.Some? && o.trigger.value in s.rows && s.rows[o.trigger.value].status == Status.Open then
      var id := o.trigger.value;
      && OthersKept(s, t, id) && id in t.rows
      && t.rows[id] == (if id in applying then s.rows[id] else DeniedOnce(s.rows[id], o.reason, o.decider, now))
                       .(persistStatus := Some(PersistFailed))
      && t.events == s.events
                     + (if id in applying then []
                         else [Event(id, Closed(Denied, Some("once"), o.reason, o.decider, None), now)])
                     + [Event(id, PersistLogged(PersistFailed), now)]
    else t == s
  }

  lemma StaleOpenIsOverdue(s: Store, applying: set<Id>, now: Time, id: Id)
    ensures id in P.StaleOpen(s, applying, now) <==> Overdue(s, applying, id, now)
  {
  }

  lemma CoveredIsStruck(s: Store, applying: set<Id>, e: Entry, id: Id)
    ensures id in P.CoveredOpen(s, e) - applying <==> Struck(s, applying, id, e)
  {
    if id in s.rows { CoversIsUnder(e, s.rows[id].filing.container, s.rows[id].filing.host); }
  }
}
