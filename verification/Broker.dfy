/**
 The broker object and its lock sections, in the order the source performs them (src/egress_broker_host.py,
 class EgressBroker).

 Each method runs without interruption and does what the protocol's machine does when one thread runs alone;
 what happens when threads interleave is proved about the machine.
 */
module Broker {
  import opened Wrappers
  import opened RequestStore
  import opened StoreObject
  import opened DenyZones
  import opened DenyFile
  import opened DenyListObject
  import opened HitWindow
  import opened LoneThread
  import opened Rulings
  import P = Protocol

  function Settled<T>(done: Result<T, StoreError>, answer: P.Answer): P.Answer {
    if done.Ok? then answer else P.StoreRaised(done.error)
  }

  ghost predicate Distinct(ids: seq<Id>) {
    forall i, j :: 0 <= i < j < |ids| ==> ids[i] != ids[j]
  }

  /** A query's rows, in some order. */
  ghost predicate Lists(list: seq<Id>, ids: set<Id>) {
    (forall id :: id in list <==> id in ids) && Distinct(list)
  }

  method Queried(ids: set<Id>) returns (list: seq<Id>)
    ensures Lists(list, ids)
  {
    var todo := ids;
    list := [];
    while todo != {}
      invariant todo <= ids && Lists(list, ids - todo)
      decreases |todo|
    {
      var id :| id in todo;
      list, todo := list + [id], todo - {id};
    }
  }

  /** t is s with exactly these rows closed with a verdict, logged in this order. */
  ghost predicate ClosedInOrder(s: Store, t: Store, ids: seq<Id>, v: Verdict, now: Time) {
    && t.rows == (map id | id in s.rows :: if id in ids then Decide(s.rows[id], v, now) else s.rows[id])
    && t.events == s.events
       + seq(|ids|, i requires 0 <= i < |ids| =>
           Event(ids[i], Closed(v.status, v.scope, v.reason, v.decider, v.zone), now))
  }

  lemma CloseOneMore(s: Store, t: Store, ids: seq<Id>, id: Id, v: Verdict, now: Time)
    requires ClosedInOrder(s, t, ids, v, now) && IsOpen(s, id) && id !in ids && v.status != Status.Open && UniqueOpen(t)
    ensures ClosedInOrder(s, Perform(t, DoClose(id, v, now)), ids + [id], v, now)
    ensures ErrorOf(t, DoClose(id, v, now)).None?
  {
  }

  /** The listed requests with no allow in flight. */
  function NotApplying(ids: seq<Id>, applying: set<Id>): seq<Id> {
    if ids == [] then []
    else NotApplying(ids[..|ids| - 1], applying) + if ids[|ids| - 1] in applying then [] else [ids[|ids| - 1]]
  }

  lemma {:induction false} NotApplyingListed(ids: seq<Id>, applying: set<Id>)
    ensures forall id :: id in NotApplying(ids, applying) <==> id in ids && id !in applying
    ensures Distinct(ids) ==> Distinct(NotApplying(ids, applying))
  {
    if ids != [] {
      var init, last := ids[..|ids| - 1], ids[|ids| - 1];
      NotApplyingListed(init, applying);
      assert ids == init + [last];
      if Distinct(ids) {
        var kept := NotApplying(init, applying);
        forall i | 0 <= i < |kept| ensures kept[i] != last { assert kept[i] in init; }
      }
    }
  }

  function PersistedRow(row: Row, v: Verdict, now: Time): Row {
    Decide(row, v, now).(persistStatus := Some(Persisted))
  }

  function PersistEvents(id: Id, v: Verdict, now: Time): seq<Event> {
    [Event(id, Closed(v.status, v.scope, v.reason, v.decider, v.zone), now), Event(id, PersistLogged(Persisted), now)]
  }

  function AllPersistEvents(ids: seq<Id>, v: Verdict, now: Time): seq<Event> {
    if ids == [] then [] else AllPersistEvents(ids[..|ids| - 1], v, now) + PersistEvents(ids[|ids| - 1], v, now)
  }

  /** t is s with exactly these rows closed by a persisted deny, logged in this order. */
  ghost predicate PersistedInOrder(s: Store, t: Store, ids: seq<Id>, v: Verdict, now: Time) {
    && t.rows == (map id | id in s.rows :: if id in ids then PersistedRow(s.rows[id], v, now) else s.rows[id])
    && t.events == s.events + AllPersistEvents(ids, v, now)
  }

  lemma ClosedThenPersisted(t: Store, id: Id, v: Verdict, now: Time)
    requires UniqueOpen(t) && IsOpen(t, id) && v.status != Status.Open
    ensures var u := Perform(t, DoClose(id, v, now));
      && UniqueOpen(u) && ErrorOf(t, DoClose(id, v, now)).None?
      && Perform(u, DoPersist(id, Persisted, now))
         == Store(t.rows[id := PersistedRow(t.rows[id], v, now)], t.events + PersistEvents(id, v, now))
  {
    PerformKeeps(t, DoClose(id, v, now));
  }

  lemma PersistOneMore(s: Store, t: Store, ids: seq<Id>, id: Id, v: Verdict, now: Time)
    requires PersistedInOrder(s, t, ids, v, now) && IsOpen(s, id) && id !in ids && v.status != Status.Open
    requires UniqueOpen(t)
    ensures var u := Perform(t, DoClose(id, v, now));
      && UniqueOpen(u) && ErrorOf(t, DoClose(id, v, now)).None?
      && PersistedInOrder(s, Perform(u, DoPersist(id, Persisted, now)), ids + [id], v, now)
  {
    ClosedThenPersisted(t, id, v, now);
    assert (ids + [id])[..|ids|] == ids;
  }

  /** The rows a stale sweep closes, said of the rows themselves. */
  lemma ClosedAreStale(s: Store, t: Store, applying: set<Id>, ids: seq<Id>, now: Time)
    requires Lists(ids, P.StaleOpen(s, applying, now)) && ClosedInOrder(s, t, ids, P.STALE_VERDICT, now)
    ensures forall id :: id in ids <==> Overdue(s, applying, id, now)
    ensures SweepsStale(s, applying, now, t)
  {
    forall id ensures id in ids <==> Overdue(s, applying, id, now) { StaleOpenIsOverdue(s, applying, now, id); }
  }

  /** The rows a persisted deny closes, said of the rows themselves. */
  lemma PersistedAreStruck(s: Store, t: Store, applying: set<Id>, o: P.Order, ids: seq<Id>, now: Time)
    requires Lists(ids, P.CoveredOpen(s, o.entry) - applying) && PersistedInOrder(s, t, ids, P.OrderVerdict(o), now)
    ensures forall id :: id in ids <==> Struck(s, applying, id, o.entry)
    ensures SweepsCovered(s, applying, o, now, t)
  {
    forall id ensures id in ids <==> Struck(s, applying, id, o.entry) { CoveredIsStruck(s, applying, o.entry, id); }
  }

  class EgressBroker {
    const store: EgressStore
    const denylist: DenyList
    var applying: set<Id>
    var hits: Window

    ghost predicate Valid()
      reads this, store, denylist, denylist.disk
    {
      store.Valid() && denylist.Valid()
    }

    constructor (store: EgressStore, denylist: DenyList)
      requires store.Valid() && denylist.Valid()
      ensures Valid() && this.store == store && this.denylist == denylist && applying == {} && hits == map[]
    {
      this.store, this.denylist := store, denylist;
      applying, hits := {}, map[];
    }

    /** The row a filing lands on, or None for a new ask; a replayed id must name the same ask. */
    method CoalesceRow(f: Filing, requestId: Option<Id>) returns (r: Result<Option<Id>, StoreError>)
      requires Valid()
      ensures r == if requestId.Some? && requestId.value in store.rows
                   then (if KeyOf(store.rows[requestId.value].filing) != KeyOf(f) then Err(UnknownRequest)
                       else Ok(requestId))
                   else Ok(FindOpen(store.Contents(), KeyOf(f)))
    {
      if requestId.Some? {
        var row := store.Get(requestId.value);
        if row.Some? {
          if KeyOf(row.value.filing) != KeyOf(f) { return Err(UnknownRequest); }
          return Ok(requestId);
        }
      }
      var other := store.FindOpen(KeyOf(f));
      return Ok(other);
    }

    /** Files a request, or lands it on the row its ask already has. */
    method FileRequest(f: Filing, requestId: Option<Id>, minted: Id, now: Time, later: Time) returns (r: P.Answer)
      requires Valid() && minted !in store.rows
      modifies this`hits, store, denylist
      ensures Valid()
      ensures Effect(store.Contents(), hits, r)
        == AfterFiling(old(store.Contents()), EntriesOf(denylist.disk.content), old(hits), f, requestId, minted, now,
            later)
      ensures Files(old(store.Contents()), EntriesOf(denylist.disk.content), old(hits), f, requestId, minted, now,
        later,
                    store.Contents(), hits, r)
    {
      AfterFilingFiles(store.Contents(), EntriesOf(denylist.disk.content), hits, f, requestId, minted, now, later);
      if requestId.Some? && !P.ValidRequestId(requestId.value) { return P.Refused; }
      var existing := CoalesceRow(f, requestId);
      if existing.Err? { return P.Refused; }
      if existing.value.Some? {
        r := FileOnRow(f, existing.value.value, now);
        return;
      }
      var entry := denylist.Matches(f.container, f.host);
      var id := if requestId.Some? then requestId.value else minted;
      if entry.Some? {
        r := ShortCircuit(f, id, entry.value, now, later);
      } else {
        r := FileAnew(f, id, now);
      }
    }

    method FileOnRow(f: Filing, id: Id, now: Time) returns (r: P.Answer)
      requires Valid() && id in store.rows && KeyOf(store.rows[id].filing) == KeyOf(f)
      modifies store
      ensures Valid() && Effect(store.Contents(), hits, r) == OnRow(old(store.Contents()), hits, f, id, now)
    {
      var row := store.Get(id);
      if row.value.status != Status.Open {
        return P.Decided(if row.value.decisionBody.Some? then row.value.decisionBody.value
            else DenyBody(None, None, None), id);
      }
      var hit := store.OpenOrHit(id, f, now);
      r := Settled(hit, if hit.Ok? then P.RowAnswer(hit.value.0, hit.value.1) else P.Refused);
    }

    method FileAnew(f: Filing, id: Id, now: Time) returns (r: P.Answer)
      requires Valid() && id !in store.rows && FindOpen(store.Contents(), KeyOf(f)).None?
      modifies store
      ensures Valid() && Effect(store.Contents(), hits, r) == OpenedAnew(old(store.Contents()), hits, f, id, now)
    {
      var filed := store.OpenOrHit(id, f, now);
      r := Settled(filed, if filed.Ok? then P.RowAnswer(filed.value.0, filed.value.1) else P.Refused);
      if filed.Ok? && filed.value.2 {
        var marked := store.MarkNotified(filed.value.0, now);
        r := Settled(marked, r);
      }
    }

    /** Denies at once a filing the denylist covers. */
    method ShortCircuit(f: Filing, id: Id, e: Entry, now: Time, later: Time) returns (r: P.Answer)
      requires Valid() && id !in store.rows && FindOpen(store.Contents(), KeyOf(f)).None?
      modifies this`hits, store
      ensures Valid()
      ensures Effect(store.Contents(), hits, r)
        == ShortCircuited(old(store.Contents()), old(hits), f, id, e, now, later)
      ensures ShortCircuits(old(store.Contents()), old(hits), f, id, e, now, later, store.Contents(), hits, r)
    {
      ShortCircuitedDoes(store.Contents(), hits, f, id, e, now, later);
      var key := HitKey(f.container, e.zone);
      if ShouldLog(hits, key, now) {
        hits := hits[key := HitState(now, id, 0)];
        var kept, lines := PruneAndLog(hits, now);
        hits := kept;
        var filed := store.OpenOrHit(id, f, now);
        r := Settled(filed, P.Decided(P.DenylistBody(e), id));
        if filed.Ok? {
          var closed := store.Close(id, P.DenylistVerdict(e), later);
          r := Settled(closed, r);
        }
        return;
      }
      var onto := hits[key].request;
      hits := SuppressHit(hits, key);
      var suppressed := store.SuppressedHit(onto, now);
      r := Settled(suppressed, P.Decided(P.DenylistBody(e), onto));
    }

    /** The first half of an allow: the answer, or the scope to apply while the lock is dropped. */
    method BeginAllow(id: Id, asked: Option<string>, decider: string, literal: bool, now: Time)
        returns (r: Result<string, P.Answer>)
      requires Valid()
      modifies this`applying, store
      ensures Valid()
      ensures Ruling(store.Contents(), applying, if r.Ok? then P.Applying(id, r.value, decider) else P.Done(r.error))
           == AllowBegun(old(store.Contents()), old(applying), id, asked, decider, literal, now)
      ensures AllowBegins(old(store.Contents()), old(applying), id, asked, decider, literal, now, store.Contents(),
        applying,
                          if r.Ok? then P.Applying(id, r.value, decider) else P.Done(r.error))
    {
      AllowBegunBegins(store.Contents(), applying, id, asked, decider, literal, now);
      var row := store.Get(id);
      if row.None? || row.value.status != Status.Open { return Err(P.Refused); }
      if id in applying { return Err(P.ApplyInProgress); }
      var scope := P.Default(asked, "live");
      if scope !in {"live", "manifest"} { return Err(P.Refused); }
      if row.value.filing.hostIsIp || literal {
        var marked := store.MarkApply(id, IpRequiresCidr, now);
        return Err(Settled(marked, P.ApplyProblem(IpRequiresCidr)));
      }
      applying := applying + {id};
      return Ok(scope);
    }

    /** The second half, once the subprocess has returned. */
    method FinishAllow(id: Id, scope: string, decider: string, ok: bool, now: Time, later: Time) returns (r: P.Answer)
      requires Valid()
      modifies this`applying, store
      ensures Valid()
      ensures Ruling(store.Contents(), applying, P.Done(r))
        == AllowFinished(old(store.Contents()), old(applying), id, scope, decider, ok, now, later)
      ensures AllowEnds(old(store.Contents()), old(applying), id, scope, decider, ok, now, later, store.Contents(),
        applying, r)
    {
      AllowFinishedEnds(store.Contents(), applying, id, scope, decider, ok, now, later);
      applying := applying - {id};
      var row := store.Get(id);
      if row.None? || row.value.status != Status.Open { return P.Final; }
      if ok {
        var marked := store.MarkApply(id, Applied, now);
        r := Settled(marked, P.Final);
        if marked.Ok? {
          var closed := store.Close(id, P.AllowVerdict(scope, decider), later);
          r := Settled(closed, P.Final);
        }
      } else {
        var marked := store.MarkApply(id, ApplyFailed, now);
        r := Settled(marked, P.ApplyProblem(ApplyFailed));
      }
    }

    /** Denies this one request. */
    method Deny(id: Id, asked: Option<string>, reason: Option<string>, decider: string, now: Time) returns (r: P.Answer)
      requires Valid()
      modifies store
      ensures Valid()
      ensures Ruling(store.Contents(), applying, P.Done(r))
        == DenyDecided(old(store.Contents()), applying, id, asked, reason, decider, now)
      ensures Denies(old(store.Contents()), applying, id, asked, reason, decider, now, store.Contents(), r)
    {
      DenyDecidedDenies(store.Contents(), applying, id, asked, reason, decider, now);
      var row := store.Get(id);
      if row.None? || row.value.status != Status.Open { return P.Refused; }
      if id in applying { return P.ApplyInProgress; }
      var scope := P.Default(asked, "once");
      if scope !in P.DECIDE_SCOPES { return P.Refused; }
      var closed := store.Close(id, P.OnceVerdict(scope, reason, decider), now);
      r := Settled(closed, P.Final);
    }

    /** Closes every row that has waited a day with no apply in flight, and nothing else. */
    method SweepStale(now: Time) returns (closed: nat, ghost picked: seq<Id>)
      requires Valid()
      modifies store
      ensures Valid() && Lists(picked, P.StaleOpen(old(store.Contents()), applying, now)) && closed == |picked|
      ensures ClosedInOrder(old(store.Contents()), store.Contents(), picked, P.STALE_VERDICT, now)
      ensures forall id :: id in picked <==> Overdue(old(store.Contents()), applying, id, now)
      ensures SweepsStale(old(store.Contents()), applying, now, store.Contents())
    {
      var ids := Queried(P.StaleOpen(store.Contents(), applying, now));
      closed, picked := 0, ids;
      ghost var was := store.Contents();
      for i := 0 to |ids|
        invariant Valid() && closed == i && ClosedInOrder(was, store.Contents(), ids[..i], P.STALE_VERDICT, now)
      {
        assert ids[..i + 1] == ids[..i] + [ids[i]];
        assert ids[i] in ids && ids[i] in P.StaleOpen(was, applying, now);
        var ok := CloseNext(ids[i], P.STALE_VERDICT, now, was, ids[..i]);
        if ok { closed := closed + 1; }
      }
      assert ids[..|ids|] == ids;
      ClosedAreStale(was, store.Contents(), applying, ids, now);
    }

    method CloseNext(id: Id, v: Verdict, now: Time, ghost was: Store, ghost done: seq<Id>) returns (ok: bool)
      requires Valid() && v.status != Status.Open && IsOpen(was, id) && id !in done
      requires ClosedInOrder(was, store.Contents(), done, v, now)
      modifies store
      ensures Valid() && ok && ClosedInOrder(was, store.Contents(), done + [id], v, now)
    {
      CloseOneMore(was, store.Contents(), done, id, v, now);
      var closing := store.Close(id, v, now);
      ok := closing.Ok?;
    }

    /** Closes a request the entry covers, unless it is decided or its allow is in flight. */
    method PersistNext(o: P.Order, id: Id, now: Time, ghost was: Store, ghost done: seq<Id>) returns (closed: bool)
      requires Valid() && IsOpen(was, id) && id !in done
      requires PersistedInOrder(was, store.Contents(), done, P.OrderVerdict(o), now)
      modifies store
      ensures Valid() && closed == (id !in applying)
      ensures PersistedInOrder(was, store.Contents(), if closed then done + [id] else done, P.OrderVerdict(o), now)
    {
      var row := store.Get(id);
      if row.None? || row.value.status != Status.Open || id in applying { return false; }
      PersistOneMore(was, store.Contents(), done, id, P.OrderVerdict(o), now);
      var closing := store.Close(id, P.OrderVerdict(o), now);
      var marking := store.MarkPersist(id, Persisted, now);
      return true;
    }

    method SweepCovered(o: P.Order, now: Time) returns (decided: seq<Id>)
      requires Valid()
      modifies store
      ensures Valid() && Lists(decided, P.CoveredOpen(old(store.Contents()), o.entry) - applying)
      ensures PersistedInOrder(old(store.Contents()), store.Contents(), decided, P.OrderVerdict(o), now)
      ensures forall id :: id in decided <==> Struck(old(store.Contents()), applying, id, o.entry)
      ensures SweepsCovered(old(store.Contents()), applying, o, now, store.Contents())
    {
      var ids := Queried(P.CoveredOpen(store.Contents(), o.entry));
      ghost var was := store.Contents();
      decided := [];
      for i := 0 to |ids|
        invariant Valid() && PersistedInOrder(was, store.Contents(), decided, P.OrderVerdict(o), now)
        invariant decided == NotApplying(ids[..i], applying)
      {
        assert ids[i] in ids && ids[i] in P.CoveredOpen(was, o.entry);
        assert ids[..i + 1][..i] == ids[..i];
        NotApplyingListed(ids[..i], applying);
        var closed := PersistNext(o, ids[i], now, was, decided);
        if closed { decided := decided + [ids[i]]; }
      }
      assert ids[..|ids|] == ids;
      NotApplyingListed(ids, applying);
      PersistedAreStruck(was, store.Contents(), applying, o, decided, now);
    }

    /** What a failed write leaves of the request that asked for it: denied once, and marked. */
    method DenyTrigger(o: P.Order, id: Id, now: Time)
      requires Valid()
      modifies store
      ensures Valid()
      ensures TriggerFails(old(store.Contents()), applying, o.(trigger := Some(id)), now, store.Contents())
    {
      var row := store.Get(id);
      if row.None? || row.value.status != Status.Open { return; }
      if id !in applying {
        var closing := store.Close(id, P.OnceVerdict("once", o.reason, o.decider), now);
      }
      var marking := store.MarkPersist(id, PersistFailed, now);
    }

    /** Writes the entry, reloads the denylist, then closes every open request the entry covers but those whose
        allow is in flight; when the entry cannot be written, only the request that asked for it is denied. */
    method PersistDeny(o: P.Order, diskOk: bool, now: Time) returns (r: Result<seq<Id>, EditError>)
      requires Valid() && WellFormed(o.entry)
      modifies store, denylist, denylist.disk
      ensures Valid() && r.Ok? == (diskOk && !old(denylist.disk.content).Unreadable?)
      ensures r.Ok? ==> && EntriesOf(denylist.disk.content) == With(EntriesOf(old(denylist.disk.content)), o.entry)
                        && Lists(r.value, P.CoveredOpen(old(store.Contents()), o.entry) - applying)
                        && PersistedInOrder(old(store.Contents()), store.Contents(), r.value, P.OrderVerdict(o), now)
      ensures r.Ok? ==> && (forall id :: id in r.value <==> Struck(old(store.Contents()), applying, id, o.entry))
                        && SweepsCovered(old(store.Contents()), applying, o, now, store.Contents())
      ensures r.Err? ==> && denylist.disk.content == old(denylist.disk.content)
                         && TriggerFails(old(store.Contents()), applying, o, now, store.Contents())
    {
      var added := denylist.Add(o.entry, diskOk);
      if added.Err? {
        if o.trigger.Some? { DenyTrigger(o, o.trigger.value, now); }
        return Err(added.error);
      }
      denylist.Reload(true);
      var decided := SweepCovered(o, now);
      return Ok(decided);
    }
  }
}
