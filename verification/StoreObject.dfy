/**
 The object the broker holds: one connection to the request table and its log, whose methods are the
 transactions of RequestStore (src/egress_store.py, class EgressStore).
 */
module StoreObject {
  import opened Wrappers
  import opened RequestStore

  class EgressStore {
    var rows: map<Id, Row>
    var events: seq<Event>

    function Contents(): Store
      reads this
    {
      Store(rows, events)
    }

    ghost predicate Valid()
      reads this
    {
      UniqueOpen(Contents())
    }

    constructor (initial: Store)
      requires UniqueOpen(initial)
      ensures Valid() && Contents() == initial
    {
      rows, events := initial.rows, initial.events;
    }

    method InsertEvent(id: Id, kind: EventKind, now: Time)
      modifies this`events
      ensures events == old(events) + [Event(id, kind, now)]
    {
      events := events + [Event(id, kind, now)];
    }

    method ApplyHit(id: Id, now: Time) returns (row: Row)
      requires id in rows
      modifies this
      ensures Contents() == RequestStore.ApplyHit(old(Contents()), id, now) && id in rows && row == rows[id]
    {
      rows := rows[id := rows[id].(hitCount := rows[id].hitCount + 1, lastHitAt := now)];
      InsertEvent(id, Hit(1), now);
      row := rows[id];
    }

    method InsertOpen(id: Id, f: Filing, now: Time) returns (row: Row)
      modifies this
      ensures Contents() == RequestStore.InsertOpen(old(Contents()), id, f, now) && id in rows && row == rows[id]
    {
      rows := rows[id := FreshRow(f, now)];
      InsertEvent(id, Requested(f), now);
      row := rows[id];
    }

    method Get(id: Id) returns (r: Option<Row>)
      ensures r == if id in rows then Some(rows[id]) else None
    {
      r := if id in rows then Some(rows[id]) else None;
    }

    /** The open row for an ask, whichever it is, or None when every row is decided or asks for something else. */
    method FindOpen(key: AskKey) returns (r: Option<Id>)
      ensures r.Some? ==> OpenFor(Contents(), r.value, key)
      ensures r.None? ==> forall id :: !OpenFor(Contents(), id, key)
    {
      var left := rows.Keys;
      while left != {}
        invariant left <= rows.Keys
        invariant forall id :: OpenFor(Contents(), id, key) ==> id in left
      {
        var id :| id in left;
        if rows[id].status == Open && KeyOf(rows[id].filing) == key { return Some(id); }
        left := left - {id};
      }
      return None;
    }

    method OpenOrHit(id: Id, f: Filing, now: Time) returns (r: Result<(Id, Row, bool), StoreError>)
      requires Valid()
      modifies this
      ensures Valid() && Contents() == Perform(old(Contents()), DoOpenOrHit(id, f, now))
      ensures ErrorOf(old(Contents()), DoOpenOrHit(id, f, now)) == if r.Ok? then None else Some(r.error)
      ensures r.Ok? ==> r.value.0 == Target(old(Contents()), DoOpenOrHit(id, f, now)) && r.value.0 in rows
                        && r.value.1 == rows[r.value.0] && r.value.2 == (r.value.0 !in old(rows))
    {
      PerformKeeps(Contents(), DoOpenOrHit(id, f, now));
      if id in rows {
        if KeyOf(rows[id].filing) != KeyOf(f) { return Err(UnknownRequest); }
        if rows[id].status != Open { return Err(AlreadyDecided); }
        var row := ApplyHit(id, now);
        return Ok((id, row, false));
      }
      var other := FindOpen(KeyOf(f));
      if other.Some? {
        var row := ApplyHit(other.value, now);
        return Ok((other.value, row, false));
      }
      var row := InsertOpen(id, f, now);
      return Ok((id, row, true));
    }

    method SuppressedHit(id: Id, now: Time) returns (r: Result<(), StoreError>)
      requires Valid()
      modifies this
      ensures Valid() && Contents() == Perform(old(Contents()), DoSuppressedHit(id, now))
      ensures ErrorOf(old(Contents()), DoSuppressedHit(id, now)) == if r.Ok? then None else Some(r.error)
    {
      PerformKeeps(Contents(), DoSuppressedHit(id, now));
      if id !in rows { return Err(NoRequest); }
      var row := rows[id];
      if row.status != Denied || row.decidedBy != Some("denylist") { return Err(NotADenylistDenial); }
      rows := rows[id := row.(hitCount := row.hitCount + 1, lastHitAt := now)];
      return Ok(());
    }

    method MarkNotified(id: Id, now: Time) returns (r: Result<(), StoreError>)
      requires Valid()
      modifies this
      ensures Valid() && Contents() == Perform(old(Contents()), DoNotified(id, now))
      ensures ErrorOf(old(Contents()), DoNotified(id, now)) == if r.Ok? then None else Some(r.error)
    {
      PerformKeeps(Contents(), DoNotified(id, now));
      if id !in rows { return Err(NoRequest); }
      assert rows[id := rows[id]] == rows;
      InsertEvent(id, Notified, now);
      return Ok(());
    }

    method Close(id: Id, v: Verdict, now: Time) returns (r: Result<(), StoreError>)
      requires Valid()
      modifies this
      ensures Valid() && Contents() == Perform(old(Contents()), DoClose(id, v, now))
      ensures ErrorOf(old(Contents()), DoClose(id, v, now)) == if r.Ok? then None else Some(r.error)
    {
      PerformKeeps(Contents(), DoClose(id, v, now));
      if v.status == Open { return Err(InvalidStatus); }
      if id !in rows { return Err(NoRequest); }
      if rows[id].status != Open { return Err(AlreadyDecided); }
      rows := rows[id := rows[id].(status := v.status, decidedAt := Some(now), decidedBy := Some(v.decider),
          scope := v.scope,
                                   denyReason := v.reason, denylistZone := v.zone, denylistScope := v.zoneScope,
                                   decisionBody := Some(v.body), lastError := None)];
      InsertEvent(id, Closed(v.status, v.scope, v.reason, v.decider, v.zone), now);
      return Ok(());
    }

    method MarkApply(id: Id, outcome: ApplyOutcome, now: Time) returns (r: Result<(), StoreError>)
      requires Valid()
      modifies this
      ensures Valid() && Contents() == Perform(old(Contents()), DoApply(id, outcome, now))
      ensures ErrorOf(old(Contents()), DoApply(id, outcome, now)) == if r.Ok? then None else Some(r.error)
    {
      PerformKeeps(Contents(), DoApply(id, outcome, now));
      if id !in rows { return Err(NoRequest); }
      var attempt := rows[id].applyAttempts + 1;
      if outcome == Applied {
        rows := rows[id := rows[id].(applyStatus := Some(Applied), applyAttempts := attempt, lastError := None)];
        InsertEvent(id, ApplySucceeded, now);
      } else {
        rows := rows[id := rows[id].(applyStatus := Some(outcome), applyAttempts := attempt,
                                     lastError := Some(LastError(outcome, attempt, now)))];
        InsertEvent(id, ApplyError(outcome, attempt), now);
      }
      return Ok(());
    }

    method MarkPersist(id: Id, outcome: PersistOutcome, now: Time) returns (r: Result<(), StoreError>)
      requires Valid()
      modifies this
      ensures Valid() && Contents() == Perform(old(Contents()), DoPersist(id, outcome, now))
      ensures ErrorOf(old(Contents()), DoPersist(id, outcome, now)) == if r.Ok? then None else Some(r.error)
    {
      PerformKeeps(Contents(), DoPersist(id, outcome, now));
      if id !in rows { return Err(NoRequest); }
      rows := rows[id := rows[id].(persistStatus := Some(outcome))];
      InsertEvent(id, PersistLogged(outcome), now);
      return Ok(());
    }
  }
}
