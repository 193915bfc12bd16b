/**
 The denylist coalesce window: one record per (container, matched zone), so that a container
 hammering a denied host writes one denied row per window (src/egress_broker_host.py).
 */
module HitWindow {
  import opened RequestStore

  const SUPPRESS_SECONDS := 60

  datatype HitKey = HitKey(container: string, zone: string)

  /** The last logged hit of a key, the denied row it wrote, and the hits suppressed onto it since. */
  datatype HitState = HitState(last: Time, request: Id, suppressed: nat)

  type Window = map<HitKey, HitState>

  predicate ShouldLog(w: Window, key: HitKey, now: Time) {
    key !in w || now - w[key].last >= SUPPRESS_SECONDS
  }

  predicate Expired(hit: HitState, now: Time) {
    hit.last < now - SUPPRESS_SECONDS
  }

  function Prune(w: Window, now: Time): Window {
    map k | k in w && !Expired(w[k], now) :: w[k]
  }

  /** A logged hit starts a new window for its key and drops the expired ones. */
  function LogHit(w: Window, key: HitKey, now: Time, request: Id): Window {
    Prune(w[key := HitState(now, request, 0)], now)
  }

  function SuppressHit(w: Window, key: HitKey): Window
    requires key in w
  {
    w[key := w[key].(suppressed := w[key].suppressed + 1)]
  }

  // ------------------------------------------------------------------ runs of hits

  /** A denied filing: its window key, the clock it read and the id its row would take. */
  datatype Call = Call(key: HitKey, now: Time, request: Id)

  /** Whether a new denied row was written, and the row the caller is pointed at. */
  datatype Outcome = Outcome(logged: bool, request: Id)

  function Answer(w: Window, c: Call): Outcome {
    if ShouldLog(w, c.key, c.now) then Outcome(true, c.request) else Outcome(false, w[c.key].request)
  }

  function After(w: Window, c: Call): Window {
    if ShouldLog(w, c.key, c.now) then LogHit(w, c.key, c.now, c.request) else SuppressHit(w, c.key)
  }

  /** The same window, never pruned. */
  function AfterUnpruned(w: Window, c: Call): Window {
    if ShouldLog(w, c.key, c.now) then w[c.key := HitState(c.now, c.request, 0)] else SuppressHit(w, c.key)
  }

  function WindowAfter(calls: seq<Call>): Window {
    if calls == [] then map[] else After(WindowAfter(calls[..|calls| - 1]), calls[|calls| - 1])
  }

  function UnprunedAfter(calls: seq<Call>): Window {
    if calls == [] then map[] else AfterUnpruned(UnprunedAfter(calls[..|calls| - 1]), calls[|calls| - 1])
  }

  /** What the i-th call was answered. */
  function AnswerAt(calls: seq<Call>, i: nat): Outcome
    requires i < |calls|
  {
    Answer(WindowAfter(calls[..i]), calls[i])
  }

  function UnprunedAnswerAt(calls: seq<Call>, i: nat): Outcome
    requires i < |calls|
  {
    Answer(UnprunedAfter(calls[..i]), calls[i])
  }

  /** The clock never runs backwards from one call to the next. */
  ghost predicate ClockNeverBack(calls: seq<Call>) {
    forall i, j :: 0 <= i < j < |calls| ==> calls[i].now <= calls[j].now
  }

  /** The pruned window is the unpruned one less records that have already expired. */
  ghost predicate PrunedOf(w: Window, full: Window, now: Time) {
    && (forall k :: k in w ==> k in full && full[k] == w[k])
    && (forall k :: k in full && k !in w ==> Expired(full[k], now))
  }

  lemma {:induction false} PruningOnlyForgets(calls: seq<Call>, now: Time)
    requires ClockNeverBack(calls) && forall c :: c in calls ==> c.now <= now
    ensures PrunedOf(WindowAfter(calls), UnprunedAfter(calls), now)
  {
    if calls != [] {
      var init, c := calls[..|calls| - 1], calls[|calls| - 1];
      PruningOnlyForgets(init, c.now);
    }
  }

  /** Pruning never changes an answer: it is the answer of a window that forgets nothing. */
  lemma PruningChangesNoAnswer(calls: seq<Call>, i: nat)
    requires ClockNeverBack(calls) && i < |calls|
    ensures AnswerAt(calls, i) == UnprunedAnswerAt(calls, i)
  {
    PruningOnlyForgets(calls[..i], calls[i].now);
  }

  /** The clock condition is needed: a reading that jumps ahead and back makes pruning forget a live window. */
  lemma PruningNeedsTheClock()
    ensures exists calls, i: nat :: i < |calls| && AnswerAt(calls, i) != UnprunedAnswerAt(calls, i)
  {
    var a, b := HitKey("a", "z"), HitKey("b", "z");
    var calls := [Call(a, 0, "1"), Call(b, 100, "2"), Call(a, 1, "3")];
    var one, two := calls[..1], calls[..2];
    assert one == [calls[0]] && one[..0] == [] && two == [calls[0], calls[1]] && two[..1] == one;
    assert WindowAfter(one) == map[a := HitState(0, "1", 0)] == UnprunedAfter(one) by {
      assert WindowAfter([]) == map[] == UnprunedAfter([]);
    }
    assert a !in WindowAfter(two) && a in UnprunedAfter(two);
    assert AnswerAt(calls, 2) != UnprunedAnswerAt(calls, 2);
  }

  /** The record of a key is its latest logged hit. */
  lemma {:induction false} RecordIsLatestLog(calls: seq<Call>, i: nat)
    requires i < |calls| && AnswerAt(calls, i).logged
    ensures var full := UnprunedAfter(calls); var key := calls[i].key;
            ClockNeverBack(calls) ==> key in full && full[key].last >= calls[i].now
  {
    var init, c := calls[..|calls| - 1], calls[|calls| - 1];
    if ClockNeverBack(calls) {
      if i < |init| {
        assert init[..i] == calls[..i];
        RecordIsLatestLog(init, i);
      } else {
        assert calls[..i] == init;
        PruningChangesNoAnswer(calls, i);
      }
    }
  }

  /** Two logged hits of one (container, zone) are at least a window apart. */
  lemma LogsAreAWindowApart(calls: seq<Call>, i: nat, j: nat)
    requires ClockNeverBack(calls) && i < j < |calls| && calls[i].key == calls[j].key
    requires AnswerAt(calls, i).logged && AnswerAt(calls, j).logged
    ensures calls[j].now - calls[i].now >= SUPPRESS_SECONDS
  {
    PruningChangesNoAnswer(calls, j);
    assert calls[..j][..i] == calls[..i];
    RecordIsLatestLog(calls[..j], i);
  }

  /** The record of the key is of this logged call. */
  ghost predicate RecordOf(calls: seq<Call>, key: HitKey, i: nat) {
    && i < |calls| && calls[i].key == key && AnswerAt(calls, i).logged
    && var full := UnprunedAfter(calls);
      key in full && full[key].last == calls[i].now && full[key].request == calls[i].request
  }

  lemma {:induction false} RecordIsOfALog(calls: seq<Call>, key: HitKey)
    requires ClockNeverBack(calls) && key in UnprunedAfter(calls)
    ensures exists i: nat :: RecordOf(calls, key, i)
  {
    var n := |calls| - 1;
    assert calls[..n + 1] == calls;
    PruningChangesNoAnswer(calls, n);
    if calls[n].key == key && AnswerAt(calls, n).logged {
      assert RecordOf(calls, key, n);
    } else {
      RecordIsOfALog(calls[..n], key);
      var i: nat :| RecordOf(calls[..n], key, i);
      assert calls[..n][..i] == calls[..i];
      assert RecordOf(calls, key, i);
    }
  }

  /** The i-th call was logged, with the key of the j-th and less than a window before it. */
  ghost predicate CoversTheHit(calls: seq<Call>, i: nat, j: nat)
    requires j < |calls|
  {
    i < j && calls[i].key == calls[j].key && AnswerAt(calls, i).logged && calls[j].now - calls[i].now < 60
  }

  /** A hit is suppressed exactly when one of its container and zone was logged less than a minute before it,
      and its caller is pointed at the row that one wrote. */
  lemma SuppressedIffLoggedAMinuteAgo(calls: seq<Call>, j: nat)
    requires ClockNeverBack(calls) && j < |calls|
    ensures !AnswerAt(calls, j).logged <==> exists i: nat :: CoversTheHit(calls, i, j)
    ensures forall i: nat :: CoversTheHit(calls, i, j) ==> AnswerAt(calls, j).request == calls[i].request
    ensures AnswerAt(calls, j).logged ==> AnswerAt(calls, j).request == calls[j].request
  {
    var before, key := calls[..j], calls[j].key;
    PruningChangesNoAnswer(calls, j);
    if key in UnprunedAfter(before) {
      RecordIsOfALog(before, key);
      var r: nat :| RecordOf(before, key, r);
      assert before[..r] == calls[..r];
      if !AnswerAt(calls, j).logged { assert CoversTheHit(calls, r, j); }
      forall i: nat | CoversTheHit(calls, i, j)
        ensures !AnswerAt(calls, j).logged && AnswerAt(calls, j).request == calls[i].request
      {
        if AnswerAt(calls, j).logged { LogsAreAWindowApart(calls, i, j); }
        OneLogAMinute(calls, i, r);
      }
    } else {
      forall i: nat | i < j && calls[i].key == key ensures !AnswerAt(calls, i).logged {
        if AnswerAt(calls, i).logged {
          assert before[..i] == calls[..i];
          RecordIsLatestLog(before, i);
        }
      }
    }
  }

  lemma OneLogAMinute(calls: seq<Call>, i: nat, j: nat)
    requires ClockNeverBack(calls) && i < |calls| && j < |calls| && calls[i].key == calls[j].key
    requires AnswerAt(calls, i).logged && AnswerAt(calls, j).logged
    requires -SUPPRESS_SECONDS < calls[j].now - calls[i].now < SUPPRESS_SECONDS
    ensures i == j
  {
    if i < j { LogsAreAWindowApart(calls, i, j); }
    if j < i { LogsAreAWindowApart(calls, j, i); }
  }

  // ------------------------------------------------------------------ surfacing suppressed hits

  /** A log line that tells how many hits of a key were suppressed since the last one. */
  datatype Line = Line(key: HitKey, suppressed: nat)

  function Sum(lines: seq<Line>, key: HitKey): nat {
    if lines == [] then 0
    else Sum(lines[..|lines| - 1], key) + if lines[|lines| - 1].key == key then lines[|lines| - 1].suppressed else 0
  }

  lemma {:induction false} SumOfConcat(a: seq<Line>, b: seq<Line>, key: HitKey)
    ensures Sum(a + b, key) == Sum(a, key) + Sum(b, key)
  {
    if b == [] {
      assert a + b == a;
    } else {
      var init := b[..|b| - 1];
      assert (a + b)[..|a + b| - 1] == a + init;
      SumOfConcat(a, init, key);
    }
  }

  function Pending(w: Window, key: HitKey): nat {
    if key in w then w[key].suppressed else 0
  }

  /** Drops every expired record, logging the suppressed count of each that still carries one. */
  method PruneAndLog(w: Window, now: Time) returns (kept: Window, lines: seq<Line>)
    ensures kept == Prune(w, now)
    ensures forall k :: Sum(lines, k) + Pending(kept, k) == Pending(w, k)
  {
    kept, lines := w, [];
    var todo := set k | k in w && Expired(w[k], now);
    while todo != {}
      invariant todo <= w.Keys && forall k :: k in todo ==> Expired(w[k], now)
      invariant kept.Keys <= w.Keys && forall k :: k in kept ==> kept[k] == w[k]
      invariant forall k :: k in w && (k in todo || !Expired(w[k], now)) <==> k in kept
      invariant forall k :: Sum(lines, k) + Pending(kept, k) == Pending(w, k)
      decreases |todo|
    {
      var k :| k in todo;
      ghost var before, had := lines, kept;
      todo := todo - {k};
      kept := kept - {k};
      if w[k].suppressed > 0 {
        lines := lines + [Line(k, w[k].suppressed)];
        assert lines[..|lines| - 1] == before;
      }
    }
  }

  /** How many suppressed hits of a key a call surfaces: all of them, when it logs a hit of that key or evicts it. */
  function Surfaced(w: Window, c: Call, k: HitKey): nat {
    if ShouldLog(w, c.key, c.now) && (k == c.key || (k in w && Expired(w[k], c.now))) then Pending(w, k) else 0
  }

  /** One denied filing with its log lines: the expired windows it evicts, then its own. */
  method Consult(w: Window, c: Call) returns (after: Window, outcome: Outcome, lines: seq<Line>)
    ensures after == After(w, c) && outcome == Answer(w, c)
    ensures forall k :: Sum(lines, k) == Surfaced(w, c, k)
  {
    outcome := Answer(w, c);
    if ShouldLog(w, c.key, c.now) {
      var suppressed := if c.key in w then w[c.key].suppressed else 0;
      var restarted := w[c.key := HitState(c.now, c.request, 0)];
      var evicted;
      after, evicted := PruneAndLog(restarted, c.now);
      lines := evicted + [Line(c.key, suppressed)];
      forall k ensures Sum(lines, k) == Surfaced(w, c, k) {
        SumOfConcat(evicted, [Line(c.key, suppressed)], k);
        assert [Line(c.key, suppressed)][..0] == [];
      }
    } else {
      after := SuppressHit(w, c.key);
      lines := [];
    }
  }

  /** The calls of a run that were suppressed onto an earlier row of a key. */
  function SuppressedCalls(calls: seq<Call>, key: HitKey): nat {
    if calls == [] then 0
    else
      var init, c := calls[..|calls| - 1], calls[|calls| - 1];
      SuppressedCalls(init, key) + if c.key == key && !Answer(WindowAfter(init), c).logged then 1 else 0
  }

  function SurfacedHits(calls: seq<Call>, key: HitKey): nat {
    if calls == [] then 0
    else
      var init, c := calls[..|calls| - 1], calls[|calls| - 1];
      SurfacedHits(init, key) + Surfaced(WindowAfter(init), c, key)
  }

  /** Every suppressed hit of a run is surfaced exactly once, by the next logged hit of its key or by
      its eviction, or is still pending in the window; no clock condition is needed. */
  lemma {:induction false} SuppressedHitsAreSurfacedOnce(calls: seq<Call>, key: HitKey)
    ensures SuppressedCalls(calls, key) == SurfacedHits(calls, key) + Pending(WindowAfter(calls), key)
  {
    if calls != [] {
      SuppressedHitsAreSurfacedOnce(calls[..|calls| - 1], key);
    }
  }
}
