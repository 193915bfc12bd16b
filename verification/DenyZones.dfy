/**
 Deny entries and how one is chosen for a host (src/egress_denylist.py).
 */
module DenyZones {
  import opened Wrappers
  import opened Splitting

  datatype Entry = Entry(zone: string, scope: string, createdAt: string, addedBy: string, reason: Option<string>)

  const GLOBAL := "global"

  predicate EndsWith(s: string, suffix: string) {
    |suffix| <= |s| && s[|s| - |suffix|..] == suffix
  }

  /** The host is the zone itself or a subdomain of it. */
  predicate HostCovered(host: string, zone: string) {
    host == zone || EndsWith(host, "." + zone)
  }

  /** A host name's labels, split at its dots. */
  function Labels(host: string): (r: seq<string>)
    ensures |r| > 0
  {
    Split('.', host)
  }

  /** A host is covered exactly when its labels end in the zone's: "evil.com" covers "a.evil.com", not "notevil.com". */
  lemma CoveredByLabels(host: string, zone: string)
    ensures HostCovered(host, zone) <==> Ends(Labels(host), Labels(zone))
  {
    EndsInParts('.', host, zone);
    if EndsWith(host, "." + zone) {
      assert host == host[..|host| - |zone| - 1] + ['.'] + zone;
    }
    if front :| host == front + ['.'] + zone {
      assert EndsWith(host, "." + zone);
    }
  }

  predicate ScopeCovers(scope: string, container: string) {
    scope == GLOBAL || scope == container
  }

  predicate Covers(e: Entry, container: string, host: string) {
    ScopeCovers(e.scope, container) && HostCovered(host, e.zone)
  }

  /** The same said of scope and labels: the entry is global or the container's own, and the zone ends the host. */
  ghost predicate Under(e: Entry, container: string, host: string) {
    (e.scope == GLOBAL || e.scope == container) && Ends(Labels(host), Labels(e.zone))
  }

  lemma CoversIsUnder(e: Entry, container: string, host: string)
    ensures Covers(e, container, host) <==> Under(e, container, host)
  {
    CoveredByLabels(host, e.zone);
  }

  /** a is a better answer than b: a longer zone, or the same length and only a bottle-scoped. */
  predicate Better(a: Entry, b: Entry) {
    |a.zone| > |b.zone| || (|a.zone| == |b.zone| && b.scope == GLOBAL && a.scope != GLOBAL)
  }

  /** The answer after one more entry was looked at. */
  function Pick(best: Option<Entry>, e: Entry, container: string, host: string): Option<Entry> {
    if !Covers(e, container, host) then best
    else if best.None? || Better(e, best.value) then Some(e)
    else best
  }

  /** The entry reported for a host, scanning the list in order. */
  function BestMatch(entries: seq<Entry>, container: string, host: string): Option<Entry> {
    if entries == [] then None
    else Pick(BestMatch(entries[..|entries| - 1], container, host), entries[|entries| - 1], container, host)
  }

  /** What the scan promises: an entry of the list that covers the host and that no other covering
      entry beats, or none when nothing covers it. */
  ghost predicate IsBest(entries: seq<Entry>, container: string, host: string, r: Option<Entry>) {
    && (r.None? ==> forall e :: e in entries ==> !Covers(e, container, host))
    && (r.Some? ==>
          && r.value in entries && Covers(r.value, container, host)
          && forall e :: e in entries && Covers(e, container, host) ==> !Better(e, r.value))
  }

  lemma {:induction false} BestMatchIsBest(entries: seq<Entry>, container: string, host: string)
    ensures IsBest(entries, container, host, BestMatch(entries, container, host))
  {
    if entries != [] {
      var init, last := entries[..|entries| - 1], entries[|entries| - 1];
      BestMatchIsBest(init, container, host);
      assert forall e :: e in entries <==> e in init || e == last;
    }
  }

  method Matches(entries: seq<Entry>, container: string, host: string) returns (best: Option<Entry>)
    ensures best == BestMatch(entries, container, host)
    ensures IsBest(entries, container, host, best)
  {
    best := None;
    for i := 0 to |entries|
      invariant best == BestMatch(entries[..i], container, host)
    {
      var e := entries[i];
      assert entries[..i + 1][..i] == entries[..i];
      if !ScopeCovers(e.scope, container) { continue; }
      if !HostCovered(host, e.zone) { continue; }
      if best.None? || |e.zone| > |best.value.zone| {
        best := Some(e);
      } else if |e.zone| == |best.value.zone| && best.value.scope == GLOBAL && e.scope != GLOBAL {
        best := Some(e);
      }
    }
    assert entries[..|entries|] == entries;
    BestMatchIsBest(entries, container, host);
  }

  /** What a match says of scopes, labels and lengths: none exactly when no entry is over the host; else one that is,
      with no longer zone over the host, and a bottle's own where one of that length is. */
  lemma MatchByLabels(entries: seq<Entry>, container: string, host: string)
    ensures var r := BestMatch(entries, container, host);
      && (r.None? <==> forall e :: e in entries ==> !Under(e, container, host))
      && (r.Some? ==> r.value in entries && Under(r.value, container, host))
      && (r.Some? ==> forall e :: e in entries && Under(e, container, host) ==>
            |e.zone| <= |r.value.zone| && (|e.zone| == |r.value.zone| && e.scope != GLOBAL ==> r.value.scope != GLOBAL))
  {
    BestMatchIsBest(entries, container, host);
    forall e | e in entries ensures Covers(e, container, host) <==> Under(e, container, host) {
      CoversIsUnder(e, container, host);
    }
  }

  predicate Names(e: Entry, zone: string, scope: string) {
    e.zone == zone && e.scope == scope
  }

  /** No two entries name the same zone and scope. */
  ghost predicate UniqueKeys(entries: seq<Entry>) {
    forall i, j :: 0 <= i < j < |entries| ==> !Names(entries[j], entries[i].zone, entries[i].scope)
  }

  /** Two zones of one length that cover one host are the same zone. */
  lemma SameLengthSameZone(host: string, a: string, b: string)
    requires HostCovered(host, a) && HostCovered(host, b) && |a| == |b|
    ensures a == b
  {
    var da, db := "." + a, "." + b;
    assert da[1..] == a && db[1..] == b;
    if EndsWith(host, da) { assert host[|host| - |a|..] == host[|host| - |da|..][1..]; }
    if EndsWith(host, db) { assert host[|host| - |b|..] == host[|host| - |db|..][1..]; }
  }

  /** With one entry per zone and scope there is one best entry, whatever the order of the list. */
  lemma BestIsUnique(xs: seq<Entry>, ys: seq<Entry>, container: string, host: string, a: Option<Entry>,
                     b: Option<Entry>)
    requires UniqueKeys(xs) && forall e :: e in xs <==> e in ys
    requires IsBest(xs, container, host, a) && IsBest(ys, container, host, b)
    ensures a == b
  {
    if a.Some? && b.Some? {
      assert !Better(b.value, a.value) && !Better(a.value, b.value);
      SameLengthSameZone(host, a.value.zone, b.value.zone);
      var i :| 0 <= i < |xs| && xs[i] == a.value;
      var j :| 0 <= j < |xs| && xs[j] == b.value;
      assert Names(xs[i], xs[j].zone, xs[j].scope) && Names(xs[j], xs[i].zone, xs[i].scope);
    }
  }

  /** Matching is a function of the set of entries: reordering the file changes no answer. */
  lemma MatchIgnoresOrder(xs: seq<Entry>, ys: seq<Entry>, container: string, host: string)
    requires UniqueKeys(xs) && forall e :: e in xs <==> e in ys
    ensures BestMatch(xs, container, host) == BestMatch(ys, container, host)
  {
    BestMatchIsBest(xs, container, host);
    BestMatchIsBest(ys, container, host);
    BestIsUnique(xs, ys, container, host, BestMatch(xs, container, host), BestMatch(ys, container, host));
  }

  // ------------------------------------------------------------------ edits of the list

  function Without(entries: seq<Entry>, zone: string, scope: string): seq<Entry> {
    if entries == [] then []
    else
      var init, last := Without(entries[..|entries| - 1], zone, scope), entries[|entries| - 1];
      if Names(last, zone, scope) then init else init + [last]
  }

  /** add: replaces the entry for (zone, scope), or appends it. */
  function With(entries: seq<Entry>, e: Entry): seq<Entry> {
    Without(entries, e.zone, e.scope) + [e]
  }

  lemma {:induction false} WithoutMembers(entries: seq<Entry>, zone: string, scope: string)
    ensures forall e :: e in Without(entries, zone, scope) <==> e in entries && !Names(e, zone, scope)
  {
    if entries != [] {
      var init, last := entries[..|entries| - 1], entries[|entries| - 1];
      WithoutMembers(init, zone, scope);
      assert entries == init + [last];
    }
  }

  /** remove reports success exactly when the named entry was there. */
  lemma {:induction false} WithoutShrinks(entries: seq<Entry>, zone: string, scope: string)
    ensures |Without(entries, zone, scope)| <= |entries|
    ensures |Without(entries, zone, scope)| == |entries| <==> forall e :: e in entries ==> !Names(e, zone, scope)
  {
    if entries != [] {
      var init, last := entries[..|entries| - 1], entries[|entries| - 1];
      WithoutShrinks(init, zone, scope);
      assert entries == init + [last];
    }
  }

  lemma {:induction false} WithoutKeepsUnique(entries: seq<Entry>, zone: string, scope: string)
    requires UniqueKeys(entries)
    ensures UniqueKeys(Without(entries, zone, scope))
  {
    if entries != [] {
      var init, last := entries[..|entries| - 1], entries[|entries| - 1];
      WithoutKeepsUnique(init, zone, scope);
      WithoutMembers(init, zone, scope);
      var rest := Without(init, zone, scope);
      forall i | 0 <= i < |rest| ensures !Names(last, rest[i].zone, rest[i].scope) {
        assert rest[i] in init;
        var j :| 0 <= j < |init| && init[j] == rest[i];
      }
    }
  }

  /** Adding touches the named entry alone and keeps one entry per zone and scope. */
  lemma AddKeepsTheRest(entries: seq<Entry>, added: Entry)
    ensures forall e ::
             e in With(entries, added) <==> e == added || (e in entries && !Names(e, added.zone, added.scope))
    ensures UniqueKeys(entries) ==> UniqueKeys(With(entries, added))
  {
    WithoutMembers(entries, added.zone, added.scope);
    var rest := Without(entries, added.zone, added.scope);
    if UniqueKeys(entries) {
      WithoutKeepsUnique(entries, added.zone, added.scope);
      forall i | 0 <= i < |rest| ensures !Names(added, rest[i].zone, rest[i].scope) {
        assert rest[i] in rest;
      }
    }
  }
}
