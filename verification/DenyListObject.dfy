/**
 The DenyList object: a cached view of the denylist file that reloads when the file's modification time
 changes, and edits it under a forced reload (src/egress_denylist.py, class DenyList).
 */
module DenyListObject {
  import opened Wrappers
  import opened DenyZones
  import opened DenyFile

  /** The file on disk; each replacement gets the next modification time. */
  class Disk {
    var content: Content
    var version: nat

    /** What a read gives has only well-formed entries, whatever was written. */
    ghost predicate Valid()
      reads this
    {
      AllWellFormed(EntriesOf(content))
    }

    constructor (raw: Raw, now: string)
      ensures Valid() && content == Read(raw, now)
    {
      content, version := Read(raw, now), 0;
    }

    function Mtime(): Option<nat>
      reads this
    {
      if content == Missing then None else Some(version)
    }

    method Replace(raw: Raw, now: string)
      modifies this
      ensures Valid() && content == Read(raw, now) && version == old(version) + 1
    {
      content, version := Read(raw, now), version + 1;
    }
  }

  datatype EditError = Corrupt | DiskFailure

  class DenyList {
    const disk: Disk
    var entries: seq<Entry>
    var mtime: Option<nat>
    var loaded: bool
    var corrupt: bool

    /** A cache that carries the file's current modification time holds its current content. */
    ghost predicate Valid()
      reads this, disk
    {
      && disk.Valid() && (mtime.Some? ==> mtime.value <= disk.version)
      && (loaded && mtime == disk.Mtime() ==> entries == EntriesOf(disk.content) && corrupt == disk.content.Unreadable?)
    }

    constructor (disk: Disk)
      requires disk.Valid()
      ensures this.disk == disk && Valid() && loaded && mtime == disk.Mtime()
    {
      this.disk := disk;
      entries, mtime, loaded, corrupt := [], None, false, false;
      new;
      Reload(true);
    }

    method Reload(force: bool)
      requires Valid()
      modifies this
      ensures Valid() && loaded && mtime == disk.Mtime()
    {
      var stamp := disk.Mtime();
      if !force && loaded && stamp == mtime { return; }
      mtime, loaded, corrupt := stamp, true, false;
      if stamp.None? {
        entries := [];
        return;
      }
      if disk.content.Unreadable? {
        corrupt, entries := true, [];
        return;
      }
      entries := disk.content.entries;
    }

    /** Answers from the file as it is now, whatever was cached; an unreadable file denies nothing. */
    method Matches(container: string, host: string) returns (best: Option<Entry>)
      requires Valid()
      modifies this
      ensures Valid() && best == Reading(disk.content, container, host)
    {
      Reload(false);
      if corrupt { return None; }
      best := DenyZones.Matches(entries, container, host);
    }

    /** Writes the list and takes it as the cache, which is then what the file reads as exactly when the list is
        well formed. */
    method Persist(next: seq<Entry>, diskOk: bool) returns (r: Result<(), EditError>)
      requires Valid()
      modifies this, disk
      ensures r == if diskOk then Ok(()) else Err(DiskFailure)
      ensures disk.content == if diskOk then Read(Objects(ToDicts(next)), "") else old(disk.content)
      ensures disk.Valid() && (Valid() <==> !diskOk || AllWellFormed(next))
    {
      if !diskOk { return Err(DiskFailure); }
      ListRoundTrip(next, "");
      disk.Replace(Objects(ToDicts(next)), "");
      entries, mtime, loaded, corrupt := next, disk.Mtime(), true, false;
      return Ok(());
    }

    /** Adds or replaces the entry for its zone and scope; an unreadable file is never overwritten.  An entry with
        an empty zone, scope or author leaves a cache that is not what the file reads as, and no other does. */
    method Add(e: Entry, diskOk: bool) returns (r: Result<Entry, EditError>)
      requires Valid()
      modifies this, disk
      ensures disk.Valid() && (Valid() <==> r.Err? || WellFormed(e))
      ensures r == if old(disk.content).Unreadable? then Err(Corrupt) else if !diskOk then Err(DiskFailure) else Ok(e)
      ensures r.Err? ==> disk.content == old(disk.content)
      ensures r.Ok? ==> disk.content == Read(Objects(ToDicts(Edited(EntriesOf(old(disk.content)), Edit.Add(e)))), "")
      ensures r.Ok? && WellFormed(e) ==> disk.content == Listed(Edited(EntriesOf(old(disk.content)), Edit.Add(e)))
    {
      Reload(true);
      if corrupt { return Err(Corrupt); }
      var remaining := Drop(e.zone, e.scope);
      remaining := remaining + [e];
      AddedIsWellFormed(entries, e);
      ListRoundTrip(remaining, "");
      var done := Persist(remaining, diskOk);
      if done.Err? { return Err(done.error); }
      return Ok(e);
    }

    /** Removes the entry for a zone and scope; true exactly when there was one. */
    method Remove(zone: string, scope: string, diskOk: bool) returns (r: Result<bool, EditError>)
      requires Valid()
      modifies this, disk
      ensures Valid()
      ensures r.Ok? ==> (r.value <==> exists x :: x in EntriesOf(old(disk.content)) && Names(x, zone, scope))
      ensures r.Ok? ==> EntriesOf(disk.content) == Edited(EntriesOf(old(disk.content)), Edit.Remove(zone, scope))
      ensures r.Err? ==> disk.content == old(disk.content)
    {
      Reload(true);
      if corrupt { return Err(Corrupt); }
      var remaining := Drop(zone, scope);
      WithoutShrinks(entries, zone, scope);
      EditedIsWellFormed(entries, Edit.Remove(zone, scope));
      ListRoundTrip(remaining, "");
      var removed := |remaining| != |entries|;
      if removed {
        var done := Persist(remaining, diskOk);
        if done.Err? { return Err(done.error); }
      } else {
        NothingToDrop(entries, zone, scope);
      }
      return Ok(removed);
    }

    method Drop(zone: string, scope: string) returns (kept: seq<Entry>)
      ensures kept == Without(entries, zone, scope)
    {
      kept := [];
      for i := 0 to |entries|
        invariant kept == Without(entries[..i], zone, scope)
      {
        assert entries[..i + 1][..i] == entries[..i];
        if !(entries[i].zone == zone && entries[i].scope == scope) {
          kept := kept + [entries[i]];
        }
      }
      assert entries[..|entries|] == entries;
    }
  }

  lemma AddedIsWellFormed(entries: seq<Entry>, e: Entry)
    requires AllWellFormed(entries)
    ensures AllWellFormed(With(entries, e)) <==> WellFormed(e)
  {
    WithoutMembers(entries, e.zone, e.scope);
    assert e in With(entries, e);
  }

  lemma {:induction false} NothingToDrop(entries: seq<Entry>, zone: string, scope: string)
    requires forall e :: e in entries ==> !Names(e, zone, scope)
    ensures Without(entries, zone, scope) == entries
  {
    if entries != [] {
      NothingToDrop(entries[..|entries| - 1], zone, scope);
    }
  }
}
