/**
 The allocation file and the calls that change it, phase by phase (src/bottle_net.py).
 */
module BottleNetObject {
  import opened Wrappers
  import opened BottleNet
  import opened BottleNetAddresses

  /** Phase 1, bottle by bottle: kept entries must still be clean. */
  method CheckExisting(c: Config, t: Taken, file: Alloc, names: seq<string>) returns (ok: bool)
    ensures ok == AllClean(c, t, file, names)
  {
    for i := 0 to |names|
      invariant AllClean(c, t, file, names[..i])
    {
      if names[i] in file && !Clean(c, t, names[i], file[names[i]]) {
        return false;
      }
    }
    assert names[..|names|] == names;
    return true;
  }

  /** Phase 2, bottle by bottle: the first bad ssh port decides; until then each is recorded. */
  method PutSshPorts(t: Taken, file: Alloc, bottles: Bottles, names: seq<string>) returns (r: Result<Alloc, Refusal>)
    requires forall n :: n in names <==> n in bottles
    ensures r == match SshRefusal(t, bottles, names) case Some(e) => Err(e) case None => Ok(WithSsh(file, bottles))
  {
    var work := file;
    for i := 0 to |names|
      invariant SshRefusal(t, bottles, names[..i]).None?
      invariant work.Keys == file.Keys
      invariant forall n ::
                 n in file ==> work[n] == if n in names[..i] then file[n].(sshPort := bottles[n]) else file[n]
    {
      var name := names[i];
      assert names[..i + 1] == names[..i] + [name] && names[..i + 1][..i] == names[..i] && name in names;
      if bottles[name].Some? {
        if !IsPort(bottles[name].value) {
          RefusalStays(t, bottles, names, i + 1);
          return Err(BadPort);
        }
        if bottles[name].value in BlockedPorts(t) {
          RefusalStays(t, bottles, names, i + 1);
          return Err(Collision);
        }
      }
      if name in work { work := work[name := work[name].(sshPort := bottles[name])]; }
    }
    assert names[..|names|] == names;
    assert work == WithSsh(file, bottles);
    return Ok(work);
  }

  lemma {:induction false} RefusalStays(t: Taken, bottles: Bottles, names: seq<string>, i: nat)
    requires (forall n :: n in names ==> n in bottles) && i <= |names| && SshRefusal(t, bottles, names[..i]).Some?
    ensures SshRefusal(t, bottles, names) == SshRefusal(t, bottles, names[..i])
  {
    if i == |names| {
      assert names[..i] == names;
    } else {
      assert names[..|names| - 1][..i] == names[..i];
      RefusalStays(t, bottles, names[..|names| - 1], i);
    }
  }

  lemma FreeIsInTheSet(pool: Net, work: Alloc, t: Taken, i: nat)
    requires pool.bits >= BLOCK_BITS && i < Blocks(pool)
    ensures i in FreeBlocks(pool, work, t)
      <==> !Used(work, Block(pool, i)) && !SubnetClash(t, Block(pool, i), None)
  {
  }

  /** The lowest block of the pool none of whose addresses is anybody's. */
  method FirstFreeSubnet(pool: Net, work: Alloc, t: Taken) returns (r: Option<int>)
    requires pool.bits >= BLOCK_BITS
    ensures r == FirstFree(pool, work, t)
    ensures r.None? ==> NoBlock(pool, t, work)
    ensures r.Some? ==> r.value >= 0 && LowestBlock(pool, t, work, r.value)
  {
    var i := 0;
    ghost var free := FreeBlocks(pool, work, t);
    while i < Blocks(pool)
      invariant 0 <= i <= Blocks(pool) && FirstIn(free, 0, Blocks(pool)) == FirstIn(free, i, Blocks(pool))
    {
      var candidate := Block(pool, i);
      FreeIsInTheSet(pool, work, t, i);
      if !Used(work, candidate) && !SubnetClash(t, candidate, None) { break; }
      i := i + 1;
    }
    r := if i < Blocks(pool) then Some(i) else None;
    assert r == FirstFree(pool, work, t);
    FirstFreeIsLowest(pool, t, work);
  }

  /** The lowest port of the range that is nobody's. */
  method LowestPort(c: Config, work: Alloc, t: Taken, bottles: Bottles) returns (r: Option<Port>)
    ensures r == FirstPort(c, work, t, WantedSsh(bottles))
    ensures r.None? ==> NoOpenPort(c, t, work, bottles)
    ensures r.Some? ==> LowestOpenPort(c, t, work, bottles, r.value)
  {
    FirstPortIsLowest(c, t, work, bottles);
    var p, wanted := c.lowPort, WantedSsh(bottles);
    ghost var free := FreePorts(c, work, t, wanted);
    while p <= c.highPort
      invariant c.lowPort <= p && FirstIn(free, c.lowPort, c.highPort + 1) == FirstIn(free, p, c.highPort + 1)
      decreases c.highPort - p
    {
      if FreePort(work, t, wanted, p) { return Some(p); }
      p := p + 1;
    }
    return None;
  }

  /** Phase 3, bottle by bottle: first fit. */
  method AddNew(c: Config, t: Taken, work: Alloc, bottles: Bottles, names: seq<string>)
      returns (r: Result<Alloc, Refusal>)
    requires c.pool.bits >= BLOCK_BITS && forall n :: n in names <==> n in bottles
    ensures r == Grown(c, t, WantedSsh(bottles), work, bottles, names)
  {
    var w, wanted := work, WantedSsh(bottles);
    for i := 0 to |names|
      invariant Grown(c, t, wanted, work, bottles, names[..i]) == Ok(w)
    {
      var name := names[i];
      assert names[..i + 1][..i] == names[..i] && name in names;
      assert Grown(c, t, wanted, work, bottles, names[..i + 1]) == AddOne(c, t, wanted, w, name, bottles[name]);
      if name !in w {
        var block := FirstFreeSubnet(c.pool, w, t);
        if block.None? {
          GrowthStops(c, t, wanted, work, bottles, names, i + 1);
          return Err(NoSubnet);
        }
        var port := LowestPort(c, w, t, bottles);
        if port.None? {
          GrowthStops(c, t, wanted, work, bottles, names, i + 1);
          return Err(NoPort);
        }
        w := w[name := Entry(Block(c.pool, block.value), port.value, bottles[name])];
      }
    }
    assert names[..|names|] == names;
    return Ok(w);
  }

  lemma {:induction false} GrowthStops(c: Config, t: Taken, wanted: set<Port>, work: Alloc, bottles: Bottles,
                                       names: seq<string>, i: nat)
    requires c.pool.bits >= BLOCK_BITS && (forall n :: n in names ==> n in bottles) && i <= |names|
    requires Grown(c, t, wanted, work, bottles, names[..i]).Err?
    ensures Grown(c, t, wanted, work, bottles, names) == Grown(c, t, wanted, work, bottles, names[..i])
  {
    if i == |names| {
      assert names[..i] == names;
    } else {
      assert names[..|names| - 1][..i] == names[..i];
      GrowthStops(c, t, wanted, work, bottles, names[..|names| - 1], i);
    }
  }

  /** Walks every entry once and stops at the first port seen before. */
  method CheckInternalPorts(work: Alloc) returns (ok: bool)
    ensures ok == PortsDistinct(work)
    ensures ok == !ClaimedTwice(work)
  {
    DistinctIsNotTwice(work);
    var todo, seen := work.Keys, {};
    while todo != {}
      invariant todo <= work.Keys
      invariant forall p :: p in seen <==> exists n :: n in work && n !in todo && p in Claims(work[n])
      invariant forall n :: n in work && n !in todo ==> work[n].sshPort != Some(work[n].browserPort)
      invariant forall a, b ::
                 a in work && b in work && a !in todo && b !in todo && a != b ==> Claims(work[a]) !! Claims(work[b])
      decreases |todo|
    {
      var n :| n in todo;
      var e := work[n];
      if e.browserPort in seen {
        SeenTwice(work, todo, seen, n, e.browserPort);
        return false;
      }
      if e.sshPort.Some? && e.sshPort.value in seen + {e.browserPort} {
        if e.sshPort.value != e.browserPort { SeenTwice(work, todo, seen, n, e.sshPort.value); }
        return false;
      }
      ghost var was, before := todo, seen;
      todo, seen := todo - {n}, seen + Claims(e);
      SeenOneMore(work, was, before, n);
    }
    return true;
  }

  lemma SeenTwice(work: Alloc, todo: set<string>, seen: set<Port>, n: string, p: Port)
    requires n in todo && n in work && p in Claims(work[n]) && p in seen
    requires forall q :: q in seen <==> exists m :: m in work && m !in todo && q in Claims(work[m])
    ensures !PortsDistinct(work)
  {
    var m :| m in work && m !in todo && p in Claims(work[m]);
    assert p in Claims(work[n]) * Claims(work[m]);
  }

  lemma SeenOneMore(work: Alloc, todo: set<string>, seen: set<Port>, n: string)
    requires n in todo && n in work
    requires forall q :: q in seen <==> exists m :: m in work && m !in todo && q in Claims(work[m])
    ensures forall q ::
             q in seen + Claims(work[n]) <==> exists m :: m in work && m !in todo - {n} && q in Claims(work[m])
    ensures Claims(work[n]) !! seen ==> forall m :: m in work && m !in todo ==> Claims(work[m]) !! Claims(work[n])
  {
    forall m | m in work && m !in todo ensures Claims(work[m]) <= seen {
      forall q | q in Claims(work[m]) ensures q in seen {}
    }
  }

  class BottleNets {
    var file: Alloc
    var locked: bool
    var writes: nat

    constructor ()
      ensures file == map[] && !locked && writes == 0
    {
      file, locked, writes := map[], false, 0;
    }

    method Write(work: Alloc)
      modifies this`file, this`writes
      ensures file == work && writes == old(writes) + 1
    {
      file, writes := work, writes + 1;
    }

    /** Gives every bottle an entry. The file is written once, when the result differs, and never when
        anything is refused. */
    method AllocateFleet(c: Config, t: Taken, bottles: Bottles, names: seq<string>) returns (r: Result<Alloc, Refusal>)
      requires c.pool.bits >= BLOCK_BITS && forall n :: n in names <==> n in bottles
      modifies this`file, this`writes
      ensures r == if locked then Allocated(c, t, old(file), bottles, names) else Err(Unlocked)
      ensures file == if r.Ok? then r.value else old(file)
      ensures writes == old(writes) + if r.Ok? && r.value != old(file) then 1 else 0
      ensures locked ==> RightAnswer(c, t, old(file), bottles, names, r)
    {
      AllocatedIsRight(c, t, file, bottles, names);
      if !locked { return Err(Unlocked); }
      if !AllPorts(t) { return Err(BadPort); }
      if PoolClash(t, c.pool) { return Err(PoolConflict); }
      var clean := CheckExisting(c, t, file, names);
      if !clean { return Err(Collision); }
      var kept := PutSshPorts(t, file, bottles, names);
      if kept.Err? { return Err(kept.error); }
      var grown := AddNew(c, t, kept.value, bottles, names);
      if grown.Err? { return Err(grown.error); }
      var distinct := CheckInternalPorts(grown.value);
      if !distinct { return Err(Collision); }
      if grown.value != file { Write(grown.value); }
      return Ok(grown.value);
    }

    /** Frees a bottle's entry; true exactly when it had one. */
    method Purge(bottle: string) returns (r: Result<bool, Refusal>)
      modifies this`file, this`writes
      ensures r == if !locked then Err(Unlocked) else Ok(bottle in old(file))
      ensures file == if locked then old(file) - {bottle} else old(file)
      ensures writes == old(writes) + if locked && bottle in old(file) then 1 else 0
    {
      if !locked { return Err(Unlocked); }
      if bottle !in file {
        assert file - {bottle} == file;
        return Ok(false);
      }
      Write(map n | n in file && n != bottle :: file[n]);
      return Ok(true);
    }
  }
}
