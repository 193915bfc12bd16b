/**
 Counting and repetition: when subnets run out, and why allocating again changes nothing (src/bottle_net.py).
 */
module BottleNetLaws {
  import opened Wrappers
  import opened BottleNet

  // ------------------------------------------------------------------ counting

  /** Which block of the pool a subnet would be. */
  function Slot(pool: Net, net: Net): int {
    (net.base - pool.base) / 16
  }

  predicate IsBlock(pool: Net, net: Net)
    requires pool.bits >= BLOCK_BITS
  {
    0 <= Slot(pool, net) < Blocks(pool) && net == Block(pool, Slot(pool, net))
  }

  lemma SlotOfBlock(pool: Net, i: nat)
    ensures Slot(pool, Block(pool, i)) == i
  {
  }

  /** Every entry is a block of this pool. */
  ghost predicate InPool(pool: Net, work: Alloc)
    requires pool.bits >= BLOCK_BITS
  {
    forall n :: n in work ==> IsBlock(pool, work[n].subnet)
  }

  function UsedBlocks(pool: Net, work: Alloc): set<int>
    requires pool.bits >= BLOCK_BITS
  {
    set i: int | 0 <= i < Blocks(pool) && Used(work, Block(pool, i))
  }

  lemma UsedByOneMore(pool: Net, work: Alloc, name: string, i: nat)
    requires pool.bits >= BLOCK_BITS && InPool(pool, work) && Disjoint(work)
    requires name in work && i < Blocks(pool) && work[name].subnet == Block(pool, i)
    ensures UsedBlocks(pool, work) == UsedBlocks(pool, work - {name}) + {i} && i !in UsedBlocks(pool, work - {name})
  {
    var rest := work - {name};
    forall j | 0 <= j < Blocks(pool) ensures Used(work, Block(pool, j)) <==> Used(rest, Block(pool, j)) || i == j {
      BlocksAreDisjoint(pool, i, j);
      if n :| n in work && Overlaps(work[n].subnet, Block(pool, j)) { assert n in rest || n == name; }
      if n :| n in rest && Overlaps(rest[n].subnet, Block(pool, j)) { assert n in work; }
    }
  }

  lemma OneEntryLess(pool: Net, work: Alloc, name: string)
    requires pool.bits >= BLOCK_BITS && InPool(pool, work) && Disjoint(work) && name in work
    ensures var rest := work - {name}; |work| == |rest| + 1 && InPool(pool, rest) && Disjoint(rest)
  {
    assert work.Keys == (work - {name}).Keys + {name};
  }

  lemma {:induction false} EachEntryUsesOneBlock(pool: Net, work: Alloc)
    requires pool.bits >= BLOCK_BITS && InPool(pool, work) && Disjoint(work)
    ensures |UsedBlocks(pool, work)| == |work|
    decreases |work|
  {
    if work != map[] {
      var name :| name in work;
      OneEntryLess(pool, work, name);
      EachEntryUsesOneBlock(pool, work - {name});
      UsedByOneMore(pool, work, name, Slot(pool, work[name].subnet));
    }
  }

  function Below(n: nat): (r: set<int>)
    ensures |r| == n && forall i :: i in r <==> 0 <= i < n
  {
    if n == 0 then {} else Below(n - 1) + {n - 1}
  }

  lemma SubsetCounts(a: set<int>, b: set<int>)
    requires a <= b
    ensures |a| <= |b| && (|a| == |b| ==> a == b)
  {
    assert b == a + (b - a);
  }

  /** Nothing of the host's is in the way. */
  predicate Unhindered(t: Taken) {
    t.networks == map[] && t.grants == {}
  }

  /** A block is free exactly while fewer entries than blocks exist. */
  lemma FreeWhileEntriesAreFewer(pool: Net, work: Alloc, t: Taken)
    requires pool.bits >= BLOCK_BITS && InPool(pool, work) && Disjoint(work) && Unhindered(t)
    ensures |work| <= Blocks(pool) && (FreeBlocks(pool, work, t) == {} <==> |work| == Blocks(pool))
  {
    EachEntryUsesOneBlock(pool, work);
    SubsetCounts(UsedBlocks(pool, work), Below(Blocks(pool)));
    forall i | 0 <= i < Blocks(pool) ensures i in FreeBlocks(pool, work, t) <==> i !in UsedBlocks(pool, work) {}
    if FreeBlocks(pool, work, t) == {} { assert UsedBlocks(pool, work) == Below(Blocks(pool)); }
    if i :| i in FreeBlocks(pool, work, t) { assert i in Below(Blocks(pool)) && i !in UsedBlocks(pool, work); }
  }

  lemma AddOneStaysInPool(c: Config, t: Taken, wanted: set<Port>, work: Alloc, name: string, ssh: Option<Port>)
    requires c.pool.bits >= BLOCK_BITS && InPool(c.pool, work) && AddOne(c, t, wanted, work, name, ssh).Ok?
    ensures InPool(c.pool, AddOne(c, t, wanted, work, name, ssh).value)
  {
    if name !in work {
      AddOneIsLowest(c, t, wanted, work, name, ssh);
      var i :| i in FreeBlocks(c.pool, work, t)
          && AddOne(c, t, wanted, work, name, ssh).value[name].subnet == Block(c.pool, i);
      SlotOfBlock(c.pool, i);
    }
  }

  lemma {:induction false} GrownStaysInPool(c: Config, t: Taken, wanted: set<Port>, work: Alloc, bottles: Bottles,
                                            names: seq<string>)
    requires c.pool.bits >= BLOCK_BITS && (forall n :: n in names ==> n in bottles) && InPool(c.pool, work)
    requires Grown(c, t, wanted, work, bottles, names).Ok?
    ensures InPool(c.pool, Grown(c, t, wanted, work, bottles, names).value)
  {
    if names != [] {
      var init, last := names[..|names| - 1], names[|names| - 1];
      GrownStaysInPool(c, t, wanted, work, bottles, init);
      AddOneStaysInPool(c, t, wanted, Grown(c, t, wanted, work, bottles, init).value, last, bottles[last]);
    }
  }

  function Named(names: seq<string>): set<string> {
    set n | n in names
  }

  lemma KeysCount(a: set<string>, b: set<string>)
    requires a <= b
    ensures |a| <= |b| && (a != b ==> |a| < |b|)
  {
    assert b == a + (b - a);
  }

  lemma NoSubnetMeansFull(c: Config, t: Taken, wanted: set<Port>, work: Alloc, name: string, ssh: Option<Port>)
    requires c.pool.bits >= BLOCK_BITS && InPool(c.pool, work) && Disjoint(work) && Unhindered(t)
    requires AddOne(c, t, wanted, work, name, ssh) == Err(NoSubnet)
    ensures name !in work && |work.Keys| == Blocks(c.pool)
  {
    AddOneIsLowest(c, t, wanted, work, name, ssh);
    FreeWhileEntriesAreFewer(c.pool, work, t);
  }

  lemma GrownIsBlocks(c: Config, t: Taken, wanted: set<Port>, work: Alloc, bottles: Bottles, names: seq<string>)
    requires c.pool.bits >= BLOCK_BITS && (forall n :: n in names ==> n in bottles) && InPool(c.pool, work)
    requires Disjoint(work)
    requires Grown(c, t, wanted, work, bottles, names).Ok?
    ensures var w := Grown(c, t, wanted, work, bottles, names).value;
      InPool(c.pool, w) && Disjoint(w) && w.Keys == work.Keys + Named(names)
  {
    GrownGrows(c, t, wanted, work, bottles, names);
    GrownKeepsDisjoint(c, t, wanted, work, bottles, names);
    GrownStaysInPool(c, t, wanted, work, bottles, names);
  }

  /** Out of subnets means that the names would not fit: 2^(28 - prefix length) is the pool's count of blocks. */
  lemma {:induction false} NoSubnetMeansTooMany(c: Config, t: Taken, wanted: set<Port>, work: Alloc,
                                                bottles: Bottles, names: seq<string>)
    requires c.pool.bits >= BLOCK_BITS && (forall n :: n in names ==> n in bottles) && InPool(c.pool, work)
    requires Disjoint(work) && Unhindered(t)
    requires Grown(c, t, wanted, work, bottles, names) == Err(NoSubnet)
    ensures |work.Keys + Named(names)| > Blocks(c.pool)
  {
    var init, last := names[..|names| - 1], names[|names| - 1];
    assert Named(names) == Named(init) + {last} by { assert names == init + [last]; }
    KeysCount(work.Keys + Named(init), work.Keys + Named(names));
    if Grown(c, t, wanted, work, bottles, init).Err? {
      NoSubnetMeansTooMany(c, t, wanted, work, bottles, init);
    } else {
      var w := Grown(c, t, wanted, work, bottles, init).value;
      GrownIsBlocks(c, t, wanted, work, bottles, init);
      NoSubnetMeansFull(c, t, wanted, w, last, bottles[last]);
    }
  }

  lemma {:induction false} OnlyExhaustion(c: Config, t: Taken, wanted: set<Port>, work: Alloc, bottles: Bottles,
                                          names: seq<string>)
    requires c.pool.bits >= BLOCK_BITS && (forall n :: n in names ==> n in bottles)
    ensures var r := Grown(c, t, wanted, work, bottles, names); r in {Err(NoSubnet), Err(NoPort)} || r.Ok?
  {
    if names != [] { OnlyExhaustion(c, t, wanted, work, bottles, names[..|names| - 1]); }
  }

  /** The ports claimed once an entry has joined. */
  lemma JoinClaims(work: Alloc, name: string, e: Entry, p: Port)
    requires name !in work
    ensures Claimed(work[name := e], p) <==> Claimed(work, p) || p in Claims(e)
  {
    var w := work[name := e];
    assert name in w && w[name] == e;
    if n :| n in work && p in Claims(work[n]) { assert n in w && w[n] == work[n]; }
    if n :| n in w && p in Claims(w[n]) { assert n == name || (n in work && w[n] == work[n]); }
  }

  /** A new entry uses up one free port: its own, as nobody's wanted port is ever free. */
  lemma AddOneUsesOnePort(c: Config, t: Taken, wanted: set<Port>, work: Alloc, name: string, ssh: Option<Port>)
    requires c.pool.bits >= BLOCK_BITS && name !in work && (ssh.Some? ==> ssh.value in wanted)
    requires AddOne(c, t, wanted, work, name, ssh).Ok?
    ensures var w := AddOne(c, t, wanted, work, name, ssh).value;
      FreePorts(c, work, t, wanted) == FreePorts(c, w, t, wanted) + {w[name].browserPort}
      && w[name].browserPort !in FreePorts(c, w, t, wanted)
  {
    var w := AddOne(c, t, wanted, work, name, ssh).value;
    AddOneIsLowest(c, t, wanted, work, name, ssh);
    assert w == work[name := w[name]];
    forall p ensures Claimed(w, p) <==> Claimed(work, p) || p in Claims(w[name]) {
      JoinClaims(work, name, w[name], p);
    }
  }

  lemma AskedIsWanted(bottles: Bottles, name: string)
    requires name in bottles && bottles[name].Some?
    ensures bottles[name].value in WantedSsh(bottles)
  {
  }

  lemma AddOneCountsKeys(c: Config, t: Taken, wanted: set<Port>, work: Alloc, name: string, ssh: Option<Port>)
    requires c.pool.bits >= BLOCK_BITS && name !in work && AddOne(c, t, wanted, work, name, ssh).Ok?
    ensures |AddOne(c, t, wanted, work, name, ssh).value.Keys| == |work.Keys| + 1
  {
    assert AddOne(c, t, wanted, work, name, ssh).value.Keys == work.Keys + {name};
  }

  lemma AddOneCountsPorts(c: Config, t: Taken, wanted: set<Port>, work: Alloc, name: string, ssh: Option<Port>)
    requires c.pool.bits >= BLOCK_BITS && (ssh.Some? ==> ssh.value in wanted)
    requires AddOne(c, t, wanted, work, name, ssh).Ok?
    ensures var w := AddOne(c, t, wanted, work, name, ssh).value;
      |FreePorts(c, w, t, wanted)| + |w.Keys| == |FreePorts(c, work, t, wanted)| + |work.Keys|
  {
    if name !in work {
      AddOneUsesOnePort(c, t, wanted, work, name, ssh);
      AddOneCountsKeys(c, t, wanted, work, name, ssh);
    }
  }

  /** Every port that is gone went to an entry. */
  lemma {:induction false} GrownCountsPorts(c: Config, t: Taken, work: Alloc, bottles: Bottles, names: seq<string>)
    requires c.pool.bits >= BLOCK_BITS && (forall n :: n in names ==> n in bottles)
    requires Grown(c, t, WantedSsh(bottles), work, bottles, names).Ok?
    ensures var wanted := WantedSsh(bottles); var w := Grown(c, t, wanted, work, bottles, names).value;
      |FreePorts(c, w, t, wanted)| + |w.Keys| == |FreePorts(c, work, t, wanted)| + |work.Keys|
  {
    if names != [] {
      var init, last := names[..|names| - 1], names[|names| - 1];
      var wanted := WantedSsh(bottles);
      GrownCountsPorts(c, t, work, bottles, init);
      if bottles[last].Some? { AskedIsWanted(bottles, last); }
      AddOneCountsPorts(c, t, wanted, Grown(c, t, wanted, work, bottles, init).value, last, bottles[last]);
    }
  }

  lemma GrownKeys(c: Config, t: Taken, wanted: set<Port>, work: Alloc, bottles: Bottles, names: seq<string>)
    requires c.pool.bits >= BLOCK_BITS && (forall n :: n in names ==> n in bottles)
    requires Grown(c, t, wanted, work, bottles, names).Ok?
    ensures Grown(c, t, wanted, work, bottles, names).value.Keys == work.Keys + Named(names)
  {
    GrownGrows(c, t, wanted, work, bottles, names);
  }

  /** While a name is missing, a port is left for it. */
  lemma StillAPort(c: Config, t: Taken, work: Alloc, bottles: Bottles, names: seq<string>, name: string,
                   all: set<string>)
    requires c.pool.bits >= BLOCK_BITS && (forall n :: n in names ==> n in bottles)
    requires work.Keys + Named(names) + {name} <= all
    requires |FreePorts(c, work, t, WantedSsh(bottles))| + |work.Keys| >= |all|
    requires var r := Grown(c, t, WantedSsh(bottles), work, bottles, names); r.Ok? && name !in r.value
    ensures FreePorts(c, Grown(c, t, WantedSsh(bottles), work, bottles, names).value, t, WantedSsh(bottles)) != {}
  {
    GrownCountsPorts(c, t, work, bottles, names);
    GrownKeys(c, t, WantedSsh(bottles), work, bottles, names);
    KeysCount(work.Keys + Named(names), all);
  }

  /** As many free ports as new names are enough. */
  lemma {:induction false} PortsSuffice(c: Config, t: Taken, work: Alloc, bottles: Bottles, names: seq<string>,
                                        all: set<string>)
    requires c.pool.bits >= BLOCK_BITS && (forall n :: n in names ==> n in bottles) && work.Keys + Named(names) <= all
    requires |FreePorts(c, work, t, WantedSsh(bottles))| + |work.Keys| >= |all|
    ensures Grown(c, t, WantedSsh(bottles), work, bottles, names) != Err(NoPort)
  {
    if names != [] {
      var init, last := names[..|names| - 1], names[|names| - 1];
      assert Named(names) == Named(init) + {last} by { assert names == init + [last]; }
      PortsSuffice(c, t, work, bottles, init, all);
      var r := Grown(c, t, WantedSsh(bottles), work, bottles, init);
      if r.Ok? && last !in r.value {
        StillAPort(c, t, work, bottles, init, last, all);
        AddOneIsLowest(c, t, WantedSsh(bottles), r.value, last, bottles[last]);
      }
    }
  }

  /** No asked ssh port of a new bottle is claimed by an entry or asked for twice. */
  ghost predicate AsksFit(work: Alloc, bottles: Bottles) {
    && PortsDistinct(work)
    && (forall n :: n in bottles && n !in work && bottles[n].Some? ==> !Claimed(work, bottles[n].value))
    && (forall n, m ::
         n in bottles && m in bottles && n != m && n !in work && m !in work && bottles[n].Some?
         ==> bottles[n] != bottles[m])
  }

  /** An entry whose ports nobody claims joins without a clash. */
  lemma JoinKeepsDistinct(work: Alloc, name: string, e: Entry)
    requires PortsDistinct(work) && name !in work && e.sshPort != Some(e.browserPort)
    requires forall p :: p in Claims(e) ==> !Claimed(work, p)
    ensures PortsDistinct(work[name := e])
  {
    forall n | n in work ensures Claims(work[n]) !! Claims(e) {
      forall p | p in Claims(e) ensures p !in Claims(work[n]) { assert !Claimed(work, p); }
    }
  }

  lemma AddOneKeepsAsksFit(c: Config, t: Taken, work: Alloc, bottles: Bottles, name: string)
    requires c.pool.bits >= BLOCK_BITS && name in bottles && name !in work && AsksFit(work, bottles)
    requires AddOne(c, t, WantedSsh(bottles), work, name, bottles[name]).Ok?
    ensures AsksFit(AddOne(c, t, WantedSsh(bottles), work, name, bottles[name]).value, bottles)
  {
    var w := AddOne(c, t, WantedSsh(bottles), work, name, bottles[name]).value;
    AddOneIsLowest(c, t, WantedSsh(bottles), work, name, bottles[name]);
    assert w == work[name := w[name]] && FreePort(work, t, WantedSsh(bottles), w[name].browserPort);
    if bottles[name].Some? { AskedIsWanted(bottles, name); }
    JoinKeepsDistinct(work, name, w[name]);
    forall n | n in bottles && n !in w && bottles[n].Some? ensures !Claimed(w, bottles[n].value) {
      AskedIsWanted(bottles, n);
      JoinClaims(work, name, w[name], bottles[n].value);
    }
  }

  lemma {:induction false} GrownKeepsAsksFit(c: Config, t: Taken, work: Alloc, bottles: Bottles, names: seq<string>)
    requires c.pool.bits >= BLOCK_BITS && (forall n :: n in names ==> n in bottles) && AsksFit(work, bottles)
    requires Grown(c, t, WantedSsh(bottles), work, bottles, names).Ok?
    ensures AsksFit(Grown(c, t, WantedSsh(bottles), work, bottles, names).value, bottles)
  {
    if names != [] {
      var init, last := names[..|names| - 1], names[|names| - 1];
      GrownKeepsAsksFit(c, t, work, bottles, init);
      var w := Grown(c, t, WantedSsh(bottles), work, bottles, init).value;
      if last !in w { AddOneKeepsAsksFit(c, t, w, bottles, last); }
    }
  }

  /** What an allocation checks before it looks for anything new. */
  ghost predicate Admissible(c: Config, t: Taken, file: Alloc, bottles: Bottles, names: seq<string>)
    requires forall n :: n in names ==> n in bottles
  {
    AllPorts(t) && !PoolClash(t, c.pool) && AllClean(c, t, file, names) && SshRefusal(t, bottles, names).None?
  }

  lemma KeptIsAsKept(pool: Net, file: Alloc, bottles: Bottles)
    requires pool.bits >= BLOCK_BITS && InPool(pool, file) && Disjoint(file)
    ensures InPool(pool, WithSsh(file, bottles)) && Disjoint(WithSsh(file, bottles))
    ensures WithSsh(file, bottles).Keys == file.Keys
  {
  }

  /** What growing comes to when there is a port for each new bottle. */
  lemma GrowthFitsExactly(c: Config, t: Taken, work: Alloc, bottles: Bottles, names: seq<string>)
    requires c.pool.bits >= BLOCK_BITS && (forall n :: n in names ==> n in bottles)
    requires InPool(c.pool, work) && Disjoint(work) && Unhindered(t)
    requires |FreePorts(c, work, t, WantedSsh(bottles))| + |work.Keys| >= |work.Keys + Named(names)|
    ensures var r := Grown(c, t, WantedSsh(bottles), work, bottles, names);
      && (r.Ok? || r == Err(NoSubnet)) && (r.Ok? <==> |work.Keys + Named(names)| <= Blocks(c.pool))
  {
    PortsSuffice(c, t, work, bottles, names, work.Keys + Named(names));
    OnlyExhaustion(c, t, WantedSsh(bottles), work, bottles, names);
    if Grown(c, t, WantedSsh(bottles), work, bottles, names).Ok? {
      GrownFits(c, t, WantedSsh(bottles), work, bottles, names);
    } else {
      NoSubnetMeansTooMany(c, t, WantedSsh(bottles), work, bottles, names);
    }
  }

  lemma GrownFits(c: Config, t: Taken, wanted: set<Port>, work: Alloc, bottles: Bottles, names: seq<string>)
    requires c.pool.bits >= BLOCK_BITS && (forall n :: n in names ==> n in bottles)
    requires InPool(c.pool, work) && Disjoint(work) && Unhindered(t) && Grown(c, t, wanted, work, bottles, names).Ok?
    ensures |work.Keys + Named(names)| <= Blocks(c.pool)
  {
    GrownIsBlocks(c, t, wanted, work, bottles, names);
    FreeWhileEntriesAreFewer(c.pool, Grown(c, t, wanted, work, bottles, names).value, t);
  }

  lemma NamesAreBottles(file: Alloc, bottles: Bottles, names: seq<string>)
    requires forall n :: n in names <==> n in bottles
    ensures Named(names) == bottles.Keys && |file.Keys + bottles.Keys| == |file.Keys| + |bottles.Keys - file.Keys|
  {
    assert file.Keys + bottles.Keys == file.Keys + (bottles.Keys - file.Keys);
  }

  /** With nothing of the host's in the way and a free port for each new bottle, an allocation runs out of
      subnets exactly when all entries together would be more than the pool's blocks, never runs out of ports,
      and succeeds exactly when they fit, provided that the ssh ports asked for are free. */
  lemma SubnetsFitExactly(c: Config, t: Taken, file: Alloc, bottles: Bottles, names: seq<string>)
    requires c.pool.bits >= BLOCK_BITS && (forall n :: n in names <==> n in bottles) && InPool(c.pool, file)
    requires Disjoint(file)
    requires Unhindered(t) && Admissible(c, t, file, bottles, names)
    requires |FreePorts(c, WithSsh(file, bottles), t, WantedSsh(bottles))| >= |bottles.Keys - file.Keys|
    ensures var r := Allocated(c, t, file, bottles, names); var fits := |file.Keys + bottles.Keys| <= Blocks(c.pool);
      && (r == Err(NoSubnet) <==> !fits) && r != Err(NoPort)
      && (AsksFit(WithSsh(file, bottles), bottles) ==> (r.Ok? <==> fits))
  {
    var kept := WithSsh(file, bottles);
    KeptIsAsKept(c.pool, file, bottles);
    NamesAreBottles(file, bottles, names);
    GrowthFitsExactly(c, t, kept, bottles, names);
    if AsksFit(kept, bottles) && Grown(c, t, WantedSsh(bottles), kept, bottles, names).Ok? {
      GrownKeepsAsksFit(c, t, kept, bottles, names);
    }
  }

  // ------------------------------------------------------------------ allocating again

  /** The host as it was, but for the networks of bottles that now have theirs. */
  ghost predicate OnlyOwnNetworksAdded(t: Taken, u: Taken, work: Alloc) {
    && u.grants == t.grants && u.pluginPorts == t.pluginPorts && u.servicePorts == t.servicePorts
       && u.listeners == t.listeners
    && forall name :: name in u.networks ==>
         || (name in t.networks && u.networks[name] == t.networks[name])
         || (exists n :: n in work && name == NETWORK_PREFIX + n && u.networks[name] == work[n].subnet)
  }

  lemma {:induction false} SameSshRefusal(t: Taken, u: Taken, bottles: Bottles, names: seq<string>)
    requires (forall n :: n in names ==> n in bottles) && BlockedPorts(u) == BlockedPorts(t)
    ensures SshRefusal(u, bottles, names) == SshRefusal(t, bottles, names)
  {
    if names != [] { SameSshRefusal(t, u, bottles, names[..|names| - 1]); }
  }

  lemma {:induction false} NothingToGrow(c: Config, t: Taken, wanted: set<Port>, work: Alloc, bottles: Bottles,
                                         names: seq<string>)
    requires c.pool.bits >= BLOCK_BITS && (forall n :: n in names ==> n in bottles && n in work)
    ensures Grown(c, t, wanted, work, bottles, names) == Ok(work)
  {
    if names != [] { NothingToGrow(c, t, wanted, work, bottles, names[..|names| - 1]); }
  }

  lemma StillClean(c: Config, t: Taken, u: Taken, work: Alloc, name: string)
    requires OnlyOwnNetworksAdded(t, u, work) && Disjoint(work) && name in work && Clean(c, t, name, work[name])
    ensures Clean(c, u, name, work[name])
  {
    forall x | x in u.networks && x != NETWORK_PREFIX + name ensures !Overlaps(u.networks[x], work[name].subnet) {
      if !(x in t.networks && u.networks[x] == t.networks[x]) {
        var n :| n in work && x == NETWORK_PREFIX + n && u.networks[x] == work[n].subnet;
      }
    }
  }

  /** Allocating the same bottles again, now that their own networks exist, gives the same result, so the
      file is not written. */
  lemma AllocatingAgainChangesNothing(c: Config, t: Taken, u: Taken, file: Alloc, bottles: Bottles, names: seq<string>)
    requires c.pool.bits >= BLOCK_BITS && (forall n :: n in names <==> n in bottles) && Disjoint(file)
    requires Allocated(c, t, file, bottles, names).Ok?
    requires OnlyOwnNetworksAdded(t, u, Allocated(c, t, file, bottles, names).value)
    ensures Allocated(c, u, Allocated(c, t, file, bottles, names).value, bottles, names)
      == Allocated(c, t, file, bottles, names)
  {
    var work := Allocated(c, t, file, bottles, names).value;
    AllocationIsSound(c, t, file, bottles, names);
    ServedAgain(c, t, u, work, bottles, names);
  }

  /** Bottles that have what they ask for are given it again. */
  lemma ServedAgain(c: Config, t: Taken, u: Taken, work: Alloc, bottles: Bottles, names: seq<string>)
    requires c.pool.bits >= BLOCK_BITS && (forall n :: n in names <==> n in bottles) && Disjoint(work)
    requires PortsDistinct(work)
    requires Served(c, t, work, bottles) && AllPorts(t) && !PoolClash(t, c.pool) && SshRefusal(t, bottles, names).None?
    requires OnlyOwnNetworksAdded(t, u, work)
    ensures Allocated(c, u, work, bottles, names) == Ok(work)
  {
    forall i | 0 <= i < |names| ensures Clean(c, u, names[i], work[names[i]]) {
      assert names[i] in names;
      StillClean(c, t, u, work, names[i]);
    }
    NoNewPoolClash(c, t, u, work);
    SameSshRefusal(t, u, bottles, names);
    assert WithSsh(work, bottles) == work;
    NothingToGrow(c, u, WantedSsh(bottles), work, bottles, names);
  }

  lemma NoNewPoolClash(c: Config, t: Taken, u: Taken, work: Alloc)
    requires OnlyOwnNetworksAdded(t, u, work) && !PoolClash(t, c.pool)
    ensures !PoolClash(u, c.pool)
  {
    forall x | x in u.networks && !(NETWORK_PREFIX <= x) ensures !Overlaps(u.networks[x], c.pool) {
      assert x in t.networks && u.networks[x] == t.networks[x];
    }
  }
}
