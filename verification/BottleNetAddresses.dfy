/**
 What an allocation gives and refuses, address by address and port by port (src/bottle_net.py, allocate_fleet):
 which addresses and ports are somebody else's already is read off the host's networks, grants and ports here.
 */
module BottleNetAddresses {
  import opened Wrappers
  import opened BottleNet

  // ------------------------------------------------------------------ whose an address or a port is

  /** The address is in a Docker network other than this one. */
  ghost predicate InANetwork(t: Taken, x: nat, own: Option<string>) {
    exists name :: name in t.networks && Some(name) != own && Contains(t.networks[name], x)
  }

  ghost predicate InAGrant(t: Taken, x: nat) {
    exists g :: g in t.grants && Contains(g, x)
  }

  ghost predicate InAnEntry(work: Alloc, x: nat) {
    exists n :: n in work && Contains(work[n].subnet, x)
  }

  /** The address belongs to the host's networks or to a grant. */
  ghost predicate Elsewhere(t: Taken, x: nat, own: Option<string>) {
    InANetwork(t, x, own) || InAGrant(t, x)
  }

  /** No address of the subnet does. */
  ghost predicate Apart(t: Taken, subnet: Net, own: Option<string>) {
    forall x: nat :: Contains(subnet, x) ==> !Elsewhere(t, x, own)
  }

  ghost predicate Inside(subnet: Net, pool: Net) {
    forall x: nat :: Contains(subnet, x) ==> Contains(pool, x)
  }

  /** Some address of the subnet does, or is an entry's. */
  ghost predicate Occupied(t: Taken, work: Alloc, subnet: Net) {
    exists x: nat :: Contains(subnet, x) && (Elsewhere(t, x, None) || InAnEntry(work, x))
  }

  /** A plugin, a service or a listener of the host has the port. */
  predicate HostHas(t: Taken, p: Port) {
    p in t.pluginPorts || p in t.servicePorts || p in t.listeners
  }

  /** A bottle's browser or ssh port is this one, or a manifest asks for it. */
  ghost predicate Spoken(work: Alloc, bottles: Bottles, p: Port) {
    || (exists n :: n in work && (work[n].browserPort == p || work[n].sshPort == Some(p)))
    || (exists n :: n in bottles && bottles[n] == Some(p))
  }

  lemma ClashIsSharing(t: Taken, subnet: Net, own: Option<string>)
    ensures SubnetClash(t, subnet, own) <==> !Apart(t, subnet, own)
  {
    if SubnetClash(t, subnet, own) {
      if name :| name in t.networks && Some(name) != own && Overlaps(t.networks[name], subnet) {
        OverlapIsASharedAddress(t.networks[name], subnet);
        var x: nat :| Contains(t.networks[name], x) && Contains(subnet, x);
        assert Elsewhere(t, x, own);
      } else {
        var g :| g in t.grants && Overlaps(g, subnet);
        OverlapIsASharedAddress(g, subnet);
        var x: nat :| Contains(g, x) && Contains(subnet, x);
        assert Elsewhere(t, x, own);
      }
    }
    if !Apart(t, subnet, own) {
      var x: nat :| Contains(subnet, x) && Elsewhere(t, x, own);
      if InAGrant(t, x) {
        var g :| g in t.grants && Contains(g, x);
        OverlapIsASharedAddress(g, subnet);
      } else {
        var name :| name in t.networks && Some(name) != own && Contains(t.networks[name], x);
        OverlapIsASharedAddress(t.networks[name], subnet);
      }
    }
  }

  lemma UsedIsSharing(work: Alloc, subnet: Net)
    ensures Used(work, subnet) <==> exists x: nat :: Contains(subnet, x) && InAnEntry(work, x)
  {
    if Used(work, subnet) {
      var n :| n in work && Overlaps(work[n].subnet, subnet);
      OverlapIsASharedAddress(work[n].subnet, subnet);
      var x: nat :| Contains(work[n].subnet, x) && Contains(subnet, x);
      assert InAnEntry(work, x);
    }
    if x: nat :| Contains(subnet, x) && InAnEntry(work, x) {
      var n :| n in work && Contains(work[n].subnet, x);
      OverlapIsASharedAddress(work[n].subnet, subnet);
    }
  }

  lemma InsideIsSubnetOf(subnet: Net, pool: Net)
    ensures SubnetOf(subnet, pool) <==> Inside(subnet, pool)
  {
    assert Contains(subnet, subnet.base) && Contains(subnet, Last(subnet));
  }

  /** A block is free exactly when none of its addresses is anybody's. */
  lemma FreeIsUnoccupied(pool: Net, work: Alloc, t: Taken, i: nat)
    ensures FreeBlock(pool, work, t, i) <==> !Occupied(t, work, Block(pool, i))
  {
    ClashIsSharing(t, Block(pool, i), None);
    UsedIsSharing(work, Block(pool, i));
  }

  lemma FreePortIsUnspoken(work: Alloc, t: Taken, bottles: Bottles, p: Port)
    ensures FreePort(work, t, WantedSsh(bottles), p) <==> !HostHas(t, p) && !Spoken(work, bottles, p)
  {
    if n :| n in bottles && bottles[n] == Some(p) { assert p in WantedSsh(bottles); }
    if p in WantedSsh(bottles) {
      var n :| n in bottles && bottles[n].Some? && bottles[n].value == p;
      assert bottles[n] == Some(p);
    }
    if n :| n in work && (work[n].browserPort == p || work[n].sshPort == Some(p)) {
      assert p in Claims(work[n]);
    }
  }

  // ------------------------------------------------------------------ one new entry

  /** The i-th block is the lowest of the pool with no address of anybody's. */
  ghost predicate LowestBlock(pool: Net, t: Taken, work: Alloc, i: nat)
    requires pool.bits >= BLOCK_BITS
  {
    && i < Blocks(pool) && !Occupied(t, work, Block(pool, i))
    && forall j: nat :: j < i ==> Occupied(t, work, Block(pool, j))
  }

  /** The port is the lowest of the range that is nobody's. */
  ghost predicate LowestOpenPort(c: Config, t: Taken, work: Alloc, bottles: Bottles, p: Port) {
    && c.lowPort <= p <= c.highPort && !HostHas(t, p) && !Spoken(work, bottles, p)
    && forall q :: c.lowPort <= q < p ==> HostHas(t, q) || Spoken(work, bottles, q)
  }

  ghost predicate NoBlock(pool: Net, t: Taken, work: Alloc)
    requires pool.bits >= BLOCK_BITS
  {
    forall j: nat :: j < Blocks(pool) ==> Occupied(t, work, Block(pool, j))
  }

  ghost predicate NoOpenPort(c: Config, t: Taken, work: Alloc, bottles: Bottles) {
    forall q :: c.lowPort <= q <= c.highPort ==> HostHas(t, q) || Spoken(work, bottles, q)
  }

  lemma FirstFreeIsLowest(pool: Net, t: Taken, work: Alloc)
    requires pool.bits >= BLOCK_BITS
    ensures match FirstFree(pool, work, t)
            case None => NoBlock(pool, t, work)
            case Some(i) => i >= 0 && LowestBlock(pool, t, work, i)
  {
    var r, free := FirstFree(pool, work, t), FreeBlocks(pool, work, t);
    forall j: nat | j < Blocks(pool) ensures j in free <==> !Occupied(t, work, Block(pool, j)) {
      FreeIsUnoccupied(pool, work, t, j);
    }
    if r.None? {
      forall j: nat | j < Blocks(pool) ensures Occupied(t, work, Block(pool, j)) { assert j !in free; }
    } else {
      forall j: nat | j < r.value ensures Occupied(t, work, Block(pool, j)) { assert j !in free; }
    }
  }

  lemma FirstPortIsLowest(c: Config, t: Taken, work: Alloc, bottles: Bottles)
    ensures match FirstPort(c, work, t, WantedSsh(bottles))
            case None => NoOpenPort(c, t, work, bottles)
            case Some(p) => LowestOpenPort(c, t, work, bottles, p)
  {
    var r, free := FirstPort(c, work, t, WantedSsh(bottles)), FreePorts(c, work, t, WantedSsh(bottles));
    forall q | c.lowPort <= q <= c.highPort ensures q in free <==> !HostHas(t, q) && !Spoken(work, bottles, q) {
      FreePortIsUnspoken(work, t, bottles, q);
    }
    if r.None? {
      forall q | c.lowPort <= q <= c.highPort ensures HostHas(t, q) || Spoken(work, bottles, q) {
        assert q !in free;
      }
    } else {
      forall q | c.lowPort <= q < r.value ensures HostHas(t, q) || Spoken(work, bottles, q) { assert q !in free; }
    }
  }

  /** A new entry: the lowest block of the pool none of whose addresses is anybody's, the lowest port of the
      range that is nobody's, the manifest's ssh port. */
  ghost predicate GivenLowest(c: Config, t: Taken, work: Alloc, bottles: Bottles, e: Entry, ssh: Option<Port>)
    requires c.pool.bits >= BLOCK_BITS
  {
    && (exists i: nat :: LowestBlock(c.pool, t, work, i) && e.subnet == Block(c.pool, i))
    && LowestOpenPort(c, t, work, bottles, e.browserPort) && e.sshPort == ssh
  }

  /** One bottle more, given what is allocated already. */
  lemma OneMoreBottle(c: Config, t: Taken, work: Alloc, bottles: Bottles, name: string)
    requires c.pool.bits >= BLOCK_BITS && name in bottles && name !in work
    ensures match AddOne(c, t, WantedSsh(bottles), work, name, bottles[name])
            case Ok(w) => && name in w && w == work[name := w[name]]
                          && GivenLowest(c, t, work, bottles, w[name], bottles[name])
            case Err(e) => || (e == NoSubnet && NoBlock(c.pool, t, work))
                           || (e == NoPort && NoOpenPort(c, t, work, bottles))
  {
    FirstFreeIsLowest(c.pool, t, work);
    FirstPortIsLowest(c, t, work, bottles);
  }

  // ------------------------------------------------------------------ a successful allocation

  /** What a requested bottle has: addresses of the pool that are no grant's, no other network's and no
      other bottle's, and ports the host does not use. */
  ghost predicate WellPlaced(c: Config, t: Taken, name: string, e: Entry) {
    && e.subnet.bits == BLOCK_BITS && Inside(e.subnet, c.pool)
    && Apart(t, e.subnet, Some(NETWORK_PREFIX + name))
    && c.lowPort <= e.browserPort <= c.highPort && !HostHas(t, e.browserPort)
  }

  lemma CleanIsWellPlaced(c: Config, t: Taken, name: string, e: Entry)
    ensures Clean(c, t, name, e) <==> WellPlaced(c, t, name, e)
  {
    ClashIsSharing(t, e.subnet, Some(NETWORK_PREFIX + name));
    InsideIsSubnetOf(e.subnet, c.pool);
  }

  predicate GoodSsh(t: Taken, ssh: Option<Port>) {
    ssh.Some? ==> 1 <= ssh.value <= 65535 && !HostHas(t, ssh.value)
  }

  lemma {:induction false} UnrefusedSshIsGood(t: Taken, bottles: Bottles, names: seq<string>, n: string)
    requires (forall n :: n in names ==> n in bottles) && SshRefusal(t, bottles, names).None? && n in names
    ensures GoodSsh(t, bottles[n])
  {
    if n != names[|names| - 1] { UnrefusedSshIsGood(t, bottles, names[..|names| - 1], n); }
  }

  lemma {:induction false} GrownExtends(c: Config, t: Taken, wanted: set<Port>, work: Alloc, bottles: Bottles,
                                        names: seq<string>, k: nat)
    requires c.pool.bits >= BLOCK_BITS && (forall n :: n in names ==> n in bottles) && k <= |names|
    requires Grown(c, t, wanted, work, bottles, names).Ok?
    ensures var w := Grown(c, t, wanted, work, bottles, names[..k]);
      w.Ok? && forall n :: n in w.value ==>
        n in Grown(c, t, wanted, work, bottles, names).value
        && Grown(c, t, wanted, work, bottles, names).value[n] == w.value[n]
  {
    if k == |names| {
      assert names[..k] == names;
    } else {
      assert names[..|names| - 1][..k] == names[..k];
      GrownExtends(c, t, wanted, work, bottles, names[..|names| - 1], k);
    }
  }

  /** What an allocation holds when it comes to the k-th bottle: the file's entries and the earlier bottles'. */
  function Before(work: Alloc, file: Alloc, names: seq<string>, k: nat): Alloc
    requires k <= |names|
  {
    map n | n in work && (n in file || n in names[..k]) :: work[n]
  }

  /** Every requested bottle is well placed with its manifest's ssh port, whether it had an entry or not. */
  lemma AllocatedIsWellPlaced(c: Config, t: Taken, file: Alloc, bottles: Bottles, names: seq<string>, n: string)
    requires c.pool.bits >= BLOCK_BITS && (forall n :: n in names <==> n in bottles) && n in bottles
    requires Allocated(c, t, file, bottles, names).Ok?
    ensures var work := Allocated(c, t, file, bottles, names).value;
      && n in work && WellPlaced(c, t, n, work[n])
      && work[n].sshPort == bottles[n] && GoodSsh(t, bottles[n])
  {
    AllocationServes(c, t, file, bottles, names, n);
    CleanIsWellPlaced(c, t, n, Allocated(c, t, file, bottles, names).value[n]);
    UnrefusedSshIsGood(t, bottles, names, n);
  }

  /** A bottle without an entry gets the lowest block and the lowest port left by the host, the file and
      the bottles before it. */
  lemma NewBottlesGetTheLowest(c: Config, t: Taken, file: Alloc, bottles: Bottles, names: seq<string>, k: nat)
    requires c.pool.bits >= BLOCK_BITS && (forall n :: n in names <==> n in bottles)
    requires Allocated(c, t, file, bottles, names).Ok?
    requires k < |names| && names[k] !in file && names[k] !in names[..k]
    ensures var work := Allocated(c, t, file, bottles, names).value;
      && names[k] in work && names[k] in bottles
      && GivenLowest(c, t, Before(work, file, names, k), bottles, work[names[k]], bottles[names[k]])
  {
    var wanted, kept := WantedSsh(bottles), WithSsh(file, bottles);
    var work := Allocated(c, t, file, bottles, names).value;
    GrownExtends(c, t, wanted, kept, bottles, names, k);
    GrownExtends(c, t, wanted, kept, bottles, names, k + 1);
    var w := Grown(c, t, wanted, kept, bottles, names[..k]).value;
    GrownGrows(c, t, wanted, kept, bottles, names[..k]);
    assert names[..k + 1][..k] == names[..k] && names[..k + 1][k] == names[k] && names[k] in names;
    OneMoreBottle(c, t, w, bottles, names[k]);
    assert w == Before(work, file, names, k);
  }

  /** Some port is two entries', or both ports of one. */
  ghost predicate ClaimedTwice(work: Alloc) {
    || (exists n :: n in work && work[n].sshPort == Some(work[n].browserPort))
    || (exists a, b, p: Port :: a in work && b in work && a != b && Has(work[a], p) && Has(work[b], p))
  }

  predicate Has(e: Entry, p: Port) {
    e.browserPort == p || e.sshPort == Some(p)
  }

  lemma ApartIsNoSharedPort(a: Entry, b: Entry)
    ensures Claims(a) !! Claims(b) <==> forall p :: !(Has(a, p) && Has(b, p))
  {
    if a.browserPort in Claims(b) {
      assert Has(a, a.browserPort) && Has(b, a.browserPort);
    } else if a.sshPort.Some? && a.sshPort.value in Claims(b) {
      assert Has(a, a.sshPort.value) && Has(b, a.sshPort.value);
    } else {
      assert Claims(a) !! Claims(b);
    }
  }

  lemma DistinctIsNotTwice(work: Alloc)
    ensures PortsDistinct(work) <==> !ClaimedTwice(work)
  {
    forall a, b | a in work && b in work
      ensures Claims(work[a]) !! Claims(work[b]) <==> forall p :: !(Has(work[a], p) && Has(work[b], p))
    {
      ApartIsNoSharedPort(work[a], work[b]);
    }
  }

  /** All that a successful allocation promises: what was there stays, no more is added than was asked for,
      every requested bottle is well placed, the new ones lowest, and no port is claimed twice. */
  ghost predicate Fulfils(c: Config, t: Taken, file: Alloc, bottles: Bottles, names: seq<string>, work: Alloc)
    requires c.pool.bits >= BLOCK_BITS
  {
    && Stable(file, work, bottles) && work.Keys == file.Keys + bottles.Keys && !ClaimedTwice(work)
    && (forall n :: n in bottles ==>
          n in work && WellPlaced(c, t, n, work[n]) && work[n].sshPort == bottles[n] && GoodSsh(t, bottles[n]))
    && forall k: nat :: k < |names| && names[k] !in file && names[k] !in names[..k] ==>
         NewOneIsLowest(c, t, file, bottles, names, work, k)
  }

  ghost predicate NewOneIsLowest(c: Config, t: Taken, file: Alloc, bottles: Bottles, names: seq<string>, work: Alloc,
                                 k: nat)
    requires c.pool.bits >= BLOCK_BITS && k < |names|
  {
    && names[k] in work && names[k] in bottles
    && GivenLowest(c, t, Before(work, file, names, k), bottles, work[names[k]], bottles[names[k]])
  }

  lemma AllocatedFulfils(c: Config, t: Taken, file: Alloc, bottles: Bottles, names: seq<string>)
    requires c.pool.bits >= BLOCK_BITS && (forall n :: n in names <==> n in bottles)
    ensures Allocated(c, t, file, bottles, names).Ok? ==>
              Fulfils(c, t, file, bottles, names, Allocated(c, t, file, bottles, names).value)
  {
    if Allocated(c, t, file, bottles, names).Ok? {
      var work := Allocated(c, t, file, bottles, names).value;
      AllocationGrows(c, t, file, bottles, names);
      DistinctIsNotTwice(work);
      forall n | n in bottles
        ensures n in work && WellPlaced(c, t, n, work[n]) && work[n].sshPort == bottles[n] && GoodSsh(t, bottles[n])
      {
        AllocatedIsWellPlaced(c, t, file, bottles, names, n);
      }
      forall k: nat | k < |names| && names[k] !in file && names[k] !in names[..k]
        ensures NewOneIsLowest(c, t, file, bottles, names, work, k)
      {
        NewBottlesGetTheLowest(c, t, file, bottles, names, k);
      }
    }
  }

  // ------------------------------------------------------------------ refusals

  /** Some foreign network has an address of the pool. */
  ghost predicate PoolIsShared(t: Taken, pool: Net) {
    exists name, x: nat ::
      name in t.networks && !(NETWORK_PREFIX <= name) && Contains(t.networks[name], x) && Contains(pool, x)
  }

  lemma PoolClashIsSharing(t: Taken, pool: Net)
    ensures PoolClash(t, pool) <==> PoolIsShared(t, pool)
  {
    forall name | name in t.networks
      ensures Overlaps(t.networks[name], pool) <==> exists x: nat :: Contains(t.networks[name], x) && Contains(pool, x)
    {
      OverlapIsASharedAddress(t.networks[name], pool);
    }
  }

  /** A requested bottle has an entry that is no longer well placed. */
  ghost predicate SomeEntryMisplaced(c: Config, t: Taken, file: Alloc, bottles: Bottles) {
    exists n :: n in bottles && n in file && !WellPlaced(c, t, n, file[n])
  }

  lemma AllCleanIsWellPlaced(c: Config, t: Taken, file: Alloc, bottles: Bottles, names: seq<string>)
    requires forall n :: n in names <==> n in bottles
    ensures AllClean(c, t, file, names) <==> !SomeEntryMisplaced(c, t, file, bottles)
  {
    forall n | n in file ensures Clean(c, t, n, file[n]) <==> WellPlaced(c, t, n, file[n]) {
      CleanIsWellPlaced(c, t, n, file[n]);
    }
    if n :| n in bottles && n in file && !WellPlaced(c, t, n, file[n]) {
      var i :| 0 <= i < |names| && names[i] == n;
    }
  }

  /** The first bottle in order with a bad ssh port. */
  ghost predicate FirstBadSsh(t: Taken, bottles: Bottles, names: seq<string>, k: nat) {
    && k < |names| && names[k] in bottles && !GoodSsh(t, bottles[names[k]])
    && forall j: nat :: j < k && names[j] in bottles ==> GoodSsh(t, bottles[names[j]])
  }

  function SshProblem(p: Port): Refusal {
    if 1 <= p <= 65535 then Collision else BadPort
  }

  lemma {:induction false} SshRefusalIsTheFirst(t: Taken, bottles: Bottles, names: seq<string>)
    requires forall n :: n in names ==> n in bottles
    ensures match SshRefusal(t, bottles, names)
            case None => forall k: nat :: k < |names| ==> GoodSsh(t, bottles[names[k]])
            case Some(e) =>
              exists k: nat :: FirstBadSsh(t, bottles, names, k) && e == SshProblem(bottles[names[k]].value)
  {
    if names != [] {
      var init := names[..|names| - 1];
      SshRefusalIsTheFirst(t, bottles, init);
      if SshRefusal(t, bottles, init).Some? {
        var k: nat :|
          FirstBadSsh(t, bottles, init, k) && SshRefusal(t, bottles, init).value == SshProblem(bottles[init[k]].value);
        assert FirstBadSsh(t, bottles, names, k);
      } else if SshRefusal(t, bottles, names).Some? {
        assert forall j: nat :: j < |init| ==> init[j] == names[j];
        assert FirstBadSsh(t, bottles, names, |init|);
      }
    }
  }

  lemma PortsAreChecked(t: Taken)
    ensures AllPorts(t) <==> forall p :: HostHas(t, p) ==> 1 <= p <= 65535
  {
    forall p ensures p in BlockedPorts(t) <==> HostHas(t, p) {}
  }

  /** Growing stops at the first new bottle for which no block, or else no port, is left. */
  ghost predicate StuckAt(c: Config, t: Taken, file: Alloc, bottles: Bottles, names: seq<string>, k: nat, e: Refusal)
    requires c.pool.bits >= BLOCK_BITS && (forall n :: n in names ==> n in bottles)
  {
    && k < |names| && names[k] !in file && names[k] !in names[..k]
    && var g := Grown(c, t, WantedSsh(bottles), WithSsh(file, bottles), bottles, names[..k]);
      && g.Ok?
      && if NoBlock(c.pool, t, g.value) then e == NoSubnet else e == NoPort && NoOpenPort(c, t, g.value, bottles)
  }

  lemma {:induction false} GrowthSticks(c: Config, t: Taken, file: Alloc, bottles: Bottles, names: seq<string>)
    requires c.pool.bits >= BLOCK_BITS && (forall n :: n in names ==> n in bottles)
    requires Grown(c, t, WantedSsh(bottles), WithSsh(file, bottles), bottles, names).Err?
    ensures exists k: nat :: StuckAt(c, t, file, bottles, names, k,
                                     Grown(c, t, WantedSsh(bottles), WithSsh(file, bottles), bottles, names).error)
  {
    var n, init := |names| - 1, names[..|names| - 1];
    var g := Grown(c, t, WantedSsh(bottles), WithSsh(file, bottles), bottles, init);
    if g.Err? {
      GrowthSticks(c, t, file, bottles, init);
      var k: nat :| StuckAt(c, t, file, bottles, init, k, g.error);
      assert init[..k] == names[..k] && init[k] == names[k];
      assert StuckAt(c, t, file, bottles, names, k, g.error);
    } else {
      GrownGrows(c, t, WantedSsh(bottles), WithSsh(file, bottles), bottles, init);
      OneMoreBottle(c, t, g.value, bottles, names[n]);
      FirstFreeIsLowest(c.pool, t, g.value);
      assert StuckAt(c, t, file, bottles, names, n,
                     Grown(c, t, WantedSsh(bottles), WithSsh(file, bottles), bottles, names).error);
    }
  }

  /** The host's ports are ports, the pool is the bottles' alone, the entries there are well placed and the
      ssh ports are good. */
  ghost predicate Admissible(c: Config, t: Taken, file: Alloc, bottles: Bottles) {
    && (forall p :: HostHas(t, p) ==> 1 <= p <= 65535) && !PoolIsShared(t, c.pool)
    && !SomeEntryMisplaced(c, t, file, bottles) && forall n :: n in bottles ==> GoodSsh(t, bottles[n])
  }

  /** What is refused before anything new is given, in the order in which it is looked for: a bad port of
      the host's, the pool, an entry a requested bottle has, the first bad ssh port. */
  ghost predicate RefusedFor(c: Config, t: Taken, file: Alloc, bottles: Bottles, names: seq<string>, e: Refusal) {
    if exists p :: HostHas(t, p) && !(1 <= p <= 65535) then e == BadPort
    else if PoolIsShared(t, c.pool) then e == PoolConflict
    else if SomeEntryMisplaced(c, t, file, bottles) then e == Collision
    else exists k: nat :: FirstBadSsh(t, bottles, names, k) && e == SshProblem(bottles[names[k]].value)
  }

  lemma RefusalsInOrder(c: Config, t: Taken, file: Alloc, bottles: Bottles, names: seq<string>)
    requires c.pool.bits >= BLOCK_BITS && (forall n :: n in names <==> n in bottles)
    ensures Admissible(c, t, file, bottles) || (Allocated(c, t, file, bottles, names).Err?
      && RefusedFor(c, t, file, bottles, names, Allocated(c, t, file, bottles, names).error))
  {
    PortsAreChecked(t);
    PoolClashIsSharing(t, c.pool);
    AllCleanIsWellPlaced(c, t, file, bottles, names);
    SshRefusalIsTheFirst(t, bottles, names);
    if SshRefusal(t, bottles, names).None? {
      forall n | n in bottles ensures GoodSsh(t, bottles[n]) {
        var k: nat :| k < |names| && names[k] == n;
      }
    }
  }

  /** And otherwise: refused when growing is stuck for want of a block or a port, or when a port would be
      claimed twice; given when neither. */
  lemma AdmissibleFleetsGrow(c: Config, t: Taken, file: Alloc, bottles: Bottles, names: seq<string>)
    requires c.pool.bits >= BLOCK_BITS && (forall n :: n in names <==> n in bottles)
    requires Admissible(c, t, file, bottles)
    ensures var r := Allocated(c, t, file, bottles, names);
      match Grown(c, t, WantedSsh(bottles), WithSsh(file, bottles), bottles, names)
      case Err(e) => r == Err(e) && exists k: nat :: StuckAt(c, t, file, bottles, names, k, e)
      case Ok(work) => r == if ClaimedTwice(work) then Err(Collision) else Ok(work)
  {
    PortsAreChecked(t);
    PoolClashIsSharing(t, c.pool);
    AllCleanIsWellPlaced(c, t, file, bottles, names);
    SshRefusalIsTheFirst(t, bottles, names);
    var g := Grown(c, t, WantedSsh(bottles), WithSsh(file, bottles), bottles, names);
    if g.Err? { GrowthSticks(c, t, file, bottles, names); } else { DistinctIsNotTwice(g.value); }
  }

  /** What the caller is answered. */
  ghost predicate RightAnswer(c: Config, t: Taken, file: Alloc, bottles: Bottles, names: seq<string>,
                              r: Result<Alloc, Refusal>)
    requires c.pool.bits >= BLOCK_BITS
  {
    match r
    case Ok(work) => Admissible(c, t, file, bottles) && Fulfils(c, t, file, bottles, names, work)
    case Err(e) => if !Admissible(c, t, file, bottles) then RefusedFor(c, t, file, bottles, names, e)
                   else e == NoSubnet || e == NoPort || e == Collision
  }

  lemma AllocatedIsRight(c: Config, t: Taken, file: Alloc, bottles: Bottles, names: seq<string>)
    requires c.pool.bits >= BLOCK_BITS && (forall n :: n in names <==> n in bottles)
    ensures RightAnswer(c, t, file, bottles, names, Allocated(c, t, file, bottles, names))
  {
    AllocatedFulfils(c, t, file, bottles, names);
    RefusalsInOrder(c, t, file, bottles, names);
    if Admissible(c, t, file, bottles) { AdmissibleFleetsGrow(c, t, file, bottles, names); }
  }

  /** So the pool is refused when some network without the bottles' prefix has an address of it, and only then. */
  lemma PoolIsRefusedIffShared(c: Config, t: Taken, file: Alloc, bottles: Bottles, names: seq<string>)
    requires c.pool.bits >= BLOCK_BITS && (forall n :: n in names <==> n in bottles)
    ensures Allocated(c, t, file, bottles, names) == Err(PoolConflict) <==>
              (forall p :: HostHas(t, p) ==> 1 <= p <= 65535) && PoolIsShared(t, c.pool)
  {
    if Admissible(c, t, file, bottles) {
      AdmissibleFleetsGrow(c, t, file, bottles, names);
    } else {
      RefusalsInOrder(c, t, file, bottles, names);
    }
  }
}
