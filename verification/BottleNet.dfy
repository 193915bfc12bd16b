/**
 The per-bottle network allocator: first-fit /28 subnets and browser ports, kept in one file (src/bottle_net.py).

 Bottles are taken in a list that stands for the source's sorted order; nothing here depends on which order it is.
 */
module BottleNet {
  import opened Wrappers

  // ------------------------------------------------------------------ address blocks

  function Pow2(n: nat): (p: nat)
    ensures p > 0
  {
    if n == 0 then 1 else 2 * Pow2(n - 1)
  }

  /** A CIDR block; `bits` is 32 less its prefix length. */
  datatype Net = Net(base: nat, bits: nat)

  function Last(n: Net): nat {
    n.base + Pow2(n.bits) - 1
  }

  predicate Contains(n: Net, address: nat) {
    n.base <= address <= Last(n)
  }

  /** Python's test: one block contains an end of the other. */
  predicate Overlaps(a: Net, b: Net) {
    Contains(b, a.base) || Contains(b, Last(a)) || Contains(a, b.base) || Contains(a, Last(b))
  }

  lemma OverlapIsASharedAddress(a: Net, b: Net)
    ensures Overlaps(a, b) <==> exists x :: Contains(a, x) && Contains(b, x)
  {
    if x :| Contains(a, x) && Contains(b, x) {
      assert Contains(b, a.base) || Contains(a, b.base);
    }
    assert Contains(a, a.base) && Contains(a, Last(a)) && Contains(b, b.base) && Contains(b, Last(b));
  }

  predicate SubnetOf(a: Net, b: Net) {
    b.base <= a.base && Last(a) <= Last(b)
  }

  const BLOCK_BITS := 4

  /** The i-th /28 of a pool. */
  function Block(pool: Net, i: nat): Net {
    Net(pool.base + i * 16, BLOCK_BITS)
  }

  function Blocks(pool: Net): nat
    requires pool.bits >= BLOCK_BITS
  {
    Pow2(pool.bits - BLOCK_BITS)
  }

  lemma SixteenABlock()
    ensures Pow2(BLOCK_BITS) == 16
  {
    assert Pow2(3) == 8;
  }

  lemma {:induction false} PoolIsItsBlocks(pool: Net)
    requires pool.bits >= BLOCK_BITS
    ensures Pow2(pool.bits) == 16 * Blocks(pool)
    decreases pool.bits
  {
    SixteenABlock();
    if pool.bits > BLOCK_BITS { PoolIsItsBlocks(Net(pool.base, pool.bits - 1)); }
  }

  /** Different blocks of a pool share nothing. */
  lemma BlocksAreDisjoint(pool: Net, i: nat, j: nat)
    ensures Overlaps(Block(pool, i), Block(pool, j)) <==> i == j
  {
    SixteenABlock();
  }

  lemma BlockIsInThePool(pool: Net, i: nat)
    requires pool.bits >= BLOCK_BITS && i < Blocks(pool)
    ensures SubnetOf(Block(pool, i), pool)
  {
    SixteenABlock();
    PoolIsItsBlocks(pool);
  }

  // ------------------------------------------------------------------ what is taken

  type Port = int

  predicate IsPort(p: Port) {
    1 <= p <= 65535
  }

  /** What the caller found on the host. */
  datatype Taken = Taken(networks: map<string, Net>, grants: set<Net>, pluginPorts: set<Port>,
                         servicePorts: set<Port>, listeners: set<Port>)

  const NETWORK_PREFIX := "djinn-b-"

  function BlockedPorts(t: Taken): set<Port> {
    t.pluginPorts + t.servicePorts + t.listeners
  }

  predicate SubnetClash(t: Taken, subnet: Net, own: Option<string>) {
    || (exists name :: name in t.networks && Some(name) != own && Overlaps(t.networks[name], subnet))
    || (exists g :: g in t.grants && Overlaps(g, subnet))
  }

  /** A Docker network that is not a bottle's overlaps the pool. */
  predicate PoolClash(t: Taken, pool: Net) {
    exists name :: name in t.networks && !(NETWORK_PREFIX <= name) && Overlaps(t.networks[name], pool)
  }

  // ------------------------------------------------------------------ the allocation

  datatype Entry = Entry(subnet: Net, browserPort: Port, sshPort: Option<Port>)

  type Alloc = map<string, Entry>

  /** The bottles asked for, each with the ssh port its manifest sets, if any. */
  type Bottles = map<string, Option<Port>>

  datatype Config = Config(pool: Net, lowPort: Port, highPort: Port)

  datatype Refusal = Unlocked | BadPort | PoolConflict | Collision | NoSubnet | NoPort

  predicate Used(work: Alloc, net: Net) {
    exists n :: n in work && Overlaps(work[n].subnet, net)
  }

  predicate FreeBlock(pool: Net, work: Alloc, t: Taken, i: nat) {
    !Used(work, Block(pool, i)) && !SubnetClash(t, Block(pool, i), None)
  }

  function FreeBlocks(pool: Net, work: Alloc, t: Taken): set<int>
    requires pool.bits >= BLOCK_BITS
  {
    set i: int | 0 <= i < Blocks(pool) && FreeBlock(pool, work, t, i)
  }

  /** The first free number from lo up to, not including, hi. */
  function FirstIn(free: set<int>, lo: int, hi: int): Option<int>
    decreases hi - lo
  {
    if lo >= hi then None else if lo in free then Some(lo) else FirstIn(free, lo + 1, hi)
  }

  lemma {:induction false} FirstInIsLowest(free: set<int>, lo: int, hi: int)
    ensures var r := FirstIn(free, lo, hi);
      && (r.None? <==> forall i :: lo <= i < hi ==> i !in free)
      && (r.Some? ==> lo <= r.value < hi && r.value in free && forall i :: lo <= i < r.value ==> i !in free)
    decreases hi - lo
  {
    if lo < hi && lo !in free { FirstInIsLowest(free, lo + 1, hi); }
  }

  /** The lowest block of the pool that overlaps nothing, if there is one. */
  function FirstFree(pool: Net, work: Alloc, t: Taken): (r: Option<int>)
    requires pool.bits >= BLOCK_BITS
    ensures r.Some? ==> 0 <= r.value < Blocks(pool) && r.value in FreeBlocks(pool, work, t)
    ensures r.Some? ==> forall i :: 0 <= i < r.value ==> i !in FreeBlocks(pool, work, t)
    ensures r.None? ==> FreeBlocks(pool, work, t) == {}
  {
    FirstInIsLowest(FreeBlocks(pool, work, t), 0, Blocks(pool));
    FirstIn(FreeBlocks(pool, work, t), 0, Blocks(pool))
  }

  function Claims(e: Entry): set<Port> {
    {e.browserPort} + if e.sshPort.Some? then {e.sshPort.value} else {}
  }

  predicate Claimed(work: Alloc, p: Port) {
    exists n :: n in work && p in Claims(work[n])
  }

  function WantedSsh(bottles: Bottles): set<Port> {
    set n | n in bottles && bottles[n].Some? :: bottles[n].value
  }

  predicate FreePort(work: Alloc, t: Taken, wanted: set<Port>, p: Port) {
    p !in BlockedPorts(t) && !Claimed(work, p) && p !in wanted
  }

  function FreePorts(c: Config, work: Alloc, t: Taken, wanted: set<Port>): set<int> {
    set p: int | c.lowPort <= p <= c.highPort && FreePort(work, t, wanted, p)
  }

  /** The lowest port of the range that nobody holds or wants. */
  function FirstPort(c: Config, work: Alloc, t: Taken, wanted: set<Port>): (r: Option<Port>)
    ensures r.Some? ==> r.value in FreePorts(c, work, t, wanted)
    ensures r.Some? ==> forall p :: c.lowPort <= p < r.value ==> p !in FreePorts(c, work, t, wanted)
    ensures r.None? ==> FreePorts(c, work, t, wanted) == {}
  {
    FirstInIsLowest(FreePorts(c, work, t, wanted), c.lowPort, c.highPort + 1);
    FirstIn(FreePorts(c, work, t, wanted), c.lowPort, c.highPort + 1)
  }

  // ------------------------------------------------------------------ the phases

  /** Phase 1: an entry that is kept must still be clean. */
  predicate Clean(c: Config, t: Taken, name: string, e: Entry) {
    && SubnetOf(e.subnet, c.pool) && e.subnet.bits == BLOCK_BITS
    && !SubnetClash(t, e.subnet, Some(NETWORK_PREFIX + name))
    && c.lowPort <= e.browserPort <= c.highPort && e.browserPort !in BlockedPorts(t)
  }

  predicate AllClean(c: Config, t: Taken, file: Alloc, names: seq<string>) {
    forall i :: 0 <= i < |names| && names[i] in file ==> Clean(c, t, names[i], file[names[i]])
  }

  /** Phase 2: what the first name with a bad ssh port is refused for. */
  function SshRefusal(t: Taken, bottles: Bottles, names: seq<string>): Option<Refusal>
    requires forall n :: n in names ==> n in bottles
  {
    if names == [] then None
    else
      var earlier := SshRefusal(t, bottles, names[..|names| - 1]);
      var ssh := bottles[names[|names| - 1]];
      if earlier.Some? || ssh.None? then earlier
      else if !IsPort(ssh.value) then Some(BadPort)
      else if ssh.value in BlockedPorts(t) then Some(Collision)
      else None
  }

  function WithSsh(file: Alloc, bottles: Bottles): Alloc {
    map n | n in file :: if n in bottles then file[n].(sshPort := bottles[n]) else file[n]
  }

  /** Phase 3 for one name. */
  function AddOne(c: Config, t: Taken, wanted: set<Port>, work: Alloc, name: string,
                  ssh: Option<Port>): Result<Alloc, Refusal>
    requires c.pool.bits >= BLOCK_BITS
  {
    if name in work then Ok(work)
    else
      match FirstFree(c.pool, work, t)
      case None => Err(NoSubnet)
      case Some(i) =>
        match FirstPort(c, work, t, wanted)
        case None => Err(NoPort)
        case Some(p) => Ok(work[name := Entry(Block(c.pool, i), p, ssh)])
  }

  /** Phase 3: new entries, first fit, in order. */
  function Grown(c: Config, t: Taken, wanted: set<Port>, work: Alloc, bottles: Bottles,
                 names: seq<string>): Result<Alloc, Refusal>
    requires c.pool.bits >= BLOCK_BITS && forall n :: n in names ==> n in bottles
  {
    if names == [] then Ok(work)
    else
      match Grown(c, t, wanted, work, bottles, names[..|names| - 1])
      case Err(e) => Err(e)
      case Ok(w) => AddOne(c, t, wanted, w, names[|names| - 1], bottles[names[|names| - 1]])
  }

  /** No port is claimed twice. */
  predicate PortsDistinct(work: Alloc) {
    && (forall n :: n in work ==> work[n].sshPort != Some(work[n].browserPort))
    && (forall a, b :: a in work && b in work && a != b ==> Claims(work[a]) !! Claims(work[b]))
  }

  predicate AllPorts(t: Taken) {
    forall p :: p in BlockedPorts(t) ==> IsPort(p)
  }

  function Allocated(c: Config, t: Taken, file: Alloc, bottles: Bottles, names: seq<string>): Result<Alloc, Refusal>
    requires c.pool.bits >= BLOCK_BITS && forall n :: n in names <==> n in bottles
  {
    if !AllPorts(t) then Err(BadPort)
    else if PoolClash(t, c.pool) then Err(PoolConflict)
    else if !AllClean(c, t, file, names) then Err(Collision)
    else if SshRefusal(t, bottles, names).Some? then Err(SshRefusal(t, bottles, names).value)
    else
      match Grown(c, t, WantedSsh(bottles), WithSsh(file, bottles), bottles, names)
      case Err(e) => Err(e)
      case Ok(work) => if PortsDistinct(work) then Ok(work) else Err(Collision)
  }

  // ------------------------------------------------------------------ what an allocation keeps

  ghost predicate Disjoint(work: Alloc) {
    forall a, b :: a in work && b in work && a != b ==> !Overlaps(work[a].subnet, work[b].subnet)
  }

  /** Entries stay where they are; only a requested entry's ssh port may differ. */
  ghost predicate Stable(file: Alloc, work: Alloc, bottles: Bottles) {
    forall n :: n in file
        ==> n in work && work[n].subnet == file[n].subnet && work[n].browserPort == file[n].browserPort
                              && work[n].sshPort == if n in bottles then bottles[n] else file[n].sshPort
  }

  /** One new entry: the lowest free block and the lowest free port; refused a subnet exactly when every
      block of the pool overlaps something. */
  lemma AddOneIsLowest(c: Config, t: Taken, wanted: set<Port>, work: Alloc, name: string, ssh: Option<Port>)
    requires c.pool.bits >= BLOCK_BITS && name !in work
    ensures var r := AddOne(c, t, wanted, work, name, ssh);
      && (r == Err(NoSubnet) <==> FreeBlocks(c.pool, work, t) == {})
      && (r == Err(NoPort) <==> FreeBlocks(c.pool, work, t) != {} && FreePorts(c, work, t, wanted) == {})
      && (r.Ok? ==>
            name in r.value && r.value == work[name := r.value[name]]
            && IsLowest(c, t, wanted, work, r.value[name], ssh))
  {
  }

  ghost predicate IsLowest(c: Config, t: Taken, wanted: set<Port>, work: Alloc, e: Entry, ssh: Option<Port>)
    requires c.pool.bits >= BLOCK_BITS
  {
    var blocks, ports := FreeBlocks(c.pool, work, t), FreePorts(c, work, t, wanted);
    && e.sshPort == ssh
    && (exists i :: i in blocks && e.subnet == Block(c.pool, i) && forall j :: j in blocks ==> i <= j)
    && e.browserPort in ports && forall q :: q in ports ==> e.browserPort <= q
  }

  lemma OverlapsCommutes(a: Net, b: Net)
    ensures Overlaps(a, b) <==> Overlaps(b, a)
  {
  }

  lemma AddOneKeepsDisjoint(c: Config, t: Taken, wanted: set<Port>, work: Alloc, name: string, ssh: Option<Port>)
    requires c.pool.bits >= BLOCK_BITS && Disjoint(work) && AddOne(c, t, wanted, work, name, ssh).Ok?
    ensures Disjoint(AddOne(c, t, wanted, work, name, ssh).value)
  {
    if name !in work {
      AddOneIsLowest(c, t, wanted, work, name, ssh);
      var e := AddOne(c, t, wanted, work, name, ssh).value[name];
      forall n | n in work ensures !Overlaps(work[n].subnet, e.subnet) && !Overlaps(e.subnet, work[n].subnet) {
        OverlapsCommutes(work[n].subnet, e.subnet);
      }
    }
  }

  /** What growing keeps, and what it gives each name. */
  ghost predicate Grows(c: Config, t: Taken, wanted: set<Port>, work: Alloc, w: Alloc, bottles: Bottles,
                        names: seq<string>) {
    && (forall n :: n in work ==> n in w && w[n] == work[n])
    && (forall n :: n in w <==> n in work || n in names)
    && (forall n :: n in names && n in bottles && n in w && n !in work ==> NewEntry(c, t, wanted, w[n], bottles[n]))
  }

  /** A new entry is a block of the pool clear of every network and grant, and a port of the range clear
      of the host's. */
  ghost predicate NewEntry(c: Config, t: Taken, wanted: set<Port>, e: Entry, ssh: Option<Port>) {
    && e.sshPort == ssh && e.subnet.bits == BLOCK_BITS && SubnetOf(e.subnet, c.pool) && !SubnetClash(t, e.subnet, None)
    && c.lowPort <= e.browserPort <= c.highPort && e.browserPort !in BlockedPorts(t) && e.browserPort !in wanted
  }

  lemma AddOneIsNew(c: Config, t: Taken, wanted: set<Port>, work: Alloc, name: string, ssh: Option<Port>)
    requires c.pool.bits >= BLOCK_BITS && name !in work && AddOne(c, t, wanted, work, name, ssh).Ok?
    ensures NewEntry(c, t, wanted, AddOne(c, t, wanted, work, name, ssh).value[name], ssh)
  {
    AddOneIsLowest(c, t, wanted, work, name, ssh);
    var e := AddOne(c, t, wanted, work, name, ssh).value[name];
    var i :| i in FreeBlocks(c.pool, work, t) && e.subnet == Block(c.pool, i);
    BlockIsInThePool(c.pool, i);
  }

  lemma AddOneGrows(c: Config, t: Taken, wanted: set<Port>, work: Alloc, w: Alloc, bottles: Bottles, names: seq<string>,
                    name: string)
    requires c.pool.bits >= BLOCK_BITS && name in bottles && Grows(c, t, wanted, work, w, bottles, names)
    requires AddOne(c, t, wanted, w, name, bottles[name]).Ok?
    ensures Grows(c, t, wanted, work, AddOne(c, t, wanted, w, name, bottles[name]).value, bottles, names + [name])
  {
    if name !in w { AddOneIsNew(c, t, wanted, w, name, bottles[name]); }
  }

  lemma {:induction false} GrownGrows(c: Config, t: Taken, wanted: set<Port>, work: Alloc, bottles: Bottles,
                                      names: seq<string>)
    requires c.pool.bits >= BLOCK_BITS && (forall n :: n in names ==> n in bottles)
    requires Grown(c, t, wanted, work, bottles, names).Ok?
    ensures Grows(c, t, wanted, work, Grown(c, t, wanted, work, bottles, names).value, bottles, names)
  {
    if names != [] {
      var init, last := names[..|names| - 1], names[|names| - 1];
      GrownGrows(c, t, wanted, work, bottles, init);
      AddOneGrows(c, t, wanted, work, Grown(c, t, wanted, work, bottles, init).value, bottles, init, last);
      assert names == init + [last];
    }
  }

  lemma {:induction false} GrownKeepsDisjoint(c: Config, t: Taken, wanted: set<Port>, work: Alloc, bottles: Bottles,
                                              names: seq<string>)
    requires c.pool.bits >= BLOCK_BITS && (forall n :: n in names ==> n in bottles) && Disjoint(work)
    requires Grown(c, t, wanted, work, bottles, names).Ok?
    ensures Disjoint(Grown(c, t, wanted, work, bottles, names).value)
  {
    if names != [] {
      var init, last := names[..|names| - 1], names[|names| - 1];
      GrownKeepsDisjoint(c, t, wanted, work, bottles, init);
      AddOneKeepsDisjoint(c, t, wanted, Grown(c, t, wanted, work, bottles, init).value, last, bottles[last]);
    }
  }

  /** What a successful allocation promises of every requested bottle. */
  ghost predicate Served(c: Config, t: Taken, work: Alloc, bottles: Bottles) {
    forall n :: n in bottles ==> n in work && work[n].sshPort == bottles[n] && Clean(c, t, n, work[n])
  }

  lemma AllocationServes(c: Config, t: Taken, file: Alloc, bottles: Bottles, names: seq<string>, n: string)
    requires c.pool.bits >= BLOCK_BITS && (forall n :: n in names <==> n in bottles)
    requires Allocated(c, t, file, bottles, names).Ok? && n in bottles
    ensures var work := Allocated(c, t, file, bottles, names).value;
      n in work && work[n].sshPort == bottles[n] && Clean(c, t, n, work[n])
  {
    var wanted, kept := WantedSsh(bottles), WithSsh(file, bottles);
    GrownGrows(c, t, wanted, kept, bottles, names);
    if n in file {
      var i :| 0 <= i < |names| && names[i] == n;
      assert Clean(c, t, names[i], file[names[i]]);
    } else {
      assert NewEntry(c, t, wanted, Allocated(c, t, file, bottles, names).value[n], bottles[n]);
    }
  }

  /** What grows out of the file with its new ssh ports moves nothing in it. */
  lemma GrowthIsStable(c: Config, t: Taken, wanted: set<Port>, file: Alloc, w: Alloc, bottles: Bottles,
                       names: seq<string>)
    requires (forall n :: n in names <==> n in bottles)
    requires Grows(c, t, wanted, WithSsh(file, bottles), w, bottles, names)
    ensures Stable(file, w, bottles) && w.Keys == file.Keys + bottles.Keys
    ensures Disjoint(file) ==> Disjoint(WithSsh(file, bottles))
  {
  }

  lemma AllocationGrows(c: Config, t: Taken, file: Alloc, bottles: Bottles, names: seq<string>)
    requires c.pool.bits >= BLOCK_BITS && (forall n :: n in names <==> n in bottles)
    requires Allocated(c, t, file, bottles, names).Ok?
    ensures var work := Allocated(c, t, file, bottles, names).value;
      && Stable(file, work, bottles) && work.Keys == file.Keys + bottles.Keys && PortsDistinct(work)
         && (Disjoint(file) ==> Disjoint(work))
  {
    var wanted, kept := WantedSsh(bottles), WithSsh(file, bottles);
    GrownGrows(c, t, wanted, kept, bottles, names);
    GrowthIsStable(c, t, wanted, file, Allocated(c, t, file, bottles, names).value, bottles, names);
    if Disjoint(file) { GrownKeepsDisjoint(c, t, wanted, kept, bottles, names); }
  }

  /** A successful allocation serves every requested bottle, adds nothing else, moves nothing, and leaves
      subnets disjoint and every port claimed once. */
  lemma AllocationIsSound(c: Config, t: Taken, file: Alloc, bottles: Bottles, names: seq<string>)
    requires c.pool.bits >= BLOCK_BITS && (forall n :: n in names <==> n in bottles)
    requires Allocated(c, t, file, bottles, names).Ok?
    ensures var work := Allocated(c, t, file, bottles, names).value;
      && Served(c, t, work, bottles) && Stable(file, work, bottles) && work.Keys == file.Keys + bottles.Keys
      && PortsDistinct(work) && (Disjoint(file) ==> Disjoint(work))
  {
    AllocationGrows(c, t, file, bottles, names);
    var work := Allocated(c, t, file, bottles, names).value;
    forall n | n in bottles ensures n in work && work[n].sshPort == bottles[n] && Clean(c, t, n, work[n]) {
      AllocationServes(c, t, file, bottles, names, n);
    }
  }

  // ------------------------------------------------------------------ runs over the file

  datatype Op =
    | Allocate(config: Config, taken: Taken, bottles: Bottles, names: seq<string>)
    | Purge(name: string)

  /** The order's list names exactly the bottles asked for, and the pool holds at least one block. */
  ghost predicate OpOk(op: Op) {
    op.Allocate? ==> op.config.pool.bits >= BLOCK_BITS && forall n :: n in op.names <==> n in op.bottles
  }

  /** The file after an operation; a refusal leaves it as it was. */
  function AfterOp(file: Alloc, op: Op): Alloc
    requires OpOk(op)
  {
    match op
    case Allocate(c, t, bottles, names) =>
      (match Allocated(c, t, file, bottles, names) case Ok(work) => work case Err(_) => file)
    case Purge(name) => file - {name}
  }

  function AfterOps(ops: seq<Op>): Alloc
    requires forall op :: op in ops ==> OpOk(op)
  {
    if ops == [] then map[] else AfterOp(AfterOps(ops[..|ops| - 1]), ops[|ops| - 1])
  }

  /** Over any run from an empty file, subnets are pairwise disjoint and no port is claimed twice. */
  lemma {:induction false} RunsStayDisjoint(ops: seq<Op>)
    requires forall op :: op in ops ==> OpOk(op)
    ensures Disjoint(AfterOps(ops)) && PortsDistinct(AfterOps(ops))
  {
    if ops != [] {
      var file, op := AfterOps(ops[..|ops| - 1]), ops[|ops| - 1];
      assert op in ops && OpOk(op);
      RunsStayDisjoint(ops[..|ops| - 1]);
      if op.Allocate? && Allocated(op.config, op.taken, file, op.bottles, op.names).Ok? {
        AllocationIsSound(op.config, op.taken, file, op.bottles, op.names);
      }
    }
  }

  /** Over any stretch of a run that does not purge it, an entry keeps its subnet and browser port. */
  lemma {:induction false} NothingMoves(ops: seq<Op>, from: nat, name: string)
    requires (forall op :: op in ops ==> OpOk(op)) && from <= |ops| && name in AfterOps(ops[..from])
    requires forall i :: from <= i < |ops| ==> ops[i] != Purge(name)
    ensures name in AfterOps(ops)
    ensures AfterOps(ops)[name].subnet == AfterOps(ops[..from])[name].subnet
    ensures AfterOps(ops)[name].browserPort == AfterOps(ops[..from])[name].browserPort
  {
    if from == |ops| {
      assert ops[..from] == ops;
    } else {
      var init, op := ops[..|ops| - 1], ops[|ops| - 1];
      assert init[..from] == ops[..from] && op in ops && OpOk(op);
      NothingMoves(init, from, name);
      if op.Allocate? && Allocated(op.config, op.taken, AfterOps(init), op.bottles, op.names).Ok? {
        AllocationIsSound(op.config, op.taken, AfterOps(init), op.bottles, op.names);
      }
    }
  }
}
