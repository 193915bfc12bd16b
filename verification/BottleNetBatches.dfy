/**
 Splitting: when allocating a batch is allocating its bottles one at a time (src/bottle_net.py).

 A batch puts every ssh port it is asked for in place, and drops the old ones, before it looks for any browser
 port; a bottle on its own sees the old ssh ports of those that come after it and not the ones they will ask for.
 */
module BottleNetBatches {
  import opened Wrappers
  import opened BottleNet
  import opened BottleNetAddresses
  import opened BottleNetLaws

  function OneByOne(c: Config, t: Taken, file: Alloc, bottles: Bottles, names: seq<string>): Result<Alloc, Refusal>
    requires c.pool.bits >= BLOCK_BITS && forall n :: n in names ==> n in bottles
  {
    if names == [] then Ok(file)
    else
      var name := names[|names| - 1];
      match OneByOne(c, t, file, bottles, names[..|names| - 1])
      case Err(e) => Err(e)
      case Ok(work) => Allocated(c, t, work, map[name := bottles[name]], [name])
  }

  /** The bottles that come after these names. */
  function Later(bottles: Bottles, names: seq<string>): set<string> {
    bottles.Keys - Named(names)
  }

  /** The ssh ports the file still has for bottles to come. */
  function OldPorts(file: Alloc, later: set<string>): set<Port> {
    set n | n in later && n in file && file[n].sshPort.Some? :: file[n].sshPort.value
  }

  /** The ssh ports that bottles to come ask for. */
  function Asked(bottles: Bottles, later: set<string>): set<Port> {
    set n | n in later && n in bottles && bottles[n].Some? :: bottles[n].value
  }

  /** Up to and with the i-th name a bottle on its own comes to what the batch gives it: the ssh port it asks for is
      no old one of a later bottle, and neither is its new browser port, and no later bottle asks for a lower port
      that a bottle on its own would take. */
  ghost predicate InStep(c: Config, file: Alloc, bottles: Bottles, names: seq<string>, i: nat, work: Alloc)
    requires i < |names| && names[i] in bottles && names[i] in work
  {
    var name, later := names[i], Later(bottles, names[..i + 1]);
    && (bottles[name].Some? ==> bottles[name].value !in OldPorts(file, later))
    && (name !in file && name !in names[..i] ==>
          var p := work[name].browserPort;
          && p !in OldPorts(file, later)
          && forall q :: q in Asked(bottles, later) && c.lowPort <= q < p ==> q in OldPorts(file, later))
  }

  // ------------------------------------------------------------------ in step means the same

  /** The file half way: bottles to come are as the file has them, the others as the batch leaves them. */
  function Partly(grown: Alloc, file: Alloc, later: set<string>): Alloc {
    map n | n in grown :: if n in later && n in file then file[n] else grown[n]
  }

  lemma {:induction false} SshAccepted(t: Taken, bottles: Bottles, names: seq<string>, name: string)
    requires (forall n :: n in names ==> n in bottles) && name in names && SshRefusal(t, bottles, names).None?
    ensures bottles[name].Some? ==> IsPort(bottles[name].value) && bottles[name].value !in BlockedPorts(t)
  {
    var init, last := names[..|names| - 1], names[|names| - 1];
    if name != last { SshAccepted(t, bottles, init, name); }
  }

  /** One bottle on its own: the checks it passes leave the growing. */
  lemma AloneIsAddOne(c: Config, t: Taken, work: Alloc, name: string, ssh: Option<Port>)
    requires c.pool.bits >= BLOCK_BITS && AllPorts(t) && !PoolClash(t, c.pool)
    requires name in work ==> Clean(c, t, name, work[name])
    requires ssh.Some? ==> IsPort(ssh.value) && ssh.value !in BlockedPorts(t)
    ensures var bottles: Bottles := map[name := ssh];
      Allocated(c, t, work, bottles, [name]) ==
        match AddOne(c, t, WantedSsh(bottles), WithSsh(work, bottles), name, ssh)
        case Err(e) => Err(e)
        case Ok(w) => if PortsDistinct(w) then Ok(w) else Err(Collision)
  {
    var bottles: Bottles := map[name := ssh];
    var kept := WithSsh(work, bottles);
    assert [name][..0] == [];
    assert SshRefusal(t, bottles, [name]).None? by { assert SshRefusal(t, bottles, []).None?; }
    assert Grown(c, t, WantedSsh(bottles), kept, bottles, [name])
        == AddOne(c, t, WantedSsh(bottles), kept, name, ssh) by {
      assert Grown(c, t, WantedSsh(bottles), kept, bottles, []) == Ok(kept);
    }
  }

  /** A batch that succeeds on a file whose ports are distinct. */
  ghost predicate Batch(c: Config, t: Taken, file: Alloc, bottles: Bottles, names: seq<string>) {
    && c.pool.bits >= BLOCK_BITS && (forall n :: n in names <==> n in bottles)
    && PortsDistinct(file) && Allocated(c, t, file, bottles, names).Ok?
  }

  lemma GrownSoFar(c: Config, t: Taken, file: Alloc, bottles: Bottles, names: seq<string>, i: nat)
    requires Batch(c, t, file, bottles, names) && i <= |names|
    ensures Grown(c, t, WantedSsh(bottles), WithSsh(file, bottles), bottles, names[..i]).Ok?
  {
    GrownExtends(c, t, WantedSsh(bottles), WithSsh(file, bottles), bottles, names, i);
  }

  /** What the batch has after i names. */
  ghost function After(c: Config, t: Taken, file: Alloc, bottles: Bottles, names: seq<string>, i: nat): Alloc
    requires Batch(c, t, file, bottles, names) && i <= |names|
  {
    GrownSoFar(c, t, file, bottles, names, i);
    Grown(c, t, WantedSsh(bottles), WithSsh(file, bottles), bottles, names[..i]).value
  }

  lemma NextAfter(c: Config, t: Taken, file: Alloc, bottles: Bottles, names: seq<string>, i: nat)
    requires Batch(c, t, file, bottles, names) && i < |names|
    ensures AddOne(c, t, WantedSsh(bottles), After(c, t, file, bottles, names, i), names[i], bottles[names[i]])
         == Ok(After(c, t, file, bottles, names, i + 1))
  {
    GrownSoFar(c, t, file, bottles, names, i + 1);
    assert names[..i + 1][..i] == names[..i];
  }

  /** What is so of the batch at every point. */
  ghost predicate Point(file: Alloc, bottles: Bottles, done: seq<string>, grown: Alloc, w: Alloc) {
    && (forall n :: n in grown <==> n in file || n in done)
    && (forall n :: n in grown ==> n in w && w[n] == grown[n])
    && (forall n ::
         n in file ==> n in grown && grown[n] == if n in bottles then file[n].(sshPort := bottles[n]) else file[n])
    && (forall n :: n in done ==> n in bottles && n in grown && grown[n].sshPort == bottles[n])
  }

  lemma AfterIsAPoint(c: Config, t: Taken, file: Alloc, bottles: Bottles, names: seq<string>, i: nat)
    requires Batch(c, t, file, bottles, names) && i <= |names|
    ensures Point(file, bottles, names[..i], After(c, t, file, bottles, names, i),
      Allocated(c, t, file, bottles, names).value)
  {
    var kept, wanted := WithSsh(file, bottles), WantedSsh(bottles);
    GrownExtends(c, t, wanted, kept, bottles, names, i);
    GrownGrows(c, t, wanted, kept, bottles, names[..i]);
    var grown := After(c, t, file, bottles, names, i);
    forall n | n in names[..i] ensures n in grown && grown[n].sshPort == bottles[n] {
      assert n in names;
      if n in file { assert grown[n] == kept[n]; }
    }
  }

  lemma PartlyClaims(grown: Alloc, file: Alloc, bottles: Bottles, done: seq<string>, w: Alloc, later: set<string>,
                     p: Port)
    requires Point(file, bottles, done, grown, w)
    ensures Claimed(Partly(grown, file, later), p) ==> Claimed(grown, p) || p in OldPorts(file, later)
    ensures p in OldPorts(file, later) ==> Claimed(Partly(grown, file, later), p)
    ensures Claimed(grown, p) ==> Claimed(Partly(grown, file, later), p) || p in Asked(bottles, later)
  {
    var work := Partly(grown, file, later);
    if Claimed(work, p) {
      var n :| n in work && p in Claims(work[n]);
      assert p in Claims(grown[n]) || p in OldPorts(file, later);
    }
    if p in OldPorts(file, later) {
      var n :| n in later && n in file && file[n].sshPort == Some(p);
      assert n in work && p in Claims(work[n]);
    }
    if Claimed(grown, p) {
      var n :| n in grown && p in Claims(grown[n]);
      assert p in Claims(work[n]) || p in Asked(bottles, later);
    }
  }

  lemma PartlyUses(pool: Net, grown: Alloc, file: Alloc, bottles: Bottles, done: seq<string>, w: Alloc,
                   later: set<string>, t: Taken)
    requires pool.bits >= BLOCK_BITS && Point(file, bottles, done, grown, w)
    ensures FreeBlocks(pool, Partly(grown, file, later), t) == FreeBlocks(pool, grown, t)
  {
    var work := Partly(grown, file, later);
    forall net ensures Used(work, net) <==> Used(grown, net) {
      if n :| n in work && Overlaps(work[n].subnet, net) { assert grown[n].subnet == work[n].subnet; }
      if n :| n in grown && Overlaps(grown[n].subnet, net) { assert grown[n].subnet == work[n].subnet; }
    }
  }

  /** A new name at its turn, with the names after it. */
  ghost predicate Turn(file: Alloc, bottles: Bottles, done: seq<string>, grown: Alloc, w: Alloc, name: string,
                       later: set<string>) {
    Point(file, bottles, done, grown, w) && name in bottles && name !in grown
        && later == bottles.Keys - Named(done) - {name}
  }

  lemma StillFree(t: Taken, file: Alloc, bottles: Bottles, done: seq<string>, grown: Alloc, w: Alloc, name: string,
                  later: set<string>, p: Port)
    requires Turn(file, bottles, done, grown, w, name, later)
    requires FreePort(grown, t, WantedSsh(bottles), p) && p !in OldPorts(file, later)
    ensures FreePort(Partly(grown, file, later), t, WantedSsh(map[name := bottles[name]]), p)
  {
    PartlyClaims(grown, file, bottles, done, w, later, p);
    if bottles[name].Some? { AskedIsWanted(bottles, name); }
  }

  lemma StillTaken(t: Taken, file: Alloc, bottles: Bottles, done: seq<string>, grown: Alloc, w: Alloc, name: string,
                   later: set<string>, q: Port)
    requires Turn(file, bottles, done, grown, w, name, later)
    requires !FreePort(grown, t, WantedSsh(bottles), q) && (q in Asked(bottles, later) ==> q in OldPorts(file, later))
    ensures !FreePort(Partly(grown, file, later), t, WantedSsh(map[name := bottles[name]]), q)
  {
    PartlyClaims(grown, file, bottles, done, w, later, q);
    if q in WantedSsh(bottles) && q !in Asked(bottles, later) {
      var n :| n in bottles && bottles[n] == Some(q);
      if n == name {
        AskedIsWanted(map[name := bottles[name]], name);
      } else {
        assert n in done && n !in later && q in Claims(Partly(grown, file, later)[n]);
      }
    }
  }

  /** A bottle on its own takes the port the batch gives it, if it is in step. */
  lemma SamePort(c: Config, t: Taken, file: Alloc, bottles: Bottles, done: seq<string>, grown: Alloc, w: Alloc,
                 name: string, later: set<string>, p: Port)
    requires Turn(file, bottles, done, grown, w, name, later) && FirstPort(c, grown, t, WantedSsh(bottles)) == Some(p)
    requires p !in OldPorts(file, later)
    requires forall q :: q in Asked(bottles, later) && c.lowPort <= q < p ==> q in OldPorts(file, later)
    ensures FirstPort(c, Partly(grown, file, later), t, WantedSsh(map[name := bottles[name]])) == Some(p)
  {
    var work, asked := Partly(grown, file, later), WantedSsh(map[name := bottles[name]]);
    StillFree(t, file, bottles, done, grown, w, name, later, p);
    assert p in FreePorts(c, work, t, asked);
    forall q | c.lowPort <= q < p ensures q !in FreePorts(c, work, t, asked) {
      assert q !in FreePorts(c, grown, t, WantedSsh(bottles));
      StillTaken(t, file, bottles, done, grown, w, name, later, q);
    }
  }

  lemma SameBlock(pool: Net, t: Taken, a: Alloc, b: Alloc)
    requires pool.bits >= BLOCK_BITS && FreeBlocks(pool, a, t) == FreeBlocks(pool, b, t)
    ensures FirstFree(pool, a, t) == FirstFree(pool, b, t)
  {
  }

  lemma SameEntry(c: Config, t: Taken, a: Alloc, wanted: set<Port>, b: Alloc, asked: set<Port>, name: string,
                  ssh: Option<Port>)
    requires c.pool.bits >= BLOCK_BITS && name !in a && name !in b && AddOne(c, t, wanted, a, name, ssh).Ok?
    requires FirstFree(c.pool, a, t) == FirstFree(c.pool, b, t)
    requires FirstPort(c, a, t, wanted) == FirstPort(c, b, t, asked)
    ensures AddOne(c, t, asked, b, name, ssh) == Ok(b[name := AddOne(c, t, wanted, a, name, ssh).value[name]])
    ensures AddOne(c, t, wanted, a, name, ssh).value == a[name := AddOne(c, t, wanted, a, name, ssh).value[name]]
  {
  }

  lemma JoinPartly(grown: Alloc, file: Alloc, later: set<string>, name: string, e: Entry, ssh: Option<Port>)
    requires name !in grown && name !in later
    ensures WithSsh(Partly(grown, file, later), map[name := ssh]) == Partly(grown, file, later)
    ensures Partly(grown[name := e], file, later) == Partly(grown, file, later)[name := e]
  {
  }

  lemma NewPort(c: Config, t: Taken, wanted: set<Port>, work: Alloc, name: string, ssh: Option<Port>)
    requires c.pool.bits >= BLOCK_BITS && name !in work && AddOne(c, t, wanted, work, name, ssh).Ok?
    ensures FirstPort(c, work, t, wanted) == Some(AddOne(c, t, wanted, work, name, ssh).value[name].browserPort)
  {
  }

  /** A new name in step gets on its own the entry it gets in the batch. */
  lemma NewNameStep(c: Config, t: Taken, file: Alloc, bottles: Bottles, done: seq<string>, grown: Alloc, w: Alloc,
                    name: string, later: set<string>)
    requires Turn(file, bottles, done, grown, w, name, later) && c.pool.bits >= BLOCK_BITS
    requires AddOne(c, t, WantedSsh(bottles), grown, name, bottles[name]).Ok?
    requires var p := AddOne(c, t, WantedSsh(bottles), grown, name, bottles[name]).value[name].browserPort;
      && p !in OldPorts(file, later)
      && forall q :: q in Asked(bottles, later) && c.lowPort <= q < p ==> q in OldPorts(file, later)
    ensures var work, one := Partly(grown, file, later), map[name := bottles[name]];
      AddOne(c, t, WantedSsh(one), WithSsh(work, one), name, bottles[name])
        == Ok(Partly(AddOne(c, t, WantedSsh(bottles), grown, name, bottles[name]).value, file, later))
  {
    var work, one := Partly(grown, file, later), map[name := bottles[name]];
    var next := AddOne(c, t, WantedSsh(bottles), grown, name, bottles[name]).value;
    NewPort(c, t, WantedSsh(bottles), grown, name, bottles[name]);
    PartlyUses(c.pool, grown, file, bottles, done, w, later, t);
    SameBlock(c.pool, t, work, grown);
    SamePort(c, t, file, bottles, done, grown, w, name, later, next[name].browserPort);
    SameEntry(c, t, grown, WantedSsh(bottles), work, WantedSsh(one), name, bottles[name]);
    JoinPartly(grown, file, later, name, next[name], bottles[name]);
  }

  /** A name the file or the batch has already only gets its ssh port. */
  lemma OldNameStep(c: Config, t: Taken, file: Alloc, bottles: Bottles, done: seq<string>, grown: Alloc, w: Alloc,
                    name: string, before: set<string>, later: set<string>)
    requires Point(file, bottles, done, grown, w) && c.pool.bits >= BLOCK_BITS && name in bottles && name in grown
    requires before == bottles.Keys - Named(done) && later == before - {name}
    ensures var work, one := Partly(grown, file, before), map[name := bottles[name]];
      AddOne(c, t, WantedSsh(one), WithSsh(work, one), name, bottles[name]) == Ok(Partly(grown, file, later))
  {
    assert WithSsh(Partly(grown, file, before), map[name := bottles[name]]) == Partly(grown, file, later);
  }

  /** An entry of the half way file is the batch's or, with the same browser port, still the file's. */
  ghost predicate Agrees(file: Alloc, half: Alloc, w: Alloc, later: set<string>, m: string)
    requires m in half
  {
    m in w && (half[m] == w[m]
        || (m in later && m in file && half[m] == file[m] && file[m].browserPort == w[m].browserPort))
  }

  /** The entry a step writes clashes with none, if it is in step. */
  lemma StepKeepsDistinct(file: Alloc, w: Alloc, work: Alloc, r: Alloc, name: string, later: set<string>)
    requires PortsDistinct(file) && PortsDistinct(w) && PortsDistinct(work) && name in w
    requires r == work[name := w[name]] && Claims(w[name]) !! OldPorts(file, later)
    requires forall m :: m in work && m != name ==> Agrees(file, work, w, later, m)
    ensures PortsDistinct(r)
  {
    forall m | m in work && m != name ensures Claims(work[m]) !! Claims(w[name]) {
      assert Claims(w[m]) !! Claims(w[name]);
      if work[m] != w[m] && file[m].sshPort.Some? { assert file[m].sshPort.value in OldPorts(file, later); }
    }
  }

  /** The file when i bottles have been allocated one at a time, as long as they are in step. */
  ghost function Half(c: Config, t: Taken, file: Alloc, bottles: Bottles, names: seq<string>, i: nat): Alloc
    requires Batch(c, t, file, bottles, names) && i <= |names|
  {
    Partly(After(c, t, file, bottles, names, i), file, Later(bottles, names[..i]))
  }

  lemma LaterShrinks(bottles: Bottles, names: seq<string>, i: nat)
    requires i < |names|
    ensures Later(bottles, names[..i + 1]) == Later(bottles, names[..i]) - {names[i]}
    ensures Named(names[..i + 1]) == Named(names[..i]) + {names[i]}
  {
    assert names[..i + 1] == names[..i] + [names[i]];
  }

  /** The checks an entry passes on its own are those the batch made. */
  lemma AloneIsAdmitted(c: Config, t: Taken, file: Alloc, bottles: Bottles, names: seq<string>, i: nat)
    requires Batch(c, t, file, bottles, names) && i < |names|
    ensures var work, name := Half(c, t, file, bottles, names, i), names[i];
      && AllPorts(t) && !PoolClash(t, c.pool) && name in bottles
      && (name in work ==> Clean(c, t, name, work[name]))
      && (bottles[name].Some? ==> IsPort(bottles[name].value) && bottles[name].value !in BlockedPorts(t))
  {
    var name := names[i];
    assert name in names;
    SshAccepted(t, bottles, names, name);
    AfterIsAPoint(c, t, file, bottles, names, i);
    AllocationServes(c, t, file, bottles, names, name);
  }

  lemma SamePartly(grown: Alloc, file: Alloc, before: set<string>, later: set<string>, name: string)
    requires later == before - {name} && name !in file
    ensures Partly(grown, file, before) == Partly(grown, file, later)
  {
  }

  lemma PartlyNext(grown: Alloc, next: Alloc, file: Alloc, before: set<string>, later: set<string>, name: string)
    requires later == before - {name} && next.Keys == grown.Keys + {name}
    requires forall n :: n in grown ==> next[n] == grown[n]
    ensures Partly(next, file, later) == Partly(grown, file, before)[name := next[name]]
  {
  }

  /** The half way file after one more bottle: that bottle is as the batch leaves it, the rest is untouched. */
  lemma HalfGrows(c: Config, t: Taken, file: Alloc, bottles: Bottles, names: seq<string>, i: nat)
    requires Batch(c, t, file, bottles, names) && i < |names|
    ensures var w := Allocated(c, t, file, bottles, names).value;
      names[i] in w && Half(c, t, file, bottles, names, i + 1)
          == Half(c, t, file, bottles, names, i)[names[i] := w[names[i]]]
  {
    var grown, next := After(c, t, file, bottles, names, i), After(c, t, file, bottles, names, i + 1);
    NextKeys(c, t, file, bottles, names, i);
    LaterShrinks(bottles, names, i);
    PartlyNext(grown, next, file, Later(bottles, names[..i]), Later(bottles, names[..i + 1]), names[i]);
  }

  lemma NextKeys(c: Config, t: Taken, file: Alloc, bottles: Bottles, names: seq<string>, i: nat)
    requires Batch(c, t, file, bottles, names) && i < |names|
    ensures var grown, next := After(c, t, file, bottles, names, i), After(c, t, file, bottles, names, i + 1);
      var w := Allocated(c, t, file, bottles, names).value;
      && next.Keys == grown.Keys + {names[i]} && (forall n :: n in grown ==> next[n] == grown[n])
      && names[i] in w && next[names[i]] == w[names[i]]
  {
    AfterIsAPoint(c, t, file, bottles, names, i + 1);
    NextAfter(c, t, file, bottles, names, i);
  }

  lemma HalfAgrees(c: Config, t: Taken, file: Alloc, bottles: Bottles, names: seq<string>, i: nat, m: string)
    requires Batch(c, t, file, bottles, names) && i <= |names| && m in Half(c, t, file, bottles, names, i)
    ensures Agrees(file, Half(c, t, file, bottles, names, i), Allocated(c, t, file, bottles, names).value,
      Later(bottles, names[..i]), m)
  {
    AfterIsAPoint(c, t, file, bottles, names, i);
  }

  lemma HalfStep(c: Config, t: Taken, file: Alloc, bottles: Bottles, names: seq<string>, i: nat)
    requires Batch(c, t, file, bottles, names) && i < |names|
    requires names[i] in Allocated(c, t, file, bottles, names).value
    requires InStep(c, file, bottles, names, i, Allocated(c, t, file, bottles, names).value)
    ensures var one := map[names[i] := bottles[names[i]]];
      AddOne(c, t, WantedSsh(one), WithSsh(Half(c, t, file, bottles, names, i), one), names[i], bottles[names[i]])
        == Ok(Half(c, t, file, bottles, names, i + 1))
  {
    var name, w, done := names[i], Allocated(c, t, file, bottles, names).value, names[..i];
    var grown, before, later := After(c, t, file, bottles, names, i), Later(bottles, done),
        Later(bottles, names[..i + 1]);
    AfterIsAPoint(c, t, file, bottles, names, i);
    NextAfter(c, t, file, bottles, names, i);
    LaterShrinks(bottles, names, i);
    if name in grown {
      OldNameStep(c, t, file, bottles, done, grown, w, name, before, later);
    } else {
      AfterIsAPoint(c, t, file, bottles, names, i + 1);
      SamePartly(grown, file, before, later, name);
      NewNameStep(c, t, file, bottles, done, grown, w, name, later);
    }
  }

  lemma HalfStaysDistinct(c: Config, t: Taken, file: Alloc, bottles: Bottles, names: seq<string>, i: nat)
    requires Batch(c, t, file, bottles, names) && i < |names| && PortsDistinct(Half(c, t, file, bottles, names, i))
    requires names[i] in Allocated(c, t, file, bottles, names).value
    requires InStep(c, file, bottles, names, i, Allocated(c, t, file, bottles, names).value)
    ensures PortsDistinct(Half(c, t, file, bottles, names, i + 1))
  {
    var name, w := names[i], Allocated(c, t, file, bottles, names).value;
    var half, later := Half(c, t, file, bottles, names, i), Later(bottles, names[..i + 1]);
    HalfGrows(c, t, file, bottles, names, i);
    LaterShrinks(bottles, names, i);
    AtItsTurn(c, t, file, bottles, names, i);
    if name in names[..i] && name !in file {
      assert half[name := w[name]] == half;
    } else {
      OwnPortsAreNotOld(file, bottles, w, name, later, c, names, i);
      forall m | m in half && m != name ensures Agrees(file, half, w, later, m) {
        HalfAgrees(c, t, file, bottles, names, i, m);
      }
      StepKeepsDistinct(file, w, half, Half(c, t, file, bottles, names, i + 1), name, later);
    }
  }

  lemma AtItsTurn(c: Config, t: Taken, file: Alloc, bottles: Bottles, names: seq<string>, i: nat)
    requires Batch(c, t, file, bottles, names) && i < |names|
    ensures var name, half, w := names[i], Half(c, t, file, bottles, names, i),
      Allocated(c, t, file, bottles, names).value;
      && PortsDistinct(w) && name in bottles && name in w && w[name].sshPort == bottles[name]
      && (name in file ==> file[name].browserPort == w[name].browserPort)
      && (name in names[..i] && name !in file ==> name in half && half[name] == w[name])
  {
    var name := names[i];
    assert name in names;
    AllocationGrows(c, t, file, bottles, names);
    AllocationServes(c, t, file, bottles, names, name);
    AfterIsAPoint(c, t, file, bottles, names, i);
  }

  lemma OwnPortsAreNotOld(file: Alloc, bottles: Bottles, w: Alloc, name: string, later: set<string>, c: Config,
                          names: seq<string>, i: nat)
    requires i < |names| && name == names[i] && name in bottles && name in w && InStep(c, file, bottles, names, i, w)
    requires later == Later(bottles, names[..i + 1]) && w[name].sshPort == bottles[name] && PortsDistinct(file)
    requires name !in later
    requires if name in file then file[name].browserPort == w[name].browserPort else name !in names[..i]
    ensures Claims(w[name]) !! OldPorts(file, later)
  {
    forall p | p in OldPorts(file, later) ensures p !in Claims(w[name]) {
      var n :| n in later && n in file && file[n].sshPort == Some(p);
      if name in file { assert Claims(file[n]) !! Claims(file[name]); }
    }
  }

  /** One bottle more on its own. */
  lemma HalfAlone(c: Config, t: Taken, file: Alloc, bottles: Bottles, names: seq<string>, i: nat)
    requires Batch(c, t, file, bottles, names) && i < |names| && PortsDistinct(Half(c, t, file, bottles, names, i))
    requires names[i] in bottles && names[i] in Allocated(c, t, file, bottles, names).value
    requires InStep(c, file, bottles, names, i, Allocated(c, t, file, bottles, names).value)
    ensures Allocated(c, t, Half(c, t, file, bottles, names, i), map[names[i] := bottles[names[i]]], [names[i]])
         == Ok(Half(c, t, file, bottles, names, i + 1))
    ensures PortsDistinct(Half(c, t, file, bottles, names, i + 1))
  {
    HalfStep(c, t, file, bottles, names, i);
    HalfStaysDistinct(c, t, file, bottles, names, i);
    AloneIsAdmitted(c, t, file, bottles, names, i);
    AloneIsAddOne(c, t, Half(c, t, file, bottles, names, i), names[i], bottles[names[i]]);
  }

  lemma {:induction false} InStepMeansHalf(c: Config, t: Taken, file: Alloc, bottles: Bottles, names: seq<string>,
                                           i: nat)
    requires Batch(c, t, file, bottles, names) && i <= |names|
    requires var w := Allocated(c, t, file, bottles, names).value;
      forall j :: 0 <= j < |names| ==> names[j] in bottles && names[j] in w && InStep(c, file, bottles, names, j, w)
    ensures OneByOne(c, t, file, bottles, names[..i]) == Ok(Half(c, t, file, bottles, names, i))
    ensures PortsDistinct(Half(c, t, file, bottles, names, i))
  {
    if i == 0 {
      AfterIsAPoint(c, t, file, bottles, names, 0);
      assert Half(c, t, file, bottles, names, 0) == file;
    } else {
      assert names[..i][..i - 1] == names[..i - 1];
      InStepMeansHalf(c, t, file, bottles, names, i - 1);
      HalfAlone(c, t, file, bottles, names, i - 1);
    }
  }

  // ------------------------------------------------------------------ the same means in step

  /** What is so of the file after these bottles, each on its own. */
  ghost predicate Singly(file: Alloc, bottles: Bottles, done: set<string>, work: Alloc) {
    && work.Keys == file.Keys + done && done <= bottles.Keys
    && (forall n :: n in file && n !in done ==> work[n] == file[n])
    && (forall n :: n in done ==> work[n].sshPort == bottles[n])
  }

  /** Entries keep their browser ports. */
  ghost predicate PortsStay(r: Alloc, w: Alloc) {
    forall n :: n in r ==> n in w && w[n].browserPort == r[n].browserPort
  }

  /** One entry is new or has its ssh port set; the rest is as it was. */
  ghost predicate OneSet(work: Alloc, next: Alloc, name: string, ssh: Option<Port>) {
    && next.Keys == work.Keys + {name} && next[name].sshPort == ssh
    && (forall n :: n in work && n != name ==> next[n] == work[n])
    && (name in work ==> next[name].browserPort == work[name].browserPort)
  }

  lemma AloneSetsOne(c: Config, t: Taken, work: Alloc, name: string, ssh: Option<Port>)
    requires c.pool.bits >= BLOCK_BITS && Allocated(c, t, work, map[name := ssh], [name]).Ok?
    ensures var next := Allocated(c, t, work, map[name := ssh], [name]).value;
      PortsDistinct(next) && OneSet(work, next, name, ssh)
  {
    AllocationIsSound(c, t, work, map[name := ssh], [name]);
  }

  lemma SinglyOneMore(file: Alloc, bottles: Bottles, done: set<string>, work: Alloc, next: Alloc, name: string)
    requires name in bottles && Singly(file, bottles, done, work) && OneSet(work, next, name, bottles[name])
    ensures Singly(file, bottles, done + {name}, next) && PortsStay(work, next)
  {
  }

  lemma NamedOneMore(names: seq<string>)
    requires names != []
    ensures Named(names) == Named(names[..|names| - 1]) + {names[|names| - 1]}
  {
    assert names == names[..|names| - 1] + [names[|names| - 1]];
  }

  lemma OneByOneStep(c: Config, t: Taken, file: Alloc, bottles: Bottles, names: seq<string>, i: nat)
    requires c.pool.bits >= BLOCK_BITS && (forall n :: n in names ==> n in bottles) && i < |names|
    requires OneByOne(c, t, file, bottles, names[..i + 1]).Ok?
    ensures names[i] in names && OneByOne(c, t, file, bottles, names[..i]).Ok?
    ensures OneByOne(c, t, file, bottles, names[..i + 1])
         == Allocated(c, t, OneByOne(c, t, file, bottles, names[..i]).value, map[names[i] := bottles[names[i]]],
             [names[i]])
  {
    assert names[..i + 1][..i] == names[..i];
  }

  lemma {:induction false} OneByOneIsSingly(c: Config, t: Taken, file: Alloc, bottles: Bottles, names: seq<string>)
    requires c.pool.bits >= BLOCK_BITS && (forall n :: n in names ==> n in bottles)
    requires OneByOne(c, t, file, bottles, names).Ok?
    ensures Singly(file, bottles, Named(names), OneByOne(c, t, file, bottles, names).value)
  {
    if names != [] {
      var init, last := names[..|names| - 1], names[|names| - 1];
      OneByOneIsSingly(c, t, file, bottles, init);
      var work, next := OneByOne(c, t, file, bottles, init).value, OneByOne(c, t, file, bottles, names).value;
      AloneSetsOne(c, t, work, last, bottles[last]);
      SinglyOneMore(file, bottles, Named(init), work, next, last);
      NamedOneMore(names);
    }
  }

  lemma StepMovesNothing(c: Config, t: Taken, file: Alloc, bottles: Bottles, names: seq<string>, i: nat)
    requires c.pool.bits >= BLOCK_BITS && (forall n :: n in names ==> n in bottles) && i < |names|
    requires OneByOne(c, t, file, bottles, names[..i + 1]).Ok?
    ensures OneByOne(c, t, file, bottles, names[..i]).Ok?
    ensures PortsStay(OneByOne(c, t, file, bottles, names[..i]).value,
      OneByOne(c, t, file, bottles, names[..i + 1]).value)
  {
    OneByOneStep(c, t, file, bottles, names, i);
    AloneSetsOne(c, t, OneByOne(c, t, file, bottles, names[..i]).value, names[i], bottles[names[i]]);
  }

  lemma PortsStayOn(a: Alloc, b: Alloc, c: Alloc)
    requires PortsStay(a, b) && PortsStay(b, c)
    ensures PortsStay(a, c)
  {
  }

  /** Every entry keeps its browser port to the end. */
  lemma {:induction false} OneByOneMovesNothing(c: Config, t: Taken, file: Alloc, bottles: Bottles,
                                                names: seq<string>, i: nat)
    requires c.pool.bits >= BLOCK_BITS && (forall n :: n in names ==> n in bottles) && i <= |names|
    requires OneByOne(c, t, file, bottles, names).Ok?
    ensures OneByOne(c, t, file, bottles, names[..i]).Ok?
    ensures PortsStay(OneByOne(c, t, file, bottles, names[..i]).value, OneByOne(c, t, file, bottles, names).value)
    decreases |names| - i
  {
    if i == |names| {
      assert names[..i] == names;
    } else {
      OneByOneMovesNothing(c, t, file, bottles, names, i + 1);
      StepMovesNothing(c, t, file, bottles, names, i);
      PortsStayOn(OneByOne(c, t, file, bottles, names[..i]).value, OneByOne(c, t, file, bottles, names[..i + 1]).value,
                  OneByOne(c, t, file, bottles, names).value);
    }
  }

  /** No old ssh port of a later bottle is among the ports of the bottle just allocated. */
  lemma JustAllocatedIsClear(file: Alloc, bottles: Bottles, done: set<string>, work: Alloc, name: string, p: Port)
    requires Singly(file, bottles, done, work) && PortsDistinct(work) && name in done && p in Claims(work[name])
    ensures p !in OldPorts(file, bottles.Keys - done)
  {
    forall n | n in bottles && n !in done && n in file ensures file[n].sshPort != Some(p) {
      assert work[n] == file[n] && Claims(work[n]) !! Claims(work[name]);
    }
  }

  /** Every bottle has the ssh port it asked for, every other entry the one it had. */
  ghost predicate SshSettled(file: Alloc, bottles: Bottles, w: Alloc) {
    && (forall n :: n in bottles ==> n in w && w[n].sshPort == bottles[n])
    && (forall n :: n in file && n !in bottles ==> n in w && w[n].sshPort == file[n].sshPort)
  }

  lemma OneHolder(w: Alloc, m: string, k: string, q: Port)
    requires PortsDistinct(w) && m in w && k in w && w[m].sshPort == Some(q)
    ensures q in Claims(w[k]) ==> k == m && w[k].browserPort != q
  {
    if k != m { assert Claims(w[k]) !! Claims(w[m]); }
  }

  /** Where an entry of the file so far differs from the final one: bottles to come still have their old ssh port. */
  lemma ClaimedThenIsOld(file: Alloc, bottles: Bottles, done: set<string>, work: Alloc, w: Alloc, q: Port)
    requires Singly(file, bottles, done, work) && PortsDistinct(w) && PortsStay(work, w) && SshSettled(file, bottles, w)
    requires Claimed(work, q) && q in Asked(bottles, bottles.Keys - done)
    ensures exists k :: k in work && k in file && k in bottles.Keys - done && file[k].sshPort == Some(q)
  {
    var m :| m in bottles.Keys - done && m in bottles && bottles[m] == Some(q);
    var k :| k in work && q in Claims(work[k]);
    OneHolder(w, m, k, q);
    assert work[k].browserPort != q && work[k].sshPort == Some(q);
    assert k in bottles.Keys - done && work[k] == file[k];
  }

  lemma FirstPortIsLower(c: Config, t: Taken, work: Alloc, name: string, ssh: Option<Port>, q: Port)
    requires c.pool.bits >= BLOCK_BITS && name !in work && AllPorts(t) && !PoolClash(t, c.pool)
    requires ssh.Some? ==> IsPort(ssh.value) && ssh.value !in BlockedPorts(t)
    requires var r := Allocated(c, t, work, map[name := ssh], [name]);
      r.Ok? && name in r.value && c.lowPort <= q < r.value[name].browserPort
    ensures q in BlockedPorts(t) || Claimed(work, q) || ssh == Some(q)
  {
    var one: Bottles := map[name := ssh];
    AloneIsAddOne(c, t, work, name, ssh);
    assert WithSsh(work, one) == work;
    NewPort(c, t, WantedSsh(one), work, name, ssh);
    assert q !in FreePorts(c, work, t, WantedSsh(one));
  }

  /** The file before and after the i-th bottle on its own, on the way to the batch's result. */
  ghost predicate OnTheWay(file: Alloc, bottles: Bottles, names: seq<string>, i: nat, work: Alloc, next: Alloc,
                           w: Alloc)
    requires i < |names|
  {
    && Singly(file, bottles, Named(names[..i]), work) && Singly(file, bottles, Named(names[..i + 1]), next)
       && PortsDistinct(next)
    && PortsStay(work, w) && PortsStay(next, w)
    && names[i] in Named(names[..i + 1])
  }

  lemma StepOnTheWay(c: Config, t: Taken, file: Alloc, bottles: Bottles, names: seq<string>, i: nat)
      returns (work: Alloc, next: Alloc)
    requires c.pool.bits >= BLOCK_BITS && (forall n :: n in names ==> n in bottles) && i < |names|
    requires OneByOne(c, t, file, bottles, names).Ok?
    ensures names[i] in names && Allocated(c, t, work, map[names[i] := bottles[names[i]]], [names[i]]) == Ok(next)
    ensures OneByOne(c, t, file, bottles, names[..i]) == Ok(work)
    ensures PortsStay(work, OneByOne(c, t, file, bottles, names).value)
    ensures PortsStay(next, OneByOne(c, t, file, bottles, names).value)
  {
    OneByOneMovesNothing(c, t, file, bottles, names, i);
    OneByOneMovesNothing(c, t, file, bottles, names, i + 1);
    OneByOneStep(c, t, file, bottles, names, i);
    work := OneByOne(c, t, file, bottles, names[..i]).value;
    next := OneByOne(c, t, file, bottles, names[..i + 1]).value;
  }

  lemma IsOnTheWay(c: Config, t: Taken, file: Alloc, bottles: Bottles, names: seq<string>, i: nat)
      returns (work: Alloc, next: Alloc)
    requires c.pool.bits >= BLOCK_BITS && (forall n :: n in names ==> n in bottles) && i < |names|
    requires OneByOne(c, t, file, bottles, names).Ok?
    ensures names[i] in names && Allocated(c, t, work, map[names[i] := bottles[names[i]]], [names[i]]) == Ok(next)
    ensures OnTheWay(file, bottles, names, i, work, next, OneByOne(c, t, file, bottles, names).value)
  {
    work, next := StepOnTheWay(c, t, file, bottles, names, i);
    OneByOneIsSingly(c, t, file, bottles, names[..i]);
    AloneSetsOne(c, t, work, names[i], bottles[names[i]]);
    SinglyOneMore(file, bottles, Named(names[..i]), work, next, names[i]);
    LaterShrinks(bottles, names, i);
  }

  lemma SameMeansInStep(c: Config, t: Taken, file: Alloc, bottles: Bottles, names: seq<string>, i: nat)
    requires Batch(c, t, file, bottles, names) && i < |names|
    requires OneByOne(c, t, file, bottles, names) == Allocated(c, t, file, bottles, names)
    ensures names[i] in bottles && names[i] in Allocated(c, t, file, bottles, names).value
    ensures InStep(c, file, bottles, names, i, Allocated(c, t, file, bottles, names).value)
  {
    var name, later, w := names[i], Later(bottles, names[..i + 1]), Allocated(c, t, file, bottles, names).value;
    var work, next := IsOnTheWay(c, t, file, bottles, names, i);
    forall p | p in Claims(next[name]) ensures p !in OldPorts(file, later) {
      JustAllocatedIsClear(file, bottles, Named(names[..i + 1]), next, name, p);
    }
    if name !in file && name !in names[..i] {
      LaterShrinks(bottles, names, i);
      forall q | q in Asked(bottles, later) && c.lowPort <= q < w[name].browserPort ensures q in OldPorts(file, later) {
        AskedIsOld(c, t, file, bottles, names, Named(names[..i]), work, name, q);
      }
    }
  }

  lemma BatchSettles(c: Config, t: Taken, file: Alloc, bottles: Bottles, names: seq<string>)
    requires Batch(c, t, file, bottles, names)
    ensures var w := Allocated(c, t, file, bottles, names).value; SshSettled(file, bottles, w) && PortsDistinct(w)
  {
    AllocationIsSound(c, t, file, bottles, names);
  }

  /** A lower port that a later bottle asks for was not free for the bottle on its own: it was claimed. */
  lemma AskedIsClaimed(c: Config, t: Taken, file: Alloc, bottles: Bottles, names: seq<string>, work: Alloc,
                       name: string, later: set<string>, q: Port)
    requires Batch(c, t, file, bottles, names) && name in names && name !in work && name !in later
    requires var r := Allocated(c, t, work, map[name := bottles[name]], [name]);
      r.Ok? && name in r.value && c.lowPort <= q < r.value[name].browserPort
    requires q in Asked(bottles, later)
    ensures Claimed(work, q)
  {
    SshAccepted(t, bottles, names, name);
    FirstPortIsLower(c, t, work, name, bottles[name], q);
    AskedElsewhere(c, t, file, bottles, names, later, name, q);
  }

  /** So it is still the old ssh port of a later bottle. */
  lemma AskedIsOld(c: Config, t: Taken, file: Alloc, bottles: Bottles, names: seq<string>, done: set<string>,
                   work: Alloc, name: string, q: Port)
    requires Batch(c, t, file, bottles, names) && name in names && name !in work
    requires Singly(file, bottles, done, work) && PortsStay(work, Allocated(c, t, file, bottles, names).value)
    requires var r := Allocated(c, t, work, map[name := bottles[name]], [name]);
      r.Ok? && name in r.value && c.lowPort <= q < r.value[name].browserPort
    requires q in Asked(bottles, bottles.Keys - done - {name})
    ensures q in OldPorts(file, bottles.Keys - done - {name})
  {
    AskedIsClaimed(c, t, file, bottles, names, work, name, bottles.Keys - done - {name}, q);
    BatchSettles(c, t, file, bottles, names);
    ClaimedThenIsOld(file, bottles, done, work, Allocated(c, t, file, bottles, names).value, q);
  }

  lemma AskedElsewhere(c: Config, t: Taken, file: Alloc, bottles: Bottles, names: seq<string>, later: set<string>,
                       name: string, q: Port)
    requires Batch(c, t, file, bottles, names) && q in Asked(bottles, later) && name in bottles && name !in later
    ensures q !in BlockedPorts(t) && bottles[name] != Some(q)
  {
    var w := Allocated(c, t, file, bottles, names).value;
    AllocationIsSound(c, t, file, bottles, names);
    var m :| m in later && m in bottles && bottles[m] == Some(q);
    SshAccepted(t, bottles, names, m);
    assert Claims(w[m]) !! Claims(w[name]);
  }

  /** On a file whose ports are distinct, a batch that succeeds is its bottles allocated one at a time exactly
      when every bottle is in step. */
  lemma ABatchIsOneAtATime(c: Config, t: Taken, file: Alloc, bottles: Bottles, names: seq<string>)
    requires c.pool.bits >= BLOCK_BITS && (forall n :: n in names <==> n in bottles)
    requires PortsDistinct(file) && Allocated(c, t, file, bottles, names).Ok?
    ensures var w := Allocated(c, t, file, bottles, names).value;
      && (forall i :: 0 <= i < |names| ==> names[i] in w)
      && (OneByOne(c, t, file, bottles, names) == Ok(w) <==>
            forall i :: 0 <= i < |names| ==> InStep(c, file, bottles, names, i, w))
  {
    var w := Allocated(c, t, file, bottles, names).value;
    AllocationIsSound(c, t, file, bottles, names);
    forall i | 0 <= i < |names| ensures names[i] in w && names[i] in bottles { assert names[i] in names; }
    if OneByOne(c, t, file, bottles, names) == Ok(w) {
      forall i | 0 <= i < |names| ensures InStep(c, file, bottles, names, i, w) {
        SameMeansInStep(c, t, file, bottles, names, i);
      }
    } else if forall i :: 0 <= i < |names| ==> InStep(c, file, bottles, names, i, w) {
      InStepMeansTheSame(c, t, file, bottles, names);
    }
  }

  lemma InStepMeansTheSame(c: Config, t: Taken, file: Alloc, bottles: Bottles, names: seq<string>)
    requires Batch(c, t, file, bottles, names)
    requires var w := Allocated(c, t, file, bottles, names).value;
      forall j :: 0 <= j < |names| ==> names[j] in bottles && names[j] in w && InStep(c, file, bottles, names, j, w)
    ensures OneByOne(c, t, file, bottles, names) == Allocated(c, t, file, bottles, names)
  {
    InStepMeansHalf(c, t, file, bottles, names, |names|);
    assert names[..|names|] == names;
    HalfIsWholeAtLast(c, t, file, bottles, names);
  }

  lemma HalfIsWholeAtLast(c: Config, t: Taken, file: Alloc, bottles: Bottles, names: seq<string>)
    requires Batch(c, t, file, bottles, names)
    ensures Half(c, t, file, bottles, names, |names|) == Allocated(c, t, file, bottles, names).value
  {
    assert names[..|names|] == names;
    NamesAreBottles(file, bottles, names);
    NobodyIsLeft(After(c, t, file, bottles, names, |names|), file);
  }

  lemma NobodyIsLeft(grown: Alloc, file: Alloc)
    ensures Partly(grown, file, {}) == grown
  {
  }

  /** With no ssh port asked for, and none on file within the browser range, every batch that succeeds is its
      bottles one at a time. */
  lemma WithoutSshNothingSplits(c: Config, t: Taken, file: Alloc, bottles: Bottles, names: seq<string>)
    requires c.pool.bits >= BLOCK_BITS && (forall n :: n in names <==> n in bottles)
    requires PortsDistinct(file) && Allocated(c, t, file, bottles, names).Ok?
    requires forall n :: n in bottles ==> bottles[n].None?
    requires forall n, p :: n in bottles && n in file && file[n].sshPort == Some(p) ==> !(c.lowPort <= p <= c.highPort)
    ensures OneByOne(c, t, file, bottles, names) == Allocated(c, t, file, bottles, names)
  {
    var w := Allocated(c, t, file, bottles, names).value;
    ABatchIsOneAtATime(c, t, file, bottles, names);
    AllocationIsSound(c, t, file, bottles, names);
    forall i | 0 <= i < |names| ensures InStep(c, file, bottles, names, i, w) {
      assert names[i] in names && Clean(c, t, names[i], w[names[i]]);
      InStepWithoutSsh(c, file, bottles, names, i, w);
    }
  }

  lemma InStepWithoutSsh(c: Config, file: Alloc, bottles: Bottles, names: seq<string>, i: nat, w: Alloc)
    requires i < |names| && names[i] in bottles && names[i] in w && c.lowPort <= w[names[i]].browserPort <= c.highPort
    requires forall n :: n in bottles ==> bottles[n].None?
    requires forall n, p :: n in bottles && n in file && file[n].sshPort == Some(p) ==> !(c.lowPort <= p <= c.highPort)
    ensures InStep(c, file, bottles, names, i, w)
  {
  }

  // ------------------------------------------------------------------ a batch that splits

  /** A pool of two blocks and three browser ports, on a host where nothing is taken. */
  ghost predicate Small(c: Config, t: Taken) {
    c.pool.bits == BLOCK_BITS + 1 && c.lowPort == 10 && c.highPort == 12 && Unhindered(t) && BlockedPorts(t) == {}
  }

  /** One bottle "b", in the first block and on the first port. */
  ghost predicate OnlyB(c: Config, file: Alloc, ssh: Option<Port>) {
    file == map["b" := Entry(Block(c.pool, 0), 10, ssh)]
  }

  lemma SecondBlockIsFree(c: Config, t: Taken, file: Alloc, ssh: Option<Port>)
    requires Small(c, t) && OnlyB(c, file, ssh)
    ensures FreeBlocks(c.pool, file, t) == {1}
  {
    assert Blocks(c.pool) == 2 by { assert Pow2(0) == 1; }
    BlocksAreDisjoint(c.pool, 0, 0);
    BlocksAreDisjoint(c.pool, 0, 1);
    assert file["b"].subnet == Block(c.pool, 0);
    assert !FreeBlock(c.pool, file, t, 0) && FreeBlock(c.pool, file, t, 1);
  }

  /** The new bottle "a" gets the lowest port that "b" leaves. */
  lemma NextToB(c: Config, t: Taken, kept: Alloc)
    requires Small(c, t) && OnlyB(c, kept, None)
    ensures AddOne(c, t, {}, kept, "a", None) == Ok(kept["a" := Entry(Block(c.pool, 1), 11, None)])
  {
    SecondBlockIsFree(c, t, kept, None);
    forall p ensures Claimed(kept, p) <==> p == 10 { assert p in Claims(kept["b"]) <==> p == 10; }
    assert 11 in FreePorts(c, kept, t, {});
  }

  const BOTH: Bottles := map["a" := None, "b" := None]

  lemma BothGrown(c: Config, t: Taken, kept: Alloc)
    requires Small(c, t) && OnlyB(c, kept, None)
    ensures Grown(c, t, {}, kept, BOTH, ["a", "b"]) == Ok(kept["a" := Entry(Block(c.pool, 1), 11, None)])
  {
    var work := kept["a" := Entry(Block(c.pool, 1), 11, None)];
    assert ["a", "b"][..1] == ["a"] && ["a"][..0] == [];
    NextToB(c, t, kept);
    assert Grown(c, t, {}, kept, BOTH, ["a"]) == Ok(work) by { assert Grown(c, t, {}, kept, BOTH, []) == Ok(kept); }
  }

  lemma BothKept(c: Config, file: Alloc, kept: Alloc)
    requires OnlyB(c, file, Some(11)) && OnlyB(c, kept, None)
    ensures WithSsh(file, BOTH) == kept && WantedSsh(BOTH) == {}
    ensures PortsDistinct(kept["a" := Entry(Block(c.pool, 1), 11, None)])
  {
  }

  lemma BatchGivesEleven(c: Config, t: Taken, file: Alloc, kept: Alloc)
    requires Small(c, t) && OnlyB(c, file, Some(11)) && OnlyB(c, kept, None)
    ensures Allocated(c, t, file, BOTH, ["a", "b"]) == Ok(kept["a" := Entry(Block(c.pool, 1), 11, None)])
  {
    BothGrown(c, t, kept);
    BIsClean(c, t, file);
    NobodyAsks(t);
    BothKept(c, file, kept);
  }

  lemma NobodyAsks(t: Taken)
    ensures SshRefusal(t, BOTH, ["a", "b"]).None?
  {
    assert ["a", "b"][..1] == ["a"] && ["a"][..0] == [];
    assert SshRefusal(t, BOTH, ["a"]).None?;
  }

  lemma BIsClean(c: Config, t: Taken, file: Alloc)
    requires Small(c, t) && OnlyB(c, file, Some(11))
    ensures AllPorts(t) && !PoolClash(t, c.pool) && AllClean(c, t, file, ["a", "b"])
  {
    BlockIsInThePool(c.pool, 0);
  }

  /** Two bottles, "b" with an old ssh port on file: the batch gives "a" that very port, so "a" is not in step,
      and one at a time they come to something else. */
  lemma AStaleSshPortSplitsABatch(c: Config, t: Taken)
    requires Small(c, t)
    ensures exists file :: Allocated(c, t, file, BOTH, ["a", "b"]).Ok? && PortsDistinct(file)
                        && OneByOne(c, t, file, BOTH, ["a", "b"]) != Allocated(c, t, file, BOTH, ["a", "b"])
  {
    var file: Alloc := map["b" := Entry(Block(c.pool, 0), 10, Some(11))];
    BatchGivesEleven(c, t, file, map["b" := Entry(Block(c.pool, 0), 10, None)]);
    ABatchIsOneAtATime(c, t, file, BOTH, ["a", "b"]);
    var w := Allocated(c, t, file, BOTH, ["a", "b"]).value;
    BIsLater(file);
    assert !InStep(c, file, BOTH, ["a", "b"], 0, w);
  }

  lemma BIsLater(file: Alloc)
    requires "b" in file && file["b"].sshPort == Some(11)
    ensures 11 in OldPorts(file, Later(BOTH, ["a", "b"][..1]))
  {
    assert ["a", "b"][..1] == ["a"];
    assert "b" in Later(BOTH, ["a"]);
  }
}
