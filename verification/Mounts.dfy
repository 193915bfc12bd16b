/**
 Where plugins may mount volumes: component-wise overlap of container paths, and the loops that admit agent
 state directories and plugin volumes (src/manifest.py).
 */
module Mounts {
  import opened Wrappers
  import opened Splitting

  // ------------------------------------------------------------------ paths by component

  /** A path's components. */
  function Components(path: string): (r: seq<string>)
    ensures |r| > 0
  {
    Split('/', path)
  }

  /** The text test: one path's components start with the other's. */
  predicate PathOverlaps(a: string, b: string) {
    Overlaps(Components(a), Components(b))
  }

  // ------------------------------------------------------------------ paths as components

  type Path = seq<string>

  predicate Overlaps(a: Path, b: Path) {
    b <= a || a <= b
  }

  /** Strictly inside, component by component. */
  predicate Below(path: Path, root: Path) {
    root < path
  }

  predicate Apart(a: Path, b: Path) {
    a != b && !Below(a, b) && !Below(b, a)
  }

  /** Two paths overlap exactly when they are the same or one lies inside the other. */
  lemma OverlapIsNesting(a: Path, b: Path)
    ensures Overlaps(a, b) <==> !Apart(a, b)
  {
    if |a| == |b| {
      assert a <= b ==> a == b;
      assert b <= a ==> b == a;
    }
  }

  /** As text: the same path, or one inside the other. */
  lemma TextOverlapIsNesting(a: string, b: string)
    ensures PathOverlaps(a, b) <==> a == b || Below(Components(a), Components(b)) || Below(Components(b), Components(a))
  {
    OverlapIsNesting(Components(a), Components(b));
    SplitRoundTrip('/', a);
    SplitRoundTrip('/', b);
  }

  /** Letter by letter: the same path, or one that starts with the other and a slash. */
  lemma TextOverlapIsAPrefix(a: string, b: string)
    ensures PathOverlaps(a, b) <==> a == b || b + "/" <= a || a + "/" <= b
  {
    StartsInParts('/', a, b);
    StartsInParts('/', b, a);
  }

  // ------------------------------------------------------------------ what a declaration may say

  const VOLUME_ROOT: Path := ["", "home", "coder"]

  const AGENT_KEYS: Path := ["", "home", "coder", ".agent-keys"]

  const STATIC_MOUNTS: set<Path> := {
    ["", "workspace"], ["", "artifacts"], ["", "artifacts", "browser"], ["", "agent-rules"],
    ["", "etc", "ssh", "host_keys"],
    AGENT_KEYS, ["", "home", "coder", ".config", "gh"]}

  /** The same mount targets as compose writes them. */
  const STATIC_MOUNT_TEXTS := {
    "/workspace", "/artifacts", "/artifacts/browser", "/agent-rules", "/etc/ssh/host_keys",
    "/home/coder/.agent-keys", "/home/coder/.config/gh"}

  const STATIC_VOLUMES := {"workspace", "gh-auth", "ssh-host-keys"}

  predicate Alnum(c: char) {
    '0' <= c <= '9' || 'A' <= c <= 'Z' || 'a' <= c <= 'z'
  }

  predicate VolumeName(name: string) {
    |name| >= 2 && Alnum(name[0]) && forall i :: 0 < i < |name| ==> Alnum(name[i]) || name[i] == '_' || name[i] == '-'
  }

  predicate Segment(s: string) {
    s != "" && forall c :: c in s ==> Alnum(c) || c in {'.', '_', '@', '+', '-'}
  }

  /** An absolute path of plain segments, none of them two dots and with no slash at the end. */
  predicate VolumePath(parts: Path) {
    |parts| >= 2 && parts[0] == "" && forall i :: 1 <= i < |parts| ==> Segment(parts[i]) && parts[i] != ".."
  }

  /** One volume an enabled plugin declares. */
  datatype Volume = Volume(plugin: string, name: string, path: Path)

  datatype Refusal = BadName | ComposeName | NameTaken | BadPath | OutsideRoot | MountClash | VolumeClash

  predicate ClashesWith(path: Path, mounts: set<Path>) {
    exists m :: m in mounts && Overlaps(path, m)
  }

  /** What volumes are admitted against: the directory they live under, and compose's own volumes and mounts. */
  datatype Rules = Rules(root: Path, names: set<string>, mounts: set<Path>)

  function Refused(v: Volume, r: Rules, names: set<string>, paths: set<Path>): Option<Refusal> {
    if !VolumeName(v.name) then Some(BadName)
    else if v.name in r.names then Some(ComposeName)
    else if v.name in names then Some(NameTaken)
    else if !VolumePath(v.path) then Some(BadPath)
    else if !Overlaps(v.path, r.root) || v.path == r.root then Some(OutsideRoot)
    else if ClashesWith(v.path, r.mounts) then Some(MountClash)
    else if ClashesWith(v.path, paths) then Some(VolumeClash)
    else None
  }

  function Names(vs: seq<Volume>): set<string> {
    set i | 0 <= i < |vs| :: vs[i].name
  }

  function Paths(vs: seq<Volume>): set<Path> {
    set i | 0 <= i < |vs| :: vs[i].path
  }

  /** The first refusal, going through the volumes in order. */
  function FirstRefusal(vs: seq<Volume>, rules: Rules): Option<Refusal> {
    if vs == [] then None
    else
      var init, last := vs[..|vs| - 1], vs[|vs| - 1];
      var earlier := FirstRefusal(init, rules);
      if earlier.Some? then earlier else Refused(last, rules, Names(init), Paths(init))
  }

  /** Each volume name with its path. */
  function Declared(vs: seq<Volume>): map<string, Path> {
    if vs == [] then map[] else Declared(vs[..|vs| - 1])[vs[|vs| - 1].name := vs[|vs| - 1].path]
  }

  /** Admits the enabled plugins' volumes in order, or stops at the first that is refused. */
  method AdmitVolumes(vs: seq<Volume>, rules: Rules) returns (r: Result<map<string, Path>, Refusal>)
    ensures r.Ok? <==> FirstRefusal(vs, rules).None?
    ensures r.Err? ==> Some(r.error) == FirstRefusal(vs, rules)
    ensures r.Ok? ==> r.value == Declared(vs)
  {
    var volumes: map<string, Path> := map[];
    var volumeOwner: map<string, string>, pathOwner: map<Path, string> := map[], map[];
    for n := 0 to |vs|
      invariant FirstRefusal(vs[..n], rules).None?
      invariant volumes == Declared(vs[..n]) && volumeOwner.Keys == Names(vs[..n]) && pathOwner.Keys == Paths(vs[..n])
    {
      var v := vs[n];
      assert vs[..n + 1][..n] == vs[..n];
      var refusal := Refused(v, rules, volumeOwner.Keys, pathOwner.Keys);
      if refusal.Some? {
        RefusalStays(vs, rules, n + 1);
        return Err(refusal.value);
      }
      NamesOfMore(vs, n);
      volumes, volumeOwner, pathOwner := volumes[v.name := v.path], volumeOwner[v.name := v.plugin],
          pathOwner[v.path := v.plugin];
    }
    assert vs[..|vs|] == vs;
    return Ok(volumes);
  }

  lemma NamesOfMore(vs: seq<Volume>, n: nat)
    requires n < |vs|
    ensures Names(vs[..n + 1]) == Names(vs[..n]) + {vs[n].name} && Paths(vs[..n + 1]) == Paths(vs[..n]) + {vs[n].path}
  {
    assert forall i :: 0 <= i < n ==> vs[..n + 1][i] == vs[..n][i];
    assert vs[..n + 1][n] == vs[n];
    forall x | x in Names(vs[..n]) ensures x in Names(vs[..n + 1]) {
      var i :| 0 <= i < n && vs[..n][i].name == x;
      assert vs[..n + 1][i].name == x;
    }
    forall x | x in Paths(vs[..n]) ensures x in Paths(vs[..n + 1]) {
      var i :| 0 <= i < n && vs[..n][i].path == x;
      assert vs[..n + 1][i].path == x;
    }
  }

  lemma {:induction false} RefusalStays(vs: seq<Volume>, rules: Rules, n: nat)
    requires n <= |vs| && FirstRefusal(vs[..n], rules).Some?
    ensures FirstRefusal(vs, rules) == FirstRefusal(vs[..n], rules)
  {
    if n == |vs| {
      assert vs[..n] == vs;
    } else {
      assert vs[..|vs| - 1][..n] == vs[..n];
      RefusalStays(vs[..|vs| - 1], rules, n);
    }
  }

  // ------------------------------------------------------------------ what admission means

  /** A volume named well, strictly below the root, and apart from every mount. */
  ghost predicate WellPlacedAlone(v: Volume, rules: Rules) {
    && VolumeName(v.name) && v.name !in rules.names && VolumePath(v.path) && Below(v.path, rules.root)
    && forall m :: m in rules.mounts ==> Apart(v.path, m)
  }

  /** What the rules are for: well-formed names and paths, every volume strictly below the root, and no two
      mounts the same or nested. */
  ghost predicate WellPlaced(vs: seq<Volume>, rules: Rules) {
    && (forall i :: 0 <= i < |vs| ==> WellPlacedAlone(vs[i], rules))
    && (forall i, j :: 0 <= i < j < |vs| ==> vs[i].name != vs[j].name && Apart(vs[i].path, vs[j].path))
  }

  /** Every path above the root is above a mount below the root. */
  lemma AboveTheRootClashes(root: Path, path: Path, mounts: set<Path>, mount: Path)
    requires mount in mounts && Below(mount, root) && Below(root, path)
    ensures ClashesWith(path, mounts)
  {
    assert Overlaps(path, mount);
  }

  /** A volume that fits with those before it. */
  ghost predicate Fits(v: Volume, rules: Rules, names: set<string>, paths: set<Path>) {
    WellPlacedAlone(v, rules) && v.name !in names && forall p :: p in paths ==> Apart(v.path, p)
  }

  /** One volume passes exactly when it is well placed with what is already there: the root test lets a path
      above the root through, and the mount test then refuses it, so it takes both. */
  lemma OneAdmitted(v: Volume, rules: Rules, mount: Path, names: set<string>, paths: set<Path>)
    requires mount in rules.mounts && Below(mount, rules.root)
    ensures Refused(v, rules, names, paths).None? <==> Fits(v, rules, names, paths)
  {
    OverlapIsNesting(v.path, rules.root);
    if Below(rules.root, v.path) { AboveTheRootClashes(rules.root, v.path, rules.mounts, mount); }
    forall m ensures Overlaps(v.path, m) <==> !Apart(v.path, m) { OverlapIsNesting(v.path, m); }
  }

  /** A manifest's volumes are admitted exactly when they are well placed. */
  lemma {:induction false} AdmittedIsWellPlaced(vs: seq<Volume>, rules: Rules, mount: Path)
    requires mount in rules.mounts && Below(mount, rules.root)
    ensures FirstRefusal(vs, rules).None? <==> WellPlaced(vs, rules)
  {
    if vs != [] {
      var init, last := vs[..|vs| - 1], vs[|vs| - 1];
      AdmittedIsWellPlaced(init, rules, mount);
      OneAdmitted(last, rules, mount, Names(init), Paths(init));
      if WellPlaced(vs, rules) { PlacedThenFits(vs, rules); }
      if WellPlaced(init, rules) && Fits(last, rules, Names(init), Paths(init)) { FitsThenPlaced(vs, rules); }
    }
  }

  lemma PlacedThenFits(vs: seq<Volume>, rules: Rules)
    requires vs != [] && WellPlaced(vs, rules)
    ensures var init := vs[..|vs| - 1]; WellPlaced(init, rules) && Fits(vs[|vs| - 1], rules, Names(init), Paths(init))
  {
    var init, n := vs[..|vs| - 1], |vs| - 1;
    assert forall i :: 0 <= i < n ==> init[i] == vs[i];
    forall p | p in Paths(init) ensures Apart(vs[n].path, p) {
      var i :| 0 <= i < n && init[i].path == p;
      assert Apart(vs[i].path, vs[n].path);
    }
    forall i | 0 <= i < n ensures init[i].name != vs[n].name { assert vs[i].name != vs[n].name; }
  }

  lemma FitsThenPlaced(vs: seq<Volume>, rules: Rules)
    requires vs != [] && WellPlaced(vs[..|vs| - 1], rules)
    requires Fits(vs[|vs| - 1], rules, Names(vs[..|vs| - 1]), Paths(vs[..|vs| - 1]))
    ensures WellPlaced(vs, rules)
  {
    var init, n := vs[..|vs| - 1], |vs| - 1;
    forall i, j | 0 <= i < j < |vs| ensures vs[i].name != vs[j].name && Apart(vs[i].path, vs[j].path) {
      assert init[i] == vs[i] && (j < n ==> init[j] == vs[j]);
      if j == n { assert init[i].name in Names(init) && init[i].path in Paths(init); }
    }
    forall i | 0 <= i < |vs| ensures WellPlacedAlone(vs[i], rules) {
      if i < n { assert init[i] == vs[i]; }
    }
  }

  lemma JoinedOf(a: string, rest: seq<string>)
    requires |rest| > 0
    ensures Join('/', [a] + rest) == a + "/" + Join('/', rest)
  {
    assert ([a] + rest)[1..] == rest;
  }

  lemma JoinedTwo(a: string)
    ensures Join('/', ["", a]) == "/" + a
  {
    JoinedOf("", [a]);
    assert ["", a] == [""] + [a];
  }

  lemma JoinedThree(a: string, b: string)
    ensures Join('/', ["", a, b]) == "/" + a + "/" + b
  {
    JoinedOf(a, [b]);
    JoinedOf("", [a, b]);
    assert ["", a, b] == [""] + [a, b] && [a, b] == [a] + [b];
  }

  lemma JoinedFour(a: string, b: string, c: string)
    ensures Join('/', ["", a, b, c]) == "/" + a + "/" + b + "/" + c
  {
    JoinedOf(b, [c]);
    JoinedOf(a, [b, c]);
    JoinedOf("", [a, b, c]);
    assert ["", a, b, c] == [""] + [a, b, c] && [a, b, c] == [a] + [b, c] && [b, c] == [b] + [c];
  }

  lemma JoinedFive(a: string, b: string, c: string, d: string)
    ensures Join('/', ["", a, b, c, d]) == "/" + a + "/" + b + "/" + c + "/" + d
  {
    JoinedOf(c, [d]);
    JoinedOf(b, [c, d]);
    JoinedOf(a, [b, c, d]);
    JoinedOf("", [a, b, c, d]);
    assert ["", a, b, c, d] == [""] + [a, b, c, d] && [a, b, c, d] == [a] + [b, c, d];
    assert [b, c, d] == [b] + [c, d] && [c, d] == [c] + [d];
  }

  /** Each mount and the root, written out. */
  function Written(m: Path): string {
    if |m| == 0 then "" else Join('/', m)
  }

  lemma HomeIsWritten()
    ensures Written(VOLUME_ROOT) == "/home/coder" && Written(AGENT_KEYS) == "/home/coder/.agent-keys"
  {
    JoinedThree("home", "coder");
    JoinedFour("home", "coder", ".agent-keys");
  }

  lemma GhIsWritten()
    ensures Written(["", "home", "coder", ".config", "gh"]) == "/home/coder/.config/gh"
  {
    JoinedFive("home", "coder", ".config", "gh");
  }

  lemma OthersAreWritten()
    ensures Written(["", "workspace"]) == "/workspace" && Written(["", "artifacts"]) == "/artifacts"
    ensures Written(["", "agent-rules"]) == "/agent-rules"
    ensures Written(["", "artifacts", "browser"]) == "/artifacts/browser"
    ensures Written(["", "etc", "ssh", "host_keys"]) == "/etc/ssh/host_keys"
  {
    JoinedTwo("workspace");
    JoinedTwo("artifacts");
    JoinedTwo("agent-rules");
    JoinedThree("artifacts", "browser");
    JoinedFour("etc", "ssh", "host_keys");
  }

  lemma HomeIsPlain()
    ensures Plain('/', AGENT_KEYS) && Plain('/', ["", "home", "coder", ".config", "gh"])
  {
  }

  lemma MountIsPlain(m: Path)
    requires m in STATIC_MOUNTS
    ensures Plain('/', m)
  {
    HomeIsPlain();
  }

  /** The mounts that volumes are kept apart from are the texts compose declares, read into their components. */
  lemma StaticMountsAreTheTexts()
    ensures (set m | m in STATIC_MOUNTS :: Written(m)) == STATIC_MOUNT_TEXTS
  {
    HomeIsWritten();
    GhIsWritten();
    OthersAreWritten();
  }

  lemma MountsReadBack(m: Path)
    requires m in STATIC_MOUNTS
    ensures Components(Written(m)) == m
  {
    MountIsPlain(m);
    PartsRoundTrip('/', m);
  }

  /** The mounts compose itself declares do hold one below the root. */
  lemma AStaticMountIsBelowTheRoot()
    ensures AGENT_KEYS in STATIC_MOUNTS && Below(AGENT_KEYS, VOLUME_ROOT)
  {
  }

  /** Without the mount test the root test would admit a path above the root. */
  lemma TheRootTestAloneAdmitsHome()
    ensures exists path ::
             VolumePath(path) && Overlaps(path, VOLUME_ROOT) && path != VOLUME_ROOT && !Below(path, VOLUME_ROOT)
  {
    var home := ["", "home"];
    assert VolumePath(home) && home <= VOLUME_ROOT;
  }

  // ------------------------------------------------------------------ agent state directories

  /** A state directory an agent declares, relative to the root, and its volume. */
  datatype StateDir = StateDir(agent: string, path: Path, volume: string)

  function MountOf(root: Path, d: StateDir): Path {
    root + d.path
  }

  predicate HomePath(path: Path) {
    |path| > 0 && forall part :: part in path ==>
      part !in {"", ".", ".."} && forall c :: c in part ==> Alnum(c) || c in {'.', '_', '-'}
  }

  datatype StateRefusal = BadStatePath | BadVolume | VolumeOwned | StateOverlap

  predicate OwnedByOther(owners: map<string, string>, d: StateDir) {
    d.volume in owners && owners[d.volume] != d.agent
  }

  function StateRefused(root: Path, d: StateDir, owners: map<string, string>, mounts: set<Path>): Option<StateRefusal> {
    if !HomePath(d.path) then Some(BadStatePath)
    else if !VolumeName(d.volume) then Some(BadVolume)
    else if OwnedByOther(owners, d) then Some(VolumeOwned)
    else if ClashesWith(MountOf(root, d), mounts) then Some(StateOverlap)
    else None
  }

  /** A state directory that fits with those before it. */
  ghost predicate StateFits(root: Path, d: StateDir, earlier: seq<StateDir>) {
    && HomePath(d.path) && VolumeName(d.volume)
    && forall i :: 0 <= i < |earlier| ==>
         Apart(MountOf(root, earlier[i]), MountOf(root, d))
             && (earlier[i].volume == d.volume ==> earlier[i].agent == d.agent)
  }

  function StateMounts(root: Path, dirs: seq<StateDir>): set<Path> {
    set i | 0 <= i < |dirs| :: MountOf(root, dirs[i])
  }

  /** Which agent owns each volume, after these directories. */
  ghost predicate Owners(dirs: seq<StateDir>, owners: map<string, string>) {
    && (forall i :: 0 <= i < |dirs| ==> dirs[i].volume in owners && owners[dirs[i].volume] == dirs[i].agent)
    && (forall v :: v in owners ==> exists i :: 0 <= i < |dirs| && dirs[i].volume == v)
  }

  lemma ClashesIff(root: Path, d: StateDir, dirs: seq<StateDir>)
    ensures !ClashesWith(MountOf(root, d), StateMounts(root, dirs)) <==>
              forall i :: 0 <= i < |dirs| ==> Apart(MountOf(root, dirs[i]), MountOf(root, d))
  {
    forall i | 0 <= i < |dirs| ensures MountOf(root, dirs[i]) in StateMounts(root, dirs) {
      OverlapIsNesting(MountOf(root, d), MountOf(root, dirs[i]));
    }
    if m :| m in StateMounts(root, dirs) && Overlaps(MountOf(root, d), m) { OverlapIsNesting(MountOf(root, d), m); }
  }

  lemma StateRefusedIff(root: Path, d: StateDir, dirs: seq<StateDir>, owners: map<string, string>)
    requires Owners(dirs, owners)
    ensures StateRefused(root, d, owners, StateMounts(root, dirs)).None? <==> StateFits(root, d, dirs)
  {
    ClashesIff(root, d, dirs);
    if OwnedByOther(owners, d) {
      var i :| 0 <= i < |dirs| && dirs[i].volume == d.volume;
    }
  }

  lemma OwnersGrow(root: Path, dirs: seq<StateDir>, owners: map<string, string>, d: StateDir)
    requires Owners(dirs, owners) && !OwnedByOther(owners, d)
    ensures Owners(dirs + [d], owners[d.volume := d.agent])
    ensures StateMounts(root, dirs + [d]) == StateMounts(root, dirs) + {MountOf(root, d)}
  {
    var more := dirs + [d];
    assert more[|dirs|] == d && forall i :: 0 <= i < |dirs| ==> more[i] == dirs[i];
    forall m | m in StateMounts(root, dirs) ensures m in StateMounts(root, more) {
      var i :| 0 <= i < |dirs| && MountOf(root, dirs[i]) == m;
      assert more[i] == dirs[i];
    }
    forall v | v in owners ensures exists i :: 0 <= i < |more| && more[i].volume == v {
      var i :| 0 <= i < |dirs| && dirs[i].volume == v;
      assert more[i].volume == v;
    }
  }

  /** Each directory fits with those before it. */
  ghost predicate AllFit(root: Path, dirs: seq<StateDir>) {
    dirs == [] || (AllFit(root, dirs[..|dirs| - 1]) && StateFits(root, dirs[|dirs| - 1], dirs[..|dirs| - 1]))
  }

  lemma {:induction false} EachFits(root: Path, dirs: seq<StateDir>, i: nat)
    requires AllFit(root, dirs) && i < |dirs|
    ensures AllFit(root, dirs[..i]) && StateFits(root, dirs[i], dirs[..i])
  {
    if i < |dirs| - 1 {
      assert dirs[..|dirs| - 1][..i] == dirs[..i];
      EachFits(root, dirs[..|dirs| - 1], i);
    }
  }

  /** Admits the agents' state directories in order, or stops at the first that does not fit with those before. */
  method AdmitStateDirs(root: Path, dirs: seq<StateDir>) returns (r: Result<set<Path>, StateRefusal>)
    ensures r.Ok? <==> AllFit(root, dirs)
    ensures r.Ok? ==> r.value == StateMounts(root, dirs)
  {
    var volumeOwner: map<string, string>, mountOwner: map<Path, string> := map[], map[];
    for n := 0 to |dirs|
      invariant Owners(dirs[..n], volumeOwner) && mountOwner.Keys == StateMounts(root, dirs[..n])
      invariant AllFit(root, dirs[..n])
    {
      var d := dirs[n];
      assert dirs[..n + 1] == dirs[..n] + [d] && dirs[..n + 1][..n] == dirs[..n];
      var refusal := StateRefused(root, d, volumeOwner, mountOwner.Keys);
      StateRefusedIff(root, d, dirs[..n], volumeOwner);
      if refusal.Some? {
        if AllFit(root, dirs) { EachFits(root, dirs, n); }
        return Err(refusal.value);
      }
      OwnersGrow(root, dirs[..n], volumeOwner, d);
      volumeOwner, mountOwner := volumeOwner[d.volume := d.agent], mountOwner[MountOf(root, d) := d.agent];
    }
    assert dirs[..|dirs|] == dirs;
    return Ok(mountOwner.Keys);
  }

  /** Admitted state directories are all below the root and pairwise apart. */
  lemma StateMountsAreApart(root: Path, dirs: seq<StateDir>, i: nat, j: nat)
    requires AllFit(root, dirs) && i < j < |dirs|
    ensures Apart(MountOf(root, dirs[i]), MountOf(root, dirs[j])) && Below(MountOf(root, dirs[i]), root)
  {
    EachFits(root, dirs, j);
    EachFits(root, dirs, i);
    assert dirs[..j][i] == dirs[i];
  }

  /** End to end: whenever state directories and volumes are both accepted, every plugin volume lies strictly
      below the root and is apart from every compose mount, state mount and other plugin volume. */
  lemma AcceptedVolumesAreApart(dirs: seq<StateDir>, vs: seq<Volume>, rules: Rules, i: nat)
    requires rules.root == VOLUME_ROOT && rules.mounts == STATIC_MOUNTS + StateMounts(VOLUME_ROOT, dirs)
    requires rules.names == STATIC_VOLUMES + (set k | 0 <= k < |dirs| :: dirs[k].volume)
    requires FirstRefusal(vs, rules).None? && i < |vs|
    ensures vs[i].name !in rules.names && Below(vs[i].path, VOLUME_ROOT)
    ensures forall m :: m in rules.mounts ==> Apart(vs[i].path, m)
    ensures forall j :: 0 <= j < |vs| && j != i ==> Apart(vs[i].path, vs[j].path) && vs[i].name != vs[j].name
  {
    AStaticMountIsBelowTheRoot();
    AdmittedIsWellPlaced(vs, rules, AGENT_KEYS);
  }
}
