/**
 The denylist file and the DenyList instances that share it: the daemon's and any number of command-line
 ones, each with its own cache, editing under one file lock (src/egress_denylist.py).

 A replacement of the file is one step and makes a new version; its modification time tells versions apart.
 A reload is two steps, a stat and a read, so the file can be replaced between them.
 */
module DenyFile {
  import opened Wrappers
  import opened DenyZones

  // ------------------------------------------------------------------ one entry as JSON

  datatype Json = Text(s: string) | Other

  function ToDict(e: Entry): map<string, Json> {
    var base := map["zone" := Text(e.zone), "scope" := Text(e.scope), "created_at" := Text(e.createdAt),
        "by" := Text(e.addedBy)];
    if e.reason.Some? then base["reason" := Text(e.reason.value)] else base
  }

  function TextAt(raw: map<string, Json>, key: string): Option<string> {
    if key in raw && raw[key].Text? then Some(raw[key].s) else None
  }

  /** _parse_entry: None unless zone and scope are non-empty text; the rest has defaults. */
  function ParseEntry(raw: map<string, Json>, now: string): Option<Entry> {
    var zone, scope := TextAt(raw, "zone"), TextAt(raw, "scope");
    if zone.None? || zone.value == "" || scope.None? || scope.value == "" then None
    else
      var createdAt := TextAt(raw, "created_at");
      var addedBy := TextAt(raw, "by");
      Some(Entry(zone.value, scope.value,
                 if createdAt.Some? then createdAt.value else now,
                 if addedBy.Some? && addedBy.value != "" then addedBy.value else "operator",
                 TextAt(raw, "reason")))
  }

  predicate WellFormed(e: Entry) {
    e.zone != "" && e.scope != "" && e.addedBy != ""
  }

  /** Writing an entry and reading it back gives the same entry exactly when its zone, scope and author are not
      empty. */
  lemma EntryRoundTrip(e: Entry, now: string)
    ensures ParseEntry(ToDict(e), now) == Some(e) <==> WellFormed(e)
  {
    var d := ToDict(e);
    assert TextAt(d, "zone") == Some(e.zone) && TextAt(d, "scope") == Some(e.scope);
    assert TextAt(d, "created_at") == Some(e.createdAt) && TextAt(d, "by") == Some(e.addedBy);
    assert TextAt(d, "reason") == e.reason;
  }

  /** The entries a reader keeps. */
  function ParseAll(raws: seq<map<string, Json>>, now: string): seq<Entry> {
    if raws == [] then []
    else
      var init, last := ParseAll(raws[..|raws| - 1], now), ParseEntry(raws[|raws| - 1], now);
      if last.Some? then init + [last.value] else init
  }

  function ToDicts(entries: seq<Entry>): seq<map<string, Json>> {
    seq(|entries|, i requires 0 <= i < |entries| => ToDict(entries[i]))
  }

  ghost predicate AllWellFormed(entries: seq<Entry>) {
    forall e :: e in entries ==> WellFormed(e)
  }

  lemma {:induction false} NoMoreThanWritten(raws: seq<map<string, Json>>, now: string)
    ensures |ParseAll(raws, now)| <= |raws|
  {
    if raws != [] {
      NoMoreThanWritten(raws[..|raws| - 1], now);
    }
  }

  lemma OneMoreWellFormed(init: seq<Entry>, last: Entry)
    ensures AllWellFormed(init + [last]) <==> AllWellFormed(init) && WellFormed(last)
  {
    if AllWellFormed(init + [last]) {
      forall e | e in init ensures WellFormed(e) { assert e in init + [last]; }
      assert last in init + [last];
    }
  }

  lemma OneMoreReadsBack(read: seq<Entry>, init: seq<Entry>, e: Option<Entry>, last: Entry)
    requires |read| <= |init|
    ensures (read + if e.Some? then [e.value] else []) == init + [last] <==> read == init && e == Some(last)
  {
    var all := read + if e.Some? then [e.value] else [];
    if all == init + [last] {
      assert |all| == |init| + 1;
      assert all[..|init|] == read && (init + [last])[..|init|] == init;
      assert all[|init|] == last;
    }
  }

  /** A list survives writing and reading exactly when all its entries are well formed. */
  lemma {:induction false} ListRoundTrip(entries: seq<Entry>, now: string)
    ensures ParseAll(ToDicts(entries), now) == entries <==> AllWellFormed(entries)
  {
    if entries != [] {
      var init, last := entries[..|entries| - 1], entries[|entries| - 1];
      assert ToDicts(entries)[..|entries| - 1] == ToDicts(init);
      ListRoundTrip(init, now);
      EntryRoundTrip(last, now);
      NoMoreThanWritten(ToDicts(init), now);
      assert entries == init + [last];
      OneMoreReadsBack(ParseAll(ToDicts(init), now), init, ParseEntry(ToDict(last), now), last);
      OneMoreWellFormed(init, last);
    }
  }

  lemma {:induction false} ParsedIsWellFormed(raws: seq<map<string, Json>>, now: string)
    ensures AllWellFormed(ParseAll(raws, now))
  {
    if raws != [] {
      ParsedIsWellFormed(raws[..|raws| - 1], now);
    }
  }

  // ------------------------------------------------------------------ the shared file

  /** What is on the disk: objects with any fields, or nothing a reader understands. */
  datatype Raw = NoFile | Garbage | Objects(raws: seq<map<string, Json>>)

  /** What a read of the file gives. */
  datatype Content = Missing | Unreadable | Listed(entries: seq<Entry>)

  function EntriesOf(c: Content): seq<Entry> {
    if c.Listed? then c.entries else []
  }

  /** Whatever the file holds, what a reader keeps of it is well formed. */
  function Read(raw: Raw, now: string): (c: Content)
    ensures AllWellFormed(EntriesOf(c))
  {
    match raw
    case NoFile => Missing
    case Garbage => Unreadable
    case Objects(raws) => ParsedIsWellFormed(raws, now); Listed(ParseAll(raws, now))
  }

  datatype Edit = Add(entry: Entry) | Remove(zone: string, scope: string)

  function Edited(entries: seq<Entry>, edit: Edit): seq<Entry> {
    match edit
    case Add(e) => With(entries, e)
    case Remove(zone, scope) => Without(entries, zone, scope)
  }

  /** An instance's copy of the file and the modification time it last saw. */
  datatype Cache = Cache(entries: seq<Entry>, stamp: Option<nat>, loaded: bool, corrupt: bool)

  const EMPTY_CACHE := Cache([], None, false, false)

  datatype Where =
    | Idle
    | MatchStat(container: string, host: string, since: nat)
    | MatchRead(container: string, host: string, since: nat)
    | Answered(container: string, host: string, since: nat, result: Option<Entry>)
    | EditWait(edit: Edit)
    | EditStat(edit: Edit)                      // holds the file lock
    | EditRead(edit: Edit)                      // holds the file lock
    | EditWrite(edit: Edit, next: seq<Entry>)   // holds the file lock
    | EditStamp(edit: Edit)                     // holds the file lock
    | EditDone(edit: Edit, done: bool)
    | EditRefused(edit: Edit)

  datatype Instance = Instance(cache: Cache, at: Where)

  type Pid = nat

  /** `edits` is the history of the replacements, one for each version after the first. */
  datatype World = World(file: seq<Content>, edits: seq<Edit>, flock: Option<Pid>, procs: map<Pid, Instance>)

  datatype Deed =
    | Open(pid: Pid)
    | AskMatch(pid: Pid, container: string, host: string)
    | AskEdit(pid: Pid, edit: Edit)
    | Go(pid: Pid, diskOk: bool)

  /** The modification time a stat sees; None for a missing file. */
  function Stamp(file: seq<Content>, v: nat): Option<nat>
    requires v < |file|
  {
    if file[v] == Missing then None else Some(v)
  }

  function Load(cache: Cache, c: Content): Cache {
    cache.(entries := EntriesOf(c), corrupt := !c.Listed?, loaded := true)
  }

  function CacheMatch(cache: Cache, container: string, host: string): Option<Entry> {
    if cache.corrupt then None else BestMatch(cache.entries, container, host)
  }

  datatype LockTurn = Keep | Take | Drop

  /** One step of an instance: its new cache and place, and what it does to the file lock and the file. */
  datatype Turn = Turn(cache: Cache, at: Where, lock: LockTurn := Keep, written: Option<seq<Entry>> := None)

  /** What an edit does once the file has been reloaded under the lock. */
  function AfterReload(cache: Cache, edit: Edit): Turn {
    if cache.corrupt then Turn(cache, EditRefused(edit), Drop)
    else
      var next := Edited(cache.entries, edit);
      if edit.Remove? && |next| == |cache.entries| then Turn(cache, EditDone(edit, false), Drop)
      else Turn(cache, EditWrite(edit, next))
  }

  const NO_FILE_CACHE := Cache([], None, true, false)

  function TurnOf(file: seq<Content>, flock: Option<Pid>, p: Instance, diskOk: bool): Option<Turn>
    requires |file| > 0
  {
    var now := |file| - 1;
    var stamp := Stamp(file, now);
    match p.at
    case MatchStat(c, h, since) =>
      if p.cache.loaded && stamp == p.cache.stamp
          then Some(Turn(p.cache, Answered(c, h, since, CacheMatch(p.cache, c, h))))
      else if stamp.None? then Some(Turn(NO_FILE_CACHE, Answered(c, h, since, None)))
      else Some(Turn(p.cache.(stamp := stamp, loaded := true), MatchRead(c, h, since)))
    case MatchRead(c, h, since) =>
      var cache := Load(p.cache, file[now]);
      Some(Turn(cache, Answered(c, h, since, CacheMatch(cache, c, h))))
    case EditWait(edit) => if flock.Some? then None else Some(Turn(p.cache, EditStat(edit), Take))
    case EditStat(edit) =>
      if stamp.None? then Some(AfterReload(NO_FILE_CACHE, edit))
      else Some(Turn(p.cache.(stamp := stamp, loaded := true), EditRead(edit)))
    case EditRead(edit) => Some(AfterReload(Load(p.cache, file[now]), edit))
    case EditWrite(edit, next) =>
      if diskOk then Some(Turn(p.cache.(entries := next), EditStamp(edit), Keep, Some(next)))
      else Some(Turn(p.cache, EditRefused(edit), Drop))
    case EditStamp(edit) => Some(Turn(Cache(p.cache.entries, stamp, true, false), EditDone(edit, true), Drop))
    case _ => None
  }

  function Install(w: World, pid: Pid, t: Turn, edit: Option<Edit>): World {
    World(
      if t.written.Some? then w.file + [Read(Objects(ToDicts(t.written.value)), "")] else w.file,
      if t.written.Some? && edit.Some? then w.edits + [edit.value] else w.edits,
      match t.lock case Keep => w.flock case Take => Some(pid) case Drop => None,
      w.procs[pid := Instance(t.cache, t.at)])
  }

  function EditAt(at: Where): Option<Edit> {
    if at.EditWrite? then Some(at.edit) else None
  }

  function StepOf(w: World, pid: Pid, diskOk: bool): World
    requires |w.file| > 0 && pid in w.procs
  {
    match TurnOf(w.file, w.flock, w.procs[pid], diskOk)
    case None => w
    case Some(t) => Install(w, pid, t, EditAt(w.procs[pid].at))
  }

  predicate AtRest(at: Where) {
    at.Idle? || at.Answered? || at.EditDone? || at.EditRefused?
  }

  function Put(w: World, pid: Pid, at: Where): World
    requires pid in w.procs
  {
    w.(procs := w.procs[pid := w.procs[pid].(at := at)])
  }

  function Do(w: World, d: Deed): World
    requires |w.file| > 0
  {
    match d
    case Open(pid) => if pid in w.procs then w else w.(procs := w.procs[pid := Instance(EMPTY_CACHE, Idle)])
    case AskMatch(pid, c, h) =>
      if pid in w.procs && AtRest(w.procs[pid].at) then Put(w, pid, MatchStat(c, h, |w.file| - 1)) else w
    case AskEdit(pid, edit) =>
      if pid in w.procs && AtRest(w.procs[pid].at) && (edit.Add? ==> WellFormed(edit.entry))
      then Put(w, pid, EditWait(edit)) else w
    case Go(pid, diskOk) => if pid in w.procs then StepOf(w, pid, diskOk) else w
  }

  // ------------------------------------------------------------------ what is kept

  predicate HoldsFileLock(at: Where) {
    at.EditStat? || at.EditRead? || at.EditWrite? || at.EditStamp?
  }

  predicate Holds(cache: Cache, c: Content) {
    cache.entries == EntriesOf(c) && cache.corrupt == !c.Listed?
  }

  /** A cache holds some version no older than the one whose modification time it carries. */
  ghost predicate CacheOk(file: seq<Content>, cache: Cache) {
    cache.loaded ==>
      match cache.stamp
      case None => cache.entries == [] && !cache.corrupt
      case Some(v) => exists k :: v <= k < |file| && Holds(cache, file[k])
  }

  /** What a reader of this content answers. */
  function Reading(c: Content, container: string, host: string): Option<Entry> {
    if c.Listed? then BestMatch(c.entries, container, host) else None
  }

  ghost predicate AnswersFrom(file: seq<Content>, since: nat, container: string, host: string, r: Option<Entry>) {
    exists k :: since <= k < |file| && r == Reading(file[k], container, host)
  }

  predicate EditOk(edit: Edit) {
    edit.Add? ==> WellFormed(edit.entry)
  }

  ghost predicate ProcOk(file: seq<Content>, edits: seq<Edit>, p: Instance)
    requires |file| > 0
  {
    var last := file[|file| - 1];
    match p.at
    case Idle => CacheOk(file, p.cache)
    case MatchStat(c, h, since) => since < |file| && CacheOk(file, p.cache)
    case MatchRead(c, h, since) => p.cache.stamp.Some? && since <= p.cache.stamp.value < |file|
    case Answered(c, h, since, r) => CacheOk(file, p.cache) && AnswersFrom(file, since, c, h, r)
    case EditWait(edit) => EditOk(edit) && CacheOk(file, p.cache)
    case EditStat(edit) => EditOk(edit) && CacheOk(file, p.cache)
    case EditRead(edit) => EditOk(edit) && p.cache.stamp == Some(|file| - 1)
    case EditWrite(edit, next) =>
      && EditOk(edit) && CacheOk(file, p.cache)
      && p.cache.entries == EntriesOf(last) && last != Unreadable && next == Edited(p.cache.entries, edit)
    case EditStamp(edit) => last == Listed(p.cache.entries) && edit in edits
    case EditDone(edit, done) => CacheOk(file, p.cache) && (done ==> edit in edits)
    case EditRefused(edit) => CacheOk(file, p.cache)
  }

  ghost predicate FileOk(file: seq<Content>, edits: seq<Edit>) {
    && |edits| + 1 == |file|
    && (forall v :: 0 <= v < |file| ==> AllWellFormed(EntriesOf(file[v])))
    && (forall i :: 0 <= i < |edits| ==> Follows(file[i], file[i + 1], edits[i]))
  }

  /** The later version is the edit of the earlier one. */
  predicate Follows(a: Content, b: Content, edit: Edit) {
    a != Unreadable && b == Listed(Edited(EntriesOf(a), edit))
  }

  ghost predicate FileLockOk(w: World) {
    && (w.flock.Some? ==> w.flock.value in w.procs)
    && forall pid :: pid in w.procs ==> (HoldsFileLock(w.procs[pid].at) <==> w.flock == Some(pid))
  }

  ghost predicate WorldOk(w: World) {
    FileOk(w.file, w.edits) && FileLockOk(w) && forall pid :: pid in w.procs ==> ProcOk(w.file, w.edits, w.procs[pid])
  }

  lemma EditedIsWellFormed(entries: seq<Entry>, edit: Edit)
    requires AllWellFormed(entries) && EditOk(edit)
    ensures AllWellFormed(Edited(entries, edit))
  {
    match edit
    case Add(e) => WithoutMembers(entries, e.zone, e.scope);
    case Remove(zone, scope) => WithoutMembers(entries, zone, scope);
  }

  /** The lock discipline of a turn: only its holder writes, and what it writes is what it computed. */
  lemma TurnShape(file: seq<Content>, flock: Option<Pid>, p: Instance, diskOk: bool)
    requires |file| > 0 && TurnOf(file, flock, p, diskOk).Some?
    ensures var t := TurnOf(file, flock, p, diskOk).value;
      && (t.lock == Take ==> flock.None?)
      && (t.lock == Drop ==> HoldsFileLock(p.at))
      && (HoldsFileLock(t.at) <==> t.lock == Take || (t.lock == Keep && HoldsFileLock(p.at)))
      && (t.written.Some? <==> p.at.EditWrite? && diskOk)
      && (t.written.Some? ==>
            t.written.value == p.at.next && t.cache.entries == p.at.next && t.at == EditStamp(p.at.edit)
            && t.lock == Keep)
  {
  }

  lemma TurnKeepsFileLockOk(w: World, pid: Pid, t: Turn, edit: Option<Edit>)
    requires FileLockOk(w) && pid in w.procs
    requires (t.lock == Take ==> w.flock.None?) && (t.lock == Drop ==> HoldsFileLock(w.procs[pid].at))
    requires HoldsFileLock(t.at) <==> t.lock == Take || (t.lock == Keep && HoldsFileLock(w.procs[pid].at))
    ensures FileLockOk(Install(w, pid, t, edit))
  {
  }

  lemma AppendKeepsFileOk(file: seq<Content>, edits: seq<Edit>, c: Content, edit: Edit)
    requires FileOk(file, edits) && AllWellFormed(EntriesOf(c)) && Follows(file[|file| - 1], c, edit)
    ensures FileOk(file + [c], edits + [edit])
  {
  }

  /** A replacement appends exactly the edit of the version before it. */
  lemma WriteKeepsFileOk(file: seq<Content>, edits: seq<Edit>, next: seq<Entry>, edit: Edit)
    requires FileOk(file, edits) && EditOk(edit) && file[|file| - 1] != Unreadable
    requires next == Edited(EntriesOf(file[|file| - 1]), edit)
    ensures FileOk(file + [Read(Objects(ToDicts(next)), "")], edits + [edit])
    ensures Read(Objects(ToDicts(next)), "") == Listed(next)
  {
    EditedIsWellFormed(EntriesOf(file[|file| - 1]), edit);
    ListRoundTrip(next, "");
    AppendKeepsFileOk(file, edits, Listed(next), edit);
  }

  lemma CacheOkLater(file: seq<Content>, later: seq<Content>, cache: Cache)
    requires CacheOk(file, cache) && file <= later
    ensures CacheOk(later, cache)
  {
    if cache.loaded && cache.stamp.Some? {
      var k :| cache.stamp.value <= k < |file| && Holds(cache, file[k]);
      assert later[k] == file[k];
    }
  }

  /** An instance keeps what it knows while the file only grows, and stays as it is if it holds the lock. */
  lemma ProcOkLater(file: seq<Content>, edits: seq<Edit>, later: seq<Content>, more: seq<Edit>, p: Instance)
    requires 0 < |file| && file <= later && edits <= more && ProcOk(file, edits, p)
    requires HoldsFileLock(p.at) ==> later == file
    ensures ProcOk(later, more, p)
  {
    if p.at.Answered? {
      var k :| p.at.since <= k < |file| && p.at.result == Reading(file[k], p.at.container, p.at.host);
      assert later[k] == file[k];
    }
    if !p.at.MatchRead? && !p.at.EditRead? && !p.at.EditStamp? { CacheOkLater(file, later, p.cache); }
  }

  /** The moving instance: a match answers from what its stat or its read saw, an edit from what it reloaded. */
  lemma TurnNextOk(file: seq<Content>, edits: seq<Edit>, flock: Option<Pid>, p: Instance, diskOk: bool)
    requires 0 < |file| && ProcOk(file, edits, p) && TurnOf(file, flock, p, diskOk).Some?
    requires !(p.at.EditWrite? && diskOk)
    ensures var t := TurnOf(file, flock, p, diskOk).value; ProcOk(file, edits, Instance(t.cache, t.at))
  {
    var now := |file| - 1;
    if p.at.MatchStat? && p.cache.loaded && p.cache.stamp.Some? && Stamp(file, now) == p.cache.stamp {
      var k :| p.cache.stamp.value <= k < |file| && Holds(p.cache, file[k]);
      assert k == now;
    }
    if p.at.MatchStat? && Stamp(file, now).None? {
      assert Reading(file[now], p.at.container, p.at.host) == None == BestMatch([], p.at.container, p.at.host);
    }
    if p.at.MatchRead? || p.at.EditRead? {
      assert Holds(Load(p.cache, file[now]), file[now]);
    }
    if p.at.EditStamp? {
      assert Holds(Cache(p.cache.entries, Some(now), true, false), file[now]);
    }
  }

  lemma StepKeepsWorldOk(w: World, pid: Pid, diskOk: bool)
    requires WorldOk(w) && pid in w.procs && TurnOf(w.file, w.flock, w.procs[pid], diskOk).Some?
    ensures WorldOk(StepOf(w, pid, diskOk)) && w.file <= StepOf(w, pid, diskOk).file
    ensures w.edits <= StepOf(w, pid, diskOk).edits
  {
    var p := w.procs[pid];
    var t := TurnOf(w.file, w.flock, p, diskOk).value;
    var u := StepOf(w, pid, diskOk);
    TurnShape(w.file, w.flock, p, diskOk);
    TurnKeepsFileLockOk(w, pid, t, EditAt(p.at));
    if t.written.Some? {
      WriteKeepsFileOk(w.file, w.edits, p.at.next, p.at.edit);
    } else {
      TurnNextOk(w.file, w.edits, w.flock, p, diskOk);
    }
    forall q | q in u.procs ensures ProcOk(u.file, u.edits, u.procs[q]) {
      if q != pid { ProcOkLater(w.file, w.edits, u.file, u.edits, w.procs[q]); }
    }
  }

  lemma DoKeepsWorldOk(w: World, d: Deed)
    requires WorldOk(w)
    ensures WorldOk(Do(w, d)) && w.file <= Do(w, d).file && w.edits <= Do(w, d).edits
  {
    if d.Go? && d.pid in w.procs && TurnOf(w.file, w.flock, w.procs[d.pid], d.diskOk).Some? {
      StepKeepsWorldOk(w, d.pid, d.diskOk);
    }
  }

  ghost function Exec(w: World, deeds: seq<Deed>): (u: World)
    requires WorldOk(w)
    ensures WorldOk(u)
  {
    if deeds == [] then w
    else
      var before := Exec(w, deeds[..|deeds| - 1]);
      DoKeepsWorldOk(before, deeds[|deeds| - 1]);
      Do(before, deeds[|deeds| - 1])
  }

  /** A file as it is found, which nobody has opened yet. */
  ghost function Found(raw: Raw, now: string): (w: World)
    ensures WorldOk(w)
  {
    World([Read(raw, now)], [], None, map[])
  }

  // ------------------------------------------------------------------ what follows

  function EditAll(entries: seq<Entry>, edits: seq<Edit>): seq<Entry> {
    if edits == [] then entries else Edited(EditAll(entries, edits[..|edits| - 1]), edits[|edits| - 1])
  }

  lemma {:induction false} FileIsItsEdits(file: seq<Content>, edits: seq<Edit>)
    requires FileOk(file, edits)
    ensures EntriesOf(file[|file| - 1]) == EditAll(EntriesOf(file[0]), edits)
  {
    if edits != [] {
      var n := |edits| - 1;
      FileIsItsEdits(file[..n + 1], edits[..n]);
      assert Follows(file[n], file[n + 1], edits[n]);
    }
  }

  /** However the daemon and the command line interleave, the file is the sequential application of the
      edits that took the lock, in lock order, and every edit reported done is one of them. */
  lemma EditsAreSequential(raw: Raw, now: string, deeds: seq<Deed>, pid: Pid)
    ensures var w := Exec(Found(raw, now), deeds);
      && w.file[0] == Read(raw, now)
      && EntriesOf(w.file[|w.file| - 1]) == EditAll(EntriesOf(Read(raw, now)), w.edits)
      && (pid in w.procs && w.procs[pid].at.EditDone? && w.procs[pid].at.done ==> w.procs[pid].at.edit in w.edits)
  {
    var w := Exec(Found(raw, now), deeds);
    FirstVersionStays(Found(raw, now), deeds);
    FileIsItsEdits(w.file, w.edits);
    if pid in w.procs { assert ProcOk(w.file, w.edits, w.procs[pid]); }
  }

  lemma {:induction false} FirstVersionStays(w: World, deeds: seq<Deed>)
    requires WorldOk(w)
    ensures w.file <= Exec(w, deeds).file
  {
    if deeds != [] {
      FirstVersionStays(w, deeds[..|deeds| - 1]);
      DoKeepsWorldOk(Exec(w, deeds[..|deeds| - 1]), deeds[|deeds| - 1]);
    }
  }

  predicate EditNames(edit: Edit, zone: string, scope: string) {
    match edit case Add(e) => Names(e, zone, scope) case Remove(z, s) => z == zone && s == scope
  }

  /** An added entry is in the file until a later edit names its zone and scope. */
  lemma {:induction false} NoEntryIsLost(entries: seq<Entry>, edits: seq<Edit>, i: nat)
    requires i < |edits| && edits[i].Add?
    requires forall j :: i < j < |edits| ==> !EditNames(edits[j], edits[i].entry.zone, edits[i].entry.scope)
    ensures edits[i].entry in EditAll(entries, edits)
  {
    var n := |edits| - 1;
    var before, last := EditAll(entries, edits[..n]), edits[n];
    if i < n {
      NoEntryIsLost(entries, edits[..n], i);
      match last
      case Add(e) => AddKeepsTheRest(before, e);
      case Remove(zone, scope) => WithoutMembers(before, zone, scope);
    }
  }

  /** Every answer comes from a version of the file no older than the one current when the match began. */
  lemma AnswersAreFresh(raw: Raw, now: string, deeds: seq<Deed>, pid: Pid)
    requires var w := Exec(Found(raw, now), deeds); pid in w.procs && w.procs[pid].at.Answered?
    ensures var w := Exec(Found(raw, now), deeds); var at := w.procs[pid].at;
      AnswersFrom(w.file, at.since, at.container, at.host, at.result)
  {
    var w := Exec(Found(raw, now), deeds);
    assert ProcOk(w.file, w.edits, w.procs[pid]);
  }
}
