/**
 One call at a time: what a filing or a decision does when nothing interrupts it, as a function of the state it
 finds, and the proof that this is what the protocol's machine does when one thread runs alone.
 */
module LoneThread {
  import opened Wrappers
  import opened RequestStore
  import opened DenyZones
  import opened HitWindow
  import P = Protocol

  // ------------------------------------------------------------------ what a filing does

  /** What a call answers after its last transaction: its answer, or the store's error. */
  function Outcome(store: Store, op: Op, answer: P.Answer): P.Answer {
    match ErrorOf(store, op) case None => answer case Some(e) => P.StoreRaised(e)
  }

  /** What a filing leaves: the store, the coalesce window and the answer. */
  datatype Effect = Effect(store: Store, hits: Window, answer: P.Answer)

  /** On a row: a hit while it is open, its decision once it is not. */
  function OnRow(store: Store, hits: Window, f: Filing, id: Id, now: Time): Effect
    requires UniqueOpen(store) && id in store.rows
  {
    var row := store.rows[id];
    var op := DoOpenOrHit(id, f, now);
    if row.status == Status.Open then Effect(Perform(store, op), hits, Outcome(store, op, P.RowAnswer(id, row)))
    else Effect(store, hits,
        P.Decided(if row.decisionBody.Some? then row.decisionBody.value else DenyBody(None, None, None), id))
  }

  ghost predicate NewAsk(store: Store, f: Filing, id: Id) {
    UniqueOpen(store) && id !in store.rows && FindOpen(store, KeyOf(f)).None?
  }

  function WithRow(store: Store, f: Filing, id: Id, now: Time): (t: Store)
    requires NewAsk(store, f, id)
    ensures UniqueOpen(t)
  {
    PerformKeeps(store, DoOpenOrHit(id, f, now));
    InsertOpen(store, id, f, now)
  }

  /** A new open row, then its `notified` event. */
  function OpenedAnew(store: Store, hits: Window, f: Filing, id: Id, now: Time): Effect
    requires NewAsk(store, f, id)
  {
    Effect(Perform(WithRow(store, f, id, now), DoNotified(id, now)), hits, P.Pending(id, 0, None))
  }

  /** A covered filing: a new denied row, or within a window a hit suppressed onto the last one. */
  function ShortCircuited(store: Store, hits: Window, f: Filing, id: Id, e: Entry, now: Time, later: Time): Effect
    requires NewAsk(store, f, id)
  {
    var key := HitKey(f.container, e.zone);
    if ShouldLog(hits, key, now) then
      Effect(Perform(WithRow(store, f, id, now), DoClose(id, P.DenylistVerdict(e), later)), LogHit(hits, key, now, id),
             P.Decided(P.DenylistBody(e), id))
    else
      var onto := hits[key].request;
      var op := DoSuppressedHit(onto, now);
      Effect(Perform(store, op), SuppressHit(hits, key), Outcome(store, op, P.Decided(P.DenylistBody(e), onto)))
  }

  function FiledAnew(store: Store, entries: seq<Entry>, hits: Window, f: Filing, id: Id, now: Time, later: Time): Effect
    requires NewAsk(store, f, id)
  {
    match BestMatch(entries, f.container, f.host)
    case None => OpenedAnew(store, hits, f, id, now)
    case Some(e) => ShortCircuited(store, hits, f, id, e, now, later)
  }

  /** A whole filing, uninterrupted. */
  function AfterFiling(store: Store, entries: seq<Entry>, hits: Window, f: Filing, requestId: Option<Id>, minted: Id,
                       now: Time, later: Time): Effect
    requires UniqueOpen(store) && minted !in store.rows
  {
    if requestId.Some? && !P.ValidRequestId(requestId.value) then Effect(store, hits, P.Refused)
    else if requestId.Some? && requestId.value in store.rows then
      if KeyOf(store.rows[requestId.value].filing) != KeyOf(f) then Effect(store, hits, P.Refused)
      else OnRow(store, hits, f, requestId.value, now)
    else
      match FindOpen(store, KeyOf(f))
      case Some(id) => OnRow(store, hits, f, id, now)
      case None => FiledAnew(store, entries, hits, f, if requestId.Some? then requestId.value else minted, now, later)
  }

  /** Where a decision leaves the store, the running applies and its thread. */
  datatype Ruling = Ruling(store: Store, applying: set<Id>, thread: P.Thread)

  /** The first half of an allow: it ends refused, or waiting for the subprocess with the lock dropped. */
  function AllowBegun(store: Store, applying: set<Id>, id: Id, asked: Option<string>, decider: string, literal: bool,
                      now: Time): Ruling
    requires UniqueOpen(store)
  {
    var scope := P.Default(asked, "live");
    if !IsOpen(store, id) then Ruling(store, applying, P.Done(P.Refused))
    else if id in applying then Ruling(store, applying, P.Done(P.ApplyInProgress))
    else if scope !in {"live", "manifest"} then Ruling(store, applying, P.Done(P.Refused))
    else if store.rows[id].filing.hostIsIp || literal then
      Ruling(Perform(store, DoApply(id, IpRequiresCidr, now)), applying, P.Done(P.ApplyProblem(IpRequiresCidr)))
    else Ruling(store, applying + {id}, P.Applying(id, scope, decider))
  }

  function AppliedStore(store: Store, id: Id, now: Time): (t: Store)
    requires UniqueOpen(store)
    ensures UniqueOpen(t)
  {
    PerformKeeps(store, DoApply(id, Applied, now));
    Perform(store, DoApply(id, Applied, now))
  }

  /** The second half: a row closed meanwhile keeps its decision. */
  function AllowFinished(store: Store, applying: set<Id>, id: Id, scope: string, decider: string, ok: bool,
                         now: Time, later: Time): Ruling
    requires UniqueOpen(store)
  {
    var done := applying - {id};
    if !IsOpen(store, id) then Ruling(store, done, P.Done(P.Final))
    else if ok then
      Ruling(Perform(AppliedStore(store, id, now), DoClose(id, P.AllowVerdict(scope, decider), later)), done,
          P.Done(P.Final))
    else Ruling(Perform(store, DoApply(id, ApplyFailed, now)), done, P.Done(P.ApplyProblem(ApplyFailed)))
  }

  function DenyDecided(store: Store, applying: set<Id>, id: Id, asked: Option<string>, reason: Option<string>,
                       decider: string, now: Time): Ruling
    requires UniqueOpen(store)
  {
    var scope := P.Default(asked, "once");
    if !IsOpen(store, id) then Ruling(store, applying, P.Done(P.Refused))
    else if id in applying then Ruling(store, applying, P.Done(P.ApplyInProgress))
    else if scope !in P.DECIDE_SCOPES then Ruling(store, applying, P.Done(P.Refused))
    else Ruling(Perform(store, DoClose(id, P.OnceVerdict(scope, reason, decider), now)), applying, P.Done(P.Final))
  }

  // ------------------------------------------------------------------ one thread alone

  /** What a lone thread can change. */
  datatype Lone = Lone(store: Store, hits: Window, applying: set<Id>, locked: bool, thread: P.Thread)

  /** Thread 0 alone, with this one version of the denylist file. */
  function Alone(l: Lone, entries: seq<Entry>): P.State {
    P.State(l.store, [entries], l.hits, l.applying, if l.locked then Some(0) else None, map[0 := l.thread])
  }

  function MovedTo(l: Lone, m: P.Move, store: Store): Lone {
    Lone(store, if m.window.Some? then m.window.value else l.hits,
         match m.apply
           case Unmoved => l.applying
           case Mark(id) => l.applying + {id}
           case Unmark(id) => l.applying - {id},
         match m.lock case Keep => l.locked case Take => true case Drop => false,
         m.next)
  }

  ghost function Moved(l: Lone, m: P.Move): (t: Lone)
    requires UniqueOpen(l.store)
    ensures UniqueOpen(t.store)
  {
    if m.op.Some? then
      PerformKeeps(l.store, m.op.value);
      MovedTo(l, m, Perform(l.store, m.op.value))
    else
      MovedTo(l, m, l.store)
  }

  /** A call that files or decides. */
  predicate Simple(t: P.Thread) {
    P.IsFile(t) || P.IsAllow(t) || t.DenyWait? || t.DenyClose? || t.Done?
  }

  function SimpleMove(s: P.State, t: P.Thread, c: P.Choice): Option<P.Move>
    requires UniqueOpen(s.store) && |s.file| > 0
  {
    if P.IsFile(t) then P.MoveFile(s, t, c) else if P.IsAllow(t) then P.MoveAllow(s, t, c) else P.MoveDeny(s, t, c)
  }

  ghost function LoneStep(l: Lone, entries: seq<Entry>, c: P.Choice): (t: Lone)
    requires UniqueOpen(l.store)
    ensures UniqueOpen(t.store)
  {
    match SimpleMove(Alone(l, entries), l.thread, c) case None => l case Some(m) => Moved(l, m)
  }

  /** A lone thread's next steps. */
  ghost function Solo(l: Lone, entries: seq<Entry>, choices: seq<P.Choice>): (t: Lone)
    requires UniqueOpen(l.store)
    ensures UniqueOpen(t.store)
    decreases |choices|
  {
    if choices == [] then l else Solo(LoneStep(l, entries, choices[0]), entries, choices[1..])
  }

  /** A thread that is done takes no more steps. */
  lemma {:induction false} SoloDone(l: Lone, entries: seq<Entry>, choices: seq<P.Choice>)
    requires UniqueOpen(l.store) && l.thread.Done?
    ensures Solo(l, entries, choices) == l
    decreases |choices|
  {
    if choices != [] { SoloDone(l, entries, choices[1..]); }
  }

  // ------------------------------------------------------------------ a filing

  function Ended(l: Lone, e: Effect): Lone {
    Lone(e.store, e.hits, l.applying, false, P.Done(e.answer))
  }

  lemma OnRowSolo(l: Lone, entries: seq<Entry>, cs: seq<P.Choice>, id: Id)
    requires UniqueOpen(l.store) && !l.locked && l.thread.FileWait? && |cs| == 4
    requires var t := l.thread;
      && (t.requestId.Some? ==> P.ValidRequestId(t.requestId.value))
      && id in l.store.rows && KeyOf(l.store.rows[id].filing) == KeyOf(t.filing)
      && (if t.requestId.Some? && t.requestId.value in l.store.rows then id == t.requestId.value
          else FindOpen(l.store, KeyOf(t.filing)) == Some(id))
    ensures Solo(l, entries, cs) == Ended(l, OnRow(l.store, l.hits, l.thread.filing, id, l.thread.now))
  {
    var end := Ended(l, OnRow(l.store, l.hits, l.thread.filing, id, l.thread.now));
    if l.store.rows[id].status == Status.Open {
      var hit := Lone(l.store, l.hits, l.applying, true, P.FileHit(l.thread.filing, l.thread.now, id));
      assert LoneStep(l, entries, cs[0]) == hit;
      assert LoneStep(hit, entries, cs[1..][0]) == end;
      SoloDone(end, entries, cs[1..][1..]);
    } else {
      assert LoneStep(l, entries, cs[0]) == end;
      SoloDone(end, entries, cs[1..]);
    }
  }

  /** A lone thread in the middle of filing a new ask, with the lock. */
  ghost predicate Consulting(l: Lone, c: P.Choice, id: Id) {
    && l.locked && l.thread.FileMatch? && l.thread.since == c.version == 0
    && id == (if l.thread.requestId.Some? then l.thread.requestId.value else c.minted)
    && NewAsk(l.store, l.thread.filing, id)
  }

  lemma OpenedSolo(l: Lone, entries: seq<Entry>, c: P.Choice, d: P.Choice, e: P.Choice, id: Id)
    requires Consulting(l, c, id) && BestMatch(entries, l.thread.filing.container, l.thread.filing.host).None?
    ensures Solo(l, entries, [c, d, e]) == Ended(l, OpenedAnew(l.store, l.hits, l.thread.filing, id, l.thread.now))
  {
    var f, now := l.thread.filing, l.thread.now;
    var filing := Lone(l.store, l.hits, l.applying, true, P.FileInsert(f, now, id));
    var filed := Lone(WithRow(l.store, f, id, now), l.hits, l.applying, true,
        P.FileNotify(id, now, P.Pending(id, 0, None)));
    assert LoneStep(l, entries, c) == filing;
    assert LoneStep(filing, entries, d) == filed;
    assert LoneStep(filed, entries, e) == Ended(l, OpenedAnew(l.store, l.hits, f, id, now));
    SoloThree(l, entries, c, d, e);
  }

  lemma SoloTwo(l: Lone, entries: seq<Entry>, c: P.Choice, d: P.Choice)
    requires UniqueOpen(l.store)
    ensures Solo(l, entries, [c]) == LoneStep(l, entries, c)
    ensures Solo(l, entries, [c, d]) == LoneStep(LoneStep(l, entries, c), entries, d)
  {
    assert [c, d][1..] == [d] && [d][1..] == [] && [c][1..] == [];
    assert Solo(LoneStep(l, entries, c), entries, [d])
        == Solo(LoneStep(LoneStep(l, entries, c), entries, d), entries, []);
  }

  lemma SoloThree(l: Lone, entries: seq<Entry>, c: P.Choice, d: P.Choice, e: P.Choice)
    requires UniqueOpen(l.store)
    ensures Solo(l, entries, [c, d, e]) == LoneStep(LoneStep(LoneStep(l, entries, c), entries, d), entries, e)
  {
    assert [c, d, e][1..] == [d, e] && [d, e][1..] == [e] && [e][1..] == [];
    var two := LoneStep(LoneStep(l, entries, c), entries, d);
    assert Solo(two, entries, [e]) == Solo(LoneStep(two, entries, e), entries, []);
  }

  lemma DenialOpens(l: Lone, entries: seq<Entry>, c: P.Choice, d: P.Choice, id: Id, deny: Entry, hits: Window)
    requires Consulting(l, c, id)
    ensures var f, now := l.thread.filing, l.thread.now;
      LoneStep(Lone(l.store, hits, l.applying, true, P.FileDenyOpen(f, now, id, deny)), entries, d)
        == Lone(WithRow(l.store, f, id, now), hits, l.applying, true, P.FileDenyClose(f, id, deny))
  {
  }

  lemma DenialStarts(l: Lone, entries: seq<Entry>, c: P.Choice, id: Id, deny: Entry)
    requires Consulting(l, c, id) && BestMatch(entries, l.thread.filing.container, l.thread.filing.host) == Some(deny)
    requires ShouldLog(l.hits, HitKey(l.thread.filing.container, deny.zone), l.thread.now)
    ensures var f, now := l.thread.filing, l.thread.now;
      LoneStep(l, entries, c)
        == Lone(l.store, LogHit(l.hits, HitKey(f.container, deny.zone), now, id), l.applying, true,
                P.FileDenyOpen(f, now, id, deny))
  {
  }

  lemma DeniedSolo(l: Lone, entries: seq<Entry>, c: P.Choice, d: P.Choice, e: P.Choice, id: Id, deny: Entry)
    requires Consulting(l, c, id) && BestMatch(entries, l.thread.filing.container, l.thread.filing.host) == Some(deny)
    requires ShouldLog(l.hits, HitKey(l.thread.filing.container, deny.zone), l.thread.now)
    ensures Solo(l, entries, [c, d, e])
      == Ended(l, ShortCircuited(l.store, l.hits, l.thread.filing, id, deny, l.thread.now, e.now))
  {
    var f, now := l.thread.filing, l.thread.now;
    var hits := LogHit(l.hits, HitKey(f.container, deny.zone), now, id);
    var filed := Lone(WithRow(l.store, f, id, now), hits, l.applying, true, P.FileDenyClose(f, id, deny));
    DenialStarts(l, entries, c, id, deny);
    DenialOpens(l, entries, c, d, id, deny, hits);
    assert LoneStep(filed, entries, e) == Ended(l, ShortCircuited(l.store, l.hits, f, id, deny, now, e.now));
    SoloThree(l, entries, c, d, e);
  }

  lemma SuppressedSolo(l: Lone, entries: seq<Entry>, c: P.Choice, d: P.Choice, e: P.Choice, id: Id, deny: Entry)
    requires Consulting(l, c, id) && BestMatch(entries, l.thread.filing.container, l.thread.filing.host) == Some(deny)
    requires !ShouldLog(l.hits, HitKey(l.thread.filing.container, deny.zone), l.thread.now)
    ensures Solo(l, entries, [c, d, e])
      == Ended(l, ShortCircuited(l.store, l.hits, l.thread.filing, id, deny, l.thread.now, e.now))
  {
    var f, now := l.thread.filing, l.thread.now;
    var key := HitKey(f.container, deny.zone);
    var suppressing := Lone(l.store, SuppressHit(l.hits, key), l.applying, true,
        P.FileSuppress(l.hits[key].request, now, deny));
    assert LoneStep(l, entries, c) == suppressing;
    assert LoneStep(suppressing, entries, d) == Ended(l, ShortCircuited(l.store, l.hits, f, id, deny, now, e.now));
    SoloThree(l, entries, c, d, e);
  }

  lemma FiledAnewSolo(l: Lone, entries: seq<Entry>, c: P.Choice, d: P.Choice, e: P.Choice, id: Id)
    requires Consulting(l, c, id)
    ensures Solo(l, entries, [c, d, e])
      == Ended(l, FiledAnew(l.store, entries, l.hits, l.thread.filing, id, l.thread.now, e.now))
  {
    match BestMatch(entries, l.thread.filing.container, l.thread.filing.host)
    case None => OpenedSolo(l, entries, c, d, e, id);
    case Some(deny) =>
      if ShouldLog(l.hits, HitKey(l.thread.filing.container, deny.zone), l.thread.now) {
        DeniedSolo(l, entries, c, d, e, id, deny);
      } else {
        SuppressedSolo(l, entries, c, d, e, id, deny);
      }
  }

  lemma RefusedSolo(l: Lone, entries: seq<Entry>, cs: seq<P.Choice>)
    requires UniqueOpen(l.store) && !l.locked && l.thread.FileWait? && l.thread.requestId.Some? && |cs| == 4
    requires var id := l.thread.requestId.value;
      P.ValidRequestId(id) ==> id in l.store.rows && KeyOf(l.store.rows[id].filing) != KeyOf(l.thread.filing)
    ensures Solo(l, entries, cs) == Ended(l, Effect(l.store, l.hits, P.Refused))
  {
    assert LoneStep(l, entries, cs[0]) == Ended(l, Effect(l.store, l.hits, P.Refused));
    SoloDone(LoneStep(l, entries, cs[0]), entries, cs[1..]);
  }

  /** A filing that runs uninterrupted does what a thread alone does in four steps; the denylist is read
      in the second, and the clock of a denial in the fourth. */
  lemma FilingIsSolo(l: Lone, entries: seq<Entry>, b: P.Choice, c: P.Choice, d: P.Choice, e: P.Choice)
    requires UniqueOpen(l.store) && c.minted !in l.store.rows && c.version == 0 && !l.locked && l.thread.FileWait?
    ensures var t := l.thread;
      Solo(l, entries, [b, c, d, e])
          == Ended(l, AfterFiling(l.store, entries, l.hits, t.filing, t.requestId, c.minted, t.now, e.now))
  {
    var t, rid := l.thread, l.thread.requestId;
    if rid.Some? && (!P.ValidRequestId(rid.value)
        || (rid.value in l.store.rows && KeyOf(l.store.rows[rid.value].filing) != KeyOf(t.filing))) {
      RefusedSolo(l, entries, [b, c, d, e]);
    } else if rid.Some? && rid.value in l.store.rows {
      OnRowSolo(l, entries, [b, c, d, e], rid.value);
    } else {
      match FindOpen(l.store, KeyOf(t.filing))
      case Some(id) => OnRowSolo(l, entries, [b, c, d, e], id);
      case None =>
        var consulting := Lone(l.store, l.hits, l.applying, true, P.FileMatch(t.filing, rid, t.now, 0));
        assert LoneStep(l, entries, b) == consulting;
        FiledAnewSolo(consulting, entries, c, d, e, if rid.Some? then rid.value else c.minted);
        assert [b, c, d, e][1..] == [c, d, e];
    }
  }

  // ------------------------------------------------------------------ a decision

  function Ruled(l: Lone, r: Ruling): Lone {
    Lone(r.store, l.hits, r.applying, false, r.thread)
  }

  /** The first half of an allow: the transaction of an IP literal is a second step. */
  lemma AllowBeginsSolo(l: Lone, entries: seq<Entry>, c: P.Choice, d: P.Choice)
    requires UniqueOpen(l.store) && !l.locked && l.thread.AllowWait?
    ensures var t := l.thread; var r := AllowBegun(l.store, l.applying, t.id, t.asked, t.decider, c.flag, d.now);
      Solo(l, entries, if r.thread.Applying? then [c] else [c, d]) == Ruled(l, r)
  {
    var t := l.thread;
    var r := AllowBegun(l.store, l.applying, t.id, t.asked, t.decider, c.flag, d.now);
    var next := LoneStep(l, entries, c);
    SoloTwo(l, entries, c, d);
    if r.thread.Applying? || next.thread.Done? {
      assert next == Ruled(l, r);
    } else {
      assert next == Lone(l.store, l.hits, l.applying, true, P.AllowMarkIp(t.id));
      assert LoneStep(next, entries, d) == Ruled(l, r);
    }
  }

  lemma AppliedSolo(l: Lone, entries: seq<Entry>, c: P.Choice, d: P.Choice, e: P.Choice)
    requires UniqueOpen(l.store) && !l.locked && l.thread.ApplyReturned? && l.thread.ok && IsOpen(l.store, l.thread.id)
    ensures var t := l.thread;
      Solo(l, entries, [c, d, e])
          == Ruled(l, AllowFinished(l.store, l.applying, t.id, t.scope, t.decider, true, d.now, e.now))
  {
    var t, done := l.thread, l.applying - {l.thread.id};
    var marking := Lone(l.store, l.hits, done, true, P.AllowMark(t.id, t.scope, t.decider));
    var closing := Lone(AppliedStore(l.store, t.id, d.now), l.hits, done, true, P.AllowClose(t.id, t.scope, t.decider));
    assert LoneStep(l, entries, c) == marking;
    assert LoneStep(marking, entries, d) == closing;
    assert LoneStep(closing, entries, e)
        == Ruled(l, AllowFinished(l.store, l.applying, t.id, t.scope, t.decider, true, d.now, e.now));
    SoloThree(l, entries, c, d, e);
  }

  lemma FailedSolo(l: Lone, entries: seq<Entry>, c: P.Choice, d: P.Choice, e: P.Choice)
    requires UniqueOpen(l.store) && !l.locked && l.thread.ApplyReturned? && !l.thread.ok && IsOpen(l.store, l.thread.id)
    ensures var t := l.thread;
      Solo(l, entries, [c, d, e])
          == Ruled(l, AllowFinished(l.store, l.applying, t.id, t.scope, t.decider, false, d.now, e.now))
  {
    var t := l.thread;
    var failing := Lone(l.store, l.hits, l.applying - {t.id}, true, P.AllowFail(t.id));
    assert LoneStep(l, entries, c) == failing;
    assert LoneStep(failing, entries, d)
        == Ruled(l, AllowFinished(l.store, l.applying, t.id, t.scope, t.decider, false, d.now, e.now));
    SoloThree(l, entries, c, d, e);
  }

  /** The second half, from the subprocess's return. */
  lemma AllowFinishesSolo(l: Lone, entries: seq<Entry>, c: P.Choice, d: P.Choice, e: P.Choice)
    requires UniqueOpen(l.store) && !l.locked && l.thread.ApplyReturned?
    ensures var t := l.thread;
      Solo(l, entries, [c, d, e])
          == Ruled(l, AllowFinished(l.store, l.applying, t.id, t.scope, t.decider, t.ok, d.now, e.now))
  {
    var t := l.thread;
    if !IsOpen(l.store, t.id) {
      assert LoneStep(l, entries, c)
          == Ruled(l, AllowFinished(l.store, l.applying, t.id, t.scope, t.decider, t.ok, d.now, e.now));
      SoloThree(l, entries, c, d, e);
    } else if t.ok {
      AppliedSolo(l, entries, c, d, e);
    } else {
      FailedSolo(l, entries, c, d, e);
    }
  }

  lemma DenySolo(l: Lone, entries: seq<Entry>, c: P.Choice, d: P.Choice)
    requires UniqueOpen(l.store) && !l.locked && l.thread.DenyWait?
    ensures var t := l.thread; var r := DenyDecided(l.store, l.applying, t.id, t.asked, t.reason, t.decider, d.now);
      Solo(l, entries, [c, d]) == Ruled(l, r)
  {
    var t := l.thread;
    var r := DenyDecided(l.store, l.applying, t.id, t.asked, t.reason, t.decider, d.now);
    var next := LoneStep(l, entries, c);
    SoloTwo(l, entries, c, d);
    if next.thread.Done? {
      assert next == Ruled(l, r);
    } else {
      assert next == Lone(l.store, l.hits, l.applying, true,
          P.DenyClose(t.id, P.OnceVerdict(P.Default(t.asked, "once"), t.reason, t.decider)));
      assert LoneStep(next, entries, d) == Ruled(l, r);
    }
  }

  // ------------------------------------------------------------------ the lone thread is the machine's

  lemma SimpleMoveStaysSimple(s: P.State, t: P.Thread, c: P.Choice)
    requires UniqueOpen(s.store) && |s.file| > 0 && Simple(t)
    ensures P.MoveOf(s, t, c) == SimpleMove(s, t, c)
    ensures SimpleMove(s, t, c).Some?
      ==> SimpleMove(s, t, c).value.added.None? && Simple(SimpleMove(s, t, c).value.next)
  {
  }

  lemma InstallIsMoved(l: Lone, entries: seq<Entry>, m: P.Move)
    requires UniqueOpen(l.store) && m.added.None?
    ensures P.Install(Alone(l, entries), 0, m) == Alone(Moved(l, m), entries)
  {
  }

  lemma LoneStepIsTheMachine(l: Lone, entries: seq<Entry>, c: P.Choice)
    requires UniqueOpen(l.store) && Simple(l.thread)
    ensures P.StepThread(Alone(l, entries), 0, c) == Alone(LoneStep(l, entries, c), entries)
    ensures Simple(LoneStep(l, entries, c).thread)
  {
    SimpleMoveStaysSimple(Alone(l, entries), l.thread, c);
    var m := SimpleMove(Alone(l, entries), l.thread, c);
    if m.Some? { InstallIsMoved(l, entries, m.value); }
  }

  /** Thread 0's next steps. */
  ghost function Steps(s: P.State, choices: seq<P.Choice>): P.State
    requires UniqueOpen(s.store) && |s.file| > 0 && 0 in s.threads
    decreases |choices|
  {
    if choices == [] then s
    else
      StepKeeps(s, choices[0]);
      Steps(P.StepThread(s, 0, choices[0]), choices[1..])
  }

  lemma StepKeeps(s: P.State, c: P.Choice)
    requires UniqueOpen(s.store) && |s.file| > 0 && 0 in s.threads
    ensures var t := P.StepThread(s, 0, c); UniqueOpen(t.store) && |t.file| > 0 && 0 in t.threads
  {
    match P.MoveOf(s, s.threads[0], c)
    case None =>
    case Some(m) => if m.op.Some? { PerformKeeps(s.store, m.op.value); }
  }

  lemma {:induction false} SoloIsTheMachine(l: Lone, entries: seq<Entry>, choices: seq<P.Choice>)
    requires UniqueOpen(l.store) && Simple(l.thread)
    ensures Steps(Alone(l, entries), choices) == Alone(Solo(l, entries, choices), entries)
    decreases |choices|
  {
    if choices != [] {
      LoneStepIsTheMachine(l, entries, choices[0]);
      SoloIsTheMachine(LoneStep(l, entries, choices[0]), entries, choices[1..]);
    }
  }

  /** A filing that runs uninterrupted is four steps of the protocol's machine. */
  lemma FilingIsTheMachine(l: Lone, entries: seq<Entry>, b: P.Choice, c: P.Choice, d: P.Choice, e: P.Choice)
    requires UniqueOpen(l.store) && c.minted !in l.store.rows && c.version == 0 && !l.locked && l.thread.FileWait?
    ensures var t := l.thread;
      var effect := AfterFiling(l.store, entries, l.hits, t.filing, t.requestId, c.minted, t.now, e.now);
      Steps(Alone(l, entries), [b, c, d, e]) == Alone(Ended(l, effect), entries)
  {
    FilingIsSolo(l, entries, b, c, d, e);
    SoloIsTheMachine(l, entries, [b, c, d, e]);
  }

  /** So is each half of an allow, and a deny. */
  lemma DecisionsAreTheMachine(l: Lone, entries: seq<Entry>, c: P.Choice, d: P.Choice, e: P.Choice)
    requires UniqueOpen(l.store) && !l.locked
    ensures l.thread.AllowWait? ==>
              var r := AllowBegun(l.store, l.applying, l.thread.id, l.thread.asked, l.thread.decider, c.flag, d.now);
              Steps(Alone(l, entries), if r.thread.Applying? then [c] else [c, d]) == Alone(Ruled(l, r), entries)
    ensures l.thread.ApplyReturned? ==>
              var r := AllowFinished(l.store, l.applying, l.thread.id, l.thread.scope, l.thread.decider, l.thread.ok,
                  d.now, e.now);
              Steps(Alone(l, entries), [c, d, e]) == Alone(Ruled(l, r), entries)
    ensures l.thread.DenyWait? ==>
              var r := DenyDecided(l.store, l.applying, l.thread.id, l.thread.asked, l.thread.reason,
                  l.thread.decider, d.now);
              Steps(Alone(l, entries), [c, d]) == Alone(Ruled(l, r), entries)
  {
    if l.thread.AllowWait? {
      AllowBeginsSolo(l, entries, c, d);
      SoloIsTheMachine(l, entries, [c]);
      SoloIsTheMachine(l, entries, [c, d]);
    } else if l.thread.ApplyReturned? {
      AllowFinishesSolo(l, entries, c, d, e);
      SoloIsTheMachine(l, entries, [c, d, e]);
    } else if l.thread.DenyWait? {
      DenySolo(l, entries, c, d);
      SoloIsTheMachine(l, entries, [c, d]);
    }
  }
}
