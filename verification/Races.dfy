/**
 Two races that the broker's own comments rule out, each shown by a schedule.

 A database holds two requests of one bottle: "r", a day old, and "q", a second younger.
 */
module Races {
  import opened Wrappers
  import opened RequestStore
  import opened DenyZones
  import opened HitWindow
  import opened Protocol
  import opened ProtocolInvariant
  import opened ProtocolSafety
  import opened PersistBarrier

  const ASK_R := Filing("bottle", "r.example", 443, false, None, None, None, None)
  const ASK_Q := Filing("bottle", "q.example", 443, false, None, None, None, None)

  const ROWS := InsertOpen(InsertOpen(EMPTY_STORE, "r", ASK_R, 0), "q", ASK_Q, 1)

  lemma RowsOk()
    ensures StoreOk(ROWS) && ROWS.rows == map["r" := FreshRow(ASK_R, 0), "q" := FreshRow(ASK_Q, 1)]
  {
    EmptyStoreOk();
    var one := InsertOpen(EMPTY_STORE, "r", ASK_R, 0);
    assert FindOpen(EMPTY_STORE, KeyOf(ASK_R)).None?;
    assert Perform(EMPTY_STORE, DoOpenOrHit("r", ASK_R, 0)) == one;
    SafeOpKeepsStoreOk(EMPTY_STORE, DoOpenOrHit("r", ASK_R, 0));
    assert one.rows.Keys == {"r"} && FindOpen(one, KeyOf(ASK_Q)).None?;
    assert Perform(one, DoOpenOrHit("q", ASK_Q, 1)) == ROWS;
    SafeOpKeepsStoreOk(one, DoOpenOrHit("q", ASK_Q, 1));
  }

  /** Reached from a restart of the broker on these two requests and an empty denylist. */
  ghost predicate Reachable(s: State) {
    StoreOk(ROWS) && exists schedule :: Exec(Boot(ROWS, []), schedule) == s
  }

  lemma Reach(s: State, a: Action)
    requires UniqueOpen(s.store) && |s.file| > 0 && Reachable(s)
    ensures Reachable(Act(s, a))
  {
    var schedule :| Exec(Boot(ROWS, []), schedule) == s;
    assert (schedule + [a])[..|schedule|] == schedule;
    assert Exec(Boot(ROWS, []), schedule + [a]) == Act(s, a);
  }

  /** The two requests are there, both open. */
  ghost predicate BothOpen(store: Store) {
    UniqueOpen(store) && store.rows == map["r" := FreshRow(ASK_R, 0), "q" := FreshRow(ASK_Q, 1)]
  }

  const YES := Choice(0, true, "", 0, "r")
  const NO := Choice(0, false, "", 0, "r")
  const ORDER := Order(Entry("example", GLOBAL, "", "operator", None), None, None, "op")

  // ------------------------------------------------------------------ the sweep picks its row

  /** The sweep has picked "r" and is about to close it, outside the broker lock. */
  predicate Picked(s: State) {
    && s.holder.None? && s.applying == {} && s.file == [[]]
    && 1 in s.threads && s.threads[1] == SweepClose({"r"}, STALE_SECONDS) && 2 !in s.threads
  }

  lemma SweepPicks(s: State)
    requires BothOpen(s.store) && s.holder.None? && s.applying == {} && s.file == [[]]
    requires s.threads == map[1 := SweepPick(STALE_SECONDS)]
    ensures Picked(Act(s, Step(1, YES))) && Act(s, Step(1, YES)).store == s.store
  {
    assert StaleOpen(s.store, s.applying, STALE_SECONDS) == {"r"};
  }

  lemma PickedIsReachable() returns (s: State)
    ensures Reachable(s) && Picked(s) && BothOpen(s.store)
  {
    RowsOk();
    var s0 := State(ROWS, [[]], map[], {}, None, map[]);
    assert Exec(Boot(ROWS, []), []) == s0;
    Reach(s0, Start(1, SweepStale(STALE_SECONDS)));
    var s1 := Act(s0, Start(1, SweepStale(STALE_SECONDS)));
    SweepPicks(s1);
    Reach(s1, Step(1, YES));
    s := Act(s1, Step(1, YES));
  }

  predicate TwoThreads(s: State, second: Thread) {
    1 in s.threads && s.threads[1] == SweepClose({"r"}, STALE_SECONDS) && 2 in s.threads && s.threads[2] == second
  }

  lemma SecondStarts(s: State, command: Command)
    requires UniqueOpen(s.store) && |s.file| > 0 && Picked(s)
    ensures var t := Act(s, Start(2, command));
      t.store == s.store && t.holder.None? && t.applying == {} && t.file == [[]] && TwoThreads(t, Begin(command))
  {
  }

  /** A second call begins while the sweep is between its pick and its close. */
  lemma BegunIsReachable(command: Command) returns (s: State)
    ensures Reachable(s) && BothOpen(s.store) && s.holder.None? && s.applying == {} && s.file == [[]]
    ensures TwoThreads(s, Begin(command))
  {
    var s2 := PickedIsReachable();
    SecondStarts(s2, command);
    Reach(s2, Start(2, command));
    s := Act(s2, Start(2, command));
  }

  // ------------------------------------------------------------------ a sweep overtakes an allow

  lemma AllowBegins(s: State)
    requires BothOpen(s.store) && |s.file| > 0 && s.holder.None? && s.applying == {} && 2 in s.threads
    requires s.threads[2] == AllowWait("r", None, "op")
    ensures var t := Act(s, Step(2, NO));
            t.store == s.store && t.applying == {"r"} && t.threads == s.threads[2 := Applying("r", "live", "op")]
  {
  }

  lemma SweepCloses(s: State)
    requires BothOpen(s.store) && |s.file| > 0 && 1 in s.threads && s.threads[1] == SweepClose({"r"}, STALE_SECONDS)
    ensures !IsOpen(Act(s, Step(1, YES)).store, "r")
  {
  }

  lemma AllowingIsReachable() returns (s: State)
    ensures Reachable(s) && BothOpen(s.store) && s.applying == {"r"} && |s.file| > 0
    ensures 1 in s.threads && s.threads[1] == SweepClose({"r"}, STALE_SECONDS)
  {
    var s3 := BegunIsReachable(DecideAllow("r", None, "op"));
    AllowBegins(s3);
    Reach(s3, Step(2, NO));
    s := Act(s3, Step(2, NO));
  }

  lemma ReachableInv(s: State)
    requires Reachable(s)
    ensures Inv(s)
  {
  }

  /** The sweep picks a day-old row, then its allow begins: the row goes stale under the running allow,
      although a sweep is said to leave such a row alone. */
  lemma AnAllowCanBeOvertakenByASweep()
    ensures exists s :: Reachable(s) && Inv(s) && ClosesInFlight(s, Step(1, YES), "r")
  {
    var s := AllowingIsReachable();
    ReachableInv(s);
    SweepCloses(s);
  }

  // ------------------------------------------------------------------ a sweep breaks off a persisted deny

  lemma BothCovered()
    ensures HostCovered("r.example", "example") && HostCovered("q.example", "example")
  {
    assert "r.example"[1..] == ".example" && "q.example"[1..] == ".example";
  }

  lemma Writes2(s: State)
    requires UniqueOpen(s.store) && s.file == [[]] && 2 in s.threads && s.threads[2] == PersistWrite(ORDER)
    ensures Act(s, Step(2, YES)) == s.(file := [[], [ORDER.entry]], threads := s.threads[2 := PersistLoad(ORDER, 1)])
  {
    assert With([], ORDER.entry) == [ORDER.entry];
    assert [[]] + [[ORDER.entry]] == [[], [ORDER.entry]];
  }

  lemma Lists2(s: State)
    requires BothOpen(s.store) && |s.file| > 0 && s.holder.None? && 2 in s.threads
    requires s.threads[2] == PersistList(ORDER, 1)
    ensures Act(s, Step(2, YES)) == s.(threads := s.threads[2 := PersistSweep(ORDER, 1, {"r", "q"}, {})])
  {
    BothCovered();
    assert CoveredOpen(s.store, ORDER.entry) == {"r", "q"};
  }

  lemma TakesRow(s: State)
    requires BothOpen(s.store) && |s.file| > 0 && s.holder.None? && s.applying == {}
    requires 2 in s.threads && s.threads[2] == PersistSweep(ORDER, 1, {"r", "q"}, {})
    ensures Act(s, Step(2, YES))
      == s.(holder := Some(2), threads := s.threads[2 := PersistClose(ORDER, 1, "r", {"q"}, {})])
  {
    assert {"r", "q"} - {"r"} == {"q"};
  }

  lemma SweepClosesR(s: State)
    requires BothOpen(s.store) && |s.file| > 0 && 1 in s.threads && s.threads[1] == SweepClose({"r"}, STALE_SECONDS)
    ensures var t := Act(s, Step(1, YES));
      && t == s.(store := t.store, threads := s.threads[1 := SweepClose({}, STALE_SECONDS)])
      && "r" in t.store.rows && t.store.rows["r"].status == Stale && "q" in t.store.rows
         && t.store.rows["q"] == s.store.rows["q"]
  {
    assert {"r"} - {"r"} == {};
  }

  lemma CloseRaises(s: State)
    requires UniqueOpen(s.store) && |s.file| > 0 && "r" in s.store.rows && s.store.rows["r"].status == Stale
    requires 2 in s.threads && s.threads[2] == PersistClose(ORDER, 1, "r", {"q"}, {})
    ensures Act(s, Step(2, YES)) == s.(holder := None, threads := s.threads[2 := Done(StoreRaised(AlreadyDecided))])
  {
  }

  lemma BeginsToWrite()
    ensures Begin(PersistDeny(ORDER)) == PersistWrite(ORDER)
  {
  }

  lemma WrittenIsReachable() returns (s: State)
    ensures Reachable(s) && BothOpen(s.store) && s.holder.None? && s.applying == {} && s.file == [[], [ORDER.entry]]
    ensures TwoThreads(s, PersistLoad(ORDER, 1))
  {
    BeginsToWrite();
    var s3 := BegunIsReachable(PersistDeny(ORDER));
    s := WriteReaches(s3);
  }

  lemma WriteReaches(s: State) returns (t: State)
    requires Reachable(s) && UniqueOpen(s.store) && s.file == [[]] && TwoThreads(s, PersistWrite(ORDER))
    ensures Reachable(t) && t.store == s.store && t.holder == s.holder && t.applying == s.applying
    ensures t.file == [[], [ORDER.entry]] && TwoThreads(t, PersistLoad(ORDER, 1))
  {
    Writes2(s);
    Reach(s, Step(2, YES));
    t := Act(s, Step(2, YES));
  }

  lemma Loads2(s: State)
    requires UniqueOpen(s.store) && |s.file| > 0 && s.holder.None? && 2 in s.threads
    requires s.threads[2] == PersistLoad(ORDER, 1)
    ensures Act(s, Step(2, YES)) == s.(threads := s.threads[2 := PersistList(ORDER, 1)])
  {
  }

  lemma LoadedIsReachable() returns (s: State)
    ensures Reachable(s) && BothOpen(s.store) && s.holder.None? && s.applying == {} && s.file == [[], [ORDER.entry]]
    ensures TwoThreads(s, PersistList(ORDER, 1))
  {
    var s4 := WrittenIsReachable();
    Loads2(s4);
    Reach(s4, Step(2, YES));
    s := Act(s4, Step(2, YES));
  }

  lemma ListedIsReachable() returns (s: State)
    ensures Reachable(s) && BothOpen(s.store) && s.holder.None? && s.applying == {} && s.file == [[], [ORDER.entry]]
    ensures TwoThreads(s, PersistSweep(ORDER, 1, {"r", "q"}, {}))
  {
    var s5 := LoadedIsReachable();
    Lists2(s5);
    Reach(s5, Step(2, YES));
    s := Act(s5, Step(2, YES));
  }

  /** "r" went stale after the persist call saw it open and before it closes it. */
  lemma OvertakenIsReachable() returns (s: State)
    ensures Reachable(s) && UniqueOpen(s.store) && s.file == [[], [ORDER.entry]]
    ensures 2 in s.threads && s.threads[2] == PersistClose(ORDER, 1, "r", {"q"}, {})
    ensures "r" in s.store.rows && s.store.rows["r"].status == Stale
    ensures "q" in s.store.rows && s.store.rows["q"] == FreshRow(ASK_Q, 1)
  {
    var s6 := ListedIsReachable();
    TakesRow(s6);
    Reach(s6, Step(2, YES));
    var s7 := Act(s6, Step(2, YES));
    SweepClosesR(s7);
    Reach(s7, Step(1, YES));
    s := Act(s7, Step(1, YES));
    ReachableInv(s);
  }

  /** The call ended with the store's error, its entry written, and "q", which the entry covers, open. */
  ghost predicate BrokenOff(s: State) {
    && s.holder.None? && 2 in s.threads && s.threads[2] == Done(StoreRaised(AlreadyDecided))
    && |s.file| == 2 && ORDER.entry in s.file[1] && CoveredRow(s, ORDER.entry, "q")
  }

  lemma CloseBreaksOff(s: State)
    requires UniqueOpen(s.store) && s.file == [[], [ORDER.entry]]
    requires 2 in s.threads && s.threads[2] == PersistClose(ORDER, 1, "r", {"q"}, {})
    requires "r" in s.store.rows && s.store.rows["r"].status == Stale
    requires "q" in s.store.rows && s.store.rows["q"] == FreshRow(ASK_Q, 1)
    ensures BrokenOff(Act(s, Step(2, YES)))
  {
    CloseRaises(s);
    BothCovered();
  }

  /** persist_deny promises to raise nothing but its own two argument errors; a sweep that closes a row
      between its look and its close makes the store raise through it, and leaves "q" open although the
      entry that covers it is written. */
  lemma APersistedDenyCanBreakOff()
    ensures exists s :: Reachable(s) && BrokenOff(s)
  {
    var s8 := OvertakenIsReachable();
    CloseBreaksOff(s8);
    Reach(s8, Step(2, YES));
  }
}
