/**
 Keyset paging over decided rows, newest first (src/egress_store.py list_recent, src/egress_broker_host.py recent_page).

 A stored timestamp orders as its text does, and ids order as text, so a row's place is a (time, id) pair.
 */
module Paging {
  import opened Wrappers
  import opened RequestStore

  /** A decided row's place in the listing. */
  datatype Place = Place(at: Time, id: Id)

  predicate TextLess(a: string, b: string) {
    b != [] && (a == [] || a[0] < b[0] || (a[0] == b[0] && TextLess(a[1..], b[1..])))
  }

  /** The texts agree up to i, where a ends or has the lesser character. */
  predicate SplitsAt(a: string, b: string, i: nat) {
    && i <= |a| && i < |b| && a[..i] == b[..i] && (i == |a| || a[i] < b[i])
  }

  /** The order of texts: the first character that differs decides, and a beginning comes first. */
  lemma {:induction false} TextLessIsTheOrderOfTexts(a: string, b: string)
    ensures TextLess(a, b) <==> exists i: nat :: SplitsAt(a, b, i)
  {
    if i: nat :| SplitsAt(a, b, i) {
      if i > 0 {
        assert a[0] == a[..i][0] == b[..i][0] == b[0];
        assert a[1..][..i - 1] == a[..i][1..] == b[..i][1..] == b[1..][..i - 1];
        assert SplitsAt(a[1..], b[1..], i - 1);
        TextLessIsTheOrderOfTexts(a[1..], b[1..]);
      }
    }
    if TextLess(a, b) {
      if a == [] || a[0] < b[0] {
        assert SplitsAt(a, b, 0);
      } else {
        TextLessIsTheOrderOfTexts(a[1..], b[1..]);
        var i: nat :| SplitsAt(a[1..], b[1..], i);
        assert a[..i + 1] == [a[0]] + a[1..][..i] && b[..i + 1] == [b[0]] + b[1..][..i];
        assert SplitsAt(a, b, i + 1);
      }
    }
  }

  lemma {:induction false} TextLessIsTotal(a: string, b: string)
    ensures !(TextLess(a, b) && TextLess(b, a)) && (TextLess(a, b) || TextLess(b, a) || a == b) && !TextLess(a, a)
  {
    if a != [] && b != [] && a[0] == b[0] {
      TextLessIsTotal(a[1..], b[1..]);
      if a[1..] == b[1..] { assert a == [a[0]] + a[1..] == b; }
    }
    if a != [] { TextLessIsTotal(a[1..], a[1..]); }
  }

  lemma {:induction false} TextLessIsTransitive(a: string, b: string, c: string)
    requires TextLess(a, b) && TextLess(b, c)
    ensures TextLess(a, c)
  {
    if a != [] && b != [] && a[0] == b[0] == c[0] { TextLessIsTransitive(a[1..], b[1..], c[1..]); }
  }

  /** a is listed after b. */
  predicate Older(a: Place, b: Place) {
    a.at < b.at || (a.at == b.at && TextLess(a.id, b.id))
  }

  lemma OlderIsTotal(a: Place, b: Place)
    ensures !(Older(a, b) && Older(b, a)) && (Older(a, b) || Older(b, a) || a == b) && !Older(a, a)
  {
    TextLessIsTotal(a.id, b.id);
    TextLessIsTotal(a.id, a.id);
  }

  lemma OlderIsTransitive(a: Place, b: Place, c: Place)
    requires Older(a, b) && Older(b, c)
    ensures Older(a, c)
  {
    if a.at == b.at == c.at { TextLessIsTransitive(a.id, b.id, c.id); }
  }

  // ------------------------------------------------------------------ the listing of a set of places

  predicate IsNewest(p: Place, places: set<Place>) {
    p in places && forall q :: q in places && q != p ==> Older(q, p)
  }

  lemma {:induction false} SomeIsNewest(places: set<Place>)
    requires places != {}
    ensures exists p :: IsNewest(p, places)
    decreases |places|
  {
    var p :| p in places;
    if places == {p} {
      assert IsNewest(p, places);
    } else {
      var rest := places - {p};
      assert places == rest + {p};
      SomeIsNewest(rest);
      var n :| IsNewest(n, rest);
      OlderIsTotal(n, p);
      if Older(n, p) {
        forall q | q in rest && q != n ensures Older(q, p) { OlderIsTransitive(q, n, p); }
        assert IsNewest(p, places);
      } else {
        assert IsNewest(n, places);
      }
    }
  }

  ghost function Newest(places: set<Place>): (p: Place)
    requires places != {}
    ensures IsNewest(p, places)
  {
    SomeIsNewest(places);
    var p :| IsNewest(p, places);
    p
  }

  /** ORDER BY decided_at DESC, request_id DESC. */
  ghost function Listing(places: set<Place>): seq<Place>
    decreases |places|
  {
    if places == {} then [] else [Newest(places)] + Listing(places - {Newest(places)})
  }

  ghost predicate Descending(list: seq<Place>) {
    forall i, j :: 0 <= i < j < |list| ==> Older(list[j], list[i])
  }

  ghost predicate Lists(list: seq<Place>, places: set<Place>) {
    Descending(list) && forall p :: p in list <==> p in places
  }

  lemma {:induction false} ListingLists(places: set<Place>)
    ensures Lists(Listing(places), places) && |Listing(places)| == |places|
    decreases |places|
  {
    if places != {} {
      var n := Newest(places);
      ListingLists(places - {n});
      var rest := Listing(places - {n});
      forall i | 0 <= i < |rest| ensures Older(rest[i], n) { assert rest[i] in rest; }
    }
  }

  function Below(places: set<Place>, before: Option<Place>): set<Place> {
    set p | p in places && (before.None? || Older(p, before.value))
  }

  ghost function Page(places: set<Place>, before: Option<Place>, limit: nat): seq<Place> {
    UpTo(Listing(Below(places, before)), limit)
  }

  function UpTo(list: seq<Place>, limit: nat): seq<Place> {
    if |list| <= limit then list else list[..limit]
  }

  /** The cursor a full page hands on; a short page ends the listing. */
  function Next(page: seq<Place>, limit: nat): Option<Place> {
    if page != [] && |page| >= limit then Some(page[|page| - 1]) else None
  }

  // ------------------------------------------------------------------ following the cursors

  /** Pages asked one after the other, each from the set of places decided by then. */
  ghost predicate Followed(sets: seq<set<Place>>, before: Option<Place>, limit: nat, pages: seq<seq<Place>>) {
    && |sets| == |pages| > 0
    && pages[0] == Page(sets[0], before, limit)
    && (|pages| > 1 ==> Next(pages[0], limit).Some? && Followed(sets[1..], Next(pages[0], limit), limit, pages[1..]))
  }

  ghost predicate Growing(sets: seq<set<Place>>) {
    forall i :: 0 < i < |sets| ==> sets[i - 1] <= sets[i]
  }

  function Flat(pages: seq<seq<Place>>): seq<Place> {
    if pages == [] then [] else pages[0] + Flat(pages[1..])
  }

  lemma PageIsTheTop(places: set<Place>, before: Option<Place>, limit: nat)
    requires limit > 0
    ensures var page := Page(places, before, limit);
      && Descending(page) && (forall p :: p in page ==> p in Below(places, before))
      && (Next(page, limit).None? ==> forall p :: p in Below(places, before) ==> p in page)
      && (Next(page, limit).Some? ==> page[|page| - 1] == Next(page, limit).value
                                      && forall p ::
                                          p in Below(places, before) ==> p in page || Older(p, Next(page, limit).value))
  {
    ListingLists(Below(places, before));
    UpToIsTheTop(Listing(Below(places, before)), limit);
  }

  lemma UpToIsTheTop(list: seq<Place>, limit: nat)
    requires limit > 0 && Descending(list)
    ensures var page := UpTo(list, limit);
      && Descending(page) && (forall p :: p in page ==> p in list) && (|page| < limit ==> page == list)
      && (|page| >= limit ==> |page| == limit && forall p :: p in list ==> p in page || Older(p, page[limit - 1]))
  {
    if |list| >= limit {
      var page := list[..limit];
      assert |list| == limit ==> page == list;
      forall p | p in list && p !in page ensures Older(p, page[limit - 1]) {
        var i :| 0 <= i < |list| && list[i] == p;
        assert i >= limit;
      }
    }
  }

  lemma DescendingJoin(a: seq<Place>, b: seq<Place>)
    requires Descending(a) && Descending(b) && a != [] && forall p :: p in b ==> Older(p, a[|a| - 1])
    ensures Descending(a + b)
  {
    forall i, j | 0 <= i < |a| && 0 <= j < |b| ensures Older(b[j], a[i]) {
      assert b[j] in b;
      if i < |a| - 1 { OlderIsTransitive(b[j], a[|a| - 1], a[i]); }
    }
  }

  /** Following the cursors to a null one lists, in descending order and so once each, every place there was
      when the first page was asked, whatever was decided between pages. */
  lemma {:induction false} CursorsCoverTheStart(sets: seq<set<Place>>, before: Option<Place>, limit: nat,
                                                pages: seq<seq<Place>>)
    requires limit > 0 && Followed(sets, before, limit, pages) && Growing(sets) && Next(pages[|pages| - 1], limit).None?
    ensures Descending(Flat(pages))
    ensures forall p :: p in Below(sets[0], before) ==> p in Flat(pages)
    ensures before.Some? ==> forall p :: p in Flat(pages) ==> Older(p, before.value)
    decreases |pages|
  {
    PageIsTheTop(sets[0], before, limit);
    if |pages| == 1 {
      assert Flat(pages) == pages[0] + [] == pages[0];
    } else {
      var cursor := Next(pages[0], limit);
      assert sets[0] <= sets[1];
      CursorsCoverTheStart(sets[1..], cursor, limit, pages[1..]);
      DescendingJoin(pages[0], Flat(pages[1..]));
      RestIsOlder(pages[0], Flat(pages[1..]), before);
    }
  }

  lemma RestIsOlder(page: seq<Place>, rest: seq<Place>, before: Option<Place>)
    requires page != [] && forall p :: p in rest ==> Older(p, page[|page| - 1])
    requires before.Some? ==> forall p :: p in page ==> Older(p, before.value)
    ensures before.Some? ==> forall p :: p in page + rest ==> Older(p, before.value)
  {
    if before.Some? {
      forall p | p in rest ensures Older(p, before.value) { OlderIsTransitive(p, page[|page| - 1], before.value); }
    }
  }

  lemma SameHead(a: seq<Place>, b: seq<Place>)
    requires Descending(a) && Descending(b) && a != [] && b != [] && a[0] in b && b[0] in a
    ensures a[0] == b[0]
  {
    var i :| 0 <= i < |b| && b[i] == a[0];
    var j :| 0 <= j < |a| && a[j] == b[0];
    OlderIsTotal(a[0], b[0]);
  }

  lemma {:induction false} SameListing(a: seq<Place>, b: seq<Place>)
    requires Descending(a) && Descending(b) && |a| == |b| && forall p :: p in a <==> p in b
    ensures a == b
    decreases |a|
  {
    if a != [] {
      SameHead(a, b);
      forall p ensures p in a[1..] <==> p in b[1..] {
        RestMembers(a, p);
        RestMembers(b, p);
      }
      SameListing(a[1..], b[1..]);
      assert a == [a[0]] + a[1..] && b == [b[0]] + b[1..];
    }
  }

  lemma RestMembers(a: seq<Place>, p: Place)
    requires a != [] && Descending(a)
    ensures p in a[1..] <==> p in a && p != a[0]
  {
    assert a == [a[0]] + a[1..];
    OlderIsTotal(a[0], a[0]);
  }

  /** When nothing is decided meanwhile, the pages together are the whole listing. */
  lemma CursorsListAll(sets: seq<set<Place>>, places: set<Place>, limit: nat, pages: seq<seq<Place>>)
    requires limit > 0 && Followed(sets, None, limit, pages) && Next(pages[|pages| - 1], limit).None?
    requires forall i :: 0 <= i < |sets| ==> sets[i] == places
    ensures Flat(pages) == Listing(places)
  {
    CursorsCoverTheStart(sets, None, limit, pages);
    ListingLists(places);
    assert Below(places, None) == places;
    OnlyPlaces(sets, places, None, limit, pages);
    DescendingCounts(Flat(pages));
    DescendingCounts(Listing(places));
    assert (set p | p in Flat(pages)) == (set p | p in Listing(places));
    SameListing(Flat(pages), Listing(places));
  }

  lemma {:induction false} OnlyPlaces(sets: seq<set<Place>>, places: set<Place>, before: Option<Place>, limit: nat,
                                      pages: seq<seq<Place>>)
    requires limit > 0 && Followed(sets, before, limit, pages) && forall i :: 0 <= i < |sets| ==> sets[i] <= places
    ensures forall p :: p in Flat(pages) ==> p in places
    decreases |pages|
  {
    PageIsTheTop(sets[0], before, limit);
    if |pages| > 1 {
      OnlyPlaces(sets[1..], places, Next(pages[0], limit), limit, pages[1..]);
    }
  }

  /** And then the cursors do end, after at most one page more than the places fill. */
  lemma {:induction false} CursorsEnd(sets: seq<set<Place>>, places: set<Place>, before: Option<Place>, limit: nat,
                                      pages: seq<seq<Place>>)
    requires limit > 0 && Followed(sets, before, limit, pages) && forall i :: 0 <= i < |sets| ==> sets[i] == places
    ensures (|pages| - 1) * limit <= |Below(places, before)|
    decreases |pages|
  {
    if |pages| > 1 {
      CursorsEnd(sets[1..], places, Next(pages[0], limit), limit, pages[1..]);
      PageTakesLimit(places, before, limit);
      OneMorePage(|pages|, limit);
    }
  }

  lemma OneMorePage(n: int, limit: int)
    ensures (n - 1) * limit == (n - 2) * limit + limit
  {
  }

  lemma PageCounts(places: set<Place>, before: Option<Place>, limit: nat)
    requires limit > 0 && Next(Page(places, before, limit), limit).Some?
    ensures |set p | p in Page(places, before, limit)| == limit
  {
    PageIsTheTop(places, before, limit);
    DescendingCounts(Page(places, before, limit));
  }

  /** A full page leaves that many fewer places below its cursor. */
  lemma PageTakesLimit(places: set<Place>, before: Option<Place>, limit: nat)
    requires limit > 0 && Next(Page(places, before, limit), limit).Some?
    ensures |Below(places, Next(Page(places, before, limit), limit))| + limit <= |Below(places, before)|
  {
    var page := Page(places, before, limit);
    var cursor := Next(page, limit).value;
    PageIsTheTop(places, before, limit);
    PageCounts(places, before, limit);
    var rest := Below(places, Some(cursor));
    var taken := set p | p in page;
    forall p | p in rest ensures p in Below(places, before) && p !in taken {
      BelowTheCursor(places, before, page, cursor, p);
    }
    SubsetCounts(rest + taken, Below(places, before));
    assert rest !! taken;
  }

  lemma BelowTheCursor(places: set<Place>, before: Option<Place>, page: seq<Place>, cursor: Place, p: Place)
    requires Descending(page) && page != [] && cursor == page[|page| - 1]
    requires (forall q :: q in page ==> q in Below(places, before))
    requires p in Below(places, Some(cursor))
    ensures p in Below(places, before) && p !in page
  {
    assert cursor in page;
    if before.Some? { OlderIsTransitive(p, cursor, before.value); }
    OlderIsTotal(p, cursor);
  }

  lemma {:induction false} DescendingCounts(list: seq<Place>)
    requires Descending(list)
    ensures |set p | p in list| == |list|
  {
    if list != [] {
      RestMembers(list, list[0]);
      DescendingCounts(list[1..]);
      assert (set p | p in list) == (set p | p in list[1..]) + {list[0]} by { assert list == [list[0]] + list[1..]; }
    }
  }

  lemma SubsetCounts(a: set<Place>, b: set<Place>)
    requires a <= b
    ensures |a| <= |b|
  {
    assert b == a + (b - a);
  }

  // ------------------------------------------------------------------ the store's decided rows

  datatype Query = Query(since: Option<Time>, until: Option<Time>, container: Option<string>)

  predicate Answers(q: Query, row: Row) {
    && row.decidedAt.Some?
    && (q.since.Some? ==> q.since.value <= row.decidedAt.value)
    && (q.until.Some? ==> row.decidedAt.value <= q.until.value)
    && (q.container.Some? ==> row.filing.container == q.container.value)
  }

  function Decided(s: Store, q: Query): set<Place> {
    set id | id in s.rows && Answers(q, s.rows[id]) :: Place(s.rows[id].decidedAt.value, id)
  }

  /** A decided row keeps its place. */
  lemma DecidedGrows(s: Store, t: Store, q: Query)
    requires Extends(s, t) && RowsOk(s)
    ensures Decided(s, q) <= Decided(t, q)
  {
    forall p | p in Decided(s, q) ensures p in Decided(t, q) {
      assert RowOk(s.rows[p.id]) && RowExtends(s.rows[p.id], t.rows[p.id]);
    }
  }

  ghost function DecidedAt(s: Store, ops: seq<Op>, q: Query, at: seq<nat>): seq<set<Place>>
    requires UniqueOpen(s) && forall i :: 0 <= i < |at| ==> at[i] <= |ops|
  {
    seq(|at|, i requires 0 <= i < |at| => Decided(Run(s, ops[..at[i]]), q))
  }

  /** The pages of one walk, asked at these points of a run of store calls, list every row that was decided
      when the first was asked, once each and newest first. */
  lemma PagesListEveryDecidedRow(s: Store, ops: seq<Op>, q: Query, at: seq<nat>, limit: nat, pages: seq<seq<Place>>)
    requires UniqueOpen(s) && RowsOk(s) && limit > 0
    requires (forall i :: 0 <= i < |at| ==> at[i] <= |ops|) && (forall i :: 0 < i < |at| ==> at[i - 1] <= at[i])
    requires Followed(DecidedAt(s, ops, q, at), None, limit, pages) && Next(pages[|pages| - 1], limit).None?
    ensures Descending(Flat(pages))
    ensures forall id, when ::
              Wanted(Run(s, ops[..at[0]]), q, None, id, when) ==> Place(when, id) in Flat(pages)
  {
    var sets := DecidedAt(s, ops, q, at);
    forall i | 0 < i < |sets| ensures sets[i - 1] <= sets[i] {
      RunStretch(s, ops, at[i - 1], at[i]);
      RunKeepsRowsOk(s, ops[..at[i - 1]]);
      DecidedGrows(Run(s, ops[..at[i - 1]]), Run(s, ops[..at[i]]), q);
    }
    CursorsCoverTheStart(sets, None, limit, pages);
    forall id, when | Wanted(Run(s, ops[..at[0]]), q, None, id, when) ensures Place(when, id) in Flat(pages) {
      WantedIsBelow(Run(s, ops[..at[0]]), q, None, id, when);
    }
  }

  lemma RunOneMore(s: Store, ops: seq<Op>, n: nat)
    requires UniqueOpen(s) && n < |ops|
    ensures Extends(Run(s, ops[..n]), Run(s, ops[..n + 1]))
  {
    assert ops[..n + 1][..n] == ops[..n];
    PerformKeeps(Run(s, ops[..n]), ops[n]);
  }

  lemma {:induction false} RunStretch(s: Store, ops: seq<Op>, m: nat, n: nat)
    requires UniqueOpen(s) && m <= n <= |ops|
    ensures Extends(Run(s, ops[..m]), Run(s, ops[..n]))
    decreases n
  {
    if m < n {
      RunStretch(s, ops, m, n - 1);
      RunOneMore(s, ops, n - 1);
      ExtendsTransitive(Run(s, ops[..m]), Run(s, ops[..n - 1]), Run(s, ops[..n]));
    } else {
      ExtendsItself(Run(s, ops[..m]));
    }
  }

  lemma ExtendsItself(s: Store)
    ensures Extends(s, s)
  {
  }

  // ------------------------------------------------------------------ one page

  /** The row is decided, by an ask of the container, no earlier than since and no later than until, and is
      listed after the cursor: decided earlier, or at the same time with an id that comes first. */
  ghost predicate Wanted(s: Store, q: Query, before: Option<Place>, id: Id, at: Time) {
    && id in s.rows && s.rows[id].decidedAt == Some(at)
    && !(q.since.Some? && at < q.since.value) && !(q.until.Some? && at > q.until.value)
    && (q.container == None || q.container == Some(s.rows[id].filing.container))
    && (before.Some? ==> at <= before.value.at)
    && (before.Some? && at == before.value.at ==> exists i: nat :: SplitsAt(id, before.value.id, i))
  }

  lemma WantedIsBelow(s: Store, q: Query, before: Option<Place>, id: Id, at: Time)
    ensures Wanted(s, q, before, id, at) <==> Place(at, id) in Below(Decided(s, q), before)
  {
    if before.Some? { TextLessIsTheOrderOfTexts(id, before.value.id); }
    if Wanted(s, q, before, id, at) { assert Place(s.rows[id].decidedAt.value, id) in Decided(s, q); }
  }

  /** A page of the wanted rows, newest first: all of them when there is no cursor to go on with; otherwise as
      many as the limit, with the cursor at the last and the others after it. */
  ghost predicate TopOfTheWanted(s: Store, q: Query, before: Option<Place>, limit: nat, page: seq<Place>,
                                 next: Option<Place>) {
    && Descending(page) && |page| <= limit
    && (forall p :: p in page ==> Wanted(s, q, before, p.id, p.at))
    && (next.None? <==> |page| < limit)
    && (next.Some? ==> page != [] && next.value == page[|page| - 1])
    && forall id, at :: Wanted(s, q, before, id, at) ==>
         Place(at, id) in page || (next.Some? && Older(Place(at, id), next.value))
  }

  lemma PageIsWanted(s: Store, q: Query, before: Option<Place>, limit: nat)
    requires limit > 0
    ensures var page := Page(Decided(s, q), before, limit);
      TopOfTheWanted(s, q, before, limit, page, Next(page, limit))
  {
    var page := Page(Decided(s, q), before, limit);
    PageIsTheTop(Decided(s, q), before, limit);
    forall p | p in page ensures Wanted(s, q, before, p.id, p.at) { WantedIsBelow(s, q, before, p.id, p.at); }
    forall id, at | Wanted(s, q, before, id, at)
      ensures Place(at, id) in page || (Next(page, limit).Some? && Older(Place(at, id), Next(page, limit).value))
    {
      WantedIsBelow(s, q, before, id, at);
    }
  }

  method NewestOf(places: set<Place>) returns (p: Place)
    requires places != {}
    ensures p == Newest(places)
  {
    p :| p in places;
    var todo := places - {p};
    while todo != {}
      invariant todo <= places && IsNewest(p, places - todo)
      decreases |todo|
    {
      var q :| q in todo;
      OlderIsTotal(p, q);
      ghost var was := p;
      if Older(p, q) {
        forall o | o in places - todo && o != p ensures Older(o, q) { OlderIsTransitive(o, p, q); }
        p := q;
      }
      todo := todo - {q};
    }
    NewestIsOne(p, Newest(places), places);
  }

  lemma NewestIsOne(p: Place, q: Place, places: set<Place>)
    requires IsNewest(p, places) && IsNewest(q, places)
    ensures p == q
  {
    OlderIsTotal(p, q);
  }

  /** LIMIT: the first places of the listing. */
  method Top(places: set<Place>, limit: nat) returns (page: seq<Place>)
    ensures page == UpTo(Listing(places), limit)
  {
    var rest := places;
    page := [];
    while |page| < limit && rest != {}
      invariant |page| <= limit && page + Listing(rest) == Listing(places)
      decreases limit - |page|
    {
      var p := NewestOf(rest);
      ListingStep(page, rest);
      page, rest := page + [p], rest - {p};
    }
    assert page + Listing(rest) == Listing(places);
    if rest == {} { assert page + [] == page; }
  }

  lemma ListingStep(page: seq<Place>, rest: set<Place>)
    requires rest != {}
    ensures page + Listing(rest) == page + [Newest(rest)] + Listing(rest - {Newest(rest)})
  {
  }

  /** One page of decided rows and the cursor of the next. */
  method RecentPage(store: Store, q: Query, before: Option<Place>, limit: nat)
      returns (page: seq<Place>, next: Option<Place>)
    ensures page == Page(Decided(store, q), before, limit)
    ensures next == Next(page, limit)
    ensures limit > 0 ==> TopOfTheWanted(store, q, before, limit, page, next)
  {
    if limit > 0 { PageIsWanted(store, q, before, limit); }
    page := Top(Below(Decided(store, q), before), limit);
    next := Next(page, limit);
  }
}
