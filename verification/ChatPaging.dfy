/** Reading a conversation backwards, page by page, while messages keep arriving. */
module ChatPaging {
  import opened Wrappers

  /** Ids stand for their place in the database's order of text. */
  datatype Message = Message(id: nat, conversation: nat, sender: nat, content: string, createdAt: int)

  /** Later creation first; the id breaks ties within a millisecond. */
  predicate Older(a: Message, b: Message) {
    a.createdAt < b.createdAt || (a.createdAt == b.createdAt && a.id < b.id)
  }

  predicate DistinctIds(rows: seq<Message>) {
    forall i, j :: 0 <= i < j < |rows| ==> rows[i].id != rows[j].id
  }

  predicate NewestFirst(rows: seq<Message>) {
    forall i, j :: 0 <= i < j < |rows| ==> Older(rows[j], rows[i])
  }

  predicate OldestFirst(rows: seq<Message>) {
    forall i, j :: 0 <= i < j < |rows| ==> Older(rows[i], rows[j])
  }

  // ---- the query ----

  function Of(rows: seq<Message>, conversation: nat): (r: seq<Message>)
    ensures forall m :: m in r <==> m in rows && m.conversation == conversation
  {
    if rows == [] then []
    else (if rows[0].conversation == conversation then [rows[0]] else []) + Of(rows[1..], conversation)
  }

  function Insert(m: Message, sorted: seq<Message>): (r: seq<Message>)
    ensures forall x :: x in r <==> x == m || x in sorted
    ensures |r| == |sorted| + 1
  {
    if sorted == [] then [m]
    else if Older(sorted[0], m) then [m] + sorted
    else [sorted[0]] + Insert(m, sorted[1..])
  }

  /** orderBy createdAt descending, then id descending. */
  function Sorted(rows: seq<Message>): (r: seq<Message>)
    ensures forall x :: x in r <==> x in rows
    ensures |r| == |rows|
  {
    if rows == [] then [] else Insert(rows[0], Sorted(rows[1..]))
  }

  /** The rows from the cursor row on. */
  function From(sorted: seq<Message>, cursor: Message): (r: seq<Message>)
    ensures forall x :: x in r <==> x in sorted && !Older(cursor, x)
  {
    if sorted == [] then []
    else (if Older(cursor, sorted[0]) then [] else [sorted[0]]) + From(sorted[1..], cursor)
  }

  function Take(rows: seq<Message>, n: nat): seq<Message> {
    if |rows| <= n then rows else rows[..n]
  }

  function Lookup(rows: seq<Message>, id: nat): (r: Option<Message>)
    ensures r.Some? ==> r.value in rows && r.value.id == id
    ensures r.None? ==> forall m :: m in rows ==> m.id != id
  {
    if rows == [] then None
    else if rows[0].id == id then Some(rows[0])
    else Lookup(rows[1..], id)
  }

  /** Newest first; with a cursor, starting one row after it. */
  function FindMessages(rows: seq<Message>, conversation: nat, take: nat, beforeId: Option<nat>): seq<Message> {
    var sorted := Sorted(Of(rows, conversation));
    match beforeId
    case None => Take(sorted, take)
    case Some(id) =>
      match Lookup(rows, id)
      case None => []
      case Some(cursor) =>
        var from := From(sorted, cursor);
        Take(if from == [] then [] else from[1..], take)
  }

  function ClampedTake(take: int): (n: nat)
    ensures 1 <= n <= 100
  {
    if take < 1 then 1 else if take > 100 then 100 else take
  }

  function Reversed(rows: seq<Message>): (r: seq<Message>)
    ensures |r| == |rows|
    ensures forall i :: 0 <= i < |rows| ==> r[i] == rows[|rows| - 1 - i]
  {
    seq(|rows|, i requires 0 <= i < |rows| => rows[|rows| - 1 - i])
  }

  /** A page as the service returns it: oldest first. */
  function Page(rows: seq<Message>, conversation: nat, take: int, beforeId: Option<nat>): seq<Message> {
    Reversed(FindMessages(rows, conversation, ClampedTake(take), beforeId))
  }

  datatype Error = Forbidden

  method ReverseInPlace(a: array<Message>)
    modifies a
    ensures a[..] == Reversed(old(a[..]))
  {
    var n := a.Length;
    var i := 0;
    while i < n / 2
      invariant 0 <= i <= n / 2
      invariant forall k :: 0 <= k < i ==> a[k] == old(a[n - 1 - k]) && a[n - 1 - k] == old(a[k])
      invariant forall k :: i <= k < n - i ==> a[k] == old(a[k])
    {
      a[i], a[n - 1 - i] := a[n - 1 - i], a[i];
      i := i + 1;
    }
  }

  method GetMessages(
    rows: seq<Message>, participants: set<nat>, user: nat, conversation: nat, take: int, beforeId: Option<nat>)
    returns (r: Result<seq<Message>, Error>)
    ensures user !in participants ==> r == Err(Forbidden)
    ensures user in participants ==> r == Ok(Page(rows, conversation, take, beforeId))
  {
    if user !in participants { return Err(Forbidden); }
    var found := FindMessages(rows, conversation, ClampedTake(take), beforeId);
    var messages := new Message[|found|](i requires 0 <= i < |found| => found[i]);
    assert messages[..] == found;
    ReverseInPlace(messages);
    r := Ok(messages[..]);
  }

  // ---- the query returns the next older rows, newest first ----

  lemma OlderTransitive(a: Message, b: Message, c: Message)
    requires Older(a, b) && Older(b, c)
    ensures Older(a, c)
  {
  }

  lemma {:induction false} InsertSorts(m: Message, sorted: seq<Message>)
    requires NewestFirst(sorted) && forall x :: x in sorted ==> x.id != m.id
    ensures NewestFirst(Insert(m, sorted))
  {
    if sorted == [] {
    } else {
      var rest := sorted[1..];
      assert forall x :: x in rest ==> Older(x, sorted[0]);
      if Older(sorted[0], m) {
        var r := [m] + sorted;
        forall i, j | 0 <= i < j < |r| ensures Older(r[j], r[i]) { }
      } else {
        assert sorted[0] in sorted;
        InsertSorts(m, rest);
        var tail := Insert(m, rest);
        forall x | x in tail ensures Older(x, sorted[0]) { }
        PrependNewest(sorted[0], tail);
      }
    }
  }

  lemma PrependNewest(m: Message, sorted: seq<Message>)
    requires NewestFirst(sorted) && forall x :: x in sorted ==> Older(x, m)
    ensures NewestFirst([m] + sorted)
  {
    var r := [m] + sorted;
    forall i, j | 0 <= i < j < |r| ensures Older(r[j], r[i]) {
      assert r[j] == sorted[j - 1] && sorted[j - 1] in sorted;
    }
  }

  lemma {:induction false} SortedIsNewestFirst(rows: seq<Message>)
    requires DistinctIds(rows)
    ensures NewestFirst(Sorted(rows))
  {
    if rows == [] {
    } else {
      SortedIsNewestFirst(rows[1..]);
      forall x | x in rows[1..] ensures x.id != rows[0].id {
        var k :| 0 <= k < |rows| - 1 && rows[1..][k] == x;
        assert rows[k + 1] == x;
      }
      InsertSorts(rows[0], Sorted(rows[1..]));
    }
  }

  lemma {:induction false} OfKeepsDistinct(rows: seq<Message>, conversation: nat)
    requires DistinctIds(rows)
    ensures DistinctIds(Of(rows, conversation))
  {
    if rows == [] {
    } else {
      OfKeepsDistinct(rows[1..], conversation);
      var rest := Of(rows[1..], conversation);
      if rows[0].conversation == conversation {
        var r := [rows[0]] + rest;
        forall i, j | 0 <= i < j < |r| ensures r[i].id != r[j].id {
          if i == 0 {
            assert rest[j - 1] in rest;
            var k :| 0 <= k < |rows| - 1 && rows[1..][k] == rest[j - 1];
            assert rows[k + 1] == r[j];
          }
        }
      }
    }
  }

  lemma {:induction false} FromKeepsOrder(sorted: seq<Message>, cursor: Message)
    requires NewestFirst(sorted)
    ensures NewestFirst(From(sorted, cursor))
  {
    if sorted == [] {
    } else {
      FromKeepsOrder(sorted[1..], cursor);
      if !Older(cursor, sorted[0]) {
        forall x | x in From(sorted[1..], cursor) ensures Older(x, sorted[0]) {
          var k :| 0 <= k < |sorted| - 1 && sorted[1..][k] == x;
          assert sorted[k + 1] == x;
        }
        PrependNewest(sorted[0], From(sorted[1..], cursor));
      }
    }
  }

  /** The rows a page is cut from: all of the conversation, or those older than the cursor. */
  predicate Eligible(m: Message, rows: seq<Message>, conversation: nat, before: Option<Message>) {
    m in rows && m.conversation == conversation && (before.Some? ==> Older(m, before.value))
  }

  function Id(before: Option<Message>): Option<nat> {
    if before.Some? then Some(before.value.id) else None
  }

  predicate CursorOf(rows: seq<Message>, conversation: nat, before: Option<Message>) {
    before.Some? ==> before.value in rows && before.value.conversation == conversation
  }

  lemma {:induction false} LookupFinds(rows: seq<Message>, m: Message)
    requires DistinctIds(rows) && m in rows
    ensures Lookup(rows, m.id) == Some(m)
  {
    var x := Lookup(rows, m.id);
    var i :| 0 <= i < |rows| && rows[i] == x.value;
    var j :| 0 <= j < |rows| && rows[j] == m;
  }

  /** Everything eligible, newest first, before the limit is applied. */
  lemma EligibleRows(rows: seq<Message>, conversation: nat, before: Option<Message>) returns (all: seq<Message>)
    requires DistinctIds(rows) && CursorOf(rows, conversation, before)
    ensures NewestFirst(all)
    ensures forall m :: m in all <==> Eligible(m, rows, conversation, before)
    ensures forall n: nat :: FindMessages(rows, conversation, n, Id(before)) == Take(all, n)
  {
    var sorted := Sorted(Of(rows, conversation));
    OfKeepsDistinct(rows, conversation);
    SortedIsNewestFirst(Of(rows, conversation));
    if before.None? {
      all := sorted;
    } else {
      var cursor := before.value;
      LookupFinds(rows, cursor);
      var from := From(sorted, cursor);
      FromKeepsOrder(sorted, cursor);
      assert cursor in from;
      FirstIsCursor(from, cursor);
      all := from[1..];
      forall m | m in all ensures Older(m, cursor) {
        var k :| 0 <= k < |all| && all[k] == m;
        assert from[k + 1] == m;
      }
      forall m | Eligible(m, rows, conversation, before) ensures m in all {
        assert m in from;
        var k :| 0 <= k < |from| && from[k] == m;
        assert k != 0;
        assert all[k - 1] == m;
      }
    }
  }

  /** The cursor row itself heads the rows that are not newer than it. */
  lemma FirstIsCursor(from: seq<Message>, cursor: Message)
    requires NewestFirst(from) && cursor in from && forall x :: x in from ==> !Older(cursor, x)
    ensures from[0] == cursor
  {
    var k :| 0 <= k < |from| && from[k] == cursor;
    if k > 0 {
      assert Older(from[k], from[0]) && from[0] in from;
    }
  }

  /** A page holds the newest eligible rows, oldest first, and more only if the limit cut it. */
  lemma PageIsNextOlder(rows: seq<Message>, conversation: nat, take: int, before: Option<Message>)
    requires DistinctIds(rows) && CursorOf(rows, conversation, before)
    ensures var page := Page(rows, conversation, take, Id(before));
      && OldestFirst(page)
      && |page| <= ClampedTake(take)
      && (forall m :: m in page ==> Eligible(m, rows, conversation, before))
      && (forall m :: Eligible(m, rows, conversation, before) ==>
            m in page || (page != [] && Older(m, page[0]) && |page| == ClampedTake(take)))
  {
    var n := ClampedTake(take);
    var all := EligibleRows(rows, conversation, before);
    var found := FindMessages(rows, conversation, n, Id(before));
    assert found == Take(all, n);
    var page := Page(rows, conversation, take, Id(before));
    forall m ensures m in page <==> m in found { ReversedSame(found, m); }
    forall m | Eligible(m, rows, conversation, before) && m !in page
      ensures page != [] && Older(m, page[0]) && |page| == n
    {
      TakeRest(all, n, m);
      assert page[0] == all[n - 1];
    }
  }

  /** Page sizes from 1 to 100 are as asked for and others are cut to them: a page is that long, or
      holds everything that is older than the cursor. */
  lemma PageSizes(rows: seq<Message>, conversation: nat, take: int, before: Option<Message>)
    requires DistinctIds(rows) && CursorOf(rows, conversation, before)
    ensures take < 1 ==> Page(rows, conversation, take, Id(before)) == Page(rows, conversation, 1, Id(before))
    ensures take > 100 ==> Page(rows, conversation, take, Id(before)) == Page(rows, conversation, 100, Id(before))
    ensures 1 <= take <= 100 ==>
      var page := Page(rows, conversation, take, Id(before));
      |page| <= take && (|page| == take || forall m :: Eligible(m, rows, conversation, before) ==> m in page)
  {
    PageIsNextOlder(rows, conversation, take, before);
  }

  lemma TakeRest(all: seq<Message>, n: nat, m: Message)
    requires NewestFirst(all) && n >= 1 && m in all && m !in Take(all, n)
    ensures n < |all| && Older(m, all[n - 1])
  {
    var k :| 0 <= k < |all| && all[k] == m;
    assert n < |all|;
    assert forall i :: 0 <= i < n ==> all[..n][i] == all[i];
  }

  lemma ReversedSame(rows: seq<Message>, m: Message)
    ensures m in Reversed(rows) <==> m in rows
  {
    var r := Reversed(rows);
    if m in rows {
      var k :| 0 <= k < |rows| && rows[k] == m;
      assert r[|rows| - 1 - k] == m;
    }
  }

  // ---- a reader going backwards ----

  /** The state of the table at each call, and the page size asked for. */
  datatype Call = Call(rows: seq<Message>, take: int)

  /** What is loaded after the calls: each page goes before what is already there, and each call
      but the first asks for what precedes the oldest loaded message. */
  function Loaded(calls: seq<Call>, conversation: nat): seq<Message>
    decreases |calls|, 1
  {
    if calls == [] then []
    else
      var n := |calls| - 1;
      LastPage(calls, conversation) + Loaded(calls[..n], conversation)
  }

  function LastPage(calls: seq<Call>, conversation: nat): seq<Message>
    requires calls != []
    decreases |calls|, 0
  {
    var n := |calls| - 1;
    Page(calls[n].rows, conversation, calls[n].take, Id(Oldest(Loaded(calls[..n], conversation))))
  }

  function Oldest(loaded: seq<Message>): Option<Message> {
    if loaded == [] then None else Some(loaded[0])
  }

  /** Messages are only added between calls, and ids are unique. */
  predicate Growing(calls: seq<Call>) {
    (forall i :: 0 <= i < |calls| ==> DistinctIds(calls[i].rows))
    && forall i, j :: 0 <= i < j < |calls| ==> calls[i].rows <= calls[j].rows
  }

  /** All messages of the conversation at the first call that are not older than what is loaded. */
  ghost predicate Complete(calls: seq<Call>, conversation: nat) {
    var loaded := Loaded(calls, conversation);
    && OldestFirst(loaded)
    && (forall m :: m in loaded ==>
          calls != [] && m in calls[|calls| - 1].rows && m.conversation == conversation)
    && (calls != [] && loaded == [] ==>
          forall m :: m in calls[0].rows ==> m.conversation != conversation)
    && (loaded != [] ==>
          forall m :: m in calls[0].rows && m.conversation == conversation && !Older(m, loaded[0]) ==> m in loaded)
  }

  lemma {:induction false} ReaderMissesNothing(calls: seq<Call>, conversation: nat)
    requires Growing(calls)
    ensures Complete(calls, conversation)
  {
    if calls == [] {
    } else {
      var n := |calls| - 1;
      var before := calls[..n];
      assert Growing(before);
      ReaderMissesNothing(before, conversation);
      NextPageComplete(calls, conversation);
    }
  }

  lemma NextPageComplete(calls: seq<Call>, conversation: nat)
    requires calls != [] && Growing(calls) && Complete(calls[..|calls| - 1], conversation)
    ensures Complete(calls, conversation)
  {
    var n := |calls| - 1;
    var rows, loaded := calls[n].rows, Loaded(calls[..n], conversation);
    var page, cursor := LastPage(calls, conversation), Oldest(loaded);
    if n > 0 {
      assert calls[..n][n - 1] == calls[n - 1] && calls[n - 1].rows <= rows && calls[0].rows <= rows;
      assert calls[..n][0] == calls[0];
    }
    assert CursorOf(rows, conversation, cursor) by {
      if loaded != [] {
        assert loaded[0] in loaded;
      }
    }
    PageIsNextOlder(rows, conversation, calls[n].take, cursor);
    var all := page + loaded;
    assert OldestFirst(all) by { Joined(page, loaded); }
    assert Loaded(calls, conversation) == all;
    forall m | m in calls[0].rows && m.conversation == conversation && all != [] && !Older(m, all[0])
      ensures m in all
    {
      if m !in loaded && (n == 0 || loaded != []) {
        assert loaded != [] && !Older(m, loaded[0]) ==> m in loaded;
        assert Eligible(m, rows, conversation, cursor);
      }
    }
  }

  lemma Joined(page: seq<Message>, loaded: seq<Message>)
    requires OldestFirst(page) && OldestFirst(loaded)
    requires loaded != [] ==> forall m :: m in page ==> Older(m, loaded[0])
    ensures OldestFirst(page + loaded)
  {
    var all := page + loaded;
    forall i, j | 0 <= i < j < |all| ensures Older(all[i], all[j]) {
      if i < |page| <= j {
        assert page[i] in page;
        assert j == |page| || Older(loaded[0], loaded[j - |page|]);
      }
    }
  }

  /** A page shorter than asked for holds everything older than what is loaded. */
  lemma ShortPageCovers(
    rows: seq<Message>, conversation: nat, take: int, loaded: seq<Message>, first: seq<Message>)
    requires DistinctIds(rows) && CursorOf(rows, conversation, Oldest(loaded)) && first <= rows
    requires |Page(rows, conversation, take, Id(Oldest(loaded)))| < ClampedTake(take)
    requires loaded != [] ==>
      forall m :: m in first && m.conversation == conversation && !Older(m, loaded[0]) ==> m in loaded
    ensures forall m :: m in first && m.conversation == conversation ==>
      m in Page(rows, conversation, take, Id(Oldest(loaded))) || m in loaded
  {
    PageIsNextOlder(rows, conversation, take, Oldest(loaded));
    forall m | m in first && m.conversation == conversation && m !in loaded
      ensures m in Page(rows, conversation, take, Id(Oldest(loaded)))
    {
      assert Eligible(m, rows, conversation, Oldest(loaded));
    }
  }

  lemma PrefixGrowing(calls: seq<Call>)
    requires calls != [] && Growing(calls)
    ensures Growing(calls[..|calls| - 1])
    ensures calls[0].rows <= calls[|calls| - 1].rows && DistinctIds(calls[|calls| - 1].rows)
    ensures |calls| > 1 ==>
      calls[..|calls| - 1][0] == calls[0]
      && calls[..|calls| - 1][|calls| - 2].rows <= calls[|calls| - 1].rows
  {
  }

  /** When a call brings back less than it asked for, everything that was there at the first call
      has been loaded, each message once and in order, whatever page sizes were asked for and
      whatever arrived in between. */
  lemma EverythingIsLoadedOnce(calls: seq<Call>, conversation: nat)
    requires calls != [] && Growing(calls)
    requires |LastPage(calls, conversation)| < ClampedTake(calls[|calls| - 1].take)
    ensures OldestFirst(Loaded(calls, conversation))
    ensures forall m :: m in calls[0].rows && m.conversation == conversation ==> m in Loaded(calls, conversation)
  {
    var last := calls[|calls| - 1];
    var prefix := calls[..|calls| - 1];
    var loaded := Loaded(prefix, conversation);
    ReaderMissesNothing(calls, conversation);
    PrefixGrowing(calls);
    ReaderMissesNothing(prefix, conversation);
    assert loaded != [] ==> loaded[0] in loaded;
    ShortPageCovers(last.rows, conversation, last.take, loaded, calls[0].rows);
  }

  lemma {:induction false} DistinctFit(loaded: seq<Message>, rows: seq<Message>)
    requires OldestFirst(loaded) && forall m :: m in loaded ==> m in rows
    ensures |loaded| <= |rows|
  {
    if loaded == [] {
    } else {
      var m := loaded[0];
      assert m in loaded && m in rows;
      var k :| 0 <= k < |rows| && rows[k] == m;
      var others := rows[..k] + rows[k + 1..];
      forall x | x in loaded[1..] ensures x in others {
        var i :| 0 <= i < |loaded| - 1 && loaded[1..][i] == x;
        assert Older(m, loaded[i + 1]);
        assert x in rows;
        var j :| 0 <= j < |rows| && rows[j] == x;
        assert if j < k then others[j] == x else others[j - 1] == x;
      }
      DistinctFit(loaded[1..], others);
    }
  }

  /** Every call so far brought something back. */
  predicate Busy(calls: seq<Call>, conversation: nat) {
    calls == [] || (LastPage(calls, conversation) != [] && Busy(calls[..|calls| - 1], conversation))
  }

  lemma {:induction false} PagesAddUp(calls: seq<Call>, conversation: nat)
    requires Busy(calls, conversation)
    ensures |calls| <= |Loaded(calls, conversation)|
  {
    if calls == [] {
    } else {
      PagesAddUp(calls[..|calls| - 1], conversation);
    }
  }

  /** The messages of the conversation at the first call, and at the last. */
  function First(calls: seq<Call>, conversation: nat): seq<Message>
    requires calls != []
  {
    Of(calls[0].rows, conversation)
  }

  function Last(calls: seq<Call>, conversation: nat): seq<Message>
    requires calls != []
  {
    Of(calls[|calls| - 1].rows, conversation)
  }

  /** Messages that came after the first call and yet are older than one that was there. */
  predicate IsBackdated(m: Message, first: seq<Message>) {
    m !in first && exists x :: x in first && Older(m, x)
  }

  function Backdated(rows: seq<Message>, first: seq<Message>): (r: seq<Message>)
    ensures forall m :: m in r <==> m in rows && IsBackdated(m, first)
  {
    if rows == [] then []
    else (if IsBackdated(rows[0], first) then [rows[0]] else []) + Backdated(rows[1..], first)
  }

  lemma LoadedNonEmpty(calls: seq<Call>, conversation: nat)
    requires calls != [] && Busy(calls, conversation)
    ensures Loaded(calls, conversation) != []
  {
  }

  /** A reader going backwards never loads a message newer than all that were there at the first
      call, however many arrive. */
  lemma {:induction false} LoadedIsOld(calls: seq<Call>, conversation: nat)
    requires calls != [] && Growing(calls) && Busy(calls, conversation)
    ensures forall m :: m in Loaded(calls, conversation) ==>
              m in First(calls, conversation) || IsBackdated(m, First(calls, conversation))
  {
    var n := |calls| - 1;
    var before, first := calls[..n], First(calls, conversation);
    var loaded, page := Loaded(before, conversation), LastPage(calls, conversation);
    PrefixGrowing(calls);
    ReaderMissesNothing(before, conversation);
    assert Loaded(calls, conversation) == page + loaded;
    if n == 0 {
      PageIsNextOlder(calls[n].rows, conversation, calls[n].take, None);
    } else {
      LoadedIsOld(before, conversation);
      LoadedNonEmpty(before, conversation);
      var cursor := loaded[0];
      assert cursor in loaded;
      PageIsNextOlder(calls[n].rows, conversation, calls[n].take, Some(cursor));
      forall m | m in page ensures m in first || IsBackdated(m, first) {
        if cursor !in first {
          var x :| x in first && Older(cursor, x);
          OlderTransitive(m, cursor, x);
        }
      }
    }
  }

  /** No more calls bring something back than there were messages at the first call, and messages
      that arrived since with an older place in the order. */
  lemma CallsAreBounded(calls: seq<Call>, conversation: nat)
    requires calls != [] && Growing(calls) && Busy(calls, conversation)
    ensures |calls| <= |First(calls, conversation)| + |Backdated(Last(calls, conversation), First(calls, conversation))|
  {
    var known := First(calls, conversation) + Backdated(Last(calls, conversation), First(calls, conversation));
    PagesAddUp(calls, conversation);
    ReaderMissesNothing(calls, conversation);
    LoadedIsOld(calls, conversation);
    assert forall m :: m in Loaded(calls, conversation) ==> m in known;
    DistinctFit(Loaded(calls, conversation), known);
  }

  /** Creation times are those of arrival: what arrives in the conversation after the first call is
      newer than what was there. */
  predicate ArrivalsAreNewer(calls: seq<Call>, conversation: nat)
    requires calls != []
  {
    var first := First(calls, conversation);
    forall m, x | m in Last(calls, conversation) && m !in first && x in first :: Older(x, m)
  }

  lemma {:induction false} NothingBackdated(rows: seq<Message>, first: seq<Message>)
    requires forall m, x :: m in rows && m !in first && x in first ==> Older(x, m)
    ensures Backdated(rows, first) == []
  {
    if rows == [] {
    } else {
      assert rows[0] in rows;
      NothingBackdated(rows[1..], first);
    }
  }

  /** Reading ends, and loads only what was there at the first call, however many messages keep
      arriving: no more calls bring something back than there were messages then. */
  lemma ReadingEnds(calls: seq<Call>, conversation: nat)
    requires calls != [] && Growing(calls) && Busy(calls, conversation) && ArrivalsAreNewer(calls, conversation)
    ensures forall m :: m in Loaded(calls, conversation) ==> m in First(calls, conversation)
    ensures |calls| <= |First(calls, conversation)|
  {
    NothingBackdated(Last(calls, conversation), First(calls, conversation));
    CallsAreBounded(calls, conversation);
    LoadedIsOld(calls, conversation);
    ReaderMissesNothing(calls, conversation);
    forall m | m in Loaded(calls, conversation) ensures m in First(calls, conversation) {
      assert m !in Backdated(Last(calls, conversation), First(calls, conversation));
    }
  }
}
