/** Listing videos page by page, newest first, each page starting below the last key of the page before. */
module Paging {
  import opened Wrappers
  import opened Cursor

  datatype Video = Video(user: nat, project: Option<nat>, deleting: bool, createdAt: int)

  predicate Newer(a: Key, b: Key) {
    a.createdAt > b.createdAt || (a.createdAt == b.createdAt && a.id > b.id)
  }

  /** The keys of the videos that a user's list shows. */
  function KeysFor(videos: map<nat, Video>, user: nat, project: Option<nat>): set<Key> {
    set id | id in videos && videos[id].user == user && !videos[id].deleting
      && (project.Some? ==> videos[id].project == project)
      :: Key(videos[id].createdAt, id)
  }

  function Below(keys: set<Key>, cursor: Option<Key>): set<Key> {
    set k | k in keys && (cursor.Some? ==> Newer(cursor.value, k))
  }

  lemma SomeNewest(keys: set<Key>) returns (k: Key)
    requires keys != {}
    ensures k in keys && forall o <- keys :: o == k || Newer(k, o)
  {
    var x :| x in keys;
    if keys == {x} {
      k := x;
    } else {
      var y := SomeNewest(keys - {x});
      assert forall o <- keys :: o == x || o in keys - {x};
      k := if Newer(x, y) then x else y;
    }
  }

  function Newest(keys: set<Key>): (k: Key)
    requires keys != {}
    ensures k in keys && forall o <- keys :: o == k || Newer(k, o)
  {
    assert exists k :: k in keys && forall o <- keys :: o == k || Newer(k, o) by { var k := SomeNewest(keys); }
    var k :| k in keys && forall o <- keys :: o == k || Newer(k, o);
    k
  }

  /** The first `n` keys in descending order. */
  function Top(keys: set<Key>, n: nat): seq<Key> {
    if n == 0 || keys == {} then [] else [Newest(keys)] + Top(keys - {Newest(keys)}, n - 1)
  }

  datatype Page = Page(items: seq<Key>, next: Option<Key>)

  function EffectiveLimit(limit: int): nat {
    var capped := if limit < 50 then limit else 50;
    if capped > 1 then capped else 1
  }

  function ListPage(keys: set<Key>, cursor: Option<Key>, limit: int): Page {
    var n := EffectiveLimit(limit);
    var rows := Top(Below(keys, cursor), n + 1);
    var hasMore := |rows| > n;
    var items := if hasMore then rows[..n] else rows;
    Page(items, if hasMore && items != [] then Some(items[|items| - 1]) else None)
  }

  /** A request carries the last key as a token. */
  function ListForUser(
    videos: map<nat, Video>, user: nat, project: Option<nat>, limit: int, token: Option<string>, json: Json
  ): Option<(seq<Key>, Option<string>)> {
    var cursor := if token.Some? then DecodeCursor(token.value, json) else None;
    if token.Some? && cursor.None? then None
    else
      var page := ListPage(KeysFor(videos, user, project), cursor, limit);
      Some((page.items, if page.next.Some? then Some(EncodeCursor(page.next.value, json)) else None))
  }

  // ---- one page ----

  ghost predicate Descending(items: seq<Key>) {
    forall i, j :: 0 <= i < j < |items| ==> Newer(items[i], items[j])
  }

  lemma TopStep(keys: set<Key>, first: Key, rest: seq<Key>, n: nat)
    requires n > 0 && first in keys && forall o <- keys :: o == first || Newer(first, o)
    requires Descending(rest) && |rest| == (if |keys| - 1 < n - 1 then |keys| - 1 else n - 1)
    requires forall k <- rest :: k in keys - {first}
    requires forall k <- keys - {first} :: k in rest || (forall i :: 0 <= i < |rest| ==> Newer(rest[i], k))
    ensures var r := [first] + rest;
      && Descending(r) && |r| == (if |keys| < n then |keys| else n)
      && (forall k <- r :: k in keys)
      && (forall k <- keys :: k in r || (forall i :: 0 <= i < |r| ==> Newer(r[i], k)))
  {
    var r := [first] + rest;
    forall i | 1 <= i < |r| ensures r[i] in keys && Newer(first, r[i]) {
      assert r[i] == rest[i - 1] && rest[i - 1] in rest;
    }
    forall k <- keys | k !in r, i | 0 <= i < |r| ensures Newer(r[i], k) {
      assert k in keys - {first};
      if i > 0 { assert r[i] == rest[i - 1]; }
    }
  }

  lemma {:induction false} TopIsTop(keys: set<Key>, n: nat)
    ensures var r := Top(keys, n);
      && Descending(r) && |r| == (if |keys| < n then |keys| else n)
      && (forall k <- r :: k in keys)
      && (forall k <- keys :: k in r || (forall i :: 0 <= i < |r| ==> Newer(r[i], k)))
    decreases n
  {
    if n != 0 && keys != {} {
      var first := Newest(keys);
      var rest := Top(keys - {first}, n - 1);
      hide Top, Newest;
      TopIsTop(keys - {first}, n - 1);
      TopStep(keys, first, rest, n);
    }
  }

  /** A page holds the newest keys below the cursor; what it leaves out lies below the next cursor. */
  lemma PageIsTop(keys: set<Key>, cursor: Option<Key>, limit: int)
    ensures var page := ListPage(keys, cursor, limit);
      && Descending(page.items) && |page.items| <= EffectiveLimit(limit) <= 50
      && (limit >= 1 ==> |page.items| <= limit) && (Below(keys, cursor) != {} ==> page.items != [])
      && (forall k <- page.items :: k in Below(keys, cursor))
      && (forall k <- Below(keys, cursor) :: k in page.items || (page.next.Some? && Newer(page.next.value, k)))
      && (page.next.Some? ==>
           |page.items| == EffectiveLimit(limit) && page.next.value == page.items[|page.items| - 1]
           && Below(keys, page.next) != {})
  {
    var n, below := EffectiveLimit(limit), Below(keys, cursor);
    var rows, page := Top(below, n + 1), ListPage(keys, cursor, limit);
    TopIsTop(below, n + 1);
    if |rows| > n {
      assert rows[n] in rows && rows[n] in below;
      assert Newer(rows[n - 1], rows[n]) && rows[n] in Below(keys, page.next);
      forall k <- below | k !in page.items ensures Newer(rows[n - 1], k) {
        if k in rows { var i :| 0 <= i < |rows| && rows[i] == k; }
      }
    } else {
      forall k <- below ensures k in rows {
        if k !in rows { AllTaken(below, rows, k); }
      }
    }
  }

  /** The list shows only the user's videos that are not being deleted, of the project asked for, if any, each under
      its creation time and id; a video like that which is missing lies beyond the page or before the cursor. */
  lemma ListShows(
    videos: map<nat, Video>, user: nat, project: Option<nat>, limit: int, token: Option<string>, json: Json)
    requires ListForUser(videos, user, project, limit, token, json).Some?
    ensures var items := ListForUser(videos, user, project, limit, token, json).value.0;
      && (forall k <- items :: (
           && k.id in videos && Shown(videos[k.id], user, project) && k.createdAt == videos[k.id].createdAt
           && (token.Some? ==> Newer(DecodeCursor(token.value, json).value, k))))
      && (forall i, j :: 0 <= i < j < |items| ==>
           || items[i].createdAt > items[j].createdAt
           || (items[i].createdAt == items[j].createdAt && items[i].id > items[j].id))
      && forall id <- videos.Keys | Shown(videos[id], user, project) ::
           var k := Key(videos[id].createdAt, id);
           || k in items || (token.Some? && !Newer(DecodeCursor(token.value, json).value, k))
           || (|items| == (if limit > 50 then 50 else if limit < 1 then 1 else limit) && Newer(items[|items| - 1], k))
  {
    hide ListPage, EncodeCursor, DecodeCursor;
    var cursor := if token.Some? then DecodeCursor(token.value, json) else None;
    PageIsTop(KeysFor(videos, user, project), cursor, limit);
    assert forall id <- videos.Keys | Shown(videos[id], user, project) ::
      Key(videos[id].createdAt, id) in KeysFor(videos, user, project);
  }

  /** A list is refused exactly for a token that does not decode. */
  lemma RefusedIff(
    videos: map<nat, Video>, user: nat, project: Option<nat>, limit: int, token: Option<string>, json: Json)
    ensures ListForUser(videos, user, project, limit, token, json).None?
      <==> token.Some? && DecodeCursor(token.value, json).None?
  {
    hide ListPage, DecodeCursor, EncodeCursor;
  }

  ghost predicate Shown(v: Video, user: nat, project: Option<nat>) {
    v.user == user && !v.deleting && (project == None || v.project == project)
  }

  function ToSet(items: seq<Key>): set<Key> { set k | k in items }

  lemma DescendingSize(items: seq<Key>)
    requires Descending(items)
    ensures |ToSet(items)| == |items|
  {
    if items != [] {
      var n := |items| - 1;
      DescendingSize(items[..n]);
      assert ToSet(items) == ToSet(items[..n]) + {items[n]};
    }
  }

  /** As many keys as there are leave none out. */
  lemma AllTaken(keys: set<Key>, items: seq<Key>, k: Key)
    requires Descending(items) && |items| == |keys| && k in keys && forall x <- items :: x in keys
    ensures k in items
  {
    DescendingSize(items);
    assert keys == ToSet(items) + (keys - ToSet(items));
  }

  // ---- following the cursors while the table changes ----

  /** The pages of a traversal; `tables` are the keys shown at each request. */
  function Traverse(tables: seq<set<Key>>, cursor: Option<Key>, limit: int): (pages: seq<Page>)
    ensures |pages| <= |tables|
  {
    if tables == [] then []
    else
      var page := ListPage(tables[0], cursor, limit);
      [page] + (if page.next.None? then [] else Traverse(tables[1..], page.next, limit))
  }

  function Items(pages: seq<Page>): seq<Key> {
    if pages == [] then [] else pages[0].items + Items(pages[1..])
  }

  predicate Completed(pages: seq<Page>) {
    pages != [] && pages[|pages| - 1].next.None?
  }

  lemma DescendingConcat(a: seq<Key>, b: seq<Key>)
    requires Descending(a) && Descending(b)
    requires a != [] ==> forall i :: 0 <= i < |b| ==> Newer(a[|a| - 1], b[i])
    ensures Descending(a + b)
  {
  }

  /** However videos come and go between the requests, the items descend: none is returned twice. */
  lemma {:induction false} NoItemTwice(tables: seq<set<Key>>, cursor: Option<Key>, limit: int)
    ensures var items := Items(Traverse(tables, cursor, limit));
      && Descending(items)
      && (forall i :: 0 <= i < |items| && cursor.Some? ==> Newer(cursor.value, items[i]))
    decreases |tables|
  {
    hide ListPage, Newer;
    if tables != [] {
      var page, pages := ListPage(tables[0], cursor, limit), Traverse(tables, cursor, limit);
      PageIsTop(tables[0], cursor, limit);
      forall i | 0 <= i < |page.items| && cursor.Some? ensures Newer(cursor.value, page.items[i]) {
        assert page.items[i] in page.items;
      }
      if page.next.Some? {
        var rest := Traverse(tables[1..], page.next, limit);
        NoItemTwice(tables[1..], page.next, limit);
        DescendingConcat(page.items, Items(rest));
        assert pages[1..] == rest && Items(pages) == page.items + Items(rest);
        assert page.next.value in page.items;
        if cursor.Some? { NewerTransitive(cursor.value, page.next.value, Items(rest)); }
      } else {
        assert pages[1..] == [] && Items(pages) == page.items + [];
      }
    }
  }

  lemma NewerTransitive(a: Key, b: Key, items: seq<Key>)
    requires Newer(a, b) && forall i :: 0 <= i < |items| ==> Newer(b, items[i])
    ensures forall i :: 0 <= i < |items| ==> Newer(a, items[i])
  {
  }

  /** A completed traversal returns every video that was listed throughout. */
  lemma {:induction false} NothingSkipped(tables: seq<set<Key>>, cursor: Option<Key>, limit: int, k: Key)
    requires Completed(Traverse(tables, cursor, limit))
    requires forall i :: 0 <= i < |Traverse(tables, cursor, limit)| ==> k in tables[i]
    requires cursor.Some? ==> Newer(cursor.value, k)
    ensures k in Items(Traverse(tables, cursor, limit))
    decreases |tables|
  {
    var page, pages := ListPage(tables[0], cursor, limit), Traverse(tables, cursor, limit);
    PageIsTop(tables[0], cursor, limit);
    assert k in Below(tables[0], cursor);
    if k !in page.items {
      var rest := Traverse(tables[1..], page.next, limit);
      assert pages[1..] == rest;
      forall i | 0 <= i < |rest| ensures k in tables[1..][i] {
        assert tables[1..][i] == tables[i + 1];
      }
      assert pages[|pages| - 1] == (if rest == [] then page else rest[|rest| - 1]);
      NothingSkipped(tables[1..], page.next, limit, k);
    }
  }

  // ---- a table that does not change ----

  function Repeat(keys: set<Key>, n: nat): seq<set<Key>> { seq(n, _ => keys) }

  lemma FewerBelow(keys: set<Key>, cursor: Option<Key>, last: Key)
    requires last in Below(keys, cursor)
    ensures |Below(keys, Some(last))| < |Below(keys, cursor)|
  {
    assert Below(keys, Some(last)) <= Below(keys, cursor) - {last};
    SubsetSize(Below(keys, Some(last)), Below(keys, cursor) - {last});
  }

  lemma {:induction false} TraversalEnds(keys: set<Key>, cursor: Option<Key>, limit: int, n: nat)
    requires n > |Below(keys, cursor)|
    ensures Completed(Traverse(Repeat(keys, n), cursor, limit))
    ensures forall k <- Items(Traverse(Repeat(keys, n), cursor, limit)) :: k in keys
    decreases n
  {
    hide ListPage;
    var page, pages := ListPage(keys, cursor, limit), Traverse(Repeat(keys, n), cursor, limit);
    PageIsTop(keys, cursor, limit);
    assert Repeat(keys, n)[1..] == Repeat(keys, n - 1);
    if page.next.Some? {
      FewerBelow(keys, cursor, page.next.value);
      TraversalEnds(keys, page.next, limit, n - 1);
      var rest := Traverse(Repeat(keys, n - 1), page.next, limit);
      assert pages == [page] + rest && pages[1..] == rest;
      assert pages[|pages| - 1] == rest[|rest| - 1];
      assert Items(pages) == page.items + Items(rest);
    } else {
      assert pages[1..] == [] && Items(pages) == page.items + [];
    }
  }

  lemma {:induction false} DescendingIsUnique(a: seq<Key>, b: seq<Key>)
    requires Descending(a) && Descending(b) && ToSet(a) == ToSet(b)
    ensures a == b
  {
    DescendingSize(a);
    DescendingSize(b);
    if a != [] {
      assert a[0] in ToSet(b) && b[0] in ToSet(a);
      assert a[0] == b[0];
      assert ToSet(a[1..]) == ToSet(a) - {a[0]} && ToSet(b[1..]) == ToSet(b) - {b[0]};
      DescendingIsUnique(a[1..], b[1..]);
    }
  }

  /** On a table that does not change the pages come to an end and add up to the whole sorted list. */
  lemma PagesAddUp(keys: set<Key>, limit: int, n: nat)
    requires n > |keys|
    ensures Completed(Traverse(Repeat(keys, n), None, limit))
    ensures Items(Traverse(Repeat(keys, n), None, limit)) == Top(keys, |keys|)
  {
    var pages := Traverse(Repeat(keys, n), None, limit);
    assert Below(keys, None) == keys;
    TraversalEnds(keys, None, limit, n);
    NoItemTwice(Repeat(keys, n), None, limit);
    forall k <- keys ensures k in Items(pages) {
      NothingSkipped(Repeat(keys, n), None, limit, k);
    }
    TopIsTop(keys, |keys|);
    forall k <- keys ensures k in Top(keys, |keys|) { AllTaken(keys, Top(keys, |keys|), k); }
    assert ToSet(Items(pages)) == keys && ToSet(Top(keys, |keys|)) == keys;
    DescendingIsUnique(Items(pages), Top(keys, |keys|));
  }

  /** A token names the key it was made from, so a request with it goes on where the page ended. */
  lemma TokenResumes(videos: map<nat, Video>, user: nat, project: Option<nat>, limit: int, key: Key, json: Json)
    requires Faithful(json)
    ensures var page := ListPage(KeysFor(videos, user, project), Some(key), limit);
      var r := ListForUser(videos, user, project, limit, Some(EncodeCursor(key, json)), json);
      && r.Some? && r.value.0 == page.items
      && (r.value.1.Some? <==> page.next.Some?)
      && (page.next.Some? ==> DecodeCursor(r.value.1.value, json) == page.next)
  {
    var page := ListPage(KeysFor(videos, user, project), Some(key), limit);
    CursorRoundTrip(key, json);
    if page.next.Some? { CursorRoundTrip(page.next.value, json); }
  }
}
