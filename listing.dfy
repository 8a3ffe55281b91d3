/** The two category listings: `getAllCategories` (a name search, a sort
    picked by a switch on `filter`, and a page) and `getUserCategories` (the
    categories a user follows, most events first, and a page). A sort that
    leaves ties, or sorts on a key no document has, may return tied documents
    in any order, so each listing is specified by "some permutation of the
    matching documents that is sorted by the key, cut to the page"; the
    functions here compute one such permutation (the stable one). */
module Listing {
  import opened Wrappers
  import opened Models
  import opened Text
  import Catalog

  type Doc = Catalog.Stored<Category>

  /** The documents of a collection in natural order (increasing id) among
      the ids in `[lo, hi)`. */
  function NaturalOrder(m: map<Id, Category>, lo: nat, hi: nat): (r: seq<Doc>)
    ensures forall d :: d in r ==> d.id in m && d.doc == m[d.id] && lo <= d.id < hi
    ensures forall id :: lo <= id < hi && id in m ==> Catalog.Stored(id, m[id]) in r
    ensures forall i, j :: 0 <= i < j < |r| ==> r[i].id < r[j].id
    decreases hi - lo
  {
    if lo >= hi then []
    else
      var rest := NaturalOrder(m, lo + 1, hi);
      if lo in m then
        var r := [Catalog.Stored(lo, m[lo])] + rest;
        assert forall i :: 1 <= i < |r| ==> r[i] == rest[i - 1];
        r
      else rest
  }

  /** The category collection of a store, in natural order. */
  function Collection(db: Catalog.Db): seq<Doc>
  {
    NaturalOrder(db.categories, 0, db.nextId)
  }

  // ------------------------------------------------------------------ order

  /** The sort orders the two listings use; `Unordered` is a sort whose key
      does not separate any two documents. */
  datatype SortKey = CreatedDesc | CreatedAsc | NameAsc | EventsCountDesc | Unordered

  /** `a` may come before `b` under the key. */
  predicate InOrder(k: SortKey, a: Category, b: Category)
  {
    match k
    case CreatedDesc => a.createdAt >= b.createdAt
    case CreatedAsc => a.createdAt <= b.createdAt
    case NameAsc => LexLe(a.name, b.name)
    case EventsCountDesc => |a.events| >= |b.events|
    case Unordered => true
  }

  lemma InOrderTotal(k: SortKey, a: Category, b: Category)
    ensures InOrder(k, a, b) || InOrder(k, b, a)
  {
    if k == NameAsc {
      LexLeTotal(a.name, b.name);
    }
  }

  lemma InOrderTransitive(k: SortKey, a: Category, b: Category, c: Category)
    requires InOrder(k, a, b) && InOrder(k, b, c)
    ensures InOrder(k, a, c)
  {
    if k == NameAsc {
      LexLeTransitive(a.name, b.name, c.name);
    }
  }

  predicate Sorted(k: SortKey, xs: seq<Doc>)
  {
    forall i, j :: 0 <= i < j < |xs| ==> InOrder(k, xs[i].doc, xs[j].doc)
  }

  /** Inserts `x` before the first element it may precede. */
  function Insert(k: SortKey, x: Doc, xs: seq<Doc>): (r: seq<Doc>)
    requires Sorted(k, xs)
    ensures Sorted(k, r)
    ensures multiset(r) == multiset(xs) + multiset{x}
    ensures forall y :: y in r ==> y == x || y in xs
  {
    if xs == [] then [x]
    else if InOrder(k, x.doc, xs[0].doc) then
      forall j | 0 <= j < |xs| ensures InOrder(k, x.doc, xs[j].doc) {
        if j > 0 {
          InOrderTransitive(k, x.doc, xs[0].doc, xs[j].doc);
        }
      }
      [x] + xs
    else
      InOrderTotal(k, x.doc, xs[0].doc);
      var rest := Insert(k, x, xs[1..]);
      assert xs == [xs[0]] + xs[1..];
      assert forall y :: y in rest ==> InOrder(k, xs[0].doc, y.doc);
      [xs[0]] + rest
  }

  /** A stable insertion sort: sorted by the key and a permutation of the input. */
  function SortBy(k: SortKey, xs: seq<Doc>): (r: seq<Doc>)
    ensures Sorted(k, r)
    ensures multiset(r) == multiset(xs)
  {
    if xs == [] then []
    else
      assert xs == [xs[0]] + xs[1..];
      Insert(k, xs[0], SortBy(k, xs[1..]))
  }

  /** `xs` sorted, under some way of breaking ties. */
  predicate SortedPermutation(k: SortKey, s: seq<Doc>, xs: seq<Doc>)
  {
    Sorted(k, s) && multiset(s) == multiset(xs)
  }

  /** With no key that separates documents, every order is a sorted one. */
  lemma UnorderedAllowsAnyOrder(xs: seq<Doc>, s: seq<Doc>)
    requires multiset(s) == multiset(xs)
    ensures SortedPermutation(Unordered, s, xs)
  {
  }

  /** The switch on `filter` in `getAllCategories`. "popular" sorts on the
      followers array, whose order on arrays is not modelled, and every other
      value falls back to a key that no category has: both leave the order
      open. */
  function SortFor(filter: Option<string>): (k: SortKey)
    ensures filter == Some("recent") ==> k == CreatedDesc
    ensures filter == Some("old") ==> k == CreatedAsc
    ensures filter == Some("name") ==> k == NameAsc
    ensures filter !in {Some("recent"), Some("old"), Some("name")} ==> k == Unordered
  {
    match filter
    case Some("popular") => Unordered
    case Some("recent") => CreatedDesc
    case Some("name") => NameAsc
    case Some("old") => CreatedAsc
    case _ => Unordered
  }

  // ------------------------------------------------------------- pagination

  /** `.skip(skip).limit(limit)` on a list, with `limit` already positive. */
  function Window(xs: seq<Doc>, skip: nat, limit: nat): (r: seq<Doc>)
    ensures |r| == if |xs| <= skip then 0 else Min(limit, |xs| - skip)
    ensures forall i :: 0 <= i < |r| ==> r[i] == xs[skip + i]
  {
    if |xs| <= skip then [] else xs[skip..][..Min(limit, |xs| - skip)]
  }

  function Min(a: nat, b: nat): nat
  {
    if a <= b then a else b
  }

  /** A page of a sorted list is sorted. */
  lemma WindowSorted(k: SortKey, xs: seq<Doc>, skip: nat, limit: nat)
    requires Sorted(k, xs)
    ensures Sorted(k, Window(xs, skip, limit))
  {
  }

  /** Two consecutive pages together make the page of their combined size:
      no document is skipped or shown twice between page `p` and page `p+1`. */
  lemma WindowsTile(xs: seq<Doc>, skip: nat, n: nat, m: nat)
    ensures Window(xs, skip, n) + Window(xs, skip + n, m) == Window(xs, skip, n + m)
  {
    var a := Window(xs, skip, n);
    var b := Window(xs, skip + n, m);
    var c := Window(xs, skip, n + m);
    assert |a| + |b| == |c|;
    forall i | 0 <= i < |c| ensures (a + b)[i] == c[i] {
      if i >= |a| {
        assert (a + b)[i] == b[i - |a|];
      }
    }
  }

  /** What a listing returns. */
  datatype Page = Page(categories: seq<Doc>, isNext: bool)

  /** The page of `matching`, sorted by `k`, that starts at `skip` and holds
      at most `limit` documents; `isNext` compares the total count with
      `skip` plus the number returned. */
  function PageOf(matching: seq<Doc>, k: SortKey, skip: nat, limit: nat): (r: Page)
    ensures IsPage(r.categories, matching, k, skip, limit)
    ensures Sorted(k, r.categories)
    ensures |r.categories| <= limit
    ensures forall d :: d in r.categories ==> d in matching
    ensures r.isNext <==> |matching| > skip + limit
  {
    var s := SortBy(k, matching);
    WindowSorted(k, s, skip, limit);
    var page := Window(s, skip, limit);
    assert forall d :: d in page ==> d in multiset(s);
    Page(page, |matching| > skip + |page|)
  }

  /** `isNext` says the next page of the same size is not empty. */
  lemma IsNextIffNextPageNonEmpty(matching: seq<Doc>, k: SortKey, skip: nat, limit: nat)
    requires limit > 0
    ensures PageOf(matching, k, skip, limit).isNext <==> Window(SortBy(k, matching), skip + limit, limit) != []
  {
    var s := SortBy(k, matching);
    assert |multiset(s)| == |multiset(matching)|;
  }

  /** `page` is what a store may return for `.sort(k).skip(skip).limit(limit)`
      on `matching`: the window of some sorted permutation of it. */
  ghost predicate IsPage(page: seq<Doc>, matching: seq<Doc>, k: SortKey, skip: nat, limit: nat)
  {
    exists s :: SortedPermutation(k, s, matching) && page == Window(s, skip, limit)
  }

  /** `limit(n)` on a `find` cursor: 0 means no limit, and a negative value
      is read as its absolute value. */
  function FindLimit(n: int, total: nat): (r: nat)
    ensures n == 0 ==> r == total
    ensures n != 0 ==> r == if n < 0 then -n else n
  {
    if n == 0 then total else if n < 0 then -n else n
  }

  // ------------------------------------------------------- getAllCategories

  const GetAllCategoriesError := "Error getting all categories"

  /** The destructured parameters of `getAllCategories`. */
  datatype CategoryQuery = CategoryQuery(
    page: Option<int>, pageSize: Option<int>, query: Option<string>, filter: Option<string>)

  /** The name search: an absent or empty query matches every category,
      otherwise the name must contain the query, ignoring case. */
  predicate NameMatches(query: Option<string>, c: Category)
  {
    query.None? || query.value == "" || ContainsIgnoringCase(c.name, query.value)
  }

  /** The documents that match, each as often as in `xs`. */
  function SearchByName(xs: seq<Doc>, query: Option<string>): (r: seq<Doc>)
    ensures forall d :: d in r <==> d in xs && NameMatches(query, d.doc)
    ensures forall d :: multiset(r)[d] == if NameMatches(query, d.doc) then multiset(xs)[d] else 0
    ensures |r| <= |xs|
  {
    if xs == [] then []
    else
      var rest := SearchByName(xs[1..], query);
      assert xs == [xs[0]] + xs[1..];
      assert forall d :: d in xs <==> d == xs[0] || d in xs[1..];
      if NameMatches(query, xs[0].doc) then [xs[0]] + rest else rest
  }

  /** `getAllCategories`: with no parameter object at all, the destructuring
      throws inside the `try` and the action fails; otherwise page 1 and page
      size 10 are the defaults, and a negative skip is refused by the store. */
  function GetAllCategories(db: Catalog.Db, params: Option<CategoryQuery>): (r: Result<Page>)
    ensures params.None? ==> r == Failure(GetAllCategoriesError)
    ensures params.Some? ==>
            var q := params.value;
            var page := OrDefault(q.page, 1);
            var size := OrDefault(q.pageSize, 10);
            var skip := (page - 1) * size;
            var matching := SearchByName(Collection(db), q.query);
            && (r.Failure? <==> skip < 0)
            && (r.Failure? ==> r.error == GetAllCategoriesError)
            && (r.Success? ==>
                  && IsPage(r.value.categories, matching, SortFor(q.filter), skip, FindLimit(size, |matching|))
                  && Sorted(SortFor(q.filter), r.value.categories)
                  && (size != 0 ==> |r.value.categories| <= if size < 0 then -size else size)
                  && (forall d :: d in r.value.categories ==>
                        d.id in db.categories && db.categories[d.id] == d.doc
                        && NameMatches(q.query, d.doc))
                  && (r.value.isNext <==> size != 0 && |matching| > skip + (if size < 0 then -size else size)))
  {
    match params
    case None => Failure(GetAllCategoriesError)
    case Some(q) =>
      var page := OrDefault(q.page, 1);
      var size := OrDefault(q.pageSize, 10);
      var skip := (page - 1) * size;
      if skip < 0 then Failure(GetAllCategoriesError)
      else
        var matching := SearchByName(Collection(db), q.query);
        Success(PageOf(matching, SortFor(q.filter), skip, FindLimit(size, |matching|)))
  }

  /** Called with no argument, `getAllCategories` always fails. */
  lemma MissingParamsFails(db: Catalog.Db)
    ensures GetAllCategories(db, None).Failure?
  {
  }

  /** Called with an empty parameter object, it lists the first ten
      categories of the collection, in an open order. */
  lemma EmptyParamsListsFirstPage(db: Catalog.Db)
    ensures var r := GetAllCategories(db, Some(CategoryQuery(None, None, None, None)));
            && r.Success?
            && IsPage(r.value.categories, Collection(db), Unordered, 0, 10)
            && (r.value.isNext <==> |Collection(db)| > 10)
  {
    EmptyQueryMatchesAll(Collection(db), None);
  }

  /** A page size of 0 means no limit: every matching category is returned,
      each once, and there is no next page. */
  lemma {:induction false} ZeroPageSizeListsAll(db: Catalog.Db, q: CategoryQuery)
    requires q.pageSize == Some(0)
    ensures var r := GetAllCategories(db, Some(q));
            && r.Success?
            && multiset(r.value.categories) == multiset(SearchByName(Collection(db), q.query))
            && !r.value.isNext
  {
    var page := OrDefault(q.page, 1);
    assert (page - 1) * 0 == 0;
    var matching := SearchByName(Collection(db), q.query);
    var k := SortFor(q.filter);
    assert GetAllCategories(db, Some(q)) == Success(PageOf(matching, k, 0, |matching|));
    UnlimitedPageIsEverything(matching, k);
  }

  /** With the "recent" filter the page lists the newest categories first. */
  lemma {:induction false} RecentFilterListsNewestFirst(db: Catalog.Db, q: CategoryQuery)
    requires q.filter == Some("recent")
    requires GetAllCategories(db, Some(q)).Success?
    ensures var cs := GetAllCategories(db, Some(q)).value.categories;
            forall i, j :: 0 <= i < j < |cs| ==> cs[i].doc.createdAt >= cs[j].doc.createdAt
  {
    var cs := GetAllCategories(db, Some(q)).value.categories;
    assert SortFor(q.filter) == CreatedDesc;
    assert Sorted(CreatedDesc, cs);
  }

  /** The page that skips nothing and holds as many as there are is all of them. */
  lemma UnlimitedPageIsEverything(matching: seq<Doc>, k: SortKey)
    ensures multiset(PageOf(matching, k, 0, |matching|).categories) == multiset(matching)
    ensures !PageOf(matching, k, 0, |matching|).isNext
  {
    var s := SortBy(k, matching);
    assert |s| == |matching| by {
      assert |multiset(s)| == |multiset(matching)|;
    }
    assert Window(s, 0, |matching|) == s;
  }

  /** With no search text every category is listed. */
  lemma {:induction false} EmptyQueryMatchesAll(xs: seq<Doc>, query: Option<string>)
    requires query.None? || query == Some("")
    ensures SearchByName(xs, query) == xs
  {
    if xs != [] {
      EmptyQueryMatchesAll(xs[1..], query);
      assert NameMatches(query, xs[0].doc);
      assert xs == [xs[0]] + xs[1..];
    }
  }

  // ------------------------------------------------------ getUserCategories

  const GetUserCategoriesError := "Error fetching user categories"

  /** The categories `user` follows, each as often as in `xs`. */
  function FollowedBy(xs: seq<Doc>, user: Id): (r: seq<Doc>)
    ensures forall d :: d in r <==> d in xs && user in d.doc.followers
    ensures forall d :: multiset(r)[d] == if user in d.doc.followers then multiset(xs)[d] else 0
    ensures |r| <= |xs|
  {
    if xs == [] then []
    else
      var rest := FollowedBy(xs[1..], user);
      assert xs == [xs[0]] + xs[1..];
      assert forall d :: d in xs <==> d == xs[0] || d in xs[1..];
      if user in xs[0].doc.followers then [xs[0]] + rest else rest
  }

  /** `getUserCategories`: the categories the user follows, most events
      first, one page of them; defaults page 1 and page size 10 when absent.
      The aggregation refuses a negative `$skip` and a `$limit` that is not
      positive. */
  function GetUserCategories(db: Catalog.Db, user: Id, page: Option<int>, pageSize: Option<int>): (r: Result<Page>)
    ensures var p := OrDefault(page, 1);
            var size := OrDefault(pageSize, 10);
            var skip := (p - 1) * size;
            var followed := FollowedBy(Collection(db), user);
            && (r.Failure? <==> skip < 0 || size <= 0)
            && (r.Failure? ==> r.error == GetUserCategoriesError)
            && (r.Success? ==>
                  && IsPage(r.value.categories, followed, EventsCountDesc, skip, size)
                  && |r.value.categories| <= size
                  && Sorted(EventsCountDesc, r.value.categories)
                  && (forall d :: d in r.value.categories ==>
                        d.id in db.categories && db.categories[d.id] == d.doc && user in d.doc.followers)
                  && (r.value.isNext <==> |followed| > skip + size))
  {
    var p := OrDefault(page, 1);
    var size := OrDefault(pageSize, 10);
    var skip := (p - 1) * size;
    if skip < 0 || size <= 0 then Failure(GetUserCategoriesError)
    else
      var followed := FollowedBy(Collection(db), user);
      Success(PageOf(followed, EventsCountDesc, skip, size))
  }
}
