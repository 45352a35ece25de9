/** `GET /products/search`: optional filters applied by the store, then an
    in-memory stable sort of the retrieved rows on a key picked from a fixed set. */
module ProductSearch {
  import opened Common
  import opened Text
  import opened Domain

  /** The query-string parameters; an absent (null) parameter is None. */
  datatype SearchQuery = SearchQuery(
    name: Option<string>,
    minPrice: Option<Money>,
    maxPrice: Option<Money>,
    isOnSale: Option<bool>,
    inStock: Option<bool>,
    sortBy: string,
    sortOrder: string)

  /** The query that the defaults of the action describe: no filter, sorted by name ascending. */
  function DefaultQuery(): SearchQuery {
    SearchQuery(None, None, None, None, None, "name", "asc")
  }

  /** The name filter: skipped for a null or blank name, otherwise a
      case-insensitive substring test. */
  predicate NameMatches(name: Option<string>, p: Product) {
    IsNullOrWhiteSpace(name) || Contains(ToLower(p.Name), ToLower(name.value))
  }

  /** The conjunction of every filter the query supplies. */
  predicate Matches(q: SearchQuery, p: Product) {
    && NameMatches(q.name, p)
    && (q.minPrice.Some? ==> p.Price >= q.minPrice.value)
    && (q.maxPrice.Some? ==> p.Price <= q.maxPrice.value)
    && (q.isOnSale.Some? ==> p.IsOnSale == q.isOnSale.value)
    && (q.inStock == Some(true) ==> p.CurrentStock > 0)
  }

  /** The rows the filtered query retrieves, in table order. */
  function Where(rows: seq<Product>, q: SearchQuery): (r: seq<Product>)
    ensures forall i :: 0 <= i < |r| ==> Matches(q, r[i])
    ensures forall p :: multiset(r)[p] == if Matches(q, p) then multiset(rows)[p] else 0
  {
    if rows == [] then []
    else
      assert rows == [rows[0]] + rows[1..];
      (if Matches(q, rows[0]) then [rows[0]] else []) + Where(rows[1..], q)
  }

  /** A query that supplies no effective filter keeps every row, in order. */
  lemma {:induction false} UnfilteredQueryKeepsAll(rows: seq<Product>, q: SearchQuery)
    requires IsNullOrWhiteSpace(q.name)
    requires q.minPrice.None? && q.maxPrice.None? && q.isOnSale.None?
    requires q.inStock != Some(true)
    ensures Where(rows, q) == rows
  {
    if rows != [] {
      assert Matches(q, rows[0]);
      UnfilteredQueryKeepsAll(rows[1..], q);
    }
  }

  /** Filtering keeps table order: the rows retrieved from a concatenation are
      those retrieved from its first part followed by those from its second. */
  lemma {:induction false} WhereAppend(a: seq<Product>, b: seq<Product>, q: SearchQuery)
    ensures Where(a + b, q) == Where(a, q) + Where(b, q)
    decreases |a|
  {
    if a == [] {
      assert a + b == b;
    } else {
      assert (a + b)[0] == a[0];
      assert (a + b)[1..] == a[1..] + b;
      WhereAppend(a[1..], b, q);
    }
  }

  datatype SortKey = ByName | ByPrice | ByCreated | ByStock

  /** The `switch` on `sortBy.ToLower()`; anything unrecognised sorts by name. */
  function SortKeyOf(sortBy: string): (k: SortKey)
    ensures k == ByPrice <==> ToLower(sortBy) == "price"
    ensures k == ByCreated <==> ToLower(sortBy) == "created"
    ensures k == ByStock <==> ToLower(sortBy) == "stock"
    ensures k == ByName <==> ToLower(sortBy) !in {"price", "created", "stock"}
  {
    var s := ToLower(sortBy);
    if s == "price" then ByPrice
    else if s == "created" then ByCreated
    else if s == "stock" then ByStock
    else ByName
  }

  /** Descending exactly when `sortOrder` is "desc" ignoring case. */
  predicate IsDescending(sortOrder: string) {
    EqualsIgnoreCase(sortOrder, "desc")
  }

  /** The key comparison: `a`'s key is at most `b`'s. */
  predicate KeyLe(k: SortKey, a: Product, b: Product) {
    match k
    case ByName => StrLe(a.Name, b.Name)
    case ByPrice => a.Price <= b.Price
    case ByCreated => a.CreatedDate <= b.CreatedDate
    case ByStock => a.CurrentStock <= b.CurrentStock
  }

  /** Equal keys: the comparer reports a tie. */
  predicate SameKey(k: SortKey, a: Product, b: Product) {
    KeyLe(k, a, b) && KeyLe(k, b, a)
  }

  /** `a` may stand before `b` in the requested direction. */
  predicate Precedes(k: SortKey, desc: bool, a: Product, b: Product) {
    if desc then KeyLe(k, b, a) else KeyLe(k, a, b)
  }

  lemma KeyLeTotal(k: SortKey, a: Product, b: Product)
    ensures KeyLe(k, a, b) || KeyLe(k, b, a)
  {
    if k == ByName {
      StrLeTotal(a.Name, b.Name);
    }
  }

  lemma KeyLeReflexive(k: SortKey, a: Product)
    ensures KeyLe(k, a, a)
  {
    if k == ByName {
      StrLeReflexive(a.Name);
    }
  }

  lemma KeyLeTransitive(k: SortKey, a: Product, b: Product, c: Product)
    requires KeyLe(k, a, b) && KeyLe(k, b, c)
    ensures KeyLe(k, a, c)
  {
    if k == ByName {
      StrLeTransitive(a.Name, b.Name, c.Name);
    }
  }

  ghost predicate Ordered(k: SortKey, desc: bool, s: seq<Product>) {
    forall i, j :: 0 <= i < j < |s| ==> Precedes(k, desc, s[i], s[j])
  }

  /** The elements of `s` that tie with `e` on key `k`, in their order in `s`. */
  function Ties(k: SortKey, s: seq<Product>, e: Product): seq<Product> {
    if s == [] then []
    else (if SameKey(k, s[0], e) then [s[0]] else []) + Ties(k, s[1..], e)
  }

  /** Places `x` before the first element it may precede: after every element
      whose key comes strictly first, and before all its ties. */
  function Insert(k: SortKey, desc: bool, x: Product, s: seq<Product>): seq<Product> {
    if s == [] || Precedes(k, desc, x, s[0]) then [x] + s
    else [s[0]] + Insert(k, desc, x, s[1..])
  }

  lemma {:induction false} InsertPermutes(k: SortKey, desc: bool, x: Product, s: seq<Product>)
    ensures multiset(Insert(k, desc, x, s)) == multiset(s) + multiset{x}
  {
    if s != [] && !Precedes(k, desc, x, s[0]) {
      InsertPermutes(k, desc, x, s[1..]);
      assert s == [s[0]] + s[1..];
    }
  }

  lemma {:induction false} InsertOrdered(k: SortKey, desc: bool, x: Product, s: seq<Product>)
    requires Ordered(k, desc, s)
    ensures Ordered(k, desc, Insert(k, desc, x, s))
  {
    var r := Insert(k, desc, x, s);
    if s == [] {
    } else if Precedes(k, desc, x, s[0]) {
      forall j | 1 <= j < |r|
        ensures Precedes(k, desc, x, r[j])
      {
        assert r[j] == s[j - 1];
        if j > 1 {
          assert Precedes(k, desc, s[0], s[j - 1]);
          if desc { KeyLeTransitive(k, r[j], s[0], x); } else { KeyLeTransitive(k, x, s[0], r[j]); }
        }
      }
    } else {
      var t := Insert(k, desc, x, s[1..]);
      InsertOrdered(k, desc, x, s[1..]);
      InsertPermutes(k, desc, x, s[1..]);
      KeyLeTotal(k, x, s[0]);
      forall j | 0 <= j < |t|
        ensures Precedes(k, desc, s[0], t[j])
      {
        assert t[j] in multiset(t);
        assert t[j] in multiset(s[1..]) || t[j] == x;
        if t[j] != x {
          var m :| 0 <= m < |s[1..]| && s[1..][m] == t[j];
          assert s[m + 1] == t[j];
        }
      }
      assert r == [s[0]] + t;
    }
  }

  /** Insertion keeps ties in order: `x` lands ahead of every element it ties
      with, since it is placed before the first element it may precede. */
  lemma {:induction false} InsertKeepsTies(k: SortKey, desc: bool, x: Product, s: seq<Product>, e: Product)
    ensures Ties(k, Insert(k, desc, x, s), e) == Ties(k, [x] + s, e)
  {
    if s != [] && !Precedes(k, desc, x, s[0]) {
      InsertKeepsTies(k, desc, x, s[1..], e);
      var t := Insert(k, desc, x, s[1..]);
      assert ([s[0]] + t)[1..] == t;
      assert ([x] + s)[1..] == s;
      assert ([x] + s[1..])[1..] == s[1..];
      if SameKey(k, x, e) && SameKey(k, s[0], e) {
        KeyLeTransitive(k, x, e, s[0]);
        KeyLeTransitive(k, s[0], e, x);
        assert false;
      }
    }
  }

  /** LINQ's `OrderBy` / `OrderByDescending`: a stable sort. */
  function Sort(k: SortKey, desc: bool, s: seq<Product>): (r: seq<Product>)
    ensures Ordered(k, desc, r)
    ensures multiset(r) == multiset(s)
    ensures forall e :: Ties(k, r, e) == Ties(k, s, e)
  {
    if s == [] then []
    else
      var t := Sort(k, desc, s[1..]);
      InsertOrdered(k, desc, s[0], t);
      InsertPermutes(k, desc, s[0], t);
      assert s == [s[0]] + s[1..];
      assert forall e :: Ties(k, Insert(k, desc, s[0], t), e) == Ties(k, s, e) by {
        forall e ensures Ties(k, Insert(k, desc, s[0], t), e) == Ties(k, s, e) {
          InsertKeepsTies(k, desc, s[0], t, e);
          assert ([s[0]] + t)[1..] == t;
        }
      }
      Insert(k, desc, s[0], t)
  }

  /** Every element of `s` that ties with `e` is among the ties. */
  lemma {:induction false} InTies(k: SortKey, s: seq<Product>, x: Product, e: Product)
    requires x in s && SameKey(k, x, e)
    ensures x in Ties(k, s, e)
    decreases |s|
  {
    if s[0] != x {
      InTies(k, s[1..], x, e);
    }
  }

  /** The ties of `e` are elements of `s` that tie with `e`. */
  lemma {:induction false} TiesAreTies(k: SortKey, s: seq<Product>, e: Product, y: Product)
    requires y in Ties(k, s, e)
    ensures y in s && SameKey(k, y, e)
    decreases |s|
  {
    if !(y == s[0] && SameKey(k, s[0], e)) {
      TiesAreTies(k, s[1..], e, y);
    }
  }

  /** Ordering plus the order of every group of ties fixes a sequence: two
      ordered sequences whose ties agree are equal. */
  lemma {:induction false} OrderedTiesDetermine(k: SortKey, desc: bool, a: seq<Product>, b: seq<Product>)
    requires Ordered(k, desc, a) && Ordered(k, desc, b)
    requires forall e :: Ties(k, a, e) == Ties(k, b, e)
    ensures a == b
    decreases |a| + |b|
  {
    if a == [] && b == [] {
    } else if a == [] || b == [] {
      var x := if a == [] then b[0] else a[0];
      KeyLeReflexive(k, x);
      if a == [] { InTies(k, b, x, x); } else { InTies(k, a, x, x); }
      assert false;
    } else {
      var x, y := a[0], b[0];
      KeyLeReflexive(k, x);
      KeyLeReflexive(k, y);
      InTies(k, a, x, x);
      TiesAreTies(k, b, x, x);
      InTies(k, b, y, y);
      TiesAreTies(k, a, y, y);
      assert Precedes(k, desc, y, x) by {
        var j :| 0 <= j < |b| && b[j] == x;
        if j == 0 { KeyLeReflexive(k, x); }
      }
      assert Precedes(k, desc, x, y) by {
        var j :| 0 <= j < |a| && a[j] == y;
        if j == 0 { KeyLeReflexive(k, y); }
      }
      assert SameKey(k, y, x);
      assert Ties(k, a, x)[0] == x;
      assert Ties(k, b, x)[0] == y;
      forall e
        ensures Ties(k, a[1..], e) == Ties(k, b[1..], e)
      {
        var head := if SameKey(k, x, e) then [x] else [];
        assert Ties(k, a, e) == head + Ties(k, a[1..], e);
        assert Ties(k, b, e) == head + Ties(k, b[1..], e);
        assert Ties(k, a[1..], e) == Ties(k, a, e)[|head|..];
        assert Ties(k, b[1..], e) == Ties(k, b, e)[|head|..];
      }
      OrderedTiesDetermine(k, desc, a[1..], b[1..]);
      assert a == [x] + a[1..];
      assert b == [y] + b[1..];
    }
  }

  /** `Sort` is the one stable sort: any ordering of `s` that is sorted and
      keeps every group of ties in the order `s` has them is `Sort(s)`. */
  lemma StableSortIsUnique(k: SortKey, desc: bool, s: seq<Product>, r: seq<Product>)
    requires Ordered(k, desc, r)
    requires forall e :: Ties(k, r, e) == Ties(k, s, e)
    ensures r == Sort(k, desc, s)
  {
    OrderedTiesDetermine(k, desc, r, Sort(k, desc, s));
  }

  /** The whole search: filter, retrieve, then sort on the selected key. */
  function Search(rows: seq<Product>, q: SearchQuery): (r: seq<Product>)
    ensures forall i :: 0 <= i < |r| ==> r[i] in rows && Matches(q, r[i])
    ensures multiset(r) == multiset(Where(rows, q))
    ensures Ordered(SortKeyOf(q.sortBy), IsDescending(q.sortOrder), r)
    ensures forall e :: Ties(SortKeyOf(q.sortBy), r, e) == Ties(SortKeyOf(q.sortBy), Where(rows, q), e)
  {
    var found := Where(rows, q);
    var r := Sort(SortKeyOf(q.sortBy), IsDescending(q.sortOrder), found);
    assert forall i :: 0 <= i < |r| ==> r[i] in rows && Matches(q, r[i]) by {
      forall i | 0 <= i < |r| ensures r[i] in rows && Matches(q, r[i]) {
        assert r[i] in multiset(r);
        assert r[i] in multiset(found);
        var m :| 0 <= m < |found| && found[m] == r[i];
      }
    }
    r
  }

  /** A price-window query sorted by descending price returns only products
      priced inside the window, most expensive first. */
  lemma PriceWindowDescending(rows: seq<Product>, q: SearchQuery, lo: Money, hi: Money)
    requires q.minPrice == Some(lo) && q.maxPrice == Some(hi)
    requires q.sortBy == "price" && q.sortOrder == "desc"
    ensures var r := Search(rows, q);
      && (forall i :: 0 <= i < |r| ==> lo <= r[i].Price <= hi)
      && (forall i, j :: 0 <= i < j < |r| ==> r[i].Price >= r[j].Price)
  {
    assert ToLower("price") == "price";
    assert SortKeyOf(q.sortBy) == ByPrice;
    assert ToLower("desc") == "desc";
    assert IsDescending(q.sortOrder);
  }

  /** Without parameters the search lists the whole table by name, ascending. */
  lemma DefaultQueryListsAllByName(rows: seq<Product>)
    ensures Search(rows, DefaultQuery()) == Sort(ByName, false, rows)
  {
    var q := DefaultQuery();
    UnfilteredQueryKeepsAll(rows, q);
    assert ToLower("name") == "name";
    assert SortKeyOf(q.sortBy) == ByName;
    assert |ToLower("asc")| != |ToLower("desc")|;
    assert !IsDescending(q.sortOrder);
  }
}
