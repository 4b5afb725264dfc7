/**
 * The controller's read-only views of the product list: the LINQ expressions
 * `OrderBy(p => p.Price)`, `Sum(p => p.Price)` and `Where(name equals query, ignoring case)`.
 */
module Queries {
  import opened Text
  import opened ProductModel

  predicate SortedByPrice(s: seq<Product>) {
    forall i, j :: 0 <= i < j < |s| ==> s[i].price <= s[j].price
  }

  /** The entries of `s` whose price is `v`, in their order in `s`. */
  function WithPrice(s: seq<Product>, v: real): seq<Product> {
    if s == [] then []
    else (if s[0].price == v then [s[0]] else []) + WithPrice(s[1..], v)
  }

  /** Puts `p` in front of the first entry whose price is not below the price of `p`. */
  function Insert(p: Product, s: seq<Product>): seq<Product> {
    if s == [] || p.price <= s[0].price then [p] + s
    else [s[0]] + Insert(p, s[1..])
  }

  /** Inserting adds `p` and keeps every other entry. */
  lemma {:induction false} InsertPermutes(p: Product, s: seq<Product>)
    ensures multiset(Insert(p, s)) == multiset(s) + multiset{p}
  {
    if s != [] && p.price > s[0].price {
      InsertPermutes(p, s[1..]);
      assert s == [s[0]] + s[1..];
    }
  }

  /** Inserting into a sorted list keeps it sorted. */
  lemma {:induction false} InsertSorted(p: Product, s: seq<Product>)
    requires SortedByPrice(s)
    ensures SortedByPrice(Insert(p, s))
  {
    if s != [] && p.price > s[0].price {
      var t := Insert(p, s[1..]);
      InsertSorted(p, s[1..]);
      InsertPermutes(p, s[1..]);
      forall k | 0 <= k < |t| ensures s[0].price <= t[k].price {
        assert t[k] in multiset(t);
        if t[k] != p {
          assert t[k] in multiset(s[1..]);
          var j :| 0 <= j < |s[1..]| && s[1..][j] == t[k];
          assert s[j + 1] == t[k];
        }
      }
      assert Insert(p, s) == [s[0]] + t;
    }
  }

  /** `products.OrderBy(p => p.Price)`: insertion sort by price, each entry placed before equal prices. */
  function OrderByPrice(s: seq<Product>): seq<Product> {
    if s == [] then [] else Insert(s[0], OrderByPrice(s[1..]))
  }

  /** The sorted view holds the stored entries, each as often as stored, in ascending price. */
  lemma {:induction false} OrderByPriceSorts(s: seq<Product>)
    ensures multiset(OrderByPrice(s)) == multiset(s)
    ensures SortedByPrice(OrderByPrice(s))
  {
    if s != [] {
      var t := OrderByPrice(s[1..]);
      OrderByPriceSorts(s[1..]);
      InsertPermutes(s[0], t);
      InsertSorted(s[0], t);
      assert s == [s[0]] + s[1..];
    }
  }

  lemma {:induction false} WithPriceAppend(a: seq<Product>, b: seq<Product>, v: real)
    ensures WithPrice(a + b, v) == WithPrice(a, v) + WithPrice(b, v)
  {
    if a != [] {
      assert (a + b)[1..] == a[1..] + b;
      WithPriceAppend(a[1..], b, v);
    } else {
      assert a + b == b;
    }
  }

  /** Inserting never moves `p` past an entry of equal price: each price class keeps its order. */
  lemma {:induction false} InsertKeepsPriceClasses(p: Product, s: seq<Product>, v: real)
    ensures WithPrice(Insert(p, s), v) == WithPrice([p] + s, v)
  {
    if s != [] && p.price > s[0].price {
      var t := Insert(p, s[1..]);
      var first := if s[0].price == v then [s[0]] else [];
      var mine := if p.price == v then [p] else [];
      assert first == [] || mine == [];
      assert ([s[0]] + t)[1..] == t;
      assert WithPrice(Insert(p, s), v) == first + WithPrice(t, v);
      InsertKeepsPriceClasses(p, s[1..], v);
      assert ([p] + s[1..])[1..] == s[1..];
      assert WithPrice(t, v) == mine + WithPrice(s[1..], v);
      assert ([p] + s)[1..] == s;
      assert WithPrice([p] + s, v) == mine + (first + WithPrice(s[1..], v));
    }
  }

  /** `OrderBy` is stable: the entries sharing any one price appear in insertion order. */
  lemma {:induction false} OrderByPriceStable(s: seq<Product>, v: real)
    ensures WithPrice(OrderByPrice(s), v) == WithPrice(s, v)
  {
    if s != [] {
      var t := OrderByPrice(s[1..]);
      assert OrderByPrice(s) == Insert(s[0], t);
      InsertKeepsPriceClasses(s[0], t, v);
      WithPriceAppend([s[0]], t, v);
      OrderByPriceStable(s[1..], v);
      WithPriceAppend([s[0]], s[1..], v);
      assert s == [s[0]] + s[1..];
    }
  }

  /** `Sum(p => p.Price)`. */
  function Total(s: seq<Product>): real {
    if s == [] then 0.0 else s[0].price + Total(s[1..])
  }

  /** Inserting an entry adds its price to the total. */
  lemma {:induction false} TotalInsert(p: Product, s: seq<Product>)
    ensures Total(Insert(p, s)) == p.price + Total(s)
  {
    if s != [] && p.price > s[0].price {
      TotalInsert(p, s[1..]);
      assert ([s[0]] + Insert(p, s[1..]))[1..] == Insert(p, s[1..]);
    } else {
      assert ([p] + s)[1..] == s;
    }
  }

  /** The total shown under the sorted view is the total of the stored list. */
  lemma {:induction false} TotalOrderByPrice(s: seq<Product>)
    ensures Total(OrderByPrice(s)) == Total(s)
  {
    if s != [] {
      TotalOrderByPrice(s[1..]);
      TotalInsert(s[0], OrderByPrice(s[1..]));
    }
  }

  /** With positive prices the total is 0 only for an empty list, and at least every single price. */
  lemma {:induction false} TotalBounds(s: seq<Product>)
    requires forall i :: 0 <= i < |s| ==> s[i].price > 0.0
    ensures s == [] ==> Total(s) == 0.0
    ensures s != [] ==> Total(s) > 0.0
    ensures forall i :: 0 <= i < |s| ==> s[i].price <= Total(s)
  {
    if s != [] {
      TotalBounds(s[1..]);
      forall i | 1 <= i < |s| ensures s[i].price <= Total(s) {
        assert s[i] == s[1..][i - 1];
      }
    }
  }

  /** The search predicate: the name equals the query, ignoring case. */
  predicate NameMatches(p: Product, query: string) {
    EqualsIgnoreCase(p.name, query)
  }

  /** `products.Where(p => p.Name.Equals(query, OrdinalIgnoreCase))`. */
  function Matches(s: seq<Product>, query: string): (r: seq<Product>)
    ensures |r| <= |s|
  {
    if s == [] then []
    else (if NameMatches(s[0], query) then [s[0]] else []) + Matches(s[1..], query)
  }

  /** The matches are exactly the entries whose name equals the query ignoring case, each as often as stored. */
  lemma {:induction false} MatchesExactly(s: seq<Product>, query: string)
    ensures forall p :: p in Matches(s, query) <==> p in s && NameMatches(p, query)
    ensures forall p :: multiset(Matches(s, query))[p] == if NameMatches(p, query) then multiset(s)[p] else 0
  {
    if s != [] {
      MatchesExactly(s[1..], query);
      assert s == [s[0]] + s[1..];
    }
  }

  /** The matches keep the order of the list they are taken from. */
  lemma {:induction false} MatchesAppend(a: seq<Product>, b: seq<Product>, query: string)
    ensures Matches(a + b, query) == Matches(a, query) + Matches(b, query)
  {
    if a != [] {
      var head := if NameMatches(a[0], query) then [a[0]] else [];
      assert (a + b)[0] == a[0];
      assert (a + b)[1..] == a[1..] + b;
      assert Matches(a + b, query) == head + Matches(a[1..] + b, query);
      MatchesAppend(a[1..], b, query);
      assert Matches(a, query) == head + Matches(a[1..], query);
      assert head + (Matches(a[1..], query) + Matches(b, query)) == (head + Matches(a[1..], query)) + Matches(b, query);
    } else {
      assert a + b == b;
    }
  }

  /** With every stored name non-empty, an empty query matches nothing. */
  lemma {:induction false} EmptyQueryMatchesNothing(s: seq<Product>)
    requires forall i :: 0 <= i < |s| ==> s[i].name != []
    ensures Matches(s, []) == []
  {
    if s != [] {
      assert |Upper(s[0].name)| > 0;
      EmptyQueryMatchesNothing(s[1..]);
    }
  }

  /** One line of the search screen: a product, and whether it is highlighted as a match. */
  datatype Row = Row(product: Product, highlighted: bool)

  /** The search screen: every product in insertion order, highlighted when it is among the matches. */
  function SearchView(s: seq<Product>, query: string): (rows: seq<Row>)
    ensures |rows| == |s|
    ensures forall i :: 0 <= i < |s| ==> rows[i].product == s[i]
    ensures forall i :: 0 <= i < |s| ==> (rows[i].highlighted <==> NameMatches(s[i], query))
  {
    var found := Matches(s, query);
    MatchesExactly(s, query);
    seq(|s|, i requires 0 <= i < |s| => Row(s[i], s[i] in found))
  }

  /** Adding products priced 1200, 900 and 50 lists them as 50, 900, 1200 with total 2150. */
  lemma DisplayExample(a: Product, b: Product, c: Product)
    requires a.price == 1200.0 && b.price == 900.0 && c.price == 50.0
    ensures OrderByPrice([a, b, c]) == [c, b, a]
    ensures Total(OrderByPrice([a, b, c])) == 2150.0
  {
    assert [a, b, c][1..] == [b, c];
    assert [b, c][1..] == [c];
    assert [c][1..] == [];
    assert OrderByPrice([c]) == [c];
    assert Insert(b, []) == [b];
    assert Insert(b, [c]) == [c, b];
    assert OrderByPrice([b, c]) == [c, b];
    assert [c, b][1..] == [b];
    assert [b][1..] == [];
    assert Insert(a, []) == [a];
    assert Insert(a, [b]) == [b, a];
    assert Insert(a, [c, b]) == [c, b, a];
    assert OrderByPrice([a, b, c]) == [c, b, a];
    assert [c, b, a][1..] == [b, a];
    assert [b, a][1..] == [a];
    assert [a][1..] == [];
    assert Total([a]) == 1200.0;
    assert Total([b, a]) == 2100.0;
    assert Total([c, b, a]) == 2150.0;
  }

  /** Searching `"phone"` among Laptop, Phone and Mouse finds Phone alone. */
  lemma SearchExample(x: Product, y: Product, z: Product)
    requires x.name == "Laptop" && y.name == "Phone" && z.name == "Mouse"
    ensures Matches([x, y, z], "phone") == [y]
  {
    var q := "phone";
    UpperAt(q);
    UpperAt(x.name);
    UpperAt(z.name);
    assert !NameMatches(x, q) by { assert |Upper(x.name)| != |Upper(q)|; }
    assert !NameMatches(z, q) by { assert Upper(z.name)[0] != Upper(q)[0]; }
    assert NameMatches(y, q) by { assert Upper(y.name) == "PHONE" == Upper(q); }
    assert [x, y, z][1..] == [y, z];
    assert [y, z][1..] == [z];
    assert [z][1..] == [];
    assert Matches([z], q) == [];
    assert Matches([y, z], q) == [y];
  }
}
