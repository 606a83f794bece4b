/** The remaining public product endpoints of
    src/controllers/product.public.Controller.ts: one product by id, and the
    ten best-selling products by quantity ordered. */
module PublicProductController {
  import opened Common
  import opened Schema

  /** getById: 400 without an id, 404 when no product has it. */
  function GetById(ps: seq<Product>, id: Option<ProductId>): (r: Response<Product>)
    ensures r.status == 400 <==> !Truthy(id)
    ensures r.status == 404 <==> Truthy(id) && id.value !in ProductIds(ps)
    ensures r.status == 200 <==> Truthy(id) && id.value in ProductIds(ps)
    ensures r.status == 200 ==> r.data.Some? && r.data.value in ps && r.data.value.id == id.value
    ensures r.status != 200 ==> r.data.None?
  {
    if !Truthy(id) then Response(400, None)
    else
      match FindProduct(ps, id.value)
      case None => Response(404, None)
      case Some(p) => Response(200, Some(p))
  }

  // ----------------------------------------------------------------------
  // getTopSellingProducts
  //
  // order_items INNER JOIN products, GROUP BY the product, ORDER BY
  // sum(order_items.quantity) DESC, LIMIT 10.

  /** One row of the answer; `image` is images->>0, null for no images. */
  datatype TopProduct = TopProduct(productId: ProductId, title: string, image: Option<string>, price: Money)

  /** A group of the join with its summed quantity. */
  datatype Ranked = Ranked(product: Product, sold: int)

  const TopLimit: nat := 10

  predicate Ordered(p: Product, items: seq<OrderItem>) {
    exists it :: it in items && it.productId == p.id
  }

  /** sum(order_items.quantity) over the items of one product. */
  function Sold(items: seq<OrderItem>, pid: ProductId): int {
    if items == [] then 0
    else (if items[0].productId == pid then items[0].quantity else 0) + Sold(items[1..], pid)
  }

  /** The rows of `s`, each once (the GROUP BY). */
  function Dedup<T(==,!new)>(s: seq<T>): (r: seq<T>)
    ensures forall x :: x in r <==> x in s
    ensures Distinct(r)
  {
    if s == [] then []
    else if s[0] in s[1..] then Dedup(s[1..])
    else [s[0]] + Dedup(s[1..])
  }

  /** The groups of the inner join: every product some order item names. */
  function Groups(items: seq<OrderItem>, ps: seq<Product>): seq<Product> {
    Dedup(Filter(ps, (p: Product) => Ordered(p, items)))
  }

  function Rank(items: seq<OrderItem>, groups: seq<Product>): (r: seq<Ranked>)
    ensures |r| == |groups|
    ensures forall i :: 0 <= i < |r| ==> r[i] == Ranked(groups[i], Sold(items, groups[i].id))
  {
    seq(|groups|, i requires 0 <= i < |groups| => Ranked(groups[i], Sold(items, groups[i].id)))
  }

  /** Non-increasing by the summed quantity. */
  predicate SortedDesc(s: seq<Ranked>) {
    forall i, j :: 0 <= i < j < |s| ==> s[i].sold >= s[j].sold
  }

  function Insert(x: Ranked, s: seq<Ranked>): (r: seq<Ranked>)
    requires SortedDesc(s)
    ensures SortedDesc(r)
    ensures |r| == |s| + 1
    ensures forall y :: y in r <==> y == x || y in s
  {
    if s == [] then [x]
    else if x.sold >= s[0].sold then [x] + s
    else
      var rest := Insert(x, s[1..]);
      assert forall y :: y in s[1..] ==> y.sold <= s[0].sold;
      [s[0]] + rest
  }

  /** ORDER BY sold DESC, by insertion. */
  function SortDesc(s: seq<Ranked>): (r: seq<Ranked>)
    ensures SortedDesc(r)
    ensures |r| == |s|
    ensures forall y :: y in r <==> y in s
  {
    if s == [] then []
    else
      assert forall y :: y in s <==> y == s[0] || y in s[1..];
      Insert(s[0], SortDesc(s[1..]))
  }

  /** Insertion adds exactly one occurrence of the new group. */
  lemma {:induction false} InsertPermutes(x: Ranked, s: seq<Ranked>)
    requires SortedDesc(s)
    ensures multiset(Insert(x, s)) == multiset(s) + multiset{x}
  {
    if s != [] && x.sold < s[0].sold {
      InsertPermutes(x, s[1..]);
      assert s == [s[0]] + s[1..];
    }
  }

  /** The ordering is a permutation of the groups: nothing is lost or
      repeated. */
  lemma {:induction false} SortPermutes(s: seq<Ranked>)
    ensures multiset(SortDesc(s)) == multiset(s)
  {
    if s != [] {
      SortPermutes(s[1..]);
      InsertPermutes(s[0], SortDesc(s[1..]));
      assert s == [s[0]] + s[1..];
    }
  }

  /** Sorting keeps distinct groups distinct. */
  lemma SortKeepsDistinct(s: seq<Ranked>)
    requires Distinct(s)
    ensures Distinct(SortDesc(s))
  {
    var r := SortDesc(s);
    SortPermutes(s);
    forall i, j | 0 <= i < j < |r| ensures r[i] != r[j] {
      TwoOccurrences(s, r[j]);
      OccursOnce(r, i, j);
    }
  }

  /** An element that occurs once has no copy at an earlier index. */
  lemma OccursOnce(r: seq<Ranked>, i: nat, j: nat)
    requires i < j < |r| && multiset(r)[r[j]] <= 1
    ensures r[i] != r[j]
  {
    assert r == r[..j] + r[j..];
    assert multiset(r) == multiset(r[..j]) + multiset(r[j..]);
    assert r[j] in multiset(r[j..]);
    assert r[j] !in multiset(r[..j]);
    assert r[i] == r[..j][i];
  }

  /** An element of a distinct sequence occurs at most once. */
  lemma {:induction false} TwoOccurrences(s: seq<Ranked>, x: Ranked)
    requires Distinct(s)
    ensures multiset(s)[x] <= 1
  {
    if s != [] {
      assert s == [s[0]] + s[1..];
      TwoOccurrences(s[1..], x);
      assert s[0] !in s[1..];
    }
  }

  function TopRow(g: Ranked): TopProduct {
    var p := g.product;
    TopProduct(p.id, p.title, if |p.images| > 0 then Some(p.images[0]) else None, p.price)
  }

  /** The first ten groups of the ordering. */
  function TopRanked(items: seq<OrderItem>, ps: seq<Product>): seq<Ranked> {
    var sorted := SortDesc(Rank(items, Groups(items, ps)));
    sorted[..if |sorted| <= TopLimit then |sorted| else TopLimit]
  }

  /** getTopSellingProducts: the answer the query is meant to give,
      always 200, with an empty list when no order item names an existing
      product. As written, the GROUP BY names the json column images, which
      Postgres cannot compare, so the query itself fails. */
  function GetTopSellingProducts(items: seq<OrderItem>, ps: seq<Product>): (r: Response<seq<TopProduct>>)
    ensures r.status == 200 && r.data.Some?
    ensures |r.data.value| <= TopLimit
  {
    var top := TopRanked(items, ps);
    Response(200, Some(seq(|top|, i requires 0 <= i < |top| => TopRow(top[i]))))
  }

  // ----------------------------------------------------------------------
  // Properties

  /** With ids as primary key, distinct groups have distinct ids. */
  lemma GroupsHaveDistinctIds(items: seq<OrderItem>, ps: seq<Product>)
    requires ProductsKeyed(ps)
    ensures forall i, j :: 0 <= i < j < |Groups(items, ps)| ==> Groups(items, ps)[i].id != Groups(items, ps)[j].id
  {
    var g := Groups(items, ps);
    forall i, j | 0 <= i < j < |g| ensures g[i].id != g[j].id {
      assert g[i] in ps && g[j] in ps;
    }
  }

  /** Each ranked group carries its product's summed quantity, and the
      ranked groups are exactly the ordered products. */
  lemma TopRankedMembers(items: seq<OrderItem>, ps: seq<Product>)
    ensures forall g :: g in TopRanked(items, ps) ==>
      g.product in ps && Ordered(g.product, items) && g.sold == Sold(items, g.product.id)
  {
    var rank := Rank(items, Groups(items, ps));
    forall g | g in TopRanked(items, ps)
      ensures g.product in ps && Ordered(g.product, items) && g.sold == Sold(items, g.product.id)
    {
      assert g in SortDesc(rank);
      var i :| 0 <= i < |rank| && rank[i] == g;
    }
  }

  /** The answer holds min(10, number of ordered products) rows: it is empty
      exactly when no order item names an existing product. */
  lemma TopSellingSize(items: seq<OrderItem>, ps: seq<Product>)
    ensures var n := |Groups(items, ps)|;
      |GetTopSellingProducts(items, ps).data.value| == if n <= TopLimit then n else TopLimit
    ensures GetTopSellingProducts(items, ps).data.value == [] <==>
      forall p :: p in ps ==> !Ordered(p, items)
  {
    var g := Groups(items, ps);
    forall p | p in ps && Ordered(p, items) ensures p in g {
      assert p in Filter(ps, (q: Product) => Ordered(q, items));
    }
    if g != [] {
      assert g[0] in g;
    }
  }

  /** The answer is ordered by summed quantity, highest first. */
  lemma TopSellingSorted(items: seq<OrderItem>, ps: seq<Product>)
    ensures var r := GetTopSellingProducts(items, ps).data.value;
      forall i, j :: 0 <= i < j < |r| ==> Sold(items, r[i].productId) >= Sold(items, r[j].productId)
  {
    var sorted := SortDesc(Rank(items, Groups(items, ps)));
    var top := TopRanked(items, ps);
    var r := GetTopSellingProducts(items, ps).data.value;
    TopRankedMembers(items, ps);
    forall i, j | 0 <= i < j < |r| ensures Sold(items, r[i].productId) >= Sold(items, r[j].productId) {
      assert top[i] == sorted[i] && top[j] == sorted[j];
      assert top[i] in top && top[j] in top;
    }
  }

  /** The answer names each product once. */
  lemma TopSellingDistinct(items: seq<OrderItem>, ps: seq<Product>)
    requires ProductsKeyed(ps)
    ensures var r := GetTopSellingProducts(items, ps).data.value;
      forall i, j :: 0 <= i < j < |r| ==> r[i].productId != r[j].productId
  {
    var rank := Rank(items, Groups(items, ps));
    var sorted := SortDesc(rank);
    var top := TopRanked(items, ps);
    var r := GetTopSellingProducts(items, ps).data.value;
    TopRankedMembers(items, ps);
    GroupsHaveDistinctIds(items, ps);
    SortKeepsDistinct(rank);
    forall i, j | 0 <= i < j < |r| ensures r[i].productId != r[j].productId {
      assert top[i] == sorted[i] && top[j] == sorted[j];
      assert top[i] in top && top[j] in top;
    }
  }

  /** In a sorted ranking, an entry outside the first k ranks no higher
      than any of them. */
  lemma LeftOutRanksBelow(sorted: seq<Ranked>, k: nat, e: Ranked)
    requires SortedDesc(sorted) && k <= |sorted| && e in sorted && e !in sorted[..k]
    ensures forall g :: g in sorted[..k] ==> g.sold >= e.sold
  {
    var m :| 0 <= m < |sorted| && sorted[m] == e;
    assert forall j :: 0 <= j < k ==> sorted[j] == sorted[..k][j] && sorted[..k][j] in sorted[..k];
    assert m >= k;
    forall g | g in sorted[..k] ensures g.sold >= e.sold {
      var i :| 0 <= i < k && sorted[..k][i] == g;
    }
  }

  /** It is a top ten: an ordered product left out of the answer sold no
      more than any product in it. */
  lemma TopSellingIsTop(items: seq<OrderItem>, ps: seq<Product>, p: Product)
    requires p in ps && Ordered(p, items)
    requires forall x :: x in GetTopSellingProducts(items, ps).data.value ==> x.productId != p.id
    ensures forall x :: x in GetTopSellingProducts(items, ps).data.value ==>
      Sold(items, x.productId) >= Sold(items, p.id)
  {
    var groups := Groups(items, ps);
    var rank := Rank(items, groups);
    var top := TopRanked(items, ps);
    var r := GetTopSellingProducts(items, ps).data.value;
    var entry := Ranked(p, Sold(items, p.id));
    assert entry in SortDesc(rank) by {
      assert p in Filter(ps, (q: Product) => Ordered(q, items));
      var k :| 0 <= k < |groups| && groups[k] == p;
      assert rank[k] == entry;
    }
    forall g | g in top ensures g.product.id != p.id {
      var i :| 0 <= i < |top| && top[i] == g;
      assert r[i] in r;
    }
    LeftOutRanksBelow(SortDesc(rank), |top|, entry);
    TopRankedMembers(items, ps);
    forall x | x in r ensures Sold(items, x.productId) >= Sold(items, p.id) {
      var i :| 0 <= i < |r| && r[i] == x;
      assert top[i] in top;
    }
  }
}
