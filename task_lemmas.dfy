/**
 * What one run of the import loop does to the store, stated against the
 * rows it was given: the categories and products it adds, the company it
 * attaches, the sums it keeps per sale, what it leaves alone, and the
 * references between the three tables it keeps intact.
 */
module TaskLemmas {
  import opened Text
  import opened Models
  import opened Tasks

  /** The category names the rows mention. */
  function Categories(rows: seq<SaleRow>): set<string>
  {
    set i | 0 <= i < |rows| :: rows[i].category
  }

  /** The products the rows mention. */
  function Products(rows: seq<SaleRow>): set<ProductKey>
  {
    set i | 0 <= i < |rows| :: ProductOf(rows[i])
  }

  lemma CategoriesSnoc(rows: seq<SaleRow>)
    requires |rows| > 0
    ensures Categories(rows) == Categories(rows[..|rows| - 1]) + {rows[|rows| - 1].category}
  {
    var prefix := rows[..|rows| - 1];
    forall c | c in Categories(rows) ensures c in Categories(prefix) + {rows[|rows| - 1].category}
    {
      var i :| 0 <= i < |rows| && rows[i].category == c;
      if i < |rows| - 1 {
        assert prefix[i] == rows[i];
      }
    }
    forall c | c in Categories(prefix) ensures c in Categories(rows)
    {
      var i :| 0 <= i < |prefix| && prefix[i].category == c;
      assert rows[i] == prefix[i];
    }
  }

  lemma ProductsSnoc(rows: seq<SaleRow>)
    requires |rows| > 0
    ensures Products(rows) == Products(rows[..|rows| - 1]) + {ProductOf(rows[|rows| - 1])}
  {
    var prefix := rows[..|rows| - 1];
    forall p | p in Products(rows) ensures p in Products(prefix) + {ProductOf(rows[|rows| - 1])}
    {
      var i :| 0 <= i < |rows| && ProductOf(rows[i]) == p;
      if i < |rows| - 1 {
        assert prefix[i] == rows[i];
      }
    }
    forall p | p in Products(prefix) ensures p in Products(rows)
    {
      var i :| 0 <= i < |prefix| && ProductOf(prefix[i]) == p;
      assert rows[i] == prefix[i];
    }
  }

  // ------------------------------------------------------------ categories

  /** The categories afterwards are those before and those the rows name, each once. */
  lemma {:induction false} ApplyAllCategories(s: StoreState, company: string, month: Date, rows: seq<SaleRow>)
    ensures ApplyAll(s, company, month, rows).categories == s.categories + Categories(rows)
    decreases |rows|
  {
    if rows != [] {
      ApplyAllCategories(s, company, month, rows[..|rows| - 1]);
      CategoriesSnoc(rows);
    }
  }

  // -------------------------------------------------------------- products

  /** The companies a product sells for, none when it does not exist. */
  function CompaniesOf(s: StoreState, p: ProductKey): set<string>
  {
    if p in s.products then s.products[p] else {}
  }

  /**
   * Every product the rows name exists afterwards and sells for the
   * file's company besides the companies it had; every other product is
   * as it was.
   */
  lemma {:induction false} ApplyAllProducts(s: StoreState, company: string, month: Date, rows: seq<SaleRow>, p: ProductKey)
    ensures p in Products(rows) ==>
      p in ApplyAll(s, company, month, rows).products &&
      ApplyAll(s, company, month, rows).products[p] == CompaniesOf(s, p) + {company}
    ensures p !in Products(rows) ==>
      (p in ApplyAll(s, company, month, rows).products <==> p in s.products) &&
      CompaniesOf(ApplyAll(s, company, month, rows), p) == CompaniesOf(s, p)
    decreases |rows|
  {
    if rows != [] {
      var prefix := rows[..|rows| - 1];
      ApplyAllProducts(s, company, month, prefix, p);
      ProductsSnoc(rows);
      if p in Products(prefix) && p == ProductOf(rows[|rows| - 1]) {
        assert CompaniesOf(s, p) + {company} + {company} == CompaniesOf(s, p) + {company};
      }
    }
  }

  /** Attaching the company twice is attaching it once. */
  lemma ApplyRowTwiceCompanies(s: StoreState, company: string, month: Date, row: SaleRow)
    ensures ApplyRow(ApplyRow(s, company, month, row), company, month, row).products ==
      ApplyRow(s, company, month, row).products
  {
    var p := ProductOf(row);
    var once := ApplyRow(s, company, month, row);
    assert once.products[p] + {company} == once.products[p];
    assert once.products[p := once.products[p]] == once.products;
  }

  // ----------------------------------------------------------------- sales

  /** The units of the rows of product `p`. */
  function SoldFor(rows: seq<SaleRow>, p: ProductKey): int
    decreases |rows|
  {
    if rows == [] then 0
    else SoldFor(rows[..|rows| - 1], p) + (if ProductOf(rows[|rows| - 1]) == p then rows[|rows| - 1].sold else 0)
  }

  /** The centavos of the totals of the rows of product `p`. */
  function TotalFor(rows: seq<SaleRow>, p: ProductKey): int
    decreases |rows|
  {
    if rows == [] then 0
    else TotalFor(rows[..|rows| - 1], p) + (if ProductOf(rows[|rows| - 1]) == p then rows[|rows| - 1].total.cents else 0)
  }

  /** The cost of the first row of product `p`. */
  function FirstCost(rows: seq<SaleRow>, p: ProductKey): Money
    requires p in Products(rows)
    decreases |rows|
  {
    ProductsSnoc(rows);
    if p in Products(rows[..|rows| - 1]) then FirstCost(rows[..|rows| - 1], p) else rows[|rows| - 1].cost
  }

  /** The units a sale had before, none when it did not exist. */
  function PriorSold(s: StoreState, k: SaleKey): int
  {
    if k in s.sales then s.sales[k].sold else 0
  }

  function PriorTotal(s: StoreState, k: SaleKey): int
  {
    if k in s.sales then s.sales[k].total.cents else 0
  }

  /** Whether the sale of key `k` is one of those the run writes. */
  predicate Touched(company: string, month: Date, rows: seq<SaleRow>, k: SaleKey)
  {
    k.company == company && k.month == month && k.product in Products(rows)
  }

  lemma {:induction false} SoldForAbsent(rows: seq<SaleRow>, p: ProductKey)
    requires p !in Products(rows)
    ensures SoldFor(rows, p) == 0 && TotalFor(rows, p) == 0
    decreases |rows|
  {
    if rows != [] {
      ProductsSnoc(rows);
      SoldForAbsent(rows[..|rows| - 1], p);
    }
  }

  /**
   * The sale of a key the run writes exists afterwards; its units and its
   * total are what it had plus those of every row of its product, and its
   * cost is the one it had, or that of the first such row if it is new.
   */
  lemma {:induction false} ApplyAllTouchedSale(s: StoreState, company: string, month: Date, rows: seq<SaleRow>, k: SaleKey)
    requires Touched(company, month, rows, k)
    ensures k in ApplyAll(s, company, month, rows).sales
    ensures ApplyAll(s, company, month, rows).sales[k].sold == PriorSold(s, k) + SoldFor(rows, k.product)
    ensures ApplyAll(s, company, month, rows).sales[k].total.cents == PriorTotal(s, k) + TotalFor(rows, k.product)
    ensures ApplyAll(s, company, month, rows).sales[k].cost == (if k in s.sales then s.sales[k].cost else FirstCost(rows, k.product))
    decreases |rows|
  {
    var prefix := rows[..|rows| - 1];
    ProductsSnoc(rows);
    if Touched(company, month, prefix, k) {
      ApplyAllTouchedSale(s, company, month, prefix, k);
    } else {
      ApplyAllUntouchedSale(s, company, month, prefix, k);
      SoldForAbsent(prefix, k.product);
    }
  }

  /** A sale of another company, another month or a product no row names is as it was. */
  lemma {:induction false} ApplyAllUntouchedSale(s: StoreState, company: string, month: Date, rows: seq<SaleRow>, k: SaleKey)
    requires !Touched(company, month, rows, k)
    ensures k in ApplyAll(s, company, month, rows).sales <==> k in s.sales
    ensures k in s.sales ==> ApplyAll(s, company, month, rows).sales[k] == s.sales[k]
    decreases |rows|
  {
    if rows != [] {
      ProductsSnoc(rows);
      ApplyAllUntouchedSale(s, company, month, rows[..|rows| - 1], k);
    }
  }

  // ------------------------------------------------------------ integrity

  /** Every product's category exists; every sale's product exists and sells for the sale's company. */
  predicate Consistent(s: StoreState)
  {
    (forall p :: p in s.products ==> p.category in s.categories) &&
    (forall k :: k in s.sales ==> k.product in s.products && k.company in s.products[k.product])
  }

  lemma {:induction false} ApplyAllConsistent(s: StoreState, company: string, month: Date, rows: seq<SaleRow>)
    requires Consistent(s)
    ensures Consistent(ApplyAll(s, company, month, rows))
    decreases |rows|
  {
    if rows != [] {
      ApplyAllConsistent(s, company, month, rows[..|rows| - 1]);
    }
  }

  // -------------------------------------------------------------- example

  const Empty := StoreState({}, map[], map[])
  const Low := SaleRow("Product Low", "Category A", 9, Brl(470), Brl(4730))
  const High := SaleRow("Product High", "Category B", 5, Brl(320), Brl(10750))

  lemma ApplyTwo(s: StoreState, company: string, month: Date, a: SaleRow, b: SaleRow)
    ensures ApplyAll(s, company, month, [a, b]) == ApplyRow(ApplyRow(s, company, month, a), company, month, b)
  {
    assert [a, b][..1] == [a] && [a, b][1] == b;
    assert [a][..0] == [];
    assert ApplyAll(s, company, month, [a]) == ApplyRow(s, company, month, a);
  }

  /** The two sales of the task's test, into an empty store: two categories, two products of the company, two sales. */
  lemma ImportTwoSales(company: string, month: Date)
    ensures ApplyAll(Empty, company, month, [Low, High]) ==
      StoreState({"Category A", "Category B"},
        map[ProductOf(Low) := {company}, ProductOf(High) := {company}],
        map[SaleKey(company, ProductOf(Low), month) := Sale(9, Brl(470), Brl(4730)),
            SaleKey(company, ProductOf(High), month) := Sale(5, Brl(320), Brl(10750))])
  {
    ApplyTwo(Empty, company, month, Low, High);
    var once := ApplyRow(Empty, company, month, Low);
    assert once.categories == {"Category A"};
    assert Empty.products == map[] && ProductOf(Low) !in Empty.products;
    assert {} + {company} == {company};
    assert once.products == map[ProductOf(Low) := {company}];
    assert once.sales == map[SaleKey(company, ProductOf(Low), month) := Sale(9, Brl(470), Brl(4730))];
    assert ProductOf(High) !in once.products;
    assert SaleKey(company, ProductOf(High), month) !in once.sales;
  }
}
