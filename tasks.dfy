/**
 * The import task of importer/tasks.py. The relational store the task
 * writes to is a `Store` object holding three maps: the category names,
 * the products by (name, category) with the set of companies selling each,
 * and the monthly sales by (company, product, month). The task parses the
 * sheet, gives up when the parse is empty, and otherwise runs a
 * lookup-or-create and merge for every parsed sale, in order.
 */
module Tasks {
  import opened Text
  import opened Models
  import opened Conversions
  import opened Parser
  import opened ParserLemmas

  /** The fields the task reads from one parsed record. */
  datatype SaleRow = SaleRow(product: string, category: string, sold: int, cost: Money, total: Money)

  /** A product is found by its name together with its category. */
  datatype ProductKey = ProductKey(name: string, category: string)

  /** A `ProductsSale` is found by company, product and sale month. */
  datatype SaleKey = SaleKey(company: string, product: ProductKey, month: Date)

  /** The figures a `ProductsSale` carries. */
  datatype Sale = Sale(sold: int, cost: Money, total: Money)

  /** The store as values: categories, products with their companies, sales. */
  datatype StoreState = StoreState(categories: set<string>, products: map<ProductKey, set<string>>, sales: map<SaleKey, Sale>)

  /** Which of `imported()` and `imported_fail()` the task ends with. */
  datatype Outcome = Imported | ImportedFail

  function ProductOf(row: SaleRow): ProductKey
  {
    ProductKey(row.product, row.category)
  }

  /** The sale a record of the default header describes. */
  function SaleOf(r: Record): SaleRow
    requires IsSaleRecord(r)
  {
    SaleRow(r["product"].s, r["category"].s, r["sold"].n, r["cost"].m, r["total"].m)
  }

  function SaleRows(data: seq<Record>): (rows: seq<SaleRow>)
    requires forall k :: 0 <= k < |data| ==> IsSaleRecord(data[k])
    ensures |rows| == |data|
    ensures forall k :: 0 <= k < |data| ==> rows[k] == SaleOf(data[k])
  {
    seq(|data|, k requires 0 <= k < |data| => SaleOf(data[k]))
  }

  /** The sales the parser of the default header reads from a sheet. */
  function ImportedRows(rows: seq<Row>): seq<SaleRow>
  {
    DefaultParseGivesSales(rows);
    SaleRows(Parse(DefaultHeader, rows))
  }

  // ------------------------------------------------------- specification

  /**
   * One iteration of the loop: the category and the product exist
   * afterwards, the company is among the product's companies, and the sale
   * of the key is created from the row or has the row's count and total
   * added to it, its cost left as it was.
   */
  function ApplyRow(s: StoreState, company: string, month: Date, row: SaleRow): StoreState
  {
    var p := ProductOf(row);
    var companies := if p in s.products then s.products[p] else {};
    var k := SaleKey(company, p, month);
    var sale := if k in s.sales then Sale(s.sales[k].sold + row.sold, s.sales[k].cost, Plus(s.sales[k].total, row.total))
                else Sale(row.sold, row.cost, row.total);
    StoreState(s.categories + {row.category}, s.products[p := companies + {company}], s.sales[k := sale])
  }

  /** The rows applied in order. */
  function ApplyAll(s: StoreState, company: string, month: Date, rows: seq<SaleRow>): StoreState
    decreases |rows|
  {
    if rows == [] then s
    else ApplyRow(ApplyAll(s, company, month, rows[..|rows| - 1]), company, month, rows[|rows| - 1])
  }

  // ---------------------------------------------------------------- store

  class Store {
    var categories: set<string>
    var products: map<ProductKey, set<string>>
    var sales: map<SaleKey, Sale>

    function State(): StoreState
      reads this
    {
      StoreState(categories, products, sales)
    }

    constructor (initial: StoreState)
      ensures State() == initial
    {
      categories := initial.categories;
      products := initial.products;
      sales := initial.sales;
    }

    /** `ProductCategory.objects.get_or_create(name=name)`. */
    method GetOrCreateCategory(name: string) returns (created: bool)
      modifies this
      ensures created <==> name !in old(categories)
      ensures categories == old(categories) + {name}
      ensures products == old(products) && sales == old(sales)
    {
      created := name !in categories;
      categories := categories + {name};
    }

    /** `Product.objects.get_or_create(name=..., category=...)`; a new product sells for no company yet. */
    method GetOrCreateProduct(key: ProductKey) returns (created: bool)
      modifies this
      ensures created <==> key !in old(products)
      ensures created ==> products == old(products)[key := {}]
      ensures !created ==> products == old(products)
      ensures categories == old(categories) && sales == old(sales)
    {
      created := key !in products;
      if created {
        products := products[key := {}];
      }
    }

    /** `company in product.company.all()`. */
    method HasCompany(key: ProductKey, company: string) returns (present: bool)
      requires key in products
      ensures present <==> company in products[key]
    {
      present := company in products[key];
    }

    /** `product.company.add(company)`; adding a company already there changes nothing. */
    method AddCompany(key: ProductKey, company: string)
      requires key in products
      modifies this
      ensures products == old(products)[key := old(products)[key] + {company}]
      ensures company in old(products)[key] ==> products == old(products)
      ensures categories == old(categories) && sales == old(sales)
    {
      if company in products[key] {
        assert products[key] + {company} == products[key];
        assert products[key := products[key]] == products;
      }
      products := products[key := products[key] + {company}];
    }

    /** `ProductsSale.objects.get_or_create(..., defaults=...)`. */
    method GetOrCreateSale(key: SaleKey, defaults: Sale) returns (sale: Sale, created: bool)
      modifies this
      ensures created <==> key !in old(sales)
      ensures created ==> sale == defaults && sales == old(sales)[key := defaults]
      ensures !created ==> sale == old(sales)[key] && sales == old(sales)
      ensures categories == old(categories) && products == old(products)
    {
      created := key !in sales;
      if created {
        sale := defaults;
        sales := sales[key := defaults];
      } else {
        sale := sales[key];
      }
    }

    /** `product_sale.save()`. */
    method SaveSale(key: SaleKey, sale: Sale)
      modifies this
      ensures sales == old(sales)[key := sale]
      ensures categories == old(categories) && products == old(products)
    {
      sales := sales[key := sale];
    }
  }

  // ----------------------------------------------------------------- task

  /** One pass of the loop of `import_sales_task`: lookups, the company added, the sale created or merged. */
  method ImportSale(store: Store, company: string, month: Date, sale: SaleRow)
    modifies store
    ensures store.State() == ApplyRow(old(store.State()), company, month, sale)
  {
    ghost var before := store.State();
    var categoryCreated := store.GetOrCreateCategory(sale.category);
    var product := ProductKey(sale.product, sale.category);
    var productCreated := store.GetOrCreateProduct(product);
    var present := store.HasCompany(product, company);
    if !present {
      store.AddCompany(product, company);
    } else {
      assert store.products[product] + {company} == store.products[product];
    }
    assert store.products == ApplyRow(before, company, month, sale).products;
    var key := SaleKey(company, product, month);
    var productSale, created := store.GetOrCreateSale(key, Sale(sale.sold, sale.cost, sale.total));
    if !created {
      productSale := productSale.(sold := productSale.sold + sale.sold, total := Plus(productSale.total, sale.total));
      store.SaveSale(key, productSale);
    }
  }

  /** The loop of `import_sales_task` over the parsed sales of one file, in order. */
  method ImportSales(store: Store, company: string, month: Date, sales: seq<SaleRow>)
    modifies store
    ensures store.State() == ApplyAll(old(store.State()), company, month, sales)
  {
    var i := 0;
    while i < |sales|
      invariant 0 <= i <= |sales|
      invariant store.State() == ApplyAll(old(store.State()), company, month, sales[..i])
    {
      ImportSale(store, company, month, sales[i]);
      assert sales[..i + 1][..i] == sales[..i];
      i := i + 1;
    }
    assert sales[..|sales|] == sales;
  }

  /**
   * `import_sales_task` for a file of the given company and month whose
   * sheet has the given rows: an empty parse ends in `imported_fail` with
   * the store untouched, anything else in `imported` after every sale.
   */
  method ImportSalesTask(store: Store, company: string, month: Date, path: string, rows: seq<Row>) returns (outcome: Outcome)
    modifies store
    ensures outcome == ImportedFail <==> Parse(DefaultHeader, rows) == []
    ensures outcome == ImportedFail ==> store.State() == old(store.State())
    ensures outcome == Imported ==> store.State() == ApplyAll(old(store.State()), company, month, ImportedRows(rows))
  {
    var parser := new ParserSalesXlsx(path, None);
    var data := parser.AsData(rows);
    if data == [] {
      return ImportedFail;
    }
    DefaultParseGivesSales(rows);
    ImportSales(store, company, month, SaleRows(data));
    return Imported;
  }
}
