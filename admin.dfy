/**
 * The query helpers of manager/admin.py. The request's GET parameters are
 * a map from name to (decoded) value; `reverse()` is replaced by the URL it
 * returns, given as an argument; a store's rows are given in primary-key
 * order, so that `.last()` is the last element.
 */
module Admin {
  import opened Text
  import opened Models
  import opened Conversions
  import opened Url

  type QueryDict = map<string, string>

  /** The query parameters the admin reads and writes. */
  const CompanyLookup := "company__id__exact"
  const DisableLookup := "_disable_filters"
  const ChangelistLookup := "_changelist_filters"

  // ------------------------------------------------ ChangeListCustomLookup

  const IgnoreLookups: seq<string> := [DisableLookup]

  /**
   * `get_filters_params`, given the lookup parameters the base class
   * returns: every ignored name is deleted unless `skipp_ignore` is set.
   */
  method GetFiltersParams(lookupParams: QueryDict, skippIgnore: bool) returns (r: QueryDict)
    ensures skippIgnore ==> r == lookupParams
    ensures !skippIgnore ==> forall k :: k in r <==> k in lookupParams && k !in IgnoreLookups
    ensures forall k :: k in r ==> k in lookupParams && r[k] == lookupParams[k]
  {
    r := lookupParams;
    if skippIgnore {
      return;
    }
    var i := 0;
    while i < |IgnoreLookups|
      invariant 0 <= i <= |IgnoreLookups|
      invariant forall k :: k in r <==> k in lookupParams && k !in IgnoreLookups[..i]
      invariant forall k :: k in r ==> r[k] == lookupParams[k]
    {
      var ignored := IgnoreLookups[i];
      if ignored in r {
        r := r - {ignored};
      }
      assert IgnoreLookups[..i + 1] == IgnoreLookups[..i] + [ignored];
      i := i + 1;
    }
    assert IgnoreLookups[..i] == IgnoreLookups;
  }

  // ----------------------------------------------- ModelAdminCompanyFilter

  /**
   * `f not in d_filters` with `d_filters = GET.get('_disable_filters', [])`:
   * the parameter's value is a string, so the test is a substring test;
   * without the parameter nothing is disabled.
   */
  predicate Disabled(get: QueryDict, f: string)
  {
    DisableLookup in get && Contains(get[DisableLookup], f)
  }

  /** `get_list_filter`: the filters that are not disabled, in their order. */
  function ListFilter(get: QueryDict, listFilter: seq<string>): seq<string>
    decreases |listFilter|
  {
    if listFilter == [] then []
    else (if Disabled(get, listFilter[0]) then [] else [listFilter[0]]) + ListFilter(get, listFilter[1..])
  }

  /** What `get_company_id` yields: no id, an id, or the exception a malformed filter string raises. */
  datatype CompanyId = NoCompany | CompanyIdOf(id: string) | MalformedFilters

  /**
   * `dict(param.split('=') for param in params)`: each piece must split
   * into exactly a key and a value, and a later key overwrites an earlier one.
   */
  function LookupPairs(params: seq<string>): Option<map<string, string>>
    decreases |params|
  {
    if params == [] then Some(map[])
    else
      match LookupPairs(params[..|params| - 1])
      case None => None
      case Some(m) =>
        match KeyValue(params[|params| - 1])
        case None => None
        case Some(kv) => Some(m[kv.0 := kv.1])
  }

  /** `param.split('=')` unpacked into a key and a value, None when it does not give exactly two pieces. */
  function KeyValue(param: string): Option<(string, string)>
  {
    var kv := Split(param, '=');
    if |kv| == 2 then Some((kv[0], kv[1])) else None
  }

  /** The `_changelist_filters` lookups; an absent or empty parameter gives none. */
  function ChangelistLookups(get: QueryDict): Option<map<string, string>>
  {
    if ChangelistLookup in get && get[ChangelistLookup] != "" then
      LookupPairs(Split(get[ChangelistLookup], '&'))
    else Some(map[])
  }

  /**
   * `get_company_id`: the `company__id__exact` parameter when it is not
   * empty, else the same key among the `_changelist_filters` lookups.
   */
  function GetCompanyId(get: QueryDict): CompanyId
  {
    if CompanyLookup in get && get[CompanyLookup] != "" then CompanyIdOf(get[CompanyLookup])
    else
      match ChangelistLookups(get)
      case None => MalformedFilters
      case Some(m) => if CompanyLookup in m then CompanyIdOf(m[CompanyLookup]) else NoCompany
  }

  /** A row of a changelist as the company filter sees it: its key and the keys of its companies. */
  datatype Item = Item(pk: nat, companies: set<nat>)

  function WithCompany(items: seq<Item>, n: int): seq<Item>
    decreases |items|
  {
    if items == [] then []
    else (if n in items[0].companies then [items[0]] else []) + WithCompany(items[1..], n)
  }

  /**
   * `get_queryset`: every row when there is no company id, else the rows
   * of that company. The id is converted as an integer key (`int()`),
   * which raises on anything but an integer literal, the empty id included.
   * None stands for an exception.
   */
  function GetQueryset(get: QueryDict, items: seq<Item>): Option<seq<Item>>
  {
    match GetCompanyId(get)
    case MalformedFilters => None
    case NoCompany => Some(items)
    case CompanyIdOf(id) =>
      match ParseIntLiteral(id)
      case None => None
      case Some(n) => Some(WithCompany(items, n))
  }

  // ---------------------------------------------------------- CompanyAdmin

  /** The filter string of `admin_link`. */
  function Filters(pk: nat, disableCompany: bool): (f: string)
    ensures AllAscii(f)
  {
    var head := CompanyLookup + "=";
    var digits := NatToString(pk);
    var tail := if disableCompany then "&" + DisableLookup + "=" + "company" else "";
    assert AllAscii(head) && AllAscii(tail);
    assert AllAscii(digits) by {
      forall i | 0 <= i < |digits| ensures IsAscii(digits[i]) { assert IsDigit(digits[i]); }
    }
    AsciiAppend(head, digits);
    AsciiAppend(head + digits, tail);
    head + digits + tail
  }

  /** The query string of the link: the filters, URL-encoded under `_changelist_filters` for the change view. */
  function LinkQuery(pk: nat, view: string, disableCompany: bool): string
  {
    if view == "change" then ChangelistLookup + "=" + QuotePlus(Filters(pk, disableCompany))
    else Filters(pk, disableCompany)
  }

  /** `admin_link` for a saved company of key `pk`, with `url` the address `reverse` gives. */
  function AdminLink(pk: nat, url: string, view: string, text: string, disableCompany: bool, cssClass: string): string
  {
    "<a class=\"" + cssClass + "\" href=\"" + url + "?" + LinkQuery(pk, view, disableCompany) + "\">" + text + "</a>"
  }

  const FieldsRelatedLinks: seq<string> := ["related_link_products", "related_link_sales"]

  /** The link a name of `fields_related_links` stands for; an unknown name falls back to `lambda n: ''`. */
  function RelatedLink(name: string, pk: nat, productsUrl: string, salesUrl: string): string
  {
    if name == "related_link_products" then AdminLink(pk, productsUrl, "changelist", "Produtos", true, "list_filter_link")
    else if name == "related_link_sales" then AdminLink(pk, salesUrl, "changelist", "Vendas", true, "list_filter_link")
    else ""
  }

  /** The links of the named fields, one after another. */
  function LinksOf(names: seq<string>, pk: nat, productsUrl: string, salesUrl: string): string
    decreases |names|
  {
    if names == [] then ""
    else LinksOf(names[..|names| - 1], pk, productsUrl, salesUrl) + RelatedLink(names[|names| - 1], pk, productsUrl, salesUrl)
  }

  /**
   * `related_links`: nothing for a company without a key (0 is falsy too),
   * else the products link followed by the sales link, both filtered by
   * the company and disabling the company filter.
   */
  method RelatedLinks(pk: Option<nat>, productsUrl: string, salesUrl: string) returns (links: string)
    ensures pk.None? || pk.value == 0 ==> links == ""
    ensures pk.Some? && pk.value != 0 ==>
      links == AdminLink(pk.value, productsUrl, "changelist", "Produtos", true, "list_filter_link")
               + AdminLink(pk.value, salesUrl, "changelist", "Vendas", true, "list_filter_link")
  {
    if pk.None? || pk.value == 0 {
      return "";
    }
    links := "";
    var i := 0;
    while i < |FieldsRelatedLinks|
      invariant 0 <= i <= |FieldsRelatedLinks|
      invariant links == LinksOf(FieldsRelatedLinks[..i], pk.value, productsUrl, salesUrl)
    {
      links := links + RelatedLink(FieldsRelatedLinks[i], pk.value, productsUrl, salesUrl);
      assert FieldsRelatedLinks[..i + 1][..i] == FieldsRelatedLinks[..i];
      i := i + 1;
    }
    assert FieldsRelatedLinks[..i] == FieldsRelatedLinks;
    assert FieldsRelatedLinks[..1] == ["related_link_products"] && FieldsRelatedLinks[..1][..0] == [];
    assert LinksOf(FieldsRelatedLinks[..1], pk.value, productsUrl, salesUrl) ==
      AdminLink(pk.value, productsUrl, "changelist", "Produtos", true, "list_filter_link");
  }

  /** `products_count`: 0 without a key, else the number of products the company sells. */
  function ProductsCount(pk: Option<nat>, products: seq<Item>): nat
  {
    if pk.None? || pk.value == 0 then 0 else |WithCompany(products, pk.value)|
  }

  /** A `ProductsSale` as the admin reads it. */
  datatype SaleRecord = SaleRecord(company: nat, product: nat, sold: int, cost: Money)

  function SalesOfCompany(sales: seq<SaleRecord>, company: int): seq<SaleRecord>
    decreases |sales|
  {
    if sales == [] then []
    else (if sales[0].company == company then [sales[0]] else []) + SalesOfCompany(sales[1..], company)
  }

  function SalesOfProduct(sales: seq<SaleRecord>, product: nat): seq<SaleRecord>
    decreases |sales|
  {
    if sales == [] then []
    else (if sales[0].product == product then [sales[0]] else []) + SalesOfProduct(sales[1..], product)
  }

  function SumSold(sales: seq<SaleRecord>): int
    decreases |sales|
  {
    if sales == [] then 0 else sales[0].sold + SumSold(sales[1..])
  }

  /** `sold_products`: the units of the company's sales; an empty aggregate (None) becomes 0. */
  function SoldProducts(pk: nat, sales: seq<SaleRecord>): int
  {
    SumSold(SalesOfCompany(sales, pk))
  }

  // ----------------------------------------------------------- ProductAdmin

  /**
   * `get_productssale_for_company`: the product's sales, restricted to the
   * company of the request when its id is not empty. None stands for an
   * exception: a malformed filter string, or an id that is no integer.
   */
  function GetProductssaleForCompany(get: QueryDict, product: nat, sales: seq<SaleRecord>): Option<seq<SaleRecord>>
  {
    var q := SalesOfProduct(sales, product);
    match GetCompanyId(get)
    case MalformedFilters => None
    case NoCompany => Some(q)
    case CompanyIdOf(id) =>
      if id == "" then Some(q)
      else
        match ParseIntLiteral(id)
        case None => None
        case Some(n) => Some(SalesOfCompany(q, n))
  }

  /** `getattr(q, 'cost', '')`: a cost, or the empty string when there is no sale. */
  datatype CostCell = NoCost | Cost(m: Money)

  /** `current_cost`: the cost of the last of those sales. */
  function CurrentCost(get: QueryDict, product: nat, sales: seq<SaleRecord>): Option<CostCell>
  {
    match GetProductssaleForCompany(get, product, sales)
    case None => None
    case Some(q) => Some(if q == [] then NoCost else Cost(q[|q| - 1].cost))
  }
}
