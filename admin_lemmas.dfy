/**
 * What the admin helpers of manager/admin.py promise: which list filters
 * survive, how the company id is read back from the links the company page
 * writes, what the company filter keeps, and the sums and costs the pages
 * show, with the examples of the admin tests.
 */
module AdminLemmas {
  import opened Text
  import opened Models
  import opened Conversions
  import opened ConversionLemmas
  import opened Url
  import opened Admin

  // ----------------------------------------------------------- list filter

  /** A filter survives exactly when it is listed and not disabled; none is added. */
  lemma {:induction false} ListFilterSpec(get: QueryDict, listFilter: seq<string>)
    ensures forall f :: f in ListFilter(get, listFilter) <==> f in listFilter && !Disabled(get, f)
    ensures |ListFilter(get, listFilter)| <= |listFilter|
    decreases |listFilter|
  {
    if listFilter != [] {
      ListFilterSpec(get, listFilter[1..]);
      assert forall f :: f in listFilter <==> f == listFilter[0] || f in listFilter[1..];
    }
  }

  /** Filtering keeps the order: the survivors of a concatenation are those of each part, in turn. */
  lemma {:induction false} ListFilterAppend(get: QueryDict, a: seq<string>, b: seq<string>)
    ensures ListFilter(get, a + b) == ListFilter(get, a) + ListFilter(get, b)
    decreases |a|
  {
    if a != [] {
      assert (a + b)[0] == a[0] && (a + b)[1..] == a[1..] + b;
      ListFilterAppend(get, a[1..], b);
    } else {
      assert a + b == b;
    }
  }

  /** Without `_disable_filters` every filter is kept. */
  lemma {:induction false} ListFilterNothingDisabled(get: QueryDict, listFilter: seq<string>)
    requires "_disable_filters" !in get
    ensures ListFilter(get, listFilter) == listFilter
    decreases |listFilter|
  {
    if listFilter != [] {
      ListFilterNothingDisabled(get, listFilter[1..]);
      assert [listFilter[0]] + listFilter[1..] == listFilter;
    }
  }

  /** A needle whose first two characters never appear together in the haystack is not in it. */
  lemma NotContainedByPrefix(haystack: string, needle: string)
    requires |needle| >= 2
    requires forall i :: 0 <= i < |haystack| - 1 ==> haystack[i] != needle[0] || haystack[i + 1] != needle[1]
    ensures !Contains(haystack, needle)
  {
    ContainsAt(haystack, needle);
    forall i | 0 <= i <= |haystack| - |needle| ensures !OccursAt(haystack, needle, i)
    {
      assert haystack[i..i + |needle|][0] == haystack[i] && haystack[i..i + |needle|][1] == haystack[i + 1];
    }
  }

  lemma ContainsItself(s: string)
    ensures Contains(s, s)
  {
    assert StartsWith(s, s) by { assert s[..|s|] == s; }
  }

  lemma ListFilterOfThree(get: QueryDict, a: string, b: string, c: string)
    ensures ListFilter(get, [a, b, c]) ==
      (if Disabled(get, a) then [] else [a]) + (if Disabled(get, b) then [] else [b]) + (if Disabled(get, c) then [] else [c])
  {
    assert [a, b, c][1..] == [b, c] && [b, c][1..] == [c] && [c][1..] == [];
    assert ListFilter(get, [c]) == (if Disabled(get, c) then [] else [c]);
    assert ListFilter(get, [b, c]) == (if Disabled(get, b) then [] else [b]) + ListFilter(get, [c]);
  }

  /** The product page's example: `_disable_filters=company` hides the company filter and no other. */
  lemma DisableCompanyFilter()
    ensures ListFilter(map["_disable_filters" := "company"], ["name", "category", "company"]) == ["name", "category"]
  {
    var get := map["_disable_filters" := "company"];
    NotContainedByPrefix("company", "name");
    NotContainedByPrefix("company", "category");
    ContainsItself("company");
    ListFilterOfThree(get, "name", "category", "company");
  }

  // ------------------------------------------- list filter: exact names (finding)

  /** A filter named exactly by `_disable_filters`. */
  predicate DisabledExactly(get: QueryDict, f: string)
  {
    "_disable_filters" in get && get["_disable_filters"] == f
  }

  /** `get_list_filter` as its default `[]` suggests it was meant: a filter is hidden only when it is the one named. */
  function ListFilterExact(get: QueryDict, listFilter: seq<string>): seq<string>
    decreases |listFilter|
  {
    if listFilter == [] then []
    else (if DisabledExactly(get, listFilter[0]) then [] else [listFilter[0]]) + ListFilterExact(get, listFilter[1..])
  }

  /** The corrected filter hides the named filter and keeps every other one, in order. */
  lemma {:induction false} ListFilterExactSpec(get: QueryDict, listFilter: seq<string>)
    ensures forall f :: f in ListFilterExact(get, listFilter) <==> f in listFilter && !DisabledExactly(get, f)
    ensures "_disable_filters" in get && get["_disable_filters"] !in listFilter ==> ListFilterExact(get, listFilter) == listFilter
    decreases |listFilter|
  {
    if listFilter != [] {
      ListFilterExactSpec(get, listFilter[1..]);
      assert forall f :: f in listFilter <==> f == listFilter[0] || f in listFilter[1..];
      assert [listFilter[0]] + listFilter[1..] == listFilter;
    }
  }

  /** The two agree on the name the company page writes, for the product page's filters. */
  lemma ListFilterExactAgrees()
    ensures var get := map["_disable_filters" := "company"];
      ListFilterExact(get, ["company", "category", "name"]) == ListFilter(get, ["company", "category", "name"])
  {
    var get := map["_disable_filters" := "company"];
    NotContainedByPrefix("company", "name");
    NotContainedByPrefix("company", "category");
    ContainsItself("company");
    ListFilterOfThree(get, "company", "category", "name");
    var lf := ["company", "category", "name"];
    assert lf[1..] == ["category", "name"] && lf[1..][1..] == ["name"] && lf[1..][1..][1..] == [];
  }

  /**
   * As written, hiding the sales page's category filter `product__category`
   * hides its `product` filter too, "product" being a substring of it.
   */
  lemma HidingCategoryHidesProduct()
    ensures ListFilter(map["_disable_filters" := "product__category"], ["company", "product__category", "product"]) == ["company"]
  {
    var get := map["_disable_filters" := "product__category"];
    NotContainedByPrefix("product__category", "company");
    ContainsItself("product__category");
    assert StartsWith("product__category", "product");
    ListFilterOfThree(get, "company", "product__category", "product");
  }

  /** The corrected filter keeps it. */
  lemma HidingCategoryKeepsProduct()
    ensures ListFilterExact(map["_disable_filters" := "product__category"], ["company", "product__category", "product"]) ==
      ["company", "product"]
  {
    var lf := ["company", "product__category", "product"];
    assert lf[1..] == ["product__category", "product"] && lf[1..][1..] == ["product"] && lf[1..][1..][1..] == [];
  }

  // ------------------------------------------------------------ lookups

  /** The piece `param` has the key `k`. */
  predicate HasKey(param: string, k: string)
  {
    KeyValue(param).Some? && KeyValue(param).value.0 == k
  }

  /** The lookups exist exactly when every piece holds exactly one '='. */
  lemma {:induction false} LookupPairsDefined(params: seq<string>)
    ensures LookupPairs(params).Some? <==> forall i :: 0 <= i < |params| ==> KeyValue(params[i]).Some?
    decreases |params|
  {
    if params != [] {
      var prefix := params[..|params| - 1];
      LookupPairsDefined(prefix);
      assert forall i :: 0 <= i < |prefix| ==> prefix[i] == params[i];
    }
  }

  /** The value of a key is that of its last piece: later pieces overwrite earlier ones. */
  lemma {:induction false} LookupPairsLastWins(params: seq<string>, k: string, i: int)
    requires LookupPairs(params).Some?
    requires 0 <= i < |params| && HasKey(params[i], k)
    requires forall j :: i < j < |params| ==> !HasKey(params[j], k)
    ensures k in LookupPairs(params).value && LookupPairs(params).value[k] == KeyValue(params[i]).value.1
    decreases |params|
  {
    var prefix := params[..|params| - 1];
    if i < |params| - 1 {
      assert forall j :: i < j < |prefix| ==> prefix[j] == params[j];
      LookupPairsLastWins(prefix, k, i);
    }
  }

  /** A key no piece has is not looked up. */
  lemma {:induction false} LookupPairsAbsent(params: seq<string>, k: string)
    requires LookupPairs(params).Some?
    requires forall j :: 0 <= j < |params| ==> !HasKey(params[j], k)
    ensures k !in LookupPairs(params).value
    decreases |params|
  {
    if params != [] {
      var prefix := params[..|params| - 1];
      assert forall j :: 0 <= j < |prefix| ==> prefix[j] == params[j];
      LookupPairsAbsent(prefix, k);
    }
  }

  /** A piece with two '=' , or none, makes the whole construction fail. */
  lemma LookupPairsMalformed(params: seq<string>, i: int)
    requires 0 <= i < |params| && |Split(params[i], '=')| != 2
    ensures LookupPairs(params).None?
  {
    LookupPairsDefined(params);
  }

  lemma KeyValueOf(k: string, v: string)
    requires '=' !in k && '=' !in v
    ensures KeyValue(k + "=" + v) == Some((k, v))
  {
    SplitTwo(k, '=', v);
  }

  /** Text without '=' and '&', the two separators of a filter string. */
  predicate Plain(s: string)
  {
    '=' !in s && '&' !in s
  }

  lemma DigitsArePlain(s: string)
    requires AllDigits(s)
    ensures Plain(s)
  {
    forall i | 0 <= i < |s| ensures s[i] != '=' && s[i] != '&' { assert IsDigit(s[i]); }
  }

  /** One `key=value` piece reads back as that one lookup. */
  lemma LookupsOfOne(k: string, v: string)
    requires Plain(k) && Plain(v)
    ensures LookupPairs(Split(k + "=" + v, '&')) == Some(map[k := v])
  {
    var a := k + "=" + v;
    assert '&' !in a;
    SplitNoSep(a, '&');
    KeyValueOf(k, v);
    assert [a][..0] == [];
  }

  /** Two pieces joined by '&' read back as both lookups, the second winning on a shared key. */
  lemma LookupsOfTwo(k1: string, v1: string, k2: string, v2: string)
    requires Plain(k1) && Plain(v1) && Plain(k2) && Plain(v2)
    ensures LookupPairs(Split(k1 + "=" + v1 + ("&" + k2 + "=" + v2), '&')) == Some(map[k1 := v1, k2 := v2])
  {
    var a := k1 + "=" + v1;
    var b := k2 + "=" + v2;
    Assoc("&", k2, "=");
    Assoc("&", k2 + "=", v2);
    Assoc(a, "&", b);
    assert '&' !in a && '&' !in b;
    SplitTwo(a, '&', b);
    KeyValueOf(k1, v1);
    KeyValueOf(k2, v2);
    assert [a, b][..1] == [a] && [a][..0] == [];
    assert LookupPairs([a]) == Some(map[k1 := v1]);
    assert LookupPairs([a, b]) == Some(map[k1 := v1][k2 := v2]);
  }

  /**
   * `get_company_id`: a non-empty direct parameter wins; otherwise a
   * non-empty `_changelist_filters` is read, and fails exactly when one of
   * its pieces is not a single `key=value`; otherwise there is no id.
   */
  lemma GetCompanyIdSpec(get: QueryDict)
    ensures CompanyLookup in get && get[CompanyLookup] != "" ==> GetCompanyId(get) == CompanyIdOf(get[CompanyLookup])
    ensures (CompanyLookup !in get || get[CompanyLookup] == "") && (ChangelistLookup !in get || get[ChangelistLookup] == "") ==>
      GetCompanyId(get) == NoCompany
    ensures (CompanyLookup !in get || get[CompanyLookup] == "") && ChangelistLookup in get && get[ChangelistLookup] != "" ==>
      var pieces := Split(get[ChangelistLookup], '&');
      (GetCompanyId(get) == MalformedFilters <==> exists i :: 0 <= i < |pieces| && KeyValue(pieces[i]).None?)
  {
    if ChangelistLookup in get && get[ChangelistLookup] != "" {
      LookupPairsDefined(Split(get[ChangelistLookup], '&'));
    }
  }

  // ------------------------------------------------- links read back

  /** The lookups the filter string of a link gives: the company's key, and the hidden company filter if asked for. */
  lemma FiltersLookups(pk: nat, disableCompany: bool)
    ensures LookupPairs(Split(Filters(pk, disableCompany), '&')) ==
      Some(if disableCompany then map[CompanyLookup := NatToString(pk), DisableLookup := "company"]
           else map[CompanyLookup := NatToString(pk)])
  {
    DigitsArePlain(NatToString(pk));
    assert Plain(CompanyLookup) && Plain(DisableLookup) && Plain("company");
    if disableCompany {
      LookupsOfTwo(CompanyLookup, NatToString(pk), DisableLookup, "company");
    } else {
      LookupsOfOne(CompanyLookup, NatToString(pk));
      assert Filters(pk, false) == CompanyLookup + "=" + NatToString(pk);
    }
  }

  lemma ParseIntOfNat(n: nat)
    ensures ParseIntLiteral(NatToString(n)) == Some(n)
  {
    ParseSoldReadsRendering(n);
  }

  /** A related link of the company page opens a list of that company's rows only. */
  lemma RelatedLinkOpensCompanyList(pk: nat, items: seq<Item>)
    ensures var get := map[CompanyLookup := NatToString(pk), DisableLookup := "company"];
      LookupPairs(Split(Filters(pk, true), '&')) == Some(get) &&
      GetCompanyId(get) == CompanyIdOf(NatToString(pk)) &&
      GetQueryset(get, items) == Some(WithCompany(items, pk))
  {
    FiltersLookups(pk, true);
    ParseIntOfNat(pk);
  }

  /** On the product page that link opens, the company filter and only it is hidden. */
  lemma RelatedLinkHidesProductsCompanyFilter(get: QueryDict)
    requires DisableLookup in get && get[DisableLookup] == "company"
    ensures ListFilter(get, ["company", "category", "name"]) == ["category", "name"]
  {
    ContainsItself("company");
    NotContainedByPrefix("company", "category");
    NotContainedByPrefix("company", "name");
    ListFilterOfThree(get, "company", "category", "name");
  }

  /** On the sales page that link opens, likewise. */
  lemma RelatedLinkHidesSalesCompanyFilter(get: QueryDict)
    requires DisableLookup in get && get[DisableLookup] == "company"
    ensures ListFilter(get, ["company", "product__category", "product"]) == ["product__category", "product"]
  {
    ContainsItself("company");
    NotContainedByPrefix("company", "product__category");
    NotContainedByPrefix("company", "product");
    ListFilterOfThree(get, "company", "product__category", "product");
  }

  /** Text of letters, digits and "_.-~" only, which encoding leaves alone. */
  predicate AllUnreserved(s: string)
  {
    forall i :: 0 <= i < |s| ==> Unreserved(s[i])
  }

  /** Encoding `k=v` turns its '=' into "%3D". */
  lemma QuoteLookup(k: string, v: string)
    requires AllUnreserved(k) && AllUnreserved(v)
    ensures AllAscii(k + "=" + v) && QuotePlus(k + "=" + v) == k + "%3D" + v
  {
    QuotePlusUnreserved(k);
    QuotePlusUnreserved(v);
    QuoteSeparators();
    QuotePlusAppend(k, "=");
    QuotePlusAppend(k + "=", v);
  }

  /** Encoding `k1=v1&k2=v2` turns each '=' into "%3D" and the '&' into "%26". */
  lemma QuoteTwoLookups(k1: string, v1: string, k2: string, v2: string)
    requires AllUnreserved(k1) && AllUnreserved(v1) && AllUnreserved(k2) && AllUnreserved(v2)
    ensures QuotePlus(k1 + "=" + v1 + ("&" + k2 + "=" + v2)) == k1 + "%3D" + v1 + ("%26" + k2 + "%3D" + v2)
  {
    var a := k1 + "=" + v1;
    var b := k2 + "=" + v2;
    QuoteLookup(k1, v1);
    QuoteLookup(k2, v2);
    QuoteSeparators();
    QuotePlusAppend("&", b);
    Assoc("&", k2, "=");
    Assoc("&", k2 + "=", v2);
    Assoc("%26", k2, "%3D");
    Assoc("%26", k2 + "%3D", v2);
    QuotePlusAppend(a, "&" + b);
  }

  lemma DigitsAreUnreserved(s: string)
    requires AllDigits(s)
    ensures AllUnreserved(s)
  {
    forall i | 0 <= i < |s| ensures Unreserved(s[i]) { assert IsDigit(s[i]); }
  }

  /** The change-view link's query, encoded: each '=' and '&' of the filters becomes "%3D" and "%26". */
  lemma ChangeViewQuery(pk: nat, disableCompany: bool)
    ensures LinkQuery(pk, "change", disableCompany) ==
      ChangelistLookup + "=" + (CompanyLookup + "%3D" + NatToString(pk) +
      (if disableCompany then "%26" + DisableLookup + "%3D" + "company" else ""))
  {
    DigitsAreUnreserved(NatToString(pk));
    assert AllUnreserved(CompanyLookup) && AllUnreserved(DisableLookup) && AllUnreserved("company");
    if disableCompany {
      QuoteTwoLookups(CompanyLookup, NatToString(pk), DisableLookup, "company");
    } else {
      QuoteLookup(CompanyLookup, NatToString(pk));
      assert Filters(pk, false) == CompanyLookup + "=" + NatToString(pk);
      assert CompanyLookup + "%3D" + NatToString(pk) + "" == CompanyLookup + "%3D" + NatToString(pk);
    }
  }

  /** Decoding the change-view link's parameter gives back the company's key. */
  lemma ChangeViewRoundTrip(pk: nat, disableCompany: bool)
    ensures GetCompanyId(map[ChangelistLookup := UnquotePlus(QuotePlus(Filters(pk, disableCompany)))]) ==
      CompanyIdOf(NatToString(pk))
  {
    UnquoteQuotePlus(Filters(pk, disableCompany));
    FiltersLookups(pk, disableCompany);
    assert ChangelistLookup != CompanyLookup && ChangelistLookup != DisableLookup;
    assert |Filters(pk, disableCompany)| > 0;
  }

  // ------------------------------------------------------ company filter

  /** The company filter keeps exactly the rows of that company, in their order. */
  lemma {:induction false} WithCompanySpec(items: seq<Item>, n: int)
    ensures forall x :: x in WithCompany(items, n) <==> x in items && n in x.companies
    ensures |WithCompany(items, n)| <= |items|
    decreases |items|
  {
    if items != [] {
      WithCompanySpec(items[1..], n);
      assert forall x :: x in items <==> x == items[0] || x in items[1..];
    }
  }

  lemma {:induction false} WithCompanyAppend(a: seq<Item>, b: seq<Item>, n: int)
    ensures WithCompany(a + b, n) == WithCompany(a, n) + WithCompany(b, n)
    decreases |a|
  {
    if a != [] {
      assert (a + b)[0] == a[0] && (a + b)[1..] == a[1..] + b;
      WithCompanyAppend(a[1..], b, n);
    } else {
      assert a + b == b;
    }
  }

  /** With a company's key as the id, the list holds that company's rows and no other. */
  lemma GetQuerysetOfCompany(get: QueryDict, items: seq<Item>, pk: nat)
    requires GetCompanyId(get) == CompanyIdOf(NatToString(pk))
    ensures GetQueryset(get, items).Some?
    ensures forall x :: x in GetQueryset(get, items).value <==> x in items && pk in x.companies
  {
    ParseIntOfNat(pk);
    WithCompanySpec(items, pk);
  }

  /** Without an id the list is the whole list. */
  lemma GetQuerysetWithoutCompany(get: QueryDict, items: seq<Item>)
    requires CompanyLookup !in get && ChangelistLookup !in get
    ensures GetQueryset(get, items) == Some(items)
  {
  }

  /**
   * An empty id inside `_changelist_filters` is an id for `get_queryset`,
   * which then fails to read it as a key, but no id for
   * `get_productssale_for_company`, which then keeps every sale.
   */
  lemma EmptyChangelistId(items: seq<Item>, product: nat, sales: seq<SaleRecord>)
    ensures var get := map[ChangelistLookup := CompanyLookup + "=" + ""];
      GetCompanyId(get) == CompanyIdOf("") &&
      GetQueryset(get, items).None? &&
      GetProductssaleForCompany(get, product, sales) == Some(SalesOfProduct(sales, product))
  {
    assert Plain(CompanyLookup) && Plain("");
    LookupsOfOne(CompanyLookup, "");
    assert ChangelistLookup != CompanyLookup;
    assert |CompanyLookup + "=" + ""| > 0;
  }

  /** The product page's example: filtered by the second company, only the product it sells is listed. */
  lemma QuerysetFilteredByCompany()
    ensures GetQueryset(map[CompanyLookup := "2"], [Item(1, {1, 2}), Item(2, {1})]) == Some([Item(1, {1, 2})])
  {
    assert NatToString(2) == "2";
    ParseIntOfNat(2);
    var items := [Item(1, {1, 2}), Item(2, {1})];
    assert items[1..] == [Item(2, {1})] && items[1..][1..] == [];
    assert WithCompany(items[1..], 2) == [];
    assert WithCompany(items, 2) == [Item(1, {1, 2})];
    var get := map[CompanyLookup := "2"];
    assert get[CompanyLookup] == "2" && GetCompanyId(get) == CompanyIdOf("2");
  }

  // ------------------------------------------------------ products count

  /** The count of a company's products adds up over a split of the products. */
  lemma ProductsCountAppend(pk: nat, a: seq<Item>, b: seq<Item>)
    ensures ProductsCount(Some(pk), a + b) == ProductsCount(Some(pk), a) + ProductsCount(Some(pk), b)
  {
    WithCompanyAppend(a, b, pk);
  }

  /** An unsaved company, or one selling none of the products, counts 0; one selling them all counts them all. */
  lemma {:induction false} ProductsCountBounds(pk: Option<nat>, products: seq<Item>)
    ensures pk.None? ==> ProductsCount(pk, products) == 0
    ensures ProductsCount(pk, products) <= |products|
    ensures pk.Some? && (forall i :: 0 <= i < |products| ==> pk.value !in products[i].companies) ==> ProductsCount(pk, products) == 0
    ensures pk.Some? && pk.value != 0 && (forall i :: 0 <= i < |products| ==> pk.value in products[i].companies) ==>
      ProductsCount(pk, products) == |products|
    decreases |products|
  {
    if pk.Some? && pk.value != 0 {
      WithCompanySpec(products, pk.value);
      if products != [] {
        var rest := products[1..];
        assert forall i :: 0 <= i < |rest| ==> rest[i] == products[i + 1];
        ProductsCountBounds(pk, rest);
      }
    }
  }

  // ------------------------------------------------------- sold products

  lemma {:induction false} SumSoldAppend(a: seq<SaleRecord>, b: seq<SaleRecord>)
    ensures SumSold(a + b) == SumSold(a) + SumSold(b)
    decreases |a|
  {
    if a != [] {
      assert (a + b)[0] == a[0] && (a + b)[1..] == a[1..] + b;
      SumSoldAppend(a[1..], b);
    } else {
      assert a + b == b;
    }
  }

  lemma {:induction false} SalesOfCompanyAppend(a: seq<SaleRecord>, b: seq<SaleRecord>, company: int)
    ensures SalesOfCompany(a + b, company) == SalesOfCompany(a, company) + SalesOfCompany(b, company)
    decreases |a|
  {
    if a != [] {
      assert (a + b)[0] == a[0] && (a + b)[1..] == a[1..] + b;
      SalesOfCompanyAppend(a[1..], b, company);
    } else {
      assert a + b == b;
    }
  }

  lemma {:induction false} SalesOfProductAppend(a: seq<SaleRecord>, b: seq<SaleRecord>, product: nat)
    ensures SalesOfProduct(a + b, product) == SalesOfProduct(a, product) + SalesOfProduct(b, product)
    decreases |a|
  {
    if a != [] {
      assert (a + b)[0] == a[0] && (a + b)[1..] == a[1..] + b;
      SalesOfProductAppend(a[1..], b, product);
    } else {
      assert a + b == b;
    }
  }

  /** A new sale adds its units to its own company's total and leaves every other company's alone. */
  lemma SoldProductsSnoc(pk: nat, sales: seq<SaleRecord>, x: SaleRecord)
    ensures SoldProducts(pk, sales + [x]) == SoldProducts(pk, sales) + (if x.company == pk then x.sold else 0)
  {
    SalesOfCompanyAppend(sales, [x], pk);
    SumSoldAppend(SalesOfCompany(sales, pk), SalesOfCompany([x], pk));
    assert [x][1..] == [];
  }

  /** A company without sales has sold 0. */
  lemma {:induction false} SoldProductsNoSales(pk: nat, sales: seq<SaleRecord>)
    requires forall i :: 0 <= i < |sales| ==> sales[i].company != pk
    ensures SoldProducts(pk, sales) == 0
    decreases |sales|
  {
    if sales != [] {
      var rest := sales[1..];
      assert forall i :: 0 <= i < |rest| ==> rest[i] == sales[i + 1];
      SoldProductsNoSales(pk, rest);
      assert SalesOfCompany(sales, pk) == SalesOfCompany(rest, pk);
    }
  }

  /** The company page's example: sales of 5, 7, 2, 10, 4 and 1 units make 29. */
  lemma SoldProductsExample(pk: nat)
    ensures SoldProducts(pk, [SaleRecord(pk, 1, 5, Brl(350)), SaleRecord(pk, 1, 7, Brl(350)),
                              SaleRecord(pk, 2, 2, Brl(1000)), SaleRecord(pk, 2, 10, Brl(1000)),
                              SaleRecord(pk, 3, 4, Brl(199)), SaleRecord(pk, 3, 1, Brl(199))]) == 29
  {
    var s0 := [SaleRecord(pk, 1, 5, Brl(350))];
    var s1 := s0 + [SaleRecord(pk, 1, 7, Brl(350))];
    var s2 := s1 + [SaleRecord(pk, 2, 2, Brl(1000))];
    var s3 := s2 + [SaleRecord(pk, 2, 10, Brl(1000))];
    var s4 := s3 + [SaleRecord(pk, 3, 4, Brl(199))];
    var s5 := s4 + [SaleRecord(pk, 3, 1, Brl(199))];
    SoldProductsSnoc(pk, [], SaleRecord(pk, 1, 5, Brl(350)));
    assert [] + s0 == s0;
    SoldProductsSnoc(pk, s0, SaleRecord(pk, 1, 7, Brl(350)));
    SoldProductsSnoc(pk, s1, SaleRecord(pk, 2, 2, Brl(1000)));
    SoldProductsSnoc(pk, s2, SaleRecord(pk, 2, 10, Brl(1000)));
    SoldProductsSnoc(pk, s3, SaleRecord(pk, 3, 4, Brl(199)));
    SoldProductsSnoc(pk, s4, SaleRecord(pk, 3, 1, Brl(199)));
    assert s5 == [SaleRecord(pk, 1, 5, Brl(350)), SaleRecord(pk, 1, 7, Brl(350)),
                  SaleRecord(pk, 2, 2, Brl(1000)), SaleRecord(pk, 2, 10, Brl(1000)),
                  SaleRecord(pk, 3, 4, Brl(199)), SaleRecord(pk, 3, 1, Brl(199))];
  }

  // -------------------------------------------------------- current cost

  /** A sale the product page reads: of the product, and of the request's company when one is named. */
  predicate SaleMatches(get: QueryDict, product: nat, x: SaleRecord)
  {
    x.product == product &&
    match GetCompanyId(get)
    case CompanyIdOf(id) => id == "" || ParseIntLiteral(id) == Some(x.company as int)
    case _ => true
  }

  lemma {:induction false} SalesOfProductSpec(sales: seq<SaleRecord>, product: nat)
    ensures forall x :: x in SalesOfProduct(sales, product) <==> x in sales && x.product == product
    decreases |sales|
  {
    if sales != [] {
      SalesOfProductSpec(sales[1..], product);
      assert forall x :: x in sales <==> x == sales[0] || x in sales[1..];
    }
  }

  lemma {:induction false} SalesOfCompanySpec(sales: seq<SaleRecord>, company: int)
    ensures forall x :: x in SalesOfCompany(sales, company) <==> x in sales && x.company == company
    decreases |sales|
  {
    if sales != [] {
      SalesOfCompanySpec(sales[1..], company);
      assert forall x :: x in sales <==> x == sales[0] || x in sales[1..];
    }
  }

  /** The sales the product page reads are exactly the matching ones. */
  lemma GetProductssaleSpec(get: QueryDict, product: nat, sales: seq<SaleRecord>)
    requires GetProductssaleForCompany(get, product, sales).Some?
    ensures forall x :: x in GetProductssaleForCompany(get, product, sales).value <==> x in sales && SaleMatches(get, product, x)
  {
    SalesOfProductSpec(sales, product);
    match GetCompanyId(get)
    case CompanyIdOf(id) =>
      if id != "" {
        var n := ParseIntLiteral(id).value;
        SalesOfCompanySpec(SalesOfProduct(sales, product), n);
      }
    case _ =>
  }

  /**
   * The cost shown is that of the last matching sale: a new matching sale
   * sets it, any other sale leaves it.
   */
  lemma CurrentCostSnoc(get: QueryDict, product: nat, sales: seq<SaleRecord>, x: SaleRecord)
    requires GetProductssaleForCompany(get, product, sales).Some?
    ensures CurrentCost(get, product, sales + [x]) ==
      if SaleMatches(get, product, x) then Some(Cost(x.cost)) else CurrentCost(get, product, sales)
  {
    SalesOfProductAppend(sales, [x], product);
    assert [x][1..] == [];
    var q := SalesOfProduct(sales, product);
    var qx := SalesOfProduct([x], product);
    if GetCompanyId(get).CompanyIdOf? && GetCompanyId(get).id != "" {
      var n := ParseIntLiteral(GetCompanyId(get).id).value;
      SalesOfCompanyAppend(q, qx, n);
      if x.product == product {
        assert qx == [x];
      } else {
        assert qx == [];
        assert q + qx == q;
      }
    } else {
      assert x.product != product ==> q + qx == q;
    }
  }

  lemma {:induction false} SalesOfProductNone(sales: seq<SaleRecord>, product: nat)
    requires forall x :: x in sales ==> x.product != product
    ensures SalesOfProduct(sales, product) == []
    decreases |sales|
  {
    if sales != [] {
      assert sales[0] in sales;
      assert forall x :: x in sales[1..] ==> x in sales;
      SalesOfProductNone(sales[1..], product);
    }
  }

  lemma {:induction false} SalesOfCompanyNone(sales: seq<SaleRecord>, company: int)
    requires forall x :: x in sales ==> x.company != company
    ensures SalesOfCompany(sales, company) == []
    decreases |sales|
  {
    if sales != [] {
      assert sales[0] in sales;
      assert forall x :: x in sales[1..] ==> x in sales;
      SalesOfCompanyNone(sales[1..], company);
    }
  }

  /** With no matching sale the cell is empty. */
  lemma CurrentCostWithoutSale(get: QueryDict, product: nat, sales: seq<SaleRecord>)
    requires GetProductssaleForCompany(get, product, sales).Some?
    requires forall x :: x in sales ==> !SaleMatches(get, product, x)
    ensures CurrentCost(get, product, sales) == Some(NoCost)
  {
    var q := SalesOfProduct(sales, product);
    SalesOfProductSpec(sales, product);
    if GetCompanyId(get).CompanyIdOf? && GetCompanyId(get).id != "" {
      var n := ParseIntLiteral(GetCompanyId(get).id).value;
      SalesOfCompanyNone(q, n);
    } else {
      SalesOfProductNone(sales, product);
    }
  }

  /** The product page's sales: two of the first company at 3,50, then two of the second at 4,50. */
  const ProductSales := [SaleRecord(1, 7, 5, Brl(350)), SaleRecord(1, 7, 7, Brl(350)),
                         SaleRecord(2, 7, 7, Brl(450)), SaleRecord(2, 7, 7, Brl(450))]

  lemma ProductSalesOfProduct()
    ensures SalesOfProduct(ProductSales, 7) == ProductSales
    ensures SalesOfCompany(ProductSales, 1) == ProductSales[..2]
  {
    var s := ProductSales;
    assert s[1..][1..][1..][1..] == [];
    assert SalesOfProduct(s[1..][1..][1..], 7) == s[1..][1..][1..];
    assert SalesOfProduct(s[1..][1..], 7) == s[1..][1..];
    assert SalesOfProduct(s[1..], 7) == s[1..];
    assert [s[0]] + s[1..] == s;
    assert SalesOfCompany(s[1..][1..][1..], 1) == [];
    assert SalesOfCompany(s[1..][1..], 1) == [];
    assert SalesOfCompany(s[1..], 1) == [s[1]];
    assert s[..2] == [s[0], s[1]];
  }

  /** Without a company the last sale's cost, 4,50. */
  lemma CurrentCostOfAllCompanies()
    ensures CurrentCost(map[], 7, ProductSales) == Some(Cost(Brl(450)))
  {
    ProductSalesOfProduct();
  }

  /** Filtered by the first company on the list page, 3,50. */
  lemma CurrentCostOnListPage()
    ensures CurrentCost(map[CompanyLookup := "1"], 7, ProductSales) == Some(Cost(Brl(350)))
  {
    ProductSalesOfProduct();
    assert NatToString(1) == "1";
    ParseIntOfNat(1);
  }

  /** The change page's parameter `_changelist_filters=company__id__exact=1` names the first company. */
  lemma ChangePageCompanyId()
    ensures GetCompanyId(map[ChangelistLookup := CompanyLookup + "=" + "1"]) == CompanyIdOf("1")
  {
    assert Plain(CompanyLookup) && Plain("1");
    LookupsOfOne(CompanyLookup, "1");
    assert ChangelistLookup != CompanyLookup;
    assert |CompanyLookup + "=" + "1"| > 0;
  }

  /** Filtered by the first company through the change page's `_changelist_filters`, 3,50 as well. */
  lemma CurrentCostOnChangePage()
    ensures CurrentCost(map[ChangelistLookup := CompanyLookup + "=" + "1"], 7, ProductSales) == Some(Cost(Brl(350)))
  {
    ChangePageCompanyId();
    ProductSalesOfProduct();
    assert NatToString(1) == "1";
    ParseIntOfNat(1);
  }
}
