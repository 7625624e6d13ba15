/**
 * `MobikomBizCrawler` (spiders/mobikom_biz_cralwer.py): the callbacks that turn parsed
 * responses into further requests and, at the end of each product's chain, one item.
 * Scrapy's scheduler is not modelled: each callback is a method that returns the requests
 * it yields, and the response it receives is the parsed page it is given.
 */
module Crawler {
  import opened Wrappers
  import opened PyText
  import opened Handler
  import opened Parser

  /** `domain_url()`. */
  const DomainUrl: string := "http://mobikom.biz/"

  /** The part of `new_page_url` before the page number. */
  const PagePrefix: string := DomainUrl + "catalog?all=New&p="

  /** The part of `new_page_url` between the two copies of the page number. */
  const MorePage: string := "&morePage="

  /** `new_page_url(page)`: the catalog URL for a page, the number given twice. */
  function NewPageUrl(page: nat): (url: string)
    ensures |url| > |PagePrefix| && url[..|PagePrefix|] == PagePrefix
  {
    PagePrefix + NatToString(page) + MorePage + NatToString(page)
  }

  /** In `d + "&morePage=" + t`, the first `&` comes right after the digits `d`. */
  lemma MarkAt(d: string, t: string, k: nat)
    requires IsDigits(d) && k <= |d|
    ensures (d + MorePage + t)[k] == '&' <==> k == |d|
  {
    if k < |d| {
      assert IsDigit(d[k]);
    }
  }

  /** The digits and `&morePage=` cannot be confused: `d1 + M + ...` equals `d2 + M + ...` only for equal digits. */
  lemma {:induction false} DigitsBeforeMark(d1: string, d2: string, t1: string, t2: string)
    requires IsDigits(d1) && IsDigits(d2)
    requires d1 + MorePage + t1 == d2 + MorePage + t2
    ensures d1 == d2
  {
    var x, y := d1 + MorePage + t1, d2 + MorePage + t2;
    var m := if |d1| < |d2| then |d1| else |d2|;
    MarkAt(d1, t1, m);
    MarkAt(d2, t2, m);
    assert d1 == x[..|d1|] == y[..|d2|] == d2;
  }

  /** Different pages get different URLs, so the scheduler's duplicate filter keeps every page. */
  lemma NewPageUrlInjective(a: nat, b: nat)
    requires NewPageUrl(a) == NewPageUrl(b)
    ensures a == b
  {
    var sa, sb := NatToString(a), NatToString(b);
    var ta, tb := MorePage + sa, MorePage + sb;
    assert PagePrefix + sa + ta == NewPageUrl(a);
    assert PagePrefix + sb + tb == NewPageUrl(b);
    assert sa + MorePage + sa == NewPageUrl(a)[|PagePrefix|..];
    assert sb + MorePage + sb == NewPageUrl(b)[|PagePrefix|..];
    DigitsBeforeMark(sa, sb, sa, sb);
    DigitsRoundTrip(a);
    DigitsRoundTrip(b);
  }

  /** The first catalog page's URL. */
  lemma FirstPageUrl(url: string)
    requires url == NewPageUrl(1)
    ensures url == "http://mobikom.biz/catalog?all=New&p=1&morePage=1"
  {
    assert NatToString(1) == "1";
  }

  /** `f'{domain_url()}{product.href}'`: Python formats a missing href as "None". */
  function ProductUrl(href: Option<string>): (url: string)
    ensures href.Some? ==> url == DomainUrl + href.value
    ensures href.None? ==> url == DomainUrl + "None"
  {
    DomainUrl + match href case Some(h) => h case None => "None"
  }

  /** The callback a request names. */
  datatype Callback = NewProductsCallback | DetailProductCallback | GrivnaPriceCallback

  /** A `scrapy.Request`: its URL, callback, the product passed in `cb_kwargs`, `dont_filter` and `dont_merge_cookies`. */
  datatype Request = Request(
    url: string,
    callback: Callback,
    product: Option<Product>,
    dontFilter: bool,
    dontMergeCookies: bool)

  /**
   * The request for catalog page `page`: a catalog URL, handled by `parse_new_products`,
   * with no product attached and subject to the scheduler's duplicate filter.
   */
  function PageRequest(page: nat): (r: Request)
    ensures |r.url| > |PagePrefix| && r.url[..|PagePrefix|] == PagePrefix
    ensures r.callback == NewProductsCallback && r.product.None?
    ensures !r.dontFilter && !r.dontMergeCookies
  {
    Request(NewPageUrl(page), NewProductsCallback, None, false, false)
  }

  /**
   * The detail request `parse_new_products` yields for a product: the product's page,
   * handled by `parse_detail_product` with the product attached, and never dropped by the
   * duplicate filter, so two listings with one `href` both reach the detail stage.
   */
  function DetailRequest(product: Product): (r: Request)
    reads product
    ensures product.href.Some? ==> r.url == DomainUrl + product.href.value
    ensures r.callback == DetailProductCallback && r.product == Some(product)
    ensures r.dontFilter && !r.dontMergeCookies
  {
    Request(ProductUrl(product.href), DetailProductCallback, Some(product), true, false)
  }

  /** The page numbers left in `pages` after one `next`, when there was one. */
  function Advanced(pages: Option<Cursor>): Option<Cursor> {
    match pages
    case None => None
    case Some(c) => Some(Next(c).1)
  }

  class MobikomBizCrawler {
    /** The iterator over the catalog pages still to request; `None` until the first catalog page is read. */
    var pages: Option<Cursor>

    /** Every cursor the crawler holds starts at page 2 or later, so every page number is positive. */
    ghost predicate Valid()
      reads this
    {
      pages.Some? ==> 2 <= pages.value.next
    }

    constructor ()
      ensures pages == None && Valid()
    {
      pages := None;
    }

    /**
     * `create_next_page_requst`: no request without an iterator; otherwise takes the next
     * page number and requests it, or none once the iterator is exhausted.
     */
    method CreateNextPageRequest() returns (r: Option<Request>)
      requires Valid()
      modifies this
      ensures Valid()
      ensures pages == Advanced(old(pages))
      ensures old(pages).None? ==> r.None?
      ensures old(pages).Some? ==>
        var (page, _) := Next(old(pages).value);
        r == (if page.None? then None else Some(PageRequest(page.value)))
    {
      if pages.None? {
        return None;
      }
      var (page, rest) := Next(pages.value);
      pages := Some(rest);
      if page.None? || page.value == 0 {
        return None;
      }
      return Some(PageRequest(page.value));
    }

    /** `parse_profile_page_data`: the request for the first catalog page. */
    method ParseProfilePageData() returns (r: Request)
      ensures r.url == "http://mobikom.biz/catalog?all=New&p=1&morePage=1"
      ensures r.callback == NewProductsCallback && r.product.None? && !r.dontFilter
    {
      r := PageRequest(1);
      FirstPageUrl(r.url);
    }

    /**
     * `parse_new_products`: reads the page count from the first catalog page only, yields
     * a detail request per product in listing order, then the next page's request. An
     * exception from the parser ends the generator before the next page is requested.
     */
    method ParseNewProducts(lib: Lib, page: CatalogPage) returns (requests: seq<Request>, err: Option<Error>)
      requires Valid()
      modifies this
      ensures Valid()
      ensures var pagesRead := if old(pages).None? then ParsePageNumbers(lib, page) else old(pages);
        && (err.Some? ==> pages == pagesRead)
        && (err.None? ==> pages == Advanced(pagesRead))
      ensures DivTags(page).Failure? ==> requests == [] && err == Some(DivTags(page).error)
      ensures DivTags(page).Success? ==>
        var s := Scan(lib, DivTags(page).value);
        && err == s.error
        && |requests| >= |s.kept|
        && (forall i :: 0 <= i < |s.kept| ==>
              && requests[i].url == DomainUrl + s.kept[i].href
              && requests[i].callback == DetailProductCallback
              && requests[i].product.Some? && fresh(requests[i].product.value)
              && requests[i].product.value.State() == Listed(s.kept[i])
              && requests[i].dontFilter && !requests[i].dontMergeCookies)
      ensures err.Some? ==> forall i :: 0 <= i < |requests| ==> requests[i].callback == DetailProductCallback
      ensures DivTags(page).Success? && err.Some? ==> |requests| == |Scan(lib, DivTags(page).value).kept|
      ensures err.None? ==>
        var pagesRead := if old(pages).None? then ParsePageNumbers(lib, page) else old(pages);
        var next := if pagesRead.Some? then Next(pagesRead.value).0 else None;
        && |requests| == |Scan(lib, DivTags(page).value).kept| + (if next.Some? then 1 else 0)
        && (next.Some? ==> requests[|requests| - 1] == PageRequest(next.value))
    {
      if pages.None? {
        pages := ParsePageNumbers(lib, page);
      }
      var products;
      products, err := Parser.ParseNewProducts(lib, page);
      requests := [];
      for i := 0 to |products|
        invariant |requests| == i
        invariant forall k :: 0 <= k < i ==> requests[k] == DetailRequest(products[k])
      {
        requests := requests + [DetailRequest(products[i])];
      }
      if err.Some? {
        return;
      }
      var nextPageReq := CreateNextPageRequest();
      if nextPageReq.None? {
        return;
      }
      requests := requests + [nextPageReq.value];
    }

    /**
     * `parse_detail_product`: fills in the description and images; when the product is kept,
     * requests its page again, with `dont_merge_cookies`, for the grivna price.
     */
    method ParseDetailProduct(lib: Lib, page: ProductPage, product: Product) returns (r: Option<Request>)
      modifies product
      ensures var images := ExtractImagesHref(page);
        && product.State() == old(product.State()).(
             description := ExtractDescription(lib, page),
             imagesHref := if images.Some? then images.value else old(product.imagesHref))
        && r == (if images.Some?
                 then Some(Request(ProductUrl(product.href), GrivnaPriceCallback, Some(product), true, true))
                 else None)
    {
      var detailProduct := Parser.ParseDetailProduct(lib, page, product);
      if detailProduct == null {
        return None;
      }
      return Some(Request(ProductUrl(product.href), GrivnaPriceCallback, Some(detailProduct), true, true));
    }

    /**
     * `parse_grivna_price`: sets the grivna price and the time of parsing, and yields the
     * product's fields as the item.
     */
    method ParseGrivnaPrice(lib: Lib, page: ProductPage, product: Product, now: Timestamp) returns (item: ProductState)
      modifies product
      ensures product.State() == old(product.State()).(grivnaPrice := Parser.ParseGrivnaPrice(lib, page), dateParsed := Some(now))
      ensures item == product.State()
    {
      product.grivnaPrice := Parser.ParseGrivnaPrice(lib, page);
      product.dateParsed := Some(now);
      item := product.State();
    }
  }

  /**
   * One product's whole chain: a fresh crawler reads a catalog page, follows the first
   * detail request to the product page, and that page's price request to the price page.
   * The item carries the listing's fields, the product page's description and images,
   * and the price page's grivna price.
   */
  method FollowFirstProduct(lib: Lib, catalog: CatalogPage, detail: ProductPage, pricePage: ProductPage, now: Timestamp)
    returns (item: Option<ProductState>)
    ensures item.Some? <==>
      DivTags(catalog).Success? && Scan(lib, DivTags(catalog).value).kept != [] && ExtractImagesHref(detail).Some?
    ensures item.Some? ==>
      var l := Scan(lib, DivTags(catalog).value).kept[0];
      item.value == ProductState(
        Some(l.name), Some(l.href), Parser.ParseGrivnaPrice(lib, pricePage), Some(l.dollarPrice), Some(true),
        None, ExtractDescription(lib, detail), ExtractImagesHref(detail).value, Some(now))
  {
    var crawler := new MobikomBizCrawler();
    var requests, err := crawler.ParseNewProducts(lib, catalog);
    if DivTags(catalog).Failure? || Scan(lib, DivTags(catalog).value).kept == [] {
      return None;
    }
    var product := requests[0].product.value;
    var priceRequest := crawler.ParseDetailProduct(lib, detail, product);
    if priceRequest.None? {
      return None;
    }
    var emitted := crawler.ParseGrivnaPrice(lib, pricePage, priceRequest.value.product.value, now);
    return Some(emitted);
  }
}
