/**
 * `MobikomBizParser` (spiders/mobikom_biz_parser.py): the decisions taken once
 * BeautifulSoup has found the nodes. A found node is given as the text and `href`
 * attribute the code reads from it; a `find` that matched nothing is `None`.
 */
module Parser {
  import opened Wrappers
  import opened PyText
  import opened Handler

  /** Seconds since the epoch, standing for the `datetime` that `datetime.now()` gives. */
  type Timestamp = int

  // ---------------------------------------------------------------- found nodes

  /** A node returned by `find`: its `.text` and its `href` attribute (`None` when it has none). */
  datatype Tag = Tag(text: string, href: Option<string>)

  /** One listing `div`, as the four `find` calls inside it see it. */
  datatype ListingDiv = ListingDiv(
    nameSpan: Option<Tag>,     // span.product-name
    imageLink: Option<Tag>,    // a.product-item-img
    listCost: Option<Tag>,     // p.list-cost
    instockSpan: Option<Tag>)  // span.instock

  /** The two `find_all` results over one document: first-item divs and generic divs. */
  datatype Listings = Listings(first: seq<ListingDiv>, generic: seq<ListingDiv>)

  /** Which of the two listing classes a `find_all` asks for. */
  datatype Variant = FirstItem | Generic

  /** What `deserialize` makes of a catalog body, as far as `extract_div_tags_json_data` looks. */
  datatype Envelope =
    | NotJson                      // `deserialize` raises ValueConversionError
    | NotObject                    // valid JSON without `.get`, so AttributeError
    | Object(html: Option<Listings>) // `None` when the `html` key is missing or empty

  /** div.pagination with its `a[data-page=right]` link. */
  datatype PaginationDiv = PaginationDiv(rightLink: Option<Tag>)

  /** A catalog response: the body read as HTML, the body read as JSON, the pagination control. */
  datatype CatalogPage = CatalogPage(html: Listings, json: Envelope, pagination: Option<PaginationDiv>)

  /** div#product-item-description: the texts of its `p` descendants without a class. */
  datatype DescriptionDiv = DescriptionDiv(paragraphs: seq<string>)

  /** div#product-item-imgs: the `href` attribute of each of its `a` descendants. */
  datatype ImagesDiv = ImagesDiv(links: seq<Option<string>>)

  /** A product page: description, gallery and p.info-cost. */
  datatype ProductPage = ProductPage(
    description: Option<DescriptionDiv>,
    images: Option<ImagesDiv>,
    infoCost: Option<Tag>)

  // ---------------------------------------------------------------- the product record

  /** The nine fields of a product, in the order the export writes them. */
  datatype ProductState = ProductState(
    name: Option<string>,
    href: Option<string>,
    grivnaPrice: Option<real>,
    dollarPrice: Option<real>,
    instock: Option<bool>,
    imageHref: Option<string>,
    description: Option<string>,
    imagesHref: seq<string>,
    dateParsed: Option<Timestamp>)

  /** A freshly constructed `Product()`: every field `None`, no images. */
  const Blank := ProductState(None, None, None, None, None, None, None, [], None)

  /** The `Product` dataclass; the detail and price stages fill it in place. */
  class Product {
    var instock: Option<bool>
    var grivnaPrice: Option<real>
    var dollarPrice: Option<real>
    var name: Option<string>
    var href: Option<string>
    var imageHref: Option<string>
    var description: Option<string>
    var imagesHref: seq<string>
    var dateParsed: Option<Timestamp>

    constructor ()
      ensures State() == Blank
    {
      instock, grivnaPrice, dollarPrice := None, None, None;
      name, href, imageHref, description := None, None, None, None;
      imagesHref, dateParsed := [], None;
    }

    /** The record `product.__dict__` gives. */
    function State(): ProductState
      reads this
    {
      ProductState(name, href, grivnaPrice, dollarPrice, instock, imageHref, description, imagesHref, dateParsed)
    }
  }

  // ---------------------------------------------------------------- listing fields

  /** `extract_name`: the cleared text of span.product-name; `None` when absent or its text is empty. */
  function ExtractName(lib: Lib, div: ListingDiv): (r: Option<string>)
  {
    match div.nameSpan
    case None => None
    case Some(t) => if t.text == "" then None else Some(Clear(lib, t.text))
  }

  /**
   * `extact_href`: the cleared `href` of a.product-item-img; `None` without the link; a link
   * without `href` hands `None` to `clear_string`, which raises `TypeError`.
   */
  function ExtractHref(lib: Lib, div: ListingDiv): (r: Result<Option<string>, Error>)
    ensures r.Failure? <==> div.imageLink.Some? && div.imageLink.value.href.None?
    ensures r.Failure? ==> r.error == TypeError
    ensures r == Success(None) <==> div.imageLink.None?
    ensures r.Success? && r.value.Some? ==>
      && Collapsed(r.value.value)
      && Split(r.value.value) == Split(lib.unquotePlus(div.imageLink.value.href.value))
  {
    match div.imageLink
    case None => Success(None)
    case Some(t) =>
      var arg := match t.href case Some(h) => Str(h) case None => NoneValue;
      match ClearString(lib, arg)
      case Failure(e) => Failure(e)
      case Success(s) => Success(Some(s))
  }

  /** `item.replace('.', '').isdigit()`: digits and points only, with at least one digit. */
  predicate IsNumericToken(w: string) {
    IsDigits(RemoveChar(w, '.'))
  }

  /** `[item for item in words if item.replace('.', '').isdigit()]`. */
  function NumericTokens(words: seq<string>): (r: seq<string>)
    ensures |r| <= |words|
    ensures forall i :: 0 <= i < |r| ==> IsNumericToken(r[i])
  {
    if words == [] then []
    else if IsNumericToken(words[0]) then [words[0]] + NumericTokens(words[1..])
    else NumericTokens(words[1..])
  }

  /** Exactly the numeric words survive the filter. */
  lemma {:induction false} NumericTokensMembers(words: seq<string>, w: string)
    ensures w in NumericTokens(words) <==> w in words && IsNumericToken(w)
  {
    if words != [] {
      NumericTokensMembers(words[1..], w);
      assert words == [words[0]] + words[1..];
    }
  }

  /** Word order is kept: filtering `a + b` is filtering `a`, then `b`. */
  lemma {:induction false} NumericTokensAppend(a: seq<string>, b: seq<string>)
    ensures NumericTokens(a + b) == NumericTokens(a) + NumericTokens(b)
  {
    if a != [] {
      assert (a + b)[1..] == a[1..] + b;
      NumericTokensAppend(a[1..], b);
    } else {
      assert a + b == b;
    }
  }

  /** The numeric tokens of a price node's cleared text. */
  function PriceTokens(lib: Lib, text: string): seq<string> {
    NumericTokens(Split(Clear(lib, text)))
  }

  /**
   * `extract_dollar_price`: succeeds only when the cleared text of p.list-cost has exactly
   * one numeric token, and converts that token.
   */
  function ExtractDollarPrice(lib: Lib, div: ListingDiv): (r: Option<real>)
  {
    match div.listCost
    case None => None
    case Some(t) =>
      if t.text == "" then None
      else
        var words := Split(Clear(lib, t.text));
        if words == [] then None
        else
          var tokens := NumericTokens(words);
          if |tokens| != 1 then None
          else
            TokensPassStrip(tokens);
            ConvertStringToFloat(lib, Str(Join("", tokens))).value
  }

  /** The phrase the stock badge must be part of: "в наличии" ("in stock"). */
  const InStockPhrase: string := "в наличии"

  /**
   * `extract_instock`: `True` when the cleared, lower-cased text of span.instock is a
   * substring of the in-stock phrase; `None` otherwise. It never gives `False`.
   */
  function ExtractInstock(lib: Lib, div: ListingDiv): (r: Option<bool>)
    ensures r != Some(false)
    ensures r == Some(true) <==>
      && div.instockSpan.Some? && div.instockSpan.value.text != ""
      && exists i :: OccursAt(InStockPhrase, Lower(Clear(lib, div.instockSpan.value.text)), i)
  {
    match div.instockSpan
    case None => None
    case Some(t) =>
      if t.text == "" then None
      else if !Contains(InStockPhrase, Lower(Clear(lib, t.text))) then None
      else Some(true)
  }

  /** The name is the cleared text of span.product-name, present exactly when that text is non-empty. */
  lemma NameRule(lib: Lib, div: ListingDiv)
    ensures var r := ExtractName(lib, div);
      && (r.Some? <==> div.nameSpan.Some? && div.nameSpan.value.text != "")
      && (r.Some? ==> Collapsed(r.value) && Split(r.value) == Split(lib.unquotePlus(div.nameSpan.value.text)))
  {
  }

  /** The dollar price is the conversion of the only numeric token, and exists only when there is exactly one. */
  lemma DollarPriceRule(lib: Lib, div: ListingDiv)
    ensures var r := ExtractDollarPrice(lib, div);
      && (r.Some? ==> div.listCost.Some? && |PriceTokens(lib, div.listCost.value.text)| == 1)
      && (div.listCost.Some? && div.listCost.value.text != "" && |PriceTokens(lib, div.listCost.value.text)| == 1
          ==> r == lib.toFloat(PriceTokens(lib, div.listCost.value.text)[0]))
  {
    if div.listCost.Some? {
      var tokens := PriceTokens(lib, div.listCost.value.text);
      if |tokens| == 1 {
        TokensPassStrip(tokens);
        assert Join("", tokens) == tokens[0];
      }
    }
  }

  // ---------------------------------------------------------------- the listing stage

  /** The four listing-stage fields of a product that survives the listing stage. */
  datatype Listing = Listing(name: string, href: string, dollarPrice: real)

  /** The product `parse_new_products` yields for a surviving listing. */
  function Listed(l: Listing): ProductState {
    Blank.(name := Some(l.name), href := Some(l.href), dollarPrice := Some(l.dollarPrice), instock := Some(true))
  }

  /**
   * The body of the loop in `parse_new_products` for one div: name, href, price and
   * stock status are looked up in that order, and the first falsy one discards the div.
   * The div raises exactly when it has a name and a link without `href`, and a kept div
   * had all four fields truthy.
   */
  function ListingOf(lib: Lib, div: ListingDiv): (r: Result<Option<Listing>, Error>)
    ensures r.Failure? <==>
      ExtractName(lib, div).Some? && ExtractName(lib, div).value != "" && ExtractHref(lib, div).Failure?
    ensures r.Failure? ==> r.error == TypeError
    ensures r.Success? && r.value.Some? ==>
      && ExtractName(lib, div) == Some(r.value.value.name) && r.value.value.name != ""
      && ExtractHref(lib, div) == Success(Some(r.value.value.href)) && r.value.value.href != ""
      && ExtractDollarPrice(lib, div) == Some(r.value.value.dollarPrice) && r.value.value.dollarPrice != 0.0
      && ExtractInstock(lib, div) == Some(true)
  {
    Decide(ExtractName(lib, div), ExtractHref(lib, div), ExtractDollarPrice(lib, div), ExtractInstock(lib, div))
  }

  /**
   * The decision on the four looked-up values. Python looks a value up only when the ones
   * before it were truthy; since the lookups have no effects, a value that is not reached
   * here is ignored instead. The href's exception is raised exactly when the name is
   * truthy, and the div is kept exactly when all four values are truthy.
   */
  function Decide(name: Option<string>, href: Result<Option<string>, Error>, price: Option<real>, instock: Option<bool>)
    : (r: Result<Option<Listing>, Error>)
    ensures r.Failure? <==> name.Some? && name.value != "" && href.Failure?
    ensures r.Failure? ==> r.error == href.error
    ensures r.Success? && r.value.Some? <==>
      && name.Some? && name.value != ""
      && href.Success? && href.value.Some? && href.value.value != ""
      && price.Some? && price.value != 0.0
      && instock == Some(true)
    ensures r.Success? && r.value.Some? ==> r.value.value == Listing(name.value, href.value.value, price.value)
  {
    if name.None? || name.value == "" then Success(None)
    else
      match href
      case Failure(e) => Failure(e)
      case Success(h) =>
        if h.None? || h.value == "" then Success(None)
        else if price.None? || price.value == 0.0 then Success(None)
        else if instock != Some(true) then Success(None)
        else Success(Some(Listing(name.value, h.value, price.value)))
  }

  /** The listings kept from a run of divs, and the exception that ended the run, if one did. */
  datatype Scanned = Scanned(kept: seq<Listing>, error: Option<Error>)

  /** `[f(x) for x in s]`, built from the back so that a prefix maps to a prefix. */
  function Map<A, B>(f: A -> B, s: seq<A>): (r: seq<B>)
    ensures |r| == |s|
  {
    if s == [] then [] else Map(f, s[..|s| - 1]) + [f(s[|s| - 1])]
  }

  lemma {:induction false} MapAt<A, B>(f: A -> B, s: seq<A>, i: nat)
    requires i < |s|
    ensures Map(f, s)[i] == f(s[i])
  {
    if i < |s| - 1 {
      MapAt(f, s[..|s| - 1], i);
    }
  }

  lemma {:induction false} MapAppend<A, B>(f: A -> B, a: seq<A>, b: seq<A>)
    ensures Map(f, a + b) == Map(f, a) + Map(f, b)
    decreases |b|
  {
    if b == [] {
      assert a + b == a;
    } else {
      var ab, b' := a + b, b[..|b| - 1];
      assert ab[..|ab| - 1] == a + b';
      assert ab[|ab| - 1] == b[|b| - 1];
      MapAppend(f, a, b');
    }
  }

  /** What the loop body decides for each div, in order. */
  function Outcomes(lib: Lib, divs: seq<ListingDiv>): (r: seq<Result<Option<Listing>, Error>>)
    ensures |r| == |divs|
  {
    Map(d => ListingOf(lib, d), divs)
  }

  lemma OutcomeAt(lib: Lib, divs: seq<ListingDiv>, i: nat)
    requires i < |divs|
    ensures Outcomes(lib, divs)[i] == ListingOf(lib, divs[i])
  {
    MapAt(d => ListingOf(lib, d), divs, i);
  }

  /**
   * The loop of `parse_new_products` over a run of decisions: keep, skip, or stop at an
   * exception. It keeps at most one listing per decision.
   */
  function Fold(outs: seq<Result<Option<Listing>, Error>>): (r: Scanned)
    decreases |outs|
  {
    if outs == [] then Scanned([], None)
    else
      var s := Fold(outs[..|outs| - 1]);
      if s.error.Some? then s
      else
        match outs[|outs| - 1]
        case Failure(e) => Scanned(s.kept, Some(e))
        case Success(None) => s
        case Success(Some(l)) => Scanned(s.kept + [l], None)
  }

  /**
   * `parse_new_products` over a list of divs, as a function of the list: at most one
   * product per div, and the only exception that can end it is the `TypeError` of a link
   * without `href`.
   */
  function Scan(lib: Lib, divs: seq<ListingDiv>): (r: Scanned)
    ensures r.error.Some? ==> r.error.value == TypeError
  {
    FoldRaisesTypeError(lib, divs);
    Fold(Outcomes(lib, divs))
  }

  /** An exception that ends the loop is one of the decisions. */
  lemma {:induction false} FoldErrorDecided(outs: seq<Result<Option<Listing>, Error>>)
    ensures Fold(outs).error.Some? ==> Failure(Fold(outs).error.value) in outs
    decreases |outs|
  {
    if outs != [] {
      var init := outs[..|outs| - 1];
      FoldErrorDecided(init);
      assert forall x :: x in init ==> x in outs;
    }
  }

  lemma FoldRaisesTypeError(lib: Lib, divs: seq<ListingDiv>)
    ensures Fold(Outcomes(lib, divs)).error.Some? ==> Fold(Outcomes(lib, divs)).error.value == TypeError
  {
    var outs := Outcomes(lib, divs);
    FoldErrorDecided(outs);
    if Fold(outs).error.Some? {
      var k :| 0 <= k < |outs| && outs[k] == Failure(Fold(outs).error.value);
      OutcomeAt(lib, divs, k);
    }
  }

  /** One more decision: what the loop does with the `i`-th div. */
  lemma FoldStep(outs: seq<Result<Option<Listing>, Error>>, i: nat)
    requires i < |outs| && Fold(outs[..i]).error.None?
    ensures var s := Fold(outs[..i]);
      Fold(outs[..i + 1]) == match outs[i]
        case Failure(e) => Scanned(s.kept, Some(e))
        case Success(None) => s
        case Success(Some(l)) => Scanned(s.kept + [l], None)
  {
    assert outs[..i + 1][..i] == outs[..i];
  }

  /** Every listing kept is one of the decisions, in particular one that found all four fields. */
  lemma {:induction false} FoldKeepsDecided(outs: seq<Result<Option<Listing>, Error>>)
    ensures forall i :: 0 <= i < |Fold(outs).kept| ==> Success(Some(Fold(outs).kept[i])) in outs
    decreases |outs|
  {
    if outs != [] {
      var init := outs[..|outs| - 1];
      FoldKeepsDecided(init);
      assert forall x :: x in init ==> x in outs;
    }
  }

  /** Every product the listing stage yields has a name, an href and a non-zero dollar price, and is in stock. */
  lemma ScanKeepsOnlyComplete(lib: Lib, divs: seq<ListingDiv>)
    ensures forall i :: 0 <= i < |Scan(lib, divs).kept| ==>
      var l := Scan(lib, divs).kept[i];
      l.name != "" && l.href != "" && l.dollarPrice != 0.0
  {
    var outs := Outcomes(lib, divs);
    FoldKeepsDecided(outs);
    forall i | 0 <= i < |Fold(outs).kept|
      ensures var l := Fold(outs).kept[i]; l.name != "" && l.href != "" && l.dollarPrice != 0.0
    {
      var k :| 0 <= k < |outs| && outs[k] == Success(Some(Fold(outs).kept[i]));
      OutcomeAt(lib, divs, k);
    }
  }

  /** Once an exception is raised, later decisions are never looked at. */
  lemma {:induction false} FoldStops(a: seq<Result<Option<Listing>, Error>>, b: seq<Result<Option<Listing>, Error>>)
    requires Fold(a).error.Some?
    ensures Fold(a + b) == Fold(a)
    decreases |b|
  {
    if b != [] {
      var ab := a + b;
      assert ab[..|ab| - 1] == a + b[..|b| - 1];
      FoldStops(a, b[..|b| - 1]);
    } else {
      assert a + b == a;
    }
  }

  /** Listing order is kept: the decisions `a + b` keep `a`'s listings and then `b`'s. */
  lemma {:induction false} FoldAppend(a: seq<Result<Option<Listing>, Error>>, b: seq<Result<Option<Listing>, Error>>)
    requires Fold(a).error.None?
    ensures Fold(a + b).kept == Fold(a).kept + Fold(b).kept
    ensures Fold(a + b).error == Fold(b).error
    decreases |b|
  {
    if b == [] {
      assert a + b == a;
    } else {
      var ab, b' := a + b, b[..|b| - 1];
      assert ab[..|ab| - 1] == a + b';
      FoldAppend(a, b');
      assert ab[|ab| - 1] == b[|b| - 1];
    }
  }

  lemma OutcomesAppend(lib: Lib, a: seq<ListingDiv>, b: seq<ListingDiv>)
    ensures Outcomes(lib, a + b) == Outcomes(lib, a) + Outcomes(lib, b)
  {
    MapAppend(d => ListingOf(lib, d), a, b);
  }

  /** Scanning `a + b`: `a`'s listings, then `b`'s; and once `a` raised, `b` is never scanned. */
  lemma ScanAppend(lib: Lib, a: seq<ListingDiv>, b: seq<ListingDiv>)
    ensures Scan(lib, a).error.Some? ==> Scan(lib, a + b) == Scan(lib, a)
    ensures Scan(lib, a).error.None? ==>
      Scan(lib, a + b) == Scanned(Scan(lib, a).kept + Scan(lib, b).kept, Scan(lib, b).error)
  {
    OutcomesAppend(lib, a, b);
    if Scan(lib, a).error.Some? {
      FoldStops(Outcomes(lib, a), Outcomes(lib, b));
    } else {
      FoldAppend(Outcomes(lib, a), Outcomes(lib, b));
    }
  }

  // ---------------------------------------------------------------- locating the listing divs

  function Batch(l: Listings, v: Variant): seq<ListingDiv> {
    match v
    case FirstItem => l.first
    case Generic => l.generic
  }

  /**
   * `extract_div_tags_json_data`: the divs of the requested class in the JSON `html`
   * payload; `[]` stands for its `None` (no `html`, or no such div).
   */
  function JsonBatch(json: Envelope, v: Variant): (r: Result<seq<ListingDiv>, Error>)
    ensures r.Failure? <==> !json.Object?
    ensures r.Failure? ==> r.error == (if json.NotJson? then ValueConversionError else AttributeError)
    ensures json.Object? ==> r == Success(if json.html.Some? then Batch(json.html.value, v) else [])
  {
    match json
    case NotJson => Failure(ValueConversionError)
    case NotObject => Failure(AttributeError)
    case Object(html) => Success(if html.Some? then Batch(html.value, v) else [])
  }

  /** `soup.find_all(...) or extract_div_tags_json_data(...)`: the JSON is consulted only when the HTML search is empty. */
  function BatchOf(page: CatalogPage, v: Variant): (r: Result<seq<ListingDiv>, Error>)
    ensures Batch(page.html, v) != [] ==> r == Success(Batch(page.html, v))
    ensures Batch(page.html, v) == [] ==> r == JsonBatch(page.json, v)
  {
    var direct := Batch(page.html, v);
    if direct != [] then Success(direct) else JsonBatch(page.json, v)
  }

  /**
   * `extract_div_tags` as a function of the page: the first-item batch, then the generic
   * batch. A body that is not a JSON object is fatal only when one of the two direct
   * searches came up empty, and then raises the error of reading it.
   */
  function DivTags(page: CatalogPage): (r: Result<seq<ListingDiv>, Error>)
    ensures r.Failure? <==> (page.html.first == [] || page.html.generic == []) && !page.json.Object?
    ensures r.Failure? ==> r.error == (if page.json.NotJson? then ValueConversionError else AttributeError)
    ensures r.Success? ==> r.value == BatchOf(page, FirstItem).value + BatchOf(page, Generic).value
  {
    match BatchOf(page, FirstItem)
    case Failure(e) => Failure(e)
    case Success(first) =>
      match BatchOf(page, Generic)
      case Failure(e) => Failure(e)
      case Success(generic) => Success(first + generic)
  }

  /** A page whose two direct searches both find divs never looks at the JSON reading of the body. */
  lemma DivTagsDirect(page: CatalogPage)
    requires page.html.first != [] && page.html.generic != []
    ensures DivTags(page) == Success(page.html.first + page.html.generic)
  {
    assert Batch(page.html, FirstItem) == page.html.first;
    assert Batch(page.html, Generic) == page.html.generic;
  }

  /** `extract_div_tags`: a fresh list extended with the first-item batch, then with the generic batch. */
  method ExtractDivTags(page: CatalogPage) returns (r: Result<seq<ListingDiv>, Error>)
    ensures r == DivTags(page)
    ensures r.Success? ==> r.value == BatchOf(page, FirstItem).value + BatchOf(page, Generic).value
  {
    var divTagsList: seq<ListingDiv> := [];
    var divTagsFirst := BatchOf(page, FirstItem);
    if divTagsFirst.Failure? {
      return Failure(divTagsFirst.error);
    }
    divTagsList := divTagsList + divTagsFirst.value;
    var divTags := BatchOf(page, Generic);
    if divTags.Failure? {
      return Failure(divTags.error);
    }
    divTagsList := divTagsList + divTags.value;
    assert [] + divTagsFirst.value == divTagsFirst.value;
    return Success(divTagsList);
  }

  /**
   * `parse_new_products`: one fresh `Product` per div, filled field by field and dropped at
   * the first falsy field. Returns the products yielded, in listing order, and the exception
   * that ended the generator, if any.
   */
  method ParseNewProducts(lib: Lib, page: CatalogPage) returns (products: seq<Product>, err: Option<Error>)
    ensures DivTags(page).Failure? ==> products == [] && err == Some(DivTags(page).error)
    ensures DivTags(page).Success? ==>
      var s := Scan(lib, DivTags(page).value);
      && err == s.error
      && |products| == |s.kept|
      && forall i :: 0 <= i < |products| ==> products[i].State() == Listed(s.kept[i])
    ensures forall i :: 0 <= i < |products| ==> fresh(products[i])
    ensures forall i, j :: 0 <= i < j < |products| ==> products[i] != products[j]
  {
    var tags := ExtractDivTags(page);
    if tags.Failure? {
      return [], Some(tags.error);
    }
    products, err := YieldListed(lib, tags.value);
  }

  /** The loop of `parse_new_products` over the located divs. */
  method YieldListed(lib: Lib, divs: seq<ListingDiv>) returns (products: seq<Product>, err: Option<Error>)
    ensures err == Scan(lib, divs).error
    ensures |products| == |Scan(lib, divs).kept|
    ensures forall i :: 0 <= i < |products| ==> products[i].State() == Listed(Scan(lib, divs).kept[i])
    ensures forall i :: 0 <= i < |products| ==> fresh(products[i])
    ensures forall i, j :: 0 <= i < j < |products| ==> products[i] != products[j]
  {
    products, err := [], None;
    ghost var all := Outcomes(lib, divs);
    ghost var kept: seq<Listing> := [];
    for i := 0 to |divs|
      invariant Fold(all[..i]) == Scanned(kept, None)
      invariant |products| == |kept|
      invariant forall k :: 0 <= k < |products| ==> products[k].State() == Listed(kept[k])
      invariant forall k :: 0 <= k < |products| ==> fresh(products[k])
      invariant forall k, m :: 0 <= k < m < |products| ==> products[k] != products[m]
    {
      FoldStep(all, i);
      var product, outcome := NthListingProduct(lib, divs, i);
      match outcome
      case Failure(e) =>
        err := Some(e);
        FoldStops(all[..i + 1], all[i + 1..]);
        assert all[..i + 1] + all[i + 1..] == all;
        return;
      case Success(None) =>
      case Success(Some(l)) =>
        kept := kept + [l];
        products := products + [product];
    }
    assert all[..|divs|] == all;
  }

  /** The loop body for the `i`-th div, stated as that div's place among the decisions. */
  method NthListingProduct(lib: Lib, divs: seq<ListingDiv>, i: nat) returns (product: Product, r: Result<Option<Listing>, Error>)
    requires i < |divs|
    ensures fresh(product)
    ensures r == Outcomes(lib, divs)[i]
    ensures r.Success? && r.value.Some? ==> product.State() == Listed(r.value.value)
  {
    OutcomeAt(lib, divs, i);
    product, r := ListingProduct(lib, divs[i]);
  }

  /**
   * The body of the loop in `parse_new_products` for one div: a fresh `Product` whose fields
   * are filled one at a time, each checked before the next is looked up.
   */
  method ListingProduct(lib: Lib, div: ListingDiv) returns (product: Product, r: Result<Option<Listing>, Error>)
    ensures fresh(product)
    ensures r == ListingOf(lib, div)
    ensures r.Success? && r.value.Some? ==> product.State() == Listed(r.value.value)
  {
    product := new Product();
    var name := ExtractName(lib, div);
    product.name := name;
    assert product.State() == Blank.(name := name);
    if name.None? || name.value == "" {
      return product, Success(None);
    }
    var href := ExtractHref(lib, div);
    if href.Failure? {
      return product, Failure(href.error);
    }
    product.href := href.value;
    assert product.State() == Blank.(name := name, href := href.value);
    if href.value.None? || href.value.value == "" {
      return product, Success(None);
    }
    var dollarPrice := ExtractDollarPrice(lib, div);
    product.dollarPrice := dollarPrice;
    assert product.State() == Blank.(name := name, href := href.value, dollarPrice := dollarPrice);
    if dollarPrice.None? || dollarPrice.value == 0.0 {
      return product, Success(None);
    }
    var instock := ExtractInstock(lib, div);
    product.instock := instock;
    assert product.State() == Blank.(name := name, href := href.value, dollarPrice := dollarPrice, instock := instock);
    if instock != Some(true) {
      return product, Success(None);
    }
    r := Success(Some(Listing(name.value, href.value.value, dollarPrice.value)));
  }

  // ---------------------------------------------------------------- pagination

  /** The iterator `iter(range(next, stop))`, as the numbers it has not yet given out. */
  datatype Cursor = Cursor(next: int, stop: int)

  function Remaining(c: Cursor): (r: seq<int>)
    decreases c.stop - c.next
    ensures |r| == if c.next < c.stop then c.stop - c.next else 0
    ensures forall i :: 0 <= i < |r| ==> r[i] == c.next + i
  {
    if c.next < c.stop then [c.next] + Remaining(Cursor(c.next + 1, c.stop)) else []
  }

  /** `next(it, None)`: the first remaining number, and the iterator that is left. */
  function Next(c: Cursor): (r: (Option<int>, Cursor))
    ensures r.0.None? <==> Remaining(c) == []
    ensures r.0.None? ==> r.1 == c
    ensures r.0.Some? ==> r.0.value == Remaining(c)[0] && Remaining(r.1) == Remaining(c)[1..]
    ensures r.1.stop == c.stop
  {
    if c.next < c.stop then (Some(c.next), Cursor(c.next + 1, c.stop)) else (None, c)
  }

  /** The `href` of div.pagination's right-hand link, when the div, the link and the attribute are all there. */
  function RightHref(page: CatalogPage): Option<string> {
    match page.pagination
    case None => None
    case Some(p) =>
      match p.rightLink
      case None => None
      case Some(a) => a.href
  }

  /**
   * The digits of the right-hand pagination link: every digit of its cleared, non-empty
   * `href`, in order; `None` where `parse_page_numbers` gives up, which is when the div,
   * the link or the `href` is missing, the `href` is empty, or it holds no digit.
   */
  function PageDigits(lib: Lib, page: CatalogPage): (r: Option<string>)
    ensures r.Some? <==>
      RightHref(page).Some? && RightHref(page).value != "" && DigitChars(Clear(lib, RightHref(page).value)) != ""
    ensures r.Some? ==> r.value == DigitChars(Clear(lib, RightHref(page).value))
  {
    if page.pagination.None? then None
    else
      var link := page.pagination.value.rightLink;
      if link.None? || link.value.href.None? || link.value.href.value == "" then None
      else
        var digits := DigitChars(Clear(lib, link.value.href.value));
        if digits == "" then None else Some(digits)
  }

  /**
   * `parse_page_numbers`: every digit of the cleared `href` of the right-hand link, read as
   * one number `N`, gives the pages 2, 3, ..., N + 1.
   */
  function ParsePageNumbers(lib: Lib, page: CatalogPage): (r: Option<Cursor>)
    ensures r.Some? <==>
      RightHref(page).Some? && RightHref(page).value != "" && DigitChars(Clear(lib, RightHref(page).value)) != ""
    ensures r.Some? ==> r.value.next == 2
    ensures r.Some? ==>
      var n := DigitsToNat(DigitChars(Clear(lib, RightHref(page).value)));
      |Remaining(r.value)| == n && forall i :: 0 <= i < n ==> Remaining(r.value)[i] == i + 2
  {
    match PageDigits(lib, page)
    case None => None
    case Some(digits) => Some(Cursor(2, DigitsToNat(digits) + 2))
  }

  /** Characters that are not digits contribute nothing to `DigitChars`. */
  lemma {:induction false} DigitCharsSkip(a: string, b: string)
    requires forall i :: 0 <= i < |a| ==> !IsDigit(a[i])
    ensures DigitChars(a + b) == DigitChars(b)
  {
    if a != [] {
      assert (a + b)[0] == a[0] && (a + b)[1..] == a[1..] + b;
      DigitCharsSkip(a[1..], b);
    } else {
      assert a + b == b;
    }
  }

  lemma ExampleHrefDigits(href: string)
    requires href == "/catalog?all=New&p=5"
    ensures DigitChars(href) == "5"
  {
    var prefix, five := href[..|href| - 1], href[|href| - 1..];
    assert href == prefix + five && five == "5";
    DigitCharsSkip(prefix, five);
    assert DigitChars(five) == "5";
  }

  lemma RemainingTwoToSix()
    ensures Remaining(Cursor(2, 7)) == [2, 3, 4, 5, 6]
  {
    assert Remaining(Cursor(6, 7)) == [6];
    assert Remaining(Cursor(5, 7)) == [5, 6];
    assert Remaining(Cursor(4, 7)) == [4, 5, 6];
    assert Remaining(Cursor(3, 7)) == [3, 4, 5, 6];
  }

  /** A right link to "/catalog?all=New&p=5" gives exactly the pages 2 to 6. */
  lemma PageNumbersExample(lib: Lib, page: CatalogPage, href: string)
    requires href == "/catalog?all=New&p=5"
    requires page.pagination == Some(PaginationDiv(Some(Tag("", Some(href)))))
    requires lib.unquotePlus(href) == href
    ensures ParsePageNumbers(lib, page).Some?
    ensures Remaining(ParsePageNumbers(lib, page).value) == [2, 3, 4, 5, 6]
  {
    ExampleHrefCleared(lib, href);
    ExampleHrefDigits(href);
    assert RightHref(page) == Some(href);
    assert DigitsToNat("5") == 5 by { assert "5"[..0] == []; }
    assert PageDigits(lib, page) == Some("5");
    RemainingTwoToSix();
  }

  lemma ExampleHrefCleared(lib: Lib, href: string)
    requires href == "/catalog?all=New&p=5"
    requires lib.unquotePlus(href) == href
    ensures Clear(lib, href) == href
  {
    assert Collapsed(href);
    CollapsedUnique(href);
  }

  // ---------------------------------------------------------------- the detail and price stages

  /** The cleared text of each paragraph. */
  function ClearAll(lib: Lib, ps: seq<string>): (r: seq<string>)
    ensures |r| == |ps|
    ensures forall i :: 0 <= i < |r| ==> r[i] == Clear(lib, ps[i])
  {
    seq(|ps|, i requires 0 <= i < |ps| => Clear(lib, ps[i]))
  }

  /** `extract_description`: the cleared paragraphs joined with newlines; `None` without the div or paragraphs. */
  function ExtractDescription(lib: Lib, page: ProductPage): (r: Option<string>)
    ensures r.Some? <==> page.description.Some? && page.description.value.paragraphs != []
    ensures r.Some? ==> SplitOn(r.value, '\n') == ClearAll(lib, page.description.value.paragraphs)
  {
    match page.description
    case None => None
    case Some(d) =>
      if d.paragraphs == [] then None
      else
        var lines := ClearAll(lib, d.paragraphs);
        forall i | 0 <= i < |lines| ensures '\n' !in lines[i] {
          assert Collapsed(lines[i]);
        }
        SplitOnJoin(lines, '\n');
        Some(Join("\n", lines))
  }

  /** `[h for h in hrefs if h]`: the present, non-empty `href` values, in document order. */
  function TruthyHrefs(links: seq<Option<string>>): (r: seq<string>)
    ensures forall i :: 0 <= i < |r| ==> r[i] != ""
  {
    if links == [] then []
    else if links[0].Some? && links[0].value != "" then [links[0].value] + TruthyHrefs(links[1..])
    else TruthyHrefs(links[1..])
  }

  /** Document order is kept: filtering `a + b` is filtering `a`, then `b`. */
  lemma {:induction false} TruthyHrefsAppend(a: seq<Option<string>>, b: seq<Option<string>>)
    ensures TruthyHrefs(a + b) == TruthyHrefs(a) + TruthyHrefs(b)
  {
    if a != [] {
      assert (a + b)[1..] == a[1..] + b;
      TruthyHrefsAppend(a[1..], b);
    } else {
      assert a + b == b;
    }
  }

  /** Exactly the present, non-empty `href` values survive the filter. */
  lemma {:induction false} TruthyHrefsMembers(links: seq<Option<string>>, h: string)
    ensures h in TruthyHrefs(links) <==> Some(h) in links && h != ""
  {
    if links != [] {
      TruthyHrefsMembers(links[1..], h);
      assert links == [links[0]] + links[1..];
    }
  }

  /** `extract_images_href`: the truthy `href`s of the gallery links; `None` when there are none. */
  function ExtractImagesHref(page: ProductPage): (r: Option<seq<string>>)
    ensures r.Some? <==> page.images.Some? && TruthyHrefs(page.images.value.links) != []
    ensures r.Some? ==> r.value == TruthyHrefs(page.images.value.links)
  {
    match page.images
    case None => None
    case Some(g) =>
      if g.links == [] then None
      else
        var hrefs := TruthyHrefs(g.links);
        if hrefs == [] then None else Some(hrefs)
  }

  /**
   * `parse_detail_product`: always overwrites the description (with `None` too), sets the
   * images only when some are found, and returns the same product, or `None` to drop it.
   */
  method ParseDetailProduct(lib: Lib, page: ProductPage, product: Product) returns (r: Product?)
    modifies product
    ensures var images := ExtractImagesHref(page);
      && product.State() == old(product.State()).(
           description := ExtractDescription(lib, page),
           imagesHref := if images.Some? then images.value else old(product.imagesHref))
      && r == (if images.Some? then product else null)
  {
    product.description := ExtractDescription(lib, page);
    var imagesHrefList := ExtractImagesHref(page);
    if imagesHrefList.Some? {
      product.imagesHref := imagesHrefList.value;
    }
    if imagesHrefList.None? {
      return null;
    }
    return product;
  }

  /**
   * `parse_grivna_price`: every numeric token of p.info-cost, concatenated in order, converted;
   * `None` when there is no node or no numeric token.
   */
  function ParseGrivnaPrice(lib: Lib, page: ProductPage): (r: Option<real>)
    ensures r.Some? ==> page.infoCost.Some? && PriceTokens(lib, page.infoCost.value.text) != []
    ensures page.infoCost.Some? && PriceTokens(lib, page.infoCost.value.text) != []
            ==> r == lib.toFloat(Join("", PriceTokens(lib, page.infoCost.value.text)))
  {
    match page.infoCost
    case None => None
    case Some(t) =>
      var words := Split(Clear(lib, t.text));
      if words == [] then None
      else
        var tokens := NumericTokens(words);
        if tokens == [] then None
        else
          TokensPassStrip(tokens);
          ConvertStringToFloat(lib, Str(Join("", tokens))).value
  }

  // ---------------------------------------------------------------- facts about price tokens

  /** A numeric token is made of digits and points only. */
  lemma {:induction false} NumericTokenChars(w: string)
    requires IsNumericToken(w)
    ensures forall i :: 0 <= i < |w| ==> IsDigit(w[i]) || w[i] == '.'
  {
    forall i | 0 <= i < |w| ensures IsDigit(w[i]) || w[i] == '.' {
      if w[i] != '.' {
        RemoveCharConcat(w[..i], w[i..], '.');
        assert w == w[..i] + w[i..];
        assert w[i..] == [w[i]] + w[i + 1..];
        RemoveCharConcat([w[i]], w[i + 1..], '.');
        var j := |RemoveChar(w[..i], '.')|;
        assert RemoveChar(w, '.')[j] == w[i];
      }
    }
  }

  predicate DigitsAndPoints(s: string) {
    forall i :: 0 <= i < |s| ==> IsDigit(s[i]) || s[i] == '.'
  }

  lemma {:induction false} JoinTokensChars(tokens: seq<string>)
    requires forall i :: 0 <= i < |tokens| ==> IsNumericToken(tokens[i])
    ensures DigitsAndPoints(Join("", tokens))
  {
    if tokens != [] {
      NumericTokenChars(tokens[0]);
      if |tokens| > 1 {
        JoinTokensChars(tokens[1..]);
        assert Join("", tokens) == tokens[0] + Join("", tokens[1..]);
      }
    }
  }

  /**
   * The text the price conversion sees is the joined tokens themselves: they hold no `$`
   * and no whitespace, so the strip-only normaliser leaves them as they are.
   */
  lemma TokensPassStrip(tokens: seq<string>)
    requires forall i :: 0 <= i < |tokens| ==> IsNumericToken(tokens[i])
    ensures StripDollar(Join("", tokens)) == Join("", tokens)
  {
    JoinTokensChars(tokens);
    PlainNumberPassesStrip(Join("", tokens));
  }

  lemma PlainNumberPassesStrip(s: string)
    requires DigitsAndPoints(s)
    ensures StripDollar(s) == s
  {
    assert '$' !in s by {
      forall i | 0 <= i < |s| ensures s[i] != '$' {
        assert IsDigit(s[i]) || s[i] == '.';
      }
    }
    RemoveCharKeeps(s, '$');
    if s != [] {
      assert IsDigit(s[0]) || s[0] == '.';
      assert IsDigit(s[|s| - 1]) || s[|s| - 1] == '.';
    }
    StripUnchanged(s);
  }

  /**
   * The two price rules differ on a price printed in two groups such as "1 234": the dollar
   * rule wants exactly one numeric token and gives up, the grivna rule joins them into "1234".
   */
  lemma PriceRulesDiffer(lib: Lib, text: string, div: ListingDiv, page: ProductPage)
    requires PriceTokens(lib, text) == ["1", "234"]
    requires div.listCost == Some(Tag(text, None))
    requires page.infoCost == Some(Tag(text, None))
    ensures ExtractDollarPrice(lib, div) == None
    ensures ParseGrivnaPrice(lib, page) == lib.toFloat("1234")
  {
    var tokens := PriceTokens(lib, text);
    assert tokens[1..] == ["234"];
    assert Join("", tokens) == "1" + "" + "234" == "1234";
  }

  /** Whitespace-only stock text clears to "" and so counts as in stock. */
  lemma BlankBadgeIsInStock(lib: Lib, div: ListingDiv)
    requires div.instockSpan.Some? && div.instockSpan.value.text != ""
    requires AllSpace(lib.unquotePlus(div.instockSpan.value.text))
    ensures ExtractInstock(lib, div) == Some(true)
  {
    assert OccursAt(InStockPhrase, Lower(""), 0);
  }

  lemma UpperCaseBadgeLowered(text: string)
    requires text == "В НАЛИЧИИ"
    ensures Lower(text) == InStockPhrase
  {
  }

  lemma UpperCaseBadgeCleared(lib: Lib, text: string)
    requires text == "В НАЛИЧИИ"
    requires lib.unquotePlus(text) == text
    ensures Clear(lib, text) == text
  {
    assert Collapsed(text);
    CollapsedUnique(text);
  }

  /** The upper-case badge "В НАЛИЧИИ" is in stock. */
  lemma UpperCaseBadgeIsInStock(lib: Lib, div: ListingDiv, text: string)
    requires text == "В НАЛИЧИИ"
    requires div.instockSpan == Some(Tag(text, None))
    requires lib.unquotePlus(text) == text
    ensures ExtractInstock(lib, div) == Some(true)
  {
    UpperCaseBadgeCleared(lib, text);
    UpperCaseBadgeLowered(text);
    assert OccursAt(InStockPhrase, Lower(Clear(lib, text)), 0);
  }

  /** A badge reading "нет" ("none") is not a substring of the phrase, so the product is dropped. */
  lemma OutOfStockBadge(lib: Lib, div: ListingDiv, text: string)
    requires text == "нет"
    requires div.instockSpan == Some(Tag(text, None))
    requires lib.unquotePlus(text) == text
    ensures ExtractInstock(lib, div) == None
  {
    assert Collapsed(text);
    CollapsedUnique(text);
    assert Lower(text) == text;
    forall i ensures !OccursAt(InStockPhrase, text, i) {
      if 0 <= i && i + 3 <= |InStockPhrase| {
        assert InStockPhrase[i..i + 3] != text by {
          assert InStockPhrase[i] != 'н' || InStockPhrase[i + 1] != 'е';
        }
      }
    }
  }
}
