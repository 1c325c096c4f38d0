/** The record assembly of parser.go: parseListHTML builds one list item per
    `.aditem` element of a result page, parseAdHTML builds an ad and its
    seller from an ad page. The HTML document and its CSS selections are
    not modelled: a page is given as the texts and attributes the selectors
    yield, in document order, and a document that cannot be read is a
    Failure carrying the reader's error. */
module Parser {
  import opened Wrappers
  import opened GoStrings
  import opened GoTime
  import opened Ad
  import opened Fields

  /** The path of an ad below the site's base URL. */
  const AdPath := "/s-anzeige/"

  // ------------------------------------------------------------ list pages

  /** What the selectors yield for one `.aditem` element: its `data-adid`
      attribute if it has one, and the raw texts of the title, price and
      location elements. */
  datatype ListFragment = ListFragment(
    adId: Option<string>,
    title: string,
    priceText: string,
    locationText: string)

  /** The list item built from one fragment. The id and the link are set
      only when the element carries an id; a price that does not parse
      leaves price 0 and not negotiable, and its error is dropped. */
  function ListItem(baseURL: string, f: ListFragment): (item: AdListItem)
    ensures f.adId.Some? ==> item.id == f.adId.value && item.link == baseURL + AdPath + item.id
    ensures f.adId.None? ==> item.id == "" && item.link == ""
    ensures item.title == f.title
    ensures ParsePrice(TrimSpace(f.priceText)).err.Some? ==> item.price == 0 && !item.priceNegotiable
    ensures item.priceNegotiable ==> item.price == 0
    ensures ' ' !in item.zipCode && '\n' !in item.location
  {
    var price := ParsePrice(TrimSpace(f.priceText));
    var (zip, place) := ParseLocation(TrimSpace(f.locationText));
    AdListItem(
      if f.adId.Some? then f.adId.value else "",
      f.title,
      price.amount,
      price.negotiable,
      place,
      zip,
      if f.adId.Some? then baseURL + AdPath + f.adId.value else "")
  }

  /** ListItem for one base URL, as a function of the fragment. */
  function ItemOf(baseURL: string): ListFragment -> AdListItem {
    f => ListItem(baseURL, f)
  }

  /** Item k of the response is the item built from fragment k. */
  lemma ListItemAt(baseURL: string, fragments: seq<ListFragment>, k: int)
    requires 0 <= k < |fragments|
    ensures |MapSeq(ItemOf(baseURL), fragments)| == |fragments|
    ensures MapSeq(ItemOf(baseURL), fragments)[k] == ListItem(baseURL, fragments[k])
  {
    MapSeqAt(ItemOf(baseURL), fragments, k);
  }

  /** parseListHTML: a document that cannot be read is an error; otherwise
      the response holds one item per fragment, in document order. */
  method ParseListHTML(baseURL: string, doc: Result<seq<ListFragment>, string>)
    returns (r: Result<AdListResponse, string>)
    ensures doc.Failure? ==> r == Failure(doc.error)
    ensures doc.Success? ==> r == Success(AdListResponse(MapSeq(ItemOf(baseURL), doc.value)))
  {
    if doc.Failure? {
      return Failure(doc.error);
    }
    var fragments := doc.value;
    var items: seq<AdListItem> := [];
    var i := 0;
    while i < |fragments|
      invariant 0 <= i <= |fragments|
      invariant items == MapSeq(ItemOf(baseURL), fragments[..i])
    {
      var item := BuildListItem(baseURL, fragments[i]);
      ItemsOfLongerPrefix(baseURL, fragments, i, items, item);
      items := items + [item];
      i := i + 1;
    }
    assert fragments[..i] == fragments;
    return Success(AdListResponse(items));
  }

  /** One more listing element read: the items so far and its item are
      the items of the prefix one element longer. */
  lemma ItemsOfLongerPrefix(baseURL: string, fragments: seq<ListFragment>, i: int,
                            items: seq<AdListItem>, item: AdListItem)
    requires 0 <= i < |fragments|
    requires items == MapSeq(ItemOf(baseURL), fragments[..i])
    requires item == ItemOf(baseURL)(fragments[i])
    ensures items + [item] == MapSeq(ItemOf(baseURL), fragments[..i + 1])
  {
    MapSeqSnoc(ItemOf(baseURL), fragments, i);
  }

  /** The body of the loop over the listing elements: the fields of one
      item are filled in one after another. */
  method BuildListItem(baseURL: string, f: ListFragment) returns (item: AdListItem)
    ensures item == ItemOf(baseURL)(f)
  {
    var id, link := "", "";
    if f.adId.Some? {
      id := f.adId.value;
      link := baseURL + AdPath + id;
    }
    var price := ParsePrice(TrimSpace(f.priceText));
    var (zip, place) := ParseLocation(TrimSpace(f.locationText));
    item := AdListItem(id, f.title, price.amount, price.negotiable, place, zip, link);
  }

  /** The callers trim the location text and parseLocation trims it again;
      the second trim changes nothing. */
  lemma LocationTrimmedTwice(text: string)
    ensures ParseLocation(TrimSpace(text)) == ParseLocation(text)
  {
    TrimSpaceIdempotent(text);
  }

  /** A listing element whose texts are an amount with a currency and a zip
      code with a place gives back exactly those values, the id and the
      link built from it. */
  lemma ListItemOf(baseURL: string, id: string, title: string,
                   amount: string, n: int, zip: string, place: string)
    requires 0 < n <= Strconv.MaxInt32 && ' ' !in amount && RemoveAll(amount, '.') == Strconv.Itoa(n)
    requires amount != [] && !IsSpace(amount[0])
    requires zip != [] && ' ' !in zip && !IsSpace(zip[0])
    requires place != [] && '\n' !in place && !IsSpace(place[|place| - 1])
    ensures ListItem(baseURL, ListFragment(Some(id), title, amount + " " + "€", zip + " " + place))
         == AdListItem(id, title, n, false, place, zip, baseURL + AdPath + id)
  {
    PriceTextOf(amount, n);
    LocationTextOf(zip, place);
  }

  lemma PriceTextOf(amount: string, n: int)
    requires 0 < n <= Strconv.MaxInt32 && ' ' !in amount && RemoveAll(amount, '.') == Strconv.Itoa(n)
    requires amount != [] && !IsSpace(amount[0])
    ensures ParsePrice(TrimSpace(amount + " " + "€")) == Price(n, false, None)
  {
    var priceText := amount + " " + "€";
    ParsePriceOfAmount(amount, n, "€");
    assert priceText[0] == amount[0];
    TrimSpaceOfTrimmed(priceText);
  }

  lemma LocationTextOf(zip: string, place: string)
    requires zip != [] && ' ' !in zip && !IsSpace(zip[0])
    requires place != [] && '\n' !in place && !IsSpace(place[|place| - 1])
    ensures ParseLocation(TrimSpace(zip + " " + place)) == (zip, place)
  {
    var locationText := zip + " " + place;
    ParseLocationOfTrimmed(zip, place, "");
    assert zip + " " + place + "" == locationText;
    TrimSpaceOfTrimmed(locationText);
  }

  // -------------------------------------------------------------- ad pages

  /** What the selectors yield for an ad page: the raw texts of the single
      elements, the texts of every `.addetailslist--detail` element and of
      every `.checktag` element, in document order. */
  datatype AdPage = AdPage(
    titleText: string,
    priceText: string,
    localityText: string,
    extraInfoText: string,
    detailTexts: seq<string>,
    checktags: seq<string>,
    sellerNameText: string,
    ratingText: string,
    friendlinessText: string,
    activeSinceText: string,
    descriptionText: string)

  /** The label and value of one detail element, after trimming. */
  function Detail(text: string): (r: (string, string))
    requires '\n' in TrimSpace(text)
    ensures '\n' !in r.0
    ensures NoEdge(r.0, IsSpace) && NoEdge(r.1, IsSpace)
  {
    ParseDetail(TrimSpace(text))
  }

  predicate DetailsParsable(texts: seq<string>) {
    forall k :: 0 <= k < |texts| ==> '\n' in TrimSpace(texts[k])
  }

  lemma ParsablePrefix(texts: seq<string>, i: nat)
    requires DetailsParsable(texts) && i <= |texts|
    ensures DetailsParsable(texts[..i])
  {
    forall k | 0 <= k < i ensures '\n' in TrimSpace(texts[..i][k]) {
      assert texts[..i][k] == texts[k];
    }
  }

  /** `f` applied to every element of `xs`, in order. */
  function MapSeq<A, B>(f: A --> B, xs: seq<A>): (ys: seq<B>)
    requires forall i :: 0 <= i < |xs| ==> f.requires(xs[i])
    ensures |ys| == |xs|
  {
    if xs == [] then []
    else MapSeq(f, xs[..|xs| - 1]) + [f(xs[|xs| - 1])]
  }

  lemma {:induction false} MapSeqAt<A, B>(f: A --> B, xs: seq<A>, k: int)
    requires forall i :: 0 <= i < |xs| ==> f.requires(xs[i])
    requires 0 <= k < |xs|
    ensures MapSeq(f, xs)[k] == f(xs[k])
  {
    var last := |xs| - 1;
    var prefix := xs[..last];
    if k < last {
      MapSeqAt(f, prefix, k);
      assert prefix[k] == xs[k];
    }
  }

  lemma MapSeqSnoc<A, B>(f: A --> B, xs: seq<A>, i: int)
    requires forall i :: 0 <= i < |xs| ==> f.requires(xs[i])
    requires 0 <= i < |xs|
    ensures MapSeq(f, xs[..i + 1]) == MapSeq(f, xs[..i]) + [f(xs[i])]
  {
    assert xs[..i + 1][..i] == xs[..i];
  }

  /** The label and value of every detail element, in document order. */
  function DetailEntries(texts: seq<string>): (entries: seq<(string, string)>)
    requires DetailsParsable(texts)
    ensures |entries| == |texts|
  {
    MapSeq(Detail, texts)
  }

  /** Entry k is the label and value of detail element k. */
  lemma DetailEntriesAt(texts: seq<string>, k: int)
    requires DetailsParsable(texts) && 0 <= k < |texts|
    ensures DetailEntries(texts)[k] == Detail(texts[k])
  {
    MapSeqAt(Detail, texts, k);
  }

  /** A map filled by storing the entries one after another: a later entry
      with the same key replaces the value of an earlier one. */
  function Stored(entries: seq<(string, string)>): (stored: map<string, string>)
    ensures stored.Keys == set k | 0 <= k < |entries| :: entries[k].0
  {
    if entries == [] then map[]
    else
      var (key, value) := entries[|entries| - 1];
      Stored(entries[..|entries| - 1])[key := value]
  }

  /** A key is stored exactly when some entry carries it, and its value is
      that of the last entry that does. */
  lemma {:induction false} StoredLastWriterWins(entries: seq<(string, string)>, key: string)
    ensures key in Stored(entries) <==> exists k :: 0 <= k < |entries| && entries[k].0 == key
    ensures key in Stored(entries) ==>
              exists k :: 0 <= k < |entries| && entries[k] == (key, Stored(entries)[key])
                          && forall j :: k < j < |entries| ==> entries[j].0 != key
  {
    StoredHas(entries, key);
    if entries != [] {
      var init := entries[..|entries| - 1];
      var last := |entries| - 1;
      StoredLastWriterWins(init, key);
      if entries[last].0 != key {
        assert Stored(entries) == Stored(init)[entries[last].0 := entries[last].1];
        if key in Stored(init) {
          var k :| 0 <= k < |init| && init[k] == (key, Stored(init)[key])
                   && forall j :: k < j < |init| ==> init[j].0 != key;
          assert entries[k] == init[k];
          NoLaterEntry(entries, init, key, k);
        }
      }
    }
  }

  /** No entry after k carries the key, when none after k in all but the
      last entry does and the last one carries another key. */
  lemma NoLaterEntry(entries: seq<(string, string)>, init: seq<(string, string)>, key: string,
                     k: int)
    requires entries != [] && init == entries[..|entries| - 1] && 0 <= k
    requires entries[|entries| - 1].0 != key
    requires forall j :: k < j < |init| ==> init[j].0 != key
    ensures forall j :: k < j < |entries| ==> entries[j].0 != key
  {
    forall j | k < j < |entries| ensures entries[j].0 != key {
      if j < |init| {
        assert entries[j] == init[j];
      }
    }
  }

  lemma StoredHas(entries: seq<(string, string)>, key: string)
    ensures key in Stored(entries) <==> exists k :: 0 <= k < |entries| && entries[k].0 == key
  {
    var keys := Stored(entries).Keys;
    assert key in keys <==> key in set k | 0 <= k < |entries| :: entries[k].0;
  }

  lemma StoredAppend(entries: seq<(string, string)>, e: (string, string))
    ensures Stored(entries + [e]) == Stored(entries)[e.0 := e.1]
  {
    assert (entries + [e])[..|entries|] == entries;
  }

  /** The details map of an ad: every label maps to the value of the last
      detail element that carries it. */
  function DetailsOf(texts: seq<string>): (details: map<string, string>)
    requires DetailsParsable(texts)
    ensures forall key :: key in details ==> '\n' !in key
  {
    var entries := DetailEntries(texts);
    assert forall key :: key in Stored(entries) ==> '\n' !in key by {
      forall key | key in Stored(entries) ensures '\n' !in key {
        StoredLastWriterWins(entries, key);
        var k :| 0 <= k < |entries| && entries[k].0 == key;
        MapSeqAt(Detail, texts, k);
      }
    }
    Stored(entries)
  }

  /** What parseAdHTML demands of a page to run without panicking: every
      detail text holds a newline, and the seller's "active since" text can
      be sliced (see ActiveSinceSliceable). */
  predicate AdPageParsable(page: AdPage) {
    DetailsParsable(page.detailTexts) && ActiveSinceSliceable(TrimSpace(page.activeSinceText))
  }

  /** The ad assembled from a page. The link is always built from the id,
      even when the id is empty; a price, date or seller date that does not
      parse is dropped silently; the check tags are kept untrimmed and in
      document order. */
  function AdOf(baseURL: string, page: AdPage): (ad: AdItem)
    requires AdPageParsable(page)
    ensures ad.link == baseURL + AdPath + ad.id
    ensures ad.extras == page.checktags
    ensures '\n' !in ad.id
    ensures ad.listedSince == ZeroTime || Writable(ad.listedSince)
    ensures ad.seller.activeSince == ZeroTime || Writable(ad.seller.activeSince)
    ensures ParsePrice(TrimSpace(page.priceText)).err.Some? ==> ad.price == 0 && !ad.priceNegotiable
    ensures ' ' !in ad.zipCode && '\n' !in ad.location
    ensures NoEdge(ad.title, IsSpace) && NoEdge(ad.description, IsSpace)
    ensures NoEdge(ad.seller.name, IsSpace) && NoEdge(ad.seller.friendliness, IsSpace)
    ensures forall key :: key in ad.details ==> '\n' !in key
  {
    var price := ParsePrice(TrimSpace(page.priceText));
    var (zip, place) := ParseLocation(TrimSpace(page.localityText));
    var (listed, id) := ParseExtraInfo(TrimSpace(page.extraInfoText));
    var details := DetailsOf(page.detailTexts);
    var seller := Seller(
      TrimSpace(page.sellerNameText),
      DateOrZero(ParseActiveSince(TrimSpace(page.activeSinceText))),
      TrimSpace(page.friendlinessText),
      ParseRating(TrimSpace(page.ratingText)));
    AdItem(id, listed, TrimSpace(page.titleText), price.amount, price.negotiable, place, zip,
           baseURL + AdPath + id, TrimSpace(page.descriptionText), details, page.checktags, seller)
  }

  /** parseAdHTML: a document that cannot be read is an error; otherwise the
      ad is assembled field by field, the details map is filled element by
      element and the check tags are appended one by one. */
  method ParseAdHTML(baseURL: string, doc: Result<AdPage, string>) returns (r: Result<AdItem, string>)
    requires doc.Success? ==> AdPageParsable(doc.value)
    ensures doc.Failure? ==> r == Failure(doc.error)
    ensures doc.Success? ==> r == Success(AdOf(baseURL, doc.value))
  {
    if doc.Failure? {
      return Failure(doc.error);
    }
    var page := doc.value;
    var title := TrimSpace(page.titleText);
    var price := ParsePrice(TrimSpace(page.priceText));
    var (zip, place) := ParseLocation(TrimSpace(page.localityText));
    var (listed, id) := ParseExtraInfo(TrimSpace(page.extraInfoText));
    var link := baseURL + AdPath + id;

    var details := StoreDetails(page.detailTexts);
    var extras := CollectExtras(page.checktags);
    var name := TrimSpace(page.sellerNameText);
    var rating := ParseRating(TrimSpace(page.ratingText));
    var friendliness := TrimSpace(page.friendlinessText);
    var activeSince := ZeroTime;
    var since := ParseActiveSince(TrimSpace(page.activeSinceText));
    if since.Success? {
      activeSince := since.value;
    }
    var description := TrimSpace(page.descriptionText);
    var seller := Seller(name, activeSince, friendliness, rating);
    return Success(AdItem(id, listed, title, price.amount, price.negotiable, place, zip, link,
                          description, details, extras, seller));
  }

  /** The loop over the detail elements: each element's label and value
      are stored in the map in document order. */
  method StoreDetails(texts: seq<string>) returns (details: map<string, string>)
    requires DetailsParsable(texts)
    ensures details == DetailsOf(texts)
  {
    details := map[];
    var i := 0;
    while i < |texts|
      invariant 0 <= i <= |texts|
      invariant DetailsParsable(texts[..i])
      invariant details == Stored(DetailEntries(texts[..i]))
    {
      var (key, value) := Detail(texts[i]);
      StoredStep(texts, i);
      details := details[key := value];
      i := i + 1;
    }
    assert texts[..i] == texts;
  }

  /** One more detail element stores its label and value over the map of
      the elements before it. */
  lemma StoredStep(texts: seq<string>, i: int)
    requires DetailsParsable(texts) && 0 <= i < |texts|
    ensures DetailsParsable(texts[..i]) && DetailsParsable(texts[..i + 1])
    ensures Stored(DetailEntries(texts[..i + 1]))
         == Stored(DetailEntries(texts[..i]))[Detail(texts[i]).0 := Detail(texts[i]).1]
  {
    ParsablePrefix(texts, i);
    ParsablePrefix(texts, i + 1);
    MapSeqSnoc(Detail, texts, i);
    StoredAppend(DetailEntries(texts[..i]), Detail(texts[i]));
  }

  /** The loop over the check tags: each text is appended as it is. */
  method CollectExtras(tags: seq<string>) returns (extras: seq<string>)
    ensures extras == tags
  {
    extras := [];
    var j := 0;
    while j < |tags|
      invariant 0 <= j <= |tags|
      invariant extras == tags[..j]
    {
      extras := extras + [tags[j]];
      j := j + 1;
    }
    assert tags[..j] == tags;
  }

  /** A seller date that does not parse leaves the seller's "active since"
      at the zero time; one that parses is stored. */
  lemma AdOfActiveSince(baseURL: string, page: AdPage)
    requires AdPageParsable(page)
    ensures ParseActiveSince(TrimSpace(page.activeSinceText)).Failure?
            ==> AdOf(baseURL, page).seller.activeSince == ZeroTime
    ensures ParseActiveSince(TrimSpace(page.activeSinceText)).Success?
            ==> AdOf(baseURL, page).seller.activeSince
                == ParseActiveSince(TrimSpace(page.activeSinceText)).value
  {
  }

  /** An ad page without a readable ad number still gets a link: the base
      path with an empty id. */
  lemma LinkWithoutId(baseURL: string, page: AdPage)
    requires AdPageParsable(page)
    requires ' ' !in RemoveAll(TrimSpace(page.extraInfoText), '\n')
    ensures AdOf(baseURL, page).id == ""
    ensures AdOf(baseURL, page).link == baseURL + AdPath
  {
    var info := ParseExtraInfo(TrimSpace(page.extraInfoText));
    assert info.1 == "";
    assert AdOf(baseURL, page).id == info.1;
    assert baseURL + AdPath + "" == baseURL + AdPath;
  }
}
