/** The search-URL builder of searchparam.go: every field of a SearchParam
    becomes one segment of the path (empty when the field is unset), the
    segments are written one after another in a fixed order, and the result
    is trimmed of slashes and appended to the site's base URL. */
module SearchParams {
  import opened GoStrings
  import opened Strconv

  const BaseURL := "https://www.ebay-kleinanzeigen.de"

  // Category ids.
  const Cars := "216"

  // Providers.
  const Private := "privat"
  const Commercial := "gewerblich"

  // Offer types.
  const Offer := "angebote"
  const Wanted := "gesuche"

  // Radii around the location, in kilometres; the empty radius is the
  // whole place.
  const WholePlace := ""
  const FiveKM := "5"
  const TenKM := "10"
  const TwentyKM := "20"
  const ThirtyKM := "30"
  const FiftyKM := "50"
  const OneHundredKM := "100"
  const OneHundredFiftyKM := "150"
  const TwoHundredKM := "200"

  // Names of category-specific parameters (specificparams.go).
  const CarManufacturer := "autos.marke_s"
  const CarModel := "autos.model_s"
  const CarKM := "autos.km_i"
  const CarYearOfRegistration := "autos.ez_i"
  const CarHP := "autos.power_i"
  const CarTUEV := "autos.tuevy_i"

  /** The parameters of a search. The string-typed ids are plain strings;
      a nil map of specific parameters is the empty map. */
  datatype SearchParam = SearchParam(
    category: string,
    provider: string,
    offerType: string,
    location: string,
    radius: string,
    specificParameter: map<string, string>,
    page: int,
    priceFrom: int,
    priceTo: int)

  /** The search with every field unset. */
  const NoParams := SearchParam("", "", "", "", "", map[], 0, 0, 0)

  // ------------------------------------------------------------ segments

  /** "/c" and the category id, or nothing. */
  function FmtCategory(sp: SearchParam): (r: string)
    ensures r == "" <==> sp.category == ""
    ensures r != "" ==> HasPrefix(r, "/c")
    ensures TrimPrefix(r, "/c") == sp.category
  {
    if sp.category != "" then "/c" + sp.category else ""
  }

  /** "/anbieter:" and the provider, or nothing. */
  function FmtProvider(sp: SearchParam): (r: string)
    ensures r == "" <==> sp.provider == ""
    ensures r != "" ==> HasPrefix(r, "/anbieter:")
    ensures TrimPrefix(r, "/anbieter:") == sp.provider
  {
    if sp.provider != "" then "/anbieter:" + sp.provider else ""
  }

  /** "/anzeige:" and the offer type, or nothing. */
  function FmtOfferType(sp: SearchParam): (r: string)
    ensures r == "" <==> sp.offerType == ""
    ensures r != "" ==> HasPrefix(r, "/anzeige:")
    ensures TrimPrefix(r, "/anzeige:") == sp.offerType
  {
    if sp.offerType != "" then "/anzeige:" + sp.offerType else ""
  }

  /** "l" and the location id, or nothing. */
  function FmtLocationID(sp: SearchParam): (r: string)
    ensures r == "" <==> sp.location == ""
    ensures r != "" ==> HasPrefix(r, "l")
    ensures TrimPrefix(r, "l") == sp.location
  {
    if sp.location != "" then "l" + sp.location else ""
  }

  /** "r" and the radius, or nothing (WholePlace is the empty radius). */
  function FmtRadius(sp: SearchParam): (r: string)
    ensures r == "" <==> sp.radius == ""
    ensures r != "" ==> HasPrefix(r, "r")
    ensures TrimPrefix(r, "r") == sp.radius
  {
    if sp.radius != "" then "r" + sp.radius else ""
  }

  // ---------------------------------------------------------------- price

  const PricePrefix := "/preis:"

  /** A price bound as the URL writes it: its decimal digits when positive,
      nothing otherwise (a bound of 0 or less is no bound). */
  function Bound(x: int): (r: string)
    ensures r == "" <==> x <= 0
    ensures r != "" ==> AllDigits(r) && r[0] != '0' && DigitsValue(r) == x
  {
    if x > 0 then Itoa(x) else ""
  }

  /** "/preis:FROM:TO" with either bound left empty when it is not positive,
      or nothing when neither is. */
  function FmtPrice(sp: SearchParam): (r: string)
    ensures r == "" <==> sp.priceFrom <= 0 && sp.priceTo <= 0
    ensures r != "" ==> r == PricePrefix + Bound(sp.priceFrom) + ":" + Bound(sp.priceTo)
  {
    if sp.priceTo > 0 then
      if sp.priceFrom > 0 then PricePrefix + Itoa(sp.priceFrom) + ":" + Itoa(sp.priceTo)
      else
        assert PricePrefix + ":" + Itoa(sp.priceTo) == PricePrefix + "" + ":" + Itoa(sp.priceTo);
        PricePrefix + ":" + Itoa(sp.priceTo)
    else if sp.priceFrom > 0 then
      assert PricePrefix + Itoa(sp.priceFrom) + ":" == PricePrefix + Itoa(sp.priceFrom) + ":" + "";
      PricePrefix + Itoa(sp.priceFrom) + ":"
    else ""
  }

  /** The value of a bound written by Bound; the empty text is no bound. */
  function BoundValue(s: string): (n: int)
    ensures n >= 0
  {
    if AllDigits(s) then DigitsValue(s) else 0
  }

  /** Reads the two bounds back from a price segment. */
  function PriceBounds(segment: string): (bounds: (int, int))
    ensures bounds.0 >= 0 && bounds.1 >= 0
  {
    if !HasPrefix(segment, PricePrefix) then (0, 0)
    else
      var parts := Split(segment[|PricePrefix|..], ':');
      if |parts| != 2 then (0, 0) else (BoundValue(parts[0]), BoundValue(parts[1]))
  }

  /** The price segment determines both bounds, with every non-positive
      bound read back as 0. */
  lemma PriceBoundsOfFmtPrice(sp: SearchParam)
    ensures PriceBounds(FmtPrice(sp))
         == (if sp.priceFrom > 0 then sp.priceFrom else 0, if sp.priceTo > 0 then sp.priceTo else 0)
  {
    if FmtPrice(sp) != "" {
      PriceBoundsOfSegment(Bound(sp.priceFrom), Bound(sp.priceTo));
    }
  }

  /** A price segment with two colon-free digit strings reads back as their
      values. */
  lemma PriceBoundsOfSegment(from: string, to: string)
    requires from == "" || AllDigits(from)
    requires to == "" || AllDigits(to)
    ensures PriceBounds(PricePrefix + from + ":" + to) == (BoundValue(from), BoundValue(to))
  {
    var segment := PricePrefix + from + ":" + to;
    DigitsHaveNoColon(from);
    DigitsHaveNoColon(to);
    var parts := [from, to];
    assert Join(parts[1..], ':') == to;
    assert Join(parts, ':') == from + ":" + to;
    SplitJoin(parts, ':');
    RegroupAfter(PricePrefix, from, ":", to);
    assert segment[|PricePrefix|..] == from + ":" + to;
  }

  /** Concatenation regrouped behind its first part. */
  lemma RegroupAfter(a: string, b: string, c: string, d: string)
    ensures a + b + c + d == a + (b + c + d)
  {
  }

  lemma DigitsHaveNoColon(s: string)
    requires s == "" || AllDigits(s)
    ensures ':' !in s
  {
    forall i | 0 <= i < |s| ensures s[i] != ':' {
      assert IsDigit(s[i]);
    }
  }

  // ----------------------------------------------------------------- page

  const PagePrefix := "/seite:"

  /** "/seite:" and the page number when it is positive, nothing otherwise. */
  function FmtPage(sp: SearchParam): (r: string)
    ensures r == "" <==> sp.page <= 0
    ensures r != "" ==> HasPrefix(r, PagePrefix) && |r| > |PagePrefix|
                        && AllDigits(r[|PagePrefix|..]) && r[|PagePrefix|] != '0'
                        && DigitsValue(r[|PagePrefix|..]) == sp.page
  {
    if sp.page > 0 then
      var r := PagePrefix + Itoa(sp.page);
      assert r[|PagePrefix|..] == Itoa(sp.page);
      r
    else ""
  }

  // -------------------------------------------------- specific parameters

  /** One specific parameter as the URL writes it. */
  function Entry(name: string, value: string): string {
    "+" + name + ":" + value
  }

  /** The entries of `m`, written in the order `names` lists them. */
  function Entries(m: map<string, string>, names: seq<string>): (s: string)
    requires forall i :: 0 <= i < |names| ==> names[i] in m
    ensures s == "" <==> names == []
    ensures s != "" ==> s[0] == '+'
  {
    if names == [] then ""
    else
      var last := names[|names| - 1];
      Entries(m, names[..|names| - 1]) + Entry(last, m[last])
  }

  /** `names` lists every key of `keys` exactly once, in some order. */
  predicate IsEnumeration(names: seq<string>, keys: set<string>) {
    |names| == |keys|
    && (forall i, j :: 0 <= i < j < |names| ==> names[i] != names[j])
    && (forall i :: 0 <= i < |names| ==> names[i] in keys)
    && (forall k :: k in keys ==> k in names)
  }

  /** fmtSpecificParameter: the entries of the map, each written as
      "+name:value", in the map's iteration order. Go leaves that order
      unspecified, so the method chooses each next key freely and reports
      the order it chose. */
  method FmtSpecificParameter(sp: SearchParam) returns (s: string, ghost order: seq<string>)
    ensures IsEnumeration(order, sp.specificParameter.Keys)
    ensures s == Entries(sp.specificParameter, order)
    ensures sp.specificParameter == map[] ==> s == ""
  {
    var m := sp.specificParameter;
    s := "";
    order := [];
    var remaining := m.Keys;
    while remaining != {}
      invariant remaining <= m.Keys
      invariant |order| + |remaining| == |m.Keys|
      invariant forall i, j :: 0 <= i < j < |order| ==> order[i] != order[j]
      invariant forall i :: 0 <= i < |order| ==> order[i] in m && order[i] !in remaining
      invariant forall k :: k in m ==> k in remaining || k in order
      invariant s == Entries(m, order)
      decreases |remaining|
    {
      var k :| k in remaining;
      s := s + ("+" + k + ":" + m[k]);
      assert (order + [k])[..|order|] == order;
      order := order + [k];
      remaining := remaining - {k};
    }
    assert m == map[] ==> |m.Keys| == 0;
  }

  /** Whatever order the map yields, a single parameter is written as
      "+name:value". */
  lemma SingleParameter(name: string, value: string, order: seq<string>)
    requires IsEnumeration(order, {name})
    ensures Entries(map[name := value], order) == "+" + name + ":" + value
  {
    assert |order| == 1;
    assert order[..0] == [];
  }

  // ------------------------------------------------------------------- URL

  /** The segments in the order toURL writes them. */
  function Segments(sp: SearchParam, specific: string): (s: string)
    ensures HasPrefix(s, FmtOfferType(sp))
    ensures |specific| <= |s| && s[|s| - |specific|..] == specific
  {
    var o, pr, pv, pg := FmtOfferType(sp), FmtPrice(sp), FmtProvider(sp), FmtPage(sp);
    var c, l, r := FmtCategory(sp), FmtLocationID(sp), FmtRadius(sp);
    EndsOfSegments(o, pr, pv, pg, c, l, r, specific);
    o + pr + pv + pg + c + l + r + specific
  }

  /** The first of the segments starts them and the last ends them. */
  lemma EndsOfSegments(o: string, pr: string, pv: string, pg: string, c: string, l: string,
                       r: string, x: string)
    ensures var s := o + pr + pv + pg + c + l + r + x;
            HasPrefix(s, o) && |x| <= |s| && s[|s| - |x|..] == x
  {
    var m := o + pr + pv + pg + c + l + r;
    assert m == o + (pr + pv + pg + c + l + r);
    assert (m + x)[..|o|] == o;
    assert (m + x)[|m|..] == x;
  }

  /** The URL for the segments, with the parameters trimmed of slashes. */
  function URL(sp: SearchParam, specific: string): (url: string)
    ensures HasPrefix(url, BaseURL + "/")
    ensures NoEdge(url[|BaseURL| + 1..], IsSlash)
  {
    var params := TrimSlashes(Segments(sp, specific));
    var url := BaseURL + "/" + params;
    SlicesOfConcat(BaseURL + "/", params);
    url
  }

  lemma SlicesOfConcat(a: string, b: string)
    ensures (a + b)[..|a|] == a && (a + b)[|a|..] == b
  {
  }

  /** toURL: the segments are written into a builder one after another,
      the specific parameters last; the result is trimmed of slashes at
      both ends and appended to the base URL and a slash. */
  method ToURL(sp: SearchParam) returns (url: string, ghost order: seq<string>)
    ensures IsEnumeration(order, sp.specificParameter.Keys)
    ensures url == URL(sp, Entries(sp.specificParameter, order))
  {
    var sb := "";
    sb := sb + FmtOfferType(sp);
    assert sb == FmtOfferType(sp);
    sb := sb + FmtPrice(sp);
    sb := sb + FmtProvider(sp);
    sb := sb + FmtPage(sp);
    sb := sb + FmtCategory(sp);
    sb := sb + FmtLocationID(sp);
    sb := sb + FmtRadius(sp);
    var specific;
    specific, order := FmtSpecificParameter(sp);
    sb := sb + specific;
    assert sb == Segments(sp, specific);
    var params := TrimSlashes(sb);
    url := BaseURL + "/" + params;
  }

  /** A segment made of a slash-led tag and a value that does not end in a
      slash loses only its leading slash to the trimming. */
  lemma TrimSlashesOfTagged(tag: string, value: string)
    requires |tag| >= 2 && tag[0] == '/' && tag[1] != '/'
    requires value != [] && value[|value| - 1] != '/'
    ensures TrimSlashes(tag + value) == tag[1..] + value
  {
    var mid := tag[1..] + value;
    assert tag + value == "/" + mid + "";
    assert mid[0] == tag[1] && mid[|mid| - 1] == value[|value| - 1];
    TrimFuncOfPadded("/", mid, "", IsSlash);
  }

  /** Concatenation regrouped: the slash after the base URL joins the tag. */
  lemma Regroup(a: string, b: string, c: string, d: string)
    ensures a + b + (c + d) == a + (b + c) + d
  {
  }

  /** A search with nothing set is the base URL and a slash. */
  lemma URLOfNoParams(order: seq<string>)
    requires IsEnumeration(order, {})
    ensures URL(NoParams, Entries(NoParams.specificParameter, order)) == BaseURL + "/"
  {
    assert |order| == 0;
    assert Segments(NoParams, "") == "";
    TrimFuncOfPadded("", "", "", IsSlash);
  }

  /** When the segments are a slash-led tag and a value that does not end
      in a slash, the URL is the base URL, the tag and the value. */
  lemma URLOfTagged(sp: SearchParam, specific: string, tag: string, value: string)
    requires Segments(sp, specific) == tag + value
    requires |tag| >= 2 && tag[0] == '/' && tag[1] != '/'
    requires value != [] && value[|value| - 1] != '/'
    ensures URL(sp, specific) == BaseURL + tag + value
  {
    assert URL(sp, specific) == BaseURL + "/" + TrimSlashes(tag + value);
    JoinTagged(BaseURL, tag, value);
  }

  lemma JoinTagged(base: string, tag: string, value: string)
    requires |tag| >= 2 && tag[0] == '/' && tag[1] != '/'
    requires value != [] && value[|value| - 1] != '/'
    ensures base + "/" + TrimSlashes(tag + value) == base + tag + value
  {
    TrimSlashesOfTagged(tag, value);
    Regroup(base, "/", tag[1..], value);
    assert "/" + tag[1..] == tag;
  }

  /** A search for page n alone is the base URL and "/seite:n". */
  lemma URLOfPage(n: int)
    requires n > 0
    ensures URL(NoParams.(page := n), "") == BaseURL + PagePrefix + Itoa(n)
  {
    var sp := NoParams.(page := n);
    SegmentsOfPage(sp);
    URLOfTagged(sp, "", PagePrefix, Itoa(n));
  }

  lemma SegmentsOfPage(sp: SearchParam)
    requires sp == NoParams.(page := sp.page) && sp.page > 0
    ensures Segments(sp, "") == PagePrefix + Itoa(sp.page)
  {
    var o, pr, pv, pg := FmtOfferType(sp), FmtPrice(sp), FmtProvider(sp), FmtPage(sp);
    var c, l, r := FmtCategory(sp), FmtLocationID(sp), FmtRadius(sp);
    assert o == "" && pr == "" && pv == "" && c == "" && l == "" && r == "";
    OnlyFourth(o, pr, pv, pg, c, l, r, "");
  }

  /** A search in a category alone is the base URL, "/c" and the id. */
  lemma URLOfCategory(category: string)
    requires category != [] && category[|category| - 1] != '/'
    ensures URL(NoParams.(category := category), "") == BaseURL + "/c" + category
  {
    var sp := NoParams.(category := category);
    SegmentsOfCategory(sp);
    URLOfTagged(sp, "", "/c", category);
  }

  lemma SegmentsOfCategory(sp: SearchParam)
    requires sp == NoParams.(category := sp.category) && sp.category != []
    ensures Segments(sp, "") == "/c" + sp.category
  {
    var o, pr, pv, pg := FmtOfferType(sp), FmtPrice(sp), FmtProvider(sp), FmtPage(sp);
    var c, l, r := FmtCategory(sp), FmtLocationID(sp), FmtRadius(sp);
    assert o == "" && pr == "" && pv == "" && pg == "" && l == "" && r == "";
    OnlyFifth(o, pr, pv, pg, c, l, r, "");
  }

  /** A search for a price range alone is the base URL and
      "/preis:FROM:TO". */
  lemma URLOfPriceRange(from: int, to: int)
    requires from > 0 && to > 0
    ensures URL(NoParams.(priceFrom := from, priceTo := to), "")
         == BaseURL + PricePrefix + (Itoa(from) + ":" + Itoa(to))
  {
    var sp := NoParams.(priceFrom := from, priceTo := to);
    var bounds := Itoa(from) + ":" + Itoa(to);
    SegmentsOfPriceRange(sp);
    URLOfTagged(sp, "", PricePrefix, bounds);
  }

  lemma SegmentsOfPriceRange(sp: SearchParam)
    requires sp == NoParams.(priceFrom := sp.priceFrom, priceTo := sp.priceTo)
    requires sp.priceFrom > 0 && sp.priceTo > 0
    ensures Segments(sp, "") == PricePrefix + (Itoa(sp.priceFrom) + ":" + Itoa(sp.priceTo))
  {
    var o, pr, pv, pg := FmtOfferType(sp), FmtPrice(sp), FmtProvider(sp), FmtPage(sp);
    var c, l, r := FmtCategory(sp), FmtLocationID(sp), FmtRadius(sp);
    assert pr == PricePrefix + (Itoa(sp.priceFrom) + ":" + Itoa(sp.priceTo));
    assert o == "" && pv == "" && pg == "" && c == "" && l == "" && r == "";
    OnlySecond(o, pr, pv, pg, c, l, r, "");
  }

  /** An offer type with a category, a location, a radius and specific
      parameters: every segment but the offer type's is written without a
      slash, so only the leading one is trimmed. */
  lemma URLOfOfferAndFilters(sp: SearchParam, specific: string)
    requires sp == NoParams.(offerType := sp.offerType, category := sp.category,
                             location := sp.location, radius := sp.radius)
    requires sp.offerType != [] && sp.category != [] && sp.location != [] && sp.radius != []
    requires specific != [] && specific[|specific| - 1] != '/'
    ensures URL(sp, specific)
         == BaseURL + "/anzeige:" + (sp.offerType + "/c" + sp.category + "l" + sp.location
            + "r" + sp.radius + specific)
  {
    var rest := sp.offerType + "/c" + sp.category + "l" + sp.location + "r" + sp.radius + specific;
    SegmentsOfFilters(sp, specific);
    URLOfTagged(sp, specific, "/anzeige:", rest);
  }

  lemma SegmentsOfFilters(sp: SearchParam, specific: string)
    requires sp == NoParams.(offerType := sp.offerType, category := sp.category,
                             location := sp.location, radius := sp.radius)
    requires sp.offerType != [] && sp.category != [] && sp.location != [] && sp.radius != []
    ensures Segments(sp, specific)
         == "/anzeige:" + (sp.offerType + "/c" + sp.category + "l" + sp.location
            + "r" + sp.radius + specific)
  {
    var offer, pr, pv, pg := FmtOfferType(sp), FmtPrice(sp), FmtProvider(sp), FmtPage(sp);
    var category, location, radius := FmtCategory(sp), FmtLocationID(sp), FmtRadius(sp);
    assert pr == "" && pv == "" && pg == "";
    WithoutMiddle(offer, pr, pv, pg, category, location, radius, specific);
    assert offer == "/anzeige:" + sp.offerType && category == "/c" + sp.category;
    assert location == "l" + sp.location && radius == "r" + sp.radius;
    RegroupTagged("/anzeige:", sp.offerType, "/c", sp.category, "l", sp.location,
                  "r", sp.radius, specific);
  }

  /** Four tagged segments and a tail, regrouped behind the first tag. */
  lemma RegroupTagged(t1: string, v1: string, t2: string, v2: string, t3: string, v3: string,
                      t4: string, v4: string, tail: string)
    ensures (t1 + v1) + (t2 + v2) + (t3 + v3) + (t4 + v4) + tail
         == t1 + (v1 + t2 + v2 + t3 + v3 + t4 + v4 + tail)
  {
  }

  /* The segments of a search with some parameters unset: an unset
     parameter writes the empty segment, which drops out of the URL. */

  lemma OnlySecond(o: string, pr: string, pv: string, pg: string, c: string, l: string,
                   r: string, x: string)
    requires o == "" && pv == "" && pg == "" && c == "" && l == "" && r == "" && x == ""
    ensures o + pr + pv + pg + c + l + r + x == pr
  {
  }

  lemma OnlyFourth(o: string, pr: string, pv: string, pg: string, c: string, l: string,
                   r: string, x: string)
    requires o == "" && pr == "" && pv == "" && c == "" && l == "" && r == "" && x == ""
    ensures o + pr + pv + pg + c + l + r + x == pg
  {
  }

  lemma OnlyFifth(o: string, pr: string, pv: string, pg: string, c: string, l: string,
                  r: string, x: string)
    requires o == "" && pr == "" && pv == "" && pg == "" && l == "" && r == "" && x == ""
    ensures o + pr + pv + pg + c + l + r + x == c
  {
  }

  lemma WithoutMiddle(o: string, pr: string, pv: string, pg: string, c: string, l: string,
                      r: string, x: string)
    requires pr == "" && pv == "" && pg == ""
    ensures o + pr + pv + pg + c + l + r + x == o + c + l + r + x
  {
    assert o + pr + pv + pg == o;
  }
}
