/** The table-driven cases of searchparam_test.go, proved of the model.
    Where a test expects "/seite:1" for a search without a page, the model
    follows the code, which writes no page segment at all. */
module SearchCases {
  import opened GoStrings
  import opened Strconv
  import opened SearchParams

  lemma ItoaOneAndTwentyThree()
    ensures Itoa(1) == "1" && Itoa(23) == "23"
  {
    assert Digit(1) == '1' && Digit(2) == '2' && Digit(3) == '3';
    ItoaAppend(2, 3);
  }

  lemma Itoa6000()
    ensures Itoa(6000) == "6000"
  {
    assert Digit(0) == '0' && Digit(6) == '6';
    ItoaAppend(6, 0);
    assert Itoa(60) == "60";
    ItoaAppend(60, 0);
    assert Itoa(600) == "600";
    ItoaAppend(600, 0);
  }

  lemma Itoa1000()
    ensures Itoa(1000) == "1000"
  {
    assert Digit(0) == '0' && Digit(1) == '1';
    ItoaAppend(1, 0);
    assert Itoa(10) == "10";
    ItoaAppend(10, 0);
    assert Itoa(100) == "100";
    ItoaAppend(100, 0);
  }

  lemma Itoa5000()
    ensures Itoa(5000) == "5000"
  {
    assert Digit(0) == '0' && Digit(5) == '5';
    ItoaAppend(5, 0);
    assert Itoa(50) == "50";
    ItoaAppend(50, 0);
    assert Itoa(500) == "500";
    ItoaAppend(500, 0);
  }

  lemma PriceCases()
    ensures FmtPrice(NoParams) == ""
    ensures FmtPrice(NoParams.(priceFrom := 1000)) == PricePrefix + "1000" + ":"
    ensures FmtPrice(NoParams.(priceTo := 1000)) == PricePrefix + ":" + "1000"
    ensures FmtPrice(NoParams.(priceFrom := 1000, priceTo := 6000)) == PricePrefix + "1000" + ":" + "6000"
  {
    Itoa1000();
    Itoa6000();
  }

  lemma PageCases()
    ensures FmtPage(NoParams) == ""
    ensures FmtPage(NoParams.(page := 1)) == PagePrefix + "1"
    ensures FmtPage(NoParams.(page := -1)) == ""
  {
    ItoaOneAndTwentyThree();
  }

  lemma RadiusCases()
    ensures FmtRadius(NoParams.(radius := WholePlace)) == ""
    ensures FmtRadius(NoParams.(radius := FiftyKM)) == "r" + FiftyKM
    ensures FmtRadius(NoParams.(radius := OneHundredFiftyKM)) == "r" + OneHundredFiftyKM
  {
  }

  /** One manufacturer is written as "+autos.marke_s:bmw", in whatever
      order the map is walked. */
  lemma ManufacturerCase(order: seq<string>)
    requires IsEnumeration(order, {CarManufacturer})
    ensures Entries(map[CarManufacturer := "bmw"], order) == "+" + CarManufacturer + ":" + "bmw"
  {
    SingleParameter(CarManufacturer, "bmw", order);
  }

  /** Page 23 alone gives the base URL and "/seite:23". */
  lemma URLOfPage23()
    ensures URL(NoParams.(page := 23), "") == BaseURL + PagePrefix + "23"
  {
    URLOfPage(23);
    ItoaOneAndTwentyThree();
  }

  /** The car category alone gives the base URL and "/c216"; the test
      expects "/seite:1/c216", which the code does not write. */
  lemma URLOfCars()
    ensures URL(NoParams.(category := Cars), "") == BaseURL + "/c" + Cars
  {
    URLOfCategory(Cars);
  }

  /** A price range of 1000 to 5000; the test expects "/seite:1" after it,
      which the code does not write. */
  lemma URLOfPrice1000To5000()
    ensures URL(NoParams.(priceFrom := 1000, priceTo := 5000), "")
         == BaseURL + PricePrefix + ("1000" + ":" + "5000")
  {
    URLOfPriceRange(1000, 5000);
    Itoa1000();
    Itoa5000();
  }

  /** Offers for cars in location 3331 within 10 km, made by BMW; the test
      expects "/seite:1" after the offer type, which the code does not
      write. */
  lemma URLOfBasicSearch(order: seq<string>)
    requires IsEnumeration(order, {CarManufacturer})
    ensures URL(NoParams.(offerType := Offer, category := Cars, location := "3331", radius := TenKM),
                Entries(map[CarManufacturer := "bmw"], order))
         == BaseURL + "/anzeige:" + (Offer + "/c" + Cars + "l" + "3331" + "r" + TenKM
            + ("+" + CarManufacturer + ":" + "bmw"))
  {
    ManufacturerCase(order);
    var sp := NoParams.(offerType := Offer, category := Cars, location := "3331", radius := TenKM);
    URLOfOfferAndFilters(sp, "+" + CarManufacturer + ":" + "bmw");
  }
}
