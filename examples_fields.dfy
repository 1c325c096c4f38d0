/** The table-driven cases of parser_test.go, proved of the model. */
module FieldCases {
  import opened Wrappers
  import opened GoStrings
  import opened Strconv
  import opened GoTime
  import opened Fields

  lemma Itoa4500()
    ensures Itoa(4500) == "4500"
  {
    assert Digit(4) == '4' && Digit(5) == '5' && Digit(0) == '0';
    ItoaAppend(4, 5);
    assert Itoa(45) == "45";
    ItoaAppend(45, 0);
    assert Itoa(450) == "450";
    ItoaAppend(450, 0);
  }

  lemma Amount4500()
    ensures RemoveAll("4.500", '.') == Itoa(4500)
  {
    assert "4.500" == "4" + ['.', '5'] + "00";
    RemoveAllBetween("4", '.', '5', "00");
    assert "4" + ['5'] + "00" == "4500";
    Itoa4500();
  }

  lemma PriceOnlyNegotiable()
    ensures ParsePrice(Negotiable + "") == Price(0, true, None)
  {
    ParsePriceOfMarker(Negotiable, "");
  }

  lemma PriceOnlyAmount()
    ensures ParsePrice("4.500" + " " + "€") == Price(4500, false, None)
  {
    Amount4500();
    ParsePriceOfAmount("4.500", 4500, "€");
  }

  /** parser_test.go expects this price to be negotiable; the code returns
      false on its numeric path. */
  lemma PriceWithMarkerIsNotNegotiable()
    ensures ParsePrice("4.500" + " " + "€" + " " + Negotiable) == Price(4500, false, None)
  {
    Amount4500();
    ParsePriceOfAmountAndMarker("4.500", 4500, "€", Negotiable);
  }

  // The texts below are written as concatenations of their fields: stated
  // as one literal, the verifier would evaluate every recursive string
  // function on it character by character.

  lemma LocationWithTab()
    ensures ParseLocation("10119" + " " + "Mitte" + "\t") == ("10119", "Mitte")
  {
    ParseLocationOf("10119", "Mitte", "", "\t");
    assert "10119" + " " + "Mitte" + "" + "\t" == "10119" + " " + "Mitte" + "\t";
  }

  lemma LocationOfSeveralWords()
    ensures ParseLocation("16540" + " " + "Hohen Neuendorf") == ("16540", "Hohen Neuendorf")
  {
    ParseLocationOf("16540", "Hohen Neuendorf", "", "");
    assert "16540" + " " + "Hohen Neuendorf" + "" + "" == "16540" + " " + "Hohen Neuendorf";
  }

  lemma LocationWithDistance()
    ensures ParseLocation("16540" + " " + "Hohen Neuendorf" + "\n(13km)") == ("16540", "Hohen Neuendorf")
  {
    ParseLocationOf("16540", "Hohen Neuendorf", "\n(13km)", "");
    assert "16540" + " " + "Hohen Neuendorf" + "\n(13km)" + ""
        == "16540" + " " + "Hohen Neuendorf" + "\n(13km)";
  }

  lemma ExtraInfoCase()
    ensures ParseExtraInfo("22.03.2021" + "\n " + AdNumberLabel + "1708911891") == (Date(2021, 3, 22), "1708911891")
  {
    FormatOfListingDate();
    ParseOfFormat(Date(2021, 3, 22));
    ParseExtraInfoOf("22.03.2021", "1708911891");
  }

  lemma DetailMileage()
    ensures ParseDetail("Kilometerstand" + "\n" + "38.600 km") == ("Kilometerstand", "38.600 km")
  {
    ParseDetailOf("Kilometerstand", "38.600 km");
  }

  lemma DetailDoors()
    ensures ParseDetail("Anzahl Türen" + "\n" + "2/3") == ("Anzahl Türen", "2/3")
  {
    ParseDetailOf("Anzahl Türen", "2/3");
  }

  lemma DetailCondition()
    ensures ParseDetail("Fahrzeugzustand" + "\n" + "Unbeschädigtes Fahrzeug")
         == ("Fahrzeugzustand", "Unbeschädigtes Fahrzeug")
  {
    ParseDetailOf("Fahrzeugzustand", "Unbeschädigtes Fahrzeug");
  }

  lemma RatingCases()
    ensures ParseRating("") == ""
    ensures ParseRating(RatingLabel + "TOP") == "TOP"
  {
    ParseRatingOf("TOP");
  }

  lemma ActiveSinceCases()
    ensures ParseActiveSince("") == Success(ZeroTime)
    ensures ActiveSinceSliceable(ActiveLabel + "06.10.2012")
    ensures ParseActiveSince(ActiveLabel + "06.10.2012") == Success(Date(2012, 10, 6))
  {
    FormatOfSellerDate();
    ParseActiveSinceOf(Date(2012, 10, 6), "");
    assert ActiveLabel + "06.10.2012" + "" == ActiveLabel + "06.10.2012";
  }

  lemma FormatOfSellerDate()
    ensures Format(Date(2012, 10, 6)) == "06.10.2012"
  {
    PadsOfSellerDate();
    FormatOfParts(Date(2012, 10, 6), "06", "10", "2012");
  }

  lemma PadsOfSellerDate()
    ensures Pad2(6) == "06" && Pad2(10) == "10" && Pad4(2012) == "2012"
  {
    assert Pad2(20) == "20" && Pad2(12) == "12";
  }

  lemma FormatOfListingDate()
    ensures Format(Date(2021, 3, 22)) == "22.03.2021"
  {
    PadsOfListingDate();
    FormatOfParts(Date(2021, 3, 22), "22", "03", "2021");
  }

  lemma PadsOfListingDate()
    ensures Pad2(22) == "22" && Pad2(3) == "03" && Pad4(2021) == "2021"
  {
    assert Pad2(20) == "20" && Pad2(21) == "21";
  }

  /** A date is written as its three padded fields with dots between. */
  lemma FormatOfParts(d: Date, day: string, month: string, year: string)
    requires Writable(d)
    requires Pad2(d.day) == day && Pad2(d.month) == month && Pad4(d.year) == year
    ensures Format(d) == day + "." + month + "." + year
  {
  }
}
