/** The field-level parsers of parser.go: each turns one text fragment of a
    listing or ad page into typed values. None of them loops; they are
    split, trim and prefix operations on the fragment. */
module Fields {
  import opened Wrappers
  import opened GoStrings
  import opened Strconv
  import opened GoTime

  // ------------------------------------------------------------------ price

  /** parsePrice's three results: the amount, the negotiable flag, and the
      error of the number conversion, if any. */
  datatype Price = Price(amount: int, negotiable: bool, err: Option<NumError>)

  /** The marker for "negotiable" (Verhandlungsbasis). */
  const Negotiable := "VB"

  /** parsePrice: split on single spaces; a first token that reads "VB" once
      its dots are dropped means negotiable without amount; with two or
      three tokens the dot-free first token is the amount as a base-10
      32-bit integer; anything else is no price. strings.Split never
      returns an empty list, so the source's length guard always holds. */
  function ParsePrice(text: string): (r: Price)
    ensures r.negotiable <==> RemoveAll(Before(text, ' '), '.') == Negotiable
    ensures r.negotiable ==> r.amount == 0 && r.err == None
    ensures r.err.Some? ==> r.amount == 0 && !r.negotiable
    ensures r.amount != 0 ==> r.err == None && !r.negotiable && 2 <= |Split(text, ' ')| <= 3
    ensures r.err.Some? ==> 2 <= |Split(text, ' ')| <= 3
    ensures !r.negotiable && !(2 <= |Split(text, ' ')| <= 3) ==> r == Price(0, false, None)
    ensures MinInt32 <= r.amount <= MaxInt32
  {
    var splits := Split(text, ' ');
    var first := RemoveAll(splits[0], '.');
    if first == Negotiable then Price(0, true, None)
    else if |splits| == 2 || |splits| == 3 then
      match ParseInt32(first)
      case Failure(e) => Price(0, false, Some(e))
      case Success(v) => Price(v, false, None)
    else Price(0, false, None)
  }

  /** An amount with thousands dots and a currency: the dot-free amount is
      the number. */
  lemma ParsePriceOfAmount(amount: string, n: int, currency: string)
    requires 0 < n <= MaxInt32 && ' ' !in amount && RemoveAll(amount, '.') == Itoa(n)
    requires ' ' !in currency
    ensures ParsePrice(amount + " " + currency) == Price(n, false, None)
  {
    var parts := [amount, currency];
    assert Join(parts[1..], ' ') == currency;
    assert Join(parts, ' ') == amount + " " + currency;
    SplitJoin(parts, ' ');
    AmountOfItoa(n);
  }

  /** A third token after the amount and the currency changes nothing: in
      particular "4.500 € VB" is NOT negotiable, since the numeric path
      always returns false. */
  lemma ParsePriceOfAmountAndMarker(amount: string, n: int, currency: string, marker: string)
    requires 0 < n <= MaxInt32 && ' ' !in amount && RemoveAll(amount, '.') == Itoa(n)
    requires ' ' !in currency && ' ' !in marker
    ensures ParsePrice(amount + " " + currency + " " + marker) == Price(n, false, None)
  {
    var parts := [amount, currency, marker];
    assert Join(parts[2..], ' ') == marker;
    assert Join(parts[1..], ' ') == currency + " " + marker;
    assert Join(parts, ' ') == amount + " " + currency + " " + marker;
    SplitJoin(parts, ' ');
    AmountOfItoa(n);
  }

  /** The written form of a positive 32-bit number is not the marker and
      converts back to the number. */
  lemma AmountOfItoa(n: int)
    requires 0 < n <= MaxInt32
    ensures Itoa(n) != Negotiable && ParseInt32(Itoa(n)) == Success(n)
  {
    var digits := Itoa(n);
    assert IsDigit(digits[0]);
    ParseInt32OfItoa(n);
  }

  /** A first token reading "VB" makes the price negotiable, whatever follows. */
  lemma ParsePriceOfMarker(first: string, rest: string)
    requires ' ' !in first && RemoveAll(first, '.') == Negotiable
    requires rest == [] || rest[0] == ' '
    ensures ParsePrice(first + rest) == Price(0, true, None)
  {
    BeforeOfConcat(first, ' ', rest);
  }

  /** A malformed amount is a soft failure: no amount, not negotiable, and
      the conversion error is handed back. The amount is followed by one or
      two more words (a currency, and perhaps a marker). */
  lemma ParsePriceOfBadAmount(amount: string, words: seq<string>)
    requires ' ' !in amount && 1 <= |words| <= 2
    requires forall k :: 0 <= k < |words| ==> ' ' !in words[k]
    requires RemoveAll(amount, '.') != Negotiable
    requires ParseInt32(RemoveAll(amount, '.')).Failure?
    ensures ParsePrice(Join([amount] + words, ' '))
            == Price(0, false, Some(ParseInt32(RemoveAll(amount, '.')).error))
  {
    var parts := [amount] + words;
    WordsWithoutSpaces(amount, words);
    SplitJoin(parts, ' ');
  }

  /** Any amount that converts is the price, whatever its sign, leading
      zeros or thousands dots: the dot-free amount as strconv reads it,
      not negotiable, no error. */
  lemma ParsePriceOfNumber(amount: string, words: seq<string>)
    requires ' ' !in amount && 1 <= |words| <= 2
    requires forall k :: 0 <= k < |words| ==> ' ' !in words[k]
    requires RemoveAll(amount, '.') != Negotiable
    requires ParseInt32(RemoveAll(amount, '.')).Success?
    ensures ParsePrice(Join([amount] + words, ' '))
            == Price(ParseInt32(RemoveAll(amount, '.')).value, false, None)
  {
    var parts := [amount] + words;
    WordsWithoutSpaces(amount, words);
    SplitJoin(parts, ' ');
  }

  lemma WordsWithoutSpaces(first: string, words: seq<string>)
    requires ' ' !in first && forall k :: 0 <= k < |words| ==> ' ' !in words[k]
    ensures forall k :: 0 <= k < |[first] + words| ==> ' ' !in ([first] + words)[k]
  {
    forall k | 0 <= k < |[first] + words| ensures ' ' !in ([first] + words)[k] {
      if k > 0 {
        assert ([first] + words)[k] == words[k - 1];
      }
    }
  }

  // --------------------------------------------------------------- location

  /** parseLocation: after trimming, the zip code is the text before the
      first space and the place is the rest up to its first newline (what
      follows is a distance such as "(13km)"); without a space both are empty. */
  function ParseLocation(text: string): (r: (string, string))
    ensures var t := TrimSpace(text);
            ' ' !in t ==> r == ("", "")
    ensures var t := TrimSpace(text);
            ' ' in t ==> ' ' !in r.0 && '\n' !in r.1 && HasPrefix(t, r.0 + " " + r.1)
                         && (|t| == |r.0| + 1 + |r.1| || t[|r.0| + 1 + |r.1|] == '\n')
  {
    var t := TrimSpace(text);
    var splits := SplitN2(t, ' ');
    if |splits| == 2 then
      // the place is cut at the first newline, if there is one
      var place := Before(splits[1], '\n');
      HasPrefixAfter(splits[0] + " ", splits[1], place);
      (splits[0], place)
    else ("", "")
  }

  /** A zip code, a place and an optional distance line come back apart,
      whatever white space trails them. */
  lemma ParseLocationOf(zip: string, place: string, distance: string, pad: string)
    requires zip != [] && ' ' !in zip && !IsSpace(zip[0])
    requires '\n' !in place
    requires distance == [] ==> place != [] && !IsSpace(place[|place| - 1])
    requires distance != [] ==> distance[0] == '\n' && !IsSpace(distance[|distance| - 1])
    requires All(pad, IsSpace)
    ensures ParseLocation(zip + " " + place + distance + pad) == (zip, place)
  {
    var t := zip + " " + place + distance;
    ParseLocationOfTrimmed(zip, place, distance);
    ParseLocationIgnoresPadding(t, pad);
  }

  lemma ParseLocationOfTrimmed(zip: string, place: string, distance: string)
    requires zip != [] && ' ' !in zip && !IsSpace(zip[0])
    requires '\n' !in place
    requires distance == [] ==> place != [] && !IsSpace(place[|place| - 1])
    requires distance != [] ==> distance[0] == '\n' && !IsSpace(distance[|distance| - 1])
    ensures NoEdge(zip + " " + place + distance, IsSpace)
    ensures ParseLocation(zip + " " + place + distance) == (zip, place)
  {
    var after := place + distance;
    var t := zip + [' '] + after;
    assert t == zip + " " + place + distance;
    assert NoEdge(t, IsSpace) by {
      assert t[0] == zip[0];
      assert t[|t| - 1] == after[|after| - 1];
    }
    TrimSpaceOfTrimmed(t);
    SplitN2OfConcat(zip, ' ', after);
    BeforeOfConcat(place, '\n', distance);
  }

  lemma ParseLocationIgnoresPadding(t: string, pad: string)
    requires NoEdge(t, IsSpace) && All(pad, IsSpace)
    ensures ParseLocation(t + pad) == ParseLocation(t)
  {
    TrimSpaceOfPadded(t, pad);
    TrimSpaceOfTrimmed(t);
  }

  // ------------------------------------------------------------- extra info

  /** The label before the ad number on the ad page. */
  const AdNumberLabel := "Anzeigennr.: "

  /** The date a Parse result stands for where errors are dropped. */
  function DateOrZero(r: Result<Date, DateError>): (d: Date)
    ensures r.Success? ==> d == r.value
    ensures r.Failure? ==> d == ZeroTime
  {
    match r
    case Success(d) => d
    case Failure(_) => ZeroTime
  }

  /** parseExtraInfo: with every newline removed, the text before the first
      space is the listing date (the zero time when it does not parse) and
      the trimmed rest, less one leading "Anzeigennr.: ", is the ad id. */
  function ParseExtraInfo(text: string): (r: (Date, string))
    ensures ' ' !in RemoveAll(text, '\n') ==> r == (ZeroTime, "")
    ensures '\n' !in r.1
    ensures r.0 == ZeroTime || Writable(r.0)
  {
    var t := RemoveAll(text, '\n');
    var splits := SplitN2(t, ' ');
    if |splits| > 1 then
      var trimmed := TrimSpace(splits[1]);
      var id := TrimPrefix(trimmed, AdNumberLabel);
      NotInSlice(t, |splits[0]| + 1, |t|, '\n');
      NotInTrimSpace(splits[1], '\n');
      NotInTrimPrefix(trimmed, AdNumberLabel, '\n');
      (DateOrZero(Parse(splits[0])), id)
    else (ZeroTime, "")
  }

  /** The block "date, newline, ad number" of the ad page: the id comes back
      whether or not the date token is a valid date. */
  lemma ParseExtraInfoOf(token: string, id: string)
    requires ' ' !in token && '\n' !in token
    requires id != [] && '\n' !in id && NoEdge(id, IsSpace)
    ensures ParseExtraInfo(token + "\n " + AdNumberLabel + id) == (DateOrZero(Parse(token)), id)
  {
    var rest := AdNumberLabel + id;
    ExtraInfoWithoutNewlines(token, id);
    SplitN2OfConcat(token, ' ', rest);
    assert NoEdge(rest, IsSpace) by {
      assert rest[0] == 'A' && rest[|rest| - 1] == id[|id| - 1];
    }
    TrimSpaceOfTrimmed(rest);
    TrimPrefixOfConcat(AdNumberLabel, id);
  }

  /** Any newline-free text after the date token and a space: the id is
      that text trimmed, less one leading "Anzeigennr.: " when it has one. */
  lemma ParseExtraInfoOfText(token: string, rest: string)
    requires ' ' !in token && '\n' !in token && '\n' !in rest
    ensures ParseExtraInfo(token + " " + rest)
            == (DateOrZero(Parse(token)), TrimPrefix(TrimSpace(rest), AdNumberLabel))
  {
    var text := token + " " + rest;
    assert text == token + [' '] + rest;
    SplitN2OfConcat(token, ' ', rest);
  }

  /** A padded id without the label comes back trimmed and otherwise as it
      is: TrimPrefix removes nothing. */
  lemma ParseExtraInfoOfUnlabelled(token: string, pad: string, id: string)
    requires ' ' !in token && '\n' !in token && '\n' !in id && '\n' !in pad
    requires All(pad, IsSpace) && NoEdge(id, IsSpace) && !HasPrefix(id, AdNumberLabel)
    ensures ParseExtraInfo(token + " " + (id + pad)) == (DateOrZero(Parse(token)), id)
  {
    ParseExtraInfoOfText(token, id + pad);
    TrimSpaceOfPadded(id, pad);
  }

  /** Removing the newlines of the block leaves the date token, a space and
      the labelled id. */
  lemma ExtraInfoWithoutNewlines(token: string, id: string)
    requires '\n' !in token && '\n' !in id
    ensures RemoveAll(token + "\n " + AdNumberLabel + id, '\n') == token + [' '] + (AdNumberLabel + id)
  {
    var rest := AdNumberLabel + id;
    assert token + "\n " + AdNumberLabel + id == token + ['\n', ' '] + rest;
    assert '\n' !in rest by {
      assert '\n' !in AdNumberLabel;
    }
    RemoveAllBetween(token, '\n', ' ', rest);
  }

  // ----------------------------------------------------------------- detail

  /** parseDetail: the trimmed label before the first newline and the trimmed
      value after it. The source indexes the second part without a check, so
      a text without a newline makes it panic: callers must supply one. */
  function ParseDetail(text: string): (r: (string, string))
    requires '\n' in text
    ensures '\n' !in r.0
    ensures NoEdge(r.0, IsSpace) && NoEdge(r.1, IsSpace)
  {
    var splits := SplitN2(text, '\n');
    var key := TrimSpace(splits[0]);
    NotInTrimSpace(splits[0], '\n');
    (key, TrimSpace(splits[1]))
  }

  /** A label and a value, both trimmed, come back apart. */
  lemma ParseDetailOf(key: string, value: string)
    requires '\n' !in key && NoEdge(key, IsSpace) && NoEdge(value, IsSpace)
    ensures ParseDetail(key + "\n" + value) == (key, value)
  {
    assert key + "\n" + value == key + ['\n'] + value;
    SplitN2OfConcat(key, '\n', value);
    TrimSpaceOfTrimmed(key);
    TrimSpaceOfTrimmed(value);
  }

  /** Any text with a newline: the parts before and after its first
      newline, each trimmed. */
  lemma ParseDetailOfText(head: string, tail: string)
    requires '\n' !in head
    ensures ParseDetail(head + "\n" + tail) == (TrimSpace(head), TrimSpace(tail))
  {
    assert head + "\n" + tail == head + ['\n'] + tail;
    SplitN2OfConcat(head, '\n', tail);
  }

  /** White space around the label and the value, and around the newline
      between them, is trimmed away. */
  lemma ParseDetailOfPadded(key: string, pad1: string, pad2: string, value: string)
    requires '\n' !in key && NoEdge(key, IsSpace) && NoEdge(value, IsSpace)
    requires All(pad1, IsSpace) && '\n' !in pad1 && All(pad2, IsSpace)
    ensures ParseDetail(key + pad1 + "\n" + pad2 + value) == (key, value)
  {
    var head, tail := key + pad1, pad2 + value;
    assert key + pad1 + "\n" + pad2 + value == head + "\n" + tail;
    ParseDetailOfText(head, tail);
    TrimSpaceOfPadded(key, pad1);
    TrimFuncOfPadded(pad2, value, [], IsSpace);
    assert pad2 + value + [] == tail;
  }

  // ----------------------------------------------------------------- rating

  const RatingLabel := "Zufriedenheit: "

  /** parseRating: one leading "Zufriedenheit: " removed; any other text is
      returned as it is. */
  function ParseRating(text: string): (r: string)
    ensures HasPrefix(text, RatingLabel) ==> RatingLabel + r == text
    ensures !HasPrefix(text, RatingLabel) ==> r == text
  {
    TrimPrefix(text, RatingLabel)
  }

  lemma ParseRatingOf(rating: string)
    ensures ParseRating(RatingLabel + rating) == rating
  {
    TrimPrefixOfConcat(RatingLabel, rating);
  }

  // ----------------------------------------------------------- active since

  const ActiveLabel := "Aktiv seit "

  /** What parseActiveSince needs to slice without panicking: the text is
      empty, holds the label, or is long enough for the slice from index
      -1 + 11 = 10 that a missing label leads to. */
  predicate ActiveSinceSliceable(text: string) {
    text == "" || Index(text, ActiveLabel) >= 0 || |text| >= |ActiveLabel| - 1
  }

  /** parseActiveSince: the empty text is the zero time without error;
      otherwise the text after the first "Aktiv seit ", up to the first
      newline, is parsed as DD.MM.YYYY and the parse error is returned. */
  function ParseActiveSince(text: string): (r: Result<Date, DateError>)
    requires ActiveSinceSliceable(text)
    ensures text == "" ==> r == Success(ZeroTime)
    ensures text != "" && r.Success? ==> Writable(r.value)
  {
    if text == "" then Success(ZeroTime)
    else
      var index := Index(text, ActiveLabel);
      var rest := text[index + |ActiveLabel|..];
      var splits := Split(rest, '\n');
      Parse(splits[0])
  }

  /** The text after "Aktiv seit ", up to a newline, is what gets parsed:
      a date that does not parse comes back as Parse's error. */
  lemma ParseActiveSinceOfText(v: string, tail: string)
    requires '\n' !in v
    requires tail == [] || tail[0] == '\n'
    ensures ActiveSinceSliceable(ActiveLabel + v + tail)
    ensures ParseActiveSince(ActiveLabel + v + tail) == Parse(v)
  {
    var text := ActiveLabel + v + tail;
    IndexOfPrefix(ActiveLabel, v + tail);
    assert ActiveLabel + (v + tail) == text;
    assert text[|ActiveLabel|..] == v + tail;
    BeforeOfConcat(v, '\n', tail);
  }

  /** Without the label, Index gives -1 and the text from index 10 on, up
      to a newline, is parsed. */
  lemma ParseActiveSinceWithoutLabel(text: string)
    requires Index(text, ActiveLabel) < 0 && |text| >= |ActiveLabel| - 1
    ensures ActiveSinceSliceable(text)
    ensures ParseActiveSince(text) == Parse(Before(text[|ActiveLabel| - 1..], '\n'))
  {
  }

  /** "Aktiv seit " and a date, then nothing or a new line, gives the date. */
  lemma ParseActiveSinceOf(d: Date, tail: string)
    requires Writable(d)
    requires tail == [] || tail[0] == '\n'
    ensures ParseActiveSince(ActiveLabel + Format(d) + tail) == Success(d)
  {
    FormatHasNoNewline(d);
    ParseActiveSinceOfText(Format(d), tail);
    ParseOfFormat(d);
  }

  lemma FormatHasNoNewline(d: Date)
    requires Writable(d)
    ensures '\n' !in Format(d)
  {
    var s := Format(d);
    forall i | 0 <= i < |s| ensures s[i] != '\n' {
      assert s == Pad2(d.day) + "." + Pad2(d.month) + "." + Pad4(d.year);
      if i < 2 { assert s[i] == Pad2(d.day)[i]; }
      else if 3 <= i < 5 { assert s[i] == Pad2(d.month)[i - 3]; }
      else if 6 <= i { assert s[i] == Pad4(d.year)[i - 6]; }
    }
  }
}
