/** The records the scraper returns: a full ad with its seller (ad.go) and
    the summary items of a result list (adlist.go). Go's references to these
    structs are plain values here: every record is built once and then
    handed to the caller. */
module Ad {
  import opened GoTime

  datatype Seller = Seller(
    name: string,
    activeSince: Date,
    friendliness: string,
    rating: string)

  datatype AdItem = AdItem(
    id: string,
    listedSince: Date,
    title: string,
    price: int,
    priceNegotiable: bool,
    location: string,
    zipCode: string,
    link: string,
    description: string,
    details: map<string, string>,
    extras: seq<string>,
    seller: Seller)

  datatype AdListItem = AdListItem(
    id: string,
    title: string,
    price: int,
    priceNegotiable: bool,
    location: string,
    zipCode: string,
    link: string)

  datatype AdListResponse = AdListResponse(items: seq<AdListItem>)
}
