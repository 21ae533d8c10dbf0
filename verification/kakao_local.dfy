/** What the two address-search components share: the keyword search's
    places, the choice of address for a place, and the postal-code lookup
    with its fallback chain. The Kakao local-search service's answers are
    inputs. */
module KakaoLocal {
  import opened Wrappers
  import opened JsText

  datatype Place = Place(placeName: string, addressName: string, roadAddressName: string)

  /** The keyword search's answer: a failure (a non-ok status or a thrown
      error) or a body whose document list may be missing. */
  datatype SearchResponse = SearchFailed | SearchOk(documents: Option<seq<Place>>)

  datatype KeywordRequest = KeywordRequest(query: string, size: nat)

  /** Searches run only for queries of at least two characters. */
  const MinQueryLength: nat := 2

  predicate Searchable(query: string) {
    |query| >= MinQueryLength
  }

  /** The places a search answer puts on screen. */
  function ResultsOf(response: SearchResponse): (places: seq<Place>)
    ensures places != [] ==> response.SearchOk? && response.documents == Some(places)
    ensures response.SearchOk? && response.documents.Some? ==> places == response.documents.value
  {
    match response
    case SearchOk(Some(documents)) => documents
    case _ => []
  }

  /** The address used for a place: its road address, or its lot address
      when the road address is empty. */
  function ChooseAddress(place: Place): (address: string)
    ensures place.roadAddressName != [] ==> address == place.roadAddressName
    ensures place.roadAddressName == [] ==> address == place.addressName
  {
    Or(place.roadAddressName, place.addressName)
  }

  datatype RoadAddress = RoadAddress(zoneNo: Option<string>)
  datatype LotAddress = LotAddress(zipCode: Option<string>)
  datatype AddressDocument = AddressDocument(roadAddress: Option<RoadAddress>, address: Option<LotAddress>)

  /** The address lookup's answer: a non-ok status or a thrown error, or a
      body whose document list may be missing. */
  datatype ZipResponse = ZipFailed | ZipOk(documents: Option<seq<AddressDocument>>)

  /** The first document's road-address postal code if it is non-empty, else
      its lot-address postal code if non-empty, else the empty string. */
  function ZipOf(response: ZipResponse): (zip: string)
    ensures zip != [] ==> response.ZipOk? && response.documents.Some? && response.documents.value != []
    ensures zip != [] ==>
              var first := response.documents.value[0];
              || (first.roadAddress.Some? && first.roadAddress.value.zoneNo == Some(zip))
              || (first.address.Some? && first.address.value.zipCode == Some(zip))
  {
    match response
    case ZipOk(Some(documents)) =>
      if documents == [] then ""
      else
        var first := documents[0];
        var zone := if first.roadAddress.Some? then first.roadAddress.value.zoneNo else None;
        var lot := if first.address.Some? then first.address.value.zipCode else None;
        OrNull(zone, OrNull(lot, ""))
    case _ => ""
  }

  /** The road-address code wins whenever it is present and non-empty. */
  lemma RoadZoneWins(documents: seq<AddressDocument>, zone: string)
    requires documents != [] && zone != []
    requires documents[0].roadAddress == Some(RoadAddress(Some(zone)))
    ensures ZipOf(ZipOk(Some(documents))) == zone
  {
  }

  /** Otherwise a non-empty lot-address code is used. */
  lemma LotZipWhenNoZone(documents: seq<AddressDocument>, zip: string)
    requires documents != [] && zip != []
    requires documents[0].roadAddress.None? || documents[0].roadAddress.value.zoneNo in {None, Some("")}
    requires documents[0].address == Some(LotAddress(Some(zip)))
    ensures ZipOf(ZipOk(Some(documents))) == zip
  {
  }

  /** What a component hands to its `onSelect` callback. */
  datatype Selection = Selection(address: string, zipCode: string)

  /** Choosing a place: the chosen address is looked up for its postal code
      and the callback fires once with the pair, whatever the lookup did.
      The result is the list of callback invocations. */
  function SelectPlace(place: Place, lookup: string -> ZipResponse): (calls: seq<Selection>)
    ensures |calls| == 1
    ensures calls[0].address == ChooseAddress(place)
    ensures calls[0].zipCode == ZipOf(lookup(ChooseAddress(place)))
    ensures lookup(ChooseAddress(place)).ZipFailed? ==> calls[0].zipCode == []
  {
    var address := ChooseAddress(place);
    [Selection(address, ZipOf(lookup(address)))]
  }
}
