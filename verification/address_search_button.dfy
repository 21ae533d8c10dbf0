/** The postcode-popup button: load the popup's script, open it, and report
    the address the user completes. The popup is the outside world; its
    outcome is an input. */
module AddressSearchButton {
  import opened Wrappers
  import opened JsText
  import opened KakaoLocal

  datatype PostcodeData = PostcodeData(roadAddress: string, jibunAddress: string, zonecode: string)

  /** How a click ends: the script failed to load, the user completed the
      popup, or the popup was closed without a choice. */
  datatype PopupOutcome = ScriptFailed | Completed(data: PostcodeData) | Dismissed

  const LoadFailedAlert: string := "주소 검색 기능을 불러오는데 실패했습니다."

  datatype ClickResult = ClickResult(calls: seq<Selection>, alert: Option<string>)

  function HandleClick(outcome: PopupOutcome): (r: ClickResult)
    ensures r.alert.Some? <==> outcome.ScriptFailed?
    ensures r.alert.Some? ==> r.alert.value == LoadFailedAlert
    ensures r.calls != [] <==> outcome.Completed?
    ensures outcome.Completed? ==>
              && |r.calls| == 1
              && r.calls[0].zipCode == outcome.data.zonecode
              && (outcome.data.roadAddress != [] ==> r.calls[0].address == outcome.data.roadAddress)
              && (outcome.data.roadAddress == [] ==> r.calls[0].address == outcome.data.jibunAddress)
  {
    match outcome
    case ScriptFailed => ClickResult([], Some(LoadFailedAlert))
    case Completed(data) => ClickResult([Selection(Or(data.roadAddress, data.jibunAddress), data.zonecode)], None)
    case Dismissed => ClickResult([], None)
  }

  /** The button picks the address by the same rule as the keyword pickers:
      a place with the popup's road and lot addresses, chosen through either
      autocomplete, reports the same address. Only the postal code differs in
      origin: the popup supplies it, the pickers look it up. */
  lemma ButtonChoosesLikePickers(data: PostcodeData, placeName: string, lookup: string -> ZipResponse)
    ensures var place := Place(placeName, data.jibunAddress, data.roadAddress);
            && HandleClick(Completed(data)).calls[0].address == ChooseAddress(place)
            && HandleClick(Completed(data)).calls[0].address == SelectPlace(place, lookup)[0].address
            && HandleClick(Completed(data)).calls[0].zipCode == data.zonecode
  {
  }
}
