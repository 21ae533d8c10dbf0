/** The address-search dialog: a search on request (Enter or the button), and
    a selection that reports the place and resets and closes the dialog. */
module KakaoAddressModal {
  import opened Wrappers
  import opened KakaoLocal

  /** The dialog asks for at most fifteen places. */
  const PageSize: nat := 15

  datatype ModalState = ModalState(query: string, results: seq<Place>, isLoading: bool)

  const Initial: ModalState := ModalState("", [], false)

  /** The dialog after a search, and the request it sent, if any. */
  datatype SearchStep = SearchStep(state: ModalState, request: Option<KeywordRequest>)

  function Search(s: ModalState, respond: KeywordRequest -> SearchResponse): (r: SearchStep)
    ensures !Searchable(s.query) ==> r.request.None? && r.state == s.(results := [])
    ensures Searchable(s.query) ==>
              && r.request == Some(KeywordRequest(s.query, PageSize))
              && r.state.query == s.query && !r.state.isLoading
              && r.state.results == ResultsOf(respond(r.request.value))
    ensures r.state.results != [] ==>
              r.request.Some? && respond(r.request.value) == SearchOk(Some(r.state.results))
  {
    if !Searchable(s.query) then
      SearchStep(s.(results := []), None)
    else
      var request := KeywordRequest(s.query, PageSize);
      SearchStep(s.(results := ResultsOf(respond(request)), isLoading := false), Some(request))
  }

  /** A failed search, or one without documents, leaves nothing listed. */
  lemma FailedSearchListsNothing(s: ModalState, respond: KeywordRequest -> SearchResponse)
    requires respond(KeywordRequest(s.query, PageSize)) in {SearchFailed, SearchOk(None)}
    ensures Search(s, respond).state.results == []
  {
  }

  /** The dialog after a selection: the callback invocations, the new state,
      and whether it asked to be closed. */
  datatype SelectStep = SelectStep(calls: seq<Selection>, state: ModalState, closed: bool)

  function HandleSelect(s: ModalState, place: Place, lookup: string -> ZipResponse): (r: SelectStep)
    ensures |r.calls| == 1 && r.calls == SelectPlace(place, lookup)
    ensures r.state.query == [] && r.state.results == [] && r.closed
    ensures r.state.isLoading == s.isLoading
  {
    SelectStep(SelectPlace(place, lookup), s.(query := "", results := []), true)
  }

  /** After any selection, reopening the dialog shows a fresh one (loading
      aside). */
  lemma SelectResets(s: ModalState, place: Place, lookup: string -> ZipResponse)
    requires !s.isLoading
    ensures HandleSelect(s, place, lookup).state == Initial
  {
  }
}
