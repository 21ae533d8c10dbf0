/** The inline address autocomplete: a search on the (debounced) query, a
    result list shown only when there is something to show, and a selection
    that reports the place, hides the list and (through the debounced search
    on the cleared query) empties it. */
module KakaoAddressSearch {
  import opened Wrappers
  import opened KakaoLocal

  /** The autocomplete asks for at most ten places. */
  const PageSize: nat := 10

  datatype SearchState = SearchState(query: string, results: seq<Place>, isLoading: bool, showResults: bool)

  const Initial: SearchState := SearchState("", [], false, false)

  /** The list is on screen only when it is switched on and non-empty. */
  predicate ListVisible(s: SearchState) {
    s.showResults && |s.results| > 0
  }

  datatype SearchStep = SearchStep(state: SearchState, request: Option<KeywordRequest>)

  function Search(s: SearchState, keyword: string, respond: KeywordRequest -> SearchResponse): (r: SearchStep)
    ensures !Searchable(keyword) ==> r.request.None? && r.state == s.(results := [])
    ensures Searchable(keyword) ==>
              && r.request == Some(KeywordRequest(keyword, PageSize))
              && !r.state.isLoading && r.state.query == s.query
              && r.state.results == ResultsOf(respond(r.request.value))
    ensures Searchable(keyword) && respond(KeywordRequest(keyword, PageSize)).SearchOk? ==> r.state.showResults
    ensures respond(KeywordRequest(keyword, PageSize)).SearchFailed? ==>
              r.state.results == [] && r.state.showResults == s.showResults
  {
    if !Searchable(keyword) then
      SearchStep(s.(results := []), None)
    else
      var request := KeywordRequest(keyword, PageSize);
      match respond(request)
      case SearchOk(_) => SearchStep(s.(results := ResultsOf(respond(request)), showResults := true, isLoading := false), Some(request))
      case SearchFailed => SearchStep(s.(results := [], isLoading := false), Some(request))
  }

  /** A search that did not succeed with documents never puts a list on
      screen, whatever was shown before. */
  lemma ListOnlyFromResults(s: SearchState, keyword: string, respond: KeywordRequest -> SearchResponse)
    ensures ListVisible(Search(s, keyword, respond).state) ==>
              Searchable(keyword) && respond(KeywordRequest(keyword, PageSize)).SearchOk?
              && respond(KeywordRequest(keyword, PageSize)).documents.Some?
  {
  }

  /** Focusing the input re-opens the list if there is a query. */
  function Focus(s: SearchState): (t: SearchState)
    ensures s.query != [] ==> t.showResults
    ensures s.query == [] ==> t == s
    ensures t.query == s.query && t.results == s.results
  {
    if s.query != [] then s.(showResults := true) else s
  }

  datatype SelectStep = SelectStep(calls: seq<Selection>, state: SearchState)

  /** Choosing a place reports it once, clears the query and hides the list.
      Clearing a non-empty query fires the debounced search once more, on the
      empty query, which empties the results; an already empty query does not
      change, so nothing fires and the results stay. */
  function HandleSelect(s: SearchState, place: Place, lookup: string -> ZipResponse): (r: SelectStep)
    ensures r.calls == SelectPlace(place, lookup) && |r.calls| == 1
    ensures r.state.query == [] && !r.state.showResults && r.state.isLoading == s.isLoading
    ensures s.query != [] ==> r.state.results == []
    ensures s.query == [] ==> r.state.results == s.results
    ensures !ListVisible(r.state)
  {
    var cleared := s.(query := "", showResults := false);
    var settled := if s.query != [] then cleared.(results := []) else cleared;
    SelectStep(SelectPlace(place, lookup), settled)
  }

  /** What a selection leaves behind is what the debounced search on the
      cleared query produces: no request is sent, whatever the search service
      would have answered. */
  lemma SelectSettlesLikeEmptySearch(s: SearchState, place: Place, lookup: string -> ZipResponse,
                                     respond: KeywordRequest -> SearchResponse)
    requires s.query != []
    ensures var cleared := s.(query := "", showResults := false);
            var search := Search(cleared, cleared.query, respond);
            search.request.None? && HandleSelect(s, place, lookup).state == search.state
  {
  }
}
