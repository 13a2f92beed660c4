/** Choosing the company name out of a symbol-search response. The request
    and the JSON decoding are outside the model: a response is its status
    code and its optional "bestMatches" list. */
module CompanyLookup {
  import opened Wrappers

  /** One candidate of the search; only its "2. name" field is read. */
  datatype SearchMatch = SearchMatch(name: string)

  /** `bestMatches` is `None` when the decoded body has no such key. */
  datatype SearchResponse = SearchResponse(statusCode: int, bestMatches: Option<seq<SearchMatch>>)

  const HttpOk: int := 200

  /** The matches the lookup sees: an absent list reads as the empty list. */
  function Matches(resp: SearchResponse): seq<SearchMatch> {
    match resp.bestMatches
    case None => []
    case Some(ms) => ms
  }

  /** The first match's name, or `None` for any status other than 200 or
      when there is no match. */
  function CompanyName(resp: SearchResponse): (r: Option<string>)
    ensures r.Some? <==> resp.statusCode == HttpOk && resp.bestMatches.Some? && |resp.bestMatches.value| > 0
    ensures r.Some? ==> r.value == resp.bestMatches.value[0].name
  {
    if resp.statusCode == HttpOk then
      var matches := Matches(resp);
      if |matches| > 0 then Some(matches[0].name) else None
    else None
  }

  /** Only the status and the first match decide the outcome: the rest of
      the ranked list is never read. */
  lemma OnlyFirstMatchCounts(a: SearchResponse, b: SearchResponse)
    requires a.statusCode == b.statusCode
    requires |Matches(a)| > 0 && |Matches(b)| > 0
    requires Matches(a)[0] == Matches(b)[0]
    ensures CompanyName(a) == CompanyName(b)
  {
  }

  /** A response without the list behaves like one with an empty list. */
  lemma AbsentMatchesLikeEmpty(status: int)
    ensures CompanyName(SearchResponse(status, None)) == CompanyName(SearchResponse(status, Some([])))
    ensures CompanyName(SearchResponse(status, None)) == None
  {
  }
}
