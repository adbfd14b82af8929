/**
 * The web-search helpers: a fixed list of four results built around the
 * query, their Markdown rendering, and the report wrapping it. The awaited
 * search is an input to the report, `None` standing for a rejected search.
 */
module WebSearch {
  import opened Wrappers
  import opened Text

  datatype SearchResult = SearchResult(title: string, url: string, snippet: string)

  const NoResults: string := "No relevant information found on the web."
  const SearchError: string := "An error occurred while searching the web. Please try again."
  const Note: string := "*Note: These results were retrieved from the web and may not be completely accurate or up-to-date.*"

  const LatestTitle: string := " - Latest Information (2025)"
  const LatestLead: string := "Find the most up-to-date information about "
  const LatestTail: string := ". Our comprehensive guide covers everything you need to know, including recent developments and expert insights."
  const GuideTitle: string := "Complete Guide to "
  const GuideLead: string := "Learn everything about "
  const GuideTail: string := " with our detailed guide. Includes practical examples, best practices, and expert recommendations for better understanding."
  const AnalysisTitle: string := " - Expert Analysis"
  const AnalysisLead: string := "Professional analysis and insights about "
  const AnalysisTail: string := ". Discover key concepts, common challenges, and innovative solutions from industry experts."
  const PracticalTitleLead: string := "Understanding "
  const PracticalTitleTail: string := " - Practical Guide"
  const PracticalLead: string := "A practical approach to understanding "
  const PracticalTail: string := ". This guide breaks down complex topics into easy-to-understand explanations with real-world examples."

  /** `searchWeb`: four results with fixed addresses. */
  function SearchWeb(query: string): (r: seq<SearchResult>)
    ensures |r| == 4
    ensures r[0].url == "https://example.com/latest-info" && r[1].url == "https://example.com/complete-guide"
    ensures r[2].url == "https://example.com/expert-analysis" && r[3].url == "https://example.com/practical-guide"
  {
    [ SearchResult([] + query + LatestTitle, "https://example.com/latest-info", LatestLead + query + LatestTail),
      SearchResult(GuideTitle + query + [], "https://example.com/complete-guide", GuideLead + query + GuideTail),
      SearchResult([] + query + AnalysisTitle, "https://example.com/expert-analysis", AnalysisLead + query + AnalysisTail),
      SearchResult(PracticalTitleLead + query + PracticalTitleTail, "https://example.com/practical-guide", PracticalLead + query + PracticalTail) ]
  }

  /** Every result names the query in its title and in its snippet. */
  lemma SearchWebMentionsQuery(query: string)
    ensures forall i :: 0 <= i < |SearchWeb(query)| ==>
      Contains(SearchWeb(query)[i].title, query) && Contains(SearchWeb(query)[i].snippet, query)
  {
    ContainsMiddle([], query, LatestTitle);
    ContainsMiddle(LatestLead, query, LatestTail);
    ContainsMiddle(GuideTitle, query, []);
    ContainsMiddle(GuideLead, query, GuideTail);
    ContainsMiddle([], query, AnalysisTitle);
    ContainsMiddle(AnalysisLead, query, AnalysisTail);
    ContainsMiddle(PracticalTitleLead, query, PracticalTitleTail);
    ContainsMiddle(PracticalLead, query, PracticalTail);
  }

  /**
   * One result as a Markdown heading link followed by its snippet: the title,
   * the address and the snippet can be read back between the fixed pieces.
   */
  function Entry(res: SearchResult): (r: string)
    ensures StartsWith(r, "### [")
    ensures var t := 5 + |res.title|;
      var u := t + 2 + |res.url|;
      var v := u + 2 + |res.snippet|;
      && |r| == v + 1
      && r[5..t] == res.title && r[t..t + 2] == "]("
      && r[t + 2..u] == res.url && r[u..u + 2] == ")\n"
      && r[u + 2..v] == res.snippet && r[v..] == "\n"
  {
    "### [" + res.title + "](" + res.url + ")\n" + res.snippet + "\n"
  }

  function Entries(results: seq<SearchResult>): (r: seq<string>)
    ensures |r| == |results| && forall i :: 0 <= i < |results| ==> r[i] == Entry(results[i])
  {
    seq(|results|, i requires 0 <= i < |results| => Entry(results[i]))
  }

  /**
   * `formatSearchResults`: the fixed sentence for no results; otherwise the
   * entries in order, separated by blank lines, starting with the first one.
   */
  function FormatSearchResults(results: seq<SearchResult>): (r: string)
    ensures results == [] ==> r == NoResults
    ensures |results| == 1 ==> r == Entry(results[0])
    ensures results != [] ==> StartsWith(r, Entry(results[0])) && r != NoResults
  {
    if |results| == 0 then NoResults
    else
      var es := Entries(results);
      JoinStartsWithFirst("\n", es);
      var j := Join("\n", es);
      assert j[0] == es[0][0] == '#';
      j
  }

  /** Rendering one more result appends a separator and its entry. */
  lemma FormatSnoc(results: seq<SearchResult>, res: SearchResult)
    requires results != []
    ensures FormatSearchResults(results + [res]) == FormatSearchResults(results) + "\n" + Entry(res)
  {
    assert Entries(results + [res]) == Entries(results) + [Entry(res)];
    JoinSnoc("\n", Entries(results), Entry(res));
  }

  /** The report's first line, naming the query. */
  function Header(query: string): string {
    HeaderLead + query + HeaderTail
  }

  const HeaderLead: string := "## Web Search Results for: \""
  const HeaderTail: string := "\"\n\n"

  /**
   * `performWebSearch`: the header, the rendered results and the note; the
   * fixed error sentence when the search threw.
   */
  function PerformWebSearch(query: string, found: Option<seq<SearchResult>>): (r: string)
    ensures found.None? ==> r == SearchError
    ensures found.Some? ==> r == Header(query) + FormatSearchResults(found.value) + "\n\n" + Note
  {
    match found
    case None => SearchError
    case Some(results) => Header(query) + FormatSearchResults(results) + "\n\n" + Note
  }

  /** A report of one or more results opens with the header and the first entry. */
  lemma ReportStarts(query: string, results: seq<SearchResult>)
    requires results != []
    ensures StartsWith(PerformWebSearch(query, Some(results)), Header(query) + Entry(results[0]))
  {
    var e := Entry(results[0]);
    var f := FormatSearchResults(results);
    StartsWithExtended(f, e, "\n\n" + Note);
    StartsWithPrefixed(Header(query), f + ("\n\n" + Note), e);
    assert Header(query) + f + "\n\n" + Note == Header(query) + (f + ("\n\n" + Note));
  }

  /** A report names the query. */
  lemma ReportNamesQuery(query: string, found: seq<SearchResult>)
    ensures Contains(PerformWebSearch(query, Some(found)), query)
  {
    var h := Header(query);
    var f := FormatSearchResults(found);
    ContainsMiddle(HeaderLead, query, HeaderTail);
    ContainsExtended(h, query, f);
    ContainsExtended(h + f, query, "\n\n");
    ContainsExtended(h + f + "\n\n", query, Note);
  }

  /** The report of the fixed search of this module. */
  lemma ReportOfFixedSearch(query: string)
    ensures var r := PerformWebSearch(query, Some(SearchWeb(query)));
      StartsWith(r, Header(query) + Entry(SearchWeb(query)[0])) && Contains(r, query)
  {
    ReportStarts(query, SearchWeb(query));
    ReportNamesQuery(query, SearchWeb(query));
  }
}
