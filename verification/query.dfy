/**
 The search request URL (`queryString`): the phrase with spaces as `+`, a
 fixed page size of 10, the pagination offset in decimal and the API key,
 spliced into a fixed Custom Search template. The key is a parameter here; the
 program looks it up in a parameter store on every call.
 */
module Query {
  import opened Wrappers
  import opened GoInt
  import opened Decimal
  import opened Strings
  import opened Format

  /** Results per page the request asks for (`num=10`). */
  const PageSize: nat := 10

  /**
   The fixed parts of the program's template
   `https://www.googleapis.com/customsearch/v1?q=%s&num=10&start=%d&imgSize=medium&searchType=image&cx=011992137466501229235:-0nok_uw7ly&key=%s`,
   each written as a concatenation of short literals.
   */
  const QueryHead: string := "https://www.googleapis.com" + "/customsearch/v1?q="
  const NumStart: string := "&num=10&start="
  const QueryTail: string :=
    "&imgSize=medium" + "&searchType=image" + "&cx=0119921374" + "66501229235" + ":-0nok_uw7ly" + "&key="
  const QueryBase: string := QueryHead + "%s" + NumStart + "%d" + QueryTail + "%s"

  /** The phrase as it appears in the URL. */
  function QueryPhrase(queryText: string): string {
    ReplaceChar(queryText, ' ', '+')
  }

  /** Everything in a URL before the offset. */
  function StartPrefix(queryText: string): string {
    QueryHead + QueryPhrase(queryText) + NumStart
  }

  /** The fixed parts of the template hold no formatting verb. */
  lemma FixedPartsPlain()
    ensures '%' !in QueryHead && '%' !in NumStart && '%' !in QueryTail
  {
  }

  /** The template's three verbs take the phrase, the offset and the key, in that order. */
  lemma QueryBaseShape(phrase: string, start: int, apiKey: string)
    ensures Matches(QueryBase, [Str(phrase), Int(start), Str(apiKey)])
    ensures Sprintf(QueryBase, [Str(phrase), Int(start), Str(apiKey)])
            == QueryHead + phrase + NumStart + IntToDecimal(start) + QueryTail + apiKey
  {
    FixedPartsPlain();
    SprintfThree(QueryHead, NumStart, QueryTail, "", Str(phrase), Int(start), Str(apiKey));
    assert QueryBase == Template3(QueryHead, NumStart, QueryTail, "", Str(phrase), Int(start), Str(apiKey));
  }

  /** The request URL for the page of results for `queryText` starting at `start`. */
  function QueryString(queryText: string, start: Int64, apiKey: string): string
  {
    StartPrefix(queryText) + IntToDecimal(start) + QueryTail + apiKey
  }

  /** The URL is what the program's `Sprintf` call writes for the formatted phrase, the offset and the key. */
  lemma QueryStringIsSprintf(queryText: string, start: Int64, apiKey: string)
    ensures Matches(QueryBase, [Str(ReplaceChar(queryText, ' ', '+')), Int(start), Str(apiKey)])
    ensures QueryString(queryText, start, apiKey)
            == Sprintf(QueryBase, [Str(ReplaceChar(queryText, ' ', '+')), Int(start), Str(apiKey)])
  {
    QueryBaseShape(ReplaceChar(queryText, ' ', '+'), start, apiKey);
  }

  /** The `num` parameter of the template is the page size. */
  lemma NumIsPageSize()
    ensures NumStart == "&num=" + NatToDecimal(PageSize) + "&start="
  {
    assert NatToDecimal(PageSize) == "10";
  }

  /** The phrase segment of the URL is the phrase with every space turned into `+` and nothing else changed. */
  lemma QueryPhraseSegment(queryText: string, start: Int64, apiKey: string)
    ensures var url := QueryString(queryText, start, apiKey);
            var seg := url[|QueryHead|..|QueryHead| + |queryText|];
            && url[..|QueryHead|] == QueryHead
            && |seg| == |queryText|
            && ' ' !in seg
            && (forall i :: 0 <= i < |queryText| ==> seg[i] == (if queryText[i] == ' ' then '+' else queryText[i]))
  {
    var rest := NumStart + IntToDecimal(start) + QueryTail + apiKey;
    assert QueryString(queryText, start, apiKey) == QueryHead + QueryPhrase(queryText) + rest;
    SliceParts(QueryHead, QueryPhrase(queryText), rest);
    ReplaceCharRemoves(queryText, ' ', '+');
  }

  /** The offset a URL for `queryText` and `apiKey` asks for, or `None` if `url` is not one. */
  function ParseStart(queryText: string, apiKey: string, url: string): Option<Int64> {
    match Between(url, StartPrefix(queryText), QueryTail + apiKey)
    case None => None
    case Some(digits) =>
      match ParseInt(digits)
      case Some(start) => if MinInt64 <= start <= MaxInt64 then Some(start) else None
      case None => None
  }

  /** The offset is written in decimal right after `&start=` and can be read back. */
  lemma StartRoundTrip(queryText: string, start: Int64, apiKey: string)
    ensures ParseStart(queryText, apiKey, QueryString(queryText, start, apiKey)) == Some(start)
  {
    assert QueryString(queryText, start, apiKey)
        == StartPrefix(queryText) + IntToDecimal(start) + (QueryTail + apiKey);
    BetweenRoundTrip(StartPrefix(queryText), IntToDecimal(start), QueryTail + apiKey);
    IntRoundTrip(start);
  }

  /** Every URL the parser accepts is exactly the URL for the offset it returns. */
  lemma ParseStartSound(queryText: string, apiKey: string, url: string, start: Int64)
    requires ParseStart(queryText, apiKey, url) == Some(start)
    ensures QueryString(queryText, start, apiKey) == url
  {
    var digits := Between(url, StartPrefix(queryText), QueryTail + apiKey).value;
    ParseIntCanonical(digits, start);
  }

  /** Different offsets give different URLs, so no two pages are requested alike. */
  lemma QueryStringInjective(queryText: string, apiKey: string, a: Int64, b: Int64)
    requires QueryString(queryText, a, apiKey) == QueryString(queryText, b, apiKey)
    ensures a == b
  {
    StartRoundTrip(queryText, a, apiKey);
    StartRoundTrip(queryText, b, apiKey);
  }
}
