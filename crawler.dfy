/**
 * Assembly of one crawl result (crawler/crawler.go, CrawlURL). The HTTP
 * exchange and the HTML parser are inputs: `fetch` gives what happened to
 * the request for a URL, `parse` what the parser made of a body. The
 * extractors whose code is not part of this model are inputs too.
 */
module Crawler {
  import opened TextUtil
  import opened Validator
  import opened Html
  import opened Parser
  import opened Models

  /** What became of the GET request for a URL. */
  datatype Fetch =
    | RequestFailed(reason: string)     // the request could not be built
    | NetworkFailed(reason: string)     // sending it failed (a timeout included)
    | Responded(statusCode: int, status: string, body: string)

  /** What the HTML parser made of a response body. */
  datatype ParseOutcome = ParseFailed(reason: string) | Parsed(doc: Node)

  /** The other extractors, as the functions they are; their code is not part of this model. */
  datatype Extractors = Extractors(
    htmlVersion: Node -> (string, string),
    headings: Node -> map<string, int>,
    loginForm: Node -> bool,
    links: (Node, string) -> (int, int, int))

  const StatusOK: int := 200
  const NoTitleFound: string := "No title found"
  const RequestErrorPrefix: string := "Failed to create request: "
  const NetworkErrorPrefix: string := "Network error: "
  const ParseErrorPrefix: string := "Failed to parse HTML: "

  /**
   * What every crawl result satisfies: the URL carries a scheme; a success
   * has status 200, no error and a non-empty trimmed title; a failure has a
   * non-empty error and no extracted data.
   */
  predicate WellFormed(r: CrawlResult) {
    && HasScheme(r.url) && IsTrimmed(r.url)
    && (r.success ==> r.statusCode == StatusOK && r.error == "" && r.title != "" && IsTrimmed(r.title))
    && (!r.success ==> r.error != "" && NoPageData(r))
  }

  /** The placeholder title is itself trimmed and non-empty, like every extracted title. */
  lemma NoTitleFoundIsTrimmed()
    ensures NoTitleFound != "" && IsTrimmed(NoTitleFound)
  {
    assert NoTitleFound[0] == 'N';
    assert NoTitleFound[|NoTitleFound| - 1] == 'd';
  }

  /**
   * CrawlURL: normalise the URL and record it; a request or network failure
   * ends the crawl with a prefixed message and no status; once a response
   * arrives its code and status text are recorded; a code other than 200
   * ends the crawl with the table's description and the body unparsed; a
   * parse failure ends it with a prefixed message; otherwise the title (or
   * "No title found"), version, doctype, headings, login-form flag and the
   * link counts (against the normalised URL) are filled in and the crawl
   * succeeds. The URL is not validated here.
   */
  method CrawlURL(url: string, fetch: string -> Fetch, parse: string -> ParseOutcome, extractors: Extractors)
    returns (result: CrawlResult)
    ensures result.url == NormalizeURL(url)
    ensures WellFormed(result)
    ensures result.success <==>
      fetch(NormalizeURL(url)).Responded? && fetch(NormalizeURL(url)).statusCode == StatusOK &&
      parse(fetch(NormalizeURL(url)).body).Parsed?
    ensures fetch(NormalizeURL(url)).RequestFailed? ==>
      result == NewResult(NormalizeURL(url)).(error := RequestErrorPrefix + fetch(NormalizeURL(url)).reason)
    ensures fetch(NormalizeURL(url)).NetworkFailed? ==>
      result == NewResult(NormalizeURL(url)).(error := NetworkErrorPrefix + fetch(NormalizeURL(url)).reason)
    ensures fetch(NormalizeURL(url)).Responded? ==>
      result.statusCode == fetch(NormalizeURL(url)).statusCode && result.status == fetch(NormalizeURL(url)).status
    ensures fetch(NormalizeURL(url)).Responded? && fetch(NormalizeURL(url)).statusCode != StatusOK ==>
      result == NewResult(NormalizeURL(url)).(statusCode := fetch(NormalizeURL(url)).statusCode,
                                              status := fetch(NormalizeURL(url)).status,
                                              error := StatusCodeDescription(fetch(NormalizeURL(url)).statusCode))
    ensures fetch(NormalizeURL(url)).Responded? && fetch(NormalizeURL(url)).statusCode == StatusOK &&
            parse(fetch(NormalizeURL(url)).body).ParseFailed? ==>
      result == NewResult(NormalizeURL(url)).(statusCode := StatusOK,
                                              status := fetch(NormalizeURL(url)).status,
                                              error := ParseErrorPrefix + parse(fetch(NormalizeURL(url)).body).reason)
    ensures result.success ==>
      var doc := parse(fetch(NormalizeURL(url)).body).doc;
      && fetch(NormalizeURL(url)).Responded?
      && parse(fetch(NormalizeURL(url)).body).Parsed?
      && result.title == (if ExtractTitle(doc) == "" then NoTitleFound else ExtractTitle(doc))
      && (result.htmlVersion, result.docType) == extractors.htmlVersion(doc)
      && result.headings == extractors.headings(doc)
      && result.hasLoginForm == extractors.loginForm(doc)
      && (result.internalLinks, result.externalLinks, result.inaccessibleLinks) == extractors.links(doc, NormalizeURL(url))
  {
    var normalizedURL := NormalizeURL(url);
    result := NewResult(normalizedURL);

    var response := fetch(normalizedURL);
    if response.RequestFailed? {
      result := result.(error := RequestErrorPrefix + response.reason);
      result := result.(success := false);
      return;
    }
    if response.NetworkFailed? {
      result := result.(error := NetworkErrorPrefix + response.reason);
      result := result.(success := false);
      return;
    }

    result := result.(statusCode := response.statusCode);
    result := result.(status := response.status);

    if response.statusCode != StatusOK {
      result := result.(error := StatusCodeDescription(response.statusCode));
      result := result.(success := false);
      return;
    }

    var parsed := parse(response.body);
    if parsed.ParseFailed? {
      result := result.(error := ParseErrorPrefix + parsed.reason);
      result := result.(success := false);
      return;
    }
    var doc := parsed.doc;

    var title := ExtractTitle(doc);
    if title == "" {
      NoTitleFoundIsTrimmed();
      result := result.(title := NoTitleFound);
    } else {
      result := result.(title := title);
    }

    var (version, docType) := extractors.htmlVersion(doc);
    result := result.(htmlVersion := version, docType := docType);

    result := result.(headings := extractors.headings(doc));

    result := result.(hasLoginForm := extractors.loginForm(doc));

    var (internal, external, inaccessible) := extractors.links(doc, normalizedURL);
    result := result.(internalLinks := internal, externalLinks := external, inaccessibleLinks := inaccessible);

    result := result.(success := true);
  }
}
