/**
 * The record one crawl produces (models/result.go).
 */
module Models {

  /**
   * One field per field of the Go struct. `statusCode` is 0 and `status` is
   * "" when no response arrived; `headings` maps a heading tag to its count.
   */
  datatype CrawlResult = CrawlResult(
    url: string,
    statusCode: int,
    status: string,
    title: string,
    htmlVersion: string,
    docType: string,
    headings: map<string, int>,
    hasLoginForm: bool,
    internalLinks: int,
    externalLinks: int,
    inaccessibleLinks: int,
    error: string,
    success: bool)

  /** Nothing was extracted from the page: every field the extractors fill is at its zero value. */
  predicate NoPageData(r: CrawlResult) {
    && r.title == "" && r.htmlVersion == "" && r.docType == ""
    && r.headings == map[] && !r.hasLoginForm
    && r.internalLinks == 0 && r.externalLinks == 0 && r.inaccessibleLinks == 0
  }

  /**
   * The record as first built, a Go composite literal that sets only the
   * URL: no response recorded, no error, no page data, not a success.
   */
  function NewResult(url: string): (r: CrawlResult)
    ensures r.url == url
    ensures r.statusCode == 0 && r.status == "" && r.error == "" && !r.success
    ensures NoPageData(r)
  {
    CrawlResult(url, 0, "", "", "", "", map[], false, 0, 0, 0, "", false)
  }
}
