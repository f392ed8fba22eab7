# go-webcrawler: the per-URL analysis pipeline, modelled in Dafny

go-webcrawler takes one user-supplied URL, fetches the page and summarises it:
its title, HTML version and doctype, heading counts, whether it has a login
form, and how many of its links are internal, external or inaccessible. This
project models the part of that pipeline whose logic is visible in the
repository's code. It also proves what that part promises.

- **URL normalisation** (`crawler/validator.go`, module `Validator`).
  `NormalizeURL` trims whitespace and prepends `https://` unless the trimmed
  text already starts with `http://` or `https://`. `StatusCodeDescription` is
  the table of messages for non-200 responses.
- **Title extraction** (`crawler/parser.go`, module `Parser`). `ExtractTitle`
  walks the document tree depth-first in pre-order. At a `title` element
  whose first child is a text node, it answers with that text, trimmed. At
  any other node it returns the first non-empty answer among the node's
  children.
- **Result assembly** (`crawler/crawler.go`, method `Crawler.CrawlURL`). It
  builds the `CrawlResult` record (`models/result.go`, module `Models`) field
  by field and returns early at each failure. Three things are inputs to the
  method rather than code: the HTTP exchange (`fetch`, applied to the
  normalised URL), the HTML parser (`parse`, applied to the body), and the
  four extractors whose code is not in this model (`Extractors`).
- Go's `strings.TrimSpace` and `unicode.IsSpace` are modelled in module
  `TextUtil`. The document tree is modelled in module `Html`: a node has a
  kind, its data and its ordered children, and a node's first child is
  `children[0]`.

Behaviours of the code that a reader may not expect, all of them modelled as written:

- `CrawlURL` does not validate its input. Validation happens in the web
  handler (`handlers/web.go`), which is not part of this model. An input that
  is not a URL fails through the request or network branch.
- A `title` element whose first child is not a text node does not end the
  search. The search goes on into that element's children.
- A `title` element whose text trims to `""` ends the search of its own
  subtree, but not the search of its siblings.
- Every code of 500 or more that is not 500 itself gets the server-error
  message, including codes of 600 and above. Only codes below 400 get
  "Unexpected status code".

## Model

| member | source | states |
|---|---|---|
| `TextUtil.IsSpace` | crawler/validator.go:16 | Go's `unicode.IsSpace`, which `strings.TrimSpace` uses here and at crawler/parser.go:12. Among the Latin-1 characters, exactly tab, line feed, vertical tab, form feed, carriage return, space, U+0085 and U+00A0 are whitespace. No whitespace character lies above U+3000. |
| `TextUtil.TrimSpace` | crawler/validator.go:16 | The result has no whitespace at either end. It is a contiguous slice of the input, with only whitespace before and after it. |
| `TextUtil.TrimSpaceUnique` | crawler/validator.go:16 | Any split of the input into whitespace, a trimmed core and whitespace makes the trim return exactly that core. |
| `TextUtil.TrimSpaceOfTrimmed` | crawler/validator.go:16 | A text with no whitespace at either end is its own trim. |
| `TextUtil.TrimSpaceOfBlank` | crawler/parser.go:12 | A text made only of whitespace trims to `""`. |
| `TextUtil.TrimSpaceIdempotent` | crawler/validator.go:16 | Trimming twice gives the same result as trimming once. |
| `Validator.HasScheme` | crawler/validator.go:17 | The two case-sensitive prefix tests together hold exactly when the text starts with `http` followed by `://` or by `s://`. |
| `Validator.NormalizeURL` | crawler/validator.go:15-21 | The result always starts with `http://` or `https://` and is trimmed. It ends with the trimmed input verbatim, case kept. It equals the trimmed input exactly when that input already had a scheme. It is at most 8 characters longer than the trimmed input. |
| `Validator.NormalizeByCase` | crawler/validator.go:16-20 | A trimmed input that has a scheme is returned unchanged. Any other input becomes exactly `"https://" + trim(input)`. |
| `Validator.NormalizeIgnoresPadding` | crawler/validator.go:16 | Whitespace added around a trimmed URL does not change what it normalises to. |
| `Validator.NormalizeIdempotent` | crawler/validator.go:15-21 | Normalising a normalised URL changes nothing. |
| `Validator.NormalizeIsCaseSensitive` | crawler/validator.go:17 | A trimmed input whose first character is not a lower-case `h` is never recognised as having a scheme, so `HTTP://x` gets `https://` prepended. |
| `Validator.NormalizeExampleHttp` | crawler/validator_test.go:39 | `http://doruk.com` is returned unchanged. |
| `Validator.NormalizeExampleHttps` | crawler/validator_test.go:40 | `https://doruk.com` is returned unchanged. |
| `Validator.NormalizeExampleBare` | crawler/validator_test.go:41 | `doruk.com` becomes `https://doruk.com`. |
| `Validator.NormalizeExampleSpaces` | crawler/validator_test.go:42 | `  doruk.com  ` becomes `https://doruk.com`. |
| `Validator.NormalizeExampleMixedCase` | crawler/validator_test.go:43 | `Doruk.COM` becomes `https://Doruk.COM`. |
| `Validator.NormalizeExampleUpperScheme` | crawler/validator.go:17 | `HTTP://doruk.com` is not recognised as having a scheme and becomes `https://HTTP://doruk.com`. |
| `Validator.StatusCodeDescription` | crawler/validator.go:23-43 | The message is never empty. Each of 400, 401, 403, 404 and 500 has its own message, and each of those messages is returned for that code only. The client-error message is returned exactly for the other codes in [400, 500). The server-error message is returned exactly for codes above 500. The "unexpected" message is returned exactly for codes below 400. |
| `Validator.StatusCodeDescriptionExamples` | crawler/validator_test.go:62-69 | The eight table cases of the unit test, 200 included. |
| `Parser.IsTitleWithText` | crawler/parser.go:10-11 | A node counts as a title only if its tag is `title` and it has a first child. That first child is never itself such a title. The kind and tag are checked; the namespace is not. |
| `Parser.TitleText` | crawler/parser.go:12 | The text a title offers has no whitespace at either end and is no longer than its first child's text. It is a contiguous slice of that text, with only whitespace before and after it. |
| `Parser.ExtractTitle` | crawler/parser.go:9-23 | The answer never starts or ends with whitespace. |
| `Parser.FirstTitle` | crawler/parser.go:16-22 | The sibling loop's answer never starts or ends with whitespace. |
| `Parser.FirstNonEmptySpec` | crawler/parser.go:16-19 | The reference search returns `""` exactly when every entry is empty. Otherwise it returns the earliest non-empty entry. |
| `Parser.ExtractTitleIsFirstCandidate` | crawler/parser.go:9-23 | The answer equals the first non-empty text among the title texts that the pre-order walk inspects. A title element with a text first child ends the descent below it. |
| `Parser.FirstTitleIsFirstCandidate` | crawler/parser.go:16-22 | The sibling loop's answer is the first non-empty candidate text across the children, taken left to right. |
| `Parser.FirstTitleAppend` | crawler/parser.go:16-19 | Over a list made of two parts, a non-empty answer from the first part wins and the second part is never consulted. If the first part answers `""`, for example a title whose text trims to `""`, the search goes on into the second part. |
| `Parser.FirstTitleEmptyIff` | crawler/parser.go:16-22 | The loop answers `""` exactly when every child's subtree answers `""`. |
| `Parser.FirstChildWins` | crawler/parser.go:16-19 | If child i gives a non-empty answer and every earlier child gives `""`, child i's answer is the result. |
| `Parser.TitleComesFromTree` | crawler/parser.go:9-23 | A non-empty answer is the trimmed text of some `title` element in the tree whose first child is a text node. |
| `Parser.TitleComesFromChildren` | crawler/parser.go:16-22 | The same, for the sibling loop over the children's trees. |
| `Parser.NoTitleMeansEmpty` | crawler/parser.go:9-23 | If no `title` element with a text first child offers non-empty text, the answer is `""`. This covers a tree with no such title at all. |
| `Parser.CandidatesInDocumentOrder` | crawler/parser.go:9-19 | When titles do not nest, as in the tree of ordinary HTML, the inspected texts are exactly the title texts of the tree in pre-order. |
| `Parser.EarliestTitleWins` | crawler/parser.go:9-23 | When titles do not nest, the answer is the first non-empty trimmed title text in document order. |
| `Parser.NestedTitleCounterexample` | crawler/parser.go:10-16 | For an outer title whose text is blank, holding an inner title with non-empty trimmed text, the search answers `""`. Yet the first non-empty title text in document order is the inner text. This shows that `EarliestTitleWins` needs titles not to nest. |
| `Parser.SingleTitleDocument` | crawler/parser_test.go:16-25 | In the tree the HTML parser builds for one `<title>` with text, the answer is that text, trimmed. |
| `Parser.ExampleBasicTitle` | crawler/parser_test.go:17-20 | `<title>Test Title</title>` gives `Test Title`. |
| `Parser.ExampleTitleWithWhitespace` | crawler/parser_test.go:21-25 | `<title>  Test Title  </title>` gives `Test Title`. |
| `Parser.ExampleNoTitle` | crawler/parser_test.go:26-35 | A head with no title gives `""`. An empty `<title></title>` also gives `""`. |
| `Models.CrawlResult` | models/result.go:3-17 | One field per field of the Go struct, with the same types. Go's `int` is an unbounded integer here. |
| `Models.NewResult` | crawler/crawler.go:19-21 | The record as first built holds the URL and nothing else. It has no status code, status text or error, no extracted page data, and is not a success. |
| `Crawler.NoTitleFoundIsTrimmed` | crawler/crawler.go:65-66 | The placeholder `No title found` is non-empty and trimmed, like any extracted title. |
| `Crawler.CrawlURL` | crawler/crawler.go:16-85 | `url` is always `NormalizeURL(input)`, and the fetch uses the normalised URL. There is no validation step. Every result is well formed: success means status 200, no error and a non-empty trimmed title. Failure means a non-empty error and zero values for all extracted data. `success` holds exactly when the response is 200 and the body parses. A request or network failure gives `Failed to create request: …` or `Network error: …` with status 0. Once a response arrives, its code and status text are recorded. A non-200 code gives the table's description, and the body is not parsed. A parse failure gives `Failed to parse HTML: …`. On success, the title is the extracted title, or `No title found` when that is `""`. The version, doctype, headings and login flag come from the extractors. The link counts come from the link classifier, which gets the normalised URL as its base. |

## Left out

- `IsValidURL` (crawler/validator.go:9-13): its meaning is Go's RE2 regular-expression engine, including its word-boundary rule and bounded repetition. That engine is not part of this model.
- The HTTP exchange (crawler/crawler.go:23-45): the client, its 10-second timeout, the browser-like headers, sending the request and closing the response body. The model receives the exchange's outcome as the `fetch` function, applied to the normalised URL. The text of a Go error, as printed by `%v`, is the outcome's `reason` string.
- `html.Parse` (crawler/crawler.go:56): an external library. The model receives its outcome as the `parse` function, either a parse failure or a built `Node` tree.
- `ExtractHTMLVersion`, `ExtractHeadings`, `DetectLoginForm`, `ExtractLinks` and `extractDomain`: their code is not part of this model. The first four are uninterpreted function values in `Crawler.Extractors`. `CrawlURL`'s contract says only which input each one gets and where its output goes.
- Element attributes, namespaces and parent/sibling pointers of the node tree: the title extractor does not read them. Siblings are modelled as the order of `children`.
- `TextUtil.TrimSpace` works on Unicode scalar values. Go trims UTF-8 bytes, and invalid UTF-8 is not modelled.
- `handlers/web.go` and `main.go`: HTTP routing, template rendering, console output and server start-up.
- `Parser.EarliestTitleWins` (and `Parser.CandidatesInDocumentOrder`): they require that titles do not nest, and the HTML parser does not promise that. An SVG `title` element counts as a title, since the namespace is not checked. A `<title>` tag inside it becomes an HTML title element nested below it, as in `<svg><title> <title>Inner</title></title></svg>`. On such a tree the outer title's text trims to `""`, which ends the search of that subtree, so the answer is not the first non-empty title in document order (`Parser.NestedTitleCounterexample`). `Parser.ExtractTitleIsFirstCandidate` covers every tree, including this one.
