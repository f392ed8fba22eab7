/**
 * URL normalisation and the status-code description table
 * (crawler/validator.go).
 */
module Validator {
  import opened TextUtil

  const HttpScheme: string := "http://"
  const HttpsScheme: string := "https://"

  /** The case-sensitive scheme test that NormalizeURL applies after trimming. */
  predicate HasScheme(s: string)
    ensures HasScheme(s) <==>
      |s| >= 7 && s[..4] == "http" && (s[4..7] == "://" || (|s| >= 8 && s[4..8] == "s://"))
  {
    HasPrefix(s, HttpScheme) || HasPrefix(s, HttpsScheme)
  }

  /**
   * Trims surrounding whitespace and prepends "https://" unless the trimmed
   * text already starts with "http://" or "https://". The result always
   * carries a scheme, is itself trimmed, ends with the trimmed input
   * verbatim (no case change) and equals the trimmed input exactly when that
   * already carried a scheme.
   */
  function NormalizeURL(url: string): (r: string)
    ensures HasScheme(r)
    ensures IsTrimmed(r)
    ensures |TrimSpace(url)| <= |r| && r[|r| - |TrimSpace(url)|..] == TrimSpace(url)
    ensures r == TrimSpace(url) <==> HasScheme(TrimSpace(url))
    ensures |r| <= |HttpsScheme| + |TrimSpace(url)|
  {
    var trimmed := TrimSpace(url);
    if HasPrefix(trimmed, HttpScheme) || HasPrefix(trimmed, HttpsScheme) then
      trimmed
    else
      SchemePrefixed(trimmed);
      HttpsScheme + trimmed
  }

  /** "https://" followed by a trimmed text: schemed, trimmed, and ending with that text. */
  lemma SchemePrefixed(t: string)
    requires IsTrimmed(t)
    ensures HasScheme(HttpsScheme + t) && IsTrimmed(HttpsScheme + t)
    ensures (HttpsScheme + t)[|HttpsScheme|..] == t
  {
    var r := HttpsScheme + t;
    assert HasPrefix(r, HttpsScheme);
    assert HttpsScheme[0] == 'h' && HttpsScheme[|HttpsScheme| - 1] == '/';
    assert r[0] == 'h';
    assert r[|r| - 1] == if t == [] then '/' else t[|t| - 1];
  }

  /**
   * The two outcomes of normalisation: an input that already has a scheme
   * after trimming comes back trimmed and otherwise unchanged; any other
   * input gets exactly "https://" in front of its trimmed text.
   */
  lemma {:induction false} NormalizeByCase(url: string)
    ensures HasScheme(TrimSpace(url)) ==> NormalizeURL(url) == TrimSpace(url)
    ensures !HasScheme(TrimSpace(url)) ==> NormalizeURL(url) == HttpsScheme + TrimSpace(url)
  {
    var r := NormalizeURL(url);
    var t := TrimSpace(url);
    if !HasScheme(t) {
      assert r != t;
    }
  }

  /** Normalising a normalised URL changes nothing. */
  lemma NormalizeIdempotent(url: string)
    ensures NormalizeURL(NormalizeURL(url)) == NormalizeURL(url)
  {
    var r := NormalizeURL(url);
    assert r == [] + r + [];
    TrimSpaceUnique(r, [], r, []);
  }

  /**
   * The scheme test is case-sensitive: a trimmed input whose first character
   * is not a lower-case 'h' (such as "HTTP://x") is never recognised as
   * schemed and gets "https://" prepended, its own case kept.
   */
  lemma NormalizeIsCaseSensitive(url: string)
    requires IsTrimmed(url) && url != [] && url[0] != 'h'
    ensures NormalizeURL(url) == HttpsScheme + url
  {
    assert url == [] + url + [];
    TrimSpaceUnique(url, [], url, []);
    assert !HasPrefix(url, HttpScheme) && !HasPrefix(url, HttpsScheme) by {
      assert HttpScheme[0] == 'h' && HttpsScheme[0] == 'h';
    }
  }

  /** Whitespace around a trimmed URL does not change what it normalises to. */
  lemma NormalizeIgnoresPadding(pre: string, core: string, post: string)
    requires AllSpace(pre) && AllSpace(post) && IsTrimmed(core)
    ensures NormalizeURL(pre + core + post) == NormalizeURL(core)
  {
    TrimSpaceUnique(pre + core + post, pre, core, post);
    TrimSpaceOfTrimmed(core);
  }

  /** The cases of the normaliser's unit tests (crawler/validator_test.go), one lemma each. */
  lemma NormalizeExampleHttp()
    ensures NormalizeURL("http://doruk.com") == "http://doruk.com"
  {
    TrimSpaceOfTrimmed("http://doruk.com");
    assert HttpScheme <= "http://doruk.com";
  }

  lemma NormalizeExampleHttps()
    ensures NormalizeURL("https://doruk.com") == "https://doruk.com"
  {
    TrimSpaceOfTrimmed("https://doruk.com");
    assert HttpsScheme <= "https://doruk.com";
  }

  lemma NormalizeExampleBare()
    ensures NormalizeURL("doruk.com") == "https://" + "doruk.com"
  {
    NormalizeIsCaseSensitive("doruk.com");
  }

  lemma NormalizeExampleSpaces()
    ensures NormalizeURL("  doruk.com  ") == "https://" + "doruk.com"
  {
    assert "  doruk.com  " == "  " + "doruk.com" + "  ";
    NormalizeIgnoresPadding("  ", "doruk.com", "  ");
    NormalizeIsCaseSensitive("doruk.com");
  }

  lemma NormalizeExampleMixedCase()
    ensures NormalizeURL("Doruk.COM") == "https://" + "Doruk.COM"
  {
    NormalizeIsCaseSensitive("Doruk.COM");
  }

  /** Not one of the unit tests: an upper-case scheme is not recognised. */
  lemma NormalizeExampleUpperScheme()
    ensures NormalizeURL("HTTP://doruk.com") == "https://" + "HTTP://doruk.com"
  {
    NormalizeIsCaseSensitive("HTTP://doruk.com");
  }

  const BadRequestMsg: string := "Bad Request - The server cannot process the request"
  const UnauthorizedMsg: string := "Unauthorized - Authentication is required"
  const ForbiddenMsg: string := "Forbidden - Access to this resource is denied"
  const NotFoundMsg: string := "Not Found - The requested page does not exist"
  const InternalServerErrorMsg: string := "Internal Server Error - The server encountered an error"
  const ClientErrorMsg: string := "Client Error - There's an issue with the request"
  const ServerErrorMsg: string := "Server Error - The server encountered an error"
  const UnexpectedStatusMsg: string := "Unexpected status code"

  /** The status codes that have a message of their own. */
  const NamedCodes: set<int> := {400, 401, 403, 404, 500}

  /** Messages that describe some 4xx code, and those that describe a code of 500 or above. */
  const ClientMessages: set<string> := {BadRequestMsg, UnauthorizedMsg, ForbiddenMsg, NotFoundMsg, ClientErrorMsg}
  const ServerMessages: set<string> := {InternalServerErrorMsg, ServerErrorMsg}

  /**
   * The description that replaces the error text of a non-200 response.
   * Five codes have their own message; the other 4xx codes share the
   * client-error message, every other code of 500 or above (600 and more
   * included) the server-error message, and anything below 400 the
   * "unexpected" message. Every message is non-empty, and the message tells
   * which family the code is in.
   */
  function StatusCodeDescription(statusCode: int): (r: string)
    ensures r != ""
    ensures r in ClientMessages <==> 400 <= statusCode < 500
    ensures r in ServerMessages <==> 500 <= statusCode
    ensures r == UnexpectedStatusMsg <==> statusCode < 400
    ensures r == BadRequestMsg <==> statusCode == 400
    ensures r == UnauthorizedMsg <==> statusCode == 401
    ensures r == ForbiddenMsg <==> statusCode == 403
    ensures r == NotFoundMsg <==> statusCode == 404
    ensures r == InternalServerErrorMsg <==> statusCode == 500
    ensures r == ClientErrorMsg <==> 400 <= statusCode < 500 && statusCode !in NamedCodes
    ensures r == ServerErrorMsg <==> 500 < statusCode
  {
    match statusCode
    case 400 => BadRequestMsg
    case 401 => UnauthorizedMsg
    case 403 => ForbiddenMsg
    case 404 => NotFoundMsg
    case 500 => InternalServerErrorMsg
    case _ =>
      if statusCode >= 400 && statusCode < 500 then ClientErrorMsg
      else if statusCode >= 500 then ServerErrorMsg
      else UnexpectedStatusMsg
  }

  /** The cases of the description table's unit tests (crawler/validator_test.go). */
  lemma StatusCodeDescriptionExamples()
    ensures StatusCodeDescription(400) == "Bad Request - The server cannot process the request"
    ensures StatusCodeDescription(401) == "Unauthorized - Authentication is required"
    ensures StatusCodeDescription(403) == "Forbidden - Access to this resource is denied"
    ensures StatusCodeDescription(404) == "Not Found - The requested page does not exist"
    ensures StatusCodeDescription(500) == "Internal Server Error - The server encountered an error"
    ensures StatusCodeDescription(418) == "Client Error - There's an issue with the request"
    ensures StatusCodeDescription(502) == "Server Error - The server encountered an error"
    ensures StatusCodeDescription(200) == "Unexpected status code"
  {
  }
}
