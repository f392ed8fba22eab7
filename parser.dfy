/**
 * The page-title extractor (crawler/parser.go): a depth-first, pre-order
 * search that stops at the first non-empty title.
 */
module Parser {
  import opened TextUtil
  import opened Html

  /** A `title` element whose first child is a text node: the only place a title is read from. */
  predicate IsTitleWithText(n: Node)
    ensures IsTitleWithText(n) ==> n.data == "title" && n.children != []
    ensures IsTitleWithText(n) ==> !IsTitleWithText(n.children[0])
  {
    n.kind == ElementNode && n.data == "title" && |n.children| > 0 && n.children[0].kind == TextNode
  }

  /** The text such a title element offers, trimmed of surrounding whitespace. */
  function TitleText(n: Node): (r: string)
    requires IsTitleWithText(n)
    ensures IsTrimmed(r) && |r| <= |n.children[0].data|
    ensures exists i :: 0 <= i <= |n.children[0].data| - |r| && n.children[0].data[i..i + |r|] == r
                        && AllSpace(n.children[0].data[..i]) && AllSpace(n.children[0].data[i + |r|..])
  {
    TrimSpace(n.children[0].data)
  }

  /**
   * ExtractTitle: at a title element with a text first child, that text
   * trimmed (even when it trims to "", in which case the caller's loop goes
   * on); otherwise the first non-empty answer among the children, left to
   * right, or "" when there is none. The answer never starts or ends with
   * whitespace.
   */
  function ExtractTitle(n: Node): (r: string)
    ensures IsTrimmed(r)
    decreases n
  {
    if IsTitleWithText(n) then TitleText(n) else FirstTitle(n.children)
  }

  /** The loop over the sibling list: the first child whose subtree yields a non-empty title wins. */
  function FirstTitle(cs: seq<Node>): (r: string)
    ensures IsTrimmed(r)
    decreases cs
  {
    if cs == [] then ""
    else if ExtractTitle(cs[0]) != "" then ExtractTitle(cs[0])
    else FirstTitle(cs[1..])
  }

  // ---------------------------------------------------------------------
  // Reference definition: the texts the search looks at, in the order it
  // looks at them, and the first non-empty one among them.
  // ---------------------------------------------------------------------

  /** The title texts the search inspects under `n`, in pre-order; a title element with text ends the descent. */
  function Candidates(n: Node): seq<string>
    decreases n
  {
    if IsTitleWithText(n) then [TitleText(n)] else CandidatesOf(n.children)
  }

  function CandidatesOf(cs: seq<Node>): seq<string>
    decreases cs
  {
    if cs == [] then [] else Candidates(cs[0]) + CandidatesOf(cs[1..])
  }

  /** The first non-empty string of `xs`, or "" when all are empty. */
  function FirstNonEmpty(xs: seq<string>): string {
    if xs == [] then "" else if xs[0] != "" then xs[0] else FirstNonEmpty(xs[1..])
  }

  /** FirstNonEmpty picks the earliest non-empty entry, and gives "" exactly when every entry is "". */
  lemma {:induction false} FirstNonEmptySpec(xs: seq<string>)
    ensures FirstNonEmpty(xs) == "" <==> forall i :: 0 <= i < |xs| ==> xs[i] == ""
    ensures FirstNonEmpty(xs) != "" ==>
      exists k :: 0 <= k < |xs| && xs[k] == FirstNonEmpty(xs) && forall j :: 0 <= j < k ==> xs[j] == ""
  {
    if xs != [] && xs[0] == "" {
      FirstNonEmptySpec(xs[1..]);
      if FirstNonEmpty(xs) != "" {
        var k :| 0 <= k < |xs[1..]| && xs[1..][k] == FirstNonEmpty(xs) && forall j :: 0 <= j < k ==> xs[1..][j] == "";
        assert xs[k + 1] == FirstNonEmpty(xs);
      }
    }
  }

  lemma {:induction false} FirstNonEmptyAppend(a: seq<string>, b: seq<string>)
    ensures FirstNonEmpty(a + b) == if FirstNonEmpty(a) != "" then FirstNonEmpty(a) else FirstNonEmpty(b)
  {
    if a == [] {
      assert a + b == b;
    } else {
      assert (a + b)[1..] == a[1..] + b;
      FirstNonEmptyAppend(a[1..], b);
    }
  }

  /**
   * ExtractTitle agrees with the reference definition: its answer is the
   * first non-empty text among the titles the pre-order walk inspects.
   */
  lemma {:induction false} ExtractTitleIsFirstCandidate(n: Node)
    ensures ExtractTitle(n) == FirstNonEmpty(Candidates(n))
    decreases n
  {
    if !IsTitleWithText(n) {
      FirstTitleIsFirstCandidate(n.children);
    }
  }

  lemma {:induction false} FirstTitleIsFirstCandidate(cs: seq<Node>)
    ensures FirstTitle(cs) == FirstNonEmpty(CandidatesOf(cs))
    decreases cs
  {
    if cs != [] {
      ExtractTitleIsFirstCandidate(cs[0]);
      FirstTitleIsFirstCandidate(cs[1..]);
      FirstNonEmptyAppend(Candidates(cs[0]), CandidatesOf(cs[1..]));
    }
  }

  /**
   * The sibling loop over a list made of two parts: the first part's answer
   * wins when it is non-empty (the second part is then never consulted);
   * when the first part yields "" (for instance a title whose text trims to
   * ""), the search goes on into the second part.
   */
  lemma {:induction false} FirstTitleAppend(a: seq<Node>, b: seq<Node>)
    ensures FirstTitle(a + b) == if FirstTitle(a) != "" then FirstTitle(a) else FirstTitle(b)
  {
    if a == [] {
      assert a + b == b;
    } else {
      assert (a + b)[0] == a[0];
      assert (a + b)[1..] == a[1..] + b;
      FirstTitleAppend(a[1..], b);
    }
  }

  /** The children's answer is "" exactly when every child's subtree answers "". */
  lemma {:induction false} FirstTitleEmptyIff(cs: seq<Node>)
    ensures FirstTitle(cs) == "" <==> forall i :: 0 <= i < |cs| ==> ExtractTitle(cs[i]) == ""
  {
    if cs != [] {
      FirstTitleEmptyIff(cs[1..]);
      assert forall i :: 1 <= i < |cs| ==> cs[i] == cs[1..][i - 1];
    }
  }

  /** First match wins: the first child, left to right, whose subtree yields a non-empty title decides the answer. */
  lemma {:induction false} FirstChildWins(cs: seq<Node>, i: nat)
    requires i < |cs| && ExtractTitle(cs[i]) != ""
    requires forall j :: 0 <= j < i ==> ExtractTitle(cs[j]) == ""
    ensures FirstTitle(cs) == ExtractTitle(cs[i])
  {
    if i > 0 {
      var rest := cs[1..];
      assert ExtractTitle(cs[0]) == "";
      assert rest[i - 1] == cs[i];
      forall j | 0 <= j < i - 1 ensures ExtractTitle(rest[j]) == "" {
        assert rest[j] == cs[j + 1];
      }
      FirstChildWins(rest, i - 1);
    }
  }

  /**
   * A non-empty answer is the trimmed text of some title element of the
   * tree whose first child is a text node.
   */
  lemma {:induction false} TitleComesFromTree(n: Node)
    ensures ExtractTitle(n) != "" ==>
      exists t :: t in Preorder(n) && IsTitleWithText(t) && TitleText(t) == ExtractTitle(n)
    decreases n
  {
    if !IsTitleWithText(n) {
      TitleComesFromChildren(n.children);
    }
  }

  lemma {:induction false} TitleComesFromChildren(cs: seq<Node>)
    ensures FirstTitle(cs) != "" ==>
      exists t :: t in PreorderOf(cs) && IsTitleWithText(t) && TitleText(t) == FirstTitle(cs)
    decreases cs
  {
    if cs != [] {
      if ExtractTitle(cs[0]) != "" {
        TitleComesFromTree(cs[0]);
      } else {
        TitleComesFromChildren(cs[1..]);
      }
    }
  }

  /**
   * When no title element of the tree offers non-empty text (in particular
   * when the tree has no title element with a text first child at all),
   * the answer is "".
   */
  lemma NoTitleMeansEmpty(n: Node)
    requires forall t :: t in Preorder(n) && IsTitleWithText(t) ==> TitleText(t) == ""
    ensures ExtractTitle(n) == ""
  {
    TitleComesFromTree(n);
  }

  // ---------------------------------------------------------------------
  // Document order on trees the HTML parser builds.
  // ---------------------------------------------------------------------

  /** The trimmed texts of the title elements of `ns` that have a text first child, in the order of `ns`. */
  function TitlesIn(ns: seq<Node>): seq<string> {
    if ns == [] then []
    else TitleOf(ns[0]) + TitlesIn(ns[1..])
  }

  /** The title text `n` contributes on its own: one entry for a title with text, none otherwise. */
  function TitleOf(n: Node): seq<string> {
    if IsTitleWithText(n) then [TitleText(n)] else []
  }

  lemma TitlesInCons(n: Node, rest: seq<Node>)
    ensures TitlesIn([n] + rest) == TitleOf(n) + TitlesIn(rest)
  {
    assert ([n] + rest)[0] == n;
    assert ([n] + rest)[1..] == rest;
  }

  lemma {:induction false} TitlesInAppend(a: seq<Node>, b: seq<Node>)
    ensures TitlesIn(a + b) == TitlesIn(a) + TitlesIn(b)
  {
    if a == [] {
      assert a + b == b;
    } else {
      var head := TitleOf(a[0]);
      assert (a + b)[0] == a[0];
      assert (a + b)[1..] == a[1..] + b;
      TitlesInAppend(a[1..], b);
      calc {
        TitlesIn(a + b);
        head + TitlesIn(a[1..] + b);
        head + (TitlesIn(a[1..]) + TitlesIn(b));
        (head + TitlesIn(a[1..])) + TitlesIn(b);
        TitlesIn(a) + TitlesIn(b);
      }
    }
  }

  lemma {:induction false} TitlesInNone(ns: seq<Node>)
    requires forall t :: t in ns ==> !IsTitleWithText(t)
    ensures TitlesIn(ns) == []
  {
    if ns != [] {
      assert ns[0] in ns;
      assert forall t :: t in ns[1..] ==> t in ns;
      TitlesInNone(ns[1..]);
    }
  }

  /**
   * Title elements do not nest: nothing below a title element with text is
   * itself such a title. This holds for the tree of ordinary HTML, where a
   * title's content is parsed as plain text, but not for every tree the
   * HTML parser builds: an SVG `title` element is a title here as well (the
   * kind and tag are checked, the namespace is not), and a `<title>` tag
   * inside it becomes an HTML title element nested below it.
   */
  predicate NoNestedTitles(n: Node)
    decreases n
  {
    if IsTitleWithText(n) then
      forall t :: t in PreorderOf(n.children) ==> !IsTitleWithText(t)
    else
      forall i :: 0 <= i < |n.children| ==> NoNestedTitles(n.children[i])
  }

  /**
   * On a tree without nested titles, the texts the search inspects are
   * exactly the title texts in document (pre-)order.
   */
  lemma {:induction false} CandidatesInDocumentOrder(n: Node)
    requires NoNestedTitles(n)
    ensures Candidates(n) == TitlesIn(Preorder(n))
    decreases n
  {
    assert Preorder(n) == [n] + PreorderOf(n.children);
    TitlesInCons(n, PreorderOf(n.children));
    if IsTitleWithText(n) {
      TitlesInNone(PreorderOf(n.children));
    } else {
      CandidatesOfInDocumentOrder(n.children);
    }
  }

  lemma {:induction false} CandidatesOfInDocumentOrder(cs: seq<Node>)
    requires forall i :: 0 <= i < |cs| ==> NoNestedTitles(cs[i])
    ensures CandidatesOf(cs) == TitlesIn(PreorderOf(cs))
    decreases cs
  {
    if cs != [] {
      CandidatesInDocumentOrder(cs[0]);
      CandidatesOfInDocumentOrder(cs[1..]);
      TitlesInAppend(Preorder(cs[0]), PreorderOf(cs[1..]));
    }
  }

  /**
   * The earliest title wins: on a tree without nested titles, the answer is
   * the first non-empty trimmed title text in document order.
   */
  lemma EarliestTitleWins(n: Node)
    requires NoNestedTitles(n)
    ensures ExtractTitle(n) == FirstNonEmpty(TitlesIn(Preorder(n)))
  {
    ExtractTitleIsFirstCandidate(n);
    CandidatesInDocumentOrder(n);
  }

  /**
   * An outer title whose text is blank, holding an inner title with text:
   * the tree the HTML parser builds below the svg element for
   * `<svg><title> <title>Inner</title></title></svg>`.
   */
  function NestedTitles(blank: string, text: string): Node {
    Element("title", [Text(blank), Element("title", [Text(text)])])
  }

  /** The outer title's blank text ends the search of the nested tree with "". */
  lemma NestedTitlesAnswer(blank: string, text: string)
    requires AllSpace(blank)
    ensures ExtractTitle(NestedTitles(blank, text)) == ""
  {
    TrimSpaceOfBlank(blank);
  }

  /** The pre-order walk of the nested tree: outer title, blank text, inner title, inner text. */
  lemma NestedTitlesWalk(blank: string, text: string)
    ensures Preorder(NestedTitles(blank, text)) ==
      [NestedTitles(blank, text), Text(blank), Element("title", [Text(text)]), Text(text)]
  {
    var textNode := Text(text);
    var inner := Element("title", [textNode]);
    assert PreorderOf([textNode]) == [textNode] by {
      assert [textNode][1..] == [];
    }
    assert PreorderOf([Text(blank), inner]) == [Text(blank), inner, textNode] by {
      assert [Text(blank), inner][1..] == [inner];
      assert [inner][1..] == [];
      assert Preorder(Text(blank)) == [Text(blank)];
      assert Preorder(inner) == [inner, textNode];
    }
  }

  /** The title texts after the outer title, in document order: only the inner title's. */
  lemma NestedTitlesBelowOuter(blank: string, text: string)
    ensures TitlesIn([Text(blank), Element("title", [Text(text)]), Text(text)]) == [TrimSpace(text)]
  {
    var textNode := Text(text);
    var inner := Element("title", [textNode]);
    TitlesInCons(textNode, []);
    assert [textNode] == [textNode] + [];
    TitlesInCons(inner, [textNode]);
    assert [inner, textNode] == [inner] + [textNode];
    TitlesInCons(Text(blank), [inner, textNode]);
    assert [Text(blank), inner, textNode] == [Text(blank)] + [inner, textNode];
  }

  /** In document order, the nested tree offers the outer title's text, then the inner title's. */
  lemma NestedTitlesInOrder(blank: string, text: string)
    ensures TitlesIn(Preorder(NestedTitles(blank, text))) == [TrimSpace(blank), TrimSpace(text)]
  {
    var outer := NestedTitles(blank, text);
    var rest := [Text(blank), Element("title", [Text(text)]), Text(text)];
    NestedTitlesWalk(blank, text);
    assert Preorder(outer) == [outer] + rest;
    NestedTitlesBelowOuter(blank, text);
    TitlesInCons(outer, rest);
  }

  /**
   * Why EarliestTitleWins needs NoNestedTitles: on the nested tree the
   * search answers "", though the inner text is the first non-empty title
   * text in document order.
   */
  lemma NestedTitleCounterexample(blank: string, text: string)
    requires AllSpace(blank) && IsTrimmed(text) && text != ""
    ensures ExtractTitle(NestedTitles(blank, text)) == ""
    ensures FirstNonEmpty(TitlesIn(Preorder(NestedTitles(blank, text)))) == text
  {
    NestedTitlesAnswer(blank, text);
    NestedTitlesInOrder(blank, text);
    TrimSpaceOfBlank(blank);
    TrimSpaceOfTrimmed(text);
    assert ["", text][1..] == [text];
  }

  // ---------------------------------------------------------------------
  // The extractor's unit tests (crawler/parser_test.go), on the trees the
  // HTML parser builds for them: a document node, then html with head and
  // an (empty) body.
  // ---------------------------------------------------------------------

  function TestDocument(head: seq<Node>): Node {
    Node(DocumentNode, "", [Element("html", [Element("head", head), Element("body", [])])])
  }

  /** The answer for a test document whose head holds just the given node, computed level by level. */
  lemma {:induction false} TestDocumentTitle(head: Node)
    ensures ExtractTitle(TestDocument([head])) == ExtractTitle(head)
  {
    var body := Element("body", []);
    var headElem := Element("head", [head]);
    var htmlElem := Element("html", [headElem, body]);
    assert ExtractTitle(body) == "";
    assert ExtractTitle(headElem) == ExtractTitle(head) by {
      assert FirstTitle([head]) == ExtractTitle(head) by {
        assert [head][1..] == [];
      }
    }
    assert ExtractTitle(htmlElem) == ExtractTitle(head) by {
      assert !IsTitleWithText(htmlElem) by {
        assert htmlElem.data[0] != "title"[0];
      }
      assert FirstTitle([body]) == "" by {
        assert [body][1..] == [];
      }
      assert [headElem, body][1..] == [body];
    }
    assert FirstTitle([htmlElem]) == ExtractTitle(htmlElem) by {
      assert [htmlElem][1..] == [];
    }
  }

  /** A test document whose head holds one title with text: the answer is that text, trimmed. */
  lemma SingleTitleDocument(text: string)
    ensures ExtractTitle(TestDocument([Element("title", [Text(text)])])) == TrimSpace(text)
  {
    TestDocumentTitle(Element("title", [Text(text)]));
  }

  lemma TrimTestTitle()
    ensures TrimSpace("Test Title") == "Test Title"
  {
    assert "Test Title" == [] + "Test Title" + [];
    TrimSpaceUnique("Test Title", [], "Test Title", []);
  }

  lemma TrimPaddedTestTitle()
    ensures TrimSpace("  Test Title  ") == "Test Title"
  {
    assert "  Test Title  " == "  " + "Test Title" + "  ";
    TrimSpaceUnique("  Test Title  ", "  ", "Test Title", "  ");
  }

  /** "Basic title": the text comes back as it is. */
  lemma ExampleBasicTitle()
    ensures ExtractTitle(TestDocument([Element("title", [Text("Test Title")])])) == "Test Title"
  {
    SingleTitleDocument("Test Title");
    TrimTestTitle();
  }

  /** "Title with whitespace": the surrounding spaces are trimmed. */
  lemma ExampleTitleWithWhitespace()
    ensures ExtractTitle(TestDocument([Element("title", [Text("  Test Title  ")])])) == "Test Title"
  {
    SingleTitleDocument("  Test Title  ");
    TrimPaddedTestTitle();
  }

  /** "No title" and "Empty title": both answer "". */
  lemma ExampleNoTitle()
    ensures ExtractTitle(TestDocument([])) == ""
    ensures ExtractTitle(TestDocument([Element("title", [])])) == ""
  {
    TestDocumentTitle(Element("title", []));
  }
}
