/** The Markdown renderer of the unstructured parser: each document element the
    extraction library produced becomes one Markdown fragment, and the fragments
    are joined with a blank line between each two. */
module Markdown {
  import opened Wrappers
  import opened Strings

  /** A document element as the extraction library hands it over. `Title`,
      `ListItem` and `Formula` are the three element classes the renderer
      recognises; `Other` is every other element, with its text when it has one.
      `depth` is the title's `category_depth` metadata. */
  datatype Element =
    | Title(text: string, depth: Option<int>)
    | ListItem(text: string)
    | Formula(text: string)
    | Other(maybeText: Option<string>)

  /** What goes between two rendered elements: one blank line. */
  const Separator: string := "\n\n"

  /** Python's `c * n`: `n` copies of `c`, and nothing when `n` is not positive. */
  function Repeat(c: char, n: int): (r: string)
    ensures |r| == if n <= 0 then 0 else n
    ensures forall i :: 0 <= i < |r| ==> r[i] == c
    decreases n
  {
    if n <= 0 then "" else [c] + Repeat(c, n - 1)
  }

  /** `category_depth or 1`: a missing depth and a depth of 0 both mean level 1. */
  function HeadingLevel(depth: Option<int>): (level: int)
    ensures level != 0
    ensures depth.Some? && depth.value != 0 ==> level == depth.value
  {
    match depth
    case None => 1
    case Some(d) => if d == 0 then 1 else d
  }

  /** The Markdown fragment of one element. */
  function Fragment(el: Element): string
  {
    match el
    case Title(t, d) => Repeat('#', HeadingLevel(d)) + " " + t
    case ListItem(t) => "- " + t
    case Formula(t) => "```\n" + t + "\n```"
    case Other(maybeText) =>
      match maybeText
      case Some(t) => t
      case None => ""
  }

  /** The fragments of a sequence of elements, in order. */
  function Fragments(els: seq<Element>): seq<string>
  {
    seq(|els|, i requires 0 <= i < |els| => Fragment(els[i]))
  }

  /** The whole document: the fragments joined by blank lines. */
  function Render(els: seq<Element>): (md: string)
    ensures |els| == 0 ==> md == ""
    ensures |els| == 1 ==> md == Fragment(els[0])
    ensures |els| > 0 ==> |Fragment(els[0])| <= |md| && md[..|Fragment(els[0])|] == Fragment(els[0])
  {
    Join(Separator, Fragments(els))
  }

  /** The rendered text is the fragments and one blank line between each two
      neighbours, nothing more. */
  lemma RenderLength(els: seq<Element>)
    requires |els| > 0
    ensures |Render(els)| == TotalLength(Fragments(els)) + 2 * (|els| - 1)
  {
    JoinLength(Separator, Fragments(els));
  }

  /** Rendering distributes over concatenation: two documents rendered one after
      the other are separated by exactly one blank line. */
  lemma RenderAppend(a: seq<Element>, b: seq<Element>)
    requires |a| > 0 && |b| > 0
    ensures Render(a + b) == Render(a) + Separator + Render(b)
  {
    assert Fragments(a + b) == Fragments(a) + Fragments(b);
    JoinAppend(Separator, Fragments(a), Fragments(b));
  }

  // ---------------------------------------------------------------------------
  // Headings

  /** The number of `#` characters a string starts with. */
  function LeadingHashes(s: string): (n: nat)
    ensures n <= |s|
    ensures forall i :: 0 <= i < n ==> s[i] == '#'
    ensures n < |s| ==> s[n] != '#'
  {
    if |s| > 0 && s[0] == '#' then 1 + LeadingHashes(s[1..]) else 0
  }

  lemma {:induction false} LeadingHashesOfRepeat(k: nat, s: string)
    ensures LeadingHashes(Repeat('#', k) + s) == k + LeadingHashes(s)
  {
    var r := Repeat('#', k) + s;
    if k > 0 {
      assert r[0] == '#';
      assert r[1..] == Repeat('#', k - 1) + s;
      LeadingHashesOfRepeat(k - 1, s);
    } else {
      assert r == s;
    }
  }

  /** A title without depth, or of depth 0, renders as a first-level heading;
      one of negative depth gets no `#` at all. */
  lemma DefaultHeading(t: string, depth: Option<int>)
    ensures depth.None? || depth == Some(0) ==> Fragment(Title(t, depth)) == "# " + t
    ensures HeadingLevel(depth) <= 0 ==> Fragment(Title(t, depth)) == " " + t
  {
    assert Repeat('#', 1) == "#";
  }

  /** A title of level k >= 1 renders as a heading whose level, counted back
      from the leading `#`, is k, followed by one space and the title text. */
  lemma TitleHeading(t: string, depth: Option<int>)
    requires HeadingLevel(depth) >= 1
    ensures var f, k := Fragment(Title(t, depth)), HeadingLevel(depth);
            LeadingHashes(f) == k && f[k] == ' ' && f[k + 1..] == t
  {
    var f, k := Fragment(Title(t, depth)), HeadingLevel(depth);
    assert f == Repeat('#', k) + (" " + t);
    LeadingHashesOfRepeat(k, " " + t);
    assert LeadingHashes(" " + t) == 0;
  }

  // ---------------------------------------------------------------------------
  // Reading a fragment back

  /** Text that does not start like a heading, a list bullet or a fence. */
  predicate IsPlain(t: string)
  {
    |t| == 0 || (t[0] != '#' && t[0] != '-' && t[0] != '`')
  }

  /** Recognises which element a fragment came from: a run of `#` and a space
      is a heading, `- ` a list item, a ``` fence a formula, anything else text. */
  function ReadFragment(s: string): Element
  {
    var k := LeadingHashes(s);
    if k >= 1 && k < |s| && s[k] == ' ' then Title(s[k + 1..], Some(k))
    else if |s| >= 2 && s[..2] == "- " then ListItem(s[2..])
    else if |s| >= 8 && s[..4] == "```\n" && s[|s| - 4..] == "\n```" then Formula(s[4..|s| - 4])
    else Other(Some(s))
  }

  /** The element as its fragment shows it: a title's depth as the level it
      renders at, a missing text as the empty text. */
  function Normalize(el: Element): Element
  {
    match el
    case Title(t, d) => Title(t, Some(HeadingLevel(d)))
    case Other(None) => Other(Some(""))
    case _ => el
  }

  /** Elements whose fragment can be read back: titles that render with at
      least one `#`, and other text that does not look like markup. */
  predicate Readable(el: Element)
  {
    match el
    case Title(_, d) => HeadingLevel(d) >= 1
    case Other(Some(t)) => IsPlain(t)
    case _ => true
  }

  /** Reading the fragment of a readable element recovers the element's kind,
      level and text, up to `Normalize`. */
  lemma ReadFragmentInverse(el: Element)
    requires Readable(el)
    ensures ReadFragment(Fragment(el)) == Normalize(el)
  {
    match el
    case Title(t, d) =>
      TitleHeading(t, d);
    case ListItem(t) =>
      assert LeadingHashes(Fragment(el)) == 0;
      assert Fragment(el)[2..] == t;
    case Formula(t) =>
      var f := Fragment(el);
      assert LeadingHashes(f) == 0;
      assert f[..2] != "- " by { assert f[0] == '`'; }
      assert f[4..|f| - 4] == t;
    case Other(m) =>
      var f := Fragment(el);
      if |f| > 0 {
        assert LeadingHashes(f) == 0;
        assert |f| >= 2 ==> f[..2] != "- " by { assert f[0] != '-'; }
        assert |f| >= 8 ==> f[..4] != "```\n" by { assert f[0] != '`'; }
      }
  }

  // ---------------------------------------------------------------------------
  // Paragraphs

  /** The text holds a blank line: two newlines in a row. */
  predicate HasBlankLine(s: string)
  {
    exists i :: 0 <= i < |s| - 1 && s[i] == '\n' && s[i + 1] == '\n'
  }

  /** Text that stays one paragraph when joined with others: no blank line
      inside and no newline at its end. */
  predicate IsParagraph(s: string)
  {
    !HasBlankLine(s) && (|s| == 0 || s[|s| - 1] != '\n')
  }

  /** Python's `s.split("\n\n")`: cuts at every blank line, left to right. */
  function SplitParagraphs(s: string): (parts: seq<string>)
    ensures |parts| >= 1
    decreases |s|
  {
    if |s| >= 2 && s[0] == '\n' && s[1] == '\n' then [""] + SplitParagraphs(s[2..])
    else if |s| == 0 then [""]
    else
      var rest := SplitParagraphs(s[1..]);
      [[s[0]] + rest[0]] + rest[1..]
  }

  /** Joining the paragraphs of any text gives the text back. */
  lemma {:induction false} JoinSplit(s: string)
    ensures Join(Separator, SplitParagraphs(s)) == s
    decreases |s|
  {
    if |s| >= 2 && s[0] == '\n' && s[1] == '\n' {
      JoinSplit(s[2..]);
      JoinCons(Separator, "", SplitParagraphs(s[2..]));
      assert s == Separator + s[2..];
    } else if |s| > 0 {
      JoinSplit(s[1..]);
      JoinPrependChar(Separator, s[0], SplitParagraphs(s[1..]));
      assert s == [s[0]] + s[1..];
    }
  }

  lemma BlankLineOfConcat(a: string, b: string)
    requires HasBlankLine(a + b)
    ensures || HasBlankLine(a)
            || HasBlankLine(b)
            || (|a| > 0 && |b| > 0 && a[|a| - 1] == '\n' && b[0] == '\n')
  {
    var s := a + b;
    var i :| 0 <= i < |s| - 1 && s[i] == '\n' && s[i + 1] == '\n';
    if i + 1 < |a| {
      assert a[i] == '\n' && a[i + 1] == '\n';
    } else if i >= |a| {
      var j := i - |a|;
      assert b[j] == '\n' && b[j + 1] == '\n';
    }
  }

  /** Text without a blank line is one paragraph of its own. */
  lemma {:induction false} SplitSingle(p: string)
    requires !HasBlankLine(p)
    ensures SplitParagraphs(p) == [p]
    decreases |p|
  {
    if |p| > 0 {
      assert !(|p| >= 2 && p[0] == '\n' && p[1] == '\n');
      assert p == [p[0]] + p[1..];
      SplitSingle(p[1..]);
    }
  }

  /** A paragraph followed by a blank line is split off as the first part. */
  lemma {:induction false} SplitFirst(p: string, rest: string)
    requires IsParagraph(p)
    ensures SplitParagraphs(p + Separator + rest) == [p] + SplitParagraphs(rest)
    decreases |p|
  {
    var s := p + Separator + rest;
    if |p| == 0 {
      assert s[2..] == rest;
    } else {
      assert p == [p[0]] + p[1..];
      if |p| == 1 {
        assert s[1] == '\n';
        assert p[0] != '\n';
      } else {
        assert s[1] == p[1];
        assert !(p[0] == '\n' && p[1] == '\n');
      }
      assert s[1..] == p[1..] + Separator + rest;
      SplitFirst(p[1..], rest);
    }
  }

  /** Splitting joined paragraphs gives back exactly those paragraphs. */
  lemma {:induction false} SplitJoin(parts: seq<string>)
    requires |parts| > 0
    requires forall i :: 0 <= i < |parts| ==> IsParagraph(parts[i])
    ensures SplitParagraphs(Join(Separator, parts)) == parts
  {
    if |parts| == 1 {
      SplitSingle(parts[0]);
    } else {
      SplitJoin(parts[1..]);
      SplitFirst(parts[0], Join(Separator, parts[1..]));
      assert parts == [parts[0]] + parts[1..];
    }
  }

  // ---------------------------------------------------------------------------
  // Reading a document back

  /** Elements whose fragment is a single paragraph: texts without blank lines
      or trailing newlines, and formulas whose text neither is empty nor starts
      with a newline (either would open a blank line inside the fence). */
  predicate SingleParagraph(el: Element)
  {
    match el
    case Title(t, _) => IsParagraph(t)
    case ListItem(t) => IsParagraph(t)
    case Formula(t) => IsParagraph(t) && |t| > 0 && t[0] != '\n'
    case Other(m) => m.None? || IsParagraph(m.value)
  }

  /** Elements whose fragment is a single paragraph and reads back as the
      element. */
  predicate WellFormed(el: Element)
  {
    Readable(el) && SingleParagraph(el)
  }

  /** Markup put in front of a text that holds no newline keeps the text one
      paragraph. */
  lemma MarkupKeepsParagraph(u: string, t: string)
    requires forall i :: 0 <= i < |u| ==> u[i] != '\n'
    requires |u| > 0
    requires IsParagraph(t)
    ensures IsParagraph(u + t)
  {
    if HasBlankLine(u + t) {
      BlankLineOfConcat(u, t);
    }
    assert (u + t)[|u + t| - 1] == if |t| == 0 then u[|u| - 1] else t[|t| - 1];
  }

  /** An element whose text keeps to one paragraph renders to one paragraph. */
  lemma FragmentIsParagraph(el: Element)
    requires SingleParagraph(el)
    ensures IsParagraph(Fragment(el))
  {
    match el
    case Title(t, d) =>
      var u := Repeat('#', HeadingLevel(d)) + " ";
      assert Fragment(el) == u + t;
      MarkupKeepsParagraph(u, t);
    case ListItem(t) =>
      MarkupKeepsParagraph("- ", t);
    case Formula(t) =>
      var open, close := "```\n", "\n```";
      assert Fragment(el) == (open + t) + close;
      if HasBlankLine(open + t) {
        BlankLineOfConcat(open, t);
      }
      if HasBlankLine((open + t) + close) {
        BlankLineOfConcat(open + t, close);
      }
    case Other(m) =>
  }

  /** The elements a Markdown document reads back as, one per paragraph. */
  function ReadDocument(md: string): (els: seq<Element>)
  {
    var parts := SplitParagraphs(md);
    seq(|parts|, i requires 0 <= i < |parts| => ReadFragment(parts[i]))
  }

  /** A rendered document reads back as the elements it was rendered from, up to
      the normalisation of title depths and missing texts: each element stays
      its own paragraph. */
  lemma RenderReadsBack(els: seq<Element>)
    requires |els| > 0
    requires forall i :: 0 <= i < |els| ==> WellFormed(els[i])
    ensures ReadDocument(Render(els)) == seq(|els|, i requires 0 <= i < |els| => Normalize(els[i]))
  {
    var fs := Fragments(els);
    forall i | 0 <= i < |fs|
      ensures IsParagraph(fs[i])
    {
      FragmentIsParagraph(els[i]);
    }
    SplitJoin(fs);
    forall i | 0 <= i < |els|
      ensures ReadFragment(fs[i]) == Normalize(els[i])
    {
      ReadFragmentInverse(els[i]);
    }
  }

  // ---------------------------------------------------------------------------
  // Documents from the parser's tests

  lemma RenderFour(a: Element, b: Element, c: Element, d: Element)
    ensures Render([a, b, c, d])
            == Fragment(a) + Separator + Fragment(b) + Separator + Fragment(c) + Separator + Fragment(d)
  {
    var fa, fb, fc, fd := Fragment(a), Fragment(b), Fragment(c), Fragment(d);
    assert Fragments([a, b, c, d]) == [fa] + ([fb] + ([fc] + [fd]));
    JoinCons(Separator, fc, [fd]);
    JoinCons(Separator, fb, [fc] + [fd]);
    JoinCons(Separator, fa, [fb] + ([fc] + [fd]));
  }

  /** A title without depth, a plain text, a list item and a formula. */
  lemma MixedDocumentRendering()
    ensures Render([Title("heading", None), Other(Some("This is the text")),
                    ListItem("This is a list item"), Formula("This is a formula")])
            == ("#" + " " + "heading") + "\n\n" + "This is the text" + "\n\n" + ("- " + "This is a list item")
               + "\n\n" + ("```\n" + "This is a formula" + "\n```")
  {
    RenderFour(Title("heading", None), Other(Some("This is the text")),
               ListItem("This is a list item"), Formula("This is a formula"));
    assert Repeat('#', 1) == "#";
  }

  /** Titles of depth 1 and 2 render as first- and second-level headings. */
  lemma MultiLevelHeadings()
    ensures Render([Title("first level heading", Some(1)), Title("second level heading", Some(2))])
            == "#" + " " + "first level heading" + "\n\n" + "##" + " " + "second level heading"
  {
    var els := [Title("first level heading", Some(1)), Title("second level heading", Some(2))];
    assert Repeat('#', 1) == "#";
    assert Repeat('#', 2) == "##";
    var fs := ["#" + " " + "first level heading", "##" + " " + "second level heading"];
    assert Fragments(els) == fs;
    assert Join(Separator, fs[1..]) == fs[1];
  }
}
