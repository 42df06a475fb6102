/**
 * The manuscript-to-PDF exporter (bookwriter/pdf_exporter.py): the
 * manuscript is read line by line into a story of flowables (chapter titles
 * with their anchors, body paragraphs), framed by a cover, a table of
 * contents and, for a book with a blurb, a back cover. Layout, styles and
 * the PDF rendering itself are not modelled.
 */
module PdfExporter {
  import opened Wrappers
  import Text
  import opened Json
  import Problems

  // ---------------------------------------------------------------- escaping

  /** `s` with every `c` replaced by `rep`, one character at a time. */
  function SubstChar(s: string, c: char, rep: string): (r: string)
    decreases |s|
  {
    if s == [] then [] else (if s[0] == c then rep else [s[0]]) + SubstChar(s[1..], c, rep)
  }

  lemma {:induction false} SubstCharConcat(a: string, b: string, c: char, rep: string)
    ensures SubstChar(a + b, c, rep) == SubstChar(a, c, rep) + SubstChar(b, c, rep)
    decreases |a|
  {
    if a == [] {
      assert a + b == b;
    } else {
      var h := if a[0] == c then rep else [a[0]];
      assert (a + b)[0] == a[0];
      assert (a + b)[1..] == a[1..] + b;
      SubstCharConcat(a[1..], b, c, rep);
      calc {
        SubstChar(a + b, c, rep);
        h + SubstChar(a[1..] + b, c, rep);
        h + (SubstChar(a[1..], c, rep) + SubstChar(b, c, rep));
        (h + SubstChar(a[1..], c, rep)) + SubstChar(b, c, rep);
      }
    }
  }

  lemma {:induction false} SubstCharAbsent(s: string, c: char, rep: string)
    requires c !in s
    ensures SubstChar(s, c, rep) == s
    decreases |s|
  {
    if s != [] {
      SubstCharAbsent(s[1..], c, rep);
    }
  }

  /** A character that does not occur, as a one-character pattern, before `i`. */
  lemma AbsentBefore(s: string, c: char, i: nat)
    requires i <= |s|
    requires forall j :: 0 <= j < i ==> !Text.OccursAt(s, [c], j)
    ensures c !in s[..i]
  {
    forall j | 0 <= j < i
      ensures s[j] != c
    {
      assert !Text.OccursAt(s, [c], j);
      assert s[j..j + 1] == [s[j]];
    }
  }

  /** Replacing a one-character pattern is substituting that character. */
  lemma {:induction false} ReplaceOneChar(s: string, c: char, rep: string)
    ensures Text.Replace(s, [c], rep) == SubstChar(s, c, rep)
    decreases |s|
  {
    var i := Text.FindFrom(s, [c], 0);
    if i < 0 {
      AbsentBefore(s, c, |s|);
      assert s[..|s|] == s;
      SubstCharAbsent(s, c, rep);
    } else {
      var before, after := s[..i], s[i + 1..];
      AbsentBefore(s, c, i);
      assert s[i..i + 1] == [c];
      assert s == before + ([c] + after);
      SubstCharAbsent(before, c, rep);
      ReplaceOneChar(after, c, rep);
      SubstCharConcat(before, [c] + after, c, rep);
      assert ([c] + after)[1..] == after;
      assert SubstChar([c] + after, c, rep) == rep + SubstChar(after, c, rep);
      assert Text.Replace(s, [c], rep) == before + rep + Text.Replace(after, [c], rep);
      Text.AppendAssoc(before, rep, SubstChar(after, c, rep));
    }
  }

  /** The escape of one character. */
  function EscapeChar(c: char): string {
    if c == '&' then "&amp;" else if c == '<' then "&lt;" else if c == '>' then "&gt;" else [c]
  }

  /** Every character escaped on its own. */
  function Escaped(s: string): string
    decreases |s|
  {
    if s == [] then [] else EscapeChar(s[0]) + Escaped(s[1..])
  }

  lemma {:induction false} EscapedShape(s: string)
    ensures '<' !in Escaped(s) && '>' !in Escaped(s)
    ensures |Escaped(s)| == |s| + 4 * multiset(s)['&'] + 3 * multiset(s)['<'] + 3 * multiset(s)['>']
    decreases |s|
  {
    if s != [] {
      var c, rest := s[0], s[1..];
      assert s == [c] + rest;
      assert multiset(s) == multiset{c} + multiset(rest);
      EscapedShape(rest);
      EscapeCharShape(c);
      var e, t := EscapeChar(c), Escaped(rest);
      assert Escaped(s) == e + t;
      assert |Escaped(s)| == |e| + |t|;
      assert forall x :: x in e + t ==> x in e || x in t;
    }
  }

  /** One escaped character: no angle bracket, and four or three characters more for an escaped one. */
  lemma EscapeCharShape(c: char)
    ensures '<' !in EscapeChar(c) && '>' !in EscapeChar(c)
    ensures |EscapeChar(c)| == 1 + 4 * multiset{c}['&'] + 3 * multiset{c}['<'] + 3 * multiset{c}['>']
  {
  }

  /** `_escape_html`: `&` first, so that the entities introduced for `<` and `>` are not escaped again. */
  function EscapeHtml(s: string): string {
    Text.Replace(Text.Replace(Text.Replace(s, "&", "&amp;"), "<", "&lt;"), ">", "&gt;")
  }

  /** The three substitutions, in the order `_escape_html` applies them. */
  function Substituted(s: string): string {
    SubstChar(SubstChar(SubstChar(s, '&', "&amp;"), '<', "&lt;"), '>', "&gt;")
  }

  lemma SubstitutedConcat(a: string, b: string)
    ensures Substituted(a + b) == Substituted(a) + Substituted(b)
  {
    SubstCharConcat(a, b, '&', "&amp;");
    SubstCharConcat(SubstChar(a, '&', "&amp;"), SubstChar(b, '&', "&amp;"), '<', "&lt;");
    SubstCharConcat(SubstChar(SubstChar(a, '&', "&amp;"), '<', "&lt;"),
                    SubstChar(SubstChar(b, '&', "&amp;"), '<', "&lt;"), '>', "&gt;");
  }

  lemma SubstOne(x: char, c: char, rep: string)
    ensures SubstChar([x], c, rep) == if x == c then rep else [x]
  {
    assert [x][1..] == [];
  }

  lemma SubstitutedChar(x: char)
    ensures Substituted([x]) == EscapeChar(x)
  {
    if x == '&' {
      SubstitutedAmp(x);
    } else if x == '<' {
      SubstitutedLt(x);
    } else if x == '>' {
      SubstitutedGt(x);
    } else {
      SubstitutedPlain(x);
    }
  }

  lemma SubstitutedAmp(x: char)
    requires x == '&'
    ensures Substituted([x]) == "&amp;"
  {
    SubstOne(x, '&', "&amp;");
    NoAngles("&amp;");
  }

  /** Text without angle brackets passes the last two replacements unchanged. */
  lemma NoAngles(s: string)
    requires forall i :: 0 <= i < |s| ==> s[i] != '<' && s[i] != '>'
    ensures SubstChar(SubstChar(s, '<', "&lt;"), '>', "&gt;") == s
  {
    SubstCharAbsent(s, '<', "&lt;");
    SubstCharAbsent(s, '>', "&gt;");
  }

  lemma SubstitutedLt(x: char)
    requires x == '<'
    ensures Substituted([x]) == "&lt;"
  {
    SubstOne(x, '&', "&amp;");
    SubstOne(x, '<', "&lt;");
    SubstCharAbsent("&lt;", '>', "&gt;");
  }

  lemma SubstitutedGt(x: char)
    requires x == '>'
    ensures Substituted([x]) == "&gt;"
  {
    SubstOne(x, '&', "&amp;");
    SubstOne(x, '<', "&lt;");
    SubstOne(x, '>', "&gt;");
  }

  lemma SubstitutedPlain(x: char)
    requires x != '&' && x != '<' && x != '>'
    ensures Substituted([x]) == [x]
  {
    SubstOne(x, '&', "&amp;");
    SubstOne(x, '<', "&lt;");
    SubstOne(x, '>', "&gt;");
  }

  lemma {:induction false} SubstitutionsEscape(s: string)
    ensures Substituted(s) == Escaped(s)
    decreases |s|
  {
    if s != [] {
      assert s == [s[0]] + s[1..];
      SubstitutedConcat([s[0]], s[1..]);
      SubstitutedChar(s[0]);
      SubstitutionsEscape(s[1..]);
    }
  }

  /**
   * The three replacements escape each character on its own: the result holds
   * no `<` or `>`, and each `&` grows by 4 characters, each `<` and `>` by 3.
   */
  lemma EscapeHtmlIsEscaped(s: string)
    ensures EscapeHtml(s) == Escaped(s)
    ensures '<' !in EscapeHtml(s) && '>' !in EscapeHtml(s)
    ensures |EscapeHtml(s)| == |s| + 4 * multiset(s)['&'] + 3 * multiset(s)['<'] + 3 * multiset(s)['>']
  {
    ReplaceOneChar(s, '&', "&amp;");
    ReplaceOneChar(SubstChar(s, '&', "&amp;"), '<', "&lt;");
    ReplaceOneChar(SubstChar(SubstChar(s, '&', "&amp;"), '<', "&lt;"), '>', "&gt;");
    SubstitutionsEscape(s);
    EscapedShape(s);
  }

  // ---------------------------------------------------------------- markdown

  /**
   * The three emphasis substitutions of `_process_markdown` (bold `**x**`,
   * italic `*x*` and `_x_`, as regular expressions) are not modelled: they
   * arrive as a function applied to the escaped text.
   */
  type Emphasis = string -> string

  /** `_process_markdown`: empty text stays empty; other text is escaped, then emphasised. */
  function ProcessMarkdown(emphasis: Emphasis, text: string): (r: string)
    ensures text == [] ==> r == []
  {
    if text == [] then [] else emphasis(Escaped(text))
  }

  /** Non-empty text is escaped as `_escape_html` does before the emphasis is applied. */
  lemma ProcessMarkdownEscapes(emphasis: Emphasis, text: string)
    requires text != []
    ensures ProcessMarkdown(emphasis, text) == emphasis(EscapeHtml(text))
  {
    EscapeHtmlIsEscaped(text);
  }

  // ---------------------------------------------------------------- the story

  /** What the exporter puts into the document, in order; spacers and styles are not modelled. */
  datatype Flowable =
      /** The cover page, with its closing page break. */
    | CoverPage
      /** The table-of-contents heading, the table and its closing page break. */
    | TableOfContents
      /** A chapter heading bookmarked as `chapter_<number>`, with its escaped title. */
    | ChapterTitle(number: nat, title: string)
      /** A paragraph of body text, as HTML. */
    | Body(html: string)
    | PageBreak
      /** The "Sobre este Libro" heading of the back cover. */
    | BackCoverTitle
      /** The blurb paragraph of the back cover, as HTML. */
    | Blurb(html: string)

  /** The bookmark (and anchor) name of chapter `n`. */
  function Anchor(n: nat): (r: string)
    ensures Text.StartsWith(r, "chapter_")
  {
    "chapter_" + Text.NatToString(n)
  }

  predicate IsTitle(f: Flowable) { f.ChapterTitle? }

  predicate IsBody(f: Flowable) { f.Body? }

  /** The elements of `xs` that `keep` selects, in order. */
  function Keep<T>(xs: seq<T>, keep: T -> bool): seq<T> {
    if xs == [] then [] else Keep(xs[..|xs| - 1], keep) + (if keep(xs[|xs| - 1]) then [xs[|xs| - 1]] else [])
  }

  lemma {:induction false} KeepConcat<T>(a: seq<T>, b: seq<T>, keep: T -> bool)
    ensures Keep(a + b, keep) == Keep(a, keep) + Keep(b, keep)
    decreases |b|
  {
    if b == [] {
      assert a + b == a;
    } else {
      var b' := b[..|b| - 1];
      assert (a + b)[..|a + b| - 1] == a + b';
      assert (a + b)[|a + b| - 1] == b[|b| - 1];
      KeepConcat(a, b', keep);
    }
  }

  // ---------------------------------------------------------------- parsing a manuscript

  /** How `parse_manuscript` treats a line, once stripped. */
  datatype LineKind = ChapterLine | BlankLine | TextLine | DroppedLine

  /**
   * A line starting with "##" but not "###" is a chapter title; an empty line
   * ends a paragraph; a line not starting with '#' is text; any other line
   * ('#', "# x", "###…") is dropped.
   */
  function Classify(s: string): LineKind {
    if Text.StartsWith(s, "##") && !Text.StartsWith(s, "###") then ChapterLine
    else if s == [] then BlankLine
    else if !Text.StartsWith(s, "#") then TextLine
    else DroppedLine
  }

  /** The four kinds of line, character by character. */
  lemma ClassifyKinds(s: string)
    ensures Classify(s) == ChapterLine <==> |s| >= 2 && s[0] == '#' && s[1] == '#' && (|s| == 2 || s[2] != '#')
    ensures Classify(s) == BlankLine <==> s == []
    ensures Classify(s) == TextLine <==> s != [] && s[0] != '#'
    ensures Classify(s) == DroppedLine <==> s != [] && s[0] == '#' && !(|s| >= 2 && s[1] == '#' && (|s| == 2 || s[2] != '#'))
  {
    assert Text.StartsWith(s, "#") <==> s != [] && s[0] == '#';
    assert Text.StartsWith(s, "##") <==> |s| >= 2 && s[0] == '#' && s[1] == '#';
    assert Text.StartsWith(s, "###") <==> |s| >= 3 && s[0] == '#' && s[1] == '#' && s[2] == '#';
  }

  /** Python's `s.lstrip('#')`. */
  function DropHashes(s: string): string
    decreases |s|
  {
    if s != [] && s[0] == '#' then DropHashes(s[1..]) else s
  }

  /** `lstrip('#')` removes the leading run of '#' and nothing else. */
  lemma {:induction false} DropHashesShape(s: string)
    ensures DropHashes(s) == [] || DropHashes(s)[0] != '#'
    ensures |DropHashes(s)| <= |s| && DropHashes(s) == s[|s| - |DropHashes(s)|..]
    ensures forall i :: 0 <= i < |s| - |DropHashes(s)| ==> s[i] == '#'
    decreases |s|
  {
    if s != [] && s[0] == '#' {
      var t := s[1..];
      DropHashesShape(t);
      var d := DropHashes(t);
      assert DropHashes(s) == d;
      assert d == t[|t| - |d|..] == s[|s| - |d|..];
      assert forall i :: 1 <= i < |s| - |d| ==> s[i] == t[i - 1];
    } else {
      assert s == s[0..];
    }
  }

  /** The title of a chapter line: without its leading '#'s, then stripped. */
  function ChapterName(s: string): string {
    Text.Strip(DropHashes(s))
  }

  /** The parser's state: the chapters seen, the buffered text lines, the story so far. */
  datatype Parsing = Parsing(
    chapters: nat,
    buffer: seq<string>,
    story: seq<Flowable>,
    /** The text lines of every paragraph flushed so far, for the proofs about paragraphs. */
    paragraphs: seq<seq<string>>)

  const Start := Parsing(0, [], [], [])

  /**
   * How the parser renders what it reads: a buffered paragraph to the HTML of
   * its body, a stripped chapter line to the HTML of its title.
   */
  datatype Renderer = Renderer(paragraph: seq<string> -> string, heading: string -> string)

  /** `_process_markdown` of the lines joined by single spaces, and `_escape_html` of the chapter name. */
  function Exporting(emphasis: Emphasis): Renderer {
    Renderer(buffer => ProcessMarkdown(emphasis, Text.Join(" ", buffer)), TitleHtml)
  }

  /** The title of a stripped chapter line, escaped. */
  function TitleHtml(s: string): string {
    Escaped(ChapterName(s))
  }

  /** The body paragraph of a buffer, unless the buffer is empty or renders to nothing. */
  function Paragraph(r: Renderer, buffer: seq<string>): (ps: seq<Flowable>)
    ensures |ps| <= 1
    ensures ps == [] <==> buffer == [] || r.paragraph(buffer) == []
    ensures ps != [] ==> ps == [Body(r.paragraph(buffer))]
  {
    if buffer == [] then []
    else
      var html := r.paragraph(buffer);
      if html != [] then [Body(html)] else []
  }

  /** Ends the current paragraph: a non-empty buffer becomes a body paragraph, unless it renders to nothing. */
  function Flush(r: Renderer, p: Parsing): (q: Parsing)
    ensures q.chapters == p.chapters && q.buffer == []
    ensures q.story == p.story + Paragraph(r, p.buffer)
    ensures q.paragraphs == p.paragraphs + (if p.buffer == [] then [] else [p.buffer])
  {
    if p.buffer == [] then p
    else Parsing(p.chapters, [], p.story + Paragraph(r, p.buffer), p.paragraphs + [p.buffer])
  }

  /** One line of the manuscript. */
  function Step(r: Renderer, p: Parsing, line: string): Parsing {
    var s := Text.Strip(line);
    StepAs(r, p, s, Classify(s))
  }

  /** The stripped line `s`, of kind `k`. */
  function StepAs(r: Renderer, p: Parsing, s: string, k: LineKind): Parsing {
    match k
    case ChapterLine =>
      var f := Flush(r, p);
      f.(chapters := f.chapters + 1, story := f.story + [ChapterTitle(f.chapters + 1, r.heading(s))])
    case BlankLine => Flush(r, p)
    case TextLine => p.(buffer := p.buffer + [s])
    case DroppedLine => p
  }

  /** The state after the given lines, from the start. */
  function Parsed(r: Renderer, lines: seq<string>): Parsing {
    if lines == [] then Start else Step(r, Parsed(r, lines[..|lines| - 1]), lines[|lines| - 1])
  }

  /** The lines of a manuscript, as `content.split('\n')`. */
  function Lines(content: string): seq<string> {
    Text.Split(content, "\n")
  }

  /** What `parse_manuscript` appends to the story for a manuscript's lines. */
  function ManuscriptStory(r: Renderer, lines: seq<string>): seq<Flowable> {
    Flush(r, Parsed(r, lines)).story
  }

  /** The stripped chapter lines among `lines`, in order. */
  function TitleLines(lines: seq<string>): seq<string> {
    if lines == [] then []
    else
      var s := Text.Strip(lines[|lines| - 1]);
      TitleLines(lines[..|lines| - 1]) + (if Classify(s) == ChapterLine then [s] else [])
  }

  /** The stripped text lines among `lines`, in order. */
  function TextLines(lines: seq<string>): seq<string> {
    if lines == [] then []
    else
      var s := Text.Strip(lines[|lines| - 1]);
      TextLines(lines[..|lines| - 1]) + (if Classify(s) == TextLine then [s] else [])
  }

  /** Chapter `k + 1` for the k-th title line. */
  function Numbered(r: Renderer, titles: seq<string>): (ts: seq<Flowable>)
    ensures |ts| == |titles|
  {
    seq(|titles|, k requires 0 <= k < |titles| => ChapterTitle(k + 1, r.heading(titles[k])))
  }

  /** The paragraphs, one after the other. */
  function Flatten(gs: seq<seq<string>>): seq<string> {
    if gs == [] then [] else Flatten(gs[..|gs| - 1]) + gs[|gs| - 1]
  }

  /** The body paragraphs the given buffers render to. */
  function Rendered(r: Renderer, gs: seq<seq<string>>): seq<Flowable> {
    if gs == [] then [] else Rendered(r, gs[..|gs| - 1]) + Paragraph(r, gs[|gs| - 1])
  }

  lemma FlushKeepsTitles(r: Renderer, p: Parsing)
    ensures Keep(Flush(r, p).story, IsTitle) == Keep(p.story, IsTitle)
  {
    KeepConcat(p.story, Paragraph(r, p.buffer), IsTitle);
    assert Keep(Paragraph(r, p.buffer), IsTitle) == [] by {
      var r := Paragraph(r, p.buffer);
      if r != [] {
        assert r[..0] == [];
      }
    }
  }

  /** A line adds a chapter exactly when it is a chapter line. */
  lemma StepCounts(r: Renderer, p: Parsing, s: string, k: LineKind)
    ensures StepAs(r, p, s, k).chapters == p.chapters + (if k == ChapterLine then 1 else 0)
  {
  }

  /** A chapter line adds its title, numbered after those before it; no other line adds one. */
  lemma StepTitles(r: Renderer, p: Parsing, s: string, k: LineKind)
    ensures k == ChapterLine ==>
      Keep(StepAs(r, p, s, k).story, IsTitle)
      == Keep(p.story, IsTitle) + [ChapterTitle(p.chapters + 1, r.heading(s))]
    ensures k != ChapterLine ==> Keep(StepAs(r, p, s, k).story, IsTitle) == Keep(p.story, IsTitle)
  {
    FlushKeepsTitles(r, p);
    if k == ChapterLine {
      var f := Flush(r, p);
      var t := ChapterTitle(f.chapters + 1, r.heading(s));
      KeepConcat(f.story, [t], IsTitle);
      assert [t][..0] == [];
    }
  }

  lemma NumberedSnoc(r: Renderer, titles: seq<string>, s: string)
    ensures Numbered(r, titles + [s]) == Numbered(r, titles) + [ChapterTitle(|titles| + 1, r.heading(s))]
  {
    var a, b := Numbered(r, titles + [s]), Numbered(r, titles) + [ChapterTitle(|titles| + 1, r.heading(s))];
    forall k | 0 <= k < |a|
      ensures a[k] == b[k]
    {
      if k < |titles| {
        assert (titles + [s])[k] == titles[k];
      }
    }
  }

  /** The chapters of a state agree with the chapter lines read to reach it. */
  predicate TitlesAgree(r: Renderer, p: Parsing, lines: seq<string>) {
    p.chapters == |TitleLines(lines)| && Keep(p.story, IsTitle) == Numbered(r, TitleLines(lines))
  }

  lemma StepKeepsTitlesAgree(r: Renderer, p: Parsing, lines: seq<string>, line: string)
    requires TitlesAgree(r, p, lines)
    ensures TitlesAgree(r, Step(r, p, line), lines + [line])
  {
    var s := Text.Strip(line);
    assert (lines + [line])[..|lines|] == lines;
    assert TitleLines(lines + [line]) == TitleLines(lines) + (if Classify(s) == ChapterLine then [s] else []);
    StepCounts(r, p, s, Classify(s));
    StepTitles(r, p, s, Classify(s));
    if Classify(s) == ChapterLine {
      NumberedSnoc(r, TitleLines(lines), s);
    }
  }

  lemma {:induction false} ParsedTitlesAgree(r: Renderer, lines: seq<string>)
    ensures TitlesAgree(r, Parsed(r, lines), lines)
    decreases |lines|
  {
    if lines != [] {
      var front := lines[..|lines| - 1];
      ParsedTitlesAgree(r, front);
      StepKeepsTitlesAgree(r, Parsed(r, front), front, lines[|lines| - 1]);
      Problems.InitLast(lines);
    }
  }

  /**
   * The k-th chapter line of the manuscript becomes chapter k + 1, bookmarked
   * `chapter_<k + 1>` and titled with the line's text after its '#'s,
   * stripped and escaped; no other line makes a chapter title.
   */
  lemma ChaptersNumbered(emphasis: Emphasis, lines: seq<string>)
    ensures var titles, chapters := Keep(ManuscriptStory(Exporting(emphasis), lines), IsTitle), TitleLines(lines);
      && |titles| == |chapters|
      && forall k :: 0 <= k < |titles| ==> titles[k] == ChapterTitle(k + 1, EscapeHtml(ChapterName(chapters[k])))
  {
    var r := Exporting(emphasis);
    var p := Parsed(r, lines);
    ParsedTitlesAgree(r, lines);
    FlushKeepsTitles(r, p);
    forall k | 0 <= k < |TitleLines(lines)|
      ensures TitleHtml(TitleLines(lines)[k]) == EscapeHtml(ChapterName(TitleLines(lines)[k]))
    {
      EscapeHtmlIsEscaped(ChapterName(TitleLines(lines)[k]));
    }
  }

  /** A dropped line changes nothing: it neither ends the paragraph nor joins it. */
  lemma DroppedLineIgnored(r: Renderer, p: Parsing, line: string)
    requires Classify(Text.Strip(line)) == DroppedLine
    ensures Step(r, p, line) == p
  {
  }

  /** A blank line ends the paragraph being buffered. */
  lemma BlankLineFlushes(r: Renderer, p: Parsing, line: string)
    requires Classify(Text.Strip(line)) == BlankLine
    ensures Step(r, p, line) == Flush(r, p)
    ensures Step(r, p, line).buffer == []
  {
  }

  /** A text line joins the paragraph being buffered, stripped, and adds nothing to the story yet. */
  lemma TextLineBuffered(r: Renderer, p: Parsing, line: string)
    requires Classify(Text.Strip(line)) == TextLine
    ensures Step(r, p, line).buffer == p.buffer + [Text.Strip(line)]
    ensures Step(r, p, line).story == p.story
  {
  }

  lemma ParagraphBodies(r: Renderer, buffer: seq<string>)
    ensures Keep(Paragraph(r, buffer), IsBody) == Paragraph(r, buffer)
  {
    var r := Paragraph(r, buffer);
    if r != [] {
      assert r[..0] == [];
    }
  }

  lemma FlattenSnoc(gs: seq<seq<string>>, g: seq<string>)
    ensures Flatten(gs + [g]) == Flatten(gs) + g
  {
    assert (gs + [g])[..|gs|] == gs;
  }

  lemma RenderedSnoc(r: Renderer, gs: seq<seq<string>>, g: seq<string>)
    ensures Rendered(r, gs + [g]) == Rendered(r, gs) + Paragraph(r, g)
  {
    assert (gs + [g])[..|gs|] == gs;
  }

  /**
   * The paragraphs of a state and its buffer hold, in order, the text lines
   * `texts`, each paragraph non-empty; its body paragraphs are those the
   * flushed paragraphs render to.
   */
  predicate ParagraphsAgree(r: Renderer, p: Parsing, texts: seq<string>) {
    && Flatten(p.paragraphs) + p.buffer == texts
    && (forall i :: 0 <= i < |p.paragraphs| ==> p.paragraphs[i] != [])
    && Keep(p.story, IsBody) == Rendered(r, p.paragraphs)
  }

  lemma FlushKeepsParagraphsAgree(r: Renderer, p: Parsing, texts: seq<string>)
    requires ParagraphsAgree(r, p, texts)
    ensures ParagraphsAgree(r, Flush(r, p), texts)
  {
    if p.buffer != [] {
      var f := Flush(r, p);
      FlattenSnoc(p.paragraphs, p.buffer);
      RenderedSnoc(r, p.paragraphs, p.buffer);
      KeepConcat(p.story, Paragraph(r, p.buffer), IsBody);
      ParagraphBodies(r, p.buffer);
      assert f.paragraphs == p.paragraphs + [p.buffer];
    }
  }

  lemma ChapterKeepsParagraphsAgree(r: Renderer, p: Parsing, texts: seq<string>, s: string)
    requires ParagraphsAgree(r, p, texts)
    ensures ParagraphsAgree(r, StepAs(r, p, s, ChapterLine), texts)
  {
    var f := Flush(r, p);
    FlushKeepsParagraphsAgree(r, p, texts);
    var t := ChapterTitle(f.chapters + 1, r.heading(s));
    KeepConcat(f.story, [t], IsBody);
    assert [t][..0] == [];
    assert Keep([t], IsBody) == [];
  }

  lemma StepKeepsParagraphsAgree(r: Renderer, p: Parsing, texts: seq<string>, s: string, k: LineKind)
    requires ParagraphsAgree(r, p, texts)
    ensures ParagraphsAgree(r, StepAs(r, p, s, k), texts + (if k == TextLine then [s] else []))
  {
    match k
    case ChapterLine =>
      assert texts + [] == texts;
      ChapterKeepsParagraphsAgree(r, p, texts, s);
    case BlankLine =>
      assert texts + [] == texts;
      FlushKeepsParagraphsAgree(r, p, texts);
    case TextLine =>
      assert Flatten(p.paragraphs) + (p.buffer + [s]) == (Flatten(p.paragraphs) + p.buffer) + [s];
    case DroppedLine =>
      assert texts + [] == texts;
  }

  lemma {:induction false} ParsedParagraphsAgree(r: Renderer, lines: seq<string>)
    ensures ParagraphsAgree(r, Parsed(r, lines), TextLines(lines))
    decreases |lines|
  {
    if lines != [] {
      var front, line := lines[..|lines| - 1], lines[|lines| - 1];
      var s := Text.Strip(line);
      ParsedParagraphsAgree(r, front);
      assert TextLines(lines) == TextLines(front) + (if Classify(s) == TextLine then [s] else []);
      StepKeepsParagraphsAgree(r, Parsed(r, front), TextLines(front), s, Classify(s));
    }
  }

  /**
   * Every text line of the manuscript, stripped and in order, lands in exactly
   * one paragraph, no paragraph is empty, and the body paragraphs of the story
   * are those the paragraphs render to (a paragraph rendering to nothing is
   * left out).
   */
  lemma ParagraphsPreserved(r: Renderer, lines: seq<string>)
    ensures var q := Flush(r, Parsed(r, lines));
      && Flatten(q.paragraphs) == TextLines(lines)
      && (forall i :: 0 <= i < |q.paragraphs| ==> q.paragraphs[i] != [])
      && Keep(ManuscriptStory(r, lines), IsBody) == Rendered(r, q.paragraphs)
  {
    var p := Parsed(r, lines);
    ParsedParagraphsAgree(r, lines);
    FlushKeepsParagraphsAgree(r, p, TextLines(lines));
  }

  predicate IsText(f: Flowable) { f.ChapterTitle? || f.Body? }

  /** A story of chapter titles and body paragraphs only. */
  predicate OnlyText(story: seq<Flowable>) {
    forall i :: 0 <= i < |story| ==> IsText(story[i])
  }

  lemma OnlyTextAppend(a: seq<Flowable>, b: seq<Flowable>)
    requires OnlyText(a) && OnlyText(b)
    ensures OnlyText(a + b)
  {
    assert forall i :: 0 <= i < |a + b| ==> (a + b)[i] == if i < |a| then a[i] else b[i - |a|];
  }

  /** A line adds at most a paragraph and a chapter title. */
  lemma StepAsOnlyText(r: Renderer, p: Parsing, s: string, k: LineKind)
    requires OnlyText(p.story)
    ensures OnlyText(StepAs(r, p, s, k).story)
  {
    var f := Flush(r, p);
    OnlyTextAppend(p.story, Paragraph(r, p.buffer));
    if k == ChapterLine {
      OnlyTextAppend(f.story, [ChapterTitle(f.chapters + 1, r.heading(s))]);
    }
  }

  lemma {:induction false} ParsedOnlyText(r: Renderer, lines: seq<string>)
    ensures forall i :: 0 <= i < |Parsed(r, lines).story| ==> IsText(Parsed(r, lines).story[i])
    decreases |lines|
  {
    if lines != [] {
      var front := lines[..|lines| - 1];
      var s := Text.Strip(lines[|lines| - 1]);
      ParsedOnlyText(r, front);
      var p := Parsed(r, front);
      assert OnlyText(p.story);
      StepAsOnlyText(r, p, s, Classify(s));
      assert Parsed(r, lines) == StepAs(r, p, s, Classify(s));
      assert OnlyText(Parsed(r, lines).story);
    }
  }

  /** The manuscript contributes chapter titles and body paragraphs only. */
  lemma ManuscriptOnlyText(r: Renderer, lines: seq<string>)
    ensures forall i :: 0 <= i < |ManuscriptStory(r, lines)| ==> IsText(ManuscriptStory(r, lines)[i])
  {
    ParsedOnlyText(r, lines);
  }

  // ---------------------------------------------------------------- back matter and export

  /** `memory.get('metadata', {})`. */
  function MetadataOf(memory: seq<Member>): JsonValue {
    MemberOr(memory, "metadata", JObject([]))
  }

  /** `metadata.get('blurb', '')`, which raises when the metadata is not a dict. */
  function BlurbOf(memory: seq<Member>): (r: Result<JsonValue>)
    ensures r.Ok? <==> MetadataOf(memory).JObject?
  {
    Get(MetadataOf(memory), "blurb", JString(""))
  }

  /**
   * `add_back_matter`: a page break, the back-cover heading and the blurb as
   * markdown, for a truthy blurb; nothing for a falsy one. A blurb that is
   * truthy but not a string fails in `_escape_html`.
   */
  function BackMatter(emphasis: Emphasis, memory: seq<Member>): Result<seq<Flowable>> {
    match BlurbOf(memory)
    case Raise(e) => Raise(e)
    case Ok(b) =>
      if !Truthy(b) then Ok([])
      else if b.JString? then Ok([PageBreak, BackCoverTitle, Blurb(ProcessMarkdown(emphasis, b.s))])
      else Raise(AttributeError)
  }

  /** The back cover depends on the blurb alone: none for a falsy blurb, the blurb's markdown for a non-empty string. */
  lemma BackMatterGate(emphasis: Emphasis, memory: seq<Member>)
    ensures BackMatter(emphasis, memory) == Ok([]) <==> BlurbOf(memory).Ok? && !Truthy(BlurbOf(memory).value)
    ensures BackMatter(emphasis, memory).Ok? && BackMatter(emphasis, memory).value != [] <==>
      BlurbOf(memory).Ok? && BlurbOf(memory).value.JString? && BlurbOf(memory).value.s != []
    ensures BlurbOf(memory).Ok? && BlurbOf(memory).value.JString? && BlurbOf(memory).value.s != [] ==>
      BackMatter(emphasis, memory)
      == Ok([PageBreak, BackCoverTitle, Blurb(emphasis(Escaped(BlurbOf(memory).value.s)))])
    ensures BackMatter(emphasis, memory).Raise? <==>
      !MetadataOf(memory).JObject? || (Truthy(BlurbOf(memory).value) && !BlurbOf(memory).value.JString?)
  {
  }

  lemma SubstCharRemoves(s: string, c: char, rep: string)
    requires c !in rep
    ensures c !in SubstChar(s, c, rep)
    decreases |s|
  {
    if s != [] {
      SubstCharRemoves(s[1..], c, rep);
    }
  }

  /** The document title: `metadata.get('title', 'Libro')` with '_' read as ' '; only a string has `replace`. */
  function DocumentTitle(memory: seq<Member>): (r: Result<string>)
    ensures r.Ok? ==> '_' !in r.value
  {
    match Get(MetadataOf(memory), "title", JString("Libro"))
    case Raise(e) => Raise(e)
    case Ok(t) =>
      if t.JString? then
        ReplaceOneChar(t.s, '_', " ");
        SubstCharRemoves(t.s, '_', " ");
        Ok(Text.Replace(t.s, "_", " "))
      else Raise(AttributeError)
  }

  /**
   * What the cover step can raise. With a cover image (`cover.png` next to
   * the PDF, loading as an image) nothing; otherwise `_add_text_cover` calls
   * `replace` on `metadata.get('style_profile', 'balanced_neutral')`, which
   * only a string has. The cover's own title reads the same `title` key as
   * `DocumentTitle`, so it cannot raise once that has not.
   */
  function CoverProfile(memory: seq<Member>, coverImage: bool): (r: Result<()>)
    ensures r.Raise? ==> r.error == AttributeError
    ensures r.Raise? <==>
      !coverImage
      && (!MetadataOf(memory).JObject?
          || !MemberOr(MetadataOf(memory).members, "style_profile", JString("balanced_neutral")).JString?)
  {
    if coverImage then Ok(())
    else
      match Get(MetadataOf(memory), "style_profile", JString("balanced_neutral"))
      case Raise(e) => Raise(e)
      case Ok(profile) => if profile.JString? then Ok(()) else Raise(AttributeError)
  }

  /** How the manuscript file turns out when opened. */
  datatype Manuscript =
    | Missing
      /** It exists but cannot be read (permissions, an encoding error). */
    | Unreadable
    | Readable(content: string)

  /** The message `export` returns, by kind. */
  datatype ExportMessage =
      /** "No hay un manuscrito para exportar": the file does not exist. */
    | NoManuscript
      /** "Error al procesar el manuscrito": `parse_manuscript` failed. */
    | ParseFailed
      /** "PDF exportado con éxito", naming the file. */
    | Exported(filename: string)
      /** "Error al exportar PDF", for an exception inside the export. */
    | ExportFailed(error: Exception)

  /** The message `export` returns for the given inputs. */
  function ExportOutcome(emphasis: Emphasis, filename: string, manuscript: Manuscript, memory: seq<Member>, coverImage: bool): ExportMessage {
    if manuscript.Missing? then NoManuscript
    else if DocumentTitle(memory).Raise? then ExportFailed(DocumentTitle(memory).error)
    else if CoverProfile(memory, coverImage).Raise? then ExportFailed(CoverProfile(memory, coverImage).error)
    else if !manuscript.Readable? then ParseFailed
    else if BackMatter(emphasis, memory).Raise? then ExportFailed(BackMatter(emphasis, memory).error)
    else Exported(filename)
  }

  /**
   * A missing manuscript is reported before anything else; an export
   * succeeds exactly when the manuscript reads, the title is a string, the
   * cover can be built and so can the back matter. Without a cover image a
   * `style_profile` that is not a string fails the export before the
   * manuscript is read.
   */
  lemma ExportOutcomeCases(emphasis: Emphasis, filename: string, manuscript: Manuscript, memory: seq<Member>, coverImage: bool)
    ensures ExportOutcome(emphasis, filename, manuscript, memory, coverImage) == NoManuscript <==> manuscript.Missing?
    ensures ExportOutcome(emphasis, filename, manuscript, memory, coverImage).Exported? <==>
      manuscript.Readable? && DocumentTitle(memory).Ok? && CoverProfile(memory, coverImage).Ok?
      && BackMatter(emphasis, memory).Ok?
    ensures ExportOutcome(emphasis, filename, manuscript, memory, coverImage).Exported? ==>
      ExportOutcome(emphasis, filename, manuscript, memory, coverImage).filename == filename
    ensures ExportOutcome(emphasis, filename, manuscript, memory, coverImage) == ParseFailed <==>
      manuscript.Unreadable? && DocumentTitle(memory).Ok? && CoverProfile(memory, coverImage).Ok?
    ensures !manuscript.Missing? && DocumentTitle(memory).Ok? && CoverProfile(memory, coverImage).Raise? ==>
      ExportOutcome(emphasis, filename, manuscript, memory, coverImage) == ExportFailed(AttributeError)
  {
  }

  /** The state after one more line. */
  lemma ParsedSnoc(r: Renderer, lines: seq<string>, i: nat)
    requires i < |lines|
    ensures Parsed(r, lines[..i + 1]) == StepAs(r, Parsed(r, lines[..i]), Text.Strip(lines[i]), Classify(Text.Strip(lines[i])))
  {
    assert lines[..i + 1][..i] == lines[..i];
  }

  /** What one line adds to the story. */
  lemma StepStory(r: Renderer, p: Parsing, s: string, k: LineKind)
    ensures k == ChapterLine ==>
      StepAs(r, p, s, k).story == p.story + Paragraph(r, p.buffer) + [ChapterTitle(p.chapters + 1, r.heading(s))]
    ensures k == BlankLine ==> StepAs(r, p, s, k).story == p.story + Paragraph(r, p.buffer)
    ensures k == TextLine || k == DroppedLine ==> StepAs(r, p, s, k).story == p.story
  {
  }

  /** What each kind of line does to the chapter count and the paragraph buffer. */
  lemma StepCounters(r: Renderer, p: Parsing, s: string, k: LineKind)
    ensures k == ChapterLine ==> StepAs(r, p, s, k).chapters == p.chapters + 1 && StepAs(r, p, s, k).buffer == []
    ensures k == BlankLine ==> StepAs(r, p, s, k).chapters == p.chapters && StepAs(r, p, s, k).buffer == []
    ensures k == TextLine ==> StepAs(r, p, s, k).chapters == p.chapters && StepAs(r, p, s, k).buffer == p.buffer + [s]
    ensures k == DroppedLine ==> StepAs(r, p, s, k) == p
  {
  }

  /** `PDFExporter`: the inputs of one export and the story it builds. */
  class Exporter {
    /** `os.path.basename(pdf_path)`. */
    const filename: string
    const manuscript: Manuscript
    const memory: seq<Member>
    const emphasis: Emphasis
    /** `cover.png` exists next to the PDF and loads as an image. */
    const coverImage: bool
    var story: seq<Flowable>

    constructor(filename: string, manuscript: Manuscript, memory: seq<Member>, emphasis: Emphasis, coverImage: bool)
      ensures this.filename == filename && this.manuscript == manuscript
      ensures this.memory == memory && this.emphasis == emphasis && this.coverImage == coverImage
      ensures story == []
    {
      this.filename := filename;
      this.manuscript := manuscript;
      this.memory := memory;
      this.emphasis := emphasis;
      this.coverImage := coverImage;
      story := [];
    }

    /** Appends the paragraph of a non-empty buffer, unless it renders to nothing. */
    method AppendParagraph(buffer: seq<string>)
      modifies this
      ensures story == old(story) + Paragraph(Exporting(emphasis), buffer)
    {
      if buffer != [] {
        var html := ProcessMarkdown(emphasis, Text.Join(" ", buffer));
        if html != [] {
          story := story + [Body(html)];
        }
      }
    }

    /** `parse_manuscript`: false for a missing or unreadable file, else the manuscript's story is appended. */
    method ParseManuscript() returns (ok: bool)
      modifies this
      ensures ok <==> manuscript.Readable?
      ensures ok ==> story == old(story) + ManuscriptStory(Exporting(emphasis), Lines(manuscript.content))
      ensures !ok ==> story == old(story)
    {
      if !manuscript.Readable? {
        return false;
      }
      var lines := Lines(manuscript.content);
      ParseLines(lines);
      return true;
    }

    /** The loop of `parse_manuscript` over the manuscript's lines. */
    method ParseLines(lines: seq<string>)
      modifies this
      ensures story == old(story) + ManuscriptStory(Exporting(emphasis), lines)
    {
      ghost var r := Exporting(emphasis);
      ghost var start := story;
      ghost var q := Start;
      var chapterCount := 0;
      var buffer: seq<string> := [];
      for i := 0 to |lines|
        invariant q == Parsed(r, lines[..i])
        invariant q.chapters == chapterCount && q.buffer == buffer
        invariant story == start + q.story
      {
        var stripped := Text.Strip(lines[i]);
        var kind := Classify(stripped);
        ParsedSnoc(r, lines, i);
        chapterCount, buffer := ParseLine(stripped, kind, q, start, chapterCount, buffer);
        q := StepAs(r, q, stripped, kind);
      }
      assert lines[..|lines|] == lines;
      AppendParagraph(buffer);
      Problems.ConcatAssoc(start, q.story, Paragraph(r, q.buffer));
    }

    /** One stripped line of kind `kind`, from the parsing state `q`: the story and the counters follow `StepAs`. */
    method ParseLine(stripped: string, kind: LineKind, ghost q: Parsing, ghost start: seq<Flowable>,
                     chapterCount: int, buffer: seq<string>) returns (count: int, rest: seq<string>)
      requires story == start + q.story && q.chapters == chapterCount && q.buffer == buffer
      modifies this
      ensures var n := StepAs(Exporting(emphasis), q, stripped, kind);
        story == start + n.story && n.chapters == count && n.buffer == rest
    {
      StepStory(Exporting(emphasis), q, stripped, kind);
      StepCounters(Exporting(emphasis), q, stripped, kind);
      count, rest := chapterCount, buffer;
      if kind == ChapterLine {
        count := ParseChapter(stripped, q, start, chapterCount, buffer);
        rest := [];
      } else if kind == BlankLine {
        ParseBlank(q, start, buffer);
        rest := [];
      } else if kind == TextLine {
        rest := buffer + [stripped];
      }
    }

    /** A chapter line closes the paragraph and appends the numbered, escaped title. */
    method ParseChapter(stripped: string, ghost q: Parsing, ghost start: seq<Flowable>, chapterCount: int,
                        buffer: seq<string>) returns (count: int)
      requires story == start + q.story && q.chapters == chapterCount && q.buffer == buffer
      modifies this
      ensures count == chapterCount + 1
      ensures story == start + (q.story + Paragraph(Exporting(emphasis), q.buffer)
        + [ChapterTitle(count, Exporting(emphasis).heading(stripped))])
    {
      ghost var r := Exporting(emphasis);
      AppendParagraph(buffer);
      count := chapterCount + 1;
      var title := ChapterTitle(count, EscapeHtml(ChapterName(stripped)));
      EscapeHtmlIsEscaped(ChapterName(stripped));
      story := story + [title];
      assert r.heading(stripped) == TitleHtml(stripped);
      Problems.ConcatAssoc(start, q.story, Paragraph(r, q.buffer));
      Problems.ConcatAssoc(start, q.story + Paragraph(r, q.buffer), [title]);
    }

    /** A blank line closes the paragraph. */
    method ParseBlank(ghost q: Parsing, ghost start: seq<Flowable>, buffer: seq<string>)
      requires story == start + q.story && q.buffer == buffer
      modifies this
      ensures story == start + (q.story + Paragraph(Exporting(emphasis), q.buffer))
    {
      AppendParagraph(buffer);
      Problems.ConcatAssoc(start, q.story, Paragraph(Exporting(emphasis), q.buffer));
    }

    /** `add_cover_page`: the image cover, or the text cover, which needs a string style profile. */
    method AddCoverPage() returns (r: Result<()>)
      modifies this
      ensures r == CoverProfile(memory, coverImage)
      ensures r.Ok? ==> story == old(story) + [CoverPage]
      ensures r.Raise? ==> story == old(story)
    {
      if !coverImage {
        var profile := Get(MetadataOf(memory), "style_profile", JString("balanced_neutral"));
        if profile.Raise? {
          return Raise(profile.error);
        }
        if !profile.value.JString? {
          return Raise(AttributeError);
        }
      }
      story := story + [CoverPage];
      return Ok(());
    }

    /** `add_back_matter`: the back cover is appended when the blurb is truthy. */
    method AddBackMatter() returns (r: Result<seq<Flowable>>)
      modifies this
      ensures r == BackMatter(emphasis, memory)
      ensures r.Ok? ==> story == old(story) + r.value
      ensures r.Raise? ==> story == old(story)
    {
      var blurb := BlurbOf(memory);
      if blurb.Raise? {
        return Raise(blurb.error);
      }
      if Truthy(blurb.value) {
        if !blurb.value.JString? {
          return Raise(AttributeError);
        }
        var html := ProcessMarkdown(emphasis, blurb.value.s);
        story := story + [PageBreak, BackCoverTitle, Blurb(html)];
        return Ok([PageBreak, BackCoverTitle, Blurb(html)]);
      }
      return Ok([]);
    }

    /**
     * The part of `export` after the cover: the table of contents, the
     * manuscript and the back cover.
     */
    method AddContents() returns (msg: ExportMessage)
      requires !manuscript.Missing?
      modifies this
      ensures msg == if manuscript.Unreadable? then ParseFailed
                     else if BackMatter(emphasis, memory).Raise? then ExportFailed(BackMatter(emphasis, memory).error)
                     else Exported(filename)
      ensures msg == ParseFailed ==> story == old(story) + [TableOfContents]
      ensures msg.Exported? ==>
        story == old(story) + [TableOfContents]
                 + ManuscriptStory(Exporting(emphasis), Lines(manuscript.content)) + BackMatter(emphasis, memory).value
    {
      story := story + [TableOfContents];
      var ok := ParseManuscript();
      if !ok {
        return ParseFailed;
      }
      var back := AddBackMatter();
      if back.Raise? {
        return ExportFailed(back.error);
      }
      return Exported(filename);
    }

    /**
     * `export`: the cover, the table of contents, the manuscript and the back
     * cover, in that order; the message says how it went.
     */
    method Export() returns (msg: ExportMessage)
      modifies this
      ensures msg == ExportOutcome(emphasis, filename, manuscript, memory, coverImage)
      ensures manuscript.Missing? || DocumentTitle(memory).Raise? || CoverProfile(memory, coverImage).Raise? ==>
        story == old(story)
      ensures msg == ParseFailed ==> story == old(story) + [CoverPage, TableOfContents]
      ensures msg.Exported? ==>
        story == old(story) + [CoverPage, TableOfContents]
                 + ManuscriptStory(Exporting(emphasis), Lines(manuscript.content)) + BackMatter(emphasis, memory).value
    {
      if manuscript.Missing? {
        return NoManuscript;
      }
      var title := DocumentTitle(memory);
      if title.Raise? {
        return ExportFailed(title.error);
      }
      var cover := AddCoverPage();
      if cover.Raise? {
        return ExportFailed(cover.error);
      }
      assert old(story) + [CoverPage] + [TableOfContents] == old(story) + [CoverPage, TableOfContents];
      msg := AddContents();
    }
  }
}
