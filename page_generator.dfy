/**
 * The page generator: builds the full page prompt (the page prompt plus the
 * contextual instructions of the page's position), calls the service once,
 * rejects error and blank answers, and cleans the accepted text: code fences
 * removed, leaked chapter headings dropped, paragraphs stripped and joined
 * by one blank line. Also the integer quality counts of a page.
 */
module PageGenerator {
  import opened Wrappers
  import Text
  import PromptBuilder
  import Narrative
  import GroqCall

  // ---------------------------------------------------------------- position and contextual instructions

  /** Where a page sits in its chapter. */
  datatype Position = Opening | Middle | Closing

  /** Page 1 opens the chapter (even when it is also its last page); otherwise the last page closes it. */
  function PagePosition(page: int, total: int): Position {
    if page == 1 then Opening
    else if page == total then Closing
    else Middle
  }

  /** The position rule and the prompt builder's note rule agree on the first and the last page. */
  lemma PositionAgreesWithNote(page: int, total: int)
    ensures PagePosition(page, total) == Opening <==> PromptBuilder.PageNote(page, total) == PromptBuilder.FirstPage
    ensures PagePosition(page, total) == Closing <==> PromptBuilder.PageNote(page, total) == PromptBuilder.LastPage
    ensures PagePosition(page, total) == Middle <==>
      PromptBuilder.PageNote(page, total) in {PromptBuilder.NearEnd, PromptBuilder.NoNote}
  {
  }

  /**
   * The text of the instruction catalogue that `get_contextual_instructions`
   * combines (instructions.py is not part of this model): one text per
   * position, one per named scene type, the pacing text for the "moderate"
   * pace the generator always asks for, and the continuity reminders.
   */
  const OpeningInstructions: string
  const MiddleInstructions: string
  const ClosingInstructions: string
  const ActionInstructions: string
  const DialogueInstructions: string
  const IntrospectionInstructions: string
  const DescriptiveInstructions: string
  const ModeratePacing: string
  const ContinuityReminders: string

  function PositionInstructions(p: Position): string {
    match p
    case Opening => OpeningInstructions
    case Middle => MiddleInstructions
    case Closing => ClosingInstructions
  }

  /** The scene text, when the scene type is one of the four named ones ("mixed" adds none). */
  function SceneInstructions(scene: string): seq<string> {
    if scene == "action" then [ActionInstructions]
    else if scene == "dialogue" then [DialogueInstructions]
    else if scene == "introspection" then [IntrospectionInstructions]
    else if scene == "descriptive" then [DescriptiveInstructions]
    else []
  }

  /** `_get_contextual_instructions`: position text, scene text, pacing and continuity, one per line. */
  function ContextualInstructions(position: Position, scene: string): string {
    Text.Join("\n", [PositionInstructions(position)] + SceneInstructions(scene) + [ModeratePacing, ContinuityReminders])
  }

  /** `_build_full_prompt`: the page prompt, a newline, and the contextual instructions. */
  function FullPrompt(builder: PromptBuilder.PromptBuilder, chapter: Narrative.Chapter, profiles: string, lastText: string,
                      context: string, page: int, total: int, scene: string): string
  {
    builder.PagePrompt(chapter, profiles, lastText, context, page, total) + "\n"
    + ContextualInstructions(PagePosition(page, total), scene)
  }

  /** The contextual instructions open with the position's text and close with the continuity reminders. */
  lemma ContextualShape(position: Position, scene: string)
    ensures Text.StartsWith(ContextualInstructions(position, scene), PositionInstructions(position) + "\n")
    ensures Text.EndsWith(ContextualInstructions(position, scene), "\n" + ContinuityReminders)
  {
    var first := PositionInstructions(position);
    var middle := SceneInstructions(scene) + [ModeratePacing];
    var rest := SceneInstructions(scene) + [ModeratePacing, ContinuityReminders];
    assert [first] + SceneInstructions(scene) + [ModeratePacing, ContinuityReminders] == [first] + rest;
    Text.JoinCons("\n", first, rest);
    var c := ContextualInstructions(position, scene);
    var t := Text.Join("\n", rest);
    assert c == first + "\n" + t;
    assert c[..|first + "\n"|] == first + "\n";
    assert rest == middle + [ContinuityReminders];
    Text.JoinSnoc("\n", middle, ContinuityReminders);
    assert |middle| > 0;
    assert t == Text.Join("\n", middle) + "\n" + ContinuityReminders;
    assert c == (first + "\n" + Text.Join("\n", middle)) + ("\n" + ContinuityReminders);
  }

  /** Whatever precedes them, the contextual instructions start right after one newline with the position's text. */
  lemma ContextAfter(base: string, position: Position, scene: string)
    ensures Text.StartsWith(base + "\n" + ContextualInstructions(position, scene), base + "\n" + PositionInstructions(position) + "\n")
  {
    ContextualShape(position, scene);
    var c := ContextualInstructions(position, scene);
    var p := PositionInstructions(position) + "\n";
    Text.StartsWithFrame(base + "\n", c, "", p);
    assert base + "\n" + c + "" == base + "\n" + c;
    Text.AppendAssoc(base, "\n", p);
    Text.AppendAssoc(base + "\n", PositionInstructions(position), "\n");
  }

  /** The full prompt is the page prompt, then one newline, then the position's instructions on a line of their own. */
  lemma FullPromptShape(builder: PromptBuilder.PromptBuilder, chapter: Narrative.Chapter, profiles: string, lastText: string,
                        context: string, page: int, total: int, scene: string)
    ensures var base := builder.PagePrompt(chapter, profiles, lastText, context, page, total);
      Text.StartsWith(FullPrompt(builder, chapter, profiles, lastText, context, page, total, scene),
                      base + "\n" + PositionInstructions(PagePosition(page, total)) + "\n")
  {
    ContextAfter(builder.PagePrompt(chapter, profiles, lastText, context, page, total), PagePosition(page, total), scene);
  }

  // ---------------------------------------------------------------- code fences

  const Fence := "```"

  /** Three backticks start at index `i` of `s`. */
  ghost predicate FenceAt(s: string, i: int) {
    0 <= i && i + 2 < |s| && s[i] == '`' && s[i + 1] == '`' && s[i + 2] == '`'
  }

  /** No "```" anywhere in `s`. */
  ghost predicate NoFence(s: string) {
    forall i :: !FenceAt(s, i)
  }

  /** The fence-free predicate is Python's `'```' not in s`. */
  lemma NoFenceIff(s: string)
    ensures NoFence(s) <==> !Text.Contains(s, Fence)
  {
    Text.ContainsIff(s, Fence);
    forall i ensures Text.OccursAt(s, Fence, i) <==> FenceAt(s, i) {
      if 0 <= i && i + 3 <= |s| {
        var w := s[i..i + 3];
        assert w[0] == s[i] && w[1] == s[i + 1] && w[2] == s[i + 2];
        if FenceAt(s, i) {
          assert w == Fence;
        }
      }
    }
  }

  /** A slice of a fence-free text is fence-free. */
  lemma NoFenceSlice(s: string, a: nat, b: nat, t: string)
    requires NoFence(s) && a <= b <= |s| && t == s[a..b]
    ensures NoFence(t)
  {
    forall i | 0 <= i && i + 2 < |t|
      ensures !FenceAt(t, i)
    {
      assert !FenceAt(s, a + i);
    }
  }

  /** Two fence-free texts stay fence-free when joined at a character that is not a backtick. */
  lemma NoFenceConcat(a: string, b: string)
    requires NoFence(a) && NoFence(b)
    requires (a != [] && a[|a| - 1] != '`') || (b != [] && b[0] != '`')
    ensures NoFence(a + b)
  {
    var t := a + b;
    forall i | 0 <= i && i + 2 < |t|
      ensures !FenceAt(t, i)
    {
      if i + 2 < |a| {
        assert !FenceAt(a, i);
      } else if i >= |a| {
        assert !FenceAt(b, i - |a|);
      }
    }
  }

  /** A separator that neither starts nor ends with a backtick. */
  ghost predicate Separator(sep: string) {
    sep != [] && sep[0] != '`' && sep[|sep| - 1] != '`' && NoFence(sep)
  }

  /** Joining fence-free pieces with such a separator gives a fence-free text. */
  lemma {:induction false} NoFenceJoin(sep: string, xs: seq<string>)
    requires Separator(sep)
    requires forall k :: 0 <= k < |xs| ==> NoFence(xs[k])
    ensures NoFence(Text.Join(sep, xs))
    decreases |xs|
  {
    if |xs| > 1 {
      NoFenceJoin(sep, xs[1..]);
      var rest := Text.Join(sep, xs[1..]);
      NoFenceConcat(xs[0], sep);
      NoFenceConcat(xs[0] + sep, rest);
    }
  }

  /** The pieces of a fence-free text split on any separator are fence-free. */
  lemma {:induction false} NoFenceSplit(s: string, sep: string)
    requires |sep| > 0 && NoFence(s)
    ensures forall k :: 0 <= k < |Text.Split(s, sep)| ==> NoFence(Text.Split(s, sep)[k])
    decreases |s|
  {
    var i := Text.FindFrom(s, sep, 0);
    if i >= 0 {
      var rest := s[i + |sep|..];
      NoFenceSlice(s, 0, i, s[..i]);
      NoFenceSlice(s, i + |sep|, |s|, rest);
      NoFenceSplit(rest, sep);
      var parts := Text.Split(rest, sep);
      var all := Text.Split(s, sep);
      assert all == [s[..i]] + parts;
      assert forall k :: 1 <= k < |all| ==> all[k] == parts[k - 1];
    } else {
      assert Text.Split(s, sep) == [s];
    }
  }

  /** Stripping a fence-free text leaves it fence-free. */
  lemma NoFenceStrip(s: string)
    ensures NoFence(s) ==> NoFence(Text.Strip(s))
  {
    if NoFence(s) {
      var r := Text.Strip(s);
      var k := |s| - |Text.TrimStart(s)|;
      Text.StripIsSlice(s, k, r);
      NoFenceSlice(s, k, k + |r|, r);
    }
  }

  /** `s.replace("```", "")` leaves no fence: what precedes the first fence cannot end in a backtick, or the fence would start earlier. */
  lemma {:induction false} ReplaceRemovesFences(s: string)
    ensures NoFence(Text.Replace(s, Fence, ""))
    decreases |s|
  {
    var i := Text.FindFrom(s, Fence, 0);
    NoFenceIff(s[..if i < 0 then |s| else i]);
    if i < 0 {
      NoFenceIff(s);
      assert s[..|s|] == s;
    } else {
      var pre := s[..i];
      var rest := s[i + |Fence|..];
      ReplaceRemovesFences(rest);
      var r := Text.Replace(rest, Fence, "");
      assert Text.Replace(s, Fence, "") == pre + r;
      forall j | 0 <= j && j + 2 < |pre|
        ensures !FenceAt(pre, j)
      {
        FenceAtIsOccurrence(s, j);
      }
      if pre != [] {
        FenceAtIsOccurrence(s, i - 1);
        var w := s[i..i + 3];
        assert w == Fence;
        assert w[0] == s[i] && w[1] == s[i + 1];
        NoFenceConcat(pre, r);
      } else {
        assert pre + r == r;
      }
    }
  }

  /** A fence at `i`, read character by character, is an occurrence of "```" at `i`. */
  lemma FenceAtIsOccurrence(s: string, i: int)
    ensures FenceAt(s, i) ==> Text.OccursAt(s, Fence, i)
  {
    if FenceAt(s, i) {
      var w := s[i..i + 3];
      assert w[0] == s[i] && w[1] == s[i + 1] && w[2] == s[i + 2];
      assert w == Fence;
    }
  }

  // ---------------------------------------------------------------- post-processing

  /** A line that looks like a chapter heading once stripped. */
  predicate LooksLikeHeading(line: string) {
    Text.StartsWith(Text.Strip(line), "##") || Text.StartsWith(Text.Strip(line), "# Capítulo")
  }

  /** The lines the cleanup keeps, in order. */
  function KeptLines(lines: seq<string>): (kept: seq<string>)
    ensures |kept| <= |lines|
    ensures forall k :: 0 <= k < |kept| ==> kept[k] in lines && !LooksLikeHeading(kept[k])
    decreases |lines|
  {
    if lines == [] then []
    else
      var init := KeptLines(lines[..|lines| - 1]);
      var line := lines[|lines| - 1];
      assert forall x :: x in lines[..|lines| - 1] ==> x in lines;
      if LooksLikeHeading(line) then init else init + [line]
  }

  /** Only heading lines are dropped: every other line survives. */
  lemma {:induction false} KeptLinesKeepsText(lines: seq<string>, k: nat)
    requires k < |lines| && !LooksLikeHeading(lines[k])
    ensures lines[k] in KeptLines(lines)
    decreases |lines|
  {
    if k < |lines| - 1 {
      KeptLinesKeepsText(lines[..|lines| - 1], k);
    }
  }

  /** The loop of `_post_process_content` over the lines. */
  method DropHeadings(lines: seq<string>) returns (cleaned: seq<string>)
    ensures cleaned == KeptLines(lines)
  {
    cleaned := [];
    for i := 0 to |lines|
      invariant cleaned == KeptLines(lines[..i])
    {
      assert lines[..i + 1][..i] == lines[..i];
      if !LooksLikeHeading(lines[i]) {
        cleaned := cleaned + [lines[i]];
      }
    }
    assert lines[..|lines|] == lines;
  }

  /** `[p.strip() for p in pieces if p.strip()]`: the stripped pieces that are not blank, in order. */
  function Paragraphs(pieces: seq<string>): (ps: seq<string>)
    ensures |ps| <= |pieces|
    ensures forall k :: 0 <= k < |ps| ==> ps[k] != [] && Text.Strip(ps[k]) == ps[k]
    decreases |pieces|
  {
    if pieces == [] then []
    else
      var init := Paragraphs(pieces[..|pieces| - 1]);
      var piece := pieces[|pieces| - 1];
      var p := Text.Strip(piece);
      Text.StripIdempotent(piece);
      if p != [] then init + [p] else init
  }

  /** Stripping and dropping pieces adds no fence. */
  lemma {:induction false} ParagraphsNoFence(pieces: seq<string>)
    requires forall k :: 0 <= k < |pieces| ==> NoFence(pieces[k])
    ensures forall k :: 0 <= k < |Paragraphs(pieces)| ==> NoFence(Paragraphs(pieces)[k])
    decreases |pieces|
  {
    if pieces != [] {
      var front := pieces[..|pieces| - 1];
      var piece := pieces[|pieces| - 1];
      assert forall k :: 0 <= k < |front| ==> front[k] == pieces[k];
      ParagraphsNoFence(front);
      NoFenceStrip(piece);
      var init := Paragraphs(front);
      var p := Text.Strip(piece);
      var ps := Paragraphs(pieces);
      assert ps == if p != [] then init + [p] else init;
      forall k | 0 <= k < |ps| ensures NoFence(ps[k]) {
        if k < |init| {
          assert ps[k] == init[k];
        } else {
          assert ps[k] == p;
        }
      }
    }
  }

  /** The text after the fences are removed (the whole answer stripped first). */
  function Unfenced(content: string): string {
    Text.Replace(Text.Replace(Text.Strip(content), "```markdown", ""), Fence, "")
  }

  /** The text after the heading lines are dropped. */
  function WithoutHeadings(content: string): string {
    Text.Strip(Text.Join("\n", KeptLines(Text.Split(Unfenced(content), "\n"))))
  }

  /** The paragraphs of the cleaned page. */
  function PageParagraphs(content: string): seq<string> {
    Paragraphs(Text.Split(WithoutHeadings(content), "\n\n"))
  }

  /** `_post_process_content`. */
  function PostProcess(content: string): string {
    Text.Join("\n\n", PageParagraphs(content))
  }

  /** The cleaned page is its paragraphs joined by one blank line; each paragraph is non-empty and stripped. */
  lemma PostProcessParagraphs(content: string)
    ensures PostProcess(content) == Text.Join("\n\n", PageParagraphs(content))
    ensures forall k :: 0 <= k < |PageParagraphs(content)| ==>
      PageParagraphs(content)[k] != [] && Text.Strip(PageParagraphs(content)[k]) == PageParagraphs(content)[k]
  {
  }

  lemma NewlineSeparators()
    ensures Separator("\n") && Separator("\n\n")
  {
    forall i ensures !Text.OccursAt("\n", Fence, i) {}
    forall i ensures !Text.OccursAt("\n\n", Fence, i) {}
  }

  /** Both fence replacements leave no fence. */
  lemma UnfencedNoFence(content: string)
    ensures NoFence(Unfenced(content))
  {
    ReplaceRemovesFences(Text.Replace(Text.Strip(content), "```markdown", ""));
  }

  /** Dropping heading lines and rejoining adds no fence. */
  lemma WithoutHeadingsNoFence(content: string)
    ensures NoFence(WithoutHeadings(content))
  {
    var u := Unfenced(content);
    UnfencedNoFence(content);
    NoFenceSplit(u, "\n");
    var lines := Text.Split(u, "\n");
    var kept := KeptLines(lines);
    forall k | 0 <= k < |kept| ensures NoFence(kept[k]) {
      var j :| 0 <= j < |lines| && lines[j] == kept[k];
    }
    NewlineSeparators();
    NoFenceJoin("\n", kept);
    NoFenceStrip(Text.Join("\n", kept));
  }

  /** No code fence survives the cleanup, so the page never carries "```". */
  lemma PostProcessHasNoFence(content: string)
    ensures !Text.Contains(PostProcess(content), Fence)
  {
    var w := WithoutHeadings(content);
    WithoutHeadingsNoFence(content);
    NoFenceSplit(w, "\n\n");
    ParagraphsNoFence(Text.Split(w, "\n\n"));
    NewlineSeparators();
    NoFenceJoin("\n\n", PageParagraphs(content));
    NoFenceIff(PostProcess(content));
  }

  /** `_post_process_content` as the source runs it: strip, remove the fences, drop heading lines in a loop, normalise paragraphs. */
  method PostProcessContent(content: string) returns (r: string)
    ensures r == PostProcess(content)
  {
    var text := Text.Strip(content);
    text := Text.Replace(text, "```markdown", "");
    text := Text.Replace(text, Fence, "");
    var lines := Text.Split(text, "\n");
    var cleaned := DropHeadings(lines);
    text := Text.Strip(Text.Join("\n", cleaned));
    r := Text.Join("\n\n", Paragraphs(Text.Split(text, "\n\n")));
  }

  // ---------------------------------------------------------------- the error gate

  /** The answer is an error or blank: `"Error" in content or not content.strip()`. */
  predicate Rejected(response: string) {
    Text.Contains(response, "Error") || Text.IsBlank(response)
  }

  /** `generate` after the call: a rejected answer is returned raw with failure; any other is cleaned. */
  function Gate(response: string): (bool, string) {
    if Rejected(response) then (false, response) else (true, PostProcess(response))
  }

  /** The error texts of the retry loop all start with "Error:", so the gate rejects every one of them. */
  lemma RetryErrorsRejected(response: string)
    requires Text.StartsWith(response, GroqCall.ErrorPrefix)
    ensures Gate(response) == (false, response)
  {
    ErrorPrefixNamesError(response);
    assert Rejected(response);
  }

  lemma ErrorPrefixNamesError(response: string)
    requires Text.StartsWith(response, GroqCall.ErrorPrefix)
    ensures Text.Contains(response, "Error")
  {
    assert Text.OccursAt(response, "Error", 0) by {
      assert response[..5] == GroqCall.ErrorPrefix[..5];
    }
    Text.ContainsIff(response, "Error");
  }

  /** Accepted pages are cleaned pages: fence-free, and made of stripped non-empty paragraphs. */
  lemma AcceptedIsClean(response: string)
    requires Gate(response).0
    ensures !Rejected(response)
    ensures Gate(response).1 == PostProcess(response)
    ensures !Text.Contains(Gate(response).1, Fence)
  {
    PostProcessHasNoFence(response);
  }

  /** The page generator: the service it calls and the prompt builder it uses, both fixed. */
  class PageGenerator {
    const client: GroqCall.Client
    const builder: PromptBuilder.PromptBuilder

    constructor(client: GroqCall.Client, builder: PromptBuilder.PromptBuilder)
      ensures this.client == client && this.builder == builder
    {
      this.client := client;
      this.builder := builder;
    }

    /**
     * `generate`, where `system` is the system prompt the caller sends with
     * every request. A chapter of zero pages raises ZeroDivisionError while
     * the prompt is built (the progress ratio), before any request;
     * otherwise exactly one retry loop runs and its text goes through the gate.
     */
    method Generate(system: string, chapter: Narrative.Chapter, profiles: string, lastText: string,
                    context: string, page: int, total: int, scene: string)
      returns (r: Result<(bool, string)>)
      modifies client
      ensures total == 0 ==>
        r == Raise(ZeroDivisionError) &&
        client.calls == old(client.calls) && client.requests == old(client.requests) && client.slept == old(client.slept)
      ensures total != 0 ==>
        var o := GroqCall.Retry(GroqCall.Replies(client, old(client.calls)), client.waitOf, 0);
        var prompt := FullPrompt(builder, chapter, profiles, lastText, context, page, total, scene);
        r == Ok(Gate(o.text)) &&
        client.calls == old(client.calls) + o.attempts &&
        client.requests == old(client.requests) + GroqCall.Repeat(GroqCall.Request(system, prompt), o.attempts) &&
        client.slept == old(client.slept) + o.sleeps
    {
      if total == 0 {
        return Raise(ZeroDivisionError);
      }
      var prompt := FullPrompt(builder, chapter, profiles, lastText, context, page, total, scene);
      var content := GroqCall.CallGroq(client, system, prompt);
      if Rejected(content) {
        return Ok((false, content));
      }
      var cleaned := PostProcessContent(content);
      r := Ok((true, cleaned));
    }
  }

  // ---------------------------------------------------------------- quality counts

  /** `_categorize_length`. */
  datatype LengthCategory = TooShort | Short | Ideal | Long | TooLong

  function Categorize(words: int): LengthCategory {
    if words < 300 then TooShort
    else if words < 400 then Short
    else if words < 600 then Ideal
    else if words < 700 then Long
    else TooLong
  }

  function Rank(c: LengthCategory): nat {
    match c
    case TooShort => 0
    case Short => 1
    case Ideal => 2
    case Long => 3
    case TooLong => 4
  }

  /** The bands are [0, 300), [300, 400), [400, 600), [600, 700) and from 700 on, and a longer page never gets a shorter category. */
  lemma CategorizeBands(n: int, m: int)
    ensures Categorize(n) == Ideal <==> 400 <= n < 600
    ensures Categorize(n) == TooShort <==> n < 300
    ensures Categorize(n) == TooLong <==> n >= 700
    ensures Categorize(n) == Short <==> 300 <= n < 400
    ensures Categorize(n) == Long <==> 600 <= n < 700
    ensures n <= m ==> Rank(Categorize(n)) <= Rank(Categorize(m))
  {
  }

  /** The number of pieces that are not blank. */
  function NonBlankCount(pieces: seq<string>): (n: nat)
    ensures n <= |pieces|
    decreases |pieces|
  {
    if pieces == [] then 0
    else NonBlankCount(pieces[..|pieces| - 1]) + (if Text.IsBlank(pieces[|pieces| - 1]) then 0 else 1)
  }

  /** The integer part of `analyze_content_quality` (the average sentence length, a float, is not modelled). */
  datatype Quality = Quality(wordCount: nat, sentenceCount: nat, paragraphCount: nat, dialogueLines: nat,
                             hasDialogue: bool, lengthCategory: LengthCategory)

  function AnalyzeQuality(content: string): (q: Quality)
    ensures q.hasDialogue <==> Text.Count(content, "\"") >= 2
    ensures q.wordCount == |Text.Words(content)| && q.lengthCategory == Categorize(q.wordCount)
    ensures q.wordCount == 0 <==> Text.IsBlank(content)
  {
    var words := |Text.Words(content)|;
    var dialogue := Text.Count(content, "\"") / 2;
    Quality(words, NonBlankCount(Text.Split(content, ".")), NonBlankCount(Text.Split(content, "\n\n")),
            dialogue, dialogue > 0, Categorize(words))
  }

  /** A cleaned page has exactly as many paragraphs, by the quality count, as the cleanup produced. */
  lemma {:induction false} NonBlankCountParagraphs(pieces: seq<string>)
    ensures NonBlankCount(pieces) == |Paragraphs(pieces)|
    decreases |pieces|
  {
    if pieces != [] {
      NonBlankCountParagraphs(pieces[..|pieces| - 1]);
    }
  }
}
