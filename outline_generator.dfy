/**
 * The outline generator: one request for the whole book plan, the answer
 * freed of a Markdown code fence and parsed as JSON, its shape checked
 * (sections, world, characters, plot and every chapter, in that order, the
 * first problem reported), and the accepted plan completed with defaults:
 * an initial state per character, 12 pages for a chapter without a positive
 * estimate, an empty character focus, an empty premise and theme list.
 */
module OutlineGenerator {
  import opened Wrappers
  import Text
  import opened Json
  import GroqCall
  import PromptBuilder

  // ---------------------------------------------------------------- parsing

  const Fence := "```"
  const JsonFence := "```json"

  /** A regex `^fence\s*` substitution: the fence and the whitespace after it, when the text starts with it. */
  function DropLeading(s: string, fence: string): string {
    if Text.StartsWith(s, fence) then Text.TrimStart(s[|fence|..]) else s
  }

  /** The regex `\s*```$` substitution: a closing fence and the whitespace before it. */
  function DropTrailing(s: string): string {
    if Text.EndsWith(s, Fence) then Text.TrimEnd(s[..|s| - |Fence|]) else s
  }

  /** The text `_parse_outline_response` hands to the JSON parser; it is always stripped. */
  function Cleaned(response: string): (r: string)
    ensures Text.Strip(r) == r
  {
    var t := DropTrailing(DropLeading(DropLeading(Text.Strip(response), JsonFence), Fence));
    Text.StripIdempotent(t);
    Text.Strip(t)
  }

  /**
   * `_parse_outline_response`: the parsed value, or None when the parser
   * fails. A JSON `null` comes back as Python's None too, and `generate`
   * treats it as a parse failure.
   */
  function ParseOutlineResponse(parse: Parser, response: string): (r: Option<JsonValue>)
    ensures r.Some? <==> parse(Cleaned(response)).Some? && parse(Cleaned(response)).value != JNull
    ensures r.Some? ==> r == parse(Cleaned(response))
  {
    match parse(Cleaned(response))
    case Some(JNull) => None
    case other => other
  }

  /** A JSON text cannot start with a backtick or a `j`, nor end with whitespace or a backtick. */
  predicate JsonLike(body: string) {
    body != [] && !Text.IsSpace(body[0]) && body[0] != '`' && body[0] != 'j'
    && !Text.IsSpace(body[|body| - 1]) && body[|body| - 1] != '`'
  }

  lemma DropLeadingFence(f: string, x: string)
    ensures DropLeading(f + x, f) == Text.TrimStart(x)
  {
    assert (f + x)[..|f|] == f;
    assert (f + x)[|f|..] == x;
  }

  lemma DropTrailingFence(y: string)
    ensures DropTrailing(y + Fence) == Text.TrimEnd(y)
  {
    assert (y + Fence)[|y|..] == Fence;
    assert (y + Fence)[..|y|] == y;
  }

  /** A text whose `i`-th character differs from the fence's does not start with it. */
  lemma KeepsLeading(x: string, f: string, i: nat)
    requires i < |f| && (i < |x| ==> x[i] != f[i])
    ensures DropLeading(x, f) == x
  {
    if |f| <= |x| {
      assert x[..|f|][i] == x[i];
    }
  }

  /** A text whose fourth character is not `j` does not start with "```json". */
  lemma NoJsonTag(x: string)
    requires |x| > 3 ==> x[3] != 'j'
    ensures DropLeading(x, JsonFence) == x
  {
    KeepsLeading(x, JsonFence, 3);
  }

  /** The whitespace after an opening fence goes, up to the JSON text; that text does not start with `j`. */
  lemma TrimToBody(lead: string, body: string, trail: string)
    requires Text.IsBlank(lead) && JsonLike(body)
    ensures Text.TrimStart(lead + (body + trail + Fence)) == body + trail + Fence
    ensures (lead + (body + trail + Fence))[0] != 'j'
  {
    var inner := body + trail + Fence;
    assert inner[0] == body[0];
    Text.TrimStartBlank(lead, inner);
    if lead != [] {
      assert (lead + inner)[0] == lead[0];
    }
  }

  /** An answer wrapped in a "```json" or a bare "```" fence reaches the parser as the text inside it. */
  lemma CleanedFenced(tag: string, lead: string, body: string, trail: string)
    requires tag == JsonFence || tag == Fence
    requires Text.IsBlank(lead) && Text.IsBlank(trail) && JsonLike(body)
    ensures Cleaned(tag + lead + body + trail + Fence) == body
  {
    var inner := body + trail + Fence;
    var s := tag + (lead + inner);
    Text.AppendAssoc(tag + lead + body, trail, Fence);
    Text.AppendAssoc(tag + lead, body + trail, Fence);
    Text.AppendAssoc(tag, lead, inner);
    Text.AppendAssoc(tag + lead, body, trail);
    assert tag + lead + body + trail + Fence == s;
    FencedStripped(tag, lead, body, trail, s);
    FencedOpened(tag, lead, body, trail, s);
    DropTrailingFence(body + trail);
    Text.TrimEndBlank(body, trail);
    Text.StripNoop(body);
  }

  /** A fenced answer is its own `strip()`: it starts and ends with a backtick. */
  lemma FencedStripped(tag: string, lead: string, body: string, trail: string, s: string)
    requires tag == JsonFence || tag == Fence
    requires JsonLike(body) && s == tag + (lead + (body + trail + Fence))
    ensures Text.Strip(s) == s
  {
    assert s[0] == '`' && s[|s| - 1] == '`';
    Text.StripNoop(s);
  }

  /** Dropping the opening fences of a fenced answer leaves the body with the closing fence. */
  lemma FencedOpened(tag: string, lead: string, body: string, trail: string, s: string)
    requires tag == JsonFence || tag == Fence
    requires Text.IsBlank(lead) && JsonLike(body) && s == tag + (lead + (body + trail + Fence))
    ensures DropLeading(DropLeading(s, JsonFence), Fence) == body + trail + Fence
  {
    var inner := body + trail + Fence;
    var rest := lead + inner;
    TrimToBody(lead, body, trail);
    KeepsLeading(inner, Fence, 0);
    DropLeadingFence(tag, rest);
    if tag == Fence {
      assert s[3] == rest[0];
      NoJsonTag(s);
    }
  }

  /** An unfenced JSON answer reaches the parser unchanged. */
  lemma CleanedPlain(body: string)
    requires JsonLike(body)
    ensures Cleaned(body) == body
  {
    Text.StripNoop(body);
    assert !Text.StartsWith(body, JsonFence) by {
      if |body| >= |JsonFence| {
        assert body[..|JsonFence|][0] == body[0];
      }
    }
    assert !Text.StartsWith(body, Fence) by {
      if |body| >= |Fence| {
        assert body[..|Fence|][0] == body[0];
      }
    }
    assert !Text.EndsWith(body, Fence) by {
      if |body| >= |Fence| {
        assert body[|body| - |Fence|..][2] == body[|body| - 1];
      }
    }
    assert DropTrailing(DropLeading(DropLeading(Text.Strip(body), JsonFence), Fence)) == body;
  }

  // ---------------------------------------------------------------- validation

  /** The problem `_validate_outline` reports; its message text is this value rendered in Spanish. */
  datatype Problem =
    | MissingSection(section: string)
    | WorldNotObject
    | WorldMissing(key: string)
    | CharactersNotObject
    | NoCharacters
    | PlotMissingOutline
    | OutlineNotList
    | WrongChapterCount(expected: int, received: nat)
    | ChapterNotObject(chapter: int)
    | ChapterMissing(chapter: int, key: string)
    | WrongNumber(chapter: int, found: JsonValue)
    | NoKeyEvents(chapter: int)

  const RequiredSections: seq<string> := ["world", "characters", "plot", "style", "consistency_rules"]
  const WorldKeys: seq<string> := ["setting", "time_period"]
  const ChapterKeys: seq<string> := ["number", "title", "summary", "key_events", "pages_estimate"]

  /** The names in the three key lists, by position. */
  lemma KeyNames()
    ensures RequiredSections[0] == "world" && RequiredSections[1] == "characters" && RequiredSections[2] == "plot"
    ensures RequiredSections[3] == "style" && RequiredSections[4] == "consistency_rules"
    ensures WorldKeys[0] == "setting" && WorldKeys[1] == "time_period"
    ensures ChapterKeys[0] == "number" && ChapterKeys[1] == "title" && ChapterKeys[2] == "summary"
    ensures ChapterKeys[3] == "key_events" && ChapterKeys[4] == "pages_estimate"
  {
  }

  /** A `for key in keys: if key not in d` scan over a dict: the first key it lacks. */
  function MissingKey(ms: seq<Member>, keys: seq<string>): (r: Option<string>)
    ensures r == None <==> forall i :: 0 <= i < |keys| ==> HasKey(ms, keys[i])
    ensures r.Some? ==> r.value in keys && !HasKey(ms, r.value)
  {
    if keys == [] then None
    else if !HasKey(ms, keys[0]) then Some(keys[0])
    else MissingKey(ms, keys[1..])
  }

  /** The same scan over any parsed value: `in` is substring or element test on a str or a list, and raises on the rest. */
  function FirstMissing(v: JsonValue, keys: seq<string>): (r: Result<Option<string>>)
    ensures v.JObject? ==> r == Ok(MissingKey(v.members, keys))
    ensures keys != [] && !(v.JObject? || v.JArray? || v.JString?) ==> r == Raise(TypeError)
    ensures r.Raise? ==> r.error == TypeError
  {
    if keys == [] then Ok(None)
    else match In(keys[0], v)
      case Raise(e) => Raise(e)
      case Ok(present) => if !present then Ok(Some(keys[0])) else FirstMissing(v, keys[1..])
  }

  /** The scan reports the first absent key in list order. */
  lemma {:induction false} FirstMissingInOrder(v: JsonValue, keys: seq<string>, i: nat)
    requires i < |keys| && In(keys[i], v) == Ok(false)
    requires forall j :: 0 <= j < i ==> In(keys[j], v) == Ok(true)
    ensures FirstMissing(v, keys) == Ok(Some(keys[i]))
  {
    if i > 0 {
      assert In(keys[0], v) == Ok(true);
      assert keys[1..][i - 1] == keys[i];
      FirstMissingInOrder(v, keys[1..], i - 1);
    }
  }

  /** The checks of one chapter (numbered `number` = i + 1), in the source's order. */
  function ChapterProblem(c: JsonValue, number: int): (r: Option<Problem>)
    ensures r == None <==> WellFormedChapter(c, number)
  {
    KeyNames();
    if !c.JObject? then Some(ChapterNotObject(number))
    else match MissingKey(c.members, ChapterKeys)
      case Some(k) => Some(ChapterMissing(number, k))
      case None =>
        var found := Lookup(c.members, "number");
        var events := Lookup(c.members, "key_events");
        if !EqualsInt(found, number) then Some(WrongNumber(number, found))
        else if !events.JArray? || |events.items| == 0 then Some(NoKeyEvents(number))
        else None
  }

  /** The chapters from the one numbered `start` + 1 on: the first problem found. */
  function ChaptersProblem(items: seq<JsonValue>, start: int): (r: Option<Problem>)
    decreases |items|
  {
    if items == [] then None
    else match ChapterProblem(items[0], start + 1)
      case Some(p) => Some(p)
      case None => ChaptersProblem(items[1..], start + 1)
  }

  /**
   * `_validate_outline`: Ok(None) for a valid outline, Ok(Some(p)) for the
   * first problem, and TypeError where Python raises: `in` on a value that
   * is not a container, `data['world']` on a list or a string that contains
   * every section name, `data['plot']['outline']` on a list or a string.
   */
  function Validate(data: JsonValue, expected: int): Result<Option<Problem>> {
    match FirstMissing(data, RequiredSections)
    case Raise(e) => Raise(e)
    case Ok(Some(s)) => Ok(Some(MissingSection(s)))
    case Ok(None) =>
      if !data.JObject? then Raise(TypeError)
      else
        KeyNames();
        var world := Lookup(data.members, "world");
        var characters := Lookup(data.members, "characters");
        var plot := Lookup(data.members, "plot");
        if !world.JObject? then Ok(Some(WorldNotObject))
        else match MissingKey(world.members, WorldKeys)
          case Some(k) => Ok(Some(WorldMissing(k)))
          case None =>
            if !characters.JObject? then Ok(Some(CharactersNotObject))
            else if |characters.members| == 0 then Ok(Some(NoCharacters))
            else match In("outline", plot)
              case Raise(e) => Raise(e)
              case Ok(false) => Ok(Some(PlotMissingOutline))
              case Ok(true) =>
                match GetItem(plot, "outline")
                case Raise(e) => Raise(e)
                case Ok(outline) =>
                  if !outline.JArray? then Ok(Some(OutlineNotList))
                  else if |outline.items| != expected then Ok(Some(WrongChapterCount(expected, |outline.items|)))
                  else Ok(ChaptersProblem(outline.items, 0))
  }

  /** Chapter `number` of a valid outline: an object with the five keys, the right number and some key events. */
  predicate WellFormedChapter(c: JsonValue, number: int) {
    KeyNames();
    c.JObject? && (forall i :: 0 <= i < |ChapterKeys| ==> HasKey(c.members, ChapterKeys[i]))
    && EqualsInt(Lookup(c.members, "number"), number)
    && Lookup(c.members, "key_events").JArray? && |Lookup(c.members, "key_events").items| > 0
  }

  /** The shape a valid outline of `n` chapters has, stated all at once. */
  predicate WellFormed(data: JsonValue, n: int) {
    KeyNames();
    data.JObject? && (forall i :: 0 <= i < |RequiredSections| ==> HasKey(data.members, RequiredSections[i]))
    && var world := Lookup(data.members, "world");
    && var characters := Lookup(data.members, "characters");
    && var plot := Lookup(data.members, "plot");
    && world.JObject? && (forall i :: 0 <= i < |WorldKeys| ==> HasKey(world.members, WorldKeys[i]))
    && characters.JObject? && |characters.members| > 0
    && plot.JObject? && HasKey(plot.members, "outline")
    && var outline := Lookup(plot.members, "outline");
    && outline.JArray? && |outline.items| == n
    && ChaptersWellFormed(outline.items, 0)
  }

  /** Every chapter from the one numbered `start` + 1 on is well formed. */
  predicate ChaptersWellFormed(items: seq<JsonValue>, start: int) {
    forall i :: 0 <= i < |items| ==> WellFormedChapter(items[i], start + i + 1)
  }

  lemma SameChapter(x: JsonValue, y: JsonValue, a: int, b: int)
    requires x == y && a == b
    ensures WellFormedChapter(x, a) == WellFormedChapter(y, b)
  {
  }

  /** A chapter list without problems is well formed throughout. */
  lemma {:induction false} ChaptersSound(items: seq<JsonValue>, start: int)
    requires ChaptersProblem(items, start) == None
    ensures ChaptersWellFormed(items, start)
    decreases |items|
  {
    if items != [] {
      var tail := items[1..];
      assert ChapterProblem(items[0], start + 1) == None;
      ChaptersSound(tail, start + 1);
      forall i | 1 <= i < |items| ensures WellFormedChapter(items[i], start + i + 1) {
        assert WellFormedChapter(tail[i - 1], start + 1 + (i - 1) + 1);
        SameChapter(items[i], tail[i - 1], start + i + 1, start + 1 + (i - 1) + 1);
      }
    }
  }

  /** A well-formed chapter list has no problem. */
  lemma {:induction false} ChaptersComplete(items: seq<JsonValue>, start: int)
    requires ChaptersWellFormed(items, start)
    ensures ChaptersProblem(items, start) == None
    decreases |items|
  {
    if items != [] {
      var tail := items[1..];
      assert WellFormedChapter(items[0], start + 1);
      forall i | 0 <= i < |tail| ensures WellFormedChapter(tail[i], start + 1 + i + 1) {
        assert WellFormedChapter(items[i + 1], start + (i + 1) + 1);
        SameChapter(tail[i], items[i + 1], start + 1 + i + 1, start + (i + 1) + 1);
      }
      ChaptersComplete(tail, start + 1);
    }
  }

  /** Whatever validation accepts has the stated shape. */
  lemma ValidateSound(data: JsonValue, n: int)
    requires Validate(data, n) == Ok(None)
    ensures WellFormed(data, n)
  {
    KeyNames();
    assert data.JObject? && FirstMissing(data, RequiredSections) == Ok(None);
    var world := Lookup(data.members, "world");
    var characters := Lookup(data.members, "characters");
    var plot := Lookup(data.members, "plot");
    assert world.JObject? && MissingKey(world.members, WorldKeys) == None;
    assert characters.JObject? && |characters.members| > 0;
    assert In("outline", plot) == Ok(true) && GetItem(plot, "outline").Ok?;
    var outline := Lookup(plot.members, "outline");
    assert outline.JArray? && |outline.items| == n;
    assert ChaptersProblem(outline.items, 0) == None;
    ChaptersSound(outline.items, 0);
  }

  /** Validation raises only TypeError: `in` or an index on a value of the wrong type. */
  lemma ValidateErrors(data: JsonValue, n: int)
    ensures Validate(data, n).Raise? ==> Validate(data, n).error == TypeError
  {
  }

  /** Validation accepts every outline of the stated shape. */
  lemma ValidateComplete(data: JsonValue, n: int)
    requires WellFormed(data, n)
    ensures Validate(data, n) == Ok(None)
  {
    KeyNames();
    var world := Lookup(data.members, "world");
    assert FirstMissing(data, RequiredSections) == Ok(None);
    assert MissingKey(world.members, WorldKeys) == None;
    var outline := Lookup(Lookup(data.members, "plot").members, "outline");
    ChaptersComplete(outline.items, 0);
  }

  /** Validation accepts exactly the outlines of the stated shape. */
  lemma ValidateIff(data: JsonValue, n: int)
    ensures Validate(data, n) == Ok(None) <==> WellFormed(data, n)
  {
    if Validate(data, n) == Ok(None) {
      ValidateSound(data, n);
    }
    if WellFormed(data, n) {
      ValidateComplete(data, n);
    }
  }

  /** Missing sections are reported in the order world, characters, plot, style, consistency_rules. */
  lemma MissingSectionFirst(data: JsonValue, n: int, i: nat)
    requires data.JObject? && i < |RequiredSections| && !HasKey(data.members, RequiredSections[i])
    requires forall j :: 0 <= j < i ==> HasKey(data.members, RequiredSections[j])
    ensures Validate(data, n) == Ok(Some(MissingSection(RequiredSections[i])))
  {
    FirstMissingInOrder(data, RequiredSections, i);
  }

  // ---------------------------------------------------------------- defaults

  const InitialState := "Al inicio de la historia."
  const DefaultPages := 12

  /** `if 'current_state' not in char_data: char_data['current_state'] = ...`; a list or str without it raises. */
  function FillState(v: JsonValue): (r: Result<JsonValue>)
    ensures r.Raise? ==> r.error == TypeError
    ensures v.JObject? ==> r.Ok? && r.value.JObject? && HasKey(r.value.members, "current_state")
    ensures v.JObject? && HasKey(v.members, "current_state") ==> r == Ok(v)
    ensures v.JObject? && !HasKey(v.members, "current_state") ==>
      Lookup(r.value.members, "current_state") == JString(InitialState)
    ensures v.JObject? ==> forall k :: k != "current_state" ==> Find(r.value.members, k) == Find(v.members, k)
  {
    match In("current_state", v)
    case Raise(e) => Raise(e)
    case Ok(true) => Ok(v)
    case Ok(false) => SetItem(v, "current_state", JString(InitialState))
  }

  /**
   * `if 'pages_estimate' not in chapter or chapter['pages_estimate'] <= 0:
   * chapter['pages_estimate'] = 12`; only a dict chapter with a numeric
   * estimate (or none) gets through.
   */
  function FillPages(c: JsonValue): (r: Result<JsonValue>)
    ensures r.Raise? ==> r.error == TypeError
    ensures !c.JObject? ==> r.Raise?
    ensures r.Ok? <==> c.JObject? && (HasKey(c.members, "pages_estimate") ==>
      NumberOf(Lookup(c.members, "pages_estimate")).Some?)
    ensures r.Ok? ==>
      r.value.JObject? && HasKey(r.value.members, "pages_estimate")
      && NumberOf(Lookup(r.value.members, "pages_estimate")).Some?
      && NumberOf(Lookup(r.value.members, "pages_estimate")).value > 0.0
    ensures r.Ok? && HasKey(c.members, "pages_estimate") && NumberOf(Lookup(c.members, "pages_estimate")).value > 0.0 ==>
      r.value == c
    ensures r.Ok? ==> forall k :: k != "pages_estimate" ==> Find(r.value.members, k) == Find(c.members, k)
  {
    match In("pages_estimate", c)
    case Raise(e) => Raise(e)
    case Ok(false) => SetItem(c, "pages_estimate", JInt(DefaultPages))
    case Ok(true) =>
      match GetItem(c, "pages_estimate")
      case Raise(e) => Raise(e)
      case Ok(p) =>
        match AtMostZero(p)
        case Raise(e) => Raise(e)
        case Ok(small) => if small then SetItem(c, "pages_estimate", JInt(DefaultPages)) else Ok(c)
  }

  /** `if 'character_focus' not in chapter: chapter['character_focus'] = []`. */
  function FillFocus(c: JsonValue): (r: Result<JsonValue>)
    ensures r.Raise? ==> r.error == TypeError
    ensures c.JObject? ==> r.Ok? && r.value.JObject? && HasKey(r.value.members, "character_focus")
    ensures c.JObject? && HasKey(c.members, "character_focus") ==> r == Ok(c)
    ensures c.JObject? && !HasKey(c.members, "character_focus") ==>
      Lookup(r.value.members, "character_focus") == JArray([])
    ensures c.JObject? ==> forall k :: k != "character_focus" ==> Find(r.value.members, k) == Find(c.members, k)
  {
    match In("character_focus", c)
    case Raise(e) => Raise(e)
    case Ok(true) => Ok(c)
    case Ok(false) => SetItem(c, "character_focus", JArray([]))
  }

  /** The character values with their states filled, in dict order; the first failure stops the loop. */
  function FillStates(ms: seq<Member>): (r: Result<seq<Member>>)
    ensures r.Raise? ==> r.error == TypeError
    ensures r.Ok? ==> |r.value| == |ms|
    ensures r.Ok? ==> forall i :: 0 <= i < |ms| ==>
      r.value[i].key == ms[i].key && FillState(ms[i].value) == Ok(r.value[i].value)
    decreases |ms|
  {
    if ms == [] then Ok([])
    else match FillStates(ms[..|ms| - 1])
      case Raise(e) => Raise(e)
      case Ok(init) =>
        var last := ms[|ms| - 1];
        match FillState(last.value)
        case Raise(e) => Raise(e)
        case Ok(v) => Ok(init + [Member(last.key, v)])
  }

  /** One of the chapter loops: `fill` applied to every chapter in order; the first failure stops the loop. */
  function FillAll(items: seq<JsonValue>, fill: JsonValue -> Result<JsonValue>): (r: Result<seq<JsonValue>>)
    ensures r.Ok? ==> |r.value| == |items|
    ensures r.Ok? ==> forall i :: 0 <= i < |items| ==> fill(items[i]) == Ok(r.value[i])
    ensures r.Raise? ==> exists i :: 0 <= i < |items| && fill(items[i]) == Raise(r.error)
    decreases |items|
  {
    if items == [] then Ok([])
    else match FillAll(items[..|items| - 1], fill)
      case Raise(e) => Raise(e)
      case Ok(init) =>
        match fill(items[|items| - 1])
        case Raise(e) => Raise(e)
        case Ok(v) => Ok(init + [v])
  }

  /** What `_post_process_outline` reads without checking: a dict with a dict of characters and a plot dict holding a list. */
  predicate Processable(data: JsonValue) {
    data.JObject? && HasKey(data.members, "characters") && HasKey(data.members, "plot")
    && Lookup(data.members, "characters").JObject?
    && Lookup(data.members, "plot").JObject?
    && HasKey(Lookup(data.members, "plot").members, "outline")
    && Lookup(Lookup(data.members, "plot").members, "outline").JArray?
  }

  /** A validated outline is one the post-processing can read. */
  lemma WellFormedProcessable(data: JsonValue, n: int)
    requires WellFormed(data, n)
    ensures Processable(data)
  {
    KeyNames();
  }

  /** The plot dict with an empty premise and an empty theme list added when absent. */
  function FillPlot(plot: seq<Member>): (r: seq<Member>)
    ensures HasKey(r, "premise") && HasKey(r, "themes")
    ensures HasKey(plot, "premise") ==> Find(r, "premise") == Find(plot, "premise")
    ensures !HasKey(plot, "premise") ==> Find(r, "premise") == Some(JString(""))
    ensures HasKey(plot, "themes") ==> Find(r, "themes") == Find(plot, "themes")
    ensures !HasKey(plot, "themes") ==> Find(r, "themes") == Some(JArray([]))
    ensures forall k :: k != "premise" && k != "themes" ==> Find(r, k) == Find(plot, k)
  {
    var p := if HasKey(plot, "premise") then plot else Assign(plot, "premise", JString(""));
    if HasKey(p, "themes") then p else Assign(p, "themes", JArray([]))
  }

  /** `_post_process_outline`, with the TypeError Python raises on a character or a page estimate of the wrong type. */
  function PostProcessed(data: JsonValue): Result<JsonValue>
    requires Processable(data)
  {
    var characters := Lookup(data.members, "characters").members;
    var plot := Lookup(data.members, "plot").members;
    var outline := Lookup(plot, "outline").items;
    match FillStates(characters)
    case Raise(e) => Raise(e)
    case Ok(filled) =>
      match FillAll(outline, FillPages)
      case Raise(e) => Raise(e)
      case Ok(paged) =>
        match FillAll(paged, FillFocus)
        case Raise(e) => Raise(e)
        case Ok(focused) =>
          var plot' := FillPlot(Assign(plot, "outline", JArray(focused)));
          Ok(JObject(Assign(Assign(data.members, "characters", JObject(filled)), "plot", JObject(plot'))))
  }

  /** The characters of a readable outline. */
  function CharactersOf(data: JsonValue): seq<Member>
    requires Processable(data)
  {
    Lookup(data.members, "characters").members
  }

  /** The plot dict of a readable outline. */
  function PlotOf(data: JsonValue): seq<Member>
    requires Processable(data)
  {
    Lookup(data.members, "plot").members
  }

  /** The chapter list of a readable outline. */
  function ChaptersOf(data: JsonValue): seq<JsonValue>
    requires Processable(data)
  {
    Lookup(PlotOf(data), "outline").items
  }

  /** The post-processing raises only TypeError (a character or a page estimate of the wrong type). */
  lemma PostProcessErrors(data: JsonValue)
    requires Processable(data)
    ensures PostProcessed(data).Raise? ==> PostProcessed(data).error == TypeError
  {
    var paged := FillAll(ChaptersOf(data), FillPages);
    if paged.Ok? {
      var focused := FillAll(paged.value, FillFocus);
      if focused.Raise? {
        var i :| 0 <= i < |paged.value| && FillFocus(paged.value[i]) == Raise(focused.error);
      }
    } else {
      var i :| 0 <= i < |ChaptersOf(data)| && FillPages(ChaptersOf(data)[i]) == Raise(paged.error);
    }
  }

  /**
   * The post-processing only fills defaults: every section other than the
   * characters and the plot is untouched; the characters keep their names and
   * order and each has its state filled; each chapter has its estimate and its
   * focus filled; the plot keeps every other key and gains a premise and themes.
   */
  lemma PostProcessOnlyFills(data: JsonValue)
    requires Processable(data)
    ensures var r := PostProcessed(data);
      r.Ok? ==>
        Processable(r.value)
        && (forall k :: k != "characters" && k != "plot" ==> Find(r.value.members, k) == Find(data.members, k))
        && |CharactersOf(r.value)| == |CharactersOf(data)|
        && (forall i :: 0 <= i < |CharactersOf(data)| ==>
              CharactersOf(r.value)[i].key == CharactersOf(data)[i].key
              && FillState(CharactersOf(data)[i].value) == Ok(CharactersOf(r.value)[i].value))
        && |ChaptersOf(r.value)| == |ChaptersOf(data)|
        && (forall i :: 0 <= i < |ChaptersOf(data)| ==>
              FillPages(ChaptersOf(data)[i]).Ok?
              && FillFocus(FillPages(ChaptersOf(data)[i]).value) == Ok(ChaptersOf(r.value)[i]))
        && HasKey(PlotOf(r.value), "premise") && HasKey(PlotOf(r.value), "themes")
        && (forall k :: k != "outline" && k != "premise" && k != "themes" ==> Find(PlotOf(r.value), k) == Find(PlotOf(data), k))
  {
    var r := PostProcessed(data);
    if r.Ok? {
      var filled := FillStates(CharactersOf(data)).value;
      var paged := FillAll(ChaptersOf(data), FillPages).value;
      var focused := FillAll(paged, FillFocus).value;
      var plot' := FillPlot(Assign(PlotOf(data), "outline", JArray(focused)));
      var top := Assign(Assign(data.members, "characters", JObject(filled)), "plot", JObject(plot'));
      assert r.value == JObject(top);
      assert Find(top, "characters") == Some(JObject(filled));
      assert Find(top, "plot") == Some(JObject(plot'));
      assert Find(plot', "outline") == Some(JArray(focused));
    }
  }

  /** Filling a chapter's estimate and focus keeps it well formed. */
  lemma FilledChapterWellFormed(c: JsonValue, number: int, c': JsonValue)
    requires WellFormedChapter(c, number)
    requires FillPages(c).Ok? && FillFocus(FillPages(c).value) == Ok(c')
    ensures WellFormedChapter(c', number)
  {
    FillKeeps(c, c', "number");
    FillKeeps(c, c', "title");
    FillKeeps(c, c', "summary");
    FillKeeps(c, c', "key_events");
    assert HasKey(c'.members, "pages_estimate") by {
      var p := FillPages(c).value;
      assert Find(c'.members, "pages_estimate") == Find(p.members, "pages_estimate");
    }
    WellFormedChapterTransfer(c, c', number);
  }

  /** The two fills change no key but their own. */
  lemma FillKeeps(c: JsonValue, c': JsonValue, k: string)
    requires FillPages(c).Ok? && FillFocus(FillPages(c).value) == Ok(c')
    requires k != "pages_estimate" && k != "character_focus"
    ensures Find(c'.members, k) == Find(c.members, k)
  {
    var p := FillPages(c).value;
    assert Find(c'.members, k) == Find(p.members, k);
  }

  /** A dict that agrees with a well-formed chapter on its keys and has an estimate is well formed. */
  lemma WellFormedChapterTransfer(c: JsonValue, c': JsonValue, number: int)
    requires WellFormedChapter(c, number) && c'.JObject?
    requires Find(c'.members, "number") == Find(c.members, "number")
    requires Find(c'.members, "title") == Find(c.members, "title")
    requires Find(c'.members, "summary") == Find(c.members, "summary")
    requires Find(c'.members, "key_events") == Find(c.members, "key_events")
    requires HasKey(c'.members, "pages_estimate")
    ensures WellFormedChapter(c', number)
  {
    KeyNames();
  }

  /** A validated outline is still valid after the post-processing. */
  lemma PostProcessKeepsValid(data: JsonValue, n: int)
    requires WellFormed(data, n)
    ensures Processable(data)
    ensures PostProcessed(data).Ok? ==> WellFormed(PostProcessed(data).value, n)
  {
    WellFormedProcessable(data, n);
    PostProcessOnlyFills(data);
    var r := PostProcessed(data);
    if r.Ok? {
      var d := r.value;
      KeyNames();
      assert forall i :: 0 <= i < |RequiredSections| ==> HasKey(d.members, RequiredSections[i]);
      FilledChaptersWellFormed(ChaptersOf(data), ChaptersOf(d));
    }
  }

  lemma FilledChaptersWellFormed(olds: seq<JsonValue>, news: seq<JsonValue>)
    requires ChaptersWellFormed(olds, 0) && |news| == |olds|
    requires forall i :: 0 <= i < |olds| ==> FillPages(olds[i]).Ok? && FillFocus(FillPages(olds[i]).value) == Ok(news[i])
    ensures ChaptersWellFormed(news, 0)
  {
    forall i | 0 <= i < |news| ensures WellFormedChapter(news[i], 0 + i + 1) {
      FilledChapterWellFormed(olds[i], 0 + i + 1, news[i]);
    }
  }

  /** The post-processing succeeds when every character is a dict and every chapter a dict whose estimate, if any, is a number. */
  lemma PostProcessSucceeds(data: JsonValue)
    requires Processable(data)
    requires forall i :: 0 <= i < |CharactersOf(data)| ==> CharactersOf(data)[i].value.JObject?
    requires forall i :: 0 <= i < |ChaptersOf(data)| ==>
      (ChaptersOf(data)[i].JObject? && (HasKey(ChaptersOf(data)[i].members, "pages_estimate") ==>
         NumberOf(Lookup(ChaptersOf(data)[i].members, "pages_estimate")).Some?))
    ensures PostProcessed(data).Ok?
  {
    FillStatesSucceed(CharactersOf(data));
    FillAllSucceeds(ChaptersOf(data), FillPages);
    FillAllSucceeds(FillAll(ChaptersOf(data), FillPages).value, FillFocus);
  }

  lemma {:induction false} FillStatesSucceed(ms: seq<Member>)
    requires forall i :: 0 <= i < |ms| ==> ms[i].value.JObject?
    ensures FillStates(ms).Ok?
    decreases |ms|
  {
    if ms != [] {
      var init := ms[..|ms| - 1];
      assert forall i :: 0 <= i < |init| ==> init[i] == ms[i];
      FillStatesSucceed(init);
    }
  }

  lemma {:induction false} FillAllSucceeds(items: seq<JsonValue>, fill: JsonValue -> Result<JsonValue>)
    requires forall i :: 0 <= i < |items| ==> fill(items[i]).Ok?
    ensures FillAll(items, fill).Ok?
    decreases |items|
  {
    if items != [] {
      var init := items[..|items| - 1];
      assert forall i :: 0 <= i < |init| ==> init[i] == items[i];
      FillAllSucceeds(init, fill);
    }
  }

  /** Once a prefix of the character loop raises, the whole loop raises the same error. */
  lemma {:induction false} FillStatesStops(ms: seq<Member>, j: nat)
    requires j <= |ms| && FillStates(ms[..j]).Raise?
    ensures FillStates(ms) == FillStates(ms[..j])
    decreases |ms|
  {
    if j < |ms| {
      var init := ms[..|ms| - 1];
      assert init[..j] == ms[..j];
      FillStatesStops(init, j);
    } else {
      assert ms[..j] == ms;
    }
  }

  /** Once a prefix of a chapter loop raises, the whole loop raises the same error. */
  lemma {:induction false} FillAllStops(items: seq<JsonValue>, fill: JsonValue -> Result<JsonValue>, j: nat)
    requires j <= |items| && FillAll(items[..j], fill).Raise?
    ensures FillAll(items, fill) == FillAll(items[..j], fill)
    decreases |items|
  {
    if j < |items| {
      var init := items[..|items| - 1];
      assert init[..j] == items[..j];
      FillAllStops(init, fill, j);
    } else {
      assert items[..j] == items;
    }
  }

  /** The character loop of `_post_process_outline`, one character at a time in dict order. */
  method FillCharacterStates(ms: seq<Member>) returns (r: Result<seq<Member>>)
    ensures r == FillStates(ms)
  {
    var filled: seq<Member> := [];
    for i := 0 to |ms|
      invariant FillStates(ms[..i]) == Ok(filled)
    {
      assert ms[..i + 1][..i] == ms[..i];
      var v := FillState(ms[i].value);
      if v.Raise? {
        FillStatesStops(ms, i + 1);
        return Raise(v.error);
      }
      filled := filled + [Member(ms[i].key, v.value)];
    }
    assert ms[..|ms|] == ms;
    r := Ok(filled);
  }

  /** One chapter loop of `_post_process_outline`, one chapter at a time in list order. */
  method FillChapters(items: seq<JsonValue>, fill: JsonValue -> Result<JsonValue>) returns (r: Result<seq<JsonValue>>)
    ensures r == FillAll(items, fill)
  {
    var filled: seq<JsonValue> := [];
    for i := 0 to |items|
      invariant FillAll(items[..i], fill) == Ok(filled)
    {
      assert items[..i + 1][..i] == items[..i];
      var v := fill(items[i]);
      if v.Raise? {
        FillAllStops(items, fill, i + 1);
        return Raise(v.error);
      }
      filled := filled + [v.value];
    }
    assert items[..|items|] == items;
    r := Ok(filled);
  }

  /** `_post_process_outline`: the three loops, then the plot defaults. */
  method PostProcessOutline(data: JsonValue) returns (r: Result<JsonValue>)
    requires Processable(data)
    ensures r == PostProcessed(data)
  {
    var plot := PlotOf(data);
    var filled := FillCharacterStates(CharactersOf(data));
    if filled.Raise? {
      return Raise(filled.error);
    }
    var paged := FillChapters(ChaptersOf(data), FillPages);
    if paged.Raise? {
      return Raise(paged.error);
    }
    var focused := FillChapters(paged.value, FillFocus);
    if focused.Raise? {
      return Raise(focused.error);
    }
    var plot' := FillPlot(Assign(plot, "outline", JArray(focused.value)));
    r := Ok(JObject(Assign(Assign(data.members, "characters", JObject(filled.value)), "plot", JObject(plot'))));
  }

  // ---------------------------------------------------------------- generation

  /**
   * What `generate` returns: the parse-failure message built from the first
   * 500 characters of the response, the first validation problem, or the
   * post-processed outline.
   */
  datatype Outcome = ParseFailed(excerpt: string) | InvalidOutline(problem: Problem) | Generated(outline: JsonValue)

  /** What `generate` makes of the model's response for `n` chapters. */
  function GenerateOutcome(parse: Parser, response: string, n: int): (r: Result<Outcome>)
    ensures ParseOutlineResponse(parse, response).None? <==> r == Ok(ParseFailed(Text.Take(response, 500)))
    ensures r.Raise? ==> r.error == TypeError
    ensures r.Ok? && r.value.InvalidOutline? ==>
      ParseOutlineResponse(parse, response).Some?
      && Validate(ParseOutlineResponse(parse, response).value, n) == Ok(Some(r.value.problem))
    ensures r.Ok? && r.value.Generated? ==>
      ParseOutlineResponse(parse, response).Some?
      && WellFormed(ParseOutlineResponse(parse, response).value, n)
      && WellFormed(r.value.outline, n)
    ensures r.Ok? && r.value.Generated? ==>
      ParseOutlineResponse(parse, response).Some?
      && Processable(ParseOutlineResponse(parse, response).value)
      && PostProcessed(ParseOutlineResponse(parse, response).value) == Ok(r.value.outline)
  {
    match ParseOutlineResponse(parse, response)
    case None => Ok(ParseFailed(Text.Take(response, 500)))
    case Some(data) =>
      ValidateErrors(data, n);
      match Validate(data, n)
      case Raise(e) => Raise(e)
      case Ok(Some(p)) => Ok(InvalidOutline(p))
      case Ok(None) =>
        ValidateSound(data, n);
        PostProcessKeepsValid(data, n);
        PostProcessErrors(data);
        match PostProcessed(data)
        case Raise(e) => Raise(e)
        case Ok(d) => Ok(Generated(d))
  }

  /** `OutlineGenerator`: the prompt builder, the call into the model and the parser it uses. */
  class OutlineGenerator {
    const client: GroqCall.Client
    const builder: PromptBuilder.PromptBuilder
    const parse: Parser

    constructor(client: GroqCall.Client, builder: PromptBuilder.PromptBuilder, parse: Parser)
      ensures this.client == client && this.builder == builder && this.parse == parse
    {
      this.client := client;
      this.builder := builder;
      this.parse := parse;
    }

    /**
     * `generate`, where `system` is the system prompt the model call sends
     * with every request: one retry loop on the outline prompt, then parse,
     * validate and post-process its text.
     */
    method Generate(system: string, premise: string, chapters: int, themes: string, authorStyle: string)
      returns (r: Result<Outcome>)
      modifies client
      ensures
        var o := GroqCall.Retry(GroqCall.Replies(client, old(client.calls)), client.waitOf, 0);
        var prompt := builder.OutlinePrompt(premise, chapters, themes, authorStyle);
        r == GenerateOutcome(parse, o.text, chapters) &&
        client.calls == old(client.calls) + o.attempts &&
        client.requests == old(client.requests) + GroqCall.Repeat(GroqCall.Request(system, prompt), o.attempts) &&
        client.slept == old(client.slept) + o.sleeps
    {
      var prompt := builder.OutlinePrompt(premise, chapters, themes, authorStyle);
      var response := GroqCall.CallGroq(client, system, prompt);
      var parsed := ParseOutlineResponse(parse, response);
      if parsed.None? {
        return Ok(ParseFailed(Text.Take(response, 500)));
      }
      var verdict := Validate(parsed.value, chapters);
      if verdict.Raise? {
        return Raise(verdict.error);
      }
      if verdict.value.Some? {
        return Ok(InvalidOutline(verdict.value.value));
      }
      ValidateSound(parsed.value, chapters);
      WellFormedProcessable(parsed.value, chapters);
      var processed := PostProcessOutline(parsed.value);
      if processed.Raise? {
        return Raise(processed.error);
      }
      r := Ok(Generated(processed.value));
    }
  }

  // ---------------------------------------------------------------- outline summary

  /*
   * `get_outline_summary` only builds text for the log; what it does to the
   * engine is whether it raises, and which error. The text itself is not
   * modelled.
   */

  /** What a slice `v[:80]` accepts: a str or a list. */
  predicate Sliceable(v: JsonValue) {
    v.JString? || v.JArray?
  }

  /** The world dict the summary reads, `outline_data.get('world', {})`; empty when there is none to read. */
  function WorldOf(data: JsonValue): seq<Member> {
    if data.JObject? && MemberOr(data.members, "world", JObject([])).JObject?
    then MemberOr(data.members, "world", JObject([])).members
    else []
  }

  /** `world.get('key_locations', {})`, and whether `if locations: len(locations)` raises. */
  predicate BadLocations(world: seq<Member>) {
    var locations := MemberOr(world, "key_locations", JObject([]));
    Truthy(locations) && Len(locations).Raise?
  }

  /** The world lines: `.get` needs a dict, and true `key_locations` need a length. */
  function SummaryWorld(data: JsonValue): (r: Result<()>)
    ensures r.Ok? <==> data.JObject? && MemberOr(data.members, "world", JObject([])).JObject? && !BadLocations(WorldOf(data))
  {
    match Get(data, "world", JObject([]))
    case Raise(e) => Raise(e)
    case Ok(world) =>
      match world
      case JObject(ms) => if BadLocations(ms) then Raise(TypeError) else Ok(())
      case _ => Raise(AttributeError)
  }

  /** The character lines: `len(characters)`, then `characters.keys()`, which only a dict has. */
  function SummaryCharacters(data: JsonValue): (r: Result<()>)
    ensures data.JObject? ==> (r.Ok? <==> MemberOr(data.members, "characters", JObject([])).JObject?)
  {
    match Get(data, "characters", JObject([]))
    case Raise(e) => Raise(e)
    case Ok(characters) =>
      if Len(characters).Raise? then Raise(TypeError)
      else if !characters.JObject? then Raise(AttributeError)
      else Ok(())
  }

  /** `ch.get('pages_estimate', 0)` of one chapter, or None when `ch` has no `.get`. */
  function EstimateOf(ch: JsonValue): Option<JsonValue> {
    match ch
    case JObject(ms) => Some(MemberOr(ms, "pages_estimate", JInt(0)))
    case _ => None
  }

  /** One term of the sum: a chapter without `.get` raises AttributeError, an estimate that is not a number raises TypeError when added. */
  function AddEstimate(ch: JsonValue): (r: Result<()>)
    ensures r.Ok? <==> EstimateOf(ch).Some? && NumberOf(EstimateOf(ch).value).Some?
  {
    match EstimateOf(ch)
    case None => Raise(AttributeError)
    case Some(x) => if NumberOf(x).None? then Raise(TypeError) else Ok(())
  }

  /** `sum(ch.get('pages_estimate', 0) for ch in outline)`, chapter by chapter; the first raise wins. */
  function SumEstimates(items: seq<JsonValue>): (r: Result<()>)
    ensures r.Ok? <==> forall i :: 0 <= i < |items| ==> AddEstimate(items[i]).Ok?
    decreases |items|
  {
    if items == [] then Ok(())
    else if AddEstimate(items[0]).Raise? then AddEstimate(items[0])
    else
      var rest := SumEstimates(items[1..]);
      assert forall i :: 1 <= i < |items| ==> items[i] == items[1..][i - 1];
      rest
  }

  /** The summary `chapter.get('summary', 'Sin resumen')` slices, on a dict chapter. */
  function SummaryOf(ms: seq<Member>): JsonValue {
    MemberOr(ms, "summary", JString("Sin resumen"))
  }

  /** One of the first three chapters is a dict whose summary does not slice. */
  predicate UnslicedHead(items: seq<JsonValue>) {
    exists i :: 0 <= i < |items| && i < 3 && items[i].JObject? && !Sliceable(SummaryOf(items[i].members))
  }

  /** What one chapter line can raise: `chapter['number']` and `chapter['title']` need the keys, and the summary must slice. */
  function ChapterLine(ch: JsonValue): (r: Result<()>)
    ensures ch.JObject? && HasKey(ch.members, "number") && HasKey(ch.members, "title") ==>
      (r.Ok? <==> Sliceable(SummaryOf(ch.members)))
  {
    match ch
    case JObject(ms) =>
      if !HasKey(ms, "number") || !HasKey(ms, "title") then Raise(KeyError)
      else if !Sliceable(SummaryOf(ms)) then Raise(TypeError)
      else Ok(())
    case _ => Raise(TypeError)
  }

  /** The lines of the given chapters, in order; the first raise wins. */
  function ChapterLines(items: seq<JsonValue>): (r: Result<()>)
    ensures r.Ok? <==> forall i :: 0 <= i < |items| ==> ChapterLine(items[i]).Ok?
    decreases |items|
  {
    if items == [] then Ok(())
    else if ChapterLine(items[0]).Raise? then ChapterLine(items[0])
    else
      var rest := ChapterLines(items[1..]);
      assert forall i :: 1 <= i < |items| ==> items[i] == items[1..][i - 1];
      rest
  }

  /** `outline[:3]` on a list. */
  function FirstThree(items: seq<JsonValue>): (r: seq<JsonValue>)
    ensures |r| == if |items| < 3 then |items| else 3
    ensures r == items[..|r|]
  {
    if |items| < 3 then items else items[..3]
  }

  /** After the sum: the first three chapters of a list are shown; slicing a dict (reached only with an empty one) fails; an empty str shows nothing. */
  function ShownChapters(outline: JsonValue, items: seq<JsonValue>): Result<()> {
    if outline.JObject? then Raise(TypeError)
    else if outline.JString? then Ok(())
    else ChapterLines(FirstThree(items))
  }

  /**
   * The chapter lines: `plot.get` and `outline` read with their defaults;
   * `len(outline)` needs a length; the estimates are summed; then the first
   * chapters are shown.
   */
  function SummaryChapters(data: JsonValue): (r: Result<()>)
  {
    match Get(data, "plot", JObject([]))
    case Raise(e) => Raise(e)
    case Ok(plot) =>
      match Get(plot, "outline", JArray([]))
      case Raise(e) => Raise(e)
      case Ok(outline) =>
        match Iterate(outline)
        case Raise(e) => Raise(e)
        case Ok(items) =>
          if SumEstimates(items).Raise? then SumEstimates(items) else ShownChapters(outline, items)
  }

  /** Whether `get_outline_summary` gets through: the world, character and chapter lines, in that order. */
  function OutlineSummary(data: JsonValue): Result<()> {
    if SummaryWorld(data).Raise? then SummaryWorld(data)
    else if SummaryCharacters(data).Raise? then SummaryCharacters(data)
    else SummaryChapters(data)
  }

  /** The chapter loop of `get_outline_summary` over `outline[:3]`. */
  method ShowChapters(items: seq<JsonValue>) returns (r: Result<()>)
    ensures r == ChapterLines(items)
  {
    r := Ok(());
    var i := 0;
    while i < |items| && r.Ok?
      invariant 0 <= i <= |items|
      invariant ChapterLines(items) == if r.Ok? then ChapterLines(items[i..]) else r
      decreases |items| - i
    {
      var rest := items[i..];
      assert rest[0] == items[i] && rest[1..] == items[i + 1..];
      r := ChapterLine(items[i]);
      i := i + 1;
    }
    if r.Ok? {
      assert items[i..] == [];
      assert ChapterLines(items[i..]) == Ok(());
      assert r.value == ();
    }
  }

  /** The generator that `sum` consumes, one chapter at a time. */
  method AddEstimates(items: seq<JsonValue>) returns (r: Result<()>)
    ensures r == SumEstimates(items)
  {
    r := Ok(());
    var i := 0;
    while i < |items| && r.Ok?
      invariant 0 <= i <= |items|
      invariant SumEstimates(items) == if r.Ok? then SumEstimates(items[i..]) else r
      decreases |items| - i
    {
      var rest := items[i..];
      assert rest[0] == items[i] && rest[1..] == items[i + 1..];
      r := AddEstimate(items[i]);
      i := i + 1;
    }
    if r.Ok? {
      assert items[i..] == [];
      assert SumEstimates(items[i..]) == Ok(());
      assert r.value == ();
    }
  }

  /** `get_outline_summary`, seen through whether it raises. */
  method GetOutlineSummary(data: JsonValue) returns (r: Result<()>)
    ensures r == OutlineSummary(data)
  {
    r := SummaryWorld(data);
    if r.Raise? {
      return;
    }
    r := SummaryCharacters(data);
    if r.Raise? {
      return;
    }
    var plot := MemberOr(data.members, "plot", JObject([]));
    var outline := Get(plot, "outline", JArray([]));
    if outline.Raise? {
      return Raise(outline.error);
    }
    var items := Iterate(outline.value);
    if items.Raise? {
      return Raise(items.error);
    }
    r := AddEstimates(items.value);
    if r.Raise? {
      return;
    }
    if outline.value.JObject? {
      return Raise(TypeError);
    }
    if outline.value.JString? {
      return Ok(());
    }
    r := ShowChapters(FirstThree(items.value));
  }

  /** Every chapter is a dict whose page estimate is a number. */
  predicate EstimatesNumbers(items: seq<JsonValue>) {
    forall i :: 0 <= i < |items| ==>
      (items[i].JObject? && HasKey(items[i].members, "pages_estimate") && NumberOf(Lookup(items[i].members, "pages_estimate")).Some?)
  }

  /** The post-processing leaves a number for every page estimate. */
  lemma ProcessedEstimates(data: JsonValue, d: JsonValue)
    requires Processable(data) && PostProcessed(data) == Ok(d)
    ensures Processable(d) && EstimatesNumbers(ChaptersOf(d))
  {
    PostProcessOnlyFills(data);
    var olds, news := ChaptersOf(data), ChaptersOf(d);
    forall i | 0 <= i < |news|
      ensures news[i].JObject? && HasKey(news[i].members, "pages_estimate")
        && NumberOf(Lookup(news[i].members, "pages_estimate")).Some?
    {
      var paged := FillPages(olds[i]).value;
      assert FillFocus(paged) == Ok(news[i]);
      assert Find(news[i].members, "pages_estimate") == Find(paged.members, "pages_estimate");
    }
  }

  /** A generated outline has a number for every page estimate. */
  lemma GeneratedEstimates(parse: Parser, response: string, n: int, d: JsonValue)
    requires GenerateOutcome(parse, response, n) == Ok(Generated(d))
    ensures Processable(d) && EstimatesNumbers(ChaptersOf(d))
  {
    var data := ParseOutlineResponse(parse, response).value;
    ProcessedEstimates(data, d);
  }

  /** On a valid outline the world lines raise exactly on true `key_locations` without a length, and the character lines never do. */
  lemma ValidSummaryHead(data: JsonValue, n: int)
    requires WellFormed(data, n)
    ensures SummaryWorld(data).Raise? <==> BadLocations(WorldOf(data))
    ensures SummaryCharacters(data).Ok?
  {
    KeyNames();
    assert HasKey(data.members, RequiredSections[0]) && HasKey(data.members, RequiredSections[1]);
  }

  /** Sums of numbers do not raise. */
  lemma NumbersSum(items: seq<JsonValue>)
    requires EstimatesNumbers(items)
    ensures SumEstimates(items).Ok?
  {
    forall i | 0 <= i < |items| ensures AddEstimate(items[i]).Ok? {
      assert EstimateOf(items[i]).value == Lookup(items[i].members, "pages_estimate");
    }
  }

  /** On a readable outline whose estimates are numbers, the chapter part is the lines of the first three chapters. */
  lemma ValidSummaryChapters(data: JsonValue)
    requires Processable(data) && EstimatesNumbers(ChaptersOf(data))
    ensures SummaryChapters(data) == ChapterLines(FirstThree(ChaptersOf(data)))
  {
    NumbersSum(ChaptersOf(data));
  }

  /** Well-formed chapters show without raising exactly when each of the first three summaries slices. */
  lemma ShownChaptersIff(items: seq<JsonValue>)
    requires ChaptersWellFormed(items, 0)
    ensures ChapterLines(FirstThree(items)).Raise? <==>
      UnslicedHead(items)
  {
    KeyNames();
    var shown := FirstThree(items);
    forall i | 0 <= i < |shown|
      ensures ChapterLine(shown[i]).Ok? <==> Sliceable(SummaryOf(items[i].members))
    {
      assert shown[i] == items[i];
      assert WellFormedChapter(items[i], i + 1);
      assert HasKey(items[i].members, ChapterKeys[0]) && HasKey(items[i].members, ChapterKeys[1]);
    }
  }

  /**
   * On a valid outline whose estimates are numbers the summary raises
   * exactly on true `key_locations` without a length, or on one of the first
   * three chapters whose summary does not slice (null, a number, a bool or a
   * dict).
   */
  lemma SummaryOfValid(data: JsonValue, n: int)
    requires WellFormed(data, n)
    requires Processable(data) && EstimatesNumbers(ChaptersOf(data))
    ensures OutlineSummary(data).Raise? <==>
      BadLocations(WorldOf(data))
      || UnslicedHead(ChaptersOf(data))
  {
    ValidSummaryHead(data, n);
    ValidSummaryChapters(data);
    WellFormedProcessable(data, n);
    assert ChaptersWellFormed(ChaptersOf(data), 0);
    ShownChaptersIff(ChaptersOf(data));
  }

  /**
   * The summary of a valid outline after the post-processing (what
   * `generate` hands back, see `GenerateOutcome`) raises exactly on true
   * `key_locations` without a length, or on one of the first three chapters
   * whose summary does not slice.
   */
  lemma SummaryOfProcessed(data: JsonValue, d: JsonValue, n: int)
    requires Processable(data) && PostProcessed(data) == Ok(d) && WellFormed(d, n)
    ensures Processable(d)
    ensures OutlineSummary(d).Raise? <==>
      BadLocations(WorldOf(d))
      || UnslicedHead(ChaptersOf(d))
  {
    ProcessedEstimates(data, d);
    SummaryOfValid(d, n);
  }

  /** The summary of a generated outline: `SummaryOfProcessed` for what `GenerateOutcome` returns. */
  lemma GeneratedSummary(parse: Parser, response: string, n: int, d: JsonValue)
    requires GenerateOutcome(parse, response, n) == Ok(Generated(d))
    ensures Processable(d)
    ensures OutlineSummary(d).Raise? <==> BadLocations(WorldOf(d)) || UnslicedHead(ChaptersOf(d))
  {
    var data := ParseOutlineResponse(parse, response).value;
    SummaryOfProcessed(data, d, n);
  }
}
