/**
 * The character-state pipeline (bookwriter/generators/character_updater.py):
 * after a chapter, one model call proposes a new state per character; the
 * reply is cleaned and parsed like the outline, unwrapped from
 * "character_updates", and every expected name gets either a stripped,
 * bounded new state or its previous one. Beside it, mention counts, the
 * active characters of a text and the keyword test for a significant change.
 */
module CharacterUpdater {
  import opened Wrappers
  import Text
  import opened Json
  import GroqCall
  import OutlineGenerator

  // ---------------------------------------------------------------- prompt

  /** The wording of the `character_update` template before the excerpt, before the names and after them. */
  const UpdateHead: string
  const UpdateNames: string
  const UpdateTail: string

  /** `PromptTemplates.character_update`: the last 2000 characters of the chapter, then the names joined by ", ". */
  function UpdatePrompt(content: string, names: seq<string>): (r: string)
    ensures Text.StartsWith(r, UpdateHead + Text.TakeLast(content, 2000))
    ensures Text.EndsWith(r, Text.Join(", ", names) + UpdateTail)
  {
    var head := UpdateHead + Text.TakeLast(content, 2000);
    var tail := Text.Join(", ", names) + UpdateTail;
    var r := head + (UpdateNames + tail);
    assert r[..|head|] == head;
    assert r[|r| - |tail|..] == tail;
    r
  }

  // ---------------------------------------------------------------- parsing

  const UpdatesKey := "character_updates"

  /**
   * The unwrapping in `_parse_update_response`: the value under
   * "character_updates" when `in` finds that key, the whole value otherwise.
   * An exception (`in` or an index on a value of the wrong type) gives None.
   */
  function Unwrap(data: JsonValue): (r: Option<JsonValue>)
    ensures data.JObject? ==>
      r == Some(if HasKey(data.members, UpdatesKey) then Lookup(data.members, UpdatesKey) else data)
    ensures !(data.JObject? || data.JArray? || data.JString?) ==> r.None?
    ensures data.JArray? || data.JString? ==> (r.None? <==> In(UpdatesKey, data) == Ok(true))
    ensures r.Some? && !data.JObject? ==> r == Some(data)
  {
    match In(UpdatesKey, data)
    case Raise(_) => None
    case Ok(false) => Some(data)
    case Ok(true) =>
      match GetItem(data, UpdatesKey)
      case Raise(_) => None
      case Ok(u) => Some(u)
  }

  /** `_parse_update_response`: the response cleaned like an outline, parsed, then unwrapped; a parse error gives None. */
  function ParseUpdateResponse(parse: Parser, response: string): Option<JsonValue> {
    match parse(OutlineGenerator.Cleaned(response))
    case None => None
    case Some(data) => Unwrap(data)
  }

  /** A fenced reply whose body parses to {"character_updates": u} yields u. */
  lemma FencedUpdatesUnwrap(parse: Parser, tag: string, lead: string, body: string, trail: string, u: JsonValue)
    requires tag == OutlineGenerator.JsonFence || tag == OutlineGenerator.Fence
    requires Text.IsBlank(lead) && Text.IsBlank(trail) && OutlineGenerator.JsonLike(body)
    requires parse(body) == Some(JObject([Member(UpdatesKey, u)]))
    ensures ParseUpdateResponse(parse, tag + lead + body + trail + OutlineGenerator.Fence) == Some(u)
  {
    OutlineGenerator.CleanedFenced(tag, lead, body, trail);
    UnwrapsWrapped(u);
  }

  /** {"character_updates": u} unwraps to u. */
  lemma UnwrapsWrapped(u: JsonValue)
    ensures Unwrap(JObject([Member(UpdatesKey, u)])) == Some(u)
  {
    assert Find([Member(UpdatesKey, u)], UpdatesKey) == Some(u);
  }

  // ---------------------------------------------------------------- validation

  const Unknown := "Estado desconocido"
  const Ellipsis := "..."

  /** A proposed state, stripped: refused when 5 characters or fewer, cut to 197 characters and "..." when over 200. */
  function Accepted(s: string): (r: Option<string>)
    ensures r.Some? <==> |Text.Strip(s)| > 5
    ensures r.Some? ==> 6 <= |r.value| <= 200
    ensures r.Some? && |Text.Strip(s)| <= 200 ==> r.value == Text.Strip(s)
    ensures r.Some? && |Text.Strip(s)| > 200 ==> r.value == Text.Strip(s)[..197] + Ellipsis
  {
    var t := Text.Strip(s);
    if |t| > 5 then
      Some(if |t| > 200 then t[..197] + Ellipsis else t)
    else None
  }

  /** An accepted state is accepted again unchanged: validating twice is validating once. */
  lemma AcceptedIdempotent(s: string)
    requires Accepted(s).Some?
    ensures Accepted(Accepted(s).value) == Accepted(s)
  {
    var t := Text.Strip(s);
    var a := Accepted(s).value;
    if |t| > 200 {
      assert a[0] == t[0] && a[|a| - 1] == '.';
    }
    Text.StripNoop(a);
  }

  /** `current_states.get(name, "Estado desconocido")`. */
  function Fallback(current: map<string, string>, name: string): (r: string)
    ensures name in current ==> r == current[name]
    ensures name !in current ==> r == Unknown
  {
    if name in current then current[name] else Unknown
  }

  /**
   * The state `_validate_updates` gives one expected name: TypeError where
   * `in` or the index is applied to a value of the wrong type,
   * AttributeError where the proposed state is not a string.
   */
  function StateFor(updates: JsonValue, name: string, current: map<string, string>): (r: Result<string>)
    ensures r.Raise? <==>
      !(updates.JObject? || updates.JArray? || updates.JString?)
      || (In(name, updates) == Ok(true) && !updates.JObject?)
      || (updates.JObject? && HasKey(updates.members, name) && !Lookup(updates.members, name).JString?)
    ensures r.Raise? ==> r.error == TypeError || r.error == AttributeError
    ensures updates.JObject? && HasKey(updates.members, name) && Lookup(updates.members, name).JString? ==>
      r == Ok(Accepted(Lookup(updates.members, name).s).GetOr(Fallback(current, name)))
    ensures In(name, updates) == Ok(false) ==> r == Ok(Fallback(current, name))
  {
    match In(name, updates)
    case Raise(e) => Raise(e)
    case Ok(false) => Ok(Fallback(current, name))
    case Ok(true) =>
      match GetItem(updates, name)
      case Raise(e) => Raise(e)
      case Ok(v) =>
        match StripValue(v)
        case Raise(e) => Raise(e)
        case Ok(_) => Ok(Accepted(v.s).GetOr(Fallback(current, name)))
  }

  /**
   * `r` is what `_validate_updates` returns for these names: the first name
   * whose state raises stops the loop with that error; otherwise the keys are
   * exactly the names and each holds its state.
   */
  ghost predicate IsValidation(r: Result<map<string, string>>, updates: JsonValue, names: seq<string>, current: map<string, string>) {
    (r.Ok? <==> forall i :: 0 <= i < |names| ==> StateFor(updates, names[i], current).Ok?)
    && (r.Ok? ==>
          (forall n :: n in r.value <==> n in names)
          && forall i :: 0 <= i < |names| ==> r.value[names[i]] == StateFor(updates, names[i], current).value)
    && (r.Raise? ==>
          exists i :: 0 <= i < |names| && StateFor(updates, names[i], current) == Raise(r.error)
            && forall j :: 0 <= j < i ==> StateFor(updates, names[j], current).Ok?)
  }

  /** `_validate_updates`: one state per expected name, built in a fresh dict. */
  method ValidateUpdates(updates: JsonValue, names: seq<string>, current: map<string, string>)
    returns (r: Result<map<string, string>>)
    ensures IsValidation(r, updates, names, current)
  {
    var validated: map<string, string> := map[];
    for i := 0 to |names|
      invariant forall n :: n in validated <==> n in names[..i]
      invariant forall j :: 0 <= j < i ==> StateFor(updates, names[j], current).Ok?
      invariant forall j :: 0 <= j < i ==> validated[names[j]] == StateFor(updates, names[j], current).value
    {
      var s := StateFor(updates, names[i], current);
      if s.Raise? {
        return Raise(s.error);
      }
      validated := validated[names[i] := s.value];
    }
    assert names[..|names|] == names;
    r := Ok(validated);
  }

  /** Every state a validation produces is an accepted proposal or the previous state. */
  lemma ValidatedStates(r: Result<map<string, string>>, updates: JsonValue, names: seq<string>, current: map<string, string>, i: nat)
    requires IsValidation(r, updates, names, current) && r.Ok? && i < |names|
    ensures var s := r.value[names[i]];
      s == Fallback(current, names[i]) ||
      (updates.JObject? && HasKey(updates.members, names[i]) && Lookup(updates.members, names[i]).JString? &&
       Accepted(Lookup(updates.members, names[i]).s) == Some(s) && 6 <= |s| <= 200)
  {
  }

  // ---------------------------------------------------------------- mentions

  /**
   * One name's mentions: `text.count(name)`, plus, for a name with a space,
   * the count of its first word (which never equals the name, as it holds no
   * space). A name of spaces only has no first word: IndexError.
   */
  function MentionCount(text: string, name: string): (r: Result<nat>)
    ensures r.Raise? <==> Text.Contains(name, " ") && Text.IsBlank(name)
    ensures r.Raise? ==> r.error == IndexError
    ensures !Text.Contains(name, " ") ==> r == Ok(Text.Count(text, name))
    ensures r.Ok? && Text.Contains(name, " ") ==>
      r.value == Text.Count(text, name) + Text.Count(text, Text.Words(name)[0])
  {
    var full := Text.Count(text, name);
    if !Text.Contains(name, " ") then Ok(full)
    else
      var words := Text.Words(name);
      if words == [] then Raise(IndexError)
      else Ok(full + Text.Count(text, words[0]))
  }

  /** A name with its number of mentions. */
  datatype Mention = Mention(name: string, count: nat)

  function NamesOf(ms: seq<Mention>): (r: seq<string>)
    ensures |r| == |ms|
    ensures forall i :: 0 <= i < |ms| ==> r[i] == ms[i].name
  {
    seq(|ms|, i requires 0 <= i < |ms| => ms[i].name)
  }

  predicate Distinct(xs: seq<string>) {
    forall i, j :: 0 <= i < j < |xs| ==> xs[i] != xs[j]
  }

  /** The names in the order of their first occurrence, each once: the key order of a dict filled from them. */
  function Dedup(xs: seq<string>): (r: seq<string>)
    ensures Distinct(r)
    ensures forall x :: x in r <==> x in xs
    decreases |xs|
  {
    if xs == [] then []
    else
      var init := Dedup(xs[..|xs| - 1]);
      var x := xs[|xs| - 1];
      assert forall y :: y in xs <==> y in xs[..|xs| - 1] || y == x;
      if x in init then init else init + [x]
  }

  /** `mentions[name] = total` on a dict kept in insertion order. */
  function Put(ms: seq<Mention>, name: string, count: nat): (r: seq<Mention>)
    ensures NamesOf(r) == if name in NamesOf(ms) then NamesOf(ms) else NamesOf(ms) + [name]
    ensures forall i :: 0 <= i < |r| ==> r[i] == (if r[i].name == name then Mention(name, count) else ms[i])
  {
    if name in NamesOf(ms) then
      seq(|ms|, i requires 0 <= i < |ms| => if ms[i].name == name then Mention(name, count) else ms[i])
    else ms + [Mention(name, count)]
  }

  /** Every entry holds its name's mention count. */
  predicate Counted(text: string, ms: seq<Mention>) {
    forall k :: 0 <= k < |ms| ==> MentionCount(text, ms[k].name) == Ok(ms[k].count)
  }

  lemma PutCounted(text: string, ms: seq<Mention>, name: string, count: nat)
    requires Counted(text, ms) && MentionCount(text, name) == Ok(count)
    ensures Counted(text, Put(ms, name, count))
  {
    var r := Put(ms, name, count);
    forall k | 0 <= k < |r| ensures MentionCount(text, r[k].name) == Ok(r[k].count) {
      assert NamesOf(r)[k] == r[k].name;
    }
  }

  /** One more name: the first-occurrence order grows by it when it is new. */
  lemma DedupStep(names: seq<string>, i: nat)
    requires i < |names|
    ensures Dedup(names[..i + 1]) == if names[i] in Dedup(names[..i]) then Dedup(names[..i]) else Dedup(names[..i]) + [names[i]]
  {
    assert names[..i + 1][..i] == names[..i];
  }

  /**
   * `extract_character_mentions`: a dict from each name, in first-occurrence
   * order, to its mention count; IndexError at the first name of spaces only.
   */
  method ExtractMentions(text: string, names: seq<string>) returns (r: Result<seq<Mention>>)
    ensures r.Ok? <==> forall i :: 0 <= i < |names| ==> MentionCount(text, names[i]).Ok?
    ensures r.Raise? ==> r.error == IndexError
    ensures r.Ok? ==> NamesOf(r.value) == Dedup(names)
    ensures r.Ok? ==> Counted(text, r.value)
  {
    var mentions: seq<Mention> := [];
    for i := 0 to |names|
      invariant Countable(text, names, i)
      invariant NamesOf(mentions) == Dedup(names[..i])
      invariant Counted(text, mentions)
    {
      var total := MentionCount(text, names[i]);
      if total.Raise? {
        assert !MentionCount(text, names[i]).Ok?;
        return Raise(total.error);
      }
      DedupStep(names, i);
      PutCounted(text, mentions, names[i], total.value);
      mentions := Put(mentions, names[i], total.value);
    }
    assert names[..|names|] == names;
    r := Ok(mentions);
  }

  /** The first `i` names have a mention count. */
  predicate Countable(text: string, names: seq<string>, i: nat)
    requires i <= |names|
  {
    forall j :: 0 <= j < i ==> MentionCount(text, names[j]).Ok?
  }

  /** The names of the entries counted at least `threshold` times, in dict order. */
  function AtLeast(ms: seq<Mention>, threshold: int): (r: seq<string>)
    ensures forall x :: x in r <==> exists i :: 0 <= i < |ms| && ms[i].name == x && ms[i].count >= threshold
    ensures Distinct(NamesOf(ms)) ==> Distinct(r)
    decreases |ms|
  {
    if ms == [] then []
    else
      var init := ms[..|ms| - 1];
      var rest := AtLeast(init, threshold);
      var last := ms[|ms| - 1];
      assert forall i :: 0 <= i < |init| ==> init[i] == ms[i];
      assert Distinct(NamesOf(ms)) ==> Distinct(NamesOf(init)) && last.name !in rest by {
        if Distinct(NamesOf(ms)) {
          assert forall i :: 0 <= i < |init| ==> NamesOf(init)[i] == NamesOf(ms)[i];
        }
      }
      if last.count >= threshold then rest + [last.name] else rest
  }

  /**
   * `identify_active_characters`: exactly the names mentioned at least
   * `threshold` times, each once.
   */
  method IdentifyActive(text: string, names: seq<string>, threshold: int) returns (r: Result<seq<string>>)
    ensures r.Raise? <==> exists i :: 0 <= i < |names| && MentionCount(text, names[i]).Raise?
    ensures r.Raise? ==> r.error == IndexError
    ensures r.Ok? ==> Distinct(r.value)
    ensures r.Ok? ==> forall x :: x in r.value <==>
      x in names && MentionCount(text, x).Ok? && MentionCount(text, x).value >= threshold
  {
    var mentions := ExtractMentions(text, names);
    if mentions.Raise? {
      return Raise(mentions.error);
    }
    var ms := mentions.value;
    r := Ok(AtLeast(ms, threshold));
    forall x | x in r.value
      ensures x in names && MentionCount(text, x).Ok? && MentionCount(text, x).value >= threshold
    {
      var i :| 0 <= i < |ms| && ms[i].name == x && ms[i].count >= threshold;
      assert NamesOf(ms)[i] == x;
    }
    forall x | x in names && MentionCount(text, x).Ok? && MentionCount(text, x).value >= threshold
      ensures x in r.value
    {
      assert x in NamesOf(ms);
      var i :| 0 <= i < |ms| && NamesOf(ms)[i] == x;
      assert ms[i].name == x;
    }
  }

  // ---------------------------------------------------------------- changes

  const EmotionalKeywords: seq<string> :=
    ["feliz", "triste", "enojado", "asustado", "confundido", "determinado", "desesperado", "esperanzado", "resignado"]
  const PhysicalKeywords: seq<string> := ["herido", "cansado", "recuperado", "débil", "fuerte", "enfermo", "sano"]

  /** The dict `detect_significant_changes` returns. */
  datatype Changes = Changes(emotional: bool, physical: bool, any: bool, lengthChange: int)

  /** Some keyword occurs in the new text and not in the old one. */
  function NewKeyword(keywords: seq<string>, oldLower: string, newLower: string): (r: bool)
    ensures r <==> exists i :: (0 <= i < |keywords| &&
      Text.Contains(newLower, keywords[i]) && !Text.Contains(oldLower, keywords[i]))
    decreases |keywords|
  {
    if keywords == [] then false
    else
      var k := keywords[0];
      assert forall i :: 1 <= i < |keywords| ==> keywords[1..][i - 1] == keywords[i];
      (Text.Contains(newLower, k) && !Text.Contains(oldLower, k)) || NewKeyword(keywords[1..], oldLower, newLower)
  }

  /** `detect_significant_changes`: a keyword new to the lower-cased state is a change. */
  function DetectChanges(oldState: string, newState: string): (r: Changes)
    ensures r.any <==> r.emotional || r.physical
    ensures r.emotional <==> exists i :: (0 <= i < |EmotionalKeywords| &&
      Text.Contains(Text.Lower(newState), EmotionalKeywords[i]) && !Text.Contains(Text.Lower(oldState), EmotionalKeywords[i]))
    ensures r.physical <==> exists i :: (0 <= i < |PhysicalKeywords| &&
      Text.Contains(Text.Lower(newState), PhysicalKeywords[i]) && !Text.Contains(Text.Lower(oldState), PhysicalKeywords[i]))
    ensures r.lengthChange == |newState| - |oldState|
  {
    var oldLower := Text.Lower(oldState);
    var newLower := Text.Lower(newState);
    var emotional := NewKeyword(EmotionalKeywords, oldLower, newLower);
    var physical := NewKeyword(PhysicalKeywords, oldLower, newLower);
    Changes(emotional, physical, emotional || physical, |newState| - |oldState|)
  }

  /** A state compared with itself, or with a spelling that differs only in case, shows no change. */
  lemma NoChangeSameLower(oldState: string, newState: string)
    requires Text.Lower(oldState) == Text.Lower(newState)
    ensures !DetectChanges(oldState, newState).any
  {
  }

  // ---------------------------------------------------------------- the updater

  /** `CharacterUpdater`: the call into the model and the parser it uses. */
  class CharacterUpdater {
    const client: GroqCall.Client
    const parse: Parser

    constructor(client: GroqCall.Client, parse: Parser)
      ensures this.client == client && this.parse == parse
    {
      this.client := client;
      this.parse := parse;
    }

    /**
     * `update_after_chapter`, where `system` is the system prompt the model
     * call sends. No names: an empty dict and no request. Otherwise one retry
     * loop; a reply that gives nothing (no parse, or a false value) keeps the
     * current states; any other reply is validated name by name.
     */
    method UpdateAfterChapter(system: string, content: string, names: seq<string>, current: map<string, string>)
      returns (r: Result<map<string, string>>)
      modifies client
      ensures names == [] ==>
        r == Ok(map[]) &&
        client.calls == old(client.calls) && client.requests == old(client.requests) && client.slept == old(client.slept)
      ensures names != [] ==>
        var o := GroqCall.Retry(GroqCall.Replies(client, old(client.calls)), client.waitOf, 0);
        var u := ParseUpdateResponse(parse, o.text);
        ((u.None? || !Truthy(u.value)) ==> r == Ok(current)) &&
        (u.Some? && Truthy(u.value) ==> IsValidation(r, u.value, names, current)) &&
        client.calls == old(client.calls) + o.attempts &&
        client.requests == old(client.requests) + GroqCall.Repeat(GroqCall.Request(system, UpdatePrompt(content, names)), o.attempts) &&
        client.slept == old(client.slept) + o.sleeps
    {
      if names == [] {
        return Ok(map[]);
      }
      var prompt := UpdatePrompt(content, names);
      var response := GroqCall.CallGroq(client, system, prompt);
      var updates := ParseUpdateResponse(parse, response);
      if updates.None? || !Truthy(updates.value) {
        return Ok(current);
      }
      r := ValidateUpdates(updates.value, names, current);
    }
  }
}
