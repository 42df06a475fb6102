/**
 * The narrative consistency checks (bookwriter/validators/consistency_validator.py):
 * contradictions between a character's consecutive states, the world's
 * locations and rules, the chapter-summary progression, the timeline, the
 * capitalised names a chapter mentions, and the report that gathers them.
 * Problems are datatypes; the wording of the messages is not modelled.
 */
module ConsistencyValidator {
  import opened Wrappers
  import Text
  import opened Json
  import opened Problems
  import CharacterUpdater

  // ---------------------------------------------------------------- contradictions

  /** Two opposed groups of words, each led by the word the message names. */
  datatype Opposition = Opposition(lead1: string, more1: seq<string>, lead2: string, more2: seq<string>)

  function Group1(o: Opposition): seq<string> {
    [o.lead1] + o.more1
  }

  function Group2(o: Opposition): seq<string> {
    [o.lead2] + o.more2
  }

  /** The four opposed pairs, in the order they are tried. */
  const Oppositions: seq<Opposition> := [
    Opposition("muerto", ["murió", "fallecido"], "vivo", ["despierto", "consciente"]),
    Opposition("feliz", ["alegre", "contento"], "triste", ["deprimido", "desesperado"]),
    Opposition("confiado", ["seguro"], "inseguro", ["temeroso"]),
    Opposition("herido", ["lastimado"], "sano", ["ileso", "recuperado"])
  ]

  /** `any(word in s for word in words)`. */
  predicate AnyIn(s: string, words: seq<string>) {
    exists w :: w in words && Text.Contains(s, w)
  }

  /** One state holds a word of one group and the other state a word of the other group. */
  predicate Clash(s1: string, s2: string, o: Opposition) {
    (AnyIn(s1, Group1(o)) && AnyIn(s2, Group2(o))) || (AnyIn(s1, Group2(o)) && AnyIn(s2, Group1(o)))
  }

  /** The position of the first pair on which the two states clash. */
  function FirstClash(s1: string, s2: string, os: seq<Opposition>): (r: Option<nat>)
    ensures r.None? <==> forall j :: 0 <= j < |os| ==> !Clash(s1, s2, os[j])
    ensures r.Some? ==> r.value < |os| && Clash(s1, s2, os[r.value])
    ensures r.Some? ==> forall j :: 0 <= j < r.value ==> !Clash(s1, s2, os[j])
  {
    if os == [] then None
    else if Clash(s1, s2, os[0]) then Some(0)
    else match FirstClash(s1, s2, os[1..])
      case None => None
      case Some(k) => Some(k + 1)
  }

  /** The words a contradiction message names: the leads of the pair. */
  datatype Contradiction = Contradiction(from: string, to: string)

  /** `_detect_contradictions`: the first opposed pair the two states clash on, or none (the empty message). */
  function DetectContradictions(s1: string, s2: string): Option<Contradiction> {
    match FirstClash(s1, s2, Oppositions)
    case None => None
    case Some(k) => Some(Contradiction(Oppositions[k].lead1, Oppositions[k].lead2))
  }

  /** A contradiction is found exactly when some pair clashes, and it names the leads of the first such pair. */
  lemma DetectContradictionsIff(s1: string, s2: string)
    ensures DetectContradictions(s1, s2).None? <==> forall k :: 0 <= k < |Oppositions| ==> !Clash(s1, s2, Oppositions[k])
    ensures DetectContradictions(s1, s2).Some? ==> (exists k ::
      0 <= k < |Oppositions| && Clash(s1, s2, Oppositions[k]) &&
      (forall j :: 0 <= j < k ==> !Clash(s1, s2, Oppositions[j])) &&
      DetectContradictions(s1, s2).value == Contradiction(Oppositions[k].lead1, Oppositions[k].lead2))
  {
  }

  lemma {:induction false} FirstClashSymmetric(s1: string, s2: string, os: seq<Opposition>)
    ensures FirstClash(s1, s2, os) == FirstClash(s2, s1, os)
    decreases |os|
  {
    if os != [] {
      assert Clash(s1, s2, os[0]) == Clash(s2, s1, os[0]);
      FirstClashSymmetric(s1, s2, os[1..]);
    }
  }

  /** The order of the two states does not matter: the message even names the same words. */
  lemma ContradictionsSymmetric(s1: string, s2: string)
    ensures DetectContradictions(s1, s2) == DetectContradictions(s2, s1)
  {
    FirstClashSymmetric(s1, s2, Oppositions);
  }

  // ---------------------------------------------------------------- characters

  datatype CharacterProblem =
    | NoCurrentState(name: string)
    /** States `pair + 1` and `pair + 2`, counted from 1, contradict. */
    | Contradicting(name: string, pair: nat, contradiction: Contradiction)

  /** What `_detect_contradictions` says of states k and k + 1, lower-cased. */
  function PairVerdict(history: seq<string>, k: nat): Option<Contradiction>
    requires k + 1 < |history|
  {
    DetectContradictions(Text.Lower(history[k]), Text.Lower(history[k + 1]))
  }

  /** The verdicts on all consecutive pairs of states, entry k about states k and k + 1. */
  function Verdicts(history: seq<string>): (v: seq<Option<Contradiction>>)
    requires |history| > 0
    ensures |v| == |history| - 1
  {
    VerdictsUpTo(history, |history| - 1)
  }

  /** The verdicts on the first `n` pairs. */
  function VerdictsUpTo(history: seq<string>, n: nat): (v: seq<Option<Contradiction>>)
    requires n < |history|
    ensures |v| == n
  {
    if n == 0 then [] else VerdictsUpTo(history, n - 1) + [PairVerdict(history, n - 1)]
  }

  /** Entry k of the verdicts is about states k and k + 1. */
  lemma {:induction false} VerdictsUpToAt(history: seq<string>, n: nat, k: nat)
    requires n < |history| && k < n
    ensures VerdictsUpTo(history, n)[k] == PairVerdict(history, k)
  {
    if k < n - 1 {
      VerdictsUpToAt(history, n - 1, k);
    }
  }

  lemma VerdictAt(history: seq<string>, k: nat)
    requires k + 1 < |history|
    ensures Verdicts(history)[k] == PairVerdict(history, k)
  {
    VerdictsUpToAt(history, |history| - 1, k);
  }

  /** The problem of pair k when its verdict is a contradiction. */
  function PairProblem(name: string, verdicts: seq<Option<Contradiction>>, k: nat): (r: seq<CharacterProblem>)
    requires k < |verdicts|
    ensures forall x :: x in r ==> x.Contradicting? && x == Contradicting(name, k, x.contradiction) && verdicts[k] == Some(x.contradiction)
    ensures forall c :: verdicts[k] == Some(c) ==> Contradicting(name, k, c) in r
  {
    match verdicts[k]
    case None => []
    case Some(c) => [Contradicting(name, k, c)]
  }

  /** The problems of the first `n` pairs, in order. */
  function PairProblems(name: string, verdicts: seq<Option<Contradiction>>, n: nat): seq<CharacterProblem>
    requires n <= |verdicts|
  {
    if n == 0 then [] else PairProblems(name, verdicts, n - 1) + PairProblem(name, verdicts, n - 1)
  }

  /** Only consecutive pairs are compared, and every contradicting one among the first `n` is reported. */
  lemma {:induction false} PairProblemsExact(name: string, verdicts: seq<Option<Contradiction>>, n: nat)
    requires n <= |verdicts|
    ensures forall x :: x in PairProblems(name, verdicts, n) ==>
      x.Contradicting? && x.name == name && x.pair < n && verdicts[x.pair] == Some(x.contradiction)
    ensures forall k, c :: 0 <= k < n && verdicts[k] == Some(c) ==>
      Contradicting(name, k, c) in PairProblems(name, verdicts, n)
  {
    if n > 0 {
      PairProblemsExact(name, verdicts, n - 1);
      var front, last := PairProblems(name, verdicts, n - 1), PairProblem(name, verdicts, n - 1);
      assert PairProblems(name, verdicts, n) == front + last;
      forall x: CharacterProblem | x in front + last
        ensures x.Contradicting? && x.name == name && x.pair < n && verdicts[x.pair] == Some(x.contradiction)
      {
        if x !in front {
          assert x in last;
        }
      }
      forall k, c | 0 <= k < n && verdicts[k] == Some(c)
        ensures Contradicting(name, k, c) in front + last
      {
        if k == n - 1 {
          assert Contradicting(name, k, c) in last;
        } else {
          assert Contradicting(name, k, c) in front;
        }
      }
    }
  }

  /** The first check: the original data must hold a current state. */
  function StateCheck(name: string, original: seq<Member>): (r: seq<CharacterProblem>)
    ensures r == [] || r == [NoCurrentState(name)]
    ensures r == [] <==> HasKey(original, "current_state")
  {
    if HasKey(original, "current_state") then [] else [NoCurrentState(name)]
  }

  /** `validate_character_consistency`: consistent exactly when the list is empty. */
  function CharacterConsistency(name: string, original: seq<Member>, history: seq<string>): seq<CharacterProblem> {
    StateCheck(name, original) +
    (if |history| > 1 then PairProblems(name, Verdicts(history), |history| - 1) else [])
  }

  /** What `validate_character_consistency` reports, exactly: a missing state, and the contradicting consecutive pairs. */
  lemma CharacterConsistencyExact(name: string, original: seq<Member>, history: seq<string>, x: CharacterProblem)
    ensures NoCurrentState(name) in CharacterConsistency(name, original, history) <==> !HasKey(original, "current_state")
    ensures x in CharacterConsistency(name, original, history) ==> x.name == name
    ensures x.Contradicting? ==>
      (x in CharacterConsistency(name, original, history) <==>
        x.name == name && x.pair + 1 < |history| &&
        PairVerdict(history, x.pair) == Some(x.contradiction))
  {
    if |history| > 1 {
      var verdicts := Verdicts(history);
      PairProblemsExact(name, verdicts, |history| - 1);
      if x.Contradicting? && x.pair + 1 < |history| {
        VerdictAt(history, x.pair);
      }
      if x.Contradicting? && x.name == name && x.pair + 1 < |history| && verdicts[x.pair] == Some(x.contradiction) {
        assert x == Contradicting(name, x.pair, x.contradiction);
      }
    }
  }

  /** One more pair checked: the verdict's problem, if any, appended. */
  lemma PairsSnoc(name: string, verdicts: seq<Option<Contradiction>>, i: nat, before: seq<CharacterProblem>, c: Option<Contradiction>)
    requires i < |verdicts| && before == PairProblems(name, verdicts, i) && verdicts[i] == c
    ensures PairProblems(name, verdicts, i + 1) == if c.Some? then before + [Contradicting(name, i, c.value)] else before
  {
  }

  /**
   * The body of the loop over consecutive pairs: the two states lower-cased
   * and compared, and the problem of a contradicting pair appended.
   */
  method CheckPair(name: string, history: seq<string>, i: nat, before: seq<CharacterProblem>) returns (after: seq<CharacterProblem>)
    requires i + 1 < |history| && before == PairProblems(name, Verdicts(history), i)
    ensures after == PairProblems(name, Verdicts(history), i + 1)
  {
    var prev := Text.Lower(history[i]);
    var next := Text.Lower(history[i + 1]);
    var c := DetectContradictions(prev, next);
    ghost var verdicts := Verdicts(history);
    VerdictAt(history, i);
    PairsSnoc(name, verdicts, i, before, c);
    after := if c.Some? then before + [Contradicting(name, i, c.value)] else before;
  }

  /** The loop of `validate_character_consistency` over consecutive pairs of states. */
  method CheckPairs(name: string, history: seq<string>) returns (problems: seq<CharacterProblem>)
    requires |history| > 1
    ensures problems == PairProblems(name, Verdicts(history), |history| - 1)
  {
    problems := [];
    for i := 0 to |history| - 1
      invariant problems == PairProblems(name, Verdicts(history), i)
    {
      problems := CheckPair(name, history, i, problems);
    }
  }

  /** `validate_character_consistency`: the state check, then the contradicting pairs. */
  method ValidateCharacterConsistency(name: string, original: seq<Member>, history: seq<string>)
    returns (problems: seq<CharacterProblem>)
    ensures problems == CharacterConsistency(name, original, history)
  {
    problems := StateCheck(name, original);
    if |history| > 1 {
      var pairs := CheckPairs(name, history);
      problems := problems + pairs;
    }
  }

  // ---------------------------------------------------------------- world

  datatype WorldProblem = NoLocationsKey | NoLocations | NoRulesKey | NoRules

  /** The locations entry is missing, or is not a non-empty dict. */
  function LocationsProblem(entry: Option<JsonValue>): seq<WorldProblem> {
    match entry
    case None => [NoLocationsKey]
    case Some(v) => if !v.JObject? || |v.members| == 0 then [NoLocations] else []
  }

  /** The rules entry is missing, or is not a non-empty list. */
  function RulesProblem(entry: Option<JsonValue>): seq<WorldProblem> {
    match entry
    case None => [NoRulesKey]
    case Some(v) => if !v.JArray? || |v.items| == 0 then [NoRules] else []
  }

  /** A dict whose key locations are a non-empty dict and whose rules are a non-empty list. */
  predicate WellDefinedWorld(world: JsonValue) {
    world.JObject? &&
    HasKey(world.members, "key_locations") && Lookup(world.members, "key_locations").JObject? &&
    |Lookup(world.members, "key_locations").members| > 0 &&
    HasKey(world.members, "rules_of_the_world") && Lookup(world.members, "rules_of_the_world").JArray? &&
    |Lookup(world.members, "rules_of_the_world").items| > 0
  }

  /**
   * `validate_world_consistency`: the `in` tests and lookups raise on a value
   * that is not a dict; the consistency rules are never read.
   */
  function WorldConsistency(world: JsonValue, rules: JsonValue): (r: Result<seq<WorldProblem>>)
    ensures r.Raise? ==> r.error == TypeError
    ensures world.JObject? ==> r.Ok?
    ensures r == Ok([]) <==> WellDefinedWorld(world)
  {
    match Present(world, "key_locations")
    case Raise(e) => Raise(e)
    case Ok(locations) =>
      match Present(world, "rules_of_the_world")
      case Raise(e) => Raise(e)
      case Ok(worldRules) => Ok(LocationsProblem(locations) + RulesProblem(worldRules))
  }

  /** For a dict, each problem is reported exactly when its condition holds. */
  lemma WorldProblemsOfDict(world: JsonValue, rules: JsonValue)
    requires world.JObject?
    ensures var r := WorldConsistency(world, rules).value; var ms := world.members;
      (NoLocationsKey in r <==> !HasKey(ms, "key_locations")) &&
      (NoLocations in r <==> (HasKey(ms, "key_locations") &&
        (!Lookup(ms, "key_locations").JObject? || |Lookup(ms, "key_locations").members| == 0))) &&
      (NoRulesKey in r <==> !HasKey(ms, "rules_of_the_world")) &&
      (NoRules in r <==> (HasKey(ms, "rules_of_the_world") &&
        (!Lookup(ms, "rules_of_the_world").JArray? || |Lookup(ms, "rules_of_the_world").items| == 0)))
  {
  }

  /** The rules argument makes no difference. */
  lemma WorldIgnoresRules(world: JsonValue, rules1: JsonValue, rules2: JsonValue)
    ensures WorldConsistency(world, rules1) == WorldConsistency(world, rules2)
  {
  }

  // ---------------------------------------------------------------- narrative progress

  datatype ProgressProblem = NoChapters | WrongChapterNumber(chapter: int, found: JsonValue) | ThinSummary(chapter: int)

  /** `summary.get('number', -1)` on a dict. */
  function ChapterNumber(summary: JsonValue): JsonValue
    requires summary.JObject?
  {
    MemberOr(summary.members, "number", JInt(-1))
  }

  /** `summary.get('summary', '')` on a dict. */
  function SummaryText(summary: JsonValue): JsonValue
    requires summary.JObject?
  {
    MemberOr(summary.members, "summary", JString(""))
  }

  /** The first loop's check of summary n: its number must be n. */
  function NumberCheck(summary: JsonValue, n: int): (r: Result<seq<ProgressProblem>>)
    ensures r.Raise? <==> !summary.JObject?
    ensures r.Raise? ==> r.error == AttributeError
    ensures r.Ok? ==> forall x :: x in r.value <==> x == WrongChapterNumber(n, ChapterNumber(summary)) && !EqualsInt(ChapterNumber(summary), n)
  {
    if !summary.JObject? then Raise(AttributeError)
    else
      var found := ChapterNumber(summary);
      Ok(if EqualsInt(found, n) then [] else [WrongChapterNumber(n, found)])
  }

  /** The second loop's check of summary n: a text of at least 20 characters, `len` raising on a value without one. */
  function SummaryCheck(summary: JsonValue, n: int): (r: Result<seq<ProgressProblem>>)
    ensures r.Ok? <==> summary.JObject? && Len(SummaryText(summary)).Ok?
    ensures !summary.JObject? ==> r == Raise(AttributeError)
    ensures summary.JObject? && r.Raise? ==> r.error == TypeError
    ensures r.Ok? ==> forall x :: x in r.value <==> x == ThinSummary(n) && Len(SummaryText(summary)).value < 20
  {
    if !summary.JObject? then Raise(AttributeError)
    else
      match Len(SummaryText(summary))
      case Raise(e) => Raise(e)
      case Ok(k) => Ok(if k < 20 then [ThinSummary(n)] else [])
  }

  /**
   * `validate_narrative_progress`: no chapters is one problem; otherwise every
   * summary's number is checked, then every summary's length.
   */
  function NarrativeProgress(summaries: JsonValue): (r: Result<seq<ProgressProblem>>)
    ensures !Truthy(summaries) ==> r == Ok([NoChapters])
    ensures Truthy(summaries) && Iterate(summaries).Raise? ==> r == Raise(TypeError)
  {
    if !Truthy(summaries) then Ok([NoChapters])
    else
      match Iterate(summaries)
      case Raise(e) => Raise(e)
      case Ok(items) => Then(Collect(Checks(items, NumberCheck)), Collect(Checks(items, SummaryCheck)))
  }

  /** One loop's outcome over a list of dicts, through the generic collection facts. */
  lemma CollectedOver(items: seq<JsonValue>, check: (JsonValue, int) -> Result<seq<ProgressProblem>>, x: ProgressProblem)
    ensures Collect(Checks(items, check)).Ok? <==> forall i :: 0 <= i < |items| ==> check(items[i], i + 1).Ok?
    ensures Collect(Checks(items, check)).Raise? ==>
      exists i :: 0 <= i < |items| && check(items[i], i + 1) == Collect(Checks(items, check))
    ensures Collect(Checks(items, check)).Ok? ==>
      (x in Collect(Checks(items, check)).value <==> exists i :: 0 <= i < |items| && x in check(items[i], i + 1).value)
  {
    var rs := Checks(items, check);
    CollectOk(rs);
    if Collect(rs).Ok? {
      CollectMember(rs, x);
    }
  }

  /** Over a non-empty list, progress raises on a summary that is not a dict or whose text has no length, and only then. */
  lemma NarrativeProgressRaises(items: seq<JsonValue>)
    requires |items| > 0
    ensures (exists i :: 0 <= i < |items| && !items[i].JObject?) ==> NarrativeProgress(JArray(items)) == Raise(AttributeError)
    ensures NarrativeProgress(JArray(items)).Ok? <==>
      forall i :: 0 <= i < |items| ==> items[i].JObject? && Len(SummaryText(items[i])).Ok?
  {
    var numbers, texts := Collect(Checks(items, NumberCheck)), Collect(Checks(items, SummaryCheck));
    assert NarrativeProgress(JArray(items)) == Then(numbers, texts);
    CollectedOver(items, NumberCheck, NoChapters);
    CollectedOver(items, SummaryCheck, NoChapters);
  }

  /** Over a list of dicts, the first loop reports summary k for its number exactly when that number is not k. */
  lemma NumbersReported(items: seq<JsonValue>, x: ProgressProblem)
    requires x.WrongChapterNumber?
    requires forall i :: 0 <= i < |items| ==> items[i].JObject?
    ensures Collect(Checks(items, NumberCheck)).Ok?
    ensures x in Collect(Checks(items, NumberCheck)).value <==>
      1 <= x.chapter <= |items| && x.found == ChapterNumber(items[x.chapter - 1]) && !EqualsInt(x.found, x.chapter)
  {
    CollectedOver(items, NumberCheck, x);
    var numbers := Collect(Checks(items, NumberCheck));
    if x in numbers.value {
      var i :| 0 <= i < |items| && x in NumberCheck(items[i], i + 1).value;
      assert x == WrongChapterNumber(i + 1, ChapterNumber(items[i]));
    }
    if 1 <= x.chapter <= |items| && x.found == ChapterNumber(items[x.chapter - 1]) && !EqualsInt(x.found, x.chapter) {
      assert x in NumberCheck(items[x.chapter - 1], x.chapter - 1 + 1).value;
    }
  }

  /** The second loop reports no chapter number. */
  lemma TextsReportNoNumber(items: seq<JsonValue>, x: ProgressProblem)
    requires x.WrongChapterNumber?
    requires forall i :: 0 <= i < |items| ==> items[i].JObject? && Len(SummaryText(items[i])).Ok?
    ensures Collect(Checks(items, SummaryCheck)).Ok? && x !in Collect(Checks(items, SummaryCheck)).value
  {
    CollectedOver(items, SummaryCheck, x);
  }

  /** Over a non-empty list of dicts, summary k is reported for its number exactly when that number is not k. */
  lemma WrongNumbersExact(items: seq<JsonValue>, x: ProgressProblem)
    requires |items| > 0 && x.WrongChapterNumber?
    requires forall i :: 0 <= i < |items| ==> items[i].JObject? && Len(SummaryText(items[i])).Ok?
    ensures NarrativeProgress(JArray(items)).Ok?
    ensures x in NarrativeProgress(JArray(items)).value <==>
      1 <= x.chapter <= |items| && x.found == ChapterNumber(items[x.chapter - 1]) && !EqualsInt(x.found, x.chapter)
  {
    var numbers, texts := Collect(Checks(items, NumberCheck)), Collect(Checks(items, SummaryCheck));
    assert NarrativeProgress(JArray(items)) == Then(numbers, texts);
    NumbersReported(items, x);
    TextsReportNoNumber(items, x);
    InThen(numbers, texts, x);
  }

  /** Over a list of dict summaries with texts, the second loop reports summary k as thin exactly when its text is shorter than 20. */
  lemma ThinReported(items: seq<JsonValue>, x: ProgressProblem)
    requires x.ThinSummary?
    requires forall i :: 0 <= i < |items| ==> items[i].JObject? && Len(SummaryText(items[i])).Ok?
    ensures Collect(Checks(items, SummaryCheck)).Ok?
    ensures x in Collect(Checks(items, SummaryCheck)).value <==>
      1 <= x.chapter <= |items| && Len(SummaryText(items[x.chapter - 1])).value < 20
  {
    CollectedOver(items, SummaryCheck, x);
    var texts := Collect(Checks(items, SummaryCheck));
    if x in texts.value {
      var i :| 0 <= i < |items| && x in SummaryCheck(items[i], i + 1).value;
      assert x == ThinSummary(i + 1);
    }
    if 1 <= x.chapter <= |items| && Len(SummaryText(items[x.chapter - 1])).value < 20 {
      assert x in SummaryCheck(items[x.chapter - 1], x.chapter - 1 + 1).value;
    }
  }

  /** The first loop reports no thin summary. */
  lemma NumbersReportNoThin(items: seq<JsonValue>, x: ProgressProblem)
    requires x.ThinSummary?
    requires forall i :: 0 <= i < |items| ==> items[i].JObject?
    ensures Collect(Checks(items, NumberCheck)).Ok? && x !in Collect(Checks(items, NumberCheck)).value
  {
    CollectedOver(items, NumberCheck, x);
  }

  /** Over a non-empty list of dicts, summary k is reported as thin exactly when its text is shorter than 20. */
  lemma ThinSummariesExact(items: seq<JsonValue>, x: ProgressProblem)
    requires |items| > 0 && x.ThinSummary?
    requires forall i :: 0 <= i < |items| ==> items[i].JObject? && Len(SummaryText(items[i])).Ok?
    ensures NarrativeProgress(JArray(items)).Ok?
    ensures x in NarrativeProgress(JArray(items)).value <==>
      1 <= x.chapter <= |items| && Len(SummaryText(items[x.chapter - 1])).value < 20
  {
    var numbers, texts := Collect(Checks(items, NumberCheck)), Collect(Checks(items, SummaryCheck));
    assert NarrativeProgress(JArray(items)) == Then(numbers, texts);
    NumbersReportNoThin(items, x);
    ThinReported(items, x);
    InThen(numbers, texts, x);
  }

  /** "No chapters" is reported only for an empty or false value. */
  lemma NoChaptersOnlyWhenEmpty(summaries: JsonValue)
    requires NarrativeProgress(summaries).Ok?
    ensures NoChapters in NarrativeProgress(summaries).value <==> !Truthy(summaries)
  {
    if Truthy(summaries) {
      var items := Iterate(summaries).value;
      var numbers, texts := Collect(Checks(items, NumberCheck)), Collect(Checks(items, SummaryCheck));
      CollectedOver(items, NumberCheck, NoChapters);
      CollectedOver(items, SummaryCheck, NoChapters);
      InThen(numbers, texts, NoChapters);
    }
  }

  /** `validate_narrative_progress` with its two loops. */
  method ValidateNarrativeProgress(summaries: JsonValue) returns (r: Result<seq<ProgressProblem>>)
    ensures r == NarrativeProgress(summaries)
  {
    if !Truthy(summaries) {
      return Ok([NoChapters]);
    }
    var items := Iterate(summaries);
    if items.Raise? {
      return Raise(items.error);
    }
    var numbers := ExtendAll(items.value, NumberCheck);
    if numbers.Raise? {
      return numbers;
    }
    var texts := ExtendAll(items.value, SummaryCheck);
    r := Then(numbers, texts);
  }

  // ---------------------------------------------------------------- timeline

  /**
   * The loop body of `validate_timeline` for one chapter: `.get` needs a dict
   * and `.lower()` a str. The temporal references it then extracts are never
   * used, so it adds no problem.
   */
  function TimelineCheck(chapter: JsonValue, n: int): (r: Result<seq<string>>)
    ensures r.Ok? <==> chapter.JObject? && SummaryText(chapter).JString?
    ensures r.Ok? ==> r.value == []
    ensures r.Raise? ==> r.error == AttributeError
  {
    match Get(chapter, "summary", JString(""))
    case Raise(e) => Raise(e)
    case Ok(JString(_)) => Ok([])
    case Ok(_) => Raise(AttributeError)
  }

  /** `validate_timeline`: valid whenever it returns. */
  function Timeline(chapters: JsonValue): Result<seq<string>> {
    match Iterate(chapters)
    case Raise(e) => Raise(e)
    case Ok(items) => Collect(Checks(items, TimelineCheck))
  }

  /** The timeline never reports a problem; it raises exactly on a chapter that is not a dict or a summary that is not a str. */
  lemma TimelineNeverReports(chapters: JsonValue)
    ensures Timeline(chapters).Ok? ==> Timeline(chapters).value == []
    ensures chapters.JArray? ==> (Timeline(chapters).Ok? <==>
      forall i :: 0 <= i < |chapters.items| ==> chapters.items[i].JObject? && SummaryText(chapters.items[i]).JString?)
  {
    if Iterate(chapters).Ok? {
      var items := Iterate(chapters).value;
      var rs := Checks(items, TimelineCheck);
      CollectOk(rs);
      if Collect(rs).Ok? && Collect(rs).value != [] {
        var x := Collect(rs).value[0];
        CollectMember(rs, x);
      }
    }
  }

  /** `validate_timeline` with its loop over the chapters. */
  method ValidateTimeline(chapters: JsonValue) returns (r: Result<seq<string>>)
    ensures r == Timeline(chapters)
    ensures r.Ok? ==> r.value == []
  {
    var items := Iterate(chapters);
    if items.Raise? {
      return Raise(items.error);
    }
    r := ExtendAll(items.value, TimelineCheck);
    TimelineNeverReports(chapters);
  }

  // ---------------------------------------------------------------- mentions

  /** The initials of `[A-ZÁÉÍÓÚÑ]`. */
  predicate NameInitial(c: char) {
    'A' <= c <= 'Z' || c == 'Á' || c == 'É' || c == 'Í' || c == 'Ó' || c == 'Ú' || c == 'Ñ'
  }

  /** The letters of `[a-záéíóúñ]`. */
  predicate NameLetter(c: char) {
    'a' <= c <= 'z' || c == 'á' || c == 'é' || c == 'í' || c == 'ó' || c == 'ú' || c == 'ñ'
  }

  /** Python's `\w` on ASCII and Latin-1: letters, digits, the underscore, and the Latin-1 letters and numerals. */
  predicate WordChar(c: char) {
    'a' <= c <= 'z' || 'A' <= c <= 'Z' || '0' <= c <= '9' || c == '_' ||
    c == 'ª' || c == '²' || c == '³' || c == 'µ' || c == '¹' || c == 'º' || c == '¼' || c == '½' || c == '¾' ||
    ('À' <= c <= 'ÿ' && c != '×' && c != '÷')
  }

  /** The end of the run of name letters that starts at `j`. */
  function LetterRunEnd(s: string, j: nat): (e: nat)
    requires j <= |s|
    ensures j <= e <= |s|
    ensures forall k :: j <= k < e ==> NameLetter(s[k])
    ensures e < |s| ==> !NameLetter(s[e])
    decreases |s| - j
  {
    if j == |s| || !NameLetter(s[j]) then j else LetterRunEnd(s, j + 1)
  }

  /**
   * The name pattern matches at `i`: a word boundary, an initial, then the
   * letters as far as they go and a word boundary after them (a shorter run
   * ends between two letters, where there is no boundary).
   */
  predicate NameAt(s: string, i: nat) {
    i + 1 < |s| && NameInitial(s[i]) && NameLetter(s[i + 1]) && (i == 0 || !WordChar(s[i - 1])) &&
    (LetterRunEnd(s, i + 1) == |s| || !WordChar(s[LetterRunEnd(s, i + 1)]))
  }

  /** `re.findall` of the name pattern from `i`: after a match the search resumes at its end, otherwise one position on. */
  function NamesFrom(s: string, i: nat): (r: seq<string>)
    requires i <= |s|
    ensures forall n :: n in r ==> |n| >= 2 && NameInitial(n[0]) && forall k :: 1 <= k < |n| ==> NameLetter(n[k])
    decreases |s| - i
  {
    if i == |s| then []
    else if NameAt(s, i) then
      var e := LetterRunEnd(s, i + 1);
      var name := s[i..e];
      assert forall k :: 1 <= k < |name| ==> name[k] == s[i + k];
      [name] + NamesFrom(s, e)
    else NamesFrom(s, i + 1)
  }

  /** The capitalised words that are never taken for characters. */
  const CommonWords: set<string> := {"El", "La", "Los", "Las", "Un", "Una", "Algunos", "Muchos"}

  predicate Common(name: string) {
    name in CommonWords
  }

  /** The names that are not common words, in order. */
  function Uncommon(names: seq<string>): (r: seq<string>)
    ensures forall n :: n in r <==> n in names && !Common(n)
    ensures forall n :: !Common(n) ==> multiset(r)[n] == multiset(names)[n]
    decreases |names|
  {
    if names == [] then []
    else
      var init, last := names[..|names| - 1], names[|names| - 1];
      assert names == init + [last];
      Uncommon(init) + if Common(last) then [] else [last]
  }

  /** The potential names of `validate_character_mentions`, common words removed. */
  function PotentialNames(content: string): seq<string> {
    Uncommon(NamesFrom(content, 0))
  }

  datatype MentionWarning = UndefinedName(chapter: int, name: string, count: nat)

  /** A warning for each name, in the given order, counted at least three times and not expected. */
  function Warnings(order: seq<string>, freq: multiset<string>, expected: set<string>, chapter: int): seq<MentionWarning>
    decreases |order|
  {
    if order == [] then []
    else
      var last := order[|order| - 1];
      Warnings(order[..|order| - 1], freq, expected, chapter) +
      if freq[last] >= 3 && last !in expected then [UndefinedName(chapter, last, freq[last])] else []
  }

  /** Exactly the frequent unexpected names of the order are warned about, once each when the order has no repeats. */
  lemma {:induction false} WarningsExact(order: seq<string>, freq: multiset<string>, expected: set<string>, chapter: int)
    ensures forall w :: w in Warnings(order, freq, expected, chapter) <==>
      w.chapter == chapter && w.name in order && w.count == freq[w.name] && w.count >= 3 && w.name !in expected
    ensures CharacterUpdater.Distinct(order) ==> forall i, j :: 0 <= i < j < |Warnings(order, freq, expected, chapter)| ==>
      Warnings(order, freq, expected, chapter)[i].name != Warnings(order, freq, expected, chapter)[j].name
    decreases |order|
  {
    if order != [] {
      var init, last := order[..|order| - 1], order[|order| - 1];
      assert order == init + [last];
      WarningsExact(init, freq, expected, chapter);
      if CharacterUpdater.Distinct(order) {
        assert CharacterUpdater.Distinct(init) by {
          assert forall i :: 0 <= i < |init| ==> init[i] == order[i];
        }
        assert last !in init by {
          assert forall i :: 0 <= i < |init| ==> init[i] == order[i];
        }
      }
    }
  }

  /**
   * `validate_character_mentions`: a warning for each potential name, in the
   * order the counter first meets it, that occurs at least three times and is
   * not an expected character.
   */
  function CharacterMentions(content: string, expected: set<string>, chapter: int): seq<MentionWarning> {
    var names := PotentialNames(content);
    Warnings(CharacterUpdater.Dedup(names), multiset(names), expected, chapter)
  }

  /** What `validate_character_mentions` warns about, exactly, and each name at most once. */
  lemma CharacterMentionsExact(content: string, expected: set<string>, chapter: int, w: MentionWarning)
    ensures var found := NamesFrom(content, 0);
      w in CharacterMentions(content, expected, chapter) <==>
        w.chapter == chapter && w.name in found && !Common(w.name) && w.name !in expected &&
        w.count == multiset(found)[w.name] && w.count >= 3
    ensures var r := CharacterMentions(content, expected, chapter);
      forall i, j :: 0 <= i < j < |r| ==> r[i].name != r[j].name
  {
    var names := PotentialNames(content);
    WarningsExact(CharacterUpdater.Dedup(names), multiset(names), expected, chapter);
  }

  /** The loop over the counter's entries, in its order. */
  method WarnFrequent(order: seq<string>, freq: multiset<string>, expected: set<string>, chapter: int)
    returns (warnings: seq<MentionWarning>)
    ensures warnings == Warnings(order, freq, expected, chapter)
  {
    warnings := [];
    for i := 0 to |order|
      invariant warnings == Warnings(order[..i], freq, expected, chapter)
    {
      assert order[..i + 1][..i] == order[..i];
      var name := order[i];
      if freq[name] >= 3 && name !in expected {
        warnings := warnings + [UndefinedName(chapter, name, freq[name])];
      }
    }
    assert order[..|order|] == order;
  }

  /** `validate_character_mentions`: the potential names, their counter, and the loop over it. */
  method ValidateCharacterMentions(content: string, expected: set<string>, chapter: int) returns (warnings: seq<MentionWarning>)
    ensures warnings == CharacterMentions(content, expected, chapter)
  {
    var names := PotentialNames(content);
    warnings := WarnFrequent(CharacterUpdater.Dedup(names), multiset(names), expected, chapter);
  }

  // ---------------------------------------------------------------- report

  /**
   * The states the character check compares, from the value the report passes
   * as the history: a str's characters or a list's strs. With fewer than two
   * entries nothing is compared; otherwise `.lower()` needs strs, indexing a
   * dict by position raises KeyError, and `len` raises TypeError on a value
   * without a length.
   */
  function HistoryStates(history: JsonValue): (r: Result<seq<string>>)
    ensures Len(history).Raise? ==> r == Raise(TypeError)
    ensures r.Ok? && |r.value| > 1 ==> Len(history) == Ok(|r.value|)
    ensures history.JArray? && |history.items| > 1 ==>
      (r.Ok? <==> forall i :: 0 <= i < |history.items| ==> history.items[i].JString?)
    ensures history.JArray? && |history.items| <= 1 ==> r == Ok([])
  {
    match history
    case JString(s) => Ok(seq(|s|, i requires 0 <= i < |s| => [s[i]]))
    case JArray(items) =>
      if |items| <= 1 then Ok([])
      else if forall i :: 0 <= i < |items| ==> items[i].JString? then Ok(seq(|items|, i requires 0 <= i < |items| => items[i].s))
      else Raise(AttributeError)
    case JObject(ms) => if |ms| <= 1 then Ok([]) else Raise(KeyError)
    case _ => Raise(TypeError)
  }

  /** `char_data.get('state_history', [char_data.get('current_state', '')])`. */
  function StateHistory(data: seq<Member>): JsonValue {
    MemberOr(data, "state_history", JArray([MemberOr(data, "current_state", JString(""))]))
  }

  /** A character's data without a history of its own yields a one-state history. */
  lemma StateHistoryDefault(data: seq<Member>)
    requires !HasKey(data, "state_history")
    ensures StateHistory(data).JArray? && |StateHistory(data).items| == 1
  {
  }

  datatype CharacterEntry = CharacterEntry(name: string, problems: seq<CharacterProblem>)

  /** One iteration of the report's character loop: `.get` needs a dict. */
  function CharacterCheck(m: Member): (r: Result<seq<CharacterEntry>>)
    ensures r.Ok? <==> m.value.JObject? && HistoryStates(StateHistory(m.value.members)).Ok?
    ensures r.Ok? ==> (|r.value| == 1 && r.value[0].name == m.key &&
      r.value[0].problems == CharacterConsistency(m.key, m.value.members, HistoryStates(StateHistory(m.value.members)).value))
  {
    if !m.value.JObject? then Raise(AttributeError)
    else
      match HistoryStates(StateHistory(m.value.members))
      case Raise(e) => Raise(e)
      case Ok(states) => Ok([CharacterEntry(m.key, CharacterConsistency(m.key, m.value.members, states))])
  }

  function CharacterChecks(ms: seq<Member>): (rs: seq<Result<seq<CharacterEntry>>>)
    ensures |rs| == |ms|
    ensures forall i :: 0 <= i < |ms| ==> rs[i] == CharacterCheck(ms[i])
  {
    seq(|ms|, i requires 0 <= i < |ms| => CharacterCheck(ms[i]))
  }

  /** The report's sections: the world's problems, the character count and entries, and the narrative section when there is one. */
  datatype Report = Report(world: seq<WorldProblem>, characterCount: nat, characters: seq<CharacterEntry>,
    narrative: Option<seq<ProgressProblem>>)

  function WorldOf(memory: seq<Member>): JsonValue {
    MemberOr(memory, "world", JObject([]))
  }

  function RulesOf(memory: seq<Member>): JsonValue {
    MemberOr(memory, "consistency_rules", JArray([]))
  }

  function CharactersOf(memory: seq<Member>): JsonValue {
    MemberOr(memory, "characters", JObject([]))
  }

  function SummariesOf(memory: seq<Member>): JsonValue {
    MemberOr(memory, "chapters_summary", JArray([]))
  }

  /** The narrative section, present only for a non-empty summary list. */
  function NarrativeSection(summaries: JsonValue): Result<Option<seq<ProgressProblem>>> {
    if !Truthy(summaries) then Ok(None)
    else
      match NarrativeProgress(summaries)
      case Raise(e) => Raise(e)
      case Ok(problems) => Ok(Some(problems))
  }

  /**
   * `generate_consistency_report` on the memory dict, sections in order, each
   * exception ending it: the world, the characters (`len` and then `.items()`),
   * one entry per character, then the narrative progress.
   */
  function ConsistencyReport(memory: seq<Member>): Result<Report> {
    match WorldConsistency(WorldOf(memory), RulesOf(memory))
    case Raise(e) => Raise(e)
    case Ok(world) =>
      var characters := CharactersOf(memory);
      match Len(characters)
      case Raise(e) => Raise(e)
      case Ok(count) =>
        if !characters.JObject? then Raise(AttributeError)
        else
          match Collect(CharacterChecks(characters.members))
          case Raise(e) => Raise(e)
          case Ok(entries) =>
            match NarrativeSection(SummariesOf(memory))
            case Raise(e) => Raise(e)
            case Ok(narrative) => Ok(Report(world, count, entries, narrative))
  }

  /** The narrative section appears exactly when the chapter summaries are non-empty, and then holds their progress check. */
  lemma ReportNarrativeGate(memory: seq<Member>)
    requires ConsistencyReport(memory).Ok?
    ensures ConsistencyReport(memory).value.narrative.Some? <==> Truthy(SummariesOf(memory))
    ensures ConsistencyReport(memory).value.narrative.Some? ==>
      NarrativeProgress(SummariesOf(memory)) == Ok(ConsistencyReport(memory).value.narrative.value)
  {
  }

  /** The world section is the world check, and there is one entry per character, in order, with its own check. */
  lemma ReportSections(memory: seq<Member>)
    requires ConsistencyReport(memory).Ok?
    ensures WorldConsistency(WorldOf(memory), RulesOf(memory)) == Ok(ConsistencyReport(memory).value.world)
    ensures CharactersOf(memory).JObject?
    ensures var ms, r := CharactersOf(memory).members, ConsistencyReport(memory).value;
      r.characterCount == |ms| == |r.characters| &&
      forall i :: 0 <= i < |ms| ==> (ms[i].value.JObject? && HistoryStates(StateHistory(ms[i].value.members)).Ok? &&
        r.characters[i] == CharacterEntry(ms[i].key,
          CharacterConsistency(ms[i].key, ms[i].value.members, HistoryStates(StateHistory(ms[i].value.members)).value)))
  {
    var ms := CharactersOf(memory).members;
    var rs := CharacterChecks(ms);
    CollectOk(rs);
    CollectSingles(rs);
  }

  /**
   * No character that lacks a `state_history` entry, as every character the
   * engine writes does, is checked for contradictions: the report passes a
   * one-state history, so only a missing current state can be reported.
   */
  lemma ReportWithoutHistories(memory: seq<Member>, i: nat)
    requires ConsistencyReport(memory).Ok?
    requires CharactersOf(memory).JObject? && i < |CharactersOf(memory).members|
    requires CharactersOf(memory).members[i].value.JObject?
    requires !HasKey(CharactersOf(memory).members[i].value.members, "state_history")
    ensures var m, entries := CharactersOf(memory).members[i], ConsistencyReport(memory).value.characters;
      i < |entries| && entries[i].problems == StateCheck(m.key, m.value.members)
  {
    ReportSections(memory);
    var m := CharactersOf(memory).members[i];
    StateHistoryDefault(m.value.members);
  }

  /** The report's loop over the characters, an exception ending it. */
  method CheckCharacters(ms: seq<Member>) returns (r: Result<seq<CharacterEntry>>)
    ensures r == Collect(CharacterChecks(ms))
  {
    ghost var rs := CharacterChecks(ms);
    var entries: seq<CharacterEntry> := [];
    for i := 0 to |ms|
      invariant Collect(rs[..i]) == Ok(entries)
    {
      assert rs[..i + 1][..i] == rs[..i];
      var m := ms[i];
      if !m.value.JObject? {
        CollectStop(rs, i + 1);
        return Raise(AttributeError);
      }
      var states := HistoryStates(StateHistory(m.value.members));
      if states.Raise? {
        CollectStop(rs, i + 1);
        return Raise(states.error);
      }
      var problems := ValidateCharacterConsistency(m.key, m.value.members, states.value);
      entries := entries + [CharacterEntry(m.key, problems)];
    }
    assert rs[..|ms|] == rs;
    return Ok(entries);
  }

  /** `generate_consistency_report`: its sections in order, each computed by its loop. */
  method GenerateConsistencyReport(memory: seq<Member>) returns (r: Result<Report>)
    ensures r == ConsistencyReport(memory)
  {
    var world := WorldConsistency(WorldOf(memory), RulesOf(memory));
    if world.Raise? {
      return Raise(world.error);
    }
    var characters := CharactersOf(memory);
    var count := Len(characters);
    if count.Raise? {
      return Raise(count.error);
    }
    if !characters.JObject? {
      return Raise(AttributeError);
    }
    var entries := CheckCharacters(characters.members);
    if entries.Raise? {
      return Raise(entries.error);
    }
    var summaries := SummariesOf(memory);
    var narrative: Option<seq<ProgressProblem>> := None;
    if Truthy(summaries) {
      var progress := ValidateNarrativeProgress(summaries);
      if progress.Raise? {
        return Raise(progress.error);
      }
      narrative := Some(progress.value);
    }
    r := Ok(Report(world.value, count.value, entries.value, narrative));
  }
}
