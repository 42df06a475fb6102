# BookWriter in Dafny

A Dafny model of the book-writing engine of WirteFlowCloud. `BookWriter` keeps a project memory and drives a language model to write a book:

- it asks for an outline of chapters, world and characters;
- it writes the book page by page into an append-only manuscript;
- after each chapter it files the chapter into a semantic memory and asks the model for the characters' new states.

Around it sit the style catalogue and its manager, the prompt builder, the outline, page and character-state generators, the input, content and consistency validators, and the PDF exporter's manuscript parser.

The model has one module per source file. Shared modules:

- `Wrappers`: the `Result` and `Option` types and the Python exceptions the source can raise.
- `Text`: Python `str` operations over `seq<char>`.
- `Json`: the JSON-like values the source handles as dicts and lists, with Python's `in`, indexing, `get` and truthiness on them.
- `Problems`: generic helpers for lists of problems.

These three modules are the Python-semantics layer the other modules stand on. They have no counterpart among the repository's files, so only their members that carry a property of the engine have a row below. Each stands for a builtin:

- `Text.TrimStart`, `Text.TrimEnd` and `Text.Strip` are `str.lstrip`, `str.rstrip` and `str.strip` without arguments.
- `Text.Words` is `str.split()`, and `Text.Split` and `Text.Join` are `str.split(sep)` and `sep.join(xs)`.
- `Text.FindFrom` and `Text.RFind` are `str.find` and `str.rfind`, and `Text.Count` is `str.count`.
- `Text.Replace` is `str.replace`, and `Text.StartsWith` and `Text.EndsWith` are `str.startswith` and `str.endswith`.
- `Text.Take` and `Text.TakeLast` are the slices `s[:n]` and `s[-n:]`, and `Text.Prefix` is `xs[:n]` on a list.
- `Text.Lower`, `Text.UpperChar` and `Text.Title` are `str.lower`, `str.upper` on one character and `str.title`, for the letters named under "## Left out".
- `Text.NatToString` and `Text.IntToString` are `str(n)`.
- `Json.Truthy` is `bool(v)`, and `Json.Len` is `len(v)`.
- `Json.In` is `key in v`, and `Json.GetItem` and `Json.SetItem` are `v[key]` and `v[key] = x`.
- `Json.Get` and `Json.MemberOr` are `v.get(key, default)`, and `Json.Iterate` is `for x in v`.
- `Json.NumberOf`, `Json.EqualsInt`, `Json.AtMostZero` and `Json.IsInt` are Python's numeric reading of a value, `v == n`, `v <= 0` and `isinstance(v, int)`.
- `Json.StripValue` is `v.strip()`, and `Json.Keys`, `Json.Find` and `Json.Lookup` read a dict's keys in insertion order.
- `Problems.Then`, `Problems.Collect` and `Problems.Checks` are the `problems.extend(...)` sequences of the validators, where the first exception ends the sequence.

Some plain definitions also have no row of their own. These include the memory record's constructors `InitialMemory`, `WithDefaults` and `Loaded`, and the status functions `GetStatus` and `ShownNumber`. The lemmas about them carry the rows instead, for example `BookMemory.LoadFillsDefaults`, `BookMemory.InitialChronicle` and `BookMemory.StatusAgreesWithWriter`.

## How the model is built

- **External services are parameters.**
  - `GroqCall.Client` is the language-model service: a reply oracle per call number, a rate-limit wait parser, and logs of calls, requests and sleeps.
  - The embedding service and the nearest-neighbour search are functions held by `SemanticMemory.Memory`.
  - The JSON parser, the emphasis regexes and the regex substitutions are function parameters.
- **State is modelled in place.** `BookWriter` is a `class` whose fields `memory`, `book` (the manuscript file) and `pauses` change. So are:
  - `StyleManager.StyleManager`;
  - `SemanticMemory.Memory` (index and chunk records);
  - the request log of the client.
- **Python's dicts are typed records.** The project memory is `BookMemory.ProjectMemory`. A key that may be missing is an `Option`, so every `.get(key, default)` of the source shows its default.
- **Errors are values.** Where Python raises, the model returns `Raise(e)`. Examples:
  - a zero-page chapter divides by zero;
  - a missing author style is a `KeyError`;
  - an embedding failure during search raises.
- **A rate-limit reply uses up an attempt.** The retry loop is a `for` loop over five attempts that `continue`s after a rate-limit wait (core.py:187-242), so a rate-limit reply consumes one of the five attempts.
- **One departure from the code.** `write_full_book` counts the pages already written with a subtraction that raises TypeError on a finished book (core.py:574-575). `Core.BookWriter.WriteFullBook` uses the corrected count `Core.InitialCount`, so on a finished book it yields (1.0, done) instead. `Core.InitialCountAsWritten` models the code as written, and "## Findings" states both.
- **Whole-book writing is bounded.** `write_full_book` is a generator. It is modelled by `Core.BookWriter.WriteFullBook(limit)`, which yields the items a consumer draws while at most `limit` pages are asked for.

## Model

| member | source | states |
|---|---|---|
| StyleProfiles.IndexFrom | bookwriter/styles/style_profiles.py:519-523 | the position of a key among the dict entries at or after a start, or -1 exactly when no later entry has that key |
| StyleProfiles.LevelOfFound | bookwriter/styles/style_profiles.py:525-531 | a dict lookup succeeds exactly for the dict's keys and yields one of its entries |
| StyleProfiles.SetLevel | bookwriter/styles/style_manager.py:78 | assigning a dimension keeps the length when the key exists and adds one entry otherwise |
| StyleProfiles.SetLevelLookup | bookwriter/styles/style_manager.py:78 | after `dimensions[d] = level`, `d` reads `level` and every other key reads what it read before |
| StyleProfiles.EvangelionBalancedWellFormed | bookwriter/styles/style_profiles.py:236-253 | the evangelion_balanced preset sets all five dimensions to levels of the catalogue |
| StyleProfiles.EvangelionWellFormed | bookwriter/styles/style_profiles.py:254-286 | the evangelion preset sets all five dimensions to catalogue levels |
| StyleProfiles.ThrillerFastWellFormed | bookwriter/styles/style_profiles.py:287-318 | the thriller_fast preset sets all five dimensions to catalogue levels |
| StyleProfiles.FantasyEpicWellFormed | bookwriter/styles/style_profiles.py:319-350 | the fantasy_epic preset sets all five dimensions to catalogue levels |
| StyleProfiles.RomanceContemporaryWellFormed | bookwriter/styles/style_profiles.py:351-377 | the romance_contemporary preset sets all five dimensions to catalogue levels |
| StyleProfiles.HorrorAtmosphericWellFormed | bookwriter/styles/style_profiles.py:378-405 | the horror_atmospheric preset sets all five dimensions to catalogue levels |
| StyleProfiles.LiteraryExperimentalWellFormed | bookwriter/styles/style_profiles.py:406-433 | the literary_experimental preset sets all five dimensions to catalogue levels |
| StyleProfiles.MysteryClassicWellFormed | bookwriter/styles/style_profiles.py:434-460 | the mystery_classic preset sets all five dimensions to catalogue levels |
| StyleProfiles.ScifiHardWellFormed | bookwriter/styles/style_profiles.py:461-489 | the scifi_hard preset sets all five dimensions to catalogue levels |
| StyleProfiles.BalancedNeutralWellFormed | bookwriter/styles/style_profiles.py:492-509 | the default preset sets all five dimensions to catalogue levels |
| StyleProfiles.PresetWellFormed | bookwriter/styles/style_profiles.py:232-509 | every preset has a `dimensions` dict, and it sets all five dimensions to levels of the catalogue |
| StyleProfiles.LevelLookupConsistent | bookwriter/styles/style_profiles.py:11-231 | the level table and the key lists describe the same catalogue: a level is found exactly when it is listed under its dimension |
| StyleProfiles.LevelKeysRoundTrip | bookwriter/styles/style_profiles.py:11-231 | every level is found under its own dimension and key |
| StyleProfiles.DimensionTableWellFormed | bookwriter/styles/style_profiles.py:11-231 | every dimension has exactly four distinct levels |
| StyleProfiles.GetDimensionInfo | bookwriter/styles/style_profiles.py:525-531 | the level's description exactly when both the dimension and the level are known, and the empty dict otherwise |
| StyleProfiles.PresetKeysRoundTrip | bookwriter/styles/style_profiles.py:232-509 | every preset is found under its key, and that key is among the preset names |
| StyleProfiles.PresetNamesAreKeys | bookwriter/styles/style_profiles.py:515-517 | a name is a preset key exactly when it is among the preset names |
| StyleProfiles.DefaultProfileIsPreset | bookwriter/styles/style_profiles.py:490 | the fallback name "balanced_neutral" is itself a preset, so the fallback lookup cannot fail |
| StyleProfiles.GetProfileNames | bookwriter/styles/style_profiles.py:515-517 | the preset keys, each once |
| StyleProfiles.GetProfileInfo | bookwriter/styles/style_profiles.py:519-523 | the named preset, or the default preset for a name that is not a key |
| StyleProfiles.WellFormedDimension | bookwriter/styles/style_profiles.py:11-231 | each of the five conjuncts is one dimension of the catalogue set to one of its levels |
| StyleProfiles.LevelListed | bookwriter/styles/style_profiles.py:11-231 | every level is listed under its own dimension |
| StyleProfiles.LevelOfSettings | bookwriter/styles/style_profiles.py:232-509 | a preset's `dimensions` dict reads back, per dimension, the level the preset gives it |
| StyleProfiles.SettingsWellFormed | bookwriter/styles/style_profiles.py:232-509 | a dimensions dict built from one level per dimension is well formed |
| StyleManager.LastValidOverride | bookwriter/styles/style_manager.py:73-78 | the override that wins for a dimension is a known dimension with a level of its own |
| StyleManager.ApplyOverridesLookup | bookwriter/styles/style_manager.py:64-84 | after the overrides, each key holds the last valid override for it, or what it held before |
| StyleManager.OverridesKeepUnknown | bookwriter/styles/style_manager.py:73-82 | unknown dimensions and invalid levels never change the dict |
| StyleManager.InvalidOverridesChangeNothing | bookwriter/styles/style_manager.py:73-82 | a list of overrides none of which is valid leaves the dict as it was |
| StyleManager.OverridesKeepWellFormed | bookwriter/styles/style_manager.py:64-84 | a dict that sets every dimension to a catalogue level still does after any overrides |
| StyleManager.StyleManager.constructor | bookwriter/styles/style_manager.py:23-62 | a copy of the named preset (or the default one), then the overrides and extra instructions when they are non-empty |
| StyleManager.StyleManager.FromDict | bookwriter/styles/style_manager.py:287-299 | the stored name (the default preset when absent) and the stored configuration (`{}` when absent) |
| StyleManager.StyleManager.ApplyCustomDimensions | bookwriter/styles/style_manager.py:64-84 | the configuration's `dimensions` become the old ones with each valid override applied in order; nothing else changes |
| StyleManager.StyleManager.AddCustomInstructions | bookwriter/styles/style_manager.py:86-95 | the extra instructions follow the existing ones, in order; nothing else changes |
| StyleManager.StyleManager.GetDimensionDetails | bookwriter/styles/style_manager.py:122-133 | details exist exactly when the configured level is in the catalogue |
| StyleManager.StyleManager.UpdateDimension | bookwriter/styles/style_manager.py:230-245 | ValueError for an unknown dimension or level and KeyError without a `dimensions` dict, with nothing changed; otherwise exactly that dimension changes |
| StyleManager.StyleManager.AddInstruction | bookwriter/styles/style_manager.py:247-257 | one more special instruction at the end; the earlier ones are kept |
| StyleManager.StyleManager.AddAvoidItem | bookwriter/styles/style_manager.py:259-273 | one more avoided item at the end; the earlier ones are kept |
| StyleManager.StyleManager.ToDict | bookwriter/styles/style_manager.py:275-285 | the export holds the manager's name and configuration |
| StyleManager.RoundTrip | bookwriter/styles/style_manager.py:275-299 | `from_dict(to_dict())` is a fresh manager with the same name and configuration |
| StyleManager.PresetDimensionsRead | bookwriter/styles/style_manager.py:110-120 | on a preset's configuration each dimension reads back the preset's own level |
| StyleManager.PredicateKeys | bookwriter/styles/style_manager.py:194-228 | the level keys the three style predicates test name exactly the intended levels |
| StyleManager.PresetPredicates | bookwriter/styles/style_manager.py:194-228 | on a preset, "complex narrative", "fast paced" and "rich descriptions" follow the preset's levels |
| StyleManager.LoadedDimensionsWellFormed | bookwriter/styles/style_manager.py:23-84 | whatever name is loaded and whatever overrides follow, every dimension is set to a level of the catalogue |
| PromptBuilder.BulletedAppend | bookwriter/styles/prompt_builder.py:274-284 | rendering a list item by item: the text of `xs + ys` is the text of `xs` followed by that of `ys` |
| PromptBuilder.NumberedStartsAtOne | bookwriter/styles/prompt_builder.py:263-272 | `enumerate(items, 1)`: the first line is numbered 1 |
| PromptBuilder.BulletList | bookwriter/styles/prompt_builder.py:277-280 | the loop appending one bullet line per item renders exactly the bulleted text of the list |
| PromptBuilder.NumberedList | bookwriter/styles/prompt_builder.py:267-268 | the loop over `enumerate(items, 1)` renders exactly the numbered text of the list |
| PromptBuilder.KeyEventsStartAtOne | bookwriter/styles/prompt_builder.py:398-406 | with at least one event, the stripped text starts with "1." |
| PromptBuilder.FormatKeyEvents | bookwriter/styles/prompt_builder.py:398-406 | the loop of `_format_key_events` gives the placeholder for no events, and otherwise the numbered events without surrounding blanks |
| PromptBuilder.StyleEntry | bookwriter/styles/prompt_builder.py:247-259 | one configured pair contributes text exactly when the dimension and its level are in the catalogue |
| PromptBuilder.BuildStyleEntry | bookwriter/styles/prompt_builder.py:247-259 | one iteration of the style loop appends exactly that pair's entry |
| PromptBuilder.StyleEntriesStep | bookwriter/styles/prompt_builder.py:246-259 | the entries of one more configured pair are the earlier entries followed by that pair's entry |
| PromptBuilder.StyleEntryShape | bookwriter/styles/prompt_builder.py:249-258 | an entry holds the level's name and description and its first min(3, n) characteristics, no others |
| PromptBuilder.NoLevelsSnoc | bookwriter/styles/prompt_builder.py:246-259 | no pair names a catalogue level exactly when none of the shorter list does and the last one does not either |
| PromptBuilder.StyleEntriesEmpty | bookwriter/styles/prompt_builder.py:240-261 | the style section has no entries exactly when no configured pair names a catalogue level |
| PromptBuilder.PageNoteCases | bookwriter/styles/prompt_builder.py:360-365 | page 1 always gets the first-page note, even when it is also the last; the last page gets the closing note; a page strictly inside gets the near-end note exactly when Python's float test `page > total * 0.7` holds (PastSeventy), which gives the note to page 63 of 90 |
| PromptBuilder.Pow2Floor | bookwriter/styles/prompt_builder.py:364 | the largest power of two not above m, the spacing of the doubles around 0.7·total |
| PromptBuilder.PastSeventyNearExact | bookwriter/styles/prompt_builder.py:364 | the float test agrees with the exact `10·page > 7·total` except at page 0.7·total itself, which passes only when the product rounds down; for a total that is not a positive multiple of 10 the two agree |
| PromptBuilder.SeventyNearEndExamples | bookwriter/styles/prompt_builder.py:360-365 | pages 63 of 90, 119 of 170 and 126 of 180 get the near-end note, because 0.7 times the total rounds below the page |
| PromptBuilder.SeventyNoNoteExamples | bookwriter/styles/prompt_builder.py:360-365 | page 70 of 100 and page 7 of 10 get no note, because 0.7 times the total rounds to the page itself |
| PromptBuilder.Pow2FloorDouble | bookwriter/styles/prompt_builder.py:364 | doubling m doubles the power of two below it |
| PromptBuilder.SeventyRoundsDownDouble | bookwriter/styles/prompt_builder.py:364 | a total whose 70% product rounds down still does when doubled: 90, 180, 360 and so on |
| PromptBuilder.LengthBandCases | bookwriter/styles/prompt_builder.py:375-386 | the word band is 350-450 for fast_paced, 500-650 for contemplative and epic, and 400-550 for every other density |
| PromptBuilder.OutlineInstructionsFallback | bookwriter/styles/prompt_builder.py:285-325 | unknown densities get the balanced lines, and unknown depths (layered among them) add no lines |
| PromptBuilder.BuildInfoBlock | bookwriter/styles/prompt_builder.py:74-174 | the loop that lists a level's characteristics renders exactly the block of the first `limit` of them |
| PromptBuilder.CharacterUpdatePrompt | bookwriter/styles/prompt_builder.py:412-454 | the prompt quotes the last 2000 characters of the chapter, then the names joined by ", " |
| PromptBuilder.PromptBuilder.constructor | bookwriter/styles/prompt_builder.py:16-32 | the configuration's dimensions, special instructions and avoid list, each read with its empty default |
| PromptBuilder.PromptBuilder.BuildStyleSection | bookwriter/styles/prompt_builder.py:240-261 | the loop over the configured dimensions builds exactly the style section |
| PromptBuilder.PromptBuilder.BuildSpecialInstructionsSection | bookwriter/styles/prompt_builder.py:263-272 | the header, the numbered instructions and a blank line |
| PromptBuilder.PromptBuilder.BuildAvoidSection | bookwriter/styles/prompt_builder.py:274-284 | the header, one bullet per avoided item and a blank line |
| PromptBuilder.PromptBuilder.BuildSystemPrompt | bookwriter/styles/prompt_builder.py:33-68 | the intro with the metadata, the style section, then the special and avoid sections when their lists are non-empty |
| PromptBuilder.PromptBuilder.BuildPageWritingInstructions | bookwriter/styles/prompt_builder.py:326-373 | prose, description and dialogue blocks for the configured (or default) levels, then the page note, whose near-end case follows Python's float comparison as PageNoteCases states |
| PromptBuilder.PromptBuilder.BuildPagePrompt | bookwriter/styles/prompt_builder.py:175-234 | the chapter block, the context when there is any, the last text or the chapter-start marker, the writing instructions and the length instruction |
| PromptBuilder.SystemPromptOptional | bookwriter/styles/prompt_builder.py:58-66 | the special and avoid sections appear exactly for non-empty lists, special before avoid, after the intro and the style section |
| PromptBuilder.SystemPromptSpecialNumbered | bookwriter/styles/prompt_builder.py:61-62 | the special instructions are numbered from 1, right after their header |
| PromptBuilder.SystemPromptAvoidLast | bookwriter/styles/prompt_builder.py:65-66 | a non-empty avoid list closes the system prompt |
| PromptBuilder.PagePromptIncludesContext | bookwriter/styles/prompt_builder.py:212-217 | relevant context, when there is any, comes right after the chapter block |
| PromptBuilder.PagePromptOmitsContext | bookwriter/styles/prompt_builder.py:212-217 | without context (empty, or the placeholder) the anchor follows the chapter block directly |
| PromptBuilder.PagePromptAnchor | bookwriter/styles/prompt_builder.py:219-226 | the last written text is quoted after "..." right before the instructions; with none, the chapter-start marker is |
| PromptBuilder.PlaceholderFiltered | bookwriter/styles/prompt_builder.py:213 | the degraded answer of the semantic memory never reaches the page prompt |
| PromptBuilder.DefaultLevelsExist | bookwriter/styles/prompt_builder.py:329-331 | the defaults moderate, selective, natural, balanced and layered are catalogue levels, so their blocks appear |
| GroqCall.Client.constructor | bookwriter/core.py:187-242 | a service that has received no request, slept no time, and answers by its oracles |
| GroqCall.Client.Create | bookwriter/core.py:204-216 | one more request, with the system and user messages, answered by the oracle for that call number |
| GroqCall.Client.Sleep | bookwriter/core.py:229-240 | a sleep is recorded and no request is sent |
| GroqCall.FirstAnswer | bookwriter/core.py:202-218 | the first attempt the service answers, every earlier one having failed, or five when none is answered |
| GroqCall.Backoffs | bookwriter/core.py:224-240 | the pauses of a run of failures, one per failed attempt, each its back-off |
| GroqCall.PauseIsBackoff | bookwriter/core.py:224-240 | a failure that does not end the loop sleeps for its back-off: the advertised wait plus a second for a rate limit, 2^attempt seconds otherwise |
| GroqCall.ClosedFormStep | bookwriter/core.py:202-242 | the loop's outcome, one failed attempt at a time |
| GroqCall.RetryClosedForm | bookwriter/core.py:202-242 | the retry loop equals a closed form: answers up to the first answered attempt, with the back-offs of the failures before it |
| GroqCall.AttemptBounds | bookwriter/core.py:202-242 | the loop sends between one and five requests and sleeps after every one but the last, unless the last was a rate-limit wait |
| GroqCall.NoAnswerGivesError | bookwriter/core.py:234-242 | when no attempt is answered the loop does not raise: it returns a text starting with "Error:" after five attempts |
| GroqCall.RateLimitsUseAttempts | bookwriter/core.py:224-242 | a rate-limit reply uses up an attempt: five of them end the loop with the exhaustion text after five waits of the advertised time plus a second |
| GroqCall.FailuresBackOff | bookwriter/core.py:232-240 | ordinary failures back off 1, 2, 4 and 8 seconds; the fifth ends the loop with the failure's error text |
| GroqCall.AnswerEndsLoop | bookwriter/core.py:216-218 | an answered attempt ends the loop with the service's text, after the back-offs of the failures before it |
| GroqCall.Replies | bookwriter/core.py:202-204 | the replies to the next five calls of a service that has received `start` requests |
| GroqCall.Repeat | bookwriter/core.py:204-210 | every attempt sends the same two messages |
| GroqCall.CallGroq | bookwriter/core.py:187-242 | `_call_groq`: the text of the closed form, and the client's logs grow by exactly its requests and pauses |
| SemanticMemory.ChunkStartsInside | bookwriter/semantic_memory.py:95-100 | every chunk the loop takes starts inside the word list |
| SemanticMemory.ChunkTexts | bookwriter/semantic_memory.py:88-101 | there are as many chunk texts as loop iterations |
| SemanticMemory.ChunkCountIsCeiling | bookwriter/semantic_memory.py:95-100 | the number of chunks is the ceiling of words / 350, and the last chunk starts inside the text |
| SemanticMemory.ChunkLayout | bookwriter/semantic_memory.py:96-100 | chunk k starts at word 350·k, is non-empty and holds at most 400 words; only a chunk reaching the end is shorter |
| SemanticMemory.ChunksOverlap | bookwriter/semantic_memory.py:97-100 | consecutive chunks share 50 words: the tail of a chunk is the head of the next |
| SemanticMemory.ChunkWordsRoundTrip | bookwriter/semantic_memory.py:98-99 | splitting a chunk on whitespace again gives back exactly the words of its window |
| SemanticMemory.NoChunksIffBlank | bookwriter/semantic_memory.py:90-92 | blank text has no chunks, and text with a word has at least one |
| SemanticMemory.HeadSlice | bookwriter/semantic_memory.py:96-100 | the first 350 words of a chunk are the words from its start to the next chunk's start |
| SemanticMemory.Heads | bookwriter/semantic_memory.py:96-100 | the heads of the first m chunks, in order |
| SemanticMemory.HeadsPrefix | bookwriter/semantic_memory.py:96-100 | the first m heads together are the first 350·m words |
| SemanticMemory.ChunksCover | bookwriter/semantic_memory.py:88-101 | no word is lost: the heads of the chunks, in order, are exactly the text's words |
| SemanticMemory.SplitText | bookwriter/semantic_memory.py:88-101 | the while loop of `_split_text` produces exactly the windows of 400 words every 350, each joined with single spaces |
| SemanticMemory.Records | bookwriter/semantic_memory.py:82-83 | one record {chapter, content} per chunk, in chunk order |
| SemanticMemory.PyIndex | bookwriter/semantic_memory.py:116 | Python indexing of the records with an id from -n to n-1 |
| SemanticMemory.Memory.constructor | bookwriter/semantic_memory.py:15-45 | the stored index and records are loaded only when the service is available and they exist; loaded alike they stay aligned |
| SemanticMemory.Memory.Embeddings | bookwriter/semantic_memory.py:68-71 | one embedding per chunk |
| SemanticMemory.Memory.EmbedAll | bookwriter/semantic_memory.py:68-71 | the embedding loop succeeds exactly when every chunk can be embedded, and yields their embeddings in order |
| SemanticMemory.Memory.AppendRecords | bookwriter/semantic_memory.py:82-83 | the metadata loop appends one record per chunk, in order, and leaves the index alone |
| SemanticMemory.Memory.AddChapter | bookwriter/semantic_memory.py:55-86 | nothing happens when the service is unavailable or the text has no words; an embedding failure raises before anything changes; otherwise one vector and one record per chunk are appended and index and records stay aligned |
| SemanticMemory.Memory.Retrieved | bookwriter/semantic_memory.py:116 | one record content per id, in search order |
| SemanticMemory.Memory.Search | bookwriter/semantic_memory.py:103-117 | the placeholder in degraded mode; an embedding failure or an id outside the records raises; otherwise the four nearest records joined with the separator |
| SemanticMemory.PaddingRepeatsLastRecord | bookwriter/semantic_memory.py:113-116 | the padding id -1 of an index with fewer than four vectors reads, by negative indexing, the last record, so that chunk is returned again |
| OutlineGenerator.Cleaned | bookwriter/generators/outline_generator.py:108-112 | the text handed to the JSON parser is always stripped |
| OutlineGenerator.ParseOutlineResponse | bookwriter/generators/outline_generator.py:96-125 | the parsed value exactly when the parser succeeds on the cleaned text with something other than null; None otherwise |
| OutlineGenerator.DropLeadingFence | bookwriter/generators/outline_generator.py:109-110 | removing a leading fence also removes the whitespace after it |
| OutlineGenerator.DropTrailingFence | bookwriter/generators/outline_generator.py:111 | removing the closing fence also removes the whitespace before it |
| OutlineGenerator.KeepsLeading | bookwriter/generators/outline_generator.py:109-110 | a text that does not start with the fence is left as it is |
| OutlineGenerator.NoJsonTag | bookwriter/generators/outline_generator.py:109 | a text whose fourth character is not `j` does not lose a "```json" prefix |
| OutlineGenerator.TrimToBody | bookwriter/generators/outline_generator.py:110 | after an opening fence only the whitespace up to the JSON text goes |
| OutlineGenerator.CleanedFenced | bookwriter/generators/outline_generator.py:106-116 | an answer wrapped in a "```json" or a bare "```" fence reaches the parser as the text inside the fence |
| OutlineGenerator.CleanedPlain | bookwriter/generators/outline_generator.py:106-116 | an unfenced JSON answer reaches the parser unchanged |
| OutlineGenerator.KeyNames | bookwriter/generators/outline_generator.py:140-181 | the section, world and chapter key lists, name by name |
| OutlineGenerator.MissingKey | bookwriter/generators/outline_generator.py:142-147 | None exactly when every key is present; otherwise a listed key that is absent |
| OutlineGenerator.FirstMissing | bookwriter/generators/outline_generator.py:142-156 | on a dict the first absent key; on a value that is neither dict, list nor string the check raises TypeError, and it raises nothing else |
| OutlineGenerator.FirstMissingInOrder | bookwriter/generators/outline_generator.py:142-147 | the key reported is the first absent one in list order |
| OutlineGenerator.ChapterProblem | bookwriter/generators/outline_generator.py:183-206 | a chapter has no problem exactly when it is well formed: a dict with the five keys, the number i + 1 and a non-empty list of key events |
| OutlineGenerator.SameChapter | bookwriter/generators/outline_generator.py:183-206 | well-formedness of a chapter depends only on its value and number |
| OutlineGenerator.ChaptersSound | bookwriter/generators/outline_generator.py:183-206 | a chapter list without problems is well formed throughout |
| OutlineGenerator.ChaptersComplete | bookwriter/generators/outline_generator.py:183-206 | a well-formed chapter list has no problem |
| OutlineGenerator.ValidateSound | bookwriter/generators/outline_generator.py:127-208 | whatever validation accepts has the stated shape |
| OutlineGenerator.ValidateErrors | bookwriter/generators/outline_generator.py:127-208 | validation raises only TypeError, from `in` or an index on a value of the wrong type |
| OutlineGenerator.ValidateComplete | bookwriter/generators/outline_generator.py:127-208 | validation accepts every outline of the stated shape |
| OutlineGenerator.ValidateIff | bookwriter/generators/outline_generator.py:127-208 | validation accepts exactly the outlines of the stated shape, with exactly the expected number of chapters |
| OutlineGenerator.MissingSectionFirst | bookwriter/generators/outline_generator.py:140-147 | missing sections are reported in the order world, characters, plot, style, consistency_rules |
| OutlineGenerator.FillState | bookwriter/generators/outline_generator.py:223-225 | a dict character ends with a current state, kept if present and the default otherwise; a list or string without one raises TypeError |
| OutlineGenerator.FillPages | bookwriter/generators/outline_generator.py:228-230 | a chapter gets through exactly when it is a dict whose estimate, if any, is a number; a missing or non-positive estimate becomes 12, a positive one is kept |
| OutlineGenerator.FillFocus | bookwriter/generators/outline_generator.py:233-235 | a dict chapter ends with a character focus, kept if present and an empty list otherwise |
| OutlineGenerator.FillStates | bookwriter/generators/outline_generator.py:223-225 | the characters keep their names and order and each has its state filled; the first failure stops the loop |
| OutlineGenerator.FillAll | bookwriter/generators/outline_generator.py:228-235 | each chapter in order is the fill of the original; a failure is the failure of some chapter |
| OutlineGenerator.WellFormedProcessable | bookwriter/generators/outline_generator.py:223-242 | a validated outline is one the post-processing can read |
| OutlineGenerator.FillPlot | bookwriter/generators/outline_generator.py:238-242 | the plot gains an empty premise and an empty theme list when absent and keeps them when present |
| OutlineGenerator.PostProcessErrors | bookwriter/generators/outline_generator.py:210-244 | the post-processing raises only TypeError |
| OutlineGenerator.PostProcessOnlyFills | bookwriter/generators/outline_generator.py:210-244 | the post-processing only fills defaults: every other section is untouched, characters keep names and order, each chapter gets an estimate and a focus, the plot keeps every other key |
| OutlineGenerator.FilledChapterWellFormed | bookwriter/generators/outline_generator.py:228-235 | filling a chapter's estimate and focus keeps it well formed |
| OutlineGenerator.PostProcessKeepsValid | bookwriter/generators/outline_generator.py:75-84 | a validated outline is still valid after the post-processing |
| OutlineGenerator.FilledChaptersWellFormed | bookwriter/generators/outline_generator.py:228-235 | filled chapters of a valid outline stay well formed |
| OutlineGenerator.PostProcessSucceeds | bookwriter/generators/outline_generator.py:210-244 | the post-processing succeeds when every character is a dict and every chapter a dict whose estimate, if any, is a number |
| OutlineGenerator.FillStatesSucceed | bookwriter/generators/outline_generator.py:223-225 | the character loop succeeds when every character is a dict |
| OutlineGenerator.FillAllSucceeds | bookwriter/generators/outline_generator.py:228-235 | a chapter loop succeeds when every chapter can be filled |
| OutlineGenerator.FillStatesStops | bookwriter/generators/outline_generator.py:223-225 | once a prefix of the character loop raises, the whole loop raises the same error |
| OutlineGenerator.FillAllStops | bookwriter/generators/outline_generator.py:228-235 | once a prefix of a chapter loop raises, the whole loop raises the same error |
| OutlineGenerator.FillCharacterStates | bookwriter/generators/outline_generator.py:223-225 | the character loop computes exactly FillStates |
| OutlineGenerator.FillChapters | bookwriter/generators/outline_generator.py:228-235 | a chapter loop computes exactly FillAll |
| OutlineGenerator.PostProcessOutline | bookwriter/generators/outline_generator.py:210-244 | `_post_process_outline` computes exactly PostProcessed: the three loops, then the plot defaults |
| OutlineGenerator.GenerateOutcome | bookwriter/generators/outline_generator.py:63-90 | a parse failure gives the first 500 characters of the response; an invalid outline its first problem; a generated outline is valid, processable and post-processed; only TypeError is raised |
| OutlineGenerator.OutlineGenerator.Generate | bookwriter/generators/outline_generator.py:36-90 | one retry loop on the outline prompt, whose text decides the outcome as GenerateOutcome says |
| OutlineGenerator.SummaryWorld | bookwriter/generators/outline_generator.py:264-272 | the world lines raise AttributeError when the outline or its world is not a dict, TypeError when `key_locations` is true but has no length, and succeed exactly otherwise |
| OutlineGenerator.SummaryCharacters | bookwriter/generators/outline_generator.py:276-282 | the character lines raise AttributeError on an outline that is not a dict and TypeError when the characters have no length |
| OutlineGenerator.AddEstimate | bookwriter/generators/outline_generator.py:290 | adding a chapter's `pages_estimate` raises AttributeError on a chapter that is not a dict and TypeError on an estimate that is not a number |
| OutlineGenerator.SumEstimates | bookwriter/generators/outline_generator.py:290 | the sum of the estimates succeeds exactly when every chapter's addition does |
| OutlineGenerator.AddEstimates | bookwriter/generators/outline_generator.py:290 | the loop of the `sum` computes SumEstimates |
| OutlineGenerator.ChapterLine | bookwriter/generators/outline_generator.py:298-299 | a chapter line raises KeyError without a number or a title, TypeError on a chapter that is not a dict or a summary that does not slice, and succeeds exactly otherwise |
| OutlineGenerator.ChapterLines | bookwriter/generators/outline_generator.py:297-299 | the lines succeed exactly when each chapter's line does |
| OutlineGenerator.ShowChapters | bookwriter/generators/outline_generator.py:297-299 | the loop over the shown chapters computes ChapterLines |
| OutlineGenerator.FirstThree | bookwriter/generators/outline_generator.py:297 | `outline[:3]`: the first min(3, n) chapters |
| OutlineGenerator.GetOutlineSummary | bookwriter/generators/outline_generator.py:250-303 | `get_outline_summary` raises exactly as OutlineSummary does: the world first, then the characters, then the chapters |
| OutlineGenerator.ValidSummaryHead | bookwriter/generators/outline_generator.py:264-282 | on a valid outline the world lines raise exactly on true `key_locations` without a length, and the character lines never raise |
| OutlineGenerator.NumbersSum | bookwriter/generators/outline_generator.py:290 | a sum of numeric estimates does not raise |
| OutlineGenerator.ValidSummaryChapters | bookwriter/generators/outline_generator.py:287-299 | on a readable outline whose estimates are numbers the chapter part is the lines of the first three chapters |
| OutlineGenerator.ShownChaptersIff | bookwriter/generators/outline_generator.py:297-299 | well-formed chapters show without raising exactly when each of the first three summaries slices |
| OutlineGenerator.SummaryOfValid | bookwriter/generators/outline_generator.py:250-303 | on a valid outline whose estimates are numbers the summary raises exactly on true `key_locations` without a length or on one of the first three chapters whose summary does not slice (null, a number, a bool or a dict) |
| OutlineGenerator.ProcessedEstimates | bookwriter/generators/outline_generator.py:290 | after the post-processing every chapter's estimate is a number |
| OutlineGenerator.GeneratedEstimates | bookwriter/generators/outline_generator.py:290 | every chapter of a generated outline has a numeric estimate |
| OutlineGenerator.SummaryOfProcessed | bookwriter/generators/outline_generator.py:250-303 | the summary of a valid outline after the post-processing raises exactly as SummaryOfValid says |
| OutlineGenerator.GeneratedSummary | bookwriter/generators/outline_generator.py:250-303 | the summary of a generated outline raises exactly on true `key_locations` without a length or on one of the first three chapters whose summary does not slice |
| CharacterUpdater.UpdatePrompt | bookwriter/prompts/templates.py:219-257 | the update prompt carries the last 2000 characters of the chapter and ends with the names joined by ", " |
| CharacterUpdater.Unwrap | bookwriter/generators/character_updater.py:98-108 | the value under "character_updates" when `in` finds that key, the whole value otherwise; None where `in` or the index raises |
| CharacterUpdater.FencedUpdatesUnwrap | bookwriter/generators/character_updater.py:86-101 | a fenced reply whose body parses to {"character_updates": u} yields u |
| CharacterUpdater.UnwrapsWrapped | bookwriter/generators/character_updater.py:98-99 | {"character_updates": u} unwraps to u |
| CharacterUpdater.Accepted | bookwriter/generators/character_updater.py:130-140 | a stripped state is accepted exactly when longer than 5 characters; accepted states have 6 to 200 characters, over 200 cut to 197 plus "..." |
| CharacterUpdater.AcceptedIdempotent | bookwriter/generators/character_updater.py:130-140 | validating an accepted state again leaves it unchanged |
| CharacterUpdater.Fallback | bookwriter/generators/character_updater.py:142-145 | the current state of the name, or "Estado desconocido" when it has none |
| CharacterUpdater.StateFor | bookwriter/generators/character_updater.py:128-145 | a string proposal is accepted or falls back; a missing name falls back; TypeError or AttributeError exactly where `in`, the index or `strip` meets the wrong type |
| CharacterUpdater.ValidateUpdates | bookwriter/generators/character_updater.py:110-147 | one state per expected name, built in a fresh dict, failing with the first name's error |
| CharacterUpdater.ValidatedStates | bookwriter/generators/character_updater.py:128-145 | every validated state is an accepted proposal or the previous state |
| CharacterUpdater.MentionCount | bookwriter/generators/character_updater.py:167-176 | the count of the name, plus that of its first word for a name with a space; IndexError exactly for a name of spaces only |
| CharacterUpdater.NamesOf | bookwriter/generators/character_updater.py:165-178 | the keys of a mention dict, in order |
| CharacterUpdater.Dedup | bookwriter/generators/character_updater.py:165-178 | the names in order of first occurrence, each once, and no others |
| CharacterUpdater.Put | bookwriter/generators/character_updater.py:176 | assigning to a key keeps its place, or appends a new key, and changes no other entry |
| CharacterUpdater.PutCounted | bookwriter/generators/character_updater.py:176 | assigning a name its count keeps every entry's count right |
| CharacterUpdater.DedupStep | bookwriter/generators/character_updater.py:167-176 | one more name extends the first-occurrence order exactly when it is new |
| CharacterUpdater.ExtractMentions | bookwriter/generators/character_updater.py:153-178 | a dict from each distinct name, in first-occurrence order, to its mention count; IndexError exactly when some name is of spaces only |
| CharacterUpdater.AtLeast | bookwriter/generators/character_updater.py:198-201 | exactly the names counted at least `threshold` times, each once |
| CharacterUpdater.IdentifyActive | bookwriter/generators/character_updater.py:180-203 | exactly the names mentioned at least `threshold` times, each once; IndexError exactly when counting fails |
| CharacterUpdater.NewKeyword | bookwriter/generators/character_updater.py:238-239 | some keyword occurs in the new state and not in the old |
| CharacterUpdater.DetectChanges | bookwriter/generators/character_updater.py:209-250 | an emotional or physical change exactly when a keyword of that list is new to the lower-cased state; the length change is the difference of lengths |
| CharacterUpdater.NoChangeSameLower | bookwriter/generators/character_updater.py:209-250 | a state compared with a spelling that differs only in case shows no change |
| CharacterUpdater.CharacterUpdater.UpdateAfterChapter | bookwriter/generators/character_updater.py:31-70 | no names: an empty dict and no request; otherwise one retry loop, whose empty or unparsable reply keeps the current states and any other reply is validated name by name |
| PageGenerator.PositionAgreesWithNote | bookwriter/generators/page_generator.py:139-144 | the opening position is the page with the first-page note (page 1, even when it is also the last), the closing position the page with the last-page note, every other page the middle |
| PageGenerator.ContextualShape | bookwriter/prompts/instructions.py:207-248 | the contextual instructions open with the position's text and close with the continuity reminders |
| PageGenerator.ContextAfter | bookwriter/generators/page_generator.py:118 | after the page prompt and one newline the contextual instructions start with the position's text |
| PageGenerator.FullPromptShape | bookwriter/generators/page_generator.py:86-120 | the full prompt is the page prompt, one newline, then the position's instructions |
| PageGenerator.NoFenceIff | bookwriter/generators/page_generator.py:179-180 | the fence-free predicate is Python's `'```' not in s` |
| PageGenerator.NoFenceSlice | bookwriter/generators/page_generator.py:178-195 | a slice of a fence-free text is fence-free |
| PageGenerator.NoFenceConcat | bookwriter/generators/page_generator.py:192-195 | two fence-free texts joined at a character that is not a backtick stay fence-free |
| PageGenerator.NoFenceJoin | bookwriter/generators/page_generator.py:192-195 | joining fence-free pieces with a newline separator gives a fence-free text |
| PageGenerator.NoFenceSplit | bookwriter/generators/page_generator.py:183-195 | the pieces of a fence-free text split on any separator are fence-free |
| PageGenerator.NoFenceStrip | bookwriter/generators/page_generator.py:192 | stripping a fence-free text leaves it fence-free |
| PageGenerator.ReplaceRemovesFences | bookwriter/generators/page_generator.py:180 | `replace("```", "")` leaves no fence |
| PageGenerator.FenceAtIsOccurrence | bookwriter/generators/page_generator.py:180 | a fence read character by character is an occurrence of "```" |
| PageGenerator.KeptLines | bookwriter/generators/page_generator.py:186-190 | the kept lines, in order, none of them looking like a heading |
| PageGenerator.KeptLinesKeepsText | bookwriter/generators/page_generator.py:186-190 | only heading lines are dropped: every other line survives |
| PageGenerator.DropHeadings | bookwriter/generators/page_generator.py:183-190 | the loop over the lines keeps exactly KeptLines |
| PageGenerator.Paragraphs | bookwriter/generators/page_generator.py:195 | the stripped pieces that are not blank, in order, each non-empty and stripped |
| PageGenerator.ParagraphsNoFence | bookwriter/generators/page_generator.py:195 | stripping and dropping paragraphs adds no fence |
| PageGenerator.PostProcessParagraphs | bookwriter/generators/page_generator.py:192-195 | the cleaned page is its paragraphs joined by exactly one blank line, each paragraph non-empty and stripped |
| PageGenerator.UnfencedNoFence | bookwriter/generators/page_generator.py:179-180 | both fence replacements leave no fence |
| PageGenerator.WithoutHeadingsNoFence | bookwriter/generators/page_generator.py:183-192 | dropping heading lines and rejoining adds no fence |
| PageGenerator.PostProcessHasNoFence | bookwriter/generators/page_generator.py:166-197 | no code fence survives the cleanup |
| PageGenerator.PostProcessContent | bookwriter/generators/page_generator.py:166-197 | `_post_process_content` computes exactly PostProcess: strip, remove fences, drop headings, normalise paragraphs |
| PageGenerator.RetryErrorsRejected | bookwriter/generators/page_generator.py:74-75 | the texts the retry loop gives on failure start with "Error:", so the gate rejects every one, unchanged |
| PageGenerator.AcceptedIsClean | bookwriter/generators/page_generator.py:74-80 | an accepted response is returned cleaned: fence-free and made of stripped non-empty paragraphs |
| PageGenerator.PageGenerator.Generate | bookwriter/generators/page_generator.py:35-80 | a chapter of zero pages raises ZeroDivisionError before any request; otherwise one retry loop, whose text goes through the gate |
| PageGenerator.CategorizeBands | bookwriter/generators/page_generator.py:243-254 | the bands are [0, 300), [300, 400), [400, 600), [600, 700) and from 700, and a longer page never gets a shorter category |
| PageGenerator.NonBlankCount | bookwriter/generators/page_generator.py:228 | the number of pieces that are not blank, at most the number of pieces |
| PageGenerator.AnalyzeQuality | bookwriter/generators/page_generator.py:215-241 | the word count is the whitespace-split count (zero exactly for blank text), the category its band, and dialogue exactly when there are at least two quotes |
| PageGenerator.NonBlankCountParagraphs | bookwriter/generators/page_generator.py:195-228 | a cleaned page has exactly as many paragraphs by the quality count as the cleanup produced |
| InputValidator.FirstIn | bookwriter/validators/input_validator.py:48-50 | the first listed character that occurs in the text, or None exactly when none occurs |
| InputValidator.InStrip | bookwriter/validators/input_validator.py:36-50 | every character of the stripped name is a character of the name |
| InputValidator.ValidateProjectName | bookwriter/validators/input_validator.py:22-52 | accepted exactly when the stripped name has 3 to 100 characters and none of the invalid characters; blank names are reported as empty; a reported character is invalid and occurs in the name |
| InputValidator.ValidatePremise | bookwriter/validators/input_validator.py:106-135 | accepted exactly when the stripped premise has 20 to 2000 characters and at least 10 words; blank premises are reported as empty |
| InputValidator.ValidateChapterCount | bookwriter/validators/input_validator.py:138-161 | accepted exactly when 3 <= n <= 50; too few exactly below 3 |
| InputValidator.Kept | bookwriter/validators/input_validator.py:380-386 | the stripped pieces that are not blank, in order; empty exactly when every piece is blank |
| InputValidator.FirstBadTheme | bookwriter/validators/input_validator.py:190-194 | None exactly when every theme has 3 to 50 characters |
| InputValidator.ValidateThemes | bookwriter/validators/input_validator.py:164-196 | accepted exactly when there are 1 to 10 non-blank comma-separated themes, each of 3 to 50 characters |
| InputValidator.ThemeProblem | bookwriter/validators/input_validator.py:174-196 | a blank text is refused as empty; otherwise no problem exactly when there are 1 to 10 themes, each of 3 to 50 characters |
| InputValidator.BlankThemes | bookwriter/validators/input_validator.py:175-176 | blank text has no themes |
| InputValidator.ValidateAuthorSelection | bookwriter/validators/input_validator.py:199-222 | accepted exactly when there are 1 to 5 entries and one of them is not blank |
| InputValidator.ValidateStyleProfile | bookwriter/validators/input_validator.py:287-306 | accepted exactly when the profile is not blank and is one of the available ones |
| InputValidator.ValidateCustomDimensions | bookwriter/validators/input_validator.py:309-330 | corrected: accepted exactly when every pair has a known dimension and one of its levels; otherwise the first bad pair, in order, is reported |
| InputValidator.CustomDimensionsLevelRaises | bookwriter/validators/input_validator.py:326-328 | the as-written check raises on ("prose", "x") where the corrected one reports the unknown level |
| InputValidator.CustomDimensionsAgree | bookwriter/validators/input_validator.py:309-330 | both versions agree wherever the as-written one does not raise |
| InputValidator.ValidateProjectCreation | bookwriter/validators/input_validator.py:55-99 | accepted exactly when all five checks accept; otherwise the first failure in the order name, premise, chapters, themes, authors |
| InputValidator.ReplaceInvalid | bookwriter/validators/input_validator.py:353 | same length, every invalid character replaced by `_`, every other kept |
| InputValidator.DropSeps | bookwriter/validators/input_validator.py:356 | the text after a leading run of whitespace and underscores |
| InputValidator.Collapse | bookwriter/validators/input_validator.py:356 | each run of whitespace and underscores becomes one underscore: no whitespace, no double underscore, no invalid character added, empty only for empty text |
| InputValidator.SanitizeProjectName | bookwriter/validators/input_validator.py:337-361 | at most 100 characters, no whitespace, no double underscore and no invalid character |
| InputValidator.CollapseClean | bookwriter/validators/input_validator.py:356 | a text with no whitespace and no double underscore is its own collapse |
| InputValidator.NoSpaceStrip | bookwriter/validators/input_validator.py:350 | a text without whitespace is its own strip |
| InputValidator.ReplaceInvalidClean | bookwriter/validators/input_validator.py:353 | a text without invalid characters is left alone |
| InputValidator.SanitizeIdempotent | bookwriter/validators/input_validator.py:337-361 | sanitising a sanitised name changes nothing |
| InputValidator.Capitalize | bookwriter/validators/input_validator.py:384 | same length, the first character upper-cased, the rest kept |
| InputValidator.CapitalizeAll | bookwriter/validators/input_validator.py:380-386 | every theme capitalised, in order |
| InputValidator.CapitalizeAllSnoc | bookwriter/validators/input_validator.py:380-386 | capitalising one more theme appends its capitalisation |
| InputValidator.KeptStep | bookwriter/validators/input_validator.py:381-386 | one more piece is kept, stripped, exactly when it is not blank |
| InputValidator.SanitizeThemes | bookwriter/validators/input_validator.py:364-387 | the loop yields, in order, every non-blank comma-separated piece stripped and capitalised, as CleanThemes, Kept and CapitalizeAll state |
| InputValidator.CleanPieces | bookwriter/validators/input_validator.py:378-385 | the loop over the comma pieces yields exactly the non-empty stripped pieces, each capitalised, in order |
| ContentValidator.AbsentOrFalse | bookwriter/validators/content_validator.py:68-73 | `key not in v or not v[key]` on a dict; false only for a present true value; only TypeError is raised |
| ContentValidator.WorldIssues | bookwriter/validators/content_validator.py:64-76 | a missing or empty setting, a setting shorter than 20 characters, a missing or empty time period, each reported as such |
| ContentValidator.MissingStyle | bookwriter/validators/content_validator.py:168-172 | exactly the style fields, among tone, point_of_view and tense, that are absent or empty |
| ContentValidator.StyleIssues | bookwriter/validators/content_validator.py:164-174 | `_validate_style_section` reports exactly the missing style fields |
| ContentValidator.FieldIssue | bookwriter/validators/content_validator.py:95-98 | a missing or empty field, or a present one shorter than 10 characters; raises exactly when a true value has no length |
| ContentValidator.CharacterIssues | bookwriter/validators/content_validator.py:89-98 | a character that is not a dict gets exactly one invalid-data problem |
| ContentValidator.CharactersIssues | bookwriter/validators/content_validator.py:79-100 | no characters gives one problem; a true non-dict raises AttributeError at `.items()`; a dict is checked character by character |
| ContentValidator.MissingChapterFields | bookwriter/validators/content_validator.py:130-134 | exactly the required chapter fields `in` does not find, each about chapter n; only TypeError is raised |
| ContentValidator.TooShort | bookwriter/validators/content_validator.py:142-147 | `not v or len(v) < min`, raising exactly on a true value without a length |
| ContentValidator.NumberIssue | bookwriter/validators/content_validator.py:137-138 | a wrong-number problem exactly when the number is present and differs from the expected one |
| ContentValidator.ShortIssue | bookwriter/validators/content_validator.py:141-148 | a present title or summary that is empty or too short gives its one problem |
| ContentValidator.EventsIssue | bookwriter/validators/content_validator.py:151-153 | present key events that are not a non-empty list give one problem |
| ContentValidator.PagesIssue | bookwriter/validators/content_validator.py:156-159 | a present estimate that is not an integer from 5 to 30 gives one problem |
| ContentValidator.ValueIssuesAbout | bookwriter/validators/content_validator.py:125-161 | every problem the value checks report is about chapter n |
| ContentValidator.ValueIssuesRaise | bookwriter/validators/content_validator.py:141-148 | for a dict chapter the value checks raise exactly when a true title or summary has no length |
| ContentValidator.ValueIssuesOfDict | bookwriter/validators/content_validator.py:137-159 | for a dict chapter, exactly which value checks report a problem |
| ContentValidator.ChapterIssuesAbout | bookwriter/validators/content_validator.py:125-161 | every problem found in a chapter is about that chapter's number |
| ContentValidator.ThenRange | bookwriter/validators/content_validator.py:118-120 | the problems of chapters before n, then of chapter n, are all about chapters 1 to n |
| ContentValidator.CollectRange | bookwriter/validators/content_validator.py:118-120 | collecting numbered results, every problem is about one of chapters 1 to n |
| ContentValidator.CollectAbout | bookwriter/validators/content_validator.py:118-120 | the problems about chapter k are exactly those of result k, which is not an exception |
| ContentValidator.ChecksNumbered | bookwriter/validators/content_validator.py:118-120 | checking each chapter with its own number gives numbered results |
| ContentValidator.ChapterIssuesKeepNumber | bookwriter/validators/content_validator.py:125-161 | the chapter check reports problems only about the number it was given |
| ContentValidator.ChaptersNumbered | bookwriter/validators/content_validator.py:118-120 | the loop's problems about chapter k are exactly those of chapter k checked alone: none lost, duplicated or misattributed, none outside 1 to n |
| ContentValidator.PlotIssues | bookwriter/validators/content_validator.py:103-122 | no outline, or one that is not a non-empty list, gives its one problem; otherwise every chapter is checked in order |
| ContentValidator.CharactersStop | bookwriter/validators/content_validator.py:89-98 | once a prefix of the characters raises, the whole loop raises the same way |
| ContentValidator.ValidateCharacters | bookwriter/validators/content_validator.py:79-100 | the character loop computes exactly CharactersIssues |
| ContentValidator.ValidateChapters | bookwriter/validators/content_validator.py:118-120 | the chapter loop computes exactly AllChapters |
| ContentValidator.ValidatePlot | bookwriter/validators/content_validator.py:103-122 | `_validate_plot_section` with its loop computes exactly PlotIssues |
| ContentValidator.SectionCheck | bookwriter/validators/content_validator.py:36-38 | a missing-section problem exactly when `in` does not find the section; raises exactly on a value that is neither dict, list nor string |
| ContentValidator.MissingSections | bookwriter/validators/content_validator.py:35-38 | exactly the required sections `in` does not find |
| ContentValidator.Section | bookwriter/validators/content_validator.py:44-56 | `outline_data.get(key, {})` on a dict is the section's value |
| ContentValidator.MissingSectionsOnly | bookwriter/validators/content_validator.py:40-41 | an outline missing a section is refused with exactly the missing sections as its problems |
| ContentValidator.SectionsStop | bookwriter/validators/content_validator.py:36-38 | once a prefix of the sections raises, the whole scan raises the same way |
| ContentValidator.ScanSections | bookwriter/validators/content_validator.py:35-38 | the section loop computes exactly MissingSections |
| ContentValidator.ValidateOutlineStructure | bookwriter/validators/content_validator.py:21-61 | `validate_outline_structure` computes exactly OutlineStructure: the section loop, then the four section checks |
| ContentValidator.SpaceRunEnd | bookwriter/validators/content_validator.py:213 | the end of the run of whitespace a `\s+` consumes |
| ContentValidator.FirstRepeat | bookwriter/validators/content_validator.py:244-251 | the first sentence from i on that repeats, and none before it does |
| ContentValidator.RepeatedIn | bookwriter/validators/content_validator.py:235-253 | the reported sentence occurs more than twice and its excerpt has at most 50 characters |
| ContentValidator.MultiplicityBound | bookwriter/validators/content_validator.py:240-241 | no sentence occurs more often than the list is long |
| ContentValidator.RepetitionIff | bookwriter/validators/content_validator.py:235-253 | a repetition is reported exactly when some sentence of at least 20 characters occurs more than twice; the guard on fewer than three sentences excludes nothing |
| ContentValidator.CountOccurrences | bookwriter/validators/content_validator.py:249 | the loop counts exactly the occurrences of the sentence |
| ContentValidator.FindRepetition | bookwriter/validators/content_validator.py:244-253 | the loop of `_check_repetition` computes exactly RepeatedIn |
| ContentValidator.CheckRepetition | bookwriter/validators/content_validator.py:235-253 | `_check_repetition` computes exactly Repetition |
| ContentValidator.FirstContained | bookwriter/validators/content_validator.py:272-274 | the first listed phrase from i on that occurs, and none before it does |
| ContentValidator.Meta | bookwriter/validators/content_validator.py:256-276 | the first indicator in list order found in the lower-cased page; None exactly when none is found |
| ContentValidator.PageChecksValid | bookwriter/validators/content_validator.py:204-232 | a non-blank page passes exactly when every check does |
| ContentValidator.PageChecksFlags | bookwriter/validators/content_validator.py:213-218 | the code-block and heading problems stand exactly for their checks |
| ContentValidator.PageValidIff | bookwriter/validators/content_validator.py:181-232 | a page is valid exactly when it is not blank, within the word bounds, without marker, fence, repetition or meta content |
| ContentValidator.CodeBlockIff | bookwriter/validators/content_validator.py:217-218 | the code-block problem is reported exactly for a non-blank page containing a fence |
| ContentValidator.CleanedPageHasNoCodeBlock | bookwriter/validators/content_validator.py:217-218 | a page as the generator cleans it is never flagged for a code block |
| ContentValidator.GuardedHasNoMarker | bookwriter/validators/content_validator.py:213 | a text in which every `##` follows other text on its line has no chapter marker |
| ContentValidator.GuardedSlice | bookwriter/validators/content_validator.py:213 | a slice starting at the beginning, after blank text or after a line break keeps that property |
| ContentValidator.GuardedConcat | bookwriter/validators/content_validator.py:213 | two such texts joined where no `##` can straddle the seam keep it |
| ContentValidator.NoHashGuarded | bookwriter/validators/content_validator.py:213 | a text without `#` has it trivially |
| ContentValidator.GuardedJoin | bookwriter/validators/content_validator.py:213 | joining such texts with line-break separators keeps it |
| ContentValidator.GuardedStrip | bookwriter/validators/content_validator.py:213 | stripping keeps it |
| ContentValidator.GuardedSplit | bookwriter/validators/content_validator.py:213 | the pieces of a split on a separator ending in a line break keep it |
| ContentValidator.BeforeFirst | bookwriter/validators/content_validator.py:213 | before the first occurrence of a one-character separator that character does not occur |
| ContentValidator.SplitAvoids | bookwriter/validators/content_validator.py:213 | no piece of a split on a one-character separator contains it |
| ContentValidator.SplitLines | bookwriter/validators/content_validator.py:213 | the pieces of a split on line breaks are single lines |
| ContentValidator.BreakSeparators | bookwriter/validators/content_validator.py:213 | the two separators of the cleanup are line breaks |
| ContentValidator.HashesAfterBlank | bookwriter/validators/content_validator.py:213 | hashes with only whitespace before them on a line are where its stripped text starts |
| ContentValidator.GuardedLine | bookwriter/validators/content_validator.py:213 | a single line whose stripped text does not start with `##` has the property |
| ContentValidator.WithoutHeadingsGuarded | bookwriter/validators/content_validator.py:213 | the text left after the cleanup drops heading lines has the property |
| ContentValidator.ParagraphsGuarded | bookwriter/validators/content_validator.py:213 | the cleaned paragraphs have the property |
| ContentValidator.CleanedPageHasNoMarker | bookwriter/validators/content_validator.py:213-214 | a page as the generator cleans it is never flagged for a chapter heading |
| ContentValidator.Occurring | bookwriter/validators/content_validator.py:411-414 | exactly the listed phrases that occur, in order |
| ContentValidator.BlurbChecksIff | bookwriter/validators/content_validator.py:402-416 | one spoiler problem per phrase found; the blurb passes exactly when it has 100 to 250 words and no phrase is found |
| ContentValidator.BlurbSpoilers | bookwriter/validators/content_validator.py:411-414 | a spoiler is reported exactly for each listed phrase the lower-cased blurb contains |
| ContentValidator.BlurbValidIff | bookwriter/validators/content_validator.py:385-418 | a blurb is valid exactly when it is not blank, has 100 to 250 words and no spoiler phrase |
| ConsistencyValidator.FirstClash | bookwriter/validators/consistency_validator.py:69-77 | the first pair of word groups on which the two states clash, and none before it does; None exactly when none clashes |
| ConsistencyValidator.DetectContradictionsIff | bookwriter/validators/consistency_validator.py:58-79 | a contradiction is found exactly when some pair clashes, and it names the leading words of the first such pair |
| ConsistencyValidator.FirstClashSymmetric | bookwriter/validators/consistency_validator.py:76 | swapping the states finds the same first clashing pair |
| ConsistencyValidator.ContradictionsSymmetric | bookwriter/validators/consistency_validator.py:58-79 | the order of the two states does not matter, even for the message |
| ConsistencyValidator.Verdicts | bookwriter/validators/consistency_validator.py:43 | one verdict per consecutive pair of states |
| ConsistencyValidator.VerdictAt | bookwriter/validators/consistency_validator.py:43-49 | verdict k is the comparison of states k and k + 1, lower-cased |
| ConsistencyValidator.PairProblem | bookwriter/validators/consistency_validator.py:50-51 | a problem for pair k exactly when its verdict is a contradiction |
| ConsistencyValidator.PairProblemsExact | bookwriter/validators/consistency_validator.py:43-51 | only consecutive pairs are compared, and every contradicting one is reported |
| ConsistencyValidator.StateCheck | bookwriter/validators/consistency_validator.py:39-40 | a missing-state problem exactly when the data has no current state |
| ConsistencyValidator.CharacterConsistencyExact | bookwriter/validators/consistency_validator.py:21-55 | exactly a missing state and the contradicting consecutive pairs are reported, all under the character's name |
| ConsistencyValidator.PairsSnoc | bookwriter/validators/consistency_validator.py:50-51 | one more pair checked appends its problem, if any |
| ConsistencyValidator.CheckPair | bookwriter/validators/consistency_validator.py:44-51 | one pass of the loop extends the problems of the first k pairs to those of the first k + 1 |
| ConsistencyValidator.CheckPairs | bookwriter/validators/consistency_validator.py:43-51 | the loop reports exactly the problems of all consecutive pairs, in order |
| ConsistencyValidator.ValidateCharacterConsistency | bookwriter/validators/consistency_validator.py:21-55 | the loop over consecutive pairs computes exactly CharacterConsistency |
| ConsistencyValidator.WorldConsistency | bookwriter/validators/consistency_validator.py:86-119 | a dict world is checked without raising, and passes exactly when it has a non-empty dict of locations and a non-empty list of rules; only TypeError is raised |
| ConsistencyValidator.WorldProblemsOfDict | bookwriter/validators/consistency_validator.py:102-115 | for a dict, each of the four problems is reported exactly when its condition holds |
| ConsistencyValidator.WorldIgnoresRules | bookwriter/validators/consistency_validator.py:86-119 | the consistency rules make no difference |
| ConsistencyValidator.NumberCheck | bookwriter/validators/consistency_validator.py:144-149 | summary n is reported exactly when its number, -1 when absent, is not n; a non-dict raises AttributeError |
| ConsistencyValidator.SummaryCheck | bookwriter/validators/consistency_validator.py:152-155 | summary n is reported thin exactly when its text is shorter than 20; a non-dict raises AttributeError and a text without a length TypeError |
| ConsistencyValidator.NarrativeProgress | bookwriter/validators/consistency_validator.py:126-159 | no chapters is one problem; otherwise the numbers are checked, then the lengths |
| ConsistencyValidator.CollectedOver | bookwriter/validators/consistency_validator.py:144-155 | a loop over the summaries succeeds exactly when every check does, and reports the union of their problems |
| ConsistencyValidator.NarrativeProgressRaises | bookwriter/validators/consistency_validator.py:144-155 | over a non-empty list, progress raises AttributeError on a summary that is not a dict, and succeeds exactly when every summary is a dict whose text has a length |
| ConsistencyValidator.WrongNumbersExact | bookwriter/validators/consistency_validator.py:144-149 | summary k is reported for its number exactly when that number is not k |
| ConsistencyValidator.ThinSummariesExact | bookwriter/validators/consistency_validator.py:152-155 | summary k is reported thin exactly when its text is shorter than 20 |
| ConsistencyValidator.NoChaptersOnlyWhenEmpty | bookwriter/validators/consistency_validator.py:139-141 | "no chapters" is reported exactly for an empty or false value |
| ConsistencyValidator.ValidateNarrativeProgress | bookwriter/validators/consistency_validator.py:126-159 | the two loops compute exactly NarrativeProgress |
| ConsistencyValidator.TimelineCheck | bookwriter/validators/consistency_validator.py:182-198 | one chapter adds no problem; `.get` needs a dict and `.lower()` a string, or AttributeError |
| ConsistencyValidator.TimelineNeverReports | bookwriter/validators/consistency_validator.py:166-209 | the timeline never reports a problem; it raises exactly on a chapter that is not a dict or a summary that is not a string |
| ConsistencyValidator.ValidateTimeline | bookwriter/validators/consistency_validator.py:166-209 | the loop computes exactly Timeline, which reports nothing |
| ConsistencyValidator.LetterRunEnd | bookwriter/validators/consistency_validator.py:234 | the end of the run of lower-case name letters after a capital |
| ConsistencyValidator.NamesFrom | bookwriter/validators/consistency_validator.py:234 | every potential name found has a capital followed by at least one lower-case name letter |
| ConsistencyValidator.Uncommon | bookwriter/validators/consistency_validator.py:237-238 | exactly the names that are not common words, each as often as before |
| ConsistencyValidator.WarningsExact | bookwriter/validators/consistency_validator.py:245-248 | exactly the names counted at least three times and not expected are warned about, once each |
| ConsistencyValidator.CharacterMentionsExact | bookwriter/validators/consistency_validator.py:216-252 | a warning exactly for each uncommon capitalised word found at least three times that is not an expected character, each at most once |
| ConsistencyValidator.WarnFrequent | bookwriter/validators/consistency_validator.py:245-248 | the loop over the counter computes exactly Warnings |
| ConsistencyValidator.ValidateCharacterMentions | bookwriter/validators/consistency_validator.py:216-252 | the names, their counter and the loop compute exactly CharacterMentions |
| ConsistencyValidator.HistoryStates | bookwriter/validators/consistency_validator.py:43-46 | the states compared from the value passed as history: none with fewer than two entries; otherwise `len`, indexing and `.lower()` raise on the wrong types |
| ConsistencyValidator.StateHistoryDefault | bookwriter/validators/consistency_validator.py:293 | a character without a history of its own gets a one-state history |
| ConsistencyValidator.CharacterCheck | bookwriter/validators/consistency_validator.py:292-303 | one character of the report: `.get` needs a dict; the entry carries the character's name and its own check |
| ConsistencyValidator.CharacterChecks | bookwriter/validators/consistency_validator.py:292-303 | one check per character, in order |
| ConsistencyValidator.ReportNarrativeGate | bookwriter/validators/consistency_validator.py:308-320 | the narrative section appears exactly when the chapter summaries are non-empty, and then holds their progress check |
| ConsistencyValidator.ReportSections | bookwriter/validators/consistency_validator.py:273-305 | the world section is the world check, and there is one entry per character, in order, with its own check |
| ConsistencyValidator.ReportWithoutHistories | bookwriter/validators/consistency_validator.py:292-296 | a character without a `state_history` entry, like every character the engine writes, can only be reported for a missing current state |
| ConsistencyValidator.CheckCharacters | bookwriter/validators/consistency_validator.py:292-303 | the report's character loop computes exactly the collected checks |
| ConsistencyValidator.GenerateConsistencyReport | bookwriter/validators/consistency_validator.py:259-322 | the report's sections in order, each computed by its loop |
| PdfExporter.SubstCharConcat | bookwriter/pdf_exporter.py:387-389 | substituting a character distributes over concatenation |
| PdfExporter.SubstCharAbsent | bookwriter/pdf_exporter.py:387-389 | substituting an absent character changes nothing |
| PdfExporter.AbsentBefore | bookwriter/pdf_exporter.py:387-389 | a character that is not there before position i is not found before it |
| PdfExporter.ReplaceOneChar | bookwriter/pdf_exporter.py:387-389 | replacing a one-character pattern is substituting that character |
| PdfExporter.EscapedShape | bookwriter/pdf_exporter.py:385-390 | the escaped text holds no `<` or `>`, and each `&` grows by 4 characters, each `<` and `>` by 3 |
| PdfExporter.SubstitutedConcat | bookwriter/pdf_exporter.py:387-389 | the three substitutions distribute over concatenation |
| PdfExporter.SubstOne | bookwriter/pdf_exporter.py:387-389 | substituting in one character |
| PdfExporter.SubstitutedChar | bookwriter/pdf_exporter.py:387-389 | the three substitutions on one character are its escape; the `&` of an earlier escape is not escaped again |
| PdfExporter.SubstitutionsEscape | bookwriter/pdf_exporter.py:387-389 | the three substitutions escape each character on its own |
| PdfExporter.EscapeHtmlIsEscaped | bookwriter/pdf_exporter.py:385-390 | `_escape_html` escapes each character on its own: no `<` or `>` remains, and the length grows by 4 per `&` and 3 per `<` or `>` |
| PdfExporter.ProcessMarkdown | bookwriter/pdf_exporter.py:366-369 | empty text stays empty |
| PdfExporter.ProcessMarkdownEscapes | bookwriter/pdf_exporter.py:366-383 | non-empty text is escaped as `_escape_html` does before the emphasis is applied |
| PdfExporter.Anchor | bookwriter/pdf_exporter.py:322 | the anchor of a chapter starts with "chapter_" |
| PdfExporter.KeepConcat | bookwriter/pdf_exporter.py:304-357 | filtering the story distributes over concatenation |
| PdfExporter.ClassifyKinds | bookwriter/pdf_exporter.py:305-349 | the four kinds of line: a heading starts with `##` but not `###`, a blank line is empty once stripped, a text line does not start with `#`, every other line is dropped |
| PdfExporter.DropHashesShape | bookwriter/pdf_exporter.py:319 | `lstrip('#')` removes the leading run of `#` and nothing else |
| PdfExporter.Paragraph | bookwriter/pdf_exporter.py:352-357 | a buffer becomes one body paragraph, unless it is empty or renders to nothing |
| PdfExporter.Flush | bookwriter/pdf_exporter.py:339-345 | ending a paragraph empties the buffer, keeps the chapter count and appends the buffer's paragraph |
| PdfExporter.Numbered | bookwriter/pdf_exporter.py:318-333 | one numbered title per chapter line |
| PdfExporter.FlushKeepsTitles | bookwriter/pdf_exporter.py:310-316 | ending a paragraph adds no chapter title |
| PdfExporter.StepCounts | bookwriter/pdf_exporter.py:318 | a line adds a chapter exactly when it is a chapter line |
| PdfExporter.StepTitles | bookwriter/pdf_exporter.py:308-335 | a chapter line adds its title, numbered after those before it; no other line adds one |
| PdfExporter.NumberedSnoc | bookwriter/pdf_exporter.py:318-333 | one more title line numbers its title after the others |
| PdfExporter.StepKeepsTitlesAgree | bookwriter/pdf_exporter.py:304-349 | the story's titles stay those of the title lines read so far, after every line |
| PdfExporter.ParsedTitlesAgree | bookwriter/pdf_exporter.py:304-357 | after all lines, the story's titles are those of the title lines |
| PdfExporter.ChaptersNumbered | bookwriter/pdf_exporter.py:308-335 | the k-th chapter line becomes chapter k + 1, bookmarked `chapter_<k + 1>`, titled with its text after the `#`s, stripped and escaped; no other line makes a title |
| PdfExporter.DroppedLineIgnored | bookwriter/pdf_exporter.py:304-349 | a dropped line neither ends the paragraph nor joins it |
| PdfExporter.BlankLineFlushes | bookwriter/pdf_exporter.py:338-345 | a blank line ends the paragraph being buffered |
| PdfExporter.TextLineBuffered | bookwriter/pdf_exporter.py:348-349 | a text line joins the buffer, stripped, and adds nothing to the story yet |
| PdfExporter.ParagraphBodies | bookwriter/pdf_exporter.py:356 | a flushed paragraph is a body paragraph |
| PdfExporter.FlattenSnoc | bookwriter/pdf_exporter.py:349 | the buffered lines of one more paragraph follow those before |
| PdfExporter.RenderedSnoc | bookwriter/pdf_exporter.py:310-357 | one more paragraph renders after those before |
| PdfExporter.FlushKeepsParagraphsAgree | bookwriter/pdf_exporter.py:310-316 | ending a paragraph keeps the story's bodies those of the paragraphs |
| PdfExporter.ChapterKeepsParagraphsAgree | bookwriter/pdf_exporter.py:308-335 | a chapter line keeps the story's bodies those of the paragraphs |
| PdfExporter.StepKeepsParagraphsAgree | bookwriter/pdf_exporter.py:304-349 | every line keeps the bodies and paragraphs agreeing with the text lines read |
| PdfExporter.ParsedParagraphsAgree | bookwriter/pdf_exporter.py:304-349 | after all lines, the paragraphs hold exactly the text lines |
| PdfExporter.ParagraphsPreserved | bookwriter/pdf_exporter.py:304-357 | every text line, stripped and in order, lands in exactly one paragraph; no paragraph is empty; the story's bodies are those the paragraphs render to |
| PdfExporter.ParsedOnlyText | bookwriter/pdf_exporter.py:304-349 | the loop adds only titles and body paragraphs |
| PdfExporter.ManuscriptOnlyText | bookwriter/pdf_exporter.py:289-360 | the manuscript contributes chapter titles and body paragraphs only |
| PdfExporter.BlurbOf | bookwriter/pdf_exporter.py:394-395 | `metadata.get('blurb', '')` succeeds exactly on dict metadata |
| PdfExporter.BackMatterGate | bookwriter/pdf_exporter.py:392-407 | no back cover for a false blurb, the blurb's markdown for a non-empty string; raises exactly when the metadata is not a dict or a true blurb is not a string |
| PdfExporter.SubstCharRemoves | bookwriter/pdf_exporter.py:432 | substituting a character removes every occurrence |
| PdfExporter.DocumentTitle | bookwriter/pdf_exporter.py:432 | the document title holds no underscore |
| PdfExporter.ExportOutcomeCases | bookwriter/pdf_exporter.py:409-464 | a missing manuscript is reported first; an export succeeds exactly when the manuscript reads, the title is a string, the cover can be built and so can the back matter; without a cover image a `style_profile` that is not a string fails the export with AttributeError ("Error al exportar PDF") before the manuscript is read |
| PdfExporter.CoverProfile | bookwriter/pdf_exporter.py:210-252 | the cover raises exactly when there is no cover image and the metadata is not a dict or its `style_profile` is not a string, and then with AttributeError |
| PdfExporter.ParsedSnoc | bookwriter/pdf_exporter.py:304-349 | the parse state after one more line is one step from the state before |
| PdfExporter.StepStory | bookwriter/pdf_exporter.py:304-349 | what each kind of line adds to the story |
| PdfExporter.Exporter.constructor | bookwriter/pdf_exporter.py:61-73 | the exporter starts with an empty story |
| PdfExporter.Exporter.AppendParagraph | bookwriter/pdf_exporter.py:310-316 | appends the paragraph of a non-empty buffer, unless it renders to nothing |
| PdfExporter.Exporter.ParseManuscript | bookwriter/pdf_exporter.py:289-364 | false for a missing or unreadable file, with the story unchanged; otherwise the manuscript's story is appended |
| PdfExporter.Exporter.ParseLines | bookwriter/pdf_exporter.py:300-357 | the loop over the lines appends exactly the manuscript's story |
| PdfExporter.Exporter.ParseLine | bookwriter/pdf_exporter.py:305-349 | one line: chapter heading, blank line or text line changes the story, the chapter count and the paragraph buffer exactly as the parser specification steps |
| PdfExporter.Exporter.AddBackMatter | bookwriter/pdf_exporter.py:392-407 | the back cover is appended exactly as BackMatter says, nothing on a raise |
| PdfExporter.Exporter.AddCoverPage | bookwriter/pdf_exporter.py:197-229 | the cover is appended exactly when CoverProfile does not raise, and nothing otherwise |
| PdfExporter.Exporter.AddContents | bookwriter/pdf_exporter.py:441-457 | the table of contents, then the manuscript, then the back cover; an unreadable manuscript stops after the table of contents |
| PdfExporter.Exporter.Export | bookwriter/pdf_exporter.py:409-464 | the cover, the table of contents, the manuscript and the back cover, in that order; nothing is added when the manuscript is missing or the title or the cover raises; the message is ExportOutcome |
| BookMemory.OpenedMemory | bookwriter/core.py:59-89 | ValueError exactly for a refused project name; otherwise the initial memory of the sanitised name, then loaded |
| BookMemory.LoadFillsDefaults | bookwriter/core.py:162-181 | after loading, blurb, cover prompt and style profile are present: a stored value is kept, a missing one becomes "", "" and "balanced_neutral"; nothing else of a stored memory changes, and without a file the initial memory is used |
| BookMemory.ReloadChangesNothing | bookwriter/core.py:152-181 | saving the loaded memory and opening the project again gives the same memory |
| BookMemory.CeilCompare | bookwriter/core.py:413 | an integer page reaches a page estimate exactly when it reaches the estimate's ceiling |
| BookMemory.CastOf | bookwriter/core.py:316 | the characters dict read as a cast: its names in order, each with its entry |
| BookMemory.PositivePages | bookwriter/core.py:365 | a positive estimate reads as at least one page |
| BookMemory.FillStateIdempotent | bookwriter/core.py:327-331 | filling a character's state twice changes nothing the second time |
| BookMemory.StatesFixed | bookwriter/core.py:327-331 | characters already filled pass the state loop unchanged |
| BookMemory.FilledChapterPages | bookwriter/core.py:303-316 | a chapter whose estimate was filled reads with at least one page |
| BookMemory.ProcessedOutline | bookwriter/core.py:303-316 | the post-processed outline has its characters filled and every chapter of at least one page |
| BookMemory.ChapterCount | bookwriter/core.py:303-316 | a valid outline of n chapters lists n chapters |
| BookMemory.GeneratedOutline | bookwriter/core.py:303-331 | a generated outline has the requested number of chapters, each of at least one page, and every character already has a state, so the state loop of `generate_outline` changes nothing |
| BookMemory.AdoptedOutline | bookwriter/core.py:315-316 | `memory.update(outline)`, for an outline without top-level `metadata`, `writing_progress` or `chapters_summary` keys, replaces the cast and the plot and nothing else: one chapter per outline chapter |
| BookMemory.ProfileLinesListFocus | bookwriter/core.py:429-435 | every focused name that is a non-empty character has its profile among the lines, and every line is such a profile |
| BookMemory.ProfilesEmptyIff | bookwriter/core.py:423-437 | the profiles are empty exactly when no focused name is a non-empty character |
| BookMemory.CurrentStates | bookwriter/core.py:536-539 | one state per character, "Desconocido" where it has none |
| BookMemory.CurrentStatesKeys | bookwriter/core.py:536-539 | the current states are keyed by exactly the roster |
| BookMemory.SetState | bookwriter/core.py:551 | writing one character's state keeps the roster, the description and every other character |
| BookMemory.UpdatedNone | bookwriter/core.py:548-551 | before any name is done nothing is updated |
| BookMemory.NotYetDone | bookwriter/core.py:548-551 | in a roster without repeats, name i is not among the first i |
| BookMemory.UpdatedOne | bookwriter/core.py:548-551 | writing the state of a name not yet done |
| BookMemory.UpdatedStep | bookwriter/core.py:548-551 | one more name done: its new state is written when the update has one, and nothing else changes |
| BookMemory.UpdatedKeepsCast | bookwriter/core.py:525-553 | the update keeps the names and their order |
| BookMemory.UpdatedStatesComplete | bookwriter/core.py:525-553 | when the new states cover every name, every character then has a state |
| BookMemory.NotBeforeTransitive | bookwriter/core.py:413-416 | the cursor order is transitive |
| BookMemory.AdvanceMovesForward | bookwriter/core.py:413-416 | writing a page moves the cursor forward: the chapter index never decreases; within a chapter the page grows by one, and a finished chapter moves to page 0 of the next |
| BookMemory.InitialChronicle | bookwriter/core.py:124-150 | the initial memory has one summary per finished chapter: none |
| BookMemory.AdvanceKeepsChronicle | bookwriter/core.py:471-494 | writing a page keeps exactly one summary per finished chapter, copied from its outline entry |
| BookMemory.StatusAgreesWithWriter | bookwriter/core.py:772-815 | the status is "no outline" or "completed" exactly when there is nothing to write; while writing it names the page and chapter the writer writes next; once completed it shows page 0 of 0 of chapter "N/A" |
| BookMemory.HeadingOnce | bookwriter/core.py:453-469 | a chapter's heading is written exactly once, right before its first page, and every page is followed by a newline |
| BookMemory.Extract | bookwriter/core.py:510-517 | None exactly when the heading does not occur |
| BookMemory.ExtractBounds | bookwriter/core.py:510-517 | the extracted text starts at the last occurrence of the heading and runs to an occurrence of the next heading or to the end, with no occurrence of the next heading starting inside it |
| BookMemory.ChapterText | bookwriter/core.py:496-523 | the chapter text `_process_completed_chapter` indexes; None without the heading |
| BookMemory.OccursAfter | bookwriter/core.py:516 | an occurrence after a prefix is an occurrence in what follows it |
| BookMemory.ExtractLast | bookwriter/core.py:510-517 | when the manuscript ends with the heading and text holding neither it again nor the next heading, that is what is extracted |
| BookMemory.LastChapterIndexed | bookwriter/core.py:496-523 | the chapter written last is the one indexed: its heading and all that follows it |
| Core.LastWrittenText | bookwriter/core.py:439-451 | the last 1500 characters of the manuscript, or all of it when shorter: a suffix of that length |
| Core.SearchQuery | bookwriter/core.py:376 | the last written text, or the chapter's summary ("" without one) before anything is written |
| Core.SumPagesAtLeastCount | bookwriter/core.py:571 | chapters of at least one page each total at least their number of pages |
| Core.SumPagesSnoc | bookwriter/core.py:579-582 | the pages of the first k + 1 chapters are those of the first k plus chapter k's |
| Core.InitialCountAsWritten | bookwriter/core.py:574-584 | as written: 0 without an outline; where the chapter number is not an integer the subtraction raises TypeError |
| Core.CompletedBookRaises | bookwriter/core.py:574-584 | on a finished book the count as written raises TypeError, where the intended count is every page of the outline |
| Core.CountAsWrittenAgrees | bookwriter/core.py:574-584 | while writing a correctly numbered outline, the count as written and the corrected count agree |
| Core.AdvanceCountsOnePage | bookwriter/core.py:606 | writing a page within the chapter's estimate adds exactly one page to the count |
| Core.CompletedIff | bookwriter/core.py:788 | the status is completed exactly when there is an outline and the cursor is past its end |
| Core.ReportedSnoc | bookwriter/core.py:606-609 | one more progress item at the next ratio keeps every item's ratio right |
| Core.InputProblem | bookwriter/core.py:281-294 | no problem exactly when premise, chapter count and themes are accepted; otherwise the first refusal in that order |
| Core.AdoptedChapters | bookwriter/core.py:303-331 | after an accepted outline for n chapters, without top-level `metadata`, `writing_progress` or `chapters_summary` keys, the memory holds exactly n chapters, each of at least one page, a well-formed cast, and the old progress, summaries and metadata |
| Core.AfterAdoption | bookwriter/core.py:317-338 | after the adoption `generate_outline` succeeds exactly when neither `validate_outline_structure` nor `get_outline_summary` raises, and then with the outline's message |
| Core.FinishOutline | bookwriter/core.py:317-338 | runs the structure check, then the summary, and returns AfterAdoption |
| Core.AdoptionRaises | bookwriter/core.py:317-338 | once the structure check of an accepted outline passes, the summary still raises exactly on true `key_locations` without a length, or on one of the first three chapters whose summary does not slice |
| Core.BookWriter.constructor | bookwriter/core.py:91-115 | the style manager of the chosen profile and overrides, the prompt builder on its full configuration, and the three generators on the one client |
| Core.BookWriter.Open | bookwriter/core.py:44-118 | ValueError exactly for a refused project name; otherwise an engine on the initial memory of the sanitised name, or the stored one |
| Core.BookWriter.BuildCharacterProfiles | bookwriter/core.py:423-437 | the profile of each focused name that is a non-empty character, joined by line breaks, as ProfileLinesListFocus and ProfilesEmptyIff state |
| Core.BookWriter.AppendPageToBook | bookwriter/core.py:453-469 | the manuscript grows by the heading before the first page of a chapter, then the page and a newline, as HeadingOnce states |
| Core.BookWriter.ProcessCompletedChapter | bookwriter/core.py:496-523 | the chapter's text as found in the manuscript goes to the semantic memory; a missing heading skips it, and an embedding failure is swallowed |
| Core.BookWriter.UpdateCharacterStates | bookwriter/core.py:525-553 | nothing without characters; otherwise one request with the current states, and every returned state is written, the roster kept; a raise changes nothing |
| Core.BookWriter.ApplyStates | bookwriter/core.py:548-551 | the assignment loop writes every returned state over the roster and keeps the cast well formed |
| Core.BookWriter.CompleteChapter | bookwriter/core.py:471-494 | the chapter is filed in the semantic memory, the characters take their new states, exactly one summary copied from the outline is appended and the cursor moves to page 0 of the next chapter; a failed update leaves the memory as it was |
| Core.BookWriter.WritePage | bookwriter/core.py:410-417 | the page goes to the manuscript; on the chapter's last page the chapter is completed, otherwise the page count moves on by one |
| Core.BookWriter.GeneratePage | bookwriter/core.py:346-421 | a finished book gives "completed" and changes nothing; a failed search or a zero-page chapter raises before any request; a rejected page changes neither memory nor manuscript; an accepted page is appended with its heading, the cursor advances, and the message names page, estimate and chapter |
| Core.BookWriter.AnswerPage | bookwriter/core.py:383-421 | with the context in hand: a zero-page chapter raises before any request; the requests grow by the retried page request; a rejected page changes neither memory nor manuscript; an accepted page is appended with its heading, and the cursor advances with a message naming page, estimate and chapter |
| Core.BookWriter.AskOutline | bookwriter/core.py:303-338 | one retry loop on the outline prompt with the memory's system prompt; a refused or failed outline changes nothing; an accepted one is adopted, then the structure check and the summary run, and an exception from either is the result, raised with the outline already in the memory |
| Core.BookWriter.AskWithPremise | bookwriter/core.py:297-316 | the premise and the cleaned themes are stored, then the outline is asked for; a memory without an author style raises KeyError with no request |
| Core.BookWriter.GenerateOutline | bookwriter/core.py:263-340 | refused inputs are reported, in the order premise, chapter count, themes, and change nothing; otherwise the premise and themes are stored and the outline is asked for, adopted, checked and summarised as AskOutline states |
| Core.BookWriter.WritingStep | bookwriter/core.py:599 | one page: the manuscript only grows, outline and metadata stay, the cursor never moves back and the summaries keep one per finished chapter |
| Core.BookWriter.PageStep | bookwriter/core.py:590-609 | one turn of the writing loop: a page with "Error" in its status stops with one failure item at the ratio so far; otherwise the item carries the status taken before the page at the ratio of one more page; a zero page total raises; outline and metadata stay and the cursor never moves back |
| Core.StoppedReports | bookwriter/core.py:601-604 | the items drawn up to a stop are the reported pages and then at most one failure item, never a done item |
| Core.BookWriter.WriteFullBook | bookwriter/core.py:557-631 | with the corrected count of pages already written (see Findings): a finished book yields only (1.0, done), where the code as written raises TypeError; an empty outline raises ZeroDivisionError; every page item carries ratio (pages written)/(total pages); a page whose status holds "Error" ends the run with that item; the done item comes only when the book is finished; the cursor never moves back |

## Left out

- File I/O is not modelled as such. `save_memory`, writing `book.md` and the FAISS index files, and reading them back become fields and parameters: the manuscript is the `book` field, and the stored memory is a `BookMemory.MemoryFile` value.
- `_get_last_written_text` on an unreadable file: the read error is swallowed and "" is returned. The model has one manuscript string, so a missing file and an empty one are the same.
- `validate_project_path`, `validate_file_exists` and the directory creation of `BookWriter.__init__`: they touch the file system only.
- The `created` and `model` metadata: a clock and a configuration constant.
- Logging, `print` and the `logger` calls. The checks whose only effect is a log line are left out of `generate_page`: `validate_page_content` and `analyze_content_quality`. They are modelled on their own (`ContentValidator`, `PageGenerator.AnalyzeQuality`). `generate_outline` does run `validate_outline_structure` and `get_outline_summary` in the model, because either can raise (`Core.AfterAdoption`); only their log lines are left out.
- OutlineGenerator.GetOutlineSummary: models what the summary can raise, not its text. A dict summary raises TypeError in the model; recent Python versions, which can slice a dict, raise KeyError instead. Either way `generate_outline` fails with an exception. Whether the memory was saved before the summary raised is not distinguished (file I/O, above).
- `time.sleep`: sleeps are recorded as numbers, not taken. The retry loop logs its waits in `GroqCall.Client.slept`; `write_full_book` counts its 10-second pauses in `pauses`.
- Concurrency, the network and the services themselves: Groq, Ollama embeddings and FAISS search are oracles.
- JSON parsing (`json.loads`) is a parser parameter. Regex substitutions are modelled where they are simple: fences, invalid characters, separator runs, name tokens and the chapter-marker search. The emphasis regexes of `_process_markdown` are a function parameter.
- Prompt wording: the long literal texts of the prompts and instructions are opaque string constants. The model proves which sections appear and in what order, not their wording.
- Case mapping (`lower`, `upper`, `title`) and the regex `\w` and `\b` classes cover ASCII and Latin-1 letters only, which include every accented letter the source's literals use. Python's own mapping differs on three Latin-1 letters: `'ß'.upper()` is "SS", `'ÿ'.upper()` is "Ÿ" (outside Latin-1) and `'µ'.upper()` is "Μ". The model maps each of them to itself and, for `title`, does not count them as cased. Letters outside Latin-1, such as "č" or "ł", are neither cased nor word characters in the model.
- InputValidator.Capitalize: keeps the length, which Python does not when the first letter is 'ß' (it becomes "SS"). The first letters 'ÿ' and 'µ' and letters outside Latin-1 are left as they are.
- ConsistencyValidator.NamesFrom: name letters are ASCII and Latin-1 letters only. Python's `\b` and `\w` are Unicode, so in "Juanč" Python finds no name at all (the `\b` after "Juan" fails), while the model finds "Juan".
- PromptBuilder.PageNote: the near-end test follows the binary64 product `total * 0.7` with round-to-nearest-even (PastSeventy). The argument that SeventyRoundsDown is exact holds for totals below 2^49, far beyond any book. A non-integral page estimate (12.5, say) is read as its ceiling (BookMemory.PagesOf). Python keeps the float: no page equals 12.5, so no page gets the last-page note, and the near-end test compares with 0.7 times 12.5. On page 13 of such a chapter Python gives the near-end note where the model gives the last-page note, and on page 9 Python gives the near-end note where the model gives none.
- PageGenerator.PositionAgreesWithNote: for a non-integral page estimate the model reads the total as its ceiling, so the page at that ceiling is "closing"; Python's `page_number == total_pages` never holds for such a total, and that page is "middle".
- InputValidator.ValidateChapterCount: takes an integer. The `int()` coercion of a non-int argument and the "debe ser un número entero" message for one that does not convert (input_validator.py:149-153) are not modelled, since every caller passes an int.
- `generate_book_blurb`, `generate_cover_art`, `export_to_pdf`, `_format_status_display` and the image generator: each is one model call or a presentation step outside the writing engine.
- `StyleManager.get_summary`, `PromptBuilder.build_blurb_prompt`, `CharacterUpdater.format_character_summary` and `get_character_arc_summary`: display text only. The text of `OutlineGenerator.get_outline_summary` is left out too; what it can raise is modelled.
- `PageGenerator.estimate_word_count`, `PageGenerator.detect_scene_type`, `ContentValidator.analyze_narrative_quality` and `ContentValidator.detect_common_issues`: analytics the engine never acts on (the scene type is always "mixed"); their float ratios and rounding are not modelled.
- PDF layout: styles, spacers, images, the cover and table-of-contents flowables, page numbering and reportlab's build errors. Whether `cover.png` exists and loads is the exporter's `coverImage` flag. The spacers and lines the text cover appends before its `style_profile` raises are not modelled, so the model's story is unchanged on that raise. The story is a list of tagged items: cover, table of contents, chapter title, body, back cover.
- BookMemory.ChapterOf: the typed reading of an outline chapter reads a value of the wrong JSON type as missing. A non-string title is read as absent, so the source's f-string of that value is shown as the default.
- BookMemory.PagesOf: a non-integral page estimate is read as its ceiling. The post-processing keeps such an estimate (outline_generator.py:229 replaces only a missing or non-positive one), and the content check only reports it. The ceiling is exact for `page_in_chapter >= total_pages` (core.py:413, see BookMemory.CeilCompare). It is not exact for the equality tests of the page note and the page position (prompt_builder.py:361, page_generator.py:141), nor for the 70% test, the estimate shown in the status messages, or `write_full_book`'s float total; see PromptBuilder.PageNote and PageGenerator.PositionAgreesWithNote.
- BookMemory.Adopted: keeps only the characters and the plot of the generated outline in the typed record. `world`, `style` and `consistency_rules` are not part of the typed memory. `memory.update(outline_data)` overwrites every top-level key the outline has, including `metadata`, `writing_progress` and `chapters_summary`; the model keeps the memory's own metadata, progress and summaries, which is exact only for an outline without those keys. The generator's validation does not refuse such keys. Keys duplicated in a JSON object are read first-wins.
- BookMemory.AdoptedOutline: states "nothing else changes" for outlines without top-level `metadata`, `writing_progress` or `chapters_summary`, as BookMemory.Adopted above.
- Core.AdoptedChapters: the kept progress, summaries and metadata hold for outlines without those top-level keys, as BookMemory.Adopted above.
- Core.BookWriter.WriteFullBook: reports each page's progress ratio as an exact rational instead of a float. The generator is unbounded, and a consumer that keeps drawing from a book whose pages are always rejected without "Error" in the status loops forever. The model bounds the pages asked for by `limit`.
- Core.BookWriter.GenerateOutline: does not run the state-filling loop of `generate_outline` (core.py:327-331). `BookMemory.GeneratedOutline` proves it changes nothing on an outline the generator accepted.
- Core.BookWriter.GenerateOutline: follows the code in one respect. `memory.update(outline_data)` replaces the plot, so the premise and themes stored just before are overwritten by the outline's own; the model does the same.
- Core.BookWriter.WriteFullBook: uses the corrected count of pages already written, `Core.InitialCount`. On a finished book it yields (1.0, done), where the code raises TypeError (core.py:574-575); see "## Findings".
- Core.BookWriter.WriteFullBook: checks for "Error" only in the status of a rejected page. The status texts of an accepted page and of a finished book hold no "Error", so the check cannot fire on them.
- The system prompt is computed once per model call and sent with every retry of that call, as in the source.

## Findings

| source | as written | input that shows it | evidently intended | confidence | as-written member | corrected member |
|---|---|---|---|---|---|---|
| bookwriter/core.py:574-584 | the count of pages already written subtracts 1 from the status's `current_chapter_number`, which is the string "N/A" once the book is finished | `write_full_book()` on a book whose cursor is past the last chapter: `"N/A" - 1` raises TypeError before anything is yielded | a finished book counts every page of the outline, so the loop is skipped and only the final (1.0, done) item is yielded | not executed | Core.InitialCountAsWritten, Core.CompletedBookRaises | Core.InitialCount (proved in Core.CompletedBookRaises, Core.CountAsWrittenAgrees and Core.AdvanceCountsOnePage) |
| bookwriter/validators/input_validator.py:326-328 | the error message for an unknown level calls `.keys()` on the list of valid levels that the signature declares | `validate_custom_dimensions({"prose": "x"}, {"prose": ["simple"]})` raises AttributeError | refuse the pair with a message listing the valid levels | not executed; the function has no caller in the repository | InputValidator.ValidateCustomDimensionsAsWritten, InputValidator.CustomDimensionsLevelRaises | InputValidator.ValidateCustomDimensions |
