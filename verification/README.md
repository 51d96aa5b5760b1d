# Guided-thinking loop: a Dafny model

This project models the core of a conversational "thinking tools" assistant.
The assistant stays dormant in a chat until it sees an activation phrase. It
then classifies the user's problem, recommends thinking methods (five whys,
SCAMPER, six hats, …) and walks the user through a method's questions one at
a time, keeping a session record. Two pieces of knowledge-base tooling are
modelled too:

- the generator that writes a YAML front-matter block at the top of each method file;
- the step that turns a parsed method file into a search document.

Everything is modelled as immutable datatypes and pure functions. State is
threaded through transition functions explicitly.

| module | file | models |
|---|---|---|
| `Basics` | basics.dfy | `Option`, duplicate-freedom, `Take` (Python's `xs[:n]`) |
| `Strings` | strings.dfy | the Python `str` operations the code relies on: `in`, `find`, `replace`, `count`, `lower`, `strip`/`lstrip`, `join`, `str(int)` |
| `Catalog` | catalog.dfy | the method catalog (`ALL_METHODS`, `CATEGORY_MAP`), as an abstract well-formed value |
| `Trigger` | trigger.dfy | `TriggerDetector`: the trigger constants, `detect`, `activate`, `deactivate` |
| `TriggerScenarios` | trigger_scenarios.dfy | concrete messages run through `detect` |
| `Classifier` | classifier.dfy | `ProblemClassifier`: the keyword table, scoring, the choice of category, confidence, the extra-method rules, recommendations, the reasoning text |
| `QuestionEngine` | question_engine.dfy | `QuestionEngine`: `generate_question`, `_contextualize_question`, `get_method_info`, `list_methods`, `format_question_output` |
| `Session` | session.dfy | `SessionState` with `to_dict`/`from_dict`; `SessionManager` with storage as a map from session id to record |
| `MetadataGenerator` | metadata_generator.dfy | `generate_frontmatter`, the 45/46/47 derived entries, and the strip-and-prepend step of `process_file` |
| `UploadKnowledge` | upload_knowledge.dfy | `prepare_document` |

## Modelling decisions

- **The detector** is a record `Detector(isActive, currentSession)`.
  - `Detect` returns a `Decision(triggered, action, message)` and no new detector, so detection never changes the state.
  - The `value` of the Python result is carried by the action: `Method(name)` or `SelectNumber(n)`.
- **The order of the classifier's candidate methods** comes from iterating a Python `set`, so it is unspecified. `RecommendedMethods`, `Shortlist` and `Classify` take that order as a parameter `order`. The parameter must enumerate the candidate set without repeats, and every contract holds for every such order.
- **The catalog** is `Catalog(order, methods, categoryMap)`. It is well formed when:
  - `order` lists the method ids once each;
  - each method has exactly `steps` questions.
- **Confidence** is an exact `real`. The scores are small whole numbers, so the ratio and the comparisons with 0.5 and 0.3 come out as they do with Python floats.
- **Session storage** is a `map` from session id to a record. A record is a map from field name to a JSON-like value (`Str`, `Int`, `Bool`, `List`).
  - `from_dict`'s `cls(**data)` fails on a missing or unknown key. `load_session` catches that failure, and the model returns `None`.
  - A missing `is_completed` takes its default, `false`.
- **The clock and the session id** (`datetime.now()`, the SHA-256 prefix) are parameters: `now` and `sessionId`.
- **Text handling:**
  - Lower-casing uses the ASCII case mapping.
  - `strip` uses Python's whitespace set.
  - The regular expressions `/method:(\w+)` and `/(\d+)` are modelled with `\w` as ASCII letters, digits, `_` and Hangul, and `\d` as ASCII digits.
- **`add_answer` does not look at completion.** `add_answer` (src/session.py:83-98) refuses an answer only when there is no current session. Otherwise it appends the answer and advances the step, whether or not the session is already completed. The model follows the code:
  - `Session.CompletedStillAnswers` shows that a completed session still takes an answer;
  - `Session.Answered` promises only that completion is set once the step reaches the total, and is never reset;
  - nothing claims `current_step <= total_steps`.

  Completion is tested with `>=` against the total (src/session.py:93), and the model keeps that test.
- **The generator is not idempotent.** Running the frontmatter replacement twice with the same block changes the file exactly when the original content began with whitespace and had no block. The first run keeps that leading whitespace; the second run strips it (`MetadataGenerator.ReplaceTwice`). A third run changes nothing (`MetadataGenerator.ReplaceSettles`).

## Model

| member | source | states |
|---|---|---|
| Trigger.TriggersAreTrimmed | src/trigger.py:15-27 | every activation phrase is non-empty and has no surrounding whitespace, so matching it against the stripped message is the same as matching it against the whole message |
| Trigger.FirstActivation | src/trigger.py:63-64 | the phrases are tried in list order: the result is the first phrase that occurs in the lowered message, and none exactly when no phrase occurs |
| Trigger.MethodMatch | src/trigger.py:75-77 | the leftmost position where `/method:` is followed by a word character, and none exactly when there is no such position |
| Trigger.MethodName | src/trigger.py:76-78 | the captured method name is non-empty, all word characters, directly follows `/method:`, and is maximal (the next character is not a word character) |
| Trigger.NumberMatch | src/trigger.py:87-88 | the leftmost `/` followed by a digit in the original (not lowered) message, and none exactly when there is none |
| Trigger.ActivationResidue | src/trigger.py:66-71 | the problem text after activation is never empty; when the phrase does not occur in the exact-case message, it is the stripped message, or the default prompt when that is blank |
| Trigger.FirstToken | src/trigger.py:60-131 | the first-match-wins priority: activation, then `/method:<word>`, then `/<digits>`, then auto, rag, done and help; each token wins exactly when every earlier one is absent |
| Trigger.Detect | src/trigger.py:48-148 | the action for every token and its payload; `triggered` is false only on the dormant no-token path; with no token it is an answer iff a session is active; only activation and rag rewrite the message |
| Trigger.DetectorTransitions | src/trigger.py:150-157 | `activate` sets the flag and keeps the session; `deactivate` returns to the initial state; after them a token-free message is an answer or is ignored |
| Trigger.ActivationAnywhere | src/trigger.py:60-72 | any activation phrase anywhere in the lowered message activates, whatever else the message holds, and the problem text is non-empty |
| TriggerScenarios.ActivationOutranksSelector | src/trigger.py:60-72 | "팀 문제 /think /1" activates, and the problem text keeps the `/1` |
| TriggerScenarios.UpperCasePhraseIsKept | src/trigger.py:60-71 | "/THINK 팀 문제" activates (the check is case-blind) but keeps the phrase in the problem text (the cut is exact-case) |
| TriggerScenarios.NumberSelectsMethod | src/trigger.py:87-95 | "/1" selects method number 1 and keeps the message |
| TriggerScenarios.PlainTextHasNoToken | src/trigger.py:60-131 | a lowered text without `/`, `씽` or `t` holds none of the tokens |
| TriggerScenarios.PlainIgnored | src/trigger.py:143-148 | such a text is ignored while dormant |
| TriggerScenarios.PlainAnswer | src/trigger.py:133-141 | such a text is an answer while a session is active |
| TriggerScenarios.DormantGreetingIgnored | src/trigger.py:143-148 | a greeting while dormant is not triggered |
| TriggerScenarios.TrailingPhraseActivates | src/trigger.py:60-72 | "팀 생산성이 낮아요 /think" activates, and the problem is "팀 생산성이 낮아요" |
| TriggerScenarios.DormantTextIgnored | src/trigger.py:143-148 | "회의가 너무 많아요" while dormant is not triggered |
| TriggerScenarios.ActiveTextIsAnswer | src/trigger.py:133-141 | the same kind of text during a session is an answer, unchanged |
| Classifier.Keywords | src/classifier.py:14-49 | each category's keywords are its entry in the rule table, in declaration order |
| Classifier.CountHits | src/classifier.py:96-99 | a category's score never exceeds the length of its keyword list |
| Classifier.CountHitsExtremes | src/classifier.py:96-99 | the score is 0 exactly when no keyword occurs, and the full length exactly when all occur |
| Classifier.CountHitsIsHitSetSize | src/classifier.py:96-99 | the score is the number of distinct keyword positions whose keyword occurs in the text |
| Classifier.UpperKeywordsNeverHit | src/classifier.py:93-98 | keywords with an upper-case letter never score against the lowered text, so they lower the reachable maximum |
| Classifier.StrategicUpperCase | src/classifier.py:23-32 | the strategic list has 43 keywords, five of them (`ROI`, `BCG`, `SWOT`, `Porter`, `M&A`) with upper-case letters |
| Classifier.StrategicScoreBound | src/classifier.py:26-30 | so the strategic score is at most 38 for any text |
| Classifier.ArgMax | src/classifier.py:70 | the chosen index holds the maximum, and every earlier index holds strictly less (ties go to the first) |
| Classifier.ConfidenceRange | src/classifier.py:71-72 | confidence lies in [0, 1]; it is positive iff some keyword scored, and exactly 1 iff the winner is the only category with a hit |
| Classifier.NoHitDefaults | src/classifier.py:70-72 | with all scores zero the first category wins with confidence 0 |
| Classifier.BestCategoryIsFirstMaximum | src/classifier.py:67-70 | the chosen category's score is maximal, and every category declared before it scores less |
| Classifier.NoKeywordIsAnalytical | src/classifier.py:67-72 | a text without any keyword is `analytical` with confidence 0 |
| Classifier.AnyContains | src/classifier.py:143-186 | a rule's condition holds iff one of its keywords occurs in the text |
| Classifier.FiredIdsMember | src/classifier.py:142-187 | an id is added iff some rule listing it has a keyword in the text |
| Classifier.FiredIdsNoDup | src/classifier.py:142-187 | rules with disjoint, duplicate-free id lists add no id twice |
| Classifier.RuleTableDisjoint | src/classifier.py:142-187 | the twelve keyword rules name disjoint ids, each list duplicate-free |
| Classifier.FiveWhysNotInTable | src/classifier.py:139-187 | `five_whys` is added only by the counting rule, never by a keyword rule |
| Classifier.AdditionalMethodsShape | src/classifier.py:133-189 | the extra-method list has no duplicates, and holds `five_whys` iff "왜" or "why" occurs at least twice (non-overlapping count) |
| Classifier.CausalRuleAddsBoth | src/classifier.py:168-171 | "원인", "cause" or "인과" adds `fishbone` and `systems_thinking`, and nothing else adds them |
| Classifier.KnownEntriesSound | src/classifier.py:120-129 | every recommendation is the catalog's entry for one of the given ids |
| Classifier.KnownEntriesComplete | src/classifier.py:120-129 | every given id that is in the catalog is recommended |
| Classifier.KnownEntriesDistinct | src/classifier.py:120-129 | distinct ids give distinct recommendations |
| Classifier.KnownEntriesOrdered | src/classifier.py:120-129 | recommendations come in the order of their ids: a later recommendation's id sits later in the list |
| Classifier.InOrderOfPrefix | src/classifier.py:117-120 | an order on the first n ids of a list without repeats is an order on the whole list |
| Classifier.RecommendedMethods | src/classifier.py:103-131 | at most five, each the catalog entry of a candidate among the first five of the set's order (the cut comes before the catalog filter), no id twice, and every catalog id among those five is present, in the set's iteration order |
| Classifier.Shortlist | src/classifier.py:83 | the first three recommendations: at most three, each a catalog candidate, no id twice, in the set's iteration order |
| Classifier.Classify | src/classifier.py:51-89 | the category is the first top-scoring one and the confidence its share of all keyword hits, in [0, 1]; at most three distinct catalog candidates; the reasoning is built from the chosen category and confidence |
| Classifier.SoleHitIsCertain | src/classifier.py:70-72 | when only the chosen category has keyword hits, the confidence is exactly 1 |
| Classifier.ClassifyChoosesFirstMaximum | src/classifier.py:67-83 | the result's category has the top score, loses no tie to a later category, and its shortlist is the first three recommendations |
| Classifier.LevelOfExtremes | src/classifier.py:208-213 | a sole-category hit reads "높음"; a text with no keyword is analytical with confidence 0, reading "낮음" |
| QuestionEngine.GenerateQuestion | src/question_engine.py:40-73 | unknown method → an error listing every catalog id; a step outside [0, steps) → an error naming the method and its step count; otherwise the question at that step, shown 1-based within [1, total], last iff it is the final step |
| QuestionEngine.OutOfRangeStepsAreErrors | src/question_engine.py:50-55 | step −1 and step `steps` are always errors |
| QuestionEngine.EveryQuestionReachable | src/question_engine.py:57-73 | every question of a method is returned at its own step |
| QuestionEngine.ContextIsIgnored | src/question_engine.py:61-87 | the optional context never changes the result |
| QuestionEngine.GetMethodInfo | src/question_engine.py:89-101 | none exactly for an unknown id; otherwise the id, name, category, steps and best-for copied from the catalog |
| QuestionEngine.KeptIds | src/question_engine.py:118-129 | every listed id is from the catalog and passes the category filter |
| QuestionEngine.KeptIdsComplete | src/question_engine.py:118-129 | every catalog id that passes the filter is listed |
| QuestionEngine.KeptIdsOrdered | src/question_engine.py:118-129 | the listed ids keep catalog order |
| QuestionEngine.ListFrom | src/question_engine.py:116-131 | every entry is the catalog's metadata of an id that passes the filter |
| QuestionEngine.ListFromComplete | src/question_engine.py:116-131 | every id that passes the filter has an entry |
| QuestionEngine.ListFromOrdered | src/question_engine.py:116-131 | the entries keep catalog order |
| QuestionEngine.ListFromAll | src/question_engine.py:116-131 | with no filter, every id has its entry, in order |
| QuestionEngine.ListMethodsContents | src/question_engine.py:103-131 | with a category: exactly that category's methods, in catalog order; without one (or an empty one): every method, in catalog order |
| QuestionEngine.ErrorFormat | src/question_engine.py:141-142 | an error payload becomes the error mark followed by the message, and nothing else |
| QuestionEngine.QuestionFormat | src/question_engine.py:144-156 | a question starts with its method header, never with the error mark, and ends with the last-question line when it is the last question, and with the question text otherwise |
| Session.ToDict | src/session.py:30-32 | the record holds exactly the twelve fields |
| Session.FromDict | src/session.py:34-37 | a record is accepted only when it has every required field and no unknown one |
| Session.FromToDict | src/session.py:30-37 | reading back a written record gives the same session |
| Session.ToFromDict | src/session.py:30-37 | writing an accepted record's session gives the record back, with `is_completed` filled in when it was missing |
| Session.FromDictFields | src/session.py:34-37 | each field of the session is the record's value under its name, and a missing `is_completed` means not completed |
| Session.CreateSession | src/session.py:48-81 | a new session at step 0 with no answers, not complete, created and updated at the same time, consistent, made current and stored under its id |
| Session.Answered | src/session.py:88-94 | one answer appended, one step on, consistency kept, completion set once the step reaches the total and never reset, nothing else changed |
| Session.AddAnswer | src/session.py:83-98 | with no current session, false and no change; otherwise the answered session becomes current and is stored |
| Session.CompletedStillAnswers | src/session.py:83-94 | a completed session still accepts an answer: it is appended, the step goes past the total, and the session stays complete |
| Session.LoadSession | src/session.py:104-119 | a missing id or an unreadable record gives none and no change; otherwise the stored record read back, made current |
| Session.LoadAfterSave | src/session.py:137-145 | loading what was saved gives back the same session and makes it current |
| Session.LoadAfterCreate | src/session.py:78-79 | a created session can be loaded back by its id |
| Session.NonBlankPositions | src/session.py:174-176 | exactly the positions of non-blank answers, in increasing order |
| Session.NamesAt | src/session.py:176-182 | the names at the given positions, or failure iff some position is past the name list |
| Session.NamesOfNonBlank | src/session.py:172-183 | naming the non-blank answers fails iff some non-blank answer lies past the name list |
| Session.RootCauseInsight | src/session.py:168-169 | five whys with at least five answers names the last answer as the root cause |
| Session.ScamperInsight | src/session.py:171-178 | SCAMPER lists the letters of the non-blank answers in order, and fails iff a non-blank answer lies past the seventh |
| Session.SixHatsInsight | src/session.py:180-183 | six hats lists the perspectives of the non-blank answers in order, and fails iff a non-blank answer lies past the sixth |
| Session.CountInsight | src/session.py:185-186 | any other method reports the number of answers |
| Session.GenerateSummary | src/session.py:153-164 | the summary exists iff the insight can be built, and carries the session's id, problem, method, category, total steps, answer count, completion flag and insight |
| Session.LateScamperAnswerFails | src/session.py:173-176 | a SCAMPER session whose only non-blank answer is the eighth has no insight: the position, not the count, runs past the seven letters |
| Session.EndSession | src/session.py:121-135 | no session → nothing; a failing insight leaves everything as it was; otherwise the summary of the state before ending, then the session stored as complete and no longer current |
| Session.EndWithInsight | src/session.py:121-135 | ending a session whose insight can be built gives a summary carrying that insight |
| Session.NextQuestionContext | src/session.py:188-198 | none iff there is no current session; otherwise its method, step, problem and answers |
| Session.AnswerAllTrace | src/session.py:88-94 | answering a list appends it in order, advances the step by its length, keeps consistency and identity, and completes once the step reaches the total |
| Session.AddAnswersCurrent | src/session.py:83-98 | answering through the manager answers the current session and stores the result under its id |
| Session.CreateThenAnswer | src/session.py:48-98 | a new session answered n times holds exactly those answers at step n, complete iff n > 0 and n reaches the total |
| Session.FiveWhysThreeOfFive | test_mcp.py:63-82 | three answers to a five-step five whys session end with 3 of 5 answered, not complete, and the count message |
| Session.FiveWhysRootCause | src/session.py:166-169 | a five whys session answered five or more times ends naming the last answer as the root cause |
| Session.RootCauseAfter | src/session.py:168-169 | after five or more answers to a fresh five whys session, the insight is the last answer |
| MetadataGenerator.CategoryKr | knowledge/_metadata_generator.py:967 | the Korean name of a known category, the raw category otherwise |
| MetadataGenerator.Derive | knowledge/_metadata_generator.py:954-959 | the derived table has the original keys plus the three detailed keys |
| MetadataGenerator.DetailedEntriesDifferOnlyInId | knowledge/_metadata_generator.py:954-959 | entries 45, 46 and 47 equal entries 05, 12 and 13 in every field but the id |
| MetadataGenerator.OnlyIdLineDiffers | knowledge/_metadata_generator.py:954-980 | so their blocks differ from their sources' only in the id line |
| MetadataGenerator.GenerateFrontmatter | knowledge/_metadata_generator.py:961-966 | none exactly for an unknown key, otherwise the rendered block of its entry |
| MetadataGenerator.Bullets | knowledge/_metadata_generator.py:982-998 | one `  - item` line per element, in order |
| MetadataGenerator.RenderFrame | knowledge/_metadata_generator.py:969-1007 | the block is `---`, the body lines joined by newlines, then `---` and an empty line |
| MetadataGenerator.RenderDelimited | knowledge/_metadata_generator.py:969-1007 | the block starts with `---\n` and ends with `---\n` |
| MetadataGenerator.FrontmatterFrame | knowledge/_metadata_generator.py:969-1005 | the block's line count, its delimiter lines, and the `category_kr` line holding the Korean name |
| MetadataGenerator.ListsLayout | knowledge/_metadata_generator.py:979-998 | each list's bullet lines sit under its heading, in the order related, complementary, keywords, use cases |
| MetadataGenerator.FrontmatterSlice | knowledge/_metadata_generator.py:969-998 | the list lines sit at offset 10 of the block |
| MetadataGenerator.OriginSlice | knowledge/_metadata_generator.py:1000-1005 | the origin lines follow the list lines |
| MetadataGenerator.OriginLineIffOrigin | knowledge/_metadata_generator.py:1000-1002 | the block has an `origin:` line iff the entry has a non-empty origin |
| MetadataGenerator.BodyClean | knowledge/_metadata_generator.py:969-1007 | when no field holds `---`, neither does the block's body |
| MetadataGenerator.FindsClosingDelimiter | knowledge/_metadata_generator.py:1022-1025 | the search from index 3 finds the block's own closing delimiter |
| MetadataGenerator.StripFrontmatter | knowledge/_metadata_generator.py:1022-1026 | content that does not start with `---` is kept as it is |
| MetadataGenerator.StrippedStart | knowledge/_metadata_generator.py:1022-1026 | what is left either is the content unchanged (including when there is no closing delimiter) or starts with no whitespace |
| MetadataGenerator.StripRendered | knowledge/_metadata_generator.py:1022-1026 | stripping a generated block leaves the rest of the file, left-stripped |
| MetadataGenerator.ReplaceFrontmatter | knowledge/_metadata_generator.py:1028-1032 | the new file starts with the new block |
| MetadataGenerator.ProcessContent | knowledge/_metadata_generator.py:1012-1032 | a file without metadata is skipped; otherwise the new file starts with its generated block |
| MetadataGenerator.SecondRun | knowledge/_metadata_generator.py:1022-1032 | the second run sees the block plus the first run's remainder, and left-strips that remainder |
| MetadataGenerator.ReplaceTwice | knowledge/_metadata_generator.py:1022-1032 | a second run leaves the file unchanged iff the original content was empty or did not start with whitespace |
| MetadataGenerator.ReplaceSettles | knowledge/_metadata_generator.py:1022-1032 | a third run never changes what the second produced |
| UploadKnowledge.Slug | supabase/upload_knowledge.py:87 | same length as the file name, no spaces, no upper case; each space becomes `-` and every other character is lowered |
| UploadKnowledge.SlugIdempotent | supabase/upload_knowledge.py:87 | deriving the id twice changes nothing |
| UploadKnowledge.AfterLast | supabase/upload_knowledge.py:100 | the segment after the last separator: a suffix free of the separator, preceded by it unless it is the whole text |
| UploadKnowledge.TitleKr | supabase/upload_knowledge.py:100 | none iff the title has no `(`; otherwise the text right after the last `(`, followed in the title only by `)` characters, itself free of `(` and not ending in `)` |
| UploadKnowledge.TitleKrOfParenthesised | supabase/upload_knowledge.py:100 | "English (Korean)" gives "Korean" |
| UploadKnowledge.LeanCanvasTitleKr | supabase/upload_knowledge.py:100 | "Lean Canvas (린 캔버스)" gives "린 캔버스" |
| UploadKnowledge.NonEmpty | supabase/upload_knowledge.py:95 | exactly the non-empty parts, none added |
| UploadKnowledge.NonEmptyPositions | supabase/upload_knowledge.py:95 | the positions of the non-empty parts, increasing, all of them |
| UploadKnowledge.NonEmptyAt | supabase/upload_knowledge.py:95 | the filter keeps order and repeats: its k-th element is the part at the k-th non-empty position |
| UploadKnowledge.PrepareDocument | supabase/upload_knowledge.py:82-113 | the id from the front matter or else from the file name; each present field is copied and each missing one takes its default; the Korean title comes from the title; the body is kept whole; the search text is the non-empty ones of title, joined keywords and the first 4000 body characters, one per line |
| UploadKnowledge.SearchTextOfFullDocument | supabase/upload_knowledge.py:90-95 | with a title, keywords and a body, the search text is the three on three lines, the body cut at 4000 characters |
| UploadKnowledge.SearchTextEmpty | supabase/upload_knowledge.py:90-95 | the search text is empty iff title, keywords and body are all empty |
| UploadKnowledge.DefaultsOfBareFile | supabase/upload_knowledge.py:84-113 | a file with no front matter gets every default, its id from the file name, and its first 4000 characters as search text |
| Strings.Find | knowledge/_metadata_generator.py:1024 | `find` gives the least occurrence at or after the start, or −1 iff there is none |
| Strings.Count | src/classifier.py:139 | `count` is positive iff the pattern occurs |
| Strings.ReplaceAllUnchanged | src/trigger.py:66 | removing a pattern changes the text iff the pattern occurs |
| Strings.Lower | src/trigger.py:60 | lower-casing maps each character by the case mapping and keeps the length |

## Left out

- File I/O. `_save_session`, `load_session` and `process_file` read and write files; here storage is a map and file contents are strings. Swallowed write errors and prints are not modelled. JSON encoding and decoding is an identity round trip.
- `datetime.now()` and the SHA-256 session id (src/session.py:61, 147-151) are parameters, because they are a clock and a hash.
- The iteration order of the Python `set` in `_get_recommended_methods` is the `order` parameter, because Python does not define it.
- The catalog contents (`src/methods/templates.py`) are not part of this model. The catalog is any well-formed value.
- Classifier.Classify: the reasoning text is stated through `Reasoning`, and the thresholds of the confidence label are not restated; `LevelOfExtremes` states only the two extreme cases.
- The bulk `METADATA` literal. Only the three entries behind 45/46/47 (05, 12, 13) are written out, because the other entries are data with nothing to prove.
- Help text, emoji and the formatting in `get_help_message`, `format_recommendations` and `format_session_summary`, because they are fixed display text.
- `src/rag_supabase.py`, `supabase/search_client.py`, and `parse_markdown_file`, `generate_embedding`, `upload_document` and `main` in `supabase/upload_knowledge.py`. These are network clients and YAML, OpenAI and Supabase libraries.
- `scripts/setup_knowledge.py`, `run_server.py` and the server module, because they are download and launcher code. `test_mcp.py` is not modelled as a program. Its detection messages (test_mcp.py:25-30) appear as detector scenarios on a detector that was never activated, and its five whys run appears as a session scenario.
- UploadKnowledge.PrepareDocument: the four list fields are sequences rather than JSON text. An absent front-matter field is `None`.
- Session.FromDict: a value of the wrong type is refused. Python's `cls(**data)` would accept it into the dataclass, but a record of that shape cannot be represented here.
- MetadataGenerator.GenerateFrontmatter: an entry's missing `origin` is the empty string, which `m.get("origin")` treats the same way.
- Session.EndSession: the `IndexError` that `_extract_insights` raises when a non-blank answer sits at position 7 or later (6 for six hats) is the `InsightError` outcome, with the manager unchanged. The name list is indexed by the answer's position, not by how many answers are non-blank.
- Lower-casing is ASCII-only, and so is the upper-casing of the category in a question's header (`category.upper()`, src/question_engine.py:150). `\w` is approximated by ASCII letters, digits, `_` and Hangul, and `\d` by the ASCII digits `0`-`9`, while Python's `\d` also matches other Unicode decimal digits. Full Unicode case mapping and character classes are out of scope.
