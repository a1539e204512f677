# fonti4.0 alignment and metrics engine, in Dafny

fonti4.0 scores speech-to-text transcriptions against TEI-annotated reference transcriptions.
Both sides become canonical transcriptions: utterances of canonical tokens, each token with a word, a
type, its times and the annotation events it lies inside. The evaluator normalises them. Then, for every
utterance, a weighted Levenshtein aligner fills an operation matrix between the lexical reference words
and the hypothesis words. The weights are correct 0, insertion 1, deletion 1 and substitution 2, and
ties go to insertion, then deletion, then substitution. A backtrace walks the matrix from its far
corner back to the origin. It counts the operations in three parallel views: overall, without tags, and
per event type plus `all`. It also emits one CSV row per step. Recurring (reference word, hypothesis
word) pairs are counted and ranked. WER, MER, WIP and WIL are computed from raw counts. Utterance
metrics are rolled up into file metrics and file metrics into corpus metrics by summing raw counts,
globally, per language, per language and note, and per note. Around the engine sit the tokenizer, the
TEI helpers, the converters to the TRN, CTM, STM and TXT formats of external scoring tools, and the
cursors that walk cloud recognition responses.

The model is one Dafny module per concern:

- `Wrappers`: Option and Result.
- `Canonical`: tokens, events and utterances; the placeholder filter.
- `Text`: join, split and whitespace splitting.
- `Operations`: Levenshtein operations and the operation group class.
- `Ranking`: the stable descending sort and insertion-ordered dictionaries.
- `Formulas`: the rates.
- `Aligner`: the operation matrix.
- `Backtracer`: the walk and its accumulators.
- `Grouping`: the grouping and merging of metric dictionaries.
- `Aggregator`: utterance, file and corpus metrics.
- `Rollup`: the roll-up invariant. Every rolled-up entry adds up exactly the utterances it covers, event tags included.
- `Evaluator`, `Tokenizer`, `Tei`, `Converters`, `Translators`.

The code works by changing state in the following places, and there the model does too:

- The matrix is filled in place in an `array2`.
- The backtrace loops over its indices and accumulators.
- An operation group is a class whose `Add` appends.
- The evaluator empties and refills each utterance's token list object.
- The cursors are classes whose `MoveForward` updates their indices.

Each such method is proved equal to a specification function. The properties are proved about those
functions.

Three facts about the code as written are captured and proved.

1. Since a substitution costs exactly an insertion plus a deletion, no cell is ever labelled
   Substitution. Every cell's cost is `i + j - 2 * LCS`. So every backtrace counts zero substitutions.
2. The backtrace bumps `ref_len` and `hyp_len` together on every step that is not an insertion.
   So both equal `cor + sub + del`, which is the number of lexical reference words. `hyp_len` is
   therefore not the number of hypothesis words; those are `cor + sub + ins`.
3. The evaluator's four unfinished normalisations (stop words, elisions, diacritics, apocopes) take
   an alias of the utterance's word list, clear the list, then extend it with the alias. So switching
   any of them off leaves every utterance without words.

The aligner pairs `original_reference_words[i - 1]` with the i-th lexical word, although the lexical
words are the original ones with the Type B placeholders removed. So the events of a placeholder are
attached to whichever lexical word happens to share its index, or are lost. The model keeps this
indexing. Two lemmas exhibit its effect on concrete inputs.

## Model

| member | source | states |
|---|---|---|
| Operations.TypeNameInjective | modules/metrics.py:20-26 | the four operation types have distinct names, so a group's name identifies its type |
| Operations.UnescapeSingle | modules/metrics.py:57-58 | escaping a text for a single-quoted `repr` is undone by unescaping |
| Operations.UnescapeBackslash | modules/metrics.py:57-58 | escaping a text for a double-quoted `repr` is undone by unescaping |
| Operations.PyRepr | modules/metrics.py:57-58 | the `repr` of an operation's `ref ==> hyp` text is enclosed in a matching pair of quotes, and unescaping what is inside gives the text back |
| Operations.TallyCounts | modules/metrics.py:107-112 | the reversed-scan count has one entry per (reference word, hypothesis word) pair; a pair is present exactly when some operation has it, and its count is the number of operations with that pair |
| Operations.CollectSpec | modules/metrics.py:107-113 | `collect_operations`: entries are sorted by decreasing count and have distinct pairs; each entry is an operation of the group, with a count above 0 that equals its pair's occurrences; every operation's pair is covered; the counts add up to the group's size; entries of equal count keep the reversed-scan order |
| Operations.RenderFaithful | modules/metrics.py:121-126 | each rendered entry is the `repr` of the collected operation with its count, in collected order |
| Operations.GroupsToDictEntries | modules/metrics.py:115-127 | `operations_groups_to_dict`: one entry per group, in group order, keyed by the type name (all distinct), with that group's collected and rendered operations |
| Operations.OperationGroup.constructor | modules/metrics.py:88-90 | a new group has the given type and no operation |
| Operations.OperationGroup.Add | modules/metrics.py:98-105 | an operation of the group's type is appended; any other is refused with the type mismatch (the ValueError) and the list is left unchanged; the group stays of one type |
| Operations.OperationGroup.CollectOperations | modules/metrics.py:107-113 | returns the collected operations of the group: sorted by decreasing count, counts adding up to the number of operations, each count being its pair's occurrences |
| Operations.OperationsGroupsToDict | modules/metrics.py:115-127 | the loop builds exactly the dictionary specified by `GroupsToDict`, whose entries `GroupsToDictEntries` states |
| Operations.RenderCollected | modules/metrics.py:122-126 | the inner loop builds exactly the rendering that `RenderFaithful` states |
| Ranking.SortDescPermutes | modules/metrics.py:113 | the descending sort is a permutation of its input |
| Ranking.SortDescSorted | modules/metrics.py:113 | the descending sort's output is ordered by non-increasing count |
| Ranking.SortDescStable | modules/metrics.py:113 | the sort is stable: for every count, the entries with that count keep their input order |
| Ranking.SortDescSum | modules/metrics.py:249-250 | sorting keeps the total of the counts |
| Ranking.Assign | modules/metrics.py:233-235 | `d[k] = v` on an insertion-ordered dict: an existing key keeps its position and takes the new value, and every other entry is unchanged; a new key is added last |
| Ranking.AddTo | modules/metrics.py:246-247 | `d[k] += v` on a defaultdict: an existing key keeps its position and its count grows by v, and every other entry is unchanged; a new key is added last with count v |
| Ranking.AssignEachEntries | modules/metrics.py:307-309 | assigning one entry per distinct key gives exactly those entries, in order |
| Formulas.Wer | modules/metrics.py:271-277 | WER is non-negative; times the reference length it gives the errors; with no reference words it is the error count itself |
| Formulas.Mer | modules/metrics.py:279-285 | MER lies in [0, 1]; times the aligned count it gives the errors; it is 0 when nothing is aligned |
| Formulas.Wip | modules/metrics.py:287-294 | WIP is 1 when either length is 0; otherwise WIP · hyp_len · ref_len = cor²; it is non-negative, and at most 1 when cor is at most both lengths |
| Formulas.Wil | modules/metrics.py:296-301 | WIL + WIP = 1; WIL is 0 when either length is 0; it lies in [0, 1] when cor is at most both lengths |
| Formulas.ComputeWordsMetrics | modules/metrics.py:253-269 | the record keeps the six raw counts, with errors = sub + del + ins and aligned = errors + cor |
| Formulas.RatesBounded | modules/metrics.py:253-269 | in a record whose correct count fits in both lengths, every rate is non-negative and MER, WIP and WIL are at most 1 |
| Formulas.WerZeroIffNoErrors | modules/metrics.py:271-277 | WER is 0 exactly when there is no substitution, deletion or insertion |
| Formulas.MerAtMostWer | modules/metrics.py:271-285 | when the reference length is cor + sub + del, MER never exceeds WER |
| Formulas.WipOneIffAllCorrect | modules/metrics.py:287-294 | with both lengths cor + sub + del, as the backtrace counts them, WIP is 1 exactly when there is no substitution or deletion or nothing was counted |
| Aligner.ReferenceWord | modules/metrics.py:656-666 | `_get_reference_word`: the word is absent ("") for an insertion and the filtered word otherwise; the events are the original token's events followed by the filtered token's when the original is a Type B placeholder, the filtered token's alone otherwise, in that order; the token is a pronunciation token with zero times |
| Aligner.Cell | modules/metrics.py:586-634 | the operation the compiled matrix holds at (i, j); its cost is the recurrence's cost |
| Aligner.CompileOperationMatrix | modules/metrics.py:580-636 | the new matrix has (filtered + 1) × (hypothesis + 1) cells, every one equal to its `Cell`; (0, 0) is Correct at cost 0; (i, 0) is a Deletion at cost i; (0, j) is an Insertion at cost j whose reference is the first original token, or a word-less token when there is none |
| Aligner.FillRow | modules/metrics.py:609-634 | one pass of the inner loop makes row i equal to `Cell` and changes no other row |
| Aligner.InteriorOperation | modules/metrics.py:611-633 | the interior cell built from the three neighbouring costs is the specified `Cell`, with the insertion, deletion, substitution tie-break |
| Aligner.CostLipschitz | modules/metrics.py:609-634 | neighbouring cells' costs differ by at most 1 |
| Aligner.NoSubstitution | modules/metrics.py:617-631 | no cell of the matrix is labelled Substitution |
| Aligner.InteriorCell | modules/metrics.py:611-633 | an interior cell is Correct exactly when the words are equal, and then costs the diagonal; otherwise it is an Insertion or a Deletion costing one more than the cheaper neighbour |
| Aligner.CostIsLcs | modules/metrics.py:580-636 | the cost of cell (i, j) is i + j − 2 · LCS of the first i reference and first j hypothesis words |
| Aligner.CostBounds | modules/metrics.py:580-636 | a cell's cost lies between \|i − j\| and i + j |
| Aligner.NoPlaceholderNoMerge | modules/metrics.py:445-446 | without placeholders the filtered reference is the original one, and every cell's reference events are those of its own original token |
| Aligner.LexicalKeepsAll | modules/metrics.py:445-446 | filtering a list without Type B tokens keeps all of it |
| Aligner.TrailingPlaceholderLost | modules/metrics.py:593-599 | concrete case: with reference `yes` followed by a placeholder, the placeholder's events never reach any operation |
| Aligner.MiddlePlaceholderShifts | modules/metrics.py:631-633 | concrete case: with `a`, a placeholder, `b`, every deletion or insertion cell of row 2 (the word `b`) takes the placeholder's events as its reference events |
| Aligner.CellEvents | modules/metrics.py:594-633 | a Deletion, Insertion or first-column cell takes its reference events from `ReferenceWord` of the same-index original token |
| Backtracer.Code | modules/metrics.py:652-653 | the CSV operation code has three characters |
| Backtracer.CodesDistinct | modules/metrics.py:652-653 | two operation types have the same code exactly when they are equal |
| Backtracer.EventEntries | modules/metrics.py:669-681 | one entry per event, in order, each being `type[key=value;…]` |
| Backtracer.EventsEntrySplits | modules/metrics.py:669-681 | when no event has more than one property, splitting the joined entry on `;` gives the events' entries back |
| Backtracer.SimpleEventEntry | modules/metrics.py:669-681 | the entry of an event with at most one property holds no `;` |
| Backtracer.WordEventsCsvEntry | modules/metrics.py:668-681 | the loop builds exactly the joined events entry |
| Backtracer.Move | modules/metrics.py:523-537 | the step moves (i, j) as the operation type says, and i + j decreases |
| Backtracer.RecordOperation | modules/metrics.py:542-567 | one step of bookkeeping updates the three views exactly as the specification step does |
| Backtracer.WalkStep | modules/metrics.py:521-569 | one loop iteration keeps the walk invariant (views and CSV rows are those of the operations met so far) and strictly decreases i + j |
| Backtracer.BacktraceOperationMatrix | modules/metrics.py:496-578 | `_backtrace_operation_matrix` terminates on any well-formed matrix; the views are the accumulation of the path from the far corner, and the CSV rows are that path's rows in reverse order |
| Backtracer.ReversedRows | modules/metrics.py:569-578 | the returned CSV rows are one per step, in forward order: row k is the row of the path's k-th operation from its end |
| Backtracer.LookupRecordEvents | modules/metrics.py:561-567 | each event type's view is bumped once per event of that type in the operation's list, others untouched |
| Backtracer.AccumulateScopes | modules/metrics.py:542-567 | each view of the accumulation equals the operations weighted by that view alone |
| Backtracer.TotalsPartition | modules/metrics.py:542-567 | overall totals = without-tags totals + `all` totals, field by field |
| Backtracer.LengthsBalanced | modules/metrics.py:542-565 | in every view ref_len = hyp_len = cor + sub + del |
| Backtracer.GroupsPartition | modules/metrics.py:542-567 | each view's operation group of a type holds as many operations as its counter for that type, and the overall group's size is without-tags plus `all` |
| Backtracer.BacktraceLengths | modules/metrics.py:519-546 | on a well-formed matrix the walk gives cor + sub + del = rows − 1 and cor + sub + ins = columns − 1 overall |
| Backtracer.CompiledWellFormed | modules/metrics.py:593-607 | the compiled matrix is well formed: every step of the walk stays inside it |
| Backtracer.CompiledNoSubstitution | modules/metrics.py:617-631 | walking a compiled matrix counts no substitution in any view |
| Backtracer.ClosedForm | modules/metrics.py:542-567 | each view's totals are the per-operation contributions added up |
| Backtracer.TwoEventsDeleted | modules/metrics.py:555-567 | concrete case: a deleted word inside two events counts once in `all` and once in each event type, and not in the without-tags view |
| Canonical.EventTypeName | modules/tei.py:15-28 | every event type name is a non-empty upper-case word |
| Canonical.Filter | modules/metrics.py:445-446 | the filtered list keeps exactly the tokens that satisfy the condition |
| Canonical.FilterSubsequence | modules/metrics.py:445-446 | the filtered list is a subsequence of the original, so order is kept |
| Text.SplitJoin | modules/converters.py:28-32 | splitting a join on its separator gives back the parts when no part holds the separator |
| Text.WordsJoin | modules/tei.py:257-261 | whitespace-splitting a single-space join of non-empty words without whitespace gives the words back |
| Grouping.GroupByPartition | modules/metrics.py:312-320 | `_group_metrics_by_field`: keys are unique; a key is present exactly when some input has that field value; its list is the inputs with that value, in input order |
| Grouping.GroupByIdLists | modules/metrics.py:322-332 | `_group_metrics_by_id`: keys are unique; a key is present exactly when some input dict has it; its list gathers those values in input order |
| Grouping.MergeCounts | modules/metrics.py:238-251 | merged counts have unique keys, present exactly when some input has them; each key's count is the sum of its counts over the inputs, and the total is the total of the inputs |
| Grouping.GroupMetricsByField | modules/metrics.py:312-320 | the loop builds exactly the grouping `GroupByPartition` states |
| Grouping.GroupMetricsById | modules/metrics.py:322-332 | the loop builds exactly the grouping `GroupByIdLists` states |
| Aggregator.FromRaw | modules/metrics.py:173-187 | a view's totals keep the backtrace's raw counts, with errors and aligned derived from them |
| Aggregator.ComputeTotalsMetrics | modules/metrics.py:210-224 | the raw counts of the totals are the sums of the inputs' raw counts |
| Aggregator.SingleInputTotals | modules/metrics.py:210-224 | totals computed from a single input reproduce that input's totals |
| Aggregator.OperationsGroupsSpec | modules/metrics.py:238-251 | `compute_operations_groups`: one entry per operation type present in some input; each type's counts are sorted descending, keep arrival order among equal counts, have one entry per operation text, and give each text its summed count |
| Aggregator.RankedSpec | modules/metrics.py:243-250 | one type's merged and sorted counts: sorted, stable, unique keys, summed per key, total preserved |
| Aggregator.Lower | modules/metrics.py:233 | `str.lower` on ASCII, character by character |
| Aggregator.LowerIdempotent | modules/metrics.py:233 | lowering an event-tag key twice is lowering it once |
| Aggregator.FileLanguageTotals | modules/metrics.py:153-171 | a file's language entry exists exactly when some utterance has that language, and its totals add up exactly the utterances of that language |
| Aggregator.FileGlobal | modules/metrics.py:153-158 | a file's global metrics are those of its utterances, and its overall and without-tags raw totals are the sums over them |
| Aggregator.RollupTotals | modules/metrics.py:133-171 | summing the files' totals gives the totals of all their utterances together |
| Aggregator.CorpusTotals | modules/metrics.py:133-151 | the corpus overall and without-tags totals add up every utterance of every file |
| Aggregator.ScopeFromBacktrace | modules/metrics.py:173-187 | `compute_utterance_metrics`: the totals keep the accumulator's raw counts, and there is one operation group per operation type, named by the type |
| Aggregator.CompiledTrace | modules/metrics.py:453-457 | walking the compiled matrix meets exactly the operations of the alignment path |
| Aggregator.GetUtteranceMetrics | modules/metrics.py:439-475 | `_get_utterance_metrics` equals its specification; no substitution is counted; ref_len = hyp_len = cor + del = the number of lexical reference words; cor + ins is the number of hypothesis words |
| Aggregator.AlignAndWalk | modules/metrics.py:453-458 | compiling then walking gives the accumulation and reversed rows of the alignment path, with the same counts as above |
| Aggregator.ComputeEventScopes | modules/metrics.py:468-473 | the event-tags loop builds one view per accumulator, in order |
| Aggregator.ComputeOperationsGroups | modules/metrics.py:238-251 | the loop builds exactly the merged groups `OperationsGroupsSpec` states |
| Aggregator.MergeDicts | modules/metrics.py:244-247 | the merging loops add up exactly the counts `MergeCounts` states |
| Aggregator.ComputeEventTagsMetrics | modules/metrics.py:226-236 | the loop builds exactly the event-tags views, keyed by the lowered event name |
| Aggregator.ComputeGlobalMetricsForGroup | modules/metrics.py:303-310 | the loop gives each group key its global metrics, in key order |
| Aggregator.AddFileNotes | modules/metrics.py:162-167 | each language entry gets the notes of its own utterances |
| Aggregator.ComputeFileMetrics | modules/metrics.py:153-171 | `compute_file_metrics` equals the specified file rollup |
| Aggregator.AddCorpusNotes | modules/metrics.py:141-146 | each corpus language entry gets the merged notes of its files |
| Aggregator.ComputeCorpusMetrics | modules/metrics.py:133-151 | `compute_corpus_metrics` equals the specified corpus rollup |
| Rollup.UtteranceTagNames | modules/metrics.py:468-473 | an utterance keys its event tags by "all" or by the upper-case name of an event type |
| Rollup.TagNamedInjective | modules/metrics.py:233 | two different utterance tag keys never lower to the same key, so lowering merges nothing at file level |
| Rollup.GlobalOfRepresents | modules/metrics.py:190-236 | `compute_global_metrics` over views whose tag keys stay distinct when lowered: the overall and without-tags totals add up the inputs, and there is exactly one event-tag entry per lowered key, adding up every input entry whose key lowers to it |
| Rollup.EquivalentRepresents | modules/metrics.py:190-236 | merging already rolled-up views that add up like some utterances adds up like those utterances |
| Rollup.FileRepresents | modules/metrics.py:159 | a file's global views, event tags included, add up those of all its utterances |
| Rollup.FileLanguageRepresents | modules/metrics.py:161-162 | a file's entry for a language exists exactly when some utterance has it, and its views add up those utterances |
| Rollup.FileNoteRepresents | modules/metrics.py:169-170 | a file's entry for a note exists exactly when some utterance has it, and its views add up those utterances |
| Rollup.FileLanguageNoteRepresents | modules/metrics.py:163-167 | within a file's language entry, the entry for a note exists exactly when some utterance has both, and adds up those utterances |
| Rollup.CorpusRepresents | modules/metrics.py:139 | the corpus global views, event tags included, add up every utterance of every file |
| Rollup.CorpusLanguageRepresents | modules/metrics.py:141-142 | the corpus entry for a language exists exactly when some utterance of some file has it, and adds up all such utterances |
| Rollup.CorpusNoteRepresents | modules/metrics.py:149-150 | the corpus entry for a note exists exactly when some utterance of some file has it, and adds up all such utterances |
| Rollup.CorpusLanguageNoteRepresents | modules/metrics.py:143-147 | within the corpus entry for a language, the entry for a note exists exactly when some utterance has both, and adds up all such utterances |
| Evaluator.TokenList.constructor | modules/evaluator.py:27-67 | a repeated field holding the given tokens |
| Evaluator.TokenList.Clear | modules/evaluator.py:36 | `del words[:]` leaves the list empty |
| Evaluator.TokenList.Extend | modules/evaluator.py:37 | `extend` appends what the other list held before the call, even when it is the same list |
| Evaluator.EvaluatedSpec | modules/evaluator.py:27-67 | the evaluated words are a subsequence of the words; with punctuation off none is punctuation; with every option on nothing changes; with any of the four unfinished options off nothing is left |
| Evaluator.ExternalEvaluatedSpec | modules/evaluator.py:78-89 | the external-tool evaluation keeps no placeholder, keeps order, and with every option on is exactly the lexical words |
| Evaluator.RemovePunctuation | modules/evaluator.py:32-37 | every utterance's list becomes its non-punctuation tokens, in order |
| Evaluator.ReextendAliased | modules/evaluator.py:39-44 | clearing a list and extending it with an alias of itself leaves every utterance's list empty |
| Evaluator.RemovePlaceholders | modules/evaluator.py:83-87 | every utterance's list becomes its lexical tokens, in order |
| Evaluator.DefaultMetricsEvaluator.constructor | modules/evaluator.py:23-25 | keeps the configuration |
| Evaluator.DefaultMetricsEvaluator.Evaluate | modules/evaluator.py:27-67 | returns the very object it was given, with the same utterances; each utterance's words become their evaluation; the other fields are unchanged |
| Evaluator.ExternalToolMetricsEvaluator.constructor | modules/evaluator.py:23-25 | keeps the configuration of the inherited evaluation |
| Evaluator.ExternalToolMetricsEvaluator.Evaluate | modules/evaluator.py:78-89 | returns the same object; each utterance's words become the evaluation of their lexical tokens; the other fields are unchanged |
| Tokenizer.CleanAsWritten | modules/tokenizer.py:58 | the cleaning as written keeps only characters that the pattern does not match, and the pattern does not match a backslash |
| Tokenizer.BackslashSurvivesAsWritten | modules/tokenizer.py:42 | the backslash is a special character, yet a lone backslash survives the cleaning as written, while the intended cleaning removes it |
| Tokenizer.Clean | modules/tokenizer.py:58 | the cleaning removes exactly the special characters and keeps every other character |
| Tokenizer.CleanAgreesWithoutBackslash | modules/tokenizer.py:58 | on a word without a backslash both cleanings agree |
| Tokenizer.Respell | modules/tokenizer.py:93-101 | each new word becomes a token with that word and the original token's type and times |
| Tokenizer.ApostropheWord | modules/tokenizer.py:106-110 | a word `a'b` with word characters on both sides splits into exactly `a'` and `b` |
| Tokenizer.PronunciationTokensSlot | modules/tokenizer.py:77-139 | every token of the pronunciation pipeline keeps the type and times of the token it came from |
| Tokenizer.LowercaseStage | modules/tokenizer.py:82-89 | the lowercase loop gives one lowered token per token |
| Tokenizer.NumbersStage | modules/tokenizer.py:91-102 | the numbers loop replaces each all-digit token by the words of its number and keeps the others |
| Tokenizer.ApostropheStage | modules/tokenizer.py:104-116 | the apostrophe loop replaces each matching token by its two groups and keeps the others |
| Tokenizer.KeepStage | modules/tokenizer.py:118-137 | the three unfinished stages give back the tokens unchanged |
| Tokenizer.TokenizePronunciationWord | modules/tokenizer.py:77-139 | the staged loops compute the specified pipeline, and every token keeps the word's type and times |
| Tokenizer.Separate | modules/tokenizer.py:60-70 | after cleaning: an empty cleaned word raises at `cleaned_word[-1]`, any other gives tokens |
| Tokenizer.Tokenize | modules/tokenizer.py:50-70 | `tokenize` with the intended cleaning yields tokens exactly when the word is non-empty and its cleaned form is non-empty |
| Tokenizer.TokenizeAsWritten | modules/tokenizer.py:50-70 | `tokenize` as written yields tokens exactly when the word is non-empty and its cleaning as written is non-empty |
| Tokenizer.TokenizeAsWrittenOutcomes | modules/tokenizer.py:42-70 | both tokenizations agree on every word without a backslash; a lone backslash is a pronunciation token as written and an IndexError as intended; `a\` keeps its backslash as written and loses it as intended |
| Tokenizer.TokenizeSpec | modules/tokenizer.py:50-70 | an empty word gives None; an empty cleaned word fails at `cleaned_word[-1]`; a piece of the allowed punctuation gives one punctuation token; a word ending in allowed punctuation gives pronunciation tokens then exactly one punctuation token, that character; any other word gives pronunciation tokens only; all carry the word's times and no events |
| Tokenizer.PronunciationEvents | modules/tokenizer.py:77-139 | a token without events yields tokens without events |
| Tokenizer.TeiTokenizeSpec | modules/tokenizer.py:143-153 | the three markers, and only they, become a single word-less Type B token; any other word goes to the default tokenizer, which never yields a placeholder |
| Tokenizer.TokenizeTypes | modules/tokenizer.py:50-70 | the default tokenizer yields only pronunciation and punctuation tokens |
| Tei.RemovePrefix | modules/tei.py:612-622 | the result is a suffix of the tag |
| Tei.RemovePrefixSpec | modules/tei.py:612-622 | the TEI prefix is stripped, else the XML prefix; a tag without either is kept; only one prefix is removed |
| Tei.StrippedWords | modules/tei.py:257-261 | None or empty text gives no word; every word is non-empty and holds no whitespace |
| Tei.StrippedWordsJoin | modules/tei.py:257-261 | the words of a single-space join of such words are those words |
| Tei.FlattenSpec | modules/tei.py:588-601 | the flattened words are the event words, then each sub-event's words, then the non-event words; the event words carry exactly the event list given, the non-event words none, and each sub-event word none or the given list extended by at least one event |
| Tei.SubEventsSpec | modules/tei.py:595-597 | the sub-events' words are theirs in order; each one's words carry the parent list extended by its own event |
| Tei.TopLevelEvents | modules/tei.py:588-601 | every word of a parsed event that carries events has that event first |
| Tei.Get | modules/tei.py:359 | an attribute lookup finds a value exactly when the element has the key |
| Tei.Upper | modules/tei.py:236-239 | `str.upper` on ASCII, character by character |
| Tei.EventTypeNamesTag | modules/tei.py:236-239 | for every tag read from the tag, the event type's name is the upper-cased tag |
| Tei.EventAttributes | modules/tei.py:230-234 | one property per attribute, with its key's prefix removed |
| Tei.ParseChildren | modules/tei.py:241-245 | the sub-events are parsed one per child, in order |
| Tei.ParseEventParts | modules/tei.py:220-228 | an event parses exactly when its properties, words and children do; the first failure is raised; a parsed event holds the computed type, properties and words |
| Tei.TypeBRule | modules/tei.py:310-341 | vocal, incident and gap events have exactly their marker `[<tag>_event]` as event words and their tail after; vocal and incident without a child fail |
| Tei.MarkerTokenizes | modules/tokenizer.py:143-153 | the marker of a Type B event tokenizes to a single word-less placeholder, which filtering removes |
| Tei.DefaultRule | modules/tei.py:432-453 | an unmapped tag gives an unknown event with no event words and its tail after |
| Tei.ShiftRule | modules/tei.py:343-366 | a shift to `normal` (or naming no voice) has no event words and its tail after; any other shift takes its tail as event words |
| Tei.AnchorRule | modules/tei.py:368-418 | no synch is an error; `ovrl\d+` takes the tail as event words; `ovrl\d+e` leaves it after with no properties; any other synch is a ParserError |
| Converters.WaveformName | modules/converters.py:107-108 | same length, no space, every other character kept |
| Converters.UtteranceTextSplits | modules/converters.py:28-32 | an utterance without words has the empty text; otherwise splitting its text on spaces gives its words back |
| Converters.ConvertedLinesSpec | modules/converters.py:17-26 | TRN, STM and TXT write one line per utterance and CTM one per word; in TRN the k-th line is the k-th text followed by its id in brackets, in TXT it is the text |
| Converters.Saved | modules/converters.py:42-47 | one written line per line, each followed by a newline |
| Converters.SavedSplits | modules/converters.py:42-47 | the written file splits at its newlines into the lines and an empty remainder |
| Converters.CtmLines | modules/converters.py:104-116 | the CTM loop writes one line per word, in word order |
| Converters.ConvertCanonicalUtterance | modules/converters.py:80-172 | each format's lines of one utterance message |
| Converters.ConvertUtterances | modules/converters.py:22-24 | the lines of all utterances, utterance after utterance |
| Converters.Convert | modules/converters.py:17-26 | the transcription is evaluated in place by the external-tool evaluator, then the lines of its utterances are written, each with a newline |
| Translators.WordAt | modules/translators.py:411-418 | the current word is found exactly when the indices are in bounds; otherwise IndexError |
| Translators.WordAtFlat | modules/translators.py:411-418 | a word in bounds is the word of that rank in reading order |
| Translators.AdvanceSpec | modules/translators.py:395-409 | on a response whose results all have words, a move from a word never fails, returns False exactly at the last word, and otherwise reaches the word of the next rank |
| Translators.WalkVisitsEveryWord | modules/translators.py:395-418 | a fresh cursor visits every word once, in reading order, then returns False |
| Translators.GoogleCursor.constructor | modules/translators.py:371-373 | keeps the response and indices |
| Translators.GoogleCursor.CurrentWord | modules/translators.py:411-418 | the word of the cursor's rank in reading order, or IndexError out of bounds |
| Translators.GoogleCursor.MoveForward | modules/translators.py:395-409 | the next word of the result, else the first word of the next result, else False with nothing changed; in bounds it stays in bounds and returns False exactly at the last word |
| Translators.AwsCursor.constructor | modules/translators.py:438-439 | keeps the items and index |
| Translators.AwsCursor.CurrentWord | modules/translators.py:495-498 | the item at the index, or IndexError past the end |
| Translators.AwsCursor.IsCurrentWordPunctuation | modules/translators.py:479-482 | whether the current item's type is `punctuation`; IndexError past the end |
| Translators.AwsCursor.MoveForward | modules/translators.py:484-493 | False with the index kept at the last item; otherwise the index grows by one and the call returns True; from an item it stays on an item |

## Left out

- File and report I/O are not modelled. This covers `Metrics.metrics`, `_get_ground_truth`, `_get_hypotheses`, `_process_metrics`, the output-path helpers, and the writing of CSV and JSON. The per-utterance, per-file and per-corpus computations are modelled on in-memory values instead.
- Rates are real numbers, not IEEE floating point.
- The CTM and STM times reach the line text through a given formatting function.
- Python dictionaries are insertion-ordered association lists. Their key uniqueness is stated as a predicate and proved preserved, not assumed.
- numpy arrays, protobuf messages and defaultdicts become `array2`, classes, records and sequences.
- A protobuf string field left unset reads as "", so `CanonicalToken(word=None)` has the word "".
- `str.lower` on tokens and `num2words` are parameters of the tokenizer, because they are library code.
- Upper and lower case of tags and event keys are ASCII only.
- The `\w` of the apostrophe split is `Tokenizer.IsWordChar`. It accepts the ASCII letters, digits and underscore, and the Latin-1 letters À to ÿ except × and ÷. It rejects every other Unicode word character, such as ª, µ, º, ¹, ² and letters beyond Latin-1.
- The `\d` of the overlap anchors and `isdigit` accept the ASCII digits only. `str.split()` splits on ASCII whitespace.
- Tokenizer.Tokenize, Tokenizer.TokenizeSpec, Tokenizer.TeiTokenize: these use the intended cleaning, which removes backslashes. As written, the source keeps a backslash in a word. `Tokenizer.TokenizeAsWritten` models that, and `Tokenizer.TokenizeAsWrittenOutcomes` relates the two.
- The roll-up invariant (`Rollup`) speaks of the raw counts of every view, which determine the rates. It does not speak of the merged operation groups.
- Unicode normalisation is not modelled.
- The anchor parser's search of the overlap utterances is a parameter that returns the properties or nothing. The text of the overlap utterance is not modelled.
- lxml parsing, XSD validation and the TEI `parse_*` methods are not modelled. An element is a value.
- Configuration loading is not modelled. The evaluator and tokenizer configurations are records.
- `Operations.PyRepr` quotes a text as Python's `repr` does for the quote characters and the backslash only. Escapes of non-printable characters are not modelled.
- Backtracer.BacktraceOperationMatrix: the ValueError for an operation type outside the enum is not modelled, because the type has exactly four values.
- Backtracer.BacktraceOperationMatrix: the matrix is required to be well formed (row 0 insertions, column 0 deletions), which every compiled matrix is (`Backtracer.CompiledWellFormed`).
- The translators leave out response parsing (JSON and protobuf), the time windows, evaluation times, AWS punctuation timestamps and the `get_current_word_*` accessors.
- Cursor indices are natural numbers, so Python's negative indices are not modelled.
- The UI in modules/factories.py, the cloud transcribers and the utilities module are not part of this model.

## Findings

| source | as written | input that shows it | evidently intended | confidence | as-written member | corrected member |
|---|---|---|---|---|---|---|
| modules/tokenizer.py:42 | the special characters are pasted into a regex character class; their `\` escapes the `]` after it, so the class matches `]` but not the backslash, and a backslash is never removed | the word `\` (a lone backslash) survives cleaning and becomes a pronunciation token | every character of SPECIAL_CHARACTERS, the backslash included, is removed (the cleaned word is then empty and `cleaned_word[-1]` raises) | high; not executed | Tokenizer.BackslashSurvivesAsWritten | Tokenizer.Clean |
