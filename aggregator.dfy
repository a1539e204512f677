/**
 * MetricsCalculator and the per-utterance step of DefaultMetrics: the metrics of one
 * utterance from its alignment, and their roll-up to file and corpus level by summing raw
 * counts and grouping by language and by annotation note. Dictionaries are insertion-ordered
 * lists of (key, value) pairs.
 */
module Aggregator {
  import opened Wrappers
  import opened Canonical
  import opened Ranking
  import opened Grouping
  import opened Formulas
  import Operations
  import Aligner
  import Backtracer

  /** Operation counts by operation type name, then by the operation's `repr`. */
  type OperationsDict = seq<(string, seq<(string, nat)>)>

  /** The metrics of one view of the text: its 'totals' and its 'operations_groups'. */
  datatype ScopeMetrics = ScopeMetrics(totals: WordsMetrics, operationsGroups: OperationsDict)

  /** The views every level of the report holds: 'overall_text', 'without_tags_text' and 'event_tags'. */
  datatype GlobalMetrics = GlobalMetrics(
    overallText: ScopeMetrics, withoutTagsText: ScopeMetrics, eventTags: seq<(string, ScopeMetrics)>)

  /** The metrics of one utterance: its 'language', 'audio_note' and 'csv_lines', and its views. */
  datatype UtteranceMetrics = UtteranceMetrics(
    language: string, audioNote: string, csvLines: seq<seq<string>>, global: GlobalMetrics)

  /** The metrics of one language: its views, and its views per annotation note. */
  datatype LanguageMetrics = LanguageMetrics(global: GlobalMetrics, audioNotes: seq<(string, GlobalMetrics)>)

  /** The metrics of a file or of the corpus: its views, per language and per annotation note. */
  datatype RollupMetrics = RollupMetrics(
    global: GlobalMetrics, languages: seq<(string, LanguageMetrics)>, audioNotes: seq<(string, GlobalMetrics)>)

  // ---------------------------------------------------------------------------------------
  // Totals.
  // ---------------------------------------------------------------------------------------

  /** The six raw counts of a set of totals. */
  function Raw(w: WordsMetrics): Backtracer.Totals {
    Backtracer.Totals(w.cor, w.sub, w.del, w.ins, w.refLen, w.hypLen)
  }

  /** The totals computed from raw counts (`compute_words_metrics`); they keep the counts. */
  function FromRaw(t: Backtracer.Totals): (w: WordsMetrics)
    ensures Raw(w) == t
    ensures w.errors == t.sub + t.del + t.ins && w.aligned == t.cor + t.sub + t.del + t.ins
  {
    ComputeWordsMetrics(t.cor, t.sub, t.del, t.ins, t.refLen, t.hypLen)
  }

  /** The raw counts of a list of views, added up field by field. */
  function SumRaw(ms: seq<ScopeMetrics>): Backtracer.Totals {
    if ms == [] then Backtracer.Totals(0, 0, 0, 0, 0, 0)
    else Backtracer.Plus(SumRaw(ms[..|ms| - 1]), Raw(ms[|ms| - 1].totals))
  }

  /** `compute_totals_metrics`: the totals recomputed from the summed raw counts. */
  function ComputeTotalsMetrics(ms: seq<ScopeMetrics>): (w: WordsMetrics)
    ensures Raw(w) == SumRaw(ms)
  {
    FromRaw(SumRaw(ms))
  }

  /** Summing two lists of views one after the other adds their sums. */
  lemma {:induction false} SumRawAppend(a: seq<ScopeMetrics>, b: seq<ScopeMetrics>)
    ensures SumRaw(a + b) == Backtracer.Plus(SumRaw(a), SumRaw(b))
  {
    if b != [] {
      var init, last := b[..|b| - 1], b[|b| - 1];
      assert (a + b)[..|a + b| - 1] == a + init && (a + b)[|a + b| - 1] == last;
      assert SumRaw(a + b) == Backtracer.Plus(SumRaw(a + init), Raw(last.totals));
      SumRawAppend(a, init);
    } else {
      assert a + b == a;
    }
  }

  /** Totals that were computed from their own counts come back unchanged from a single input. */
  lemma SingleInputTotals(m: ScopeMetrics)
    requires m.totals == FromRaw(Raw(m.totals))
    ensures ComputeTotalsMetrics([m]) == m.totals
  {
    assert [m][..0] == [];
    assert SumRaw([m]) == Raw(m.totals);
  }

  // ---------------------------------------------------------------------------------------
  // Operation groups.
  // ---------------------------------------------------------------------------------------

  /** The 'operations_groups' dictionaries of a list of views. */
  function OperationsDicts(ms: seq<ScopeMetrics>): seq<OperationsDict> {
    seq(|ms|, i requires 0 <= i < |ms| => ms[i].operationsGroups)
  }

  /** One operation type's merged counts, sorted by decreasing count, ties in order of arrival. */
  function Ranked(dicts: seq<seq<(string, nat)>>): seq<(string, nat)> {
    SortDesc(Merge(dicts))
  }

  /** `compute_operations_groups`: per operation type, the counts added up over the inputs. */
  function OperationsGroupsOf(ms: seq<ScopeMetrics>): OperationsDict {
    MapValues(GroupById(OperationsDicts(ms)), Ranked)
  }

  /**
   * The merged operation groups: one entry per operation type present in some input; each
   * type's counts are sorted by decreasing count, keep arrival order among equal counts, have
   * one entry per operation text, and give each text the sum of its counts over the inputs.
   */
  lemma OperationsGroupsSpec(ms: seq<ScopeMetrics>, t: string, op: string, c: nat)
    ensures Unique(OperationsGroupsOf(ms))
    ensures var i := IndexOf(OperationsGroupsOf(ms), t);
      (i >= 0 <==> exists a, b :: 0 <= a < |ms| && 0 <= b < |ms[a].operationsGroups| && ms[a].operationsGroups[b].0 == t) &&
      (i >= 0 ==>
        var counts := OperationsGroupsOf(ms)[i].1;
        var inputs := Gathered(OperationsDicts(ms), t);
        SortedDesc(counts) && Unique(counts) &&
        WithCount(counts, c) == WithCount(Merge(inputs), c) &&
        CountOf(counts, op) == KeyTotals(inputs, op) &&
        SumCounts(counts) == TotalCounts(inputs))
  {
    var dicts: seq<OperationsDict> := OperationsDicts(ms);
    var groups := GroupById(dicts);
    GroupByIdLists(dicts, t);
    MapValuesKeys(groups, Ranked, t);
    TypeOccurs(ms, t);
    var i := IndexOf(OperationsGroupsOf(ms), t);
    if i >= 0 {
      assert groups[i].1 == Gathered(dicts, t);
      RankedSpec(groups[i].1, op, c);
    }
  }

  /** A type occurs in the views' dictionaries exactly when it occurs in one of the views. */
  lemma TypeOccurs(ms: seq<ScopeMetrics>, t: string)
    ensures (exists a, b :: 0 <= a < |ms| && 0 <= b < |ms[a].operationsGroups| && ms[a].operationsGroups[b].0 == t) <==>
      (exists a, b :: 0 <= a < |OperationsDicts(ms)| && 0 <= b < |OperationsDicts(ms)[a]| && OperationsDicts(ms)[a][b].0 == t)
  {
    var dicts: seq<OperationsDict> := OperationsDicts(ms);
    if exists a, b :: 0 <= a < |ms| && 0 <= b < |ms[a].operationsGroups| && ms[a].operationsGroups[b].0 == t {
      var a: int, b: int :| 0 <= a < |ms| && 0 <= b < |ms[a].operationsGroups| && ms[a].operationsGroups[b].0 == t;
      assert dicts[a][b].0 == t;
    }
    if exists a, b :: 0 <= a < |dicts| && 0 <= b < |dicts[a]| && dicts[a][b].0 == t {
      var a: int, b: int :| 0 <= a < |dicts| && 0 <= b < |dicts[a]| && dicts[a][b].0 == t;
      assert ms[a].operationsGroups[b].0 == t;
    }
  }

  /**
   * One type's ranked counts: sorted by decreasing count, arrival order kept among equal
   * counts, one entry per operation text, each text with the sum of its counts.
   */
  lemma RankedSpec(inputs: seq<seq<(string, nat)>>, op: string, c: nat)
    ensures var counts := Ranked(inputs);
      SortedDesc(counts) && Unique(counts) &&
      WithCount(counts, c) == WithCount(Merge(inputs), c) &&
      CountOf(counts, op) == KeyTotals(inputs, op) &&
      SumCounts(counts) == TotalCounts(inputs)
  {
    var merged := Merge(inputs);
    MergeCounts(inputs, op);
    SortDescPermutes(merged);
    SortDescSorted(merged);
    SortDescStable(merged, c);
    SortDescSum(merged);
    UniqueDistinct(merged);
    SortDescDistinct(merged, Itself);
    UniqueDistinct(SortDesc(merged));
    SameCounts(merged, SortDesc(merged), op);
  }

  // ---------------------------------------------------------------------------------------
  // Event tags and the three views.
  // ---------------------------------------------------------------------------------------

  /** ASCII lower case; the keys lowered here are ASCII. */
  function LowerChar(c: char): char {
    if 'A' <= c <= 'Z' then (c as int + 32) as char else c
  }

  /** `s.lower()` on an ASCII string. */
  function Lower(s: string): (r: string)
    ensures |r| == |s| && forall k :: 0 <= k < |s| ==> r[k] == LowerChar(s[k])
  {
    if s == [] then [] else [LowerChar(s[0])] + Lower(s[1..])
  }

  /** Lowering twice is lowering once, so keys lowered at file level come through unchanged. */
  lemma LowerIdempotent(s: string)
    ensures Lower(Lower(s)) == Lower(s)
  {
  }

  /** The totals and merged operation groups of a list of views. */
  function ScopeOf(ms: seq<ScopeMetrics>): ScopeMetrics {
    ScopeMetrics(ComputeTotalsMetrics(ms), OperationsGroupsOf(ms))
  }

  /** The 'event_tags' dictionaries of a list of metrics. */
  function TagDicts(gs: seq<GlobalMetrics>): seq<seq<(string, ScopeMetrics)>> {
    seq(|gs|, i requires 0 <= i < |gs| => gs[i].eventTags)
  }

  /** The loop of `compute_event_tags_metrics` over the grouped views, keyed by lowered name. */
  function TagScopes(groups: seq<(string, seq<ScopeMetrics>)>): seq<(string, ScopeMetrics)> {
    if groups == [] then []
    else
      var last := groups[|groups| - 1];
      Assign(TagScopes(groups[..|groups| - 1]), Lower(last.0), ScopeOf(last.1))
  }

  lemma TagScopesSnoc(groups: seq<(string, seq<ScopeMetrics>)>, g: nat, scope: ScopeMetrics)
    requires g < |groups| && scope == ScopeOf(groups[g].1)
    ensures TagScopes(groups[..g + 1]) == Assign(TagScopes(groups[..g]), Lower(groups[g].0), scope)
  {
    assert groups[..g + 1][..g] == groups[..g];
  }

  /** `compute_event_tags_metrics`: the views of each event tag, added up over the inputs. */
  function EventTagsOf(gs: seq<GlobalMetrics>): seq<(string, ScopeMetrics)> {
    TagScopes(GroupById(TagDicts(gs)))
  }

  /** The 'overall_text' views of a list of metrics. */
  function Overalls(gs: seq<GlobalMetrics>): seq<ScopeMetrics> {
    seq(|gs|, i requires 0 <= i < |gs| => gs[i].overallText)
  }

  /** The 'without_tags_text' views of a list of metrics. */
  function Withouts(gs: seq<GlobalMetrics>): seq<ScopeMetrics> {
    seq(|gs|, i requires 0 <= i < |gs| => gs[i].withoutTagsText)
  }

  /** `compute_global_metrics`: each of the three views, added up over the inputs. */
  function GlobalOf(gs: seq<GlobalMetrics>): GlobalMetrics {
    GlobalMetrics(ScopeOf(Overalls(gs)), ScopeOf(Withouts(gs)), EventTagsOf(gs))
  }

  // ---------------------------------------------------------------------------------------
  // Files and corpus.
  // ---------------------------------------------------------------------------------------

  /** The views of a list of utterances. */
  function Globals(us: seq<UtteranceMetrics>): seq<GlobalMetrics> {
    seq(|us|, i requires 0 <= i < |us| => us[i].global)
  }

  function ByLanguage(u: UtteranceMetrics): string {
    u.language
  }

  function ByNote(u: UtteranceMetrics): string {
    u.audioNote
  }

  /** The metrics of the utterances of one language of a file. */
  function FileLanguageOf(us: seq<UtteranceMetrics>): LanguageMetrics {
    LanguageMetrics(GlobalOf(Globals(us)), MapValues(MapValues(GroupBy(us, ByNote), Globals), GlobalOf))
  }

  /** `compute_file_metrics`: the views of all utterances, per language (and note), per note. */
  function FileOf(us: seq<UtteranceMetrics>): RollupMetrics {
    RollupMetrics(
      GlobalOf(Globals(us)),
      MapValues(GroupBy(us, ByLanguage), FileLanguageOf),
      MapValues(MapValues(GroupBy(us, ByNote), Globals), GlobalOf))
  }

  /** The views of a list of file or corpus metrics. */
  function RollupGlobals(fs: seq<RollupMetrics>): seq<GlobalMetrics> {
    seq(|fs|, i requires 0 <= i < |fs| => fs[i].global)
  }

  /** The views of a list of language metrics. */
  function LanguageGlobals(ls: seq<LanguageMetrics>): seq<GlobalMetrics> {
    seq(|ls|, i requires 0 <= i < |ls| => ls[i].global)
  }

  /** The per-note views of a list of language metrics. */
  function LanguageNotes(ls: seq<LanguageMetrics>): seq<seq<(string, GlobalMetrics)>> {
    seq(|ls|, i requires 0 <= i < |ls| => ls[i].audioNotes)
  }

  /** The metrics of one language over the files: its views and its per-note views merged. */
  function CorpusLanguageOf(ls: seq<LanguageMetrics>): LanguageMetrics {
    LanguageMetrics(GlobalOf(LanguageGlobals(ls)), MapValues(GroupById(LanguageNotes(ls)), GlobalOf))
  }

  /** The per-language metrics of a list of files. */
  function RollupLanguages(fs: seq<RollupMetrics>): seq<seq<(string, LanguageMetrics)>> {
    seq(|fs|, i requires 0 <= i < |fs| => fs[i].languages)
  }

  /** The per-note views of a list of files. */
  function RollupNotes(fs: seq<RollupMetrics>): seq<seq<(string, GlobalMetrics)>> {
    seq(|fs|, i requires 0 <= i < |fs| => fs[i].audioNotes)
  }

  /** `compute_corpus_metrics`: the files' views merged, per language (and note), per note. */
  function CorpusOf(fs: seq<RollupMetrics>): RollupMetrics {
    RollupMetrics(
      GlobalOf(RollupGlobals(fs)),
      MapValues(GroupById(RollupLanguages(fs)), CorpusLanguageOf),
      MapValues(GroupById(RollupNotes(fs)), GlobalOf))
  }

  /**
   * A file's entry for a language exists exactly when some utterance has that language, and
   * its totals add up the utterances of that language, and no other.
   */
  lemma FileLanguageTotals(us: seq<UtteranceMetrics>, lang: string)
    ensures var f := FileOf(us); var i := IndexOf(f.languages, lang);
      (i >= 0 <==> exists k :: 0 <= k < |us| && us[k].language == lang) &&
      (i >= 0 ==> Raw(f.languages[i].1.global.overallText.totals) ==
                  SumRaw(Overalls(Globals(Select(us, ByLanguage, lang)))))
  {
    var groups := GroupBy(us, ByLanguage);
    GroupByPartition(us, ByLanguage, lang);
    MapValuesKeys(groups, FileLanguageOf, lang);
    var i := IndexOf(groups, lang);
    if i >= 0 {
      var selected := Select(us, ByLanguage, lang);
      assert groups[i].1 == selected;
      assert FileOf(us).languages[i].1 == FileLanguageOf(selected);
    }
  }

  /** All utterances of a list of files, file after file. */
  function Flatten(uss: seq<seq<UtteranceMetrics>>): seq<UtteranceMetrics> {
    if uss == [] then [] else Flatten(uss[..|uss| - 1]) + uss[|uss| - 1]
  }

  /** The file metrics of a list of files. */
  function Files(uss: seq<seq<UtteranceMetrics>>): (fs: seq<RollupMetrics>)
    ensures |fs| == |uss|
  {
    if uss == [] then [] else Files(uss[..|uss| - 1]) + [FileOf(uss[|uss| - 1])]
  }

  lemma OverallsAppend(a: seq<GlobalMetrics>, b: seq<GlobalMetrics>)
    ensures Overalls(a + b) == Overalls(a) + Overalls(b)
    ensures Withouts(a + b) == Withouts(a) + Withouts(b)
  {
  }

  lemma GlobalsAppend(a: seq<UtteranceMetrics>, b: seq<UtteranceMetrics>)
    ensures Globals(a + b) == Globals(a) + Globals(b)
  {
  }

  /** A file's views are the views of all its utterances added up. */
  lemma FileGlobal(us: seq<UtteranceMetrics>)
    ensures FileOf(us).global == GlobalOf(Globals(us))
    ensures SumRaw(Overalls([FileOf(us).global])) == SumRaw(Overalls(Globals(us)))
    ensures SumRaw(Withouts([FileOf(us).global])) == SumRaw(Withouts(Globals(us)))
  {
    var gs := Globals(us);
    var g := GlobalOf(gs);
    assert FileOf(us).global == g;
    assert Overalls([g]) == [ScopeOf(Overalls(gs))];
    assert Withouts([g]) == [ScopeOf(Withouts(gs))];
    SumOfOneScope(Overalls(gs));
    SumOfOneScope(Withouts(gs));
  }

  /** The sum of a single added-up view is the sum it was added up from. */
  lemma SumOfOneScope(ms: seq<ScopeMetrics>)
    ensures SumRaw([ScopeOf(ms)]) == SumRaw(ms)
  {
    assert [ScopeOf(ms)][..0] == [];
  }

  lemma FilesSnoc(uss: seq<seq<UtteranceMetrics>>)
    requires uss != []
    ensures RollupGlobals(Files(uss)) ==
      RollupGlobals(Files(uss[..|uss| - 1])) + [FileOf(uss[|uss| - 1]).global]
  {
    RollupGlobalsSnoc(Files(uss[..|uss| - 1]), FileOf(uss[|uss| - 1]));
  }

  lemma RollupGlobalsSnoc(fs: seq<RollupMetrics>, f: RollupMetrics)
    ensures RollupGlobals(fs + [f]) == RollupGlobals(fs) + [f.global]
  {
  }

  /** Adding up the files' views adds up every utterance of every file. */
  lemma {:induction false} RollupTotals(uss: seq<seq<UtteranceMetrics>>)
    ensures SumRaw(Overalls(RollupGlobals(Files(uss)))) == SumRaw(Overalls(Globals(Flatten(uss))))
    ensures SumRaw(Withouts(RollupGlobals(Files(uss)))) == SumRaw(Withouts(Globals(Flatten(uss))))
  {
    var fs := RollupGlobals(Files(uss));
    if uss != [] {
      var init, last := uss[..|uss| - 1], uss[|uss| - 1];
      RollupTotals(init);
      var fi := RollupGlobals(Files(init));
      var gl := FileOf(last).global;
      FilesSnoc(uss);
      FileGlobal(last);
      OverallsAppend(fi, [gl]);
      SumRawAppend(Overalls(fi), Overalls([gl]));
      SumRawAppend(Withouts(fi), Withouts([gl]));
      var gu := Globals(Flatten(init));
      assert Flatten(uss) == Flatten(init) + last;
      GlobalsAppend(Flatten(init), last);
      OverallsAppend(gu, Globals(last));
      SumRawAppend(Overalls(gu), Overalls(Globals(last)));
      SumRawAppend(Withouts(gu), Withouts(Globals(last)));
    } else {
      assert fs == [] && Overalls(fs) == [] && Withouts(fs) == [];
    }
  }

  /**
   * The corpus totals, overall and without tags, add up every utterance of every file: the
   * grouping into files changes no count.
   */
  lemma CorpusTotals(uss: seq<seq<UtteranceMetrics>>)
    ensures var g := CorpusOf(Files(uss)).global;
      Raw(g.overallText.totals) == SumRaw(Overalls(Globals(Flatten(uss)))) &&
      Raw(g.withoutTagsText.totals) == SumRaw(Withouts(Globals(Flatten(uss))))
  {
    RollupTotals(uss);
  }

  // ---------------------------------------------------------------------------------------
  // One utterance.
  // ---------------------------------------------------------------------------------------

  /** The key of an event-tags entry: "all", or the event type's name. */
  function TagName(k: Backtracer.TagKey): string {
    match k
    case AllTags => "all"
    case EventTag(t) => EventTypeName(t)
  }

  /** `compute_utterance_metrics`: the totals and operation groups of one accumulator. */
  function ScopeFromBacktrace(acc: Backtracer.Accumulator): (s: ScopeMetrics)
    ensures Raw(s.totals) == acc.totals
    ensures |s.operationsGroups| == 4
    ensures forall i :: 0 <= i < 4 ==> s.operationsGroups[i].0 == Operations.TypeName(acc.groups.Items()[i].0)
  {
    Operations.GroupsToDictEntries(acc.groups.Items());
    ScopeMetrics(FromRaw(acc.totals), Operations.GroupsToDict(acc.groups.Items()))
  }

  /** The loop over the event-tags accumulators of `_get_utterance_metrics`. */
  function EventScopes(tags: seq<(Backtracer.TagKey, Backtracer.Accumulator)>): seq<(string, ScopeMetrics)> {
    if tags == [] then []
    else
      var last := tags[|tags| - 1];
      EventScopes(tags[..|tags| - 1]) + [(TagName(last.0), ScopeFromBacktrace(last.1))]
  }

  /** The hypothesis words, or none when there is no hypothesis utterance. */
  function HypothesisWords(hypothesis: Option<Utterance>): seq<Token> {
    if hypothesis.Some? then hypothesis.value.words else []
  }

  /** The operations met walking the alignment from (i, j) back to the origin. */
  function Path(original: seq<Token>, r: seq<Token>, h: seq<Token>, i: nat, j: nat): seq<Operations.Operation>
    requires |r| <= |original| && i <= |r| && j <= |h|
    decreases i + j
  {
    if i == 0 && j == 0 then []
    else
      var next := Backtracer.Next(Aligner.Cell(original, r, h, i, j).opType, i, j);
      [Aligner.Cell(original, r, h, i, j)] + Path(original, r, h, next.0, next.1)
  }

  /** The walk over a compiled matrix meets the operations of the alignment path. */
  lemma {:induction false} CompiledTrace(original: seq<Token>, filtered: seq<Token>, hypothesis: seq<Token>,
                                         m: array2<Operations.Operation>, i: nat, j: nat)
    requires |filtered| <= |original|
    requires m.Length0 == |filtered| + 1 && m.Length1 == |hypothesis| + 1
    requires forall a, b :: 0 <= a < m.Length0 && 0 <= b < m.Length1 ==>
      m[a, b] == Aligner.Cell(original, filtered, hypothesis, a, b)
    requires i < m.Length0 && j < m.Length1
    ensures Backtracer.WellFormed(m)
    ensures Backtracer.Trace(m, i, j) == Path(original, filtered, hypothesis, i, j)
    decreases i + j
  {
    Backtracer.CompiledWellFormed(original, filtered, hypothesis, m);
    if i > 0 || j > 0 {
      var next := Backtracer.Next(m[i, j].opType, i, j);
      CompiledTrace(original, filtered, hypothesis, m, next.0, next.1);
    }
  }

  /** `_get_utterance_metrics`, with the alignment written as a function. */
  function UtteranceOf(reference: Utterance, hypothesis: Option<Utterance>): UtteranceMetrics {
    var filtered := Lexical(reference.words);
    var h := HypothesisWords(hypothesis);
    var path := Path(reference.words, filtered, h, |filtered|, |h|);
    var b := Backtracer.Accumulate(path);
    UtteranceMetrics(
      reference.language, reference.note, Backtracer.Reverse(Backtracer.Rows(path)),
      GlobalMetrics(ScopeFromBacktrace(b.overall), ScopeFromBacktrace(b.withoutTags), EventScopes(b.eventTags)))
  }

  // ---------------------------------------------------------------------------------------
  // The loops.
  // ---------------------------------------------------------------------------------------

  /**
   * `_get_utterance_metrics`: filters the reference, aligns it with the hypothesis, walks the
   * alignment and computes each view's metrics. No substitution is ever counted; both lengths
   * are the number of lexical reference words, and correct words plus insertions make up the
   * hypothesis.
   */
  method GetUtteranceMetrics(reference: Utterance, hypothesis: Option<Utterance>) returns (u: UtteranceMetrics)
    ensures u == UtteranceOf(reference, hypothesis)
    ensures var t := u.global.overallText.totals;
      t.sub == 0 && t.refLen == t.hypLen == t.cor + t.del == |Lexical(reference.words)| &&
      t.cor + t.ins == |HypothesisWords(hypothesis)|
    ensures u.global.withoutTagsText.totals.sub == 0
  {
    var original := reference.words;
    var filtered := Lexical(original);
    var h := HypothesisWords(hypothesis);
    var b, csv := AlignAndWalk(original, filtered, h);
    var overall := ScopeFromBacktrace(b.overall);
    var without := ScopeFromBacktrace(b.withoutTags);
    var events := ComputeEventScopes(b.eventTags);
    u := UtteranceMetrics(reference.language, reference.note, csv, GlobalMetrics(overall, without, events));
  }

  /**
   * The alignment part of `_get_utterance_metrics`: compiles the matrix and walks it back.
   * The walk counts no substitution; both lengths are the number of filtered reference words.
   */
  method AlignAndWalk(original: seq<Token>, filtered: seq<Token>, h: seq<Token>)
    returns (b: Backtracer.Backtraces, csv: seq<seq<string>>)
    requires |filtered| <= |original|
    ensures var path := Path(original, filtered, h, |filtered|, |h|);
      b == Backtracer.Accumulate(path) && csv == Backtracer.Reverse(Backtracer.Rows(path))
    ensures var t := b.overall.totals;
      t.sub == 0 && t.refLen == t.hypLen == t.cor + t.del == |filtered| && t.cor + t.ins == |h|
    ensures b.withoutTags.totals.sub == 0
  {
    var m := Aligner.CompileOperationMatrix(original, filtered, h);
    CompiledTrace(original, filtered, h, m, |filtered|, |h|);
    b, csv := Backtracer.BacktraceOperationMatrix(m);
    Backtracer.BacktraceLengths(m);
    Backtracer.CompiledNoSubstitution(original, filtered, h, m, Backtracer.Overall);
    Backtracer.CompiledNoSubstitution(original, filtered, h, m, Backtracer.WithoutTags);
  }

  /** The loop over the event-tags accumulators of `_get_utterance_metrics`. */
  method ComputeEventScopes(tags: seq<(Backtracer.TagKey, Backtracer.Accumulator)>) returns (events: seq<(string, ScopeMetrics)>)
    ensures events == EventScopes(tags)
  {
    events := [];
    for k := 0 to |tags|
      invariant events == EventScopes(tags[..k])
    {
      assert tags[..k + 1][..k] == tags[..k];
      events := events + [(TagName(tags[k].0), ScopeFromBacktrace(tags[k].1))];
    }
    assert tags[..|tags|] == tags;
  }

  /** `compute_operations_groups`: groups the inputs by type, then adds up each type's counts. */
  method ComputeOperationsGroups(ms: seq<ScopeMetrics>) returns (d: OperationsDict)
    ensures d == OperationsGroupsOf(ms)
  {
    var groups := GroupMetricsById(OperationsDicts(ms));
    d := [];
    for g := 0 to |groups|
      invariant d == MapValues(groups[..g], Ranked)
    {
      var merged := MergeDicts(groups[g].1);
      MapValuesSnoc(groups, Ranked, g);
      d := d + [(groups[g].0, SortDesc(merged))];
    }
    assert groups[..|groups|] == groups;
  }

  /** The counts of one operation type's dictionaries, added up dictionary after dictionary. */
  method MergeDicts(dicts: seq<seq<(string, nat)>>) returns (merged: seq<(string, nat)>)
    ensures merged == Merge(dicts)
  {
    merged := [];
    for a := 0 to |dicts|
      invariant merged == Merge(dicts[..a])
    {
      merged := MergeEntries(merged, dicts[a]);
      assert dicts[..a + 1][..a] == dicts[..a];
    }
    assert dicts[..|dicts|] == dicts;
  }

  /** `merged[op] += count` for every entry of one dictionary, in its order. */
  method MergeEntries(start: seq<(string, nat)>, entries: seq<(string, nat)>) returns (merged: seq<(string, nat)>)
    ensures merged == MergeInto(start, entries)
  {
    merged := start;
    for b := 0 to |entries|
      invariant merged == MergeInto(start, entries[..b])
    {
      assert entries[..b + 1][..b] == entries[..b];
      merged := AddTo(merged, entries[b].0, entries[b].1);
    }
    assert entries[..|entries|] == entries;
  }

  /** `compute_event_tags_metrics`: groups the inputs' event tags, then adds up each tag's views. */
  method ComputeEventTagsMetrics(gs: seq<GlobalMetrics>) returns (d: seq<(string, ScopeMetrics)>)
    ensures d == EventTagsOf(gs)
  {
    var groups := GroupMetricsById(TagDicts(gs));
    d := [];
    for g := 0 to |groups|
      invariant d == TagScopes(groups[..g])
    {
      var scope := ScopeOf(groups[g].1);
      TagScopesSnoc(groups, g, scope);
      d := Assign(d, Lower(groups[g].0), scope);
    }
    assert groups[..|groups|] == groups;
  }

  /** `_compute_global_metrics_for_group`. */
  method ComputeGlobalMetricsForGroup(groups: seq<(string, seq<GlobalMetrics>)>) returns (d: seq<(string, GlobalMetrics)>)
    ensures d == MapValues(groups, GlobalOf)
  {
    d := [];
    for g := 0 to |groups|
      invariant d == MapValues(groups[..g], GlobalOf)
    {
      MapValuesSnoc(groups, GlobalOf, g);
      d := d + [(groups[g].0, GlobalOf(groups[g].1))];
    }
    assert groups[..|groups|] == groups;
  }

  /** The loop of `compute_file_metrics` that adds each language's per-note views. */
  method AddFileNotes(groups: seq<(string, seq<UtteranceMetrics>)>, perLanguage: seq<(string, GlobalMetrics)>)
    returns (languages: seq<(string, LanguageMetrics)>)
    requires |perLanguage| == |groups|
    requires forall k :: 0 <= k < |groups| ==> perLanguage[k].1 == GlobalOf(Globals(groups[k].1))
    ensures languages == MapValues(groups, FileLanguageOf)
  {
    languages := [];
    for k := 0 to |groups|
      invariant languages == MapValues(groups[..k], FileLanguageOf)
    {
      var noteGroups := GroupMetricsByField(groups[k].1, ByNote);
      var notes := ComputeGlobalMetricsForGroup(MapValues(noteGroups, Globals));
      MapValuesSnoc(groups, FileLanguageOf, k);
      languages := languages + [(groups[k].0, LanguageMetrics(perLanguage[k].1, notes))];
    }
    assert groups[..|groups|] == groups;
  }

  /** `compute_file_metrics`. */
  method ComputeFileMetrics(us: seq<UtteranceMetrics>) returns (f: RollupMetrics)
    ensures f == FileOf(us)
  {
    var languageGroups := GroupMetricsByField(us, ByLanguage);
    var perLanguage := ComputeGlobalMetricsForGroup(MapValues(languageGroups, Globals));
    var languages := AddFileNotes(languageGroups, perLanguage);
    var noteGroups := GroupMetricsByField(us, ByNote);
    var notes := ComputeGlobalMetricsForGroup(MapValues(noteGroups, Globals));
    f := RollupMetrics(GlobalOf(Globals(us)), languages, notes);
  }

  /** The loop of `compute_corpus_metrics` that adds each language's per-note views. */
  method AddCorpusNotes(groups: seq<(string, seq<LanguageMetrics>)>, perLanguage: seq<(string, GlobalMetrics)>)
    returns (languages: seq<(string, LanguageMetrics)>)
    requires |perLanguage| == |groups|
    requires forall k :: 0 <= k < |groups| ==> perLanguage[k].1 == GlobalOf(LanguageGlobals(groups[k].1))
    ensures languages == MapValues(groups, CorpusLanguageOf)
  {
    languages := [];
    for k := 0 to |groups|
      invariant languages == MapValues(groups[..k], CorpusLanguageOf)
    {
      var ls := groups[k].1;
      var noteGroups := GroupMetricsById(LanguageNotes(ls));
      var notes := ComputeGlobalMetricsForGroup(noteGroups);
      assert LanguageMetrics(perLanguage[k].1, notes) == CorpusLanguageOf(ls);
      MapValuesSnoc(groups, CorpusLanguageOf, k);
      languages := languages + [(groups[k].0, LanguageMetrics(perLanguage[k].1, notes))];
    }
    assert groups[..|groups|] == groups;
  }

  /** `compute_corpus_metrics`. */
  method ComputeCorpusMetrics(fs: seq<RollupMetrics>) returns (c: RollupMetrics)
    ensures c == CorpusOf(fs)
  {
    var languageGroups := GroupMetricsById(RollupLanguages(fs));
    var perLanguage := ComputeGlobalMetricsForGroup(MapValues(languageGroups, LanguageGlobals));
    var languages := AddCorpusNotes(languageGroups, perLanguage);
    var noteGroups := GroupMetricsById(RollupNotes(fs));
    var notes := ComputeGlobalMetricsForGroup(noteGroups);
    c := RollupMetrics(GlobalOf(RollupGlobals(fs)), languages, notes);
  }
}
