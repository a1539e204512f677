/**
 * The converters of a canonical transcription into the line formats of external scoring
 * tools (TRN, CTM, STM and TXT). A converter normalises the transcription with the
 * external-tool evaluator, turns each utterance into lines, and writes every line followed
 * by a newline. Loading and writing files are not part of this model; the file name and the
 * text of a time (`'{}'.format` of a float) are supplied from outside.
 */
module Converters {
  import opened Canonical
  import Text
  import Evaluator

  datatype Format = Trn | Ctm | Stm | Txt

  /** The words alone of a list of tokens. */
  function WordTexts(words: seq<Token>): (r: seq<string>)
    ensures |r| == |words| && forall k :: 0 <= k < |words| ==> r[k] == words[k].word
  {
    seq(|words|, k requires 0 <= k < |words| => words[k].word)
  }

  /** `get_utterance_text`: the words joined by single spaces. */
  function UtteranceText(words: seq<Token>): string {
    Text.Join(WordTexts(words), ' ')
  }

  /**
   * The text of an utterance gives its words back when split on spaces, provided no word
   * holds a space; an utterance without words has the empty text.
   */
  lemma UtteranceTextSplits(words: seq<Token>)
    requires forall k :: 0 <= k < |words| ==> ' ' !in words[k].word
    ensures words == [] ==> UtteranceText(words) == ""
    ensures words != [] ==> Text.Split(UtteranceText(words), ' ') == WordTexts(words)
  {
    if words != [] {
      Text.SplitJoin(WordTexts(words), ' ');
    }
  }

  /** The name of the waveform: the file name with every space replaced by an underscore. */
  function WaveformName(fileName: string): (r: string)
    ensures |r| == |fileName| && ' ' !in r
    ensures forall k :: 0 <= k < |fileName| && fileName[k] != ' ' ==> r[k] == fileName[k]
  {
    seq(|fileName|, k requires 0 <= k < |fileName| => if fileName[k] == ' ' then '_' else fileName[k])
  }

  /** The CTM line of one word: waveform, channel A, begin time, duration, the word. */
  function CtmLine(fileName: string, w: Token, time: real -> string): string {
    "<" + WaveformName(fileName) + "> <A> <" + time(w.startTime) + "> <" + time(w.endTime - w.startTime) + "> " + w.word
  }

  /** `_convert_canonical_utterance` of each converter. */
  function ConvertUtterance(f: Format, fileName: string, u: Utterance, time: real -> string): seq<string> {
    match f
    case Trn => [UtteranceText(u.words) + " (" + u.id + ")"]
    case Ctm => seq(|u.words|, k requires 0 <= k < |u.words| => CtmLine(fileName, u.words[k], time))
    case Stm =>
      ["<" + WaveformName(fileName) + "> <A> <" + u.speakerId + "> <" + time(u.startTime) + "> <" +
       time(u.endTime) + "> " + UtteranceText(u.words)]
    case Txt => [UtteranceText(u.words)]
  }

  /** The lines of a list of utterances: each utterance's lines, utterance after utterance. */
  function ConvertedLines(f: Format, fileName: string, us: seq<Utterance>, time: real -> string): seq<string> {
    if us == [] then []
    else ConvertedLines(f, fileName, us[..|us| - 1], time) + ConvertUtterance(f, fileName, us[|us| - 1], time)
  }

  /** The number of words of a list of utterances. */
  function WordCount(us: seq<Utterance>): nat {
    if us == [] then 0 else WordCount(us[..|us| - 1]) + |us[|us| - 1].words|
  }

  /**
   * TRN, STM and TXT write exactly one line per utterance, CTM one line per word. In TRN the
   * k-th line is the k-th utterance's text with its id in brackets, in TXT it is that text.
   */
  lemma {:induction false} ConvertedLinesSpec(f: Format, fileName: string, us: seq<Utterance>, time: real -> string)
    ensures |ConvertedLines(f, fileName, us, time)| == if f == Ctm then WordCount(us) else |us|
    ensures f == Txt ==> forall k :: 0 <= k < |us| ==> ConvertedLines(f, fileName, us, time)[k] == UtteranceText(us[k].words)
    ensures f == Trn ==> forall k :: 0 <= k < |us| ==>
      ConvertedLines(f, fileName, us, time)[k] == UtteranceText(us[k].words) + " (" + us[k].id + ")"
  {
    if us != [] {
      ConvertedLinesSpec(f, fileName, us[..|us| - 1], time);
    }
  }

  /** `'{}\n'.format(line)` for every line, in order. */
  function Saved(lines: seq<string>): (r: seq<string>)
    ensures |r| == |lines| && forall k :: 0 <= k < |lines| ==> r[k] == lines[k] + "\n"
  {
    seq(|lines|, k requires 0 <= k < |lines| => lines[k] + "\n")
  }

  /** The text written: the saved lines one after the other. */
  function Concat(ss: seq<string>): string {
    if ss == [] then "" else ss[0] + Concat(ss[1..])
  }

  lemma {:induction false} ConcatSavedIsJoin(lines: seq<string>)
    ensures Concat(Saved(lines)) == Text.Join(lines + [""], '\n')
  {
    if lines != [] {
      ConcatSavedIsJoin(lines[1..]);
      assert Saved(lines)[1..] == Saved(lines[1..]);
      assert (lines + [""])[1..] == lines[1..] + [""];
      assert lines[0] + "\n" + Concat(Saved(lines[1..])) == lines[0] + ['\n'] + Text.Join(lines[1..] + [""], '\n');
    } else {
      assert lines + [""] == [""];
    }
  }

  /** The written file splits at its newlines into the lines, then an empty remainder. */
  lemma SavedSplits(lines: seq<string>)
    requires forall k :: 0 <= k < |lines| ==> '\n' !in lines[k]
    ensures Text.Split(Concat(Saved(lines)), '\n') == lines + [""]
  {
    ConcatSavedIsJoin(lines);
    Text.SplitJoin(lines + [""], '\n');
  }

  /** The value of an utterance message. */
  function ValueOf(u: Evaluator.UtteranceMessage): Utterance
    reads u, u.words
  {
    Utterance(u.id, u.language, u.note, u.speakerId, u.startTime, u.endTime, u.words.items)
  }

  /** The values of a list of utterance messages. */
  function Snapshot(us: seq<Evaluator.UtteranceMessage>): (r: seq<Utterance>)
    reads set u | u in us
    reads set u | u in us :: u.words
    ensures |r| == |us|
  {
    if us == [] then [] else Snapshot(us[..|us| - 1]) + [ValueOf(us[|us| - 1])]
  }

  /** The k-th value of a snapshot is the value of the k-th message. */
  lemma {:induction false} SnapshotAt(us: seq<Evaluator.UtteranceMessage>, k: nat)
    requires k < |us|
    ensures Snapshot(us)[k] == ValueOf(us[k])
  {
    if k < |us| - 1 {
      SnapshotAt(us[..|us| - 1], k);
    }
  }

  lemma ConvertedLinesSnoc(f: Format, fileName: string, us: seq<Utterance>, k: nat, time: real -> string)
    requires k < |us|
    ensures ConvertedLines(f, fileName, us[..k + 1], time) == ConvertedLines(f, fileName, us[..k], time) + ConvertUtterance(f, fileName, us[k], time)
  {
    assert us[..k + 1][..k] == us[..k];
  }

  /** The CTM loop: one line per word, in order. */
  method CtmLines(fileName: string, words: seq<Token>, time: real -> string) returns (lines: seq<string>)
    ensures |lines| == |words| && forall k :: 0 <= k < |words| ==> lines[k] == CtmLine(fileName, words[k], time)
  {
    var waveform := WaveformName(fileName);
    lines := [];
    for k := 0 to |words|
      invariant |lines| == k && forall i :: 0 <= i < k ==> lines[i] == CtmLine(fileName, words[i], time)
    {
      var w := words[k];
      lines := lines + ["<" + waveform + "> <A> <" + time(w.startTime) + "> <" + time(w.endTime - w.startTime) + "> " + w.word];
    }
  }

  /** `_convert_canonical_utterance` on an utterance message. */
  method ConvertCanonicalUtterance(f: Format, fileName: string, u: Evaluator.UtteranceMessage, time: real -> string)
    returns (lines: seq<string>)
    ensures lines == ConvertUtterance(f, fileName, ValueOf(u), time)
  {
    var value := Utterance(u.id, u.language, u.note, u.speakerId, u.startTime, u.endTime, u.words.items);
    if f == Ctm {
      lines := CtmLines(fileName, u.words.items, time);
    } else {
      lines := ConvertUtterance(f, fileName, value, time);
    }
  }

  /** The loop of `convert`: each utterance's lines appended in utterance order. */
  method ConvertUtterances(f: Format, fileName: string, us: seq<Evaluator.UtteranceMessage>, time: real -> string)
    returns (lines: seq<string>)
    ensures lines == ConvertedLines(f, fileName, Snapshot(us), time)
  {
    ghost var values := Snapshot(us);
    lines := [];
    for k := 0 to |us|
      invariant lines == ConvertedLines(f, fileName, values[..k], time)
    {
      SnapshotAt(us, k);
      lines := AppendConverted(f, fileName, us[k], time, values, k, lines);
    }
    assert values[..|us|] == values;
  }

  /** One step of the loop of `convert`: the k-th utterance's lines follow those before it. */
  method AppendConverted(f: Format, fileName: string, u: Evaluator.UtteranceMessage, time: real -> string,
                         ghost values: seq<Utterance>, k: nat, lines: seq<string>) returns (lines': seq<string>)
    requires k < |values| && values[k] == ValueOf(u)
    requires lines == ConvertedLines(f, fileName, values[..k], time)
    ensures lines' == ConvertedLines(f, fileName, values[..k + 1], time)
  {
    var converted := ConvertCanonicalUtterance(f, fileName, u, time);
    ConvertedLinesSnoc(f, fileName, values, k, time);
    lines' := lines + converted;
  }

  /**
   * `convert` followed by `_save_converted_file`: the transcription is normalised in place by
   * the external-tool evaluator, the utterances' lines are gathered in utterance order, and
   * each line is written with a newline after it.
   */
  method Convert(f: Format, fileName: string, t: Evaluator.TranscriptionMessage, config: Evaluator.EvaluatorConfig,
                 time: real -> string) returns (written: seq<string>)
    requires Evaluator.Owned(t.utterances)
    modifies Evaluator.Lists(t.utterances)
    ensures t.utterances == old(t.utterances)
    ensures forall k :: 0 <= k < |t.utterances| ==>
      t.utterances[k].words.items == Evaluator.Evaluated(config, Lexical(old(t.utterances[k].words.items)))
    ensures written == Saved(ConvertedLines(f, fileName, Snapshot(t.utterances), time))
  {
    var evaluator := new Evaluator.ExternalToolMetricsEvaluator(config);
    var normalized := evaluator.Evaluate(t);
    var lines := ConvertUtterances(f, fileName, normalized.utterances, time);
    written := Saved(lines);
  }
}
