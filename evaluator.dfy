/**
 * The evaluators that normalise a canonical transcription before it is scored or converted
 * (DefaultMetricsCanonicalEvaluator and ExternalToolMetricsCanonicalEvaluator). They work in
 * place: each utterance's repeated `words` field is emptied and refilled, and the very object
 * they were given is returned.
 */
module Evaluator {
  import opened Canonical

  /**
   * A repeated `words` field of an utterance message: a list object owned by its utterance,
   * emptied with `del words[:]` and refilled with `words.extend(...)`.
   */
  class TokenList {
    var items: seq<Token>

    constructor(items: seq<Token>)
      ensures this.items == items
    {
      this.items := items;
    }

    /** `del words[:]`. */
    method Clear()
      modifies this
      ensures items == []
    {
      items := [];
    }

    /** `words.extend(other)`; `other` may be this very list. */
    method Extend(other: TokenList)
      modifies this
      ensures items == old(items) + old(other.items)
    {
      items := items + other.items;
    }
  }

  /** An utterance message. Its `words` field is a list object that cannot be replaced. */
  class UtteranceMessage {
    var id: string
    var language: string
    var note: string
    var speakerId: string
    var startTime: real
    var endTime: real
    const words: TokenList

    constructor(u: Utterance)
      ensures (id, language, note, speakerId) == (u.id, u.language, u.note, u.speakerId)
      ensures (startTime, endTime) == (u.startTime, u.endTime)
      ensures fresh(words) && words.items == u.words
    {
      id, language, note, speakerId := u.id, u.language, u.note, u.speakerId;
      startTime, endTime := u.startTime, u.endTime;
      words := new TokenList(u.words);
    }
  }

  /** A canonical transcription message: its list of utterances. */
  class TranscriptionMessage {
    var utterances: seq<UtteranceMessage>

    constructor(utterances: seq<UtteranceMessage>)
      ensures this.utterances == utterances
    {
      this.utterances := utterances;
    }
  }

  /** The `words` lists of a list of utterances. */
  function Lists(us: seq<UtteranceMessage>): set<TokenList> {
    set k | 0 <= k < |us| :: us[k].words
  }

  /** Every utterance owns its own `words` list, as every protobuf message owns its fields. */
  predicate Owned(us: seq<UtteranceMessage>) {
    forall i, j :: 0 <= i < j < |us| ==> us[i].words != us[j].words
  }

  /** The 'evaluator' configuration section: which normalisations are switched on. */
  datatype EvaluatorConfig = EvaluatorConfig(
    punctuation: bool, stopWords: bool, elisions: bool, diacritics: bool, apocopes: bool)

  /** The tokens that are not punctuation, in order. */
  function WithoutPunctuation(words: seq<Token>): seq<Token> {
    Filter(words, (t: Token) => t.tokenType != Punctuation)
  }

  /**
   * The words an utterance is left with. Punctuation is dropped when it is switched off. The
   * four unfinished normalisations, when switched off, re-extend the list from an alias of
   * itself after clearing it, and so leave it empty.
   */
  function Evaluated(c: EvaluatorConfig, words: seq<Token>): seq<Token> {
    var kept := if c.punctuation then words else WithoutPunctuation(words);
    if c.stopWords && c.elisions && c.diacritics && c.apocopes then kept else []
  }

  /**
   * The evaluated words are some of the original words, in their original order; without
   * punctuation enabled none of them is punctuation and every other token survives; with
   * every option enabled nothing changes; with any of the four others disabled nothing is left.
   */
  lemma EvaluatedSpec(c: EvaluatorConfig, words: seq<Token>)
    ensures var r := Evaluated(c, words);
      Subsequence(r, words) &&
      (!c.punctuation ==> forall t :: t in r ==> t.tokenType != Punctuation) &&
      (!c.punctuation && c.stopWords && c.elisions && c.diacritics && c.apocopes ==>
        forall t :: t in words && t.tokenType != Punctuation ==> t in r) &&
      (c.punctuation && c.stopWords && c.elisions && c.diacritics && c.apocopes ==> r == words) &&
      (!(c.stopWords && c.elisions && c.diacritics && c.apocopes) ==> r == [])
  {
    FilterSubsequence(words, (t: Token) => t.tokenType != Punctuation);
    SubsequenceRefl(words);
  }

  /**
   * The external-tool evaluation drops the Type B placeholders first: what is left holds no
   * placeholder and keeps the order of the original words.
   */
  lemma ExternalEvaluatedSpec(c: EvaluatorConfig, words: seq<Token>)
    ensures var r := Evaluated(c, Lexical(words));
      Subsequence(r, words) && (forall t :: t in r ==> !IsTypeB(t.tokenType)) &&
      (c.punctuation && c.stopWords && c.elisions && c.diacritics && c.apocopes ==> r == Lexical(words))
  {
    var lexical := Lexical(words);
    EvaluatedSpec(c, lexical);
    FilterSubsequence(words, (t: Token) => !IsTypeB(t.tokenType));
    SubsequenceTrans(Evaluated(c, lexical), lexical, words);
  }

  /** The punctuation pass: each utterance's list is refilled with its non-punctuation tokens. */
  method RemovePunctuation(us: seq<UtteranceMessage>)
    requires Owned(us)
    modifies Lists(us)
    ensures forall k :: 0 <= k < |us| ==> us[k].words.items == WithoutPunctuation(old(us[k].words.items))
  {
    for k := 0 to |us|
      invariant forall i :: 0 <= i < k ==> us[i].words.items == WithoutPunctuation(old(us[i].words.items))
      invariant forall i :: k <= i < |us| ==> us[i].words.items == old(us[i].words.items)
    {
      Refill(us[k].words, WithoutPunctuation(us[k].words.items));
    }
  }

  /** `del words[:]` then `words.extend(evaluated)` with a fresh list of the given tokens. */
  method Refill(words: TokenList, tokens: seq<Token>)
    modifies words
    ensures words.items == tokens
  {
    var evaluated := new TokenList(tokens);
    words.Clear();
    words.Extend(evaluated);
  }

  /**
   * One pass of an unfinished normalisation: the "evaluated" list is the live field itself, so
   * clearing the field clears it too and extending adds nothing back.
   */
  method ReextendAliased(us: seq<UtteranceMessage>)
    requires Owned(us)
    modifies Lists(us)
    ensures forall k :: 0 <= k < |us| ==> us[k].words.items == []
  {
    for k := 0 to |us|
      invariant forall i :: 0 <= i < k ==> us[i].words.items == []
    {
      var u := us[k];
      var evaluated := u.words;
      u.words.Clear();
      u.words.Extend(evaluated);
    }
  }

  /** The placeholder pass of the external-tool evaluator: Type B tokens are removed. */
  method RemovePlaceholders(us: seq<UtteranceMessage>)
    requires Owned(us)
    modifies Lists(us)
    ensures forall k :: 0 <= k < |us| ==> us[k].words.items == Lexical(old(us[k].words.items))
  {
    for k := 0 to |us|
      invariant forall i :: 0 <= i < k ==> us[i].words.items == Lexical(old(us[i].words.items))
      invariant forall i :: k <= i < |us| ==> us[i].words.items == old(us[i].words.items)
    {
      Refill(us[k].words, Lexical(us[k].words.items));
    }
  }

  /** DefaultMetricsCanonicalEvaluator. */
  class DefaultMetricsEvaluator {
    const config: EvaluatorConfig

    constructor(config: EvaluatorConfig)
      ensures this.config == config
    {
      this.config := config;
    }

    /**
     * `evaluate`: every utterance's words become their evaluation; the transcription object
     * itself is returned, with the same utterances and their other fields untouched.
     */
    method Evaluate(t: TranscriptionMessage) returns (r: TranscriptionMessage)
      requires Owned(t.utterances)
      modifies Lists(t.utterances)
      ensures r == t && t.utterances == old(t.utterances)
      ensures forall k :: 0 <= k < |t.utterances| ==>
        t.utterances[k].words.items == Evaluated(config, old(t.utterances[k].words.items))
      ensures forall k :: 0 <= k < |t.utterances| ==>
        var u := t.utterances[k];
        (u.id, u.language, u.note, u.speakerId, u.startTime, u.endTime) ==
        old((u.id, u.language, u.note, u.speakerId, u.startTime, u.endTime))
    {
      r := t;
      var us := r.utterances;
      if !config.punctuation {
        RemovePunctuation(us);
      }
      if !config.stopWords {
        ReextendAliased(us);
      }
      if !config.elisions {
        ReextendAliased(us);
      }
      if !config.diacritics {
        ReextendAliased(us);
      }
      if !config.apocopes {
        ReextendAliased(us);
      }
    }
  }

  /** ExternalToolMetricsCanonicalEvaluator: drops placeholders, then evaluates as the default. */
  class ExternalToolMetricsEvaluator {
    /** The inherited default evaluation, with the same configuration. */
    const base: DefaultMetricsEvaluator

    constructor(config: EvaluatorConfig)
      ensures base.config == config
    {
      base := new DefaultMetricsEvaluator(config);
    }

    /** `evaluate`: the words become the evaluation of their lexical tokens; same object back. */
    method Evaluate(t: TranscriptionMessage) returns (r: TranscriptionMessage)
      requires Owned(t.utterances)
      modifies Lists(t.utterances)
      ensures r == t && t.utterances == old(t.utterances)
      ensures forall k :: 0 <= k < |t.utterances| ==>
        t.utterances[k].words.items == Evaluated(base.config, Lexical(old(t.utterances[k].words.items)))
      ensures forall k :: 0 <= k < |t.utterances| ==>
        var u := t.utterances[k];
        (u.id, u.language, u.note, u.speakerId, u.startTime, u.endTime) ==
        old((u.id, u.language, u.note, u.speakerId, u.startTime, u.endTime))
    {
      RemovePlaceholders(t.utterances);
      r := base.Evaluate(t);
    }
  }
}
