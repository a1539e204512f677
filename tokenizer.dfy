/**
 * The canonical tokenizers (DefaultCanonicalTokenizer and TEICanonicalTokenizer): one raw
 * word with its times becomes canonical tokens. Special characters are removed, trailing
 * punctuation is split off, and the pronunciation part goes through the configured stages
 * (lower case, numbers to words, apostrophe split and three stages that keep tokens as they are).
 */
module Tokenizer {
  import opened Canonical
  import opened Wrappers
  import Text

  const SpecialCharacters: string := "\"#$%()/<=>@[\\]^_`{|}~"
  const AllowedPunctuation: string := "!,-.:;?"

  // ---------------------------------------------------------------------------------------
  // Cleaning.
  // ---------------------------------------------------------------------------------------

  /**
   * The characters the substitution pattern built from SpecialCharacters matches. Inside the
   * pattern's character class the backslash escapes the closing bracket that follows it, so
   * the backslash itself is not among them.
   */
  predicate MatchedAsWritten(c: char) {
    c in SpecialCharacters && c != '\\'
  }

  /** The cleaning as written: the characters the pattern matches are removed. */
  function CleanAsWritten(word: string): (r: string)
    ensures |r| <= |word|
    ensures forall c :: c in r ==> c in word && !MatchedAsWritten(c)
  {
    if word == [] then []
    else CleanAsWritten(word[..|word| - 1]) + (if MatchedAsWritten(word[|word| - 1]) then [] else [word[|word| - 1]])
  }

  /**
   * The backslash is one of the special characters, yet the cleaning as written keeps a lone
   * backslash, where the intended cleaning removes it.
   */
  lemma BackslashSurvivesAsWritten()
    ensures '\\' in SpecialCharacters
    ensures CleanAsWritten("\\") == "\\"
    ensures Clean("\\") == ""
  {
    assert SpecialCharacters[12] == '\\';
    assert "\\"[..0] == [];
  }

  /** The cleaning intended: every special character is removed, every other one is kept. */
  function Clean(word: string): (r: string)
    ensures |r| <= |word|
    ensures forall c :: c in r ==> c in word && c !in SpecialCharacters
    ensures forall c :: c in word && c !in SpecialCharacters ==> c in r
  {
    if word == [] then []
    else Clean(word[..|word| - 1]) + (if word[|word| - 1] in SpecialCharacters then [] else [word[|word| - 1]])
  }

  /** The two cleanings differ only on backslashes: on a word without one they agree. */
  lemma {:induction false} CleanAgreesWithoutBackslash(word: string)
    requires '\\' !in word
    ensures CleanAsWritten(word) == Clean(word)
  {
    if word != [] {
      assert word[|word| - 1] in word;
      var init := word[..|word| - 1];
      assert forall c :: c in init ==> c in word;
      CleanAgreesWithoutBackslash(init);
    }
  }

  /** `a in b` on strings: `a` occurs in `b` as a contiguous piece. */
  predicate IsSubstring(a: string, b: string) {
    exists i :: 0 <= i <= |b| - |a| && PieceAt(a, b, i)
  }

  /** `a` occurs in `b` at position `i`. */
  predicate PieceAt(a: string, b: string, i: int) {
    0 <= i && i + |a| <= |b| && b[i..i + |a|] == a
  }

  // ---------------------------------------------------------------------------------------
  // The pronunciation stages.
  // ---------------------------------------------------------------------------------------

  /** The 'tokenizer' configuration section: which stages run. */
  datatype TokenizerConfig = TokenizerConfig(
    lowercase: bool, numbersToWord: bool, splitApostrophes: bool,
    expandContractedWords: bool, expandCompoundWords: bool, multiSpelledWords: bool)

  /**
   * A tokenizer for one language. Unicode lower-casing (`str.lower`) and the spelling of a
   * number in that language (`num2words`) are supplied from outside.
   */
  datatype DefaultTokenizer = DefaultTokenizer(
    languageCode: string, config: TokenizerConfig,
    lower: string -> string, numberWords: (nat, string) -> string)

  /** A new token for `w` with the times and type of `t` (and, being new, no events). */
  function Respelled(w: string, t: Token): (u: Token)
    ensures u.word == w && SameSlot(u, t)
  {
    Token(w, t.tokenType, t.startTime, t.endTime, [])
  }

  /** `u` sits where `t` sits: same times and same type. */
  predicate SameSlot(u: Token, t: Token) {
    u.startTime == t.startTime && u.endTime == t.endTime && u.tokenType == t.tokenType
  }

  /** New tokens for each of `ws`, in order, all in the slot of `t`. */
  function Respell(ws: seq<string>, t: Token): (r: seq<Token>)
    ensures |r| == |ws| && forall k :: 0 <= k < |ws| ==> r[k].word == ws[k] && SameSlot(r[k], t)
  {
    seq(|ws|, k requires 0 <= k < |ws| => Respelled(ws[k], t))
  }

  /** The tokens every token of `ts` becomes under `f`, one after the other. */
  function Expand(ts: seq<Token>, f: Token -> seq<Token>): seq<Token> {
    if ts == [] then [] else Expand(ts[..|ts| - 1], f) + f(ts[|ts| - 1])
  }

  /** `isdigit` on ASCII: a non-empty run of decimal digits. */
  predicate IsDigits(s: string) {
    |s| > 0 && forall k :: 0 <= k < |s| ==> '0' <= s[k] <= '9'
  }

  /** `int(s)` for a run of decimal digits. */
  function DigitsValue(s: string): nat
    requires forall k :: 0 <= k < |s| ==> '0' <= s[k] <= '9'
  {
    if s == [] then 0 else 10 * DigitsValue(s[..|s| - 1]) + (s[|s| - 1] as int - '0' as int)
  }

  /** The `\w` class: ASCII letters and digits, the underscore, and the Latin-1 letters. */
  predicate IsWordChar(c: char) {
    ('a' <= c <= 'z') || ('A' <= c <= 'Z') || ('0' <= c <= '9') || c == '_' ||
    ('À' <= c <= 'ÿ' && c != '×' && c != '÷')
  }

  /** The length of the run of word characters of `s` that starts at `p`. */
  function WordRun(s: string, p: nat): (n: nat)
    requires p <= |s|
    ensures p + n <= |s|
    ensures forall k :: p <= k < p + n ==> IsWordChar(s[k])
    ensures p + n < |s| ==> !IsWordChar(s[p + n])
    decreases |s| - p
  {
    if p == |s| || !IsWordChar(s[p]) then 0 else 1 + WordRun(s, p + 1)
  }

  /**
   * The pattern `(\w+')(\w+)` matches at `p`: a run of word characters, an apostrophe, and a
   * word character after it. The first run is taken whole, since a shorter one is followed by
   * a word character and not by the apostrophe.
   */
  predicate MatchAt(s: string, p: nat) {
    p < |s| &&
    var n := WordRun(s, p);
    n >= 1 && p + n + 1 < |s| && s[p + n] == '\'' && IsWordChar(s[p + n + 1])
  }

  /** The leftmost position at or after `p` where the pattern matches. */
  function Search(s: string, p: nat): (r: Option<nat>)
    requires p <= |s|
    ensures r.Some? ==> p <= r.value && MatchAt(s, r.value) && forall q :: p <= q < r.value ==> !MatchAt(s, q)
    ensures r.None? ==> forall q :: p <= q <= |s| ==> !MatchAt(s, q)
    decreases |s| - p
  {
    if p == |s| then None
    else if MatchAt(s, p) then Some(p)
    else Search(s, p + 1)
  }

  /** The two groups of the match at `p`: the first run with its apostrophe, then the second run. */
  function Groups(s: string, p: nat): (r: (string, string))
    requires MatchAt(s, p)
    ensures |r.0| >= 2 && r.0[|r.0| - 1] == '\'' && forall k :: 0 <= k < |r.0| - 1 ==> IsWordChar(r.0[k])
    ensures |r.1| >= 1 && forall k :: 0 <= k < |r.1| ==> IsWordChar(r.1[k])
    ensures p + |r.0| + |r.1| <= |s| && s[p..p + |r.0| + |r.1|] == r.0 + r.1
  {
    var n := WordRun(s, p);
    var m := WordRun(s, p + n + 1);
    assert s[p..p + n + 1 + m] == s[p..p + n + 1] + s[p + n + 1..p + n + 1 + m];
    (s[p..p + n + 1], s[p + n + 1..p + n + 1 + m])
  }

  /** `re.search(r"([\w]+['])([\w]+)", word).groups()`, or nothing when there is no match. */
  function ApostropheGroups(word: string): Option<(string, string)> {
    match Search(word, 0)
    case Some(p) => Some(Groups(word, p))
    case None => None
  }

  /** A word of the form `\w+'\w+` splits into the part up to the apostrophe and the rest. */
  lemma ApostropheWord(a: string, b: string)
    requires |a| >= 1 && forall k :: 0 <= k < |a| ==> IsWordChar(a[k])
    requires |b| >= 1 && forall k :: 0 <= k < |b| ==> IsWordChar(b[k])
    ensures ApostropheGroups(a + "'" + b) == Some((a + "'", b))
  {
    var s := a + "'" + b;
    WordRunOf(s, 0, |a|);
    WordRunOf(s, |a| + 1, |b|);
    assert MatchAt(s, 0);
    assert s[0..|a| + 1] == a + "'" && s[|a| + 1..|a| + 1 + |b|] == b;
  }

  /** The run at `p` has length `n` when `n` word characters end at a non-word character or the end. */
  lemma {:induction false} WordRunOf(s: string, p: nat, n: nat)
    requires p + n <= |s|
    requires forall k :: p <= k < p + n ==> IsWordChar(s[k])
    requires p + n == |s| || !IsWordChar(s[p + n])
    ensures WordRun(s, p) == n
    decreases n
  {
    if n > 0 {
      WordRunOf(s, p + 1, n - 1);
    }
  }

  /** The lower-case stage: each token re-spelled in lower case. */
  function LowerStep(tk: DefaultTokenizer, t: Token): seq<Token> {
    [Respelled(tk.lower(t.word), t)]
  }

  /** The numbers stage: a number is replaced by the words that spell it. */
  function NumberStep(tk: DefaultTokenizer, t: Token): seq<Token> {
    if IsDigits(t.word) then Respell(Text.Words(tk.numberWords(DigitsValue(t.word), tk.languageCode)), t)
    else [t]
  }

  /** The lower-case stage of a tokenizer, as a function of one token. */
  function Lowering(tk: DefaultTokenizer): Token -> seq<Token> {
    t => LowerStep(tk, t)
  }

  /** The numbers stage of a tokenizer, as a function of one token. */
  function Numbering(tk: DefaultTokenizer): Token -> seq<Token> {
    t => NumberStep(tk, t)
  }

  /** The apostrophe stage: a token the pattern matches is replaced by its two groups. */
  function ApostropheStep(t: Token): seq<Token> {
    match ApostropheGroups(t.word)
    case Some(g) => Respell([g.0, g.1], t)
    case None => [t]
  }

  /** The three unfinished stages: each token is kept as it is. */
  function KeepStep(t: Token): seq<Token> {
    [t]
  }

  /** `_tokenize_pronunciation_word`: the enabled stages, in order. */
  function PronunciationTokens(tk: DefaultTokenizer, token: Token): seq<Token> {
    var c := tk.config;
    var s0 := [token];
    var s1 := if c.lowercase then Expand(s0, Lowering(tk)) else s0;
    var s2 := if c.numbersToWord then Expand(s1, Numbering(tk)) else s1;
    var s3 := if c.splitApostrophes then Expand(s2, ApostropheStep) else s2;
    var s4 := if c.expandContractedWords then Expand(s3, KeepStep) else s3;
    var s5 := if c.expandCompoundWords then Expand(s4, KeepStep) else s4;
    if c.multiSpelledWords then Expand(s5, KeepStep) else s5
  }

  /** A stage that keeps every token changes nothing. */
  lemma {:induction false} KeepStepIdentity(ts: seq<Token>)
    ensures Expand(ts, KeepStep) == ts
  {
    if ts != [] {
      KeepStepIdentity(ts[..|ts| - 1]);
    }
  }

  /** A stage whose every output token sits in its input token's slot keeps all tokens in `t0`'s slot. */
  lemma {:induction false} ExpandSlot(ts: seq<Token>, f: Token -> seq<Token>, t0: Token)
    requires forall t :: t in ts ==> SameSlot(t, t0)
    requires forall t, u :: t in ts && u in f(t) ==> SameSlot(u, t)
    ensures forall u :: u in Expand(ts, f) ==> SameSlot(u, t0)
  {
    if ts != [] {
      var init := ts[..|ts| - 1];
      assert forall t :: t in init ==> t in ts;
      ExpandSlot(init, f, t0);
      assert ts[|ts| - 1] in ts;
    }
  }

  lemma StepsKeepSlot(tk: DefaultTokenizer, t: Token)
    ensures forall u :: u in LowerStep(tk, t) ==> SameSlot(u, t)
    ensures forall u :: u in NumberStep(tk, t) ==> SameSlot(u, t)
    ensures forall u :: u in ApostropheStep(t) ==> SameSlot(u, t)
    ensures forall u :: u in KeepStep(t) ==> SameSlot(u, t)
  {
  }

  /** Every token the stages produce keeps the start time, end time and type of the input token. */
  lemma PronunciationTokensSlot(tk: DefaultTokenizer, token: Token)
    ensures forall u :: u in PronunciationTokens(tk, token) ==> SameSlot(u, token)
  {
    var c := tk.config;
    var lower, number := Lowering(tk), Numbering(tk);
    forall t | true
      ensures forall u :: u in lower(t) ==> SameSlot(u, t)
      ensures forall u :: u in number(t) ==> SameSlot(u, t)
      ensures forall u :: u in ApostropheStep(t) ==> SameSlot(u, t)
      ensures forall u :: u in KeepStep(t) ==> SameSlot(u, t)
    {
      StepsKeepSlot(tk, t);
    }
    var s0 := [token];
    var s1 := if c.lowercase then Expand(s0, lower) else s0;
    if c.lowercase { ExpandSlot(s0, lower, token); }
    var s2 := if c.numbersToWord then Expand(s1, number) else s1;
    if c.numbersToWord { ExpandSlot(s1, number, token); }
    var s3 := if c.splitApostrophes then Expand(s2, ApostropheStep) else s2;
    if c.splitApostrophes { ExpandSlot(s2, ApostropheStep, token); }
    KeepStepIdentity(s3);
    KeepStepIdentity(s3);
    KeepStepIdentity(s3);
  }

  // ---------------------------------------------------------------------------------------
  // The stage loops.
  // ---------------------------------------------------------------------------------------

  /** The lower-case loop. */
  method LowercaseStage(tk: DefaultTokenizer, tokens: seq<Token>) returns (processed: seq<Token>)
    ensures processed == Expand(tokens, Lowering(tk))
    ensures |processed| == |tokens|
  {
    processed := [];
    for k := 0 to |tokens|
      invariant processed == Expand(tokens[..k], Lowering(tk))
      invariant |processed| == k
    {
      ExpandSnoc(tokens, Lowering(tk), k);
      var token := tokens[k];
      processed := processed + [Respelled(tk.lower(token.word), token)];
    }
    assert tokens[..|tokens|] == tokens;
  }

  /** The tokens a stage has produced grow by the next token's output. */
  lemma ExpandSnoc(ts: seq<Token>, f: Token -> seq<Token>, k: nat)
    requires k < |ts|
    ensures Expand(ts[..k + 1], f) == Expand(ts[..k], f) + f(ts[k])
  {
    assert ts[..k + 1][..k] == ts[..k];
  }

  /** The inner loop of the numbers and apostrophe stages: one token per word, in the token's slot. */
  method RespellWords(words: seq<string>, token: Token) returns (out: seq<Token>)
    ensures out == Respell(words, token)
  {
    out := [];
    for m := 0 to |words|
      invariant out == Respell(words[..m], token)
    {
      assert Respell(words[..m + 1], token) == Respell(words[..m], token) + [Respelled(words[m], token)];
      out := out + [Respelled(words[m], token)];
    }
    assert words[..|words|] == words;
  }

  /** The numbers loop: each number's spelling is split into words, one token per word. */
  method NumbersStage(tk: DefaultTokenizer, tokens: seq<Token>) returns (processed: seq<Token>)
    ensures processed == Expand(tokens, Numbering(tk))
  {
    processed := [];
    for k := 0 to |tokens|
      invariant processed == Expand(tokens[..k], Numbering(tk))
    {
      var token := tokens[k];
      var out;
      if IsDigits(token.word) {
        var words := Text.Words(tk.numberWords(DigitsValue(token.word), tk.languageCode));
        out := RespellWords(words, token);
      } else {
        out := [token];
      }
      assert out == Numbering(tk)(token);
      ExpandSnoc(tokens, Numbering(tk), k);
      processed := processed + out;
    }
    assert tokens[..|tokens|] == tokens;
  }

  /** The apostrophe loop: a matching token is replaced by its two groups. */
  method ApostropheStage(tokens: seq<Token>) returns (processed: seq<Token>)
    ensures processed == Expand(tokens, ApostropheStep)
  {
    processed := [];
    for k := 0 to |tokens|
      invariant processed == Expand(tokens[..k], ApostropheStep)
    {
      var token := tokens[k];
      var found := ApostropheGroups(token.word);
      var out;
      if found.Some? {
        out := RespellWords([found.value.0, found.value.1], token);
      } else {
        out := [token];
      }
      assert out == ApostropheStep(token);
      ExpandSnoc(tokens, ApostropheStep, k);
      processed := processed + out;
    }
    assert tokens[..|tokens|] == tokens;
  }

  /** One of the three unfinished loops: every token is appended as it is. */
  method KeepStage(tokens: seq<Token>) returns (processed: seq<Token>)
    ensures processed == tokens
  {
    processed := [];
    for k := 0 to |tokens|
      invariant processed == tokens[..k]
    {
      processed := processed + [tokens[k]];
    }
    KeepStepIdentity(tokens);
  }

  /** `_tokenize_pronunciation_word`: the enabled stages run one after the other. */
  method TokenizePronunciationWord(tk: DefaultTokenizer, token: Token) returns (tokens: seq<Token>)
    ensures tokens == PronunciationTokens(tk, token)
    ensures forall u :: u in tokens ==> SameSlot(u, token)
  {
    tokens := [token];
    if tk.config.lowercase {
      tokens := LowercaseStage(tk, tokens);
    }
    if tk.config.numbersToWord {
      tokens := NumbersStage(tk, tokens);
    }
    if tk.config.splitApostrophes {
      tokens := ApostropheStage(tokens);
    }
    ghost var s3 := tokens;
    KeepStepIdentity(s3);
    if tk.config.expandContractedWords {
      tokens := KeepStage(tokens);
    }
    if tk.config.expandCompoundWords {
      tokens := KeepStage(tokens);
    }
    if tk.config.multiSpelledWords {
      tokens := KeepStage(tokens);
    }
    PronunciationTokensSlot(tk, token);
  }

  // ---------------------------------------------------------------------------------------
  // tokenize.
  // ---------------------------------------------------------------------------------------

  /** What `tokenize` gives: None for an empty word, a token list, or the IndexError it raises. */
  datatype Tokenized = NoWord | Tokens(tokens: seq<Token>) | IndexError

  /** A pronunciation token built from a word and its times. */
  function PronunciationToken(word: string, startTime: real, endTime: real): Token {
    Token(word, Pronunciation, startTime, endTime, [])
  }

  /** A punctuation token built from a word and its times. */
  function PunctuationToken(word: string, startTime: real, endTime: real): Token {
    Token(word, Punctuation, startTime, endTime, [])
  }

  /**
   * What `tokenize` does with the cleaned word: an empty one raises at `cleaned_word[-1]`; a
   * piece of the allowed punctuation is one punctuation token; a final allowed punctuation
   * character is split off behind the pronunciation tokens of the rest.
   */
  function Separate(tk: DefaultTokenizer, cleaned: string, startTime: real, endTime: real): (r: Tokenized)
    ensures r.Tokens? <==> cleaned != ""
    ensures r.IndexError? <==> cleaned == ""
  {
    if cleaned == "" then IndexError
    else
      var last := cleaned[|cleaned| - 1];
      if IsSubstring(cleaned, AllowedPunctuation) then Tokens([PunctuationToken(cleaned, startTime, endTime)])
      else if last in AllowedPunctuation then
        Tokens(PronunciationTokens(tk, PronunciationToken(cleaned[..|cleaned| - 1], startTime, endTime)) +
               [PunctuationToken([last], startTime, endTime)])
      else Tokens(PronunciationTokens(tk, PronunciationToken(cleaned, startTime, endTime)))
  }

  /** `DefaultCanonicalTokenizer.tokenize`, with the intended cleaning. */
  function Tokenize(tk: DefaultTokenizer, word: string, startTime: real, endTime: real): (r: Tokenized)
    ensures r.Tokens? <==> word != "" && Clean(word) != ""
  {
    if word == "" then NoWord else Separate(tk, Clean(word), startTime, endTime)
  }

  /** `DefaultCanonicalTokenizer.tokenize` as written, with the cleaning that keeps backslashes. */
  function TokenizeAsWritten(tk: DefaultTokenizer, word: string, startTime: real, endTime: real): (r: Tokenized)
    ensures r.Tokens? <==> word != "" && CleanAsWritten(word) != ""
  {
    if word == "" then NoWord else Separate(tk, CleanAsWritten(word), startTime, endTime)
  }

  /** A string whose last character is missing from `b` is not a piece of `b`. */
  lemma NotSubstring(a: string, b: string)
    requires |a| > 0 && a[|a| - 1] !in b
    ensures !IsSubstring(a, b)
  {
    forall i | 0 <= i <= |b| - |a|
      ensures !PieceAt(a, b, i)
    {
      assert b[i + |a| - 1] in b;
    }
  }

  /**
   * The two tokenizations agree on every word without a backslash. On a word holding one
   * they part: a lone backslash is a pronunciation token as written and an IndexError as
   * intended, and `a\` keeps its backslash as written where the intended cleaning drops it.
   */
  lemma TokenizeAsWrittenOutcomes(tk: DefaultTokenizer, word: string, startTime: real, endTime: real)
    ensures '\\' !in word ==> TokenizeAsWritten(tk, word, startTime, endTime) == Tokenize(tk, word, startTime, endTime)
    ensures word == "\\" ==>
      TokenizeAsWritten(tk, word, startTime, endTime) == Tokens(PronunciationTokens(tk, PronunciationToken("\\", startTime, endTime))) &&
      Tokenize(tk, word, startTime, endTime) == IndexError
    ensures word == "a\\" ==>
      TokenizeAsWritten(tk, word, startTime, endTime) == Tokens(PronunciationTokens(tk, PronunciationToken("a\\", startTime, endTime))) &&
      Tokenize(tk, word, startTime, endTime) == Tokens(PronunciationTokens(tk, PronunciationToken("a", startTime, endTime)))
  {
    if '\\' !in word {
      CleanAgreesWithoutBackslash(word);
    }
    if word == "\\" {
      LoneBackslashTokenized(tk, startTime, endTime);
    }
    if word == "a\\" {
      TrailingBackslashTokenized(tk, startTime, endTime);
    }
  }

  /** A lone backslash: a pronunciation token as written, an IndexError as intended. */
  lemma LoneBackslashTokenized(tk: DefaultTokenizer, startTime: real, endTime: real)
    ensures TokenizeAsWritten(tk, "\\", startTime, endTime) == Tokens(PronunciationTokens(tk, PronunciationToken("\\", startTime, endTime)))
    ensures Tokenize(tk, "\\", startTime, endTime) == IndexError
  {
    BackslashSurvivesAsWritten();
    NotSubstring("\\", AllowedPunctuation);
  }

  /** The word a-backslash: tokenized with its backslash as written, without it as intended. */
  lemma TrailingBackslashTokenized(tk: DefaultTokenizer, startTime: real, endTime: real)
    ensures TokenizeAsWritten(tk, "a\\", startTime, endTime) == Tokens(PronunciationTokens(tk, PronunciationToken("a\\", startTime, endTime)))
    ensures Tokenize(tk, "a\\", startTime, endTime) == Tokens(PronunciationTokens(tk, PronunciationToken("a", startTime, endTime)))
  {
    TrailingBackslashCleaned();
    NotSubstring("a\\", AllowedPunctuation);
    NotSubstring("a", AllowedPunctuation);
  }

  lemma TrailingBackslashCleaned()
    ensures CleanAsWritten("a\\") == "a\\" && Clean("a\\") == "a"
  {
    assert "a\\"[..1] == "a" && "a"[..0] == [];
    assert CleanAsWritten("a") == "a" && Clean("a") == "a";
  }

  /** The number of punctuation tokens of a list. */
  function PunctuationCount(ts: seq<Token>): nat {
    if ts == [] then 0 else PunctuationCount(ts[..|ts| - 1]) + (if ts[|ts| - 1].tokenType == Punctuation then 1 else 0)
  }

  /** A list of tokens none of which is punctuation counts none. */
  lemma {:induction false} NoPunctuationCount(ts: seq<Token>)
    requires forall t :: t in ts ==> t.tokenType != Punctuation
    ensures PunctuationCount(ts) == 0
  {
    if ts != [] {
      assert ts[|ts| - 1] in ts;
      assert forall t :: t in ts[..|ts| - 1] ==> t in ts;
      NoPunctuationCount(ts[..|ts| - 1]);
    }
  }

  /** The pronunciation tokens of a cleaned word: its slot, no events, no punctuation. */
  lemma PronunciationPart(tk: DefaultTokenizer, base: string, startTime: real, endTime: real)
    ensures var ps := PronunciationTokens(tk, PronunciationToken(base, startTime, endTime));
      PunctuationCount(ps) == 0 &&
      forall t :: t in ps ==>
        t.startTime == startTime && t.endTime == endTime && t.events == [] && t.tokenType == Pronunciation
  {
    var token := PronunciationToken(base, startTime, endTime);
    PronunciationTokensSlot(tk, token);
    PronunciationEvents(tk, token);
    NoPunctuationCount(PronunciationTokens(tk, token));
  }

  /** Pronunciation tokens followed by one punctuation token count exactly one punctuation token. */
  lemma {:induction false} TrailingPunctuation(ps: seq<Token>, tail: Token)
    requires PunctuationCount(ps) == 0 && tail.tokenType == Punctuation
    ensures PunctuationCount(ps + [tail]) == 1
  {
    assert (ps + [tail])[..|ps|] == ps;
  }

  /**
   * The outcomes of `tokenize`. A word that is a piece of the allowed punctuation is one
   * punctuation token. A word that ends in allowed punctuation gives pronunciation tokens and
   * then exactly one punctuation token, that final character. Any other word gives
   * pronunciation tokens only. All tokens carry the word's times and no events.
   */
  lemma TokenizeSpec(tk: DefaultTokenizer, word: string, startTime: real, endTime: real)
    ensures var r := Tokenize(tk, word, startTime, endTime);
      (r == NoWord <==> word == "") &&
      (r == IndexError <==> word != "" && Clean(word) == "") &&
      (r.Tokens? ==>
        var cleaned := Clean(word);
        (forall t :: t in r.tokens ==> t.startTime == startTime && t.endTime == endTime && t.events == []) &&
        (IsSubstring(cleaned, AllowedPunctuation) ==> r.tokens == [PunctuationToken(cleaned, startTime, endTime)]) &&
        (!IsSubstring(cleaned, AllowedPunctuation) && cleaned[|cleaned| - 1] in AllowedPunctuation ==>
          |r.tokens| > 0 && r.tokens[|r.tokens| - 1] == PunctuationToken([cleaned[|cleaned| - 1]], startTime, endTime) &&
          PunctuationCount(r.tokens) == 1) &&
        (!IsSubstring(cleaned, AllowedPunctuation) && cleaned[|cleaned| - 1] !in AllowedPunctuation ==>
          PunctuationCount(r.tokens) == 0))
  {
    var r := Tokenize(tk, word, startTime, endTime);
    if r.Tokens? {
      var cleaned := Clean(word);
      if !IsSubstring(cleaned, AllowedPunctuation) {
        var last := cleaned[|cleaned| - 1];
        if last in AllowedPunctuation {
          var base := cleaned[..|cleaned| - 1];
          PronunciationPart(tk, base, startTime, endTime);
          var ps := PronunciationTokens(tk, PronunciationToken(base, startTime, endTime));
          var tail := PunctuationToken([last], startTime, endTime);
          assert r.tokens == ps + [tail];
          TrailingPunctuation(ps, tail);
        } else {
          PronunciationPart(tk, cleaned, startTime, endTime);
        }
      }
    }
  }

  /** The stages drop the events of a token only in favour of none: a token without events yields none. */
  lemma PronunciationEvents(tk: DefaultTokenizer, token: Token)
    requires token.events == []
    ensures forall u :: u in PronunciationTokens(tk, token) ==> u.events == []
  {
    var c := tk.config;
    var s0 := [token];
    var s1 := if c.lowercase then Expand(s0, Lowering(tk)) else s0;
    StageEvents(c.lowercase, s0, Lowering(tk));
    var s2 := if c.numbersToWord then Expand(s1, Numbering(tk)) else s1;
    StageEvents(c.numbersToWord, s1, Numbering(tk));
    var s3 := if c.splitApostrophes then Expand(s2, ApostropheStep) else s2;
    StageEvents(c.splitApostrophes, s2, ApostropheStep);
    KeepStepIdentity(s3);
  }

  /** A stage, enabled or not, whose step makes no events out of a token without them. */
  lemma StageEvents(on: bool, ts: seq<Token>, f: Token -> seq<Token>)
    requires forall t :: t in ts ==> t.events == []
    requires forall t, u :: t in ts && t.events == [] && u in f(t) ==> u.events == []
    ensures forall u :: u in (if on then Expand(ts, f) else ts) ==> u.events == []
  {
    if on {
      ExpandEvents(ts, f);
    }
  }

  lemma {:induction false} ExpandEvents(ts: seq<Token>, f: Token -> seq<Token>)
    requires forall t :: t in ts ==> t.events == []
    requires forall t, u :: t in ts && t.events == [] && u in f(t) ==> u.events == []
    ensures forall u :: u in Expand(ts, f) ==> u.events == []
  {
    if ts != [] {
      var init := ts[..|ts| - 1];
      assert forall t :: t in init ==> t in ts;
      ExpandEvents(init, f);
      assert ts[|ts| - 1] in ts;
    }
  }

  // ---------------------------------------------------------------------------------------
  // The TEI tokenizer.
  // ---------------------------------------------------------------------------------------

  /** The marker words of the Type B events, and the token type each one stands for. */
  function MarkerType(word: string): Option<TokenType> {
    if word == "[vocal_event]" then Some(VocalEvent)
    else if word == "[incident_event]" then Some(IncidentEvent)
    else if word == "[gap_event]" then Some(GapEvent)
    else None
  }

  /** `TEICanonicalTokenizer.tokenize`: a marker becomes one word-less token of its type. */
  function TeiTokenize(tk: DefaultTokenizer, word: string, startTime: real, endTime: real): Tokenized {
    match MarkerType(word)
    case Some(t) => Tokens([Token("", t, startTime, endTime, [])])
    case None => Tokenize(tk, word, startTime, endTime)
  }

  /**
   * The three markers, and only they, become a single Type B token with no word; a
   * placeholder token is never produced from any other word.
   */
  lemma TeiTokenizeSpec(tk: DefaultTokenizer, word: string, startTime: real, endTime: real)
    ensures var r := TeiTokenize(tk, word, startTime, endTime);
      (MarkerType(word).Some? ==>
        r == Tokens([Token("", MarkerType(word).value, startTime, endTime, [])]) && IsTypeB(MarkerType(word).value)) &&
      (MarkerType(word).None? ==>
        r == Tokenize(tk, word, startTime, endTime) &&
        (r.Tokens? ==> forall t :: t in r.tokens ==> !IsTypeB(t.tokenType)))
  {
    if MarkerType(word).None? {
      TokenizeTypes(tk, word, startTime, endTime);
    }
  }

  /** `tokenize` yields pronunciation and punctuation tokens only. */
  lemma TokenizeTypes(tk: DefaultTokenizer, word: string, startTime: real, endTime: real)
    ensures var r := Tokenize(tk, word, startTime, endTime);
      r.Tokens? ==> forall t :: t in r.tokens ==> t.tokenType == Pronunciation || t.tokenType == Punctuation
  {
    var r := Tokenize(tk, word, startTime, endTime);
    if r.Tokens? {
      var cleaned := Clean(word);
      if !IsSubstring(cleaned, AllowedPunctuation) {
        var last := cleaned[|cleaned| - 1];
        var base := if last in AllowedPunctuation then cleaned[..|cleaned| - 1] else cleaned;
        PronunciationPart(tk, base, startTime, endTime);
      }
    }
  }
}
