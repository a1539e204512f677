/**
 * The canonical transcription records shared by every component: tokens, the events attached
 * to them, and utterances. They mirror the protobuf messages CanonicalToken, CanonicalTokenEvent
 * and CanonicalUtterance; the .proto file itself is not part of this model.
 */
module Canonical {

  /** The kind of a canonical token. The last three are the "Type B" event placeholders. */
  datatype TokenType = Pronunciation | Punctuation | VocalEvent | IncidentEvent | GapEvent

  /** The linguistic event categories of a TEI annotation (UtteranceEventType). */
  datatype EventType =
    | Unknown | Foreign | Unclear | Vocal | Shift | Incident | Gap | Del | Overlap | Note | Distinct

  /** An event attached to a token: its category and its ordered key/value properties. */
  datatype Event = Event(eventType: EventType, properties: seq<(string, string)>)

  /**
   * A canonical token. A protobuf string field that is never set reads as "", so a token
   * built without a word (an event marker, or the placeholder of an absent word) has word "".
   * Times are kept as real numbers and only ever copied.
   */
  datatype Token = Token(word: string, tokenType: TokenType, startTime: real, endTime: real, events: seq<Event>)

  /** An utterance of a canonical transcription. */
  datatype Utterance = Utterance(
    id: string, language: string, note: string, speakerId: string,
    startTime: real, endTime: real, words: seq<Token>)

  /** The token that `CanonicalToken(word=None)` builds: no word, no events, zero times. */
  const Wordless: Token := Token("", Pronunciation, 0.0, 0.0, [])

  /** The Type B token types (vocal noise, incident, gap): placeholders that replace a word. */
  predicate IsTypeB(t: TokenType) {
    t == VocalEvent || t == IncidentEvent || t == GapEvent
  }

  /** The upper-case name of an event category, as stored in a canonical event. */
  function EventTypeName(t: EventType): (r: string)
    ensures |r| > 0 && forall c :: c in r ==> 'A' <= c <= 'Z'
  {
    match t
    case Unknown => "UNKNOWN"
    case Foreign => "FOREIGN"
    case Unclear => "UNCLEAR"
    case Vocal => "VOCAL"
    case Shift => "SHIFT"
    case Incident => "INCIDENT"
    case Gap => "GAP"
    case Del => "DEL"
    case Overlap => "OVERLAP"
    case Note => "NOTE"
    case Distinct => "DISTINCT"
  }

  /** The tokens of `s` that satisfy `keep`, in their original order. */
  function Filter(s: seq<Token>, keep: Token -> bool): (r: seq<Token>)
    ensures |r| <= |s|
    ensures forall t :: t in r ==> t in s && keep(t)
    ensures forall t :: t in s && keep(t) ==> t in r
  {
    if s == [] then [] else Filter(s[..|s| - 1], keep) + (if keep(s[|s| - 1]) then [s[|s| - 1]] else [])
  }

  /** The lexical tokens of a reference: every token that is not a Type B event placeholder. */
  function Lexical(s: seq<Token>): seq<Token> {
    Filter(s, (t: Token) => !IsTypeB(t.tokenType))
  }

  /** Filtering a list extended by one token filters the list, then that token. */
  lemma LexicalSnoc(s: seq<Token>, t: Token)
    ensures Lexical(s + [t]) == Lexical(s) + (if IsTypeB(t.tokenType) then [] else [t])
  {
    assert (s + [t])[..|s|] == s;
  }

  /** `r` can be obtained from `s` by deleting tokens: it keeps their order. */
  predicate Subsequence(r: seq<Token>, s: seq<Token>)
    decreases |s|
  {
    if r == [] then true
    else if s == [] then false
    else (r[|r| - 1] == s[|s| - 1] && Subsequence(r[..|r| - 1], s[..|s| - 1])) || Subsequence(r, s[..|s| - 1])
  }

  /** Filtering keeps the surviving tokens in their original order. */
  lemma {:induction false} FilterSubsequence(s: seq<Token>, keep: Token -> bool)
    ensures Subsequence(Filter(s, keep), s)
  {
    if s != [] {
      var init := s[..|s| - 1];
      FilterSubsequence(init, keep);
      if keep(s[|s| - 1]) {
        var r := Filter(s, keep);
        assert r == Filter(init, keep) + [s[|s| - 1]];
        assert r[..|r| - 1] == Filter(init, keep);
      } else {
        assert Filter(s, keep) == Filter(init, keep);
      }
    }
  }

  /** Every sequence is a subsequence of itself. */
  lemma {:induction false} SubsequenceRefl(s: seq<Token>)
    ensures Subsequence(s, s)
  {
    if s != [] {
      SubsequenceRefl(s[..|s| - 1]);
    }
  }

  /** A subsequence of a subsequence is a subsequence. */
  lemma {:induction false} SubsequenceTrans(a: seq<Token>, b: seq<Token>, c: seq<Token>)
    requires Subsequence(a, b) && Subsequence(b, c)
    ensures Subsequence(a, c)
    decreases |c|
  {
    if a != [] && b != [] && c != [] {
      var a', b', c' := a[..|a| - 1], b[..|b| - 1], c[..|c| - 1];
      if b[|b| - 1] == c[|c| - 1] && Subsequence(b', c') {
        if a[|a| - 1] == b[|b| - 1] && Subsequence(a', b') {
          SubsequenceTrans(a', b', c');
        } else {
          SubsequenceTrans(a, b', c');
        }
      } else {
        SubsequenceTrans(a, b, c');
      }
    }
  }
}
