/**
 * The cursors with which the cloud-service translators walk the words of a recognition
 * response: GoogleTranscriptionFileStatus over the results of a Speech-to-Text response (the
 * first alternative of each result) and AmazonTranscriptionFileStatus over the items of an
 * AWS Transcribe response. A cursor holds the response and its current indices and is moved
 * forward in place. Parsing the responses and the time-window arithmetic of the translators
 * are not part of this model.
 */
module Translators {
  import opened Wrappers

  /** Python's IndexError on a list subscript out of range. */
  datatype CursorError = IndexError

  /** A word of a Google result alternative; the times are taken as given. */
  datatype WordInfo = WordInfo(word: string, startTime: real, endTime: real)

  datatype Alternative = Alternative(words: seq<WordInfo>)

  datatype SpeechResult = SpeechResult(alternatives: seq<Alternative>)

  /** The indices of a Google cursor: a result and a word of its first alternative. */
  datatype Position = Position(result: nat, word: nat)

  /** The words of the first alternative of a result (none when it has no alternative). */
  function FirstWords(r: SpeechResult): seq<WordInfo> {
    if r.alternatives == [] then [] else r.alternatives[0].words
  }

  /** Every result has an alternative, and its first alternative has a word. */
  predicate WellFormed(results: seq<SpeechResult>) {
    forall i :: 0 <= i < |results| ==> results[i].alternatives != [] && FirstWords(results[i]) != []
  }

  /** The position names a word of the response. */
  predicate InBounds(results: seq<SpeechResult>, p: Position) {
    p.result < |results| && results[p.result].alternatives != [] && p.word < |FirstWords(results[p.result])|
  }

  /** Every word of the response in reading order: result after result, first alternatives only. */
  function Flat(results: seq<SpeechResult>): seq<WordInfo> {
    if results == [] then [] else Flat(results[..|results| - 1]) + FirstWords(results[|results| - 1])
  }

  /** How many words of the response come before the position. */
  function Rank(results: seq<SpeechResult>, p: Position): nat
    requires p.result <= |results|
  {
    |Flat(results[..p.result])| + p.word
  }

  /** The words of the first results are where the words of the response begin. */
  lemma {:induction false} FlatPrefix(results: seq<SpeechResult>, i: nat)
    requires i <= |results|
    ensures |Flat(results[..i])| <= |Flat(results)|
    ensures Flat(results[..i]) == Flat(results)[..|Flat(results[..i])|]
  {
    if i < |results| {
      var init := results[..|results| - 1];
      assert init[..i] == results[..i];
      FlatPrefix(init, i);
    } else {
      assert results[..i] == results;
    }
  }

  /** `_get_current_word`: the word at the cursor, or IndexError from one of its three subscripts. */
  function WordAt(results: seq<SpeechResult>, p: Position): (r: Result<WordInfo, CursorError>)
    ensures r.Ok? <==> InBounds(results, p)
  {
    if p.result >= |results| then Err(IndexError)
    else if results[p.result].alternatives == [] then Err(IndexError)
    else if p.word >= |results[p.result].alternatives[0].words| then Err(IndexError)
    else Ok(results[p.result].alternatives[0].words[p.word])
  }

  /** The word at a position in bounds is the word of that rank in reading order. */
  lemma WordAtFlat(results: seq<SpeechResult>, p: Position)
    requires InBounds(results, p)
    ensures Rank(results, p) < |Flat(results)|
    ensures WordAt(results, p) == Ok(Flat(results)[Rank(results, p)])
  {
    var r := p.result;
    var upto := results[..r + 1];
    FlatPrefix(results, r + 1);
    assert upto[..r] == results[..r] && upto[r] == results[r];
    assert Flat(upto) == Flat(results[..r]) + FirstWords(results[r]);
    assert Flat(upto)[Rank(results, p)] == results[r].alternatives[0].words[p.word];
  }

  /**
   * `move_forward` on the indices: IndexError when the current result or its first alternative
   * is missing, no move (None, the call's False) at the last word of the last result, the
   * first word of the next result after the last word of a result, else the next word.
   */
  function Advance(results: seq<SpeechResult>, p: Position): Result<Option<Position>, CursorError> {
    if p.result >= |results| || results[p.result].alternatives == [] then Err(IndexError)
    else if |results[p.result].alternatives[0].words| == p.word + 1 then
      if |results| == p.result + 1 then Ok(None) else Ok(Some(Position(p.result + 1, 0)))
    else Ok(Some(Position(p.result, p.word + 1)))
  }

  /**
   * On a well-formed response, a move from a word never fails; it stops exactly at the last
   * word, and otherwise reaches a word whose rank is one more.
   */
  lemma AdvanceSpec(results: seq<SpeechResult>, p: Position)
    requires WellFormed(results) && InBounds(results, p)
    ensures Advance(results, p).Ok?
    ensures Advance(results, p) == Ok(None) <==> Rank(results, p) + 1 == |Flat(results)|
    ensures Advance(results, p).Ok? && Advance(results, p).value.Some? ==>
      var q := Advance(results, p).value.value;
      InBounds(results, q) && Rank(results, q) == Rank(results, p) + 1
  {
    var r := p.result;
    WordAtFlat(results, p);
    assert results[..r + 1][..r] == results[..r];
    if |FirstWords(results[r])| == p.word + 1 {
      if |results| == r + 1 {
        assert results[..r + 1] == results;
      } else {
        WordAtFlat(results, Position(r + 1, 0));
      }
    } else {
      WordAtFlat(results, Position(r, p.word + 1));
    }
  }

  /**
   * The cursor of a fresh status after k calls of `move_forward`: Some(position) while the calls
   * returned True, None once one returned False, or the IndexError one of them raised.
   */
  function Walk(results: seq<SpeechResult>, k: nat): Result<Option<Position>, CursorError> {
    if k == 0 then Ok(Some(Position(0, 0)))
    else match Walk(results, k - 1)
      case Ok(Some(q)) => Advance(results, q)
      case other => other
  }

  /**
   * A fresh cursor over a well-formed response visits every word exactly once, in reading
   * order: after k moves it is at the k-th word, and the move after the last word returns False.
   */
  lemma {:induction false} WalkVisitsEveryWord(results: seq<SpeechResult>, k: nat)
    requires WellFormed(results) && results != [] && k <= |Flat(results)|
    ensures k < |Flat(results)| ==> (
      Walk(results, k).Ok? && Walk(results, k).value.Some? &&
      var q := Walk(results, k).value.value;
      InBounds(results, q) && Rank(results, q) == k && WordAt(results, q) == Ok(Flat(results)[k]))
    ensures k == |Flat(results)| ==> Walk(results, k) == Ok(None)
  {
    if k == 0 {
      assert results[..0] == [];
      WordAtFlat(results, Position(0, 0));
    } else {
      WalkVisitsEveryWord(results, k - 1);
      var q := Walk(results, k - 1).value.value;
      AdvanceSpec(results, q);
      if k < |Flat(results)| {
        WordAtFlat(results, Advance(results, q).value.value);
      }
    }
  }

  /** GoogleTranscriptionFileStatus. */
  class GoogleCursor {
    const results: seq<SpeechResult>
    var wordIndex: nat
    var resultIndex: nat

    constructor(results: seq<SpeechResult>, wordIndex: nat, resultIndex: nat)
      ensures this.results == results && this.wordIndex == wordIndex && this.resultIndex == resultIndex
    {
      this.results := results;
      this.wordIndex := wordIndex;
      this.resultIndex := resultIndex;
    }

    /** The indices of the cursor. */
    function At(): Position
      reads this
    {
      Position(resultIndex, wordIndex)
    }

    /**
     * `_get_current_word`: the word of that rank in reading order when the cursor is on a word,
     * IndexError otherwise.
     */
    method CurrentWord() returns (r: Result<WordInfo, CursorError>)
      ensures r.Ok? <==> InBounds(results, Position(resultIndex, wordIndex))
      ensures r.Ok? ==> (
        Rank(results, Position(resultIndex, wordIndex)) < |Flat(results)| &&
        r.value == Flat(results)[Rank(results, Position(resultIndex, wordIndex))])
    {
      if resultIndex >= |results| || |results[resultIndex].alternatives| == 0 {
        return Err(IndexError);
      }
      var alternative := results[resultIndex].alternatives[0];
      if wordIndex >= |alternative.words| {
        return Err(IndexError);
      }
      r := Ok(alternative.words[wordIndex]);
      WordAtFlat(results, Position(resultIndex, wordIndex));
    }

    /**
     * `move_forward`: the indices become those `Advance` gives, and are left as they were when it
     * raises or returns False. From a word of a well-formed response it never raises, stays on a
     * word, and returns False exactly at the last word.
     */
    method MoveForward() returns (r: Result<bool, CursorError>)
      modifies this
      ensures match Advance(results, old(At()))
        case Err(e) => r == Err(e) && At() == old(At())
        case Ok(None) => r == Ok(false) && At() == old(At())
        case Ok(Some(q)) => r == Ok(true) && At() == q
      ensures WellFormed(results) && InBounds(results, old(At())) ==>
        r.Ok? && InBounds(results, At()) && (r == Ok(false) <==> Rank(results, old(At())) + 1 == |Flat(results)|)
    {
      if WellFormed(results) && InBounds(results, At()) {
        AdvanceSpec(results, At());
      }
      var currentResult := resultIndex;
      var currentWord := wordIndex;
      if currentResult >= |results| || |results[currentResult].alternatives| == 0 {
        return Err(IndexError);
      }
      var alternative := results[currentResult].alternatives[0];
      if |alternative.words| == currentWord + 1 {
        if |results| == currentResult + 1 {
          return Ok(false);
        }
        wordIndex := 0;
        resultIndex := resultIndex + 1;
      } else {
        wordIndex := wordIndex + 1;
      }
      r := Ok(true);
    }
  }

  /** An item of an AWS Transcribe response: its 'type' and the 'content' of each alternative. */
  datatype AwsItem = AwsItem(itemType: string, contents: seq<string>)

  /** AmazonTranscriptionFileStatus. */
  class AwsCursor {
    const items: seq<AwsItem>
    var wordIndex: nat

    constructor(items: seq<AwsItem>, wordIndex: nat)
      ensures this.items == items && this.wordIndex == wordIndex
    {
      this.items := items;
      this.wordIndex := wordIndex;
    }

    /** `_get_current_word`: the item at the index, IndexError past the end. */
    method CurrentWord() returns (r: Result<AwsItem, CursorError>)
      ensures r.Ok? <==> wordIndex < |items|
      ensures r.Ok? ==> r.value == items[wordIndex]
    {
      if wordIndex < |items| {
        r := Ok(items[wordIndex]);
      } else {
        r := Err(IndexError);
      }
    }

    /** `is_current_word_punctuation`: whether the current item has type 'punctuation'. */
    method IsCurrentWordPunctuation() returns (r: Result<bool, CursorError>)
      ensures r.Ok? <==> wordIndex < |items|
      ensures r.Ok? ==> (r.value <==> items[wordIndex].itemType == "punctuation")
    {
      var current := CurrentWord();
      if current.Err? {
        return Err(current.error);
      }
      r := Ok(current.value.itemType == "punctuation");
    }

    /**
     * `move_forward`: False with the index unchanged when the index is that of the last item;
     * otherwise the index grows by one and the call returns True, even past the end, since only
     * the length of the items is consulted. From an item it therefore stays on an item.
     */
    method MoveForward() returns (r: bool)
      modifies this
      ensures |items| == old(wordIndex) + 1 ==> !r && wordIndex == old(wordIndex)
      ensures |items| != old(wordIndex) + 1 ==> r && wordIndex == old(wordIndex) + 1
      ensures old(wordIndex) < |items| ==> wordIndex < |items| && (!r <==> old(wordIndex) == |items| - 1)
    {
      var current := wordIndex;
      if |items| == current + 1 {
        return false;
      }
      wordIndex := wordIndex + 1;
      r := true;
    }
  }
}
