/**
 * The pure helpers of the TEI parser (TEIParser and its event parsers): tag prefixes, the
 * words of an element's text, the per-tag rules that route an event's words, and the
 * flattening of nested events into utterance words that carry their stacked events.
 * An XML element is given as a value; parsing the document is not part of this model.
 */
module Tei {
  import opened Wrappers
  import opened Canonical
  import Text
  import Tokenizer

  // ---------------------------------------------------------------------------------------
  // Tag prefixes.
  // ---------------------------------------------------------------------------------------

  /** The namespace prefix of TEI tags, `{` + the TEI namespace + `}`. */
  const TeiPrefix: string := "{http://www.tei-c.org/ns/1.0}"

  /** The namespace prefix of XML attributes, `{` + the XML namespace + `}`. */
  const XmlPrefix: string := "{http://www.w3.org/XML/1998/namespace}"

  predicate StartsWith(s: string, prefix: string) {
    |prefix| <= |s| && s[..|prefix|] == prefix
  }

  /** `_remove_prefix_from_tag`: the TEI prefix if present, else the XML prefix, else nothing. */
  function RemovePrefix(tag: string): (r: string)
    ensures |r| <= |tag| && r == tag[|tag| - |r|..]
  {
    if StartsWith(tag, TeiPrefix) then tag[|TeiPrefix|..]
    else if StartsWith(tag, XmlPrefix) then tag[|XmlPrefix|..]
    else tag
  }

  /**
   * A local name comes back from either prefix, and is left alone without one; only one
   * prefix is ever removed, so an XML prefix behind a TEI prefix stays.
   */
  lemma RemovePrefixSpec(name: string)
    requires name == [] || name[0] != '{'
    ensures RemovePrefix(TeiPrefix + name) == name
    ensures RemovePrefix(XmlPrefix + name) == name
    ensures RemovePrefix(name) == name
    ensures RemovePrefix(TeiPrefix + XmlPrefix + name) == XmlPrefix + name
  {
    TeiPrefixRemoved(name);
    TeiPrefixRemoved(XmlPrefix + name);
    assert TeiPrefix + XmlPrefix + name == TeiPrefix + (XmlPrefix + name);
    XmlPrefixRemoved(name);
    NoPrefixKept(name);
  }

  /** Whatever follows the TEI prefix is what is left of it. */
  lemma TeiPrefixRemoved(rest: string)
    ensures RemovePrefix(TeiPrefix + rest) == rest
  {
    assert (TeiPrefix + rest)[..|TeiPrefix|] == TeiPrefix;
    assert (TeiPrefix + rest)[|TeiPrefix|..] == rest;
  }

  /** Whatever follows the XML prefix is what is left of it, since the TEI prefix differs from it. */
  lemma XmlPrefixRemoved(rest: string)
    ensures RemovePrefix(XmlPrefix + rest) == rest
  {
    assert (XmlPrefix + rest)[..|XmlPrefix|] == XmlPrefix;
    assert (XmlPrefix + rest)[|XmlPrefix|..] == rest;
    assert (XmlPrefix + rest)[..|TeiPrefix|] != TeiPrefix by {
      assert (XmlPrefix + rest)[12] == XmlPrefix[12] != TeiPrefix[12];
    }
  }

  /** A name that does not start with a brace starts with neither prefix. */
  lemma NoPrefixKept(name: string)
    requires name == [] || name[0] != '{'
    ensures RemovePrefix(name) == name
  {
    if |name| >= |TeiPrefix| {
      assert name[..|TeiPrefix|] != TeiPrefix by { assert TeiPrefix[0] == '{'; }
    }
    if |name| >= |XmlPrefix| {
      assert name[..|XmlPrefix|] != XmlPrefix by { assert XmlPrefix[0] == '{'; }
    }
  }

  // ---------------------------------------------------------------------------------------
  // Words of a text.
  // ---------------------------------------------------------------------------------------

  /** `_get_stripped_words_from_text`: no words without text, else its whitespace-separated words. */
  function StrippedWords(text: Option<string>): (r: seq<string>)
    ensures text.None? || text.value == "" ==> r == []
    ensures forall k :: 0 <= k < |r| ==> r[k] != "" && forall c :: c in r[k] ==> !Text.IsSpace(c)
  {
    if text.None? || text.value == "" then [] else Text.Words(text.value)
  }

  /** Words written out with single spaces are read back as the same words. */
  lemma StrippedWordsJoin(ws: seq<string>)
    requires forall k :: 0 <= k < |ws| ==> ws[k] != "" && forall c :: c in ws[k] ==> !Text.IsSpace(c)
    ensures StrippedWords(Some(Text.Join(ws, ' '))) == ws
  {
    Text.WordsJoin(ws);
  }

  // ---------------------------------------------------------------------------------------
  // Flattening parsed events into words.
  // ---------------------------------------------------------------------------------------

  /** A word of a TEI utterance and the events it sits in, outermost first. */
  datatype UtteranceWord = UtteranceWord(word: string, events: seq<Event>)

  /** What an event parser yields: the event, its words, the words after it, its nested events. */
  datatype ParsedEvent = ParsedEvent(
    event: Event, eventWords: seq<string>, nonEventWords: seq<string>, subEvents: seq<ParsedEvent>)

  /** Each of `ws` as a word carrying `events`. */
  function WordsWith(ws: seq<string>, events: seq<Event>): (r: seq<UtteranceWord>)
    ensures |r| == |ws| && forall k :: 0 <= k < |ws| ==> r[k] == UtteranceWord(ws[k], events)
  {
    seq(|ws|, k requires 0 <= k < |ws| => UtteranceWord(ws[k], events))
  }

  /**
   * `_get_utterance_word_for_parsed_event`: the event words carry `wordEvents`; then come the
   * words of each nested event, which carry `wordEvents` and that nested event; then the
   * words after the event, which carry no event.
   */
  function WordsForParsedEvent(p: ParsedEvent, wordEvents: seq<Event>): seq<UtteranceWord>
    decreases p, 1
  {
    WordsWith(p.eventWords, wordEvents) + SubEventWords(p.subEvents, wordEvents) + WordsWith(p.nonEventWords, [])
  }

  /** The words of a list of nested events, one after the other. */
  function SubEventWords(subs: seq<ParsedEvent>, wordEvents: seq<Event>): seq<UtteranceWord>
    decreases subs, 0
  {
    if subs == [] then []
    else
      var last := subs[|subs| - 1];
      SubEventWords(subs[..|subs| - 1], wordEvents) + WordsForParsedEvent(last, wordEvents + [last.event])
  }

  /** The words of a parsed event in document order: its words, its nested events', the words after. */
  function FlatWords(p: ParsedEvent): seq<string>
    decreases p, 1
  {
    p.eventWords + FlatSubWords(p.subEvents) + p.nonEventWords
  }

  function FlatSubWords(subs: seq<ParsedEvent>): seq<string>
    decreases subs, 0
  {
    if subs == [] then [] else FlatSubWords(subs[..|subs| - 1]) + FlatWords(subs[|subs| - 1])
  }

  /** The words alone of a list of utterance words. */
  function Texts(ws: seq<UtteranceWord>): (r: seq<string>)
    ensures |r| == |ws| && forall k :: 0 <= k < |ws| ==> r[k] == ws[k].word
  {
    seq(|ws|, k requires 0 <= k < |ws| => ws[k].word)
  }

  /** `a` is an initial part of `b`. */
  predicate IsPrefix(a: seq<Event>, b: seq<Event>) {
    |a| <= |b| && b[..|a|] == a
  }

  /**
   * Flattening keeps every word, in document order, and gives each word either no events (a
   * word after an event) or the events it was handed followed by the events it is nested in:
   * the event's own words carry exactly the events handed in, the words after it none, and
   * the words of its nested events either none or the events handed in extended by at least one.
   */
  lemma {:induction false} FlattenSpec(p: ParsedEvent, wordEvents: seq<Event>)
    ensures Texts(WordsForParsedEvent(p, wordEvents)) == FlatWords(p)
    ensures forall w :: w in WordsForParsedEvent(p, wordEvents) ==> w.events == [] || IsPrefix(wordEvents, w.events)
    ensures var r := WordsForParsedEvent(p, wordEvents); var n := |r| - |p.nonEventWords|;
      |p.eventWords| <= n &&
      r[..|p.eventWords|] == WordsWith(p.eventWords, wordEvents) &&
      r[n..] == WordsWith(p.nonEventWords, []) &&
      forall k :: |p.eventWords| <= k < n ==>
        r[k].events == [] || (|r[k].events| > |wordEvents| && IsPrefix(wordEvents, r[k].events))
    decreases p, 1
  {
    SubEventsSpec(p.subEvents, wordEvents);
    var a, b, c := WordsWith(p.eventWords, wordEvents), SubEventWords(p.subEvents, wordEvents), WordsWith(p.nonEventWords, []);
    var r := WordsForParsedEvent(p, wordEvents);
    assert r == a + b + c;
    TextsAppend(a, b);
    TextsAppend(a + b, c);
    assert Texts(a) == p.eventWords && Texts(c) == p.nonEventWords;
    assert forall w :: w in a ==> w.events == wordEvents;
    assert r[..|a|] == a;
    assert r[|a| + |b|..] == c;
    forall k | |a| <= k < |a| + |b|
      ensures r[k].events == [] || (|r[k].events| > |wordEvents| && IsPrefix(wordEvents, r[k].events))
    {
      assert r[k] == b[k - |a|];
      assert b[k - |a|] in b;
    }
  }

  lemma {:induction false} SubEventsSpec(subs: seq<ParsedEvent>, wordEvents: seq<Event>)
    ensures Texts(SubEventWords(subs, wordEvents)) == FlatSubWords(subs)
    ensures forall w :: w in SubEventWords(subs, wordEvents) ==>
      w.events == [] || (|w.events| > |wordEvents| && IsPrefix(wordEvents, w.events))
    decreases subs, 0
  {
    if subs != [] {
      var init, last := subs[..|subs| - 1], subs[|subs| - 1];
      SubEventsSpec(init, wordEvents);
      var extended := wordEvents + [last.event];
      FlattenSpec(last, extended);
      var a, b := SubEventWords(init, wordEvents), WordsForParsedEvent(last, extended);
      assert SubEventWords(subs, wordEvents) == a + b;
      TextsAppend(a, b);
      forall w | w in b && w.events != []
        ensures |w.events| > |wordEvents| && IsPrefix(wordEvents, w.events)
      {
        PrefixOfExtended(wordEvents, last.event, w.events);
      }
    }
  }

  lemma TextsAppend(a: seq<UtteranceWord>, b: seq<UtteranceWord>)
    ensures Texts(a + b) == Texts(a) + Texts(b)
  {
  }

  /** What starts with the events and one more starts with the events. */
  lemma PrefixOfExtended(events: seq<Event>, e: Event, s: seq<Event>)
    requires IsPrefix(events + [e], s)
    ensures IsPrefix(events, s)
  {
    assert s[..|events|] == (events + [e])[..|events|];
  }

  /** The words of an utterance's top-level event carry that event first. */
  lemma TopLevelEvents(p: ParsedEvent)
    ensures forall w :: w in WordsForParsedEvent(p, [p.event]) ==> w.events == [] || w.events[0] == p.event
  {
    FlattenSpec(p, [p.event]);
  }

  // ---------------------------------------------------------------------------------------
  // Event parsers.
  // ---------------------------------------------------------------------------------------

  /** An XML element: its tag, its attributes in order, its text, its tail and its children. */
  datatype Element = Element(
    tag: string, attributes: seq<(string, string)>, text: Option<string>, tail: Option<string>, children: seq<Element>)

  /** The value of an attribute, if the element has it. */
  function Get(attributes: seq<(string, string)>, key: string): (r: Option<string>)
    ensures r.Some? <==> exists k :: 0 <= k < |attributes| && attributes[k].0 == key
  {
    if attributes == [] then None
    else if attributes[0].0 == key then Some(attributes[0].1)
    else Get(attributes[1..], key)
  }

  /** The event parser class a tag is handled by, with the event type its tag names. */
  datatype Handler = TypeA(eventType: EventType) | TypeB(eventType: EventType) | GapHandler | ShiftHandler
                   | AnchorHandler | DefaultHandler

  /** `EVENT_PARSE_HANDLER_MAPPING.get(tag, DefaultEventParser)`. */
  function HandlerFor(tag: string): Handler {
    if tag == "unclear" then TypeA(Unclear)
    else if tag == "del" then TypeA(Del)
    else if tag == "foreign" then TypeA(Foreign)
    else if tag == "vocal" then TypeB(Vocal)
    else if tag == "incident" then TypeB(Incident)
    else if tag == "gap" then GapHandler
    else if tag == "shift" then ShiftHandler
    else if tag == "anchor" then AnchorHandler
    else if tag == "distinct" then TypeA(Distinct)
    else DefaultHandler
  }

  function UpperChar(c: char): char {
    if 'a' <= c <= 'z' then (c as int - 32) as char else c
  }

  /** `s.upper()` on ASCII. */
  function Upper(s: string): (r: string)
    ensures |r| == |s| && forall k :: 0 <= k < |s| ==> r[k] == UpperChar(s[k])
  {
    seq(|s|, k requires 0 <= k < |s| => UpperChar(s[k]))
  }

  /**
   * The event type of an event, when its parser takes it from the tag
   * (`UtteranceEventType[tag.upper()]`); the anchor is always an overlap, any other tag unknown.
   */
  function EventTypeOf(tag: string): EventType {
    match HandlerFor(tag)
    case TypeA(t) => t
    case TypeB(t) => t
    case GapHandler => Gap
    case ShiftHandler => Shift
    case AnchorHandler => Overlap
    case DefaultHandler => Unknown
  }

  /** The table agrees with the tag lookup: each tag read from the tag names its own type. */
  lemma EventTypeNamesTag(tag: string)
    requires HandlerFor(tag) != AnchorHandler && HandlerFor(tag) != DefaultHandler
    ensures EventTypeName(EventTypeOf(tag)) == Upper(tag)
  {
    if HandlerFor(tag).TypeA? {
      TypeANamesTag(tag);
    } else {
      OtherNamesTag(tag);
    }
  }

  lemma TypeANamesTag(tag: string)
    requires HandlerFor(tag).TypeA?
    ensures EventTypeName(EventTypeOf(tag)) == Upper(tag)
  {
    if tag == "unclear" { NamedAs(tag, Unclear); }
    else if tag == "del" { NamedAs(tag, Del); }
    else if tag == "foreign" { NamedAs(tag, Foreign); }
    else { NamedAs(tag, Distinct); }
  }

  lemma OtherNamesTag(tag: string)
    requires !HandlerFor(tag).TypeA? && HandlerFor(tag) != AnchorHandler && HandlerFor(tag) != DefaultHandler
    ensures EventTypeName(EventTypeOf(tag)) == Upper(tag)
  {
    if tag == "vocal" { NamedAs(tag, Vocal); }
    else if tag == "incident" { NamedAs(tag, Incident); }
    else if tag == "gap" { NamedAs(tag, Gap); }
    else { NamedAs(tag, Shift); }
  }

  /** A tag of type `t` whose upper case, character by character, is the name of `t`. */
  lemma NamedAs(tag: string, t: EventType)
    requires EventTypeOf(tag) == t
    requires |tag| == |EventTypeName(t)| && forall k :: 0 <= k < |tag| ==> UpperChar(tag[k]) == EventTypeName(t)[k]
    ensures EventTypeName(EventTypeOf(tag)) == Upper(tag)
  {
  }

  /** `ovrl\d+` (ASCII digits). */
  predicate IsOverlapStart(s: string) {
    |s| > 4 && s[..4] == "ovrl" && forall k :: 4 <= k < |s| ==> '0' <= s[k] <= '9'
  }

  /** `ovrl\d+e` (ASCII digits). */
  predicate IsOverlapEnd(s: string) {
    |s| > 5 && s[..4] == "ovrl" && s[|s| - 1] == 'e' && forall k :: 4 <= k < |s| - 1 ==> '0' <= s[k] <= '9'
  }

  /** The errors an event parser raises. */
  datatype ParseError =
    | InvalidSynch      // ParserError: the anchor's synch is neither `ovrl\d+` nor `ovrl\d+e`
    | UnmatchedSynch    // ParserError: no overlap utterance has the anchor's id
    | MissingSynch      // TypeError: the anchor has no synch attribute
    | MissingChild      // IndexError: a Type B event element has no child

  /** `_get_event_attributes`: the attributes with their keys' prefixes removed. */
  function EventAttributes(e: Element): (r: seq<(string, string)>)
    ensures |r| == |e.attributes|
  {
    seq(|e.attributes|, k requires 0 <= k < |e.attributes| => (RemovePrefix(e.attributes[k].0), e.attributes[k].1))
  }

  /** `new` of a shift, `'normal'` when absent. */
  function ShiftValue(e: Element): string {
    match Get(e.attributes, "new")
    case Some(v) => v
    case None => "normal"
  }

  /**
   * The properties of an event. An anchor that opens an overlap takes its properties from the
   * overlap utterance whose anchor has the same id; that search of the annotation block is
   * `overlap`, giving nothing when no utterance matches.
   */
  function EventProperties(e: Element, overlap: string -> Option<seq<(string, string)>>)
    : Result<seq<(string, string)>, ParseError>
  {
    var tag := RemovePrefix(e.tag);
    match HandlerFor(tag)
    case TypeB(_) =>
      if e.children == [] then Err(MissingChild)
      else
        var first := e.children[0];
        Ok([(RemovePrefix(first.tag), if first.text.Some? then first.text.value else "")])
    case AnchorHandler =>
      (match Get(e.attributes, "synch")
       case None => Err(MissingSynch)
       case Some(synch) =>
         if IsOverlapStart(synch) then
           (match overlap(synch)
            case Some(props) => Ok(props)
            case None => Err(UnmatchedSynch))
         else if IsOverlapEnd(synch) then Ok([])
         else Err(InvalidSynch))
    case DefaultHandler => Ok([])
    case _ => Ok(EventAttributes(e))
  }

  /** The event words and the words after the event, as each parser routes them. */
  function RoutedWords(e: Element): Result<(seq<string>, seq<string>), ParseError> {
    var tag := RemovePrefix(e.tag);
    var tail := StrippedWords(e.tail);
    match HandlerFor(tag)
    case TypeA(_) => Ok((StrippedWords(e.text), tail))
    case TypeB(_) => Ok((["[" + tag + "_event]"], tail))
    case GapHandler => Ok((["[" + tag + "_event]"], tail))
    case ShiftHandler => if ShiftValue(e) == "normal" then Ok(([], tail)) else Ok((tail, []))
    case AnchorHandler =>
      (match Get(e.attributes, "synch")
       case None => Err(MissingSynch)
       case Some(synch) =>
         if IsOverlapStart(synch) then Ok((tail, []))
         else if IsOverlapEnd(synch) then Ok(([], tail))
         else Err(InvalidSynch))
    case DefaultHandler => Ok(([], tail))
  }

  /** `_parse_event`: the element's event, its words, and its children parsed in order. */
  function ParseEvent(e: Element, overlap: string -> Option<seq<(string, string)>>): Result<ParsedEvent, ParseError>
    decreases e, 1
  {
    match EventProperties(e, overlap)
    case Err(err) => Err(err)
    case Ok(props) =>
      match RoutedWords(e)
      case Err(err) => Err(err)
      case Ok(words) =>
        match ParseChildren(e.children, overlap)
        case Err(err) => Err(err)
        case Ok(subs) => Ok(ParsedEvent(Event(EventTypeOf(RemovePrefix(e.tag)), props), words.0, words.1, subs))
  }

  /** The children of an element parsed in order; the first failure is raised. */
  function ParseChildren(children: seq<Element>, overlap: string -> Option<seq<(string, string)>>)
    : (r: Result<seq<ParsedEvent>, ParseError>)
    ensures r.Ok? ==> |r.value| == |children|
    decreases children, 0
  {
    if children == [] then Ok([])
    else
      match ParseChildren(children[..|children| - 1], overlap)
      case Err(err) => Err(err)
      case Ok(init) =>
        match ParseEvent(children[|children| - 1], overlap)
        case Err(err) => Err(err)
        case Ok(last) => Ok(init + [last])
  }

  /**
   * An event parses when its properties, its words and its children all do; the first of them
   * that fails gives the error, and a parsed event holds the properties and words as computed.
   */
  lemma ParseEventParts(e: Element, overlap: string -> Option<seq<(string, string)>>)
    ensures var r := ParseEvent(e, overlap);
      var props := EventProperties(e, overlap);
      var words := RoutedWords(e);
      (props.Err? ==> r == Err(props.error)) &&
      (props.Ok? && words.Err? ==> r == Err(words.error)) &&
      (props.Ok? && words.Ok? ==> (r.Ok? <==> ParseChildren(e.children, overlap).Ok?)) &&
      (r.Ok? ==> (props.Ok? && words.Ok? &&
        r.value.event == Event(EventTypeOf(RemovePrefix(e.tag)), props.value) &&
        r.value.eventWords == words.value.0 && r.value.nonEventWords == words.value.1))
  {
  }

  /**
   * The Type B events (vocal noise, incident, gap) have exactly one event word, their marker
   * `[<tag>_event]`, and the words after them are their tail; a vocal noise or incident
   * element without a child has no property to read and fails.
   */
  lemma TypeBRule(e: Element, overlap: string -> Option<seq<(string, string)>>)
    requires RemovePrefix(e.tag) in {"vocal", "incident", "gap"}
    ensures var tag := RemovePrefix(e.tag);
      var r := ParseEvent(e, overlap);
      (r.Ok? ==> r.value.eventWords == ["[" + tag + "_event]"] && r.value.nonEventWords == StrippedWords(e.tail)) &&
      (e.children == [] && tag != "gap" ==> r == Err(MissingChild))
  {
  }

  /**
   * The TEI tokenizer turns the marker of a Type B event into a single word-less placeholder
   * token, which the metrics leave out of the lexical reference.
   */
  lemma MarkerTokenizes(tag: string, tk: Tokenizer.DefaultTokenizer, startTime: real, endTime: real)
    requires tag in {"vocal", "incident", "gap"}
    ensures var t := Tokenizer.TeiTokenize(tk, "[" + tag + "_event]", startTime, endTime);
      t.Tokens? && |t.tokens| == 1 && t.tokens[0].word == "" && IsTypeB(t.tokens[0].tokenType) &&
      Lexical(t.tokens) == []
  {
    var marker := "[" + tag + "_event]";
    var kind := if tag == "vocal" then VocalEvent else if tag == "incident" then IncidentEvent else GapEvent;
    assert Tokenizer.MarkerType(marker) == Some(kind);
    var token := Token("", kind, startTime, endTime, []);
    assert Tokenizer.TeiTokenize(tk, marker, startTime, endTime) == Tokenizer.Tokens([token]);
    assert [token][..0] == [];
    assert Lexical([token]) == Lexical([]);
  }

  /** An element whose tag has no parser gives an unknown event, no event words, and its tail after. */
  lemma DefaultRule(e: Element, overlap: string -> Option<seq<(string, string)>>)
    requires HandlerFor(RemovePrefix(e.tag)) == DefaultHandler
    ensures var r := ParseEvent(e, overlap);
      (r.Ok? <==> ParseChildren(e.children, overlap).Ok?) &&
      (r.Ok? ==> r.value.event == Event(Unknown, []) && r.value.eventWords == [] &&
                 r.value.nonEventWords == StrippedWords(e.tail))
  {
    ParseEventParts(e, overlap);
  }

  /**
   * A shift that returns to the normal voice (or names no voice) has no event words and its
   * tail after it; a shift to any other voice takes its tail as its event words.
   */
  lemma ShiftRule(e: Element, overlap: string -> Option<seq<(string, string)>>)
    requires RemovePrefix(e.tag) == "shift"
    ensures var r := ParseEvent(e, overlap);
      (r.Ok? <==> ParseChildren(e.children, overlap).Ok?) &&
      (r.Ok? && (Get(e.attributes, "new").None? || Get(e.attributes, "new") == Some("normal")) ==>
        r.value.eventWords == [] && r.value.nonEventWords == StrippedWords(e.tail)) &&
      (r.Ok? && Get(e.attributes, "new").Some? && Get(e.attributes, "new") != Some("normal") ==>
        r.value.eventWords == StrippedWords(e.tail) && r.value.nonEventWords == [])
  {
    ParseEventParts(e, overlap);
  }

  /**
   * An anchor opening an overlap (`ovrl\d+`) takes its tail as event words; one closing it
   * (`ovrl\d+e`) leaves its tail after it; any other synch is a parse error.
   */
  lemma AnchorRule(e: Element, overlap: string -> Option<seq<(string, string)>>)
    requires RemovePrefix(e.tag) == "anchor"
    ensures var r := ParseEvent(e, overlap);
      var synch := Get(e.attributes, "synch");
      (synch.None? ==> r == Err(MissingSynch)) &&
      (synch.Some? && !IsOverlapStart(synch.value) && !IsOverlapEnd(synch.value) ==> r == Err(InvalidSynch)) &&
      (r.Ok? ==> r.value.event.eventType == Overlap && synch.Some?) &&
      (r.Ok? && IsOverlapStart(synch.value) ==>
        r.value.eventWords == StrippedWords(e.tail) && r.value.nonEventWords == []) &&
      (r.Ok? && IsOverlapEnd(synch.value) ==>
        r.value.eventWords == [] && r.value.nonEventWords == StrippedWords(e.tail) && r.value.event.properties == [])
  {
    ParseEventParts(e, overlap);
  }
}
