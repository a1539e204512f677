/**
 * The roll-up invariant of MetricsCalculator: at every level of the report (a file, a
 * language of a file, an annotation note, a language and note, and the same four at corpus
 * level) each view of an entry adds up exactly the views of the utterances the entry covers.
 * That holds for the overall and without-tags totals and for the totals of every event tag,
 * whose keys are lowered on the way up ("VOCAL" at utterance level, "vocal" above it).
 */
module Rollup {
  import opened Wrappers
  import opened Canonical
  import opened Ranking
  import opened Grouping
  import opened Aggregator
  import Backtracer

  // ---------------------------------------------------------------------------------------
  // Event-tag keys.
  // ---------------------------------------------------------------------------------------

  /** A key an utterance writes in its 'event_tags': "all", or the upper-case name of an event type. */
  predicate IsTagName(s: string) {
    s == "all" || (s != "ALL" && forall c :: c in s ==> 'A' <= c <= 'Z')
  }

  /** Every event-tag key of every utterance is such a name. */
  ghost predicate TagNamed(us: seq<UtteranceMetrics>) {
    forall u :: u in us ==> forall b :: 0 <= b < |u.global.eventTags| ==> IsTagName(u.global.eventTags[b].0)
  }

  /** A key occurs in the event tags of one of the views. */
  ghost predicate TagOccurs(gs: seq<GlobalMetrics>, x: string) {
    exists a, b :: 0 <= a < |gs| && 0 <= b < |gs[a].eventTags| && gs[a].eventTags[b].0 == x
  }

  /** No two different event-tag keys of the views lower to the same key. */
  ghost predicate LowerInjective(gs: seq<GlobalMetrics>) {
    forall x, y :: TagOccurs(gs, x) && TagOccurs(gs, y) && Lower(x) == Lower(y) ==> x == y
  }

  /** Every event-tag key of the entries is already lower case. */
  ghost predicate LoweredEntries(e: seq<(string, ScopeMetrics)>) {
    forall b :: 0 <= b < |e| ==> Lower(e[b].0) == e[b].0
  }

  /** Every event-tag key of every view is already lower case, as in every rolled-up view. */
  ghost predicate LoweredKeys(gs: seq<GlobalMetrics>) {
    forall a :: 0 <= a < |gs| ==> LoweredEntries(gs[a].eventTags)
  }

  lemma TagNameOf(k: Backtracer.TagKey)
    ensures IsTagName(TagName(k))
  {
    match k
    case AllTags =>
    case EventTag(t) =>
      var s := EventTypeName(t);
      assert s != "ALL" by {
        match t
        case Unknown => case Foreign => case Unclear => case Vocal => case Shift => case Incident =>
        case Gap => case Del => case Overlap => case Note => case Distinct =>
      }
  }

  lemma {:induction false} EventScopesNamed(tags: seq<(Backtracer.TagKey, Backtracer.Accumulator)>)
    ensures forall b :: 0 <= b < |EventScopes(tags)| ==> IsTagName(EventScopes(tags)[b].0)
  {
    if tags != [] {
      EventScopesNamed(tags[..|tags| - 1]);
      TagNameOf(tags[|tags| - 1].0);
    }
  }

  /** The metrics of an utterance key their event tags by "all" and the upper-case event names. */
  lemma UtteranceTagNames(reference: Utterance, hypothesis: Option<Utterance>)
    ensures TagNamed([UtteranceOf(reference, hypothesis)])
  {
    var filtered := Lexical(reference.words);
    var h := HypothesisWords(hypothesis);
    var b := Backtracer.Accumulate(Path(reference.words, filtered, h, |filtered|, |h|));
    EventScopesNamed(b.eventTags);
  }

  /** Two upper-case keys that lower to the same key are the same key. */
  lemma LowerUpperInjective(x: string, y: string)
    requires forall c :: c in x ==> 'A' <= c <= 'Z'
    requires forall c :: c in y ==> 'A' <= c <= 'Z'
    requires Lower(x) == Lower(y)
    ensures x == y
  {
    forall k | 0 <= k < |x|
      ensures x[k] == y[k]
    {
      assert x[k] in x && y[k] in y;
      assert LowerChar(x[k]) == Lower(x)[k] == Lower(y)[k] == LowerChar(y[k]);
    }
  }

  /** Lowering tells the utterance keys apart: "all" and the event names stay distinct. */
  lemma LowerTagNames(x: string, y: string)
    requires IsTagName(x) && IsTagName(y) && Lower(x) == Lower(y)
    ensures x == y
  {
    var upper := "ALL";
    assert forall c :: c in upper ==> 'A' <= c <= 'Z';
    assert Lower(upper) == "all" by {
      assert |Lower(upper)| == 3;
      assert Lower(upper)[0] == 'a' && Lower(upper)[1] == 'l' && Lower(upper)[2] == 'l';
    }
    assert Lower("all") == "all" by {
      assert |Lower("all")| == 3;
      assert Lower("all")[0] == 'a' && Lower("all")[1] == 'l' && Lower("all")[2] == 'l';
    }
    if x == "all" && y != "all" {
      LowerUpperInjective(upper, y);
    } else if x != "all" && y == "all" {
      LowerUpperInjective(upper, x);
    } else if x != "all" && y != "all" {
      LowerUpperInjective(x, y);
    }
  }

  lemma TagNamedInjective(us: seq<UtteranceMetrics>)
    requires TagNamed(us)
    ensures LowerInjective(Globals(us))
  {
    var gs := Globals(us);
    forall x, y | TagOccurs(gs, x) && TagOccurs(gs, y) && Lower(x) == Lower(y)
      ensures x == y
    {
      var a, b :| 0 <= a < |gs| && 0 <= b < |gs[a].eventTags| && gs[a].eventTags[b].0 == x;
      var c, d :| 0 <= c < |gs| && 0 <= d < |gs[c].eventTags| && gs[c].eventTags[d].0 == y;
      assert us[a] in us && us[c] in us;
      LowerTagNames(x, y);
    }
  }

  lemma LoweredInjective(gs: seq<GlobalMetrics>)
    requires LoweredKeys(gs)
    ensures LowerInjective(gs)
  {
    forall x, y | TagOccurs(gs, x) && TagOccurs(gs, y) && Lower(x) == Lower(y)
      ensures x == y
    {
      var a, b :| 0 <= a < |gs| && 0 <= b < |gs[a].eventTags| && gs[a].eventTags[b].0 == x;
      var c, d :| 0 <= c < |gs| && 0 <= d < |gs[c].eventTags| && gs[c].eventTags[d].0 == y;
      assert Lower(x) == x && Lower(y) == y;
    }
  }

  lemma LoweredKeysAppend(a: seq<GlobalMetrics>, b: seq<GlobalMetrics>)
    requires LoweredKeys(a) && LoweredKeys(b)
    ensures LoweredKeys(a + b)
  {
    forall i | 0 <= i < |a + b|
      ensures LoweredEntries((a + b)[i].eventTags)
    {
      if i >= |a| {
        assert (a + b)[i] == b[i - |a|];
      }
    }
  }

  lemma TagNamedSelect(us: seq<UtteranceMetrics>, key: UtteranceMetrics -> string, k: string)
    requires TagNamed(us)
    ensures TagNamed(Select(us, key, k))
  {
    SelectKeys(us, key, k);
  }

  // ---------------------------------------------------------------------------------------
  // The views of a key.
  // ---------------------------------------------------------------------------------------

  /** The views of the entries whose key, lowered, is `k`, in order. */
  function LoweredPicks(e: seq<(string, ScopeMetrics)>, k: string): seq<ScopeMetrics> {
    if e == [] then []
    else LoweredPicks(e[..|e| - 1], k) + (if Lower(e[|e| - 1].0) == k then [e[|e| - 1].1] else [])
  }

  /** The event-tag views of a list of metrics whose key, lowered, is `k`, in order. */
  function TagViews(gs: seq<GlobalMetrics>, k: string): seq<ScopeMetrics> {
    if gs == [] then [] else TagViews(gs[..|gs| - 1], k) + LoweredPicks(gs[|gs| - 1].eventTags, k)
  }

  /**
   * The roll-up invariant of one entry: its overall and without-tags totals add up those of
   * `us`; its event-tag keys are distinct and lower case, one per key that some view of `us`
   * lowers to, and each tag's totals add up the views of `us` under that key.
   */
  ghost predicate Represents(g: GlobalMetrics, us: seq<GlobalMetrics>) {
    Raw(g.overallText.totals) == SumRaw(Overalls(us)) &&
    Raw(g.withoutTagsText.totals) == SumRaw(Withouts(us)) &&
    Unique(g.eventTags) && LoweredEntries(g.eventTags) &&
    (forall b :: 0 <= b < |g.eventTags| ==>
      TagViews(us, g.eventTags[b].0) != [] && Raw(g.eventTags[b].1.totals) == SumRaw(TagViews(us, g.eventTags[b].0))) &&
    (forall k :: Lower(k) == k && TagViews(us, k) != [] ==> IndexOf(g.eventTags, k) >= 0)
  }

  /** Two lists of views that add up to the same totals, view by view and tag by tag. */
  ghost predicate Equivalent(gs: seq<GlobalMetrics>, us: seq<GlobalMetrics>) {
    SumRaw(Overalls(gs)) == SumRaw(Overalls(us)) &&
    SumRaw(Withouts(gs)) == SumRaw(Withouts(us)) &&
    forall k :: Lower(k) == k ==>
      (TagViews(gs, k) == [] <==> TagViews(us, k) == []) && SumRaw(TagViews(gs, k)) == SumRaw(TagViews(us, k))
  }

  /** When only key `K` lowers to `Lower(K)`, picking by lowered key is picking by key. */
  lemma {:induction false} PicksLowered(e: seq<(string, ScopeMetrics)>, key: string)
    requires forall b :: 0 <= b < |e| && Lower(e[b].0) == Lower(key) ==> e[b].0 == key
    ensures Picks(e, key) == LoweredPicks(e, Lower(key))
  {
    if e != [] {
      PicksLowered(e[..|e| - 1], key);
    }
  }

  /** When only key `K` lowers to `Lower(K)`, the gathered views of `K` are those of `Lower(K)`. */
  lemma {:induction false} GatheredLowered(gs: seq<GlobalMetrics>, key: string)
    requires forall x :: TagOccurs(gs, x) && Lower(x) == Lower(key) ==> x == key
    ensures Gathered(TagDicts(gs), key) == TagViews(gs, Lower(key))
  {
    if gs != [] {
      var init, last := gs[..|gs| - 1], gs[|gs| - 1];
      forall x | TagOccurs(init, x) && Lower(x) == Lower(key)
        ensures x == key
      {
        var a, b :| 0 <= a < |init| && 0 <= b < |init[a].eventTags| && init[a].eventTags[b].0 == x;
        assert gs[a] == init[a];
      }
      GatheredLowered(init, key);
      assert TagDicts(gs)[..|gs| - 1] == TagDicts(init);
      forall b | 0 <= b < |last.eventTags| && Lower(last.eventTags[b].0) == Lower(key)
        ensures last.eventTags[b].0 == key
      {
        assert TagOccurs(gs, last.eventTags[b].0) by {
          assert gs[|gs| - 1].eventTags[b].0 == last.eventTags[b].0;
        }
      }
      PicksLowered(last.eventTags, key);
    }
  }

  lemma {:induction false} LoweredPicksOccur(e: seq<(string, ScopeMetrics)>, k: string)
    ensures LoweredPicks(e, k) != [] <==> exists b :: 0 <= b < |e| && Lower(e[b].0) == k
  {
    if e != [] {
      var init := e[..|e| - 1];
      LoweredPicksOccur(init, k);
      if exists b :: 0 <= b < |init| && Lower(init[b].0) == k {
        var b :| 0 <= b < |init| && Lower(init[b].0) == k;
        assert e[b] == init[b];
      }
      if exists b :: 0 <= b < |e| && Lower(e[b].0) == k {
        var b :| 0 <= b < |e| && Lower(e[b].0) == k;
        if b < |init| {
          assert init[b] == e[b];
        }
      }
    }
  }

  /** A key has views exactly when some view's event tags hold a key that lowers to it. */
  lemma {:induction false} TagViewsOccur(gs: seq<GlobalMetrics>, k: string)
    ensures TagViews(gs, k) != [] <==>
      exists a, b :: 0 <= a < |gs| && 0 <= b < |gs[a].eventTags| && Lower(gs[a].eventTags[b].0) == k
  {
    if gs != [] {
      var init, last := gs[..|gs| - 1], gs[|gs| - 1];
      TagViewsOccur(init, k);
      LoweredPicksOccur(last.eventTags, k);
      if exists a, b :: 0 <= a < |init| && 0 <= b < |init[a].eventTags| && Lower(init[a].eventTags[b].0) == k {
        var a, b :| 0 <= a < |init| && 0 <= b < |init[a].eventTags| && Lower(init[a].eventTags[b].0) == k;
        assert gs[a] == init[a];
      }
      if exists a, b :: 0 <= a < |gs| && 0 <= b < |gs[a].eventTags| && Lower(gs[a].eventTags[b].0) == k {
        var a, b :| 0 <= a < |gs| && 0 <= b < |gs[a].eventTags| && Lower(gs[a].eventTags[b].0) == k;
        if a < |init| {
          assert init[a] == gs[a];
        }
      }
    }
  }

  lemma {:induction false} TagViewsAppend(a: seq<GlobalMetrics>, b: seq<GlobalMetrics>, k: string)
    ensures TagViews(a + b, k) == TagViews(a, k) + TagViews(b, k)
  {
    if b == [] {
      assert a + b == a;
    } else {
      var init := b[..|b| - 1];
      assert (a + b)[..|a + b| - 1] == a + init;
      TagViewsAppend(a, init, k);
    }
  }

  /** The event tags of `compute_event_tags_metrics` are the assignments of each grouped key, lowered. */
  function LoweredKey(g: (string, seq<ScopeMetrics>)): string {
    Lower(g.0)
  }

  function GroupScope(g: (string, seq<ScopeMetrics>)): ScopeMetrics {
    ScopeOf(g.1)
  }

  lemma {:induction false} TagScopesAssignEach(groups: seq<(string, seq<ScopeMetrics>)>)
    ensures TagScopes(groups) == AssignEach(groups, LoweredKey, GroupScope)
  {
    if groups != [] {
      TagScopesAssignEach(groups[..|groups| - 1]);
    }
  }

  /** Adding up views keeps the totals of each view and of each event tag, keyed by lowered name. */
  lemma GlobalOfRepresents(us: seq<GlobalMetrics>)
    requires LowerInjective(us)
    ensures Represents(GlobalOf(us), us)
  {
    var groups := GroupById(TagDicts(us));
    var tags := EventTagsOf(us);
    TagsOfGroups(us);
    forall b | 0 <= b < |tags|
      ensures Lower(tags[b].0) == tags[b].0
      ensures TagViews(us, tags[b].0) != [] && Raw(tags[b].1.totals) == SumRaw(TagViews(us, tags[b].0))
    {
      TagEntry(us, groups, b);
    }
    forall k | Lower(k) == k && TagViews(us, k) != []
      ensures IndexOf(tags, k) >= 0
    {
      TagsComplete(us, k);
    }
  }

  /** The event tags: one entry per grouped key, with the key lowered and the views added up. */
  lemma TagsOfGroups(us: seq<GlobalMetrics>)
    requires LowerInjective(us)
    ensures var groups := GroupById(TagDicts(us));
      |EventTagsOf(us)| == |groups| && Unique(EventTagsOf(us)) &&
      forall i :: 0 <= i < |groups| ==> EventTagsOf(us)[i] == (LoweredKey(groups[i]), GroupScope(groups[i]))
  {
    var groups := GroupById(TagDicts(us));
    TagScopesAssignEach(groups);
    GroupByIdLists(TagDicts(us), "");
    forall i, j | 0 <= i < j < |groups|
      ensures LoweredKey(groups[i]) != LoweredKey(groups[j])
    {
      GroupKeyOccurs(us, groups, i);
      GroupKeyOccurs(us, groups, j);
    }
    AssignEachEntries(groups, LoweredKey, GroupScope);
  }

  /** Every lowered key with views has its entry among the event tags. */
  lemma TagsComplete(us: seq<GlobalMetrics>, k: string)
    requires LowerInjective(us)
    requires Lower(k) == k && TagViews(us, k) != []
    ensures IndexOf(EventTagsOf(us), k) >= 0
  {
    var groups := GroupById(TagDicts(us));
    TagsOfGroups(us);
    TagViewsOccur(us, k);
    var a, b :| 0 <= a < |us| && 0 <= b < |us[a].eventTags| && Lower(us[a].eventTags[b].0) == k;
    var key := us[a].eventTags[b].0;
    GroupByIdLists(TagDicts(us), key);
    assert TagDicts(us)[a][b].0 == key;
    var i := IndexOf(groups, key);
    assert EventTagsOf(us)[i].0 == k;
  }

  /** Every key of the grouped event tags occurs in one of the views. */
  lemma GroupKeyOccurs(us: seq<GlobalMetrics>, groups: seq<(string, seq<ScopeMetrics>)>, i: nat)
    requires groups == GroupById(TagDicts(us)) && i < |groups|
    ensures TagOccurs(us, groups[i].0)
  {
    var dicts: seq<seq<(string, ScopeMetrics)>> := TagDicts(us);
    GroupByIdLists(dicts, groups[i].0);
    var a: int, b: int :| 0 <= a < |dicts| && 0 <= b < |dicts[a]| && dicts[a][b].0 == groups[i].0;
    assert us[a].eventTags[b].0 == groups[i].0;
  }

  /** The entry of one grouped key: its lowered key, and the views of that lowered key added up. */
  lemma TagEntry(us: seq<GlobalMetrics>, groups: seq<(string, seq<ScopeMetrics>)>, b: nat)
    requires LowerInjective(us)
    requires groups == GroupById(TagDicts(us)) && b < |groups|
    requires |EventTagsOf(us)| == |groups| && EventTagsOf(us)[b] == (LoweredKey(groups[b]), GroupScope(groups[b]))
    ensures var e := EventTagsOf(us)[b];
      Lower(e.0) == e.0 && TagViews(us, e.0) != [] && Raw(e.1.totals) == SumRaw(TagViews(us, e.0))
  {
    var key := groups[b].0;
    GroupKeyOccurs(us, groups, b);
    LowerIdempotent(key);
    GroupByIdLists(TagDicts(us), key);
    assert IndexOf(groups, key) == b;
    GatheredLowered(us, key);
    TagViewsOccur(us, Lower(key));
    var a, c :| 0 <= a < |us| && 0 <= c < |us[a].eventTags| && us[a].eventTags[c].0 == key;
    assert Lower(us[a].eventTags[c].0) == Lower(key);
  }

  // ---------------------------------------------------------------------------------------
  // Lists of views that add up alike.
  // ---------------------------------------------------------------------------------------

  lemma SumRawSingle(m: ScopeMetrics)
    ensures SumRaw([m]) == Raw(m.totals)
  {
    assert [m][..0] == [];
  }

  lemma EquivalentEmpty()
    ensures Equivalent([], [])
  {
    assert Overalls([]) == [] && Withouts([]) == [];
  }

  lemma EquivalentAppend(a: seq<GlobalMetrics>, us: seq<GlobalMetrics>, b: seq<GlobalMetrics>, vs: seq<GlobalMetrics>)
    requires Equivalent(a, us) && Equivalent(b, vs)
    ensures Equivalent(a + b, us + vs)
  {
    OverallsAppend(a, b);
    OverallsAppend(us, vs);
    SumRawAppend(Overalls(a), Overalls(b));
    SumRawAppend(Overalls(us), Overalls(vs));
    SumRawAppend(Withouts(a), Withouts(b));
    SumRawAppend(Withouts(us), Withouts(vs));
    forall k | Lower(k) == k
      ensures (TagViews(a + b, k) == [] <==> TagViews(us + vs, k) == [])
      ensures SumRaw(TagViews(a + b, k)) == SumRaw(TagViews(us + vs, k))
    {
      TagViewsAppend(a, b, k);
      TagViewsAppend(us, vs, k);
      SumRawAppend(TagViews(a, k), TagViews(b, k));
      SumRawAppend(TagViews(us, k), TagViews(vs, k));
    }
  }

  /** An entry that represents some views adds up like them. */
  lemma EquivalentSingle(g: GlobalMetrics, us: seq<GlobalMetrics>)
    requires Represents(g, us)
    ensures Equivalent([g], us) && LoweredKeys([g])
  {
    assert Overalls([g]) == [g.overallText] && Withouts([g]) == [g.withoutTagsText];
    SumRawSingle(g.overallText);
    SumRawSingle(g.withoutTagsText);
    forall k | Lower(k) == k
      ensures (TagViews([g], k) == [] <==> TagViews(us, k) == [])
      ensures SumRaw(TagViews([g], k)) == SumRaw(TagViews(us, k))
    {
      SingleTagViews(g, us, k);
    }
  }

  /** The views of one entry under a lower-case key: its entry for that key, if any. */
  lemma SingleTagPicks(g: GlobalMetrics, k: string)
    requires Unique(g.eventTags) && LoweredEntries(g.eventTags) && Lower(k) == k
    ensures var i := IndexOf(g.eventTags, k);
      TagViews([g], k) == if i >= 0 then [g.eventTags[i].1] else []
  {
    assert [g][..0] == [];
    assert TagViews([g], k) == LoweredPicks(g.eventTags, k);
    PicksLowered(g.eventTags, k);
    PicksUnique(g.eventTags, k);
  }

  lemma SingleTagViews(g: GlobalMetrics, us: seq<GlobalMetrics>, k: string)
    requires Represents(g, us) && Lower(k) == k
    ensures (TagViews([g], k) == [] <==> TagViews(us, k) == [])
    ensures SumRaw(TagViews([g], k)) == SumRaw(TagViews(us, k))
  {
    SingleTagPicks(g, k);
    var i := IndexOf(g.eventTags, k);
    if i >= 0 {
      SumRawSingle(g.eventTags[i].1);
    }
  }

  /** Adding up views that add up like `us` gives an entry that represents `us`. */
  lemma EquivalentRepresents(gs: seq<GlobalMetrics>, us: seq<GlobalMetrics>)
    requires LoweredKeys(gs) && Equivalent(gs, us)
    ensures Represents(GlobalOf(gs), us)
  {
    LoweredInjective(gs);
    GlobalOfRepresents(gs);
  }

  /** The views of some utterances, added up, represent them. */
  lemma UtterancesRepresent(us: seq<UtteranceMetrics>)
    requires TagNamed(us)
    ensures Represents(GlobalOf(Globals(us)), Globals(us))
    ensures Equivalent([GlobalOf(Globals(us))], Globals(us)) && LoweredKeys([GlobalOf(Globals(us))])
  {
    TagNamedInjective(us);
    GlobalOfRepresents(Globals(us));
    EquivalentSingle(GlobalOf(Globals(us)), Globals(us));
  }

  // ---------------------------------------------------------------------------------------
  // Selections and picks.
  // ---------------------------------------------------------------------------------------

  lemma {:induction false} SelectNonEmpty<T>(ms: seq<T>, key: T -> string, k: string)
    ensures Select(ms, key, k) != [] <==> exists i :: 0 <= i < |ms| && key(ms[i]) == k
  {
    if ms != [] {
      var init := ms[..|ms| - 1];
      SelectNonEmpty(init, key, k);
      if exists i :: 0 <= i < |init| && key(init[i]) == k {
        var i :| 0 <= i < |init| && key(init[i]) == k;
        assert ms[i] == init[i];
      }
      if exists i :: 0 <= i < |ms| && key(ms[i]) == k {
        var i :| 0 <= i < |ms| && key(ms[i]) == k;
        if i < |init| {
          assert init[i] == ms[i];
        }
      }
    }
  }

  lemma {:induction false} SelectAppend<T>(a: seq<T>, b: seq<T>, key: T -> string, k: string)
    ensures Select(a + b, key, k) == Select(a, key, k) + Select(b, key, k)
  {
    if b == [] {
      assert a + b == a;
    } else {
      var init := b[..|b| - 1];
      assert (a + b)[..|a + b| - 1] == a + init;
      SelectAppend(a, init, key, k);
    }
  }

  lemma {:induction false} PicksOccur<V>(e: seq<(string, V)>, k: string)
    ensures Picks(e, k) != [] <==> KeyOccurs(e, k)
  {
    if e != [] {
      PicksOccur(e[..|e| - 1], k);
      KeyOccursSnoc(e, k);
    }
  }

  /** Some dictionary holds a key exactly when values are gathered under it. */
  lemma {:induction false} GatheredOccurs<V>(ms: seq<seq<(string, V)>>, k: string)
    ensures Gathered(ms, k) != [] <==> exists a, b :: 0 <= a < |ms| && 0 <= b < |ms[a]| && ms[a][b].0 == k
  {
    if ms != [] {
      GatheredOccurs(ms[..|ms| - 1], k);
      PicksOccur(ms[|ms| - 1], k);
      KeyOccursInSnoc(ms, k);
    }
  }

  lemma {:induction false} GatheredAppend<V>(a: seq<seq<(string, V)>>, b: seq<seq<(string, V)>>, k: string)
    ensures Gathered(a + b, k) == Gathered(a, k) + Gathered(b, k)
  {
    if b == [] {
      assert a + b == a;
    } else {
      var init, last := b[..|b| - 1], b[|b| - 1];
      assert (a + b)[..|a + b| - 1] == a + init && (a + b)[|a + b| - 1] == last;
      GatheredAppend(a, init, k);
      assert Gathered(a + b, k) == Gathered(a + init, k) + Picks(last, k);
      assert Gathered(b, k) == Gathered(init, k) + Picks(last, k);
    }
  }

  lemma GatheredSingle<V>(d: seq<(string, V)>, k: string)
    ensures Gathered([d], k) == Picks(d, k)
  {
    assert [d][..0] == [];
  }

  /** A file's entry for a language: present exactly when some utterance has it, and theirs. */
  lemma LanguagePick(us: seq<UtteranceMetrics>, lang: string)
    ensures var d := FileOf(us).languages; var sel := Select(us, ByLanguage, lang);
      Unique(d) && (IndexOf(d, lang) >= 0 <==> sel != []) &&
      (IndexOf(d, lang) >= 0 ==> d[IndexOf(d, lang)].1 == FileLanguageOf(sel)) &&
      Picks(d, lang) == (if sel != [] then [FileLanguageOf(sel)] else [])
  {
    var groups := GroupBy(us, ByLanguage);
    var d := FileOf(us).languages;
    GroupByPartition(us, ByLanguage, lang);
    MapValuesKeys(groups, FileLanguageOf, lang);
    SelectNonEmpty(us, ByLanguage, lang);
    PicksUnique(d, lang);
  }

  /** An entry for a note: present exactly when some utterance has it, and theirs added up. */
  lemma NotePick(us: seq<UtteranceMetrics>, note: string)
    ensures FileOf(us).audioNotes == FileLanguageOf(us).audioNotes
    ensures var d := FileLanguageOf(us).audioNotes; var sel := Select(us, ByNote, note);
      Unique(d) && (IndexOf(d, note) >= 0 <==> sel != []) &&
      (IndexOf(d, note) >= 0 ==> d[IndexOf(d, note)].1 == GlobalOf(Globals(sel))) &&
      Picks(d, note) == (if sel != [] then [GlobalOf(Globals(sel))] else [])
  {
    var groups := GroupBy(us, ByNote);
    var lists := MapValues(groups, Globals);
    var d := FileLanguageOf(us).audioNotes;
    GroupByPartition(us, ByNote, note);
    MapValuesKeys(groups, Globals, note);
    MapValuesKeys(lists, GlobalOf, note);
    SelectNonEmpty(us, ByNote, note);
    PicksUnique(d, note);
  }

  // ---------------------------------------------------------------------------------------
  // File level.
  // ---------------------------------------------------------------------------------------

  /** A file's views add up those of all its utterances, event tags included. */
  lemma FileRepresents(us: seq<UtteranceMetrics>)
    requires TagNamed(us)
    ensures Represents(FileOf(us).global, Globals(us))
  {
    UtterancesRepresent(us);
  }

  /**
   * A file's entry for a language exists exactly when some utterance has that language, and
   * each of its views adds up those of the utterances of that language.
   */
  lemma FileLanguageRepresents(us: seq<UtteranceMetrics>, lang: string)
    requires TagNamed(us)
    ensures var d := FileOf(us).languages; var i := IndexOf(d, lang); var sel := Select(us, ByLanguage, lang);
      (i >= 0 <==> sel != []) && (i >= 0 ==> Represents(d[i].1.global, Globals(sel)))
  {
    LanguagePick(us, lang);
    TagNamedSelect(us, ByLanguage, lang);
    UtterancesRepresent(Select(us, ByLanguage, lang));
  }

  /** A file's entry for a note exists exactly when some utterance has it, and adds them up. */
  lemma FileNoteRepresents(us: seq<UtteranceMetrics>, note: string)
    requires TagNamed(us)
    ensures var d := FileOf(us).audioNotes; var i := IndexOf(d, note); var sel := Select(us, ByNote, note);
      (i >= 0 <==> sel != []) && (i >= 0 ==> Represents(d[i].1, Globals(sel)))
  {
    NotePick(us, note);
    TagNamedSelect(us, ByNote, note);
    UtterancesRepresent(Select(us, ByNote, note));
  }

  /**
   * Within a file's language, the entry for a note exists exactly when some utterance of that
   * language has that note, and adds up those utterances.
   */
  lemma FileLanguageNoteRepresents(us: seq<UtteranceMetrics>, lang: string, note: string)
    requires TagNamed(us)
    ensures var d := FileOf(us).languages; var i := IndexOf(d, lang);
      i >= 0 ==>
        var n := d[i].1.audioNotes; var j := IndexOf(n, note);
        var sel := Select(Select(us, ByLanguage, lang), ByNote, note);
        (j >= 0 <==> sel != []) && (j >= 0 ==> Represents(n[j].1, Globals(sel)))
  {
    var langs := Select(us, ByLanguage, lang);
    LanguagePick(us, lang);
    NotePick(langs, note);
    TagNamedSelect(us, ByLanguage, lang);
    TagNamedSelect(langs, ByNote, note);
    UtterancesRepresent(Select(langs, ByNote, note));
  }

  // ---------------------------------------------------------------------------------------
  // Corpus level.
  // ---------------------------------------------------------------------------------------

  /** Every file's utterances key their event tags by utterance tag names. */
  ghost predicate AllTagNamed(uss: seq<seq<UtteranceMetrics>>) {
    forall f :: 0 <= f < |uss| ==> TagNamed(uss[f])
  }

  lemma AllTagNamedInit(uss: seq<seq<UtteranceMetrics>>)
    requires uss != [] && AllTagNamed(uss)
    ensures AllTagNamed(uss[..|uss| - 1]) && TagNamed(uss[|uss| - 1])
  {
  }

  lemma RollupLanguagesSnoc(uss: seq<seq<UtteranceMetrics>>)
    requires uss != []
    ensures var fs := RollupLanguages(Files(uss));
      fs[..|fs| - 1] == RollupLanguages(Files(uss[..|uss| - 1])) && fs[|fs| - 1] == FileOf(uss[|uss| - 1]).languages
  {
  }

  lemma RollupNotesSnoc(uss: seq<seq<UtteranceMetrics>>)
    requires uss != []
    ensures var fs := RollupNotes(Files(uss));
      fs[..|fs| - 1] == RollupNotes(Files(uss[..|uss| - 1])) && fs[|fs| - 1] == FileOf(uss[|uss| - 1]).audioNotes
  {
  }

  lemma LanguageGlobalsAppend(a: seq<LanguageMetrics>, b: seq<LanguageMetrics>)
    ensures LanguageGlobals(a + b) == LanguageGlobals(a) + LanguageGlobals(b)
    ensures LanguageNotes(a + b) == LanguageNotes(a) + LanguageNotes(b)
  {
  }

  /** The files' views, one per file, add up like all the utterances of the corpus. */
  lemma {:induction false} FilesEquivalent(uss: seq<seq<UtteranceMetrics>>)
    requires AllTagNamed(uss)
    ensures LoweredKeys(RollupGlobals(Files(uss))) && Equivalent(RollupGlobals(Files(uss)), Globals(Flatten(uss)))
  {
    if uss == [] {
      assert RollupGlobals(Files(uss)) == [] && Globals(Flatten(uss)) == [];
      EquivalentEmpty();
    } else {
      var init, last := uss[..|uss| - 1], uss[|uss| - 1];
      AllTagNamedInit(uss);
      FilesEquivalent(init);
      FilesSnoc(uss);
      FileRepresents(last);
      EquivalentSingle(FileOf(last).global, Globals(last));
      EquivalentAppend(RollupGlobals(Files(init)), Globals(Flatten(init)), [FileOf(last).global], Globals(last));
      LoweredKeysAppend(RollupGlobals(Files(init)), [FileOf(last).global]);
      GlobalsAppend(Flatten(init), last);
    }
  }

  /** The corpus views add up those of every utterance of every file, event tags included. */
  lemma CorpusRepresents(uss: seq<seq<UtteranceMetrics>>)
    requires AllTagNamed(uss)
    ensures Represents(CorpusOf(Files(uss)).global, Globals(Flatten(uss)))
  {
    FilesEquivalent(uss);
    EquivalentRepresents(RollupGlobals(Files(uss)), Globals(Flatten(uss)));
  }

  /** Equivalence, with matching emptiness and lowered keys, carries over to concatenations. */
  lemma EquivalentExtend(gs: seq<GlobalMetrics>, sel: seq<UtteranceMetrics>, hs: seq<GlobalMetrics>, s: seq<UtteranceMetrics>)
    requires (gs == [] <==> sel == []) && LoweredKeys(gs) && Equivalent(gs, Globals(sel))
    requires (hs == [] <==> s == []) && LoweredKeys(hs) && Equivalent(hs, Globals(s))
    ensures (gs + hs == [] <==> sel + s == []) && LoweredKeys(gs + hs) && Equivalent(gs + hs, Globals(sel + s))
  {
    GlobalsAppend(sel, s);
    EquivalentAppend(gs, Globals(sel), hs, Globals(s));
    LoweredKeysAppend(gs, hs);
  }

  /** One file's entry for a language, if any, is equivalent to its utterances of that language. */
  lemma LanguagePicked(us: seq<UtteranceMetrics>, lang: string)
    requires TagNamed(us)
    ensures var hs := LanguageGlobals(Picks(FileOf(us).languages, lang)); var s := Select(us, ByLanguage, lang);
      (hs == [] <==> s == []) && LoweredKeys(hs) && Equivalent(hs, Globals(s))
  {
    var s := Select(us, ByLanguage, lang);
    PickedGlobals(us, lang);
    if s != [] {
      TagNamedSelect(us, ByLanguage, lang);
      UtterancesRepresent(s);
    } else {
      assert Globals(s) == [];
      EquivalentEmpty();
    }
  }

  lemma PickedGlobals(us: seq<UtteranceMetrics>, lang: string)
    ensures var s := Select(us, ByLanguage, lang);
      LanguageGlobals(Picks(FileOf(us).languages, lang)) == (if s != [] then [GlobalOf(Globals(s))] else [])
  {
    LanguagePick(us, lang);
  }

  /** Adding one file's entry for a language to the entries so far keeps them equivalent. */
  lemma LanguageStep(ls: seq<LanguageMetrics>, sel: seq<UtteranceMetrics>, us: seq<UtteranceMetrics>, lang: string)
    requires TagNamed(us)
    requires (ls == [] <==> sel == []) && LoweredKeys(LanguageGlobals(ls)) && Equivalent(LanguageGlobals(ls), Globals(sel))
    ensures var ls' := ls + Picks(FileOf(us).languages, lang); var sel' := sel + Select(us, ByLanguage, lang);
      (ls' == [] <==> sel' == []) && LoweredKeys(LanguageGlobals(ls')) && Equivalent(LanguageGlobals(ls'), Globals(sel'))
  {
    var picked := Picks(FileOf(us).languages, lang);
    LanguagePicked(us, lang);
    LanguageGlobalsAppend(ls, picked);
    EquivalentExtend(LanguageGlobals(ls), sel, LanguageGlobals(picked), Select(us, ByLanguage, lang));
  }

  /** The last file's part of the languages' entries and of the selected utterances. */
  lemma LanguagesSnoc(uss: seq<seq<UtteranceMetrics>>, lang: string)
    requires uss != []
    ensures var init, last := uss[..|uss| - 1], uss[|uss| - 1];
      Gathered(RollupLanguages(Files(uss)), lang) == Gathered(RollupLanguages(Files(init)), lang) + Picks(FileOf(last).languages, lang) &&
      Select(Flatten(uss), ByLanguage, lang) == Select(Flatten(init), ByLanguage, lang) + Select(last, ByLanguage, lang)
  {
    RollupLanguagesSnoc(uss);
    SelectAppend(Flatten(uss[..|uss| - 1]), uss[|uss| - 1], ByLanguage, lang);
  }

  /** The files' entries for a language add up like the corpus's utterances of that language. */
  lemma {:induction false} LanguagesEquivalent(uss: seq<seq<UtteranceMetrics>>, lang: string)
    requires AllTagNamed(uss)
    ensures var ls := Gathered(RollupLanguages(Files(uss)), lang);
      var sel := Select(Flatten(uss), ByLanguage, lang);
      (ls == [] <==> sel == []) && LoweredKeys(LanguageGlobals(ls)) && Equivalent(LanguageGlobals(ls), Globals(sel))
  {
    if uss == [] {
      assert LanguageGlobals([]) == [] && Globals([]) == [];
      EquivalentEmpty();
    } else {
      var init := uss[..|uss| - 1];
      AllTagNamedInit(uss);
      LanguagesEquivalent(init, lang);
      LanguagesSnoc(uss, lang);
      LanguageStep(Gathered(RollupLanguages(Files(init)), lang), Select(Flatten(init), ByLanguage, lang), uss[|uss| - 1], lang);
    }
  }

  /**
   * The corpus entry for a language exists exactly when some utterance of the corpus has that
   * language, and each of its views adds up those of all such utterances, across files.
   */
  lemma CorpusLanguageRepresents(uss: seq<seq<UtteranceMetrics>>, lang: string)
    requires AllTagNamed(uss)
    ensures var d := CorpusOf(Files(uss)).languages; var i := IndexOf(d, lang);
      var sel := Select(Flatten(uss), ByLanguage, lang);
      (i >= 0 <==> sel != []) && (i >= 0 ==> Represents(d[i].1.global, Globals(sel)))
  {
    var langs := RollupLanguages(Files(uss));
    var groups := GroupById(langs);
    var ls := Gathered(langs, lang);
    GroupByIdLists(langs, lang);
    MapValuesKeys(groups, CorpusLanguageOf, lang);
    GatheredOccurs(langs, lang);
    LanguagesEquivalent(uss, lang);
    if IndexOf(groups, lang) >= 0 {
      EquivalentRepresents(LanguageGlobals(ls), Globals(Select(Flatten(uss), ByLanguage, lang)));
    }
  }

  /** The files' entries for a note add up like the corpus's utterances with that note. */
  lemma {:induction false} NotesEquivalent(uss: seq<seq<UtteranceMetrics>>, note: string)
    requires AllTagNamed(uss)
    ensures var gs := Gathered(RollupNotes(Files(uss)), note);
      var sel := Select(Flatten(uss), ByNote, note);
      (gs == [] <==> sel == []) && LoweredKeys(gs) && Equivalent(gs, Globals(sel))
  {
    if uss == [] {
      assert Globals([]) == [];
      EquivalentEmpty();
    } else {
      var init, last := uss[..|uss| - 1], uss[|uss| - 1];
      AllTagNamedInit(uss);
      NotesEquivalent(init, note);
      RollupNotesSnoc(uss);
      NotePick(last, note);
      var gs0 := Gathered(RollupNotes(Files(init)), note);
      var sel0 := Select(Flatten(init), ByNote, note);
      var s := Select(last, ByNote, note);
      SelectAppend(Flatten(init), last, ByNote, note);
      var picked := Picks(FileOf(last).audioNotes, note);
      assert Gathered(RollupNotes(Files(uss)), note) == gs0 + picked;
      GlobalsAppend(sel0, s);
      if s != [] {
        TagNamedSelect(last, ByNote, note);
        UtterancesRepresent(s);
        EquivalentAppend(gs0, Globals(sel0), [GlobalOf(Globals(s))], Globals(s));
        LoweredKeysAppend(gs0, [GlobalOf(Globals(s))]);
      } else {
        assert gs0 + picked == gs0 && sel0 + s == sel0;
      }
    }
  }

  /**
   * The corpus entry for a note exists exactly when some utterance of the corpus has that
   * note, and each of its views adds up those of all such utterances, across files.
   */
  lemma CorpusNoteRepresents(uss: seq<seq<UtteranceMetrics>>, note: string)
    requires AllTagNamed(uss)
    ensures var d := CorpusOf(Files(uss)).audioNotes; var i := IndexOf(d, note);
      var sel := Select(Flatten(uss), ByNote, note);
      (i >= 0 <==> sel != []) && (i >= 0 ==> Represents(d[i].1, Globals(sel)))
  {
    var notes := RollupNotes(Files(uss));
    var groups := GroupById(notes);
    GroupByIdLists(notes, note);
    MapValuesKeys(groups, GlobalOf, note);
    GatheredOccurs(notes, note);
    NotesEquivalent(uss, note);
    if IndexOf(groups, note) >= 0 {
      EquivalentRepresents(Gathered(notes, note), Globals(Select(Flatten(uss), ByNote, note)));
    }
  }

  /** One file's entries for a note within a language are equivalent to those utterances. */
  lemma LanguageNotePicked(us: seq<UtteranceMetrics>, lang: string, note: string)
    requires TagNamed(us)
    ensures var hs := Gathered(LanguageNotes(Picks(FileOf(us).languages, lang)), note);
      var s := Select(Select(us, ByLanguage, lang), ByNote, note);
      (hs == [] <==> s == []) && LoweredKeys(hs) && Equivalent(hs, Globals(s))
  {
    var s := Select(us, ByLanguage, lang);
    var sn := Select(s, ByNote, note);
    PickedNotes(us, lang, note);
    if sn != [] {
      TagNamedSelect(us, ByLanguage, lang);
      TagNamedSelect(s, ByNote, note);
      UtterancesRepresent(sn);
    } else {
      assert Globals(sn) == [];
      EquivalentEmpty();
    }
  }

  lemma PickedNotes(us: seq<UtteranceMetrics>, lang: string, note: string)
    ensures var sn := Select(Select(us, ByLanguage, lang), ByNote, note);
      Gathered(LanguageNotes(Picks(FileOf(us).languages, lang)), note) == (if sn != [] then [GlobalOf(Globals(sn))] else [])
  {
    var s := Select(us, ByLanguage, lang);
    PickedLanguages(us, lang);
    if s != [] {
      LanguageNotesSingle(FileLanguageOf(s), note);
      NotePick(s, note);
    } else {
      assert LanguageNotes([]) == [];
      assert Select(s, ByNote, note) == [];
    }
  }

  lemma PickedLanguages(us: seq<UtteranceMetrics>, lang: string)
    ensures var s := Select(us, ByLanguage, lang);
      Picks(FileOf(us).languages, lang) == (if s != [] then [FileLanguageOf(s)] else [])
  {
    LanguagePick(us, lang);
  }

  lemma LanguageNotesSingle(l: LanguageMetrics, note: string)
    ensures Gathered(LanguageNotes([l]), note) == Picks(l.audioNotes, note)
  {
    assert LanguageNotes([l]) == [l.audioNotes];
    GatheredSingle(l.audioNotes, note);
  }

  /** Adding one file's entry for a language to the entries so far keeps their notes equivalent. */
  lemma LanguageNoteStep(ls: seq<LanguageMetrics>, sel: seq<UtteranceMetrics>, us: seq<UtteranceMetrics>, lang: string, note: string)
    requires TagNamed(us)
    requires var gs := Gathered(LanguageNotes(ls), note);
      (gs == [] <==> sel == []) && LoweredKeys(gs) && Equivalent(gs, Globals(sel))
    ensures var gs' := Gathered(LanguageNotes(ls + Picks(FileOf(us).languages, lang)), note);
      var sel' := sel + Select(Select(us, ByLanguage, lang), ByNote, note);
      (gs' == [] <==> sel' == []) && LoweredKeys(gs') && Equivalent(gs', Globals(sel'))
  {
    var picked := Picks(FileOf(us).languages, lang);
    LanguageNotePicked(us, lang, note);
    LanguageGlobalsAppend(ls, picked);
    GatheredAppend(LanguageNotes(ls), LanguageNotes(picked), note);
    EquivalentExtend(Gathered(LanguageNotes(ls), note), sel,
      Gathered(LanguageNotes(picked), note), Select(Select(us, ByLanguage, lang), ByNote, note));
  }

  /** The last file's part of the utterances with a language and a note. */
  lemma LanguageNotesSnoc(uss: seq<seq<UtteranceMetrics>>, lang: string, note: string)
    requires uss != []
    ensures var init, last := uss[..|uss| - 1], uss[|uss| - 1];
      Select(Select(Flatten(uss), ByLanguage, lang), ByNote, note) ==
        Select(Select(Flatten(init), ByLanguage, lang), ByNote, note) + Select(Select(last, ByLanguage, lang), ByNote, note)
  {
    var init, last := uss[..|uss| - 1], uss[|uss| - 1];
    SelectAppend(Flatten(init), last, ByLanguage, lang);
    SelectAppend(Select(Flatten(init), ByLanguage, lang), Select(last, ByLanguage, lang), ByNote, note);
  }

  /** Within the files' entries for a language, the entries for a note add up like those utterances. */
  lemma {:induction false} LanguageNotesEquivalent(uss: seq<seq<UtteranceMetrics>>, lang: string, note: string)
    requires AllTagNamed(uss)
    ensures var gs := Gathered(LanguageNotes(Gathered(RollupLanguages(Files(uss)), lang)), note);
      var sel := Select(Select(Flatten(uss), ByLanguage, lang), ByNote, note);
      (gs == [] <==> sel == []) && LoweredKeys(gs) && Equivalent(gs, Globals(sel))
  {
    if uss == [] {
      assert LanguageNotes([]) == [] && Globals([]) == [];
      EquivalentEmpty();
    } else {
      var init := uss[..|uss| - 1];
      AllTagNamedInit(uss);
      LanguageNotesEquivalent(init, lang, note);
      LanguagesSnoc(uss, lang);
      LanguageNotesSnoc(uss, lang, note);
      LanguageNoteStep(Gathered(RollupLanguages(Files(init)), lang),
        Select(Select(Flatten(init), ByLanguage, lang), ByNote, note), uss[|uss| - 1], lang, note);
    }
  }

  /** The merged per-note entries of some languages' entries, for utterances they add up like. */
  lemma CorpusLanguageNotes(ls: seq<LanguageMetrics>, sel: seq<UtteranceMetrics>, note: string)
    requires var gs := Gathered(LanguageNotes(ls), note);
      (gs == [] <==> sel == []) && LoweredKeys(gs) && Equivalent(gs, Globals(sel))
    ensures var n := CorpusLanguageOf(ls).audioNotes; var j := IndexOf(n, note);
      (j >= 0 <==> sel != []) && (j >= 0 ==> Represents(n[j].1, Globals(sel)))
  {
    var notes := LanguageNotes(ls);
    var noteGroups := GroupById(notes);
    GroupByIdLists(notes, note);
    MapValuesKeys(noteGroups, GlobalOf, note);
    GatheredOccurs(notes, note);
    if IndexOf(noteGroups, note) >= 0 {
      EquivalentRepresents(Gathered(notes, note), Globals(sel));
    }
  }

  /**
   * Within the corpus entry for a language, the entry for a note exists exactly when some
   * utterance of the corpus has that language and that note, and adds up all such utterances.
   */
  lemma CorpusLanguageNoteRepresents(uss: seq<seq<UtteranceMetrics>>, lang: string, note: string)
    requires AllTagNamed(uss)
    ensures var d := CorpusOf(Files(uss)).languages; var i := IndexOf(d, lang);
      i >= 0 ==>
        var n := d[i].1.audioNotes; var j := IndexOf(n, note);
        var sel := Select(Select(Flatten(uss), ByLanguage, lang), ByNote, note);
        (j >= 0 <==> sel != []) && (j >= 0 ==> Represents(n[j].1, Globals(sel)))
  {
    var langs := RollupLanguages(Files(uss));
    var groups := GroupById(langs);
    GroupByIdLists(langs, lang);
    MapValuesKeys(groups, CorpusLanguageOf, lang);
    if IndexOf(groups, lang) >= 0 {
      LanguageNotesEquivalent(uss, lang, note);
      CorpusLanguageNotes(Gathered(langs, lang), Select(Select(Flatten(uss), ByLanguage, lang), ByNote, note), note);
    }
  }
}
