/**
 * The walk back through an operation matrix (DefaultMetrics._backtrace_operation_matrix) and the
 * CSV log rows it emits (_get_operation_csv_row, _get_word_events_csv_entry).
 *
 * Every step feeds three accumulators: the overall one, the one for operations whose reference
 * token has no events, and a dictionary of per-event-type accumulators plus an "all" entry.
 */
module Backtracer {
  import opened Canonical
  import opened Operations
  import opened Ranking
  import opened Text
  import Aligner

  /** The raw counters of one accumulator. */
  datatype Totals = Totals(cor: nat, sub: nat, del: nat, ins: nat, refLen: nat, hypLen: nat)

  const NoTotals: Totals := Totals(0, 0, 0, 0, 0, 0)

  /** The four operation groups of an accumulator, one list of operations per type. */
  datatype Groups = Groups(correct: seq<Operation>, insertion: seq<Operation>,
                           deletion: seq<Operation>, substitution: seq<Operation>)
  {
    /** The group of one type. */
    function Of(t: OpType): seq<Operation> {
      match t
      case Correct => correct
      case Insertion => insertion
      case Deletion => deletion
      case Substitution => substitution
    }

    /** Adds an operation to the group of its own type. */
    function Add(op: Operation): (g: Groups)
      ensures g.Of(op.opType) == Of(op.opType) + [op]
      ensures forall t :: t != op.opType ==> g.Of(t) == Of(t)
    {
      match op.opType
      case Correct => this.(correct := correct + [op])
      case Insertion => this.(insertion := insertion + [op])
      case Deletion => this.(deletion := deletion + [op])
      case Substitution => this.(substitution := substitution + [op])
    }

    /** The groups as (type, operations) pairs, in the order of the type values. */
    function Items(): seq<(OpType, seq<Operation>)> {
      [(Correct, correct), (Insertion, insertion), (Deletion, deletion), (Substitution, substitution)]
    }
  }

  const NoGroups: Groups := Groups([], [], [], [])

  /** The counters and operation groups of one view of an alignment. */
  datatype Accumulator = Accumulator(totals: Totals, groups: Groups)

  const Empty: Accumulator := Accumulator(NoTotals, NoGroups)

  /** The keys of the event-tags dictionary: "all", or one event type. */
  datatype TagKey = AllTags | EventTag(eventType: EventType)

  /** The three accumulators of a backtrace. */
  datatype Backtraces = Backtraces(overall: Accumulator, eventTags: seq<(TagKey, Accumulator)>, withoutTags: Accumulator)

  const NoBacktraces: Backtraces := Backtraces(Empty, [], Empty)

  /** Counts one operation: its own counter, then both lengths unless it is an insertion. */
  function Tick(t: Totals, op: Operation): Totals {
    var bumped := match op.opType
      case Correct => t.(cor := t.cor + 1)
      case Substitution => t.(sub := t.sub + 1)
      case Insertion => t.(ins := t.ins + 1)
      case Deletion => t.(del := t.del + 1);
    if op.opType != Insertion then bumped.(refLen := bumped.refLen + 1, hypLen := bumped.hypLen + 1) else bumped
  }

  /** Records one operation in an accumulator: its counters and its group. */
  function Record(acc: Accumulator, op: Operation): Accumulator {
    Accumulator(Tick(acc.totals, op), acc.groups.Add(op))
  }

  /** The accumulator under a key, or an empty one when the key was never recorded. */
  function Lookup(d: seq<(TagKey, Accumulator)>, k: TagKey): Accumulator {
    var i := IndexOf(d, k);
    if i >= 0 then d[i].1 else Empty
  }

  /** Records an operation under a key, creating the key's accumulator on first use. */
  function RecordAt(d: seq<(TagKey, Accumulator)>, k: TagKey, op: Operation): seq<(TagKey, Accumulator)> {
    var i := IndexOf(d, k);
    if i >= 0 then d[i := (k, Record(d[i].1, op))] else d + [(k, Record(Empty, op))]
  }

  /** Records an operation once under the type of every event of a list, in order. */
  function RecordEvents(d: seq<(TagKey, Accumulator)>, events: seq<Event>, op: Operation): seq<(TagKey, Accumulator)> {
    if events == [] then d
    else RecordAt(RecordEvents(d, events[..|events| - 1], op), EventTag(events[|events| - 1].eventType), op)
  }

  /**
   * One backtrace step: the overall accumulator always; the without-tags one when the
   * reference token has no events; otherwise "all" once and each listed event type.
   */
  function Step(b: Backtraces, op: Operation): Backtraces {
    var overall := Record(b.overall, op);
    var events := op.reference.events;
    if events == [] then Backtraces(overall, b.eventTags, Record(b.withoutTags, op))
    else Backtraces(overall, RecordEvents(RecordAt(b.eventTags, AllTags, op), events, op), b.withoutTags)
  }

  /** The accumulators after recording a list of operations in order. */
  function Accumulate(ops: seq<Operation>): Backtraces {
    if ops == [] then NoBacktraces else Step(Accumulate(ops[..|ops| - 1]), ops[|ops| - 1])
  }

  // ---------------------------------------------------------------------------------------
  // The walk.
  // ---------------------------------------------------------------------------------------

  /** An operation of type t at (i, j) points at a cell inside the matrix. */
  predicate Moves(t: OpType, i: nat, j: nat) {
    match t
    case Correct => i >= 1 && j >= 1
    case Substitution => i >= 1 && j >= 1
    case Insertion => j >= 1
    case Deletion => i >= 1
  }

  /** Every cell but the origin points at a cell inside the matrix. */
  predicate WellFormed(m: array2<Operation>)
    reads m
  {
    m.Length0 >= 1 && m.Length1 >= 1 &&
    forall i, j :: 0 <= i < m.Length0 && 0 <= j < m.Length1 && (i > 0 || j > 0) ==> Moves(m[i, j].opType, i, j)
  }

  /** The cell an operation of type t at (i, j) leads back to. */
  function Next(t: OpType, i: nat, j: nat): (r: (nat, nat))
    requires Moves(t, i, j)
    ensures r.0 + r.1 < i + j
  {
    match t
    case Correct => (i - 1, j - 1)
    case Substitution => (i - 1, j - 1)
    case Insertion => (i, j - 1)
    case Deletion => (i - 1, j)
  }

  /** The operations met walking from (i, j) back to the origin, in the order they are met. */
  function Trace(m: array2<Operation>, i: nat, j: nat): seq<Operation>
    reads m
    requires WellFormed(m) && i < m.Length0 && j < m.Length1
    decreases i + j
  {
    if i == 0 && j == 0 then []
    else
      var next := Next(m[i, j].opType, i, j);
      [m[i, j]] + Trace(m, next.0, next.1)
  }

  // ---------------------------------------------------------------------------------------
  // CSV rows.
  // ---------------------------------------------------------------------------------------

  /** The first three letters of an operation type's name. */
  function Code(t: OpType): (r: string)
    ensures |r| == 3
  {
    TypeName(t)[..3]
  }

  /** The three-letter codes tell the four types apart. */
  lemma CodesDistinct(s: OpType, t: OpType)
    ensures Code(s) == Code(t) <==> s == t
  {
    assert Code(Correct) == "COR" && Code(Insertion) == "INS";
    assert Code(Deletion) == "DEL" && Code(Substitution) == "SUB";
  }

  /** "key=value" for each property, in order. */
  function PropertyEntries(ps: seq<(string, string)>): seq<string> {
    if ps == [] then [] else PropertyEntries(ps[..|ps| - 1]) + [ps[|ps| - 1].0 + "=" + ps[|ps| - 1].1]
  }

  /** "TYPE[key=value;...]" for one event. */
  function EventEntry(e: Event): string {
    EventTypeName(e.eventType) + "[" + Join(PropertyEntries(e.properties), ';') + "]"
  }

  /** One entry per event, in order. */
  function EventEntries(events: seq<Event>): (r: seq<string>)
    ensures |r| == |events|
    ensures forall k :: 0 <= k < |events| ==> r[k] == EventEntry(events[k])
  {
    if events == [] then [] else EventEntries(events[..|events| - 1]) + [EventEntry(events[|events| - 1])]
  }

  /** The events cell of a CSV row: the event entries joined by ";". */
  function EventsEntry(events: seq<Event>): string {
    Join(EventEntries(events), ';')
  }

  /**
   * When no event has more than one property and no property holds a ";", the events cell
   * splits back into one entry per event.
   */
  lemma EventsEntrySplits(events: seq<Event>)
    requires events != []
    requires forall e :: e in events ==> SimpleEvent(e)
    ensures Split(EventsEntry(events), ';') == EventEntries(events)
  {
    var entries := EventEntries(events);
    forall k | 0 <= k < |entries| ensures ';' !in entries[k] {
      assert events[k] in events;
      SimpleEventEntry(events[k]);
    }
    SplitJoin(entries, ';');
  }

  /** An event with at most one property, whose key and value hold no ";". */
  predicate SimpleEvent(e: Event) {
    |e.properties| <= 1 && forall p :: p in e.properties ==> ';' !in p.0 && ';' !in p.1
  }

  lemma SimpleEventEntry(e: Event)
    requires SimpleEvent(e)
    ensures ';' !in EventEntry(e)
  {
    var ps := PropertyEntries(e.properties);
    if |e.properties| == 1 {
      var p := e.properties[0];
      assert p in e.properties;
      assert e.properties[..0] == [];
      assert PropertyEntries(e.properties[..0]) == [];
      assert ps == [p.0 + "=" + p.1];
      assert ';' !in p.0 + "=" + p.1;
    }
    var name := EventTypeName(e.eventType);
    assert ';' !in name;
    assert EventEntry(e) == name + "[" + Join(ps, ';') + "]";
  }

  /** `_get_word_events_csv_entry`: builds the events cell one event and one property at a time. */
  method WordEventsCsvEntry(events: seq<Event>) returns (entry: string)
    ensures entry == EventsEntry(events)
  {
    var entries: seq<string> := [];
    for k := 0 to |events|
      invariant entries == EventEntries(events[..k])
    {
      var properties: seq<string> := [];
      var ps := events[k].properties;
      for p := 0 to |ps|
        invariant properties == PropertyEntries(ps[..p])
      {
        properties := properties + [ps[p].0 + "=" + ps[p].1];
        assert ps[..p + 1][..p] == ps[..p];
      }
      assert ps[..|ps|] == ps;
      entries := entries + [EventTypeName(events[k].eventType) + "[" + Join(properties, ';') + "]"];
      assert events[..k + 1][..k] == events[..k];
    }
    assert events[..|events|] == events;
    entry := Join(entries, ';');
  }

  /** One CSV row: type code, reference word, hypothesis word, events of the reference token. */
  function CsvRow(op: Operation): seq<string> {
    [Code(op.opType), op.reference.word, op.hypothesis.word, EventsEntry(op.reference.events)]
  }

  /** The rows of a list of operations, in the same order. */
  function Rows(ops: seq<Operation>): (r: seq<seq<string>>)
    ensures |r| == |ops|
    ensures forall k :: 0 <= k < |ops| ==> r[k] == CsvRow(ops[k])
  {
    if ops == [] then [] else Rows(ops[..|ops| - 1]) + [CsvRow(ops[|ops| - 1])]
  }

  /** `list(reversed(s))`. */
  function Reverse<T>(s: seq<T>): (r: seq<T>)
    ensures |r| == |s|
    ensures forall k :: 0 <= k < |s| ==> r[k] == s[|s| - 1 - k]
  {
    if s == [] then [] else Reverse(s[1..]) + [s[0]]
  }

  /** The move of one backtrace step: diagonal for a correct or substituted word. */
  method Move(t: OpType, i: nat, j: nat) returns (i': nat, j': nat)
    requires Moves(t, i, j)
    ensures (i', j') == Next(t, i, j)
  {
    match t {
      case Correct =>
        i', j' := i - 1, j - 1;
      case Substitution =>
        i', j' := i - 1, j - 1;
      case Insertion =>
        i', j' := i, j - 1;
      case Deletion =>
        i', j' := i - 1, j;
    }
  }

  lemma TraceStep(m: array2<Operation>, i: nat, j: nat) returns (rest: seq<Operation>)
    requires WellFormed(m) && i < m.Length0 && j < m.Length1 && (i > 0 || j > 0)
    ensures Moves(m[i, j].opType, i, j)
    ensures var next := Next(m[i, j].opType, i, j); rest == Trace(m, next.0, next.1)
    ensures Trace(m, i, j) == [m[i, j]] + rest
  {
    var next := Next(m[i, j].opType, i, j);
    rest := Trace(m, next.0, next.1);
  }

  /** Records one operation in the three accumulators, one event entry at a time. */
  method RecordOperation(overall: Accumulator, eventTags: seq<(TagKey, Accumulator)>, withoutTags: Accumulator, op: Operation)
    returns (overall': Accumulator, eventTags': seq<(TagKey, Accumulator)>, withoutTags': Accumulator)
    ensures Backtraces(overall', eventTags', withoutTags') == Step(Backtraces(overall, eventTags, withoutTags), op)
  {
    overall', eventTags', withoutTags' := Record(overall, op), eventTags, withoutTags;
    var events := op.reference.events;
    if events == [] {
      withoutTags' := Record(withoutTags, op);
    } else {
      eventTags' := RecordAt(eventTags, AllTags, op);
      for k := 0 to |events|
        invariant eventTags' == RecordEvents(RecordAt(eventTags, AllTags, op), events[..k], op)
      {
        eventTags' := RecordAt(eventTags', EventTag(events[k].eventType), op);
        assert events[..k + 1][..k] == events[..k];
      }
      assert events[..|events|] == events;
    }
  }

  /**
   * The state of the walk at cell (i, j): `done` is the part of the walk already taken, the
   * accumulators hold its operations and the log holds one row per operation of it.
   */
  ghost predicate Walked(m: array2<Operation>, i: nat, j: nat, done: seq<Operation>, b: Backtraces, lines: seq<seq<string>>)
    reads m
  {
    WellFormed(m) && i < m.Length0 && j < m.Length1 &&
    done + Trace(m, i, j) == Trace(m, m.Length0 - 1, m.Length1 - 1) &&
    b == Accumulate(done) && lines == Rows(done)
  }

  /** One turn of the backtrace loop: the operation at (i, j) is recorded and logged, then the walk moves. */
  method WalkStep(m: array2<Operation>, i: nat, j: nat, ghost done: seq<Operation>,
                  overall: Accumulator, eventTags: seq<(TagKey, Accumulator)>, withoutTags: Accumulator,
                  lines: seq<seq<string>>)
    returns (i': nat, j': nat, ghost done': seq<Operation>,
             overall': Accumulator, eventTags': seq<(TagKey, Accumulator)>, withoutTags': Accumulator,
             lines': seq<seq<string>>)
    requires (i > 0 || j > 0) && Walked(m, i, j, done, Backtraces(overall, eventTags, withoutTags), lines)
    ensures Walked(m, i', j', done', Backtraces(overall', eventTags', withoutTags'), lines')
    ensures i' + j' < i + j
  {
    var op := m[i, j];
    ghost var rest := TraceStep(m, i, j);
    i', j' := Move(op.opType, i, j);
    assert (done + [op]) + rest == done + ([op] + rest);
    overall', eventTags', withoutTags' := RecordOperation(overall, eventTags, withoutTags, op);
    var entry := WordEventsCsvEntry(op.reference.events);
    lines' := lines + [[Code(op.opType), op.reference.word, op.hypothesis.word, entry]];
    Appended(done, op);
    done' := done + [op];
  }

  /**
   * Walks the matrix from its last cell back to the origin, recording every operation met in
   * the accumulators and logging one CSV row per operation; the rows come back in forward order.
   */
  method BacktraceOperationMatrix(m: array2<Operation>) returns (b: Backtraces, csv: seq<seq<string>>)
    requires WellFormed(m)
    ensures b == Accumulate(Trace(m, m.Length0 - 1, m.Length1 - 1))
    ensures csv == Reverse(Rows(Trace(m, m.Length0 - 1, m.Length1 - 1)))
  {
    var overall, eventTags, withoutTags := Empty, [], Empty;
    assert Accumulate([]) == Backtraces(overall, eventTags, withoutTags);
    var i: nat, j: nat := m.Length0 - 1, m.Length1 - 1;
    var lines: seq<seq<string>> := [];
    ghost var done: seq<Operation> := [];
    while i > 0 || j > 0
      invariant Walked(m, i, j, done, Backtraces(overall, eventTags, withoutTags), lines)
      decreases i + j
    {
      i, j, done, overall, eventTags, withoutTags, lines := WalkStep(m, i, j, done, overall, eventTags, withoutTags, lines);
    }
    assert Trace(m, i, j) == [];
    assert done + [] == done;
    b := Backtraces(overall, eventTags, withoutTags);
    csv := Reverse(lines);
  }

  /** The log holds one row per step, the first row for the step nearest the origin. */
  lemma ReversedRows(path: seq<Operation>)
    ensures |Reverse(Rows(path))| == |path|
    ensures forall k :: 0 <= k < |path| ==> Reverse(Rows(path))[k] == CsvRow(path[|path| - 1 - k])
  {
    ReverseOfImages(path, Rows(path), CsvRow);
  }

  /** Reversing the images of a list reads the images of the list from its end. */
  lemma ReverseOfImages<A, B>(xs: seq<A>, ys: seq<B>, f: A -> B)
    requires |ys| == |xs| && forall k :: 0 <= k < |xs| ==> ys[k] == f(xs[k])
    ensures |Reverse(ys)| == |xs|
    ensures forall k :: 0 <= k < |xs| ==> Reverse(ys)[k] == f(xs[|xs| - 1 - k])
  {
    var reversed := Reverse(ys);
    forall k | 0 <= k < |xs|
      ensures reversed[k] == f(xs[|xs| - 1 - k])
    {
      assert reversed[k] == ys[|xs| - 1 - k];
    }
  }

  lemma Appended(done: seq<Operation>, op: Operation)
    ensures Accumulate(done + [op]) == Step(Accumulate(done), op)
    ensures Rows(done + [op]) == Rows(done) + [CsvRow(op)]
  {
    assert (done + [op])[..|done|] == done;
  }

  // ---------------------------------------------------------------------------------------
  // What each accumulator holds.
  // ---------------------------------------------------------------------------------------

  /** The views of a backtrace. */
  datatype Scope = Overall | WithoutTags | Tagged(key: TagKey)

  /** The accumulator of one view; a tag never recorded reads as empty. */
  function In(b: Backtraces, s: Scope): Accumulator {
    match s
    case Overall => b.overall
    case WithoutTags => b.withoutTags
    case Tagged(k) => Lookup(b.eventTags, k)
  }

  /** The number of events of a list with a given type. */
  function EventCount(events: seq<Event>, t: EventType): nat {
    if events == [] then 0
    else EventCount(events[..|events| - 1], t) + if events[|events| - 1].eventType == t then 1 else 0
  }

  /** How many times one operation is recorded in a view. */
  function Weight(s: Scope, op: Operation): nat {
    match s
    case Overall => 1
    case WithoutTags => if op.reference.events == [] then 1 else 0
    case Tagged(AllTags) => if op.reference.events == [] then 0 else 1
    case Tagged(EventTag(t)) => EventCount(op.reference.events, t)
  }

  /** Records an operation `w` times. */
  function Repeat(acc: Accumulator, op: Operation, w: nat): Accumulator {
    if w == 0 then acc else Record(Repeat(acc, op, w - 1), op)
  }

  /** The accumulator a view would hold: each operation recorded as many times as it weighs. */
  function AccumulateIn(ops: seq<Operation>, s: Scope): Accumulator {
    if ops == [] then Empty
    else
      var last := ops[|ops| - 1];
      Repeat(AccumulateIn(ops[..|ops| - 1], s), last, Weight(s, last))
  }

  lemma LookupRecordAt(d: seq<(TagKey, Accumulator)>, k: TagKey, op: Operation, key: TagKey)
    ensures Lookup(RecordAt(d, k, op), key) == if key == k then Record(Lookup(d, key), op) else Lookup(d, key)
  {
    var i := IndexOf(d, k);
    if i >= 0 {
      IndexOfReplace(d, i, Record(d[i].1, op), key);
    } else {
      IndexOfAppend(d, (k, Record(Empty, op)), key);
    }
  }

  lemma {:induction false} LookupRecordEvents(d: seq<(TagKey, Accumulator)>, events: seq<Event>, op: Operation, key: TagKey)
    ensures Lookup(RecordEvents(d, events, op), key) ==
      Repeat(Lookup(d, key), op, if key.AllTags? then 0 else EventCount(events, key.eventType))
  {
    if events != [] {
      var init := events[..|events| - 1];
      LookupRecordEvents(d, init, op, key);
      LookupRecordAt(RecordEvents(d, init, op), EventTag(events[|events| - 1].eventType), op, key);
    }
  }

  lemma StepIn(b: Backtraces, op: Operation, s: Scope)
    ensures In(Step(b, op), s) == Repeat(In(b, s), op, Weight(s, op))
  {
    var events := op.reference.events;
    if s.Tagged? && events != [] {
      var d := RecordAt(b.eventTags, AllTags, op);
      LookupRecordEvents(d, events, op, s.key);
      LookupRecordAt(b.eventTags, AllTags, op, s.key);
    }
  }

  /** Each view of the backtrace holds every operation recorded as many times as it weighs. */
  lemma {:induction false} AccumulateScopes(ops: seq<Operation>, s: Scope)
    ensures In(Accumulate(ops), s) == AccumulateIn(ops, s)
  {
    if ops != [] {
      AccumulateScopes(ops[..|ops| - 1], s);
      StepIn(Accumulate(ops[..|ops| - 1]), ops[|ops| - 1], s);
    }
  }

  /** The total weight, in a view, of the operations of one type. */
  function CountIn(ops: seq<Operation>, s: Scope, t: OpType): nat {
    if ops == [] then 0
    else CountIn(ops[..|ops| - 1], s, t) + if ops[|ops| - 1].opType == t then Weight(s, ops[|ops| - 1]) else 0
  }

  /** A view's counters: one per type, and both lengths equal to cor + sub + del. */
  function Expected(ops: seq<Operation>, s: Scope): Totals {
    var cor, sub, del, ins := CountIn(ops, s, Correct), CountIn(ops, s, Substitution),
                              CountIn(ops, s, Deletion), CountIn(ops, s, Insertion);
    Totals(cor, sub, del, ins, cor + sub + del, cor + sub + del)
  }

  /** `n` copies of an operation. */
  function Copies(op: Operation, n: nat): (r: seq<Operation>)
    ensures |r| == n && forall o :: o in r ==> o == op
  {
    if n == 0 then [] else Copies(op, n - 1) + [op]
  }

  lemma {:induction false} RepeatTotals(acc: Accumulator, op: Operation, w: nat)
    ensures var r := Repeat(acc, op, w).totals;
      var a := acc.totals;
      var lengths := if op.opType != Insertion then w else 0;
      r.cor == a.cor + (if op.opType == Correct then w else 0) &&
      r.sub == a.sub + (if op.opType == Substitution then w else 0) &&
      r.del == a.del + (if op.opType == Deletion then w else 0) &&
      r.ins == a.ins + (if op.opType == Insertion then w else 0) &&
      r.refLen == a.refLen + lengths && r.hypLen == a.hypLen + lengths
  {
    if w > 0 {
      RepeatTotals(acc, op, w - 1);
    }
  }

  lemma {:induction false} RepeatGroups(acc: Accumulator, op: Operation, w: nat, t: OpType)
    ensures Repeat(acc, op, w).groups.Of(t) == acc.groups.Of(t) + Copies(op, if op.opType == t then w else 0)
  {
    if w > 0 {
      RepeatGroups(acc, op, w - 1, t);
    }
  }

  /** A view's counters: one per type, and both lengths equal to cor + sub + del. */
  lemma {:induction false} AccumulateInTotals(ops: seq<Operation>, s: Scope)
    ensures AccumulateIn(ops, s).totals == Expected(ops, s)
  {
    if ops != [] {
      var init, last := ops[..|ops| - 1], ops[|ops| - 1];
      AccumulateInTotals(init, s);
      RepeatTotals(AccumulateIn(init, s), last, Weight(s, last));
    }
  }

  /**
   * Each group of a view holds as many operations as its counter, all of that type and each
   * with some weight in the view.
   */
  lemma {:induction false} AccumulateInGroups(ops: seq<Operation>, s: Scope, t: OpType)
    ensures |AccumulateIn(ops, s).groups.Of(t)| == CountIn(ops, s, t)
    ensures forall o :: o in AccumulateIn(ops, s).groups.Of(t) ==> o in ops && o.opType == t && Weight(s, o) > 0
  {
    if ops != [] {
      var init, last := ops[..|ops| - 1], ops[|ops| - 1];
      AccumulateInGroups(init, s, t);
      var before := AccumulateIn(init, s).groups.Of(t);
      var added := Copies(last, if last.opType == t then Weight(s, last) else 0);
      RepeatGroups(AccumulateIn(init, s), last, Weight(s, last), t);
      forall o | o in before + added ensures o in ops && o.opType == t && Weight(s, o) > 0 {
        if o in before {
          assert o in init;
        } else {
          assert o == last;
        }
      }
    }
  }

  /** Overall = without tags + "all", type by type. */
  lemma {:induction false} CountPartition(ops: seq<Operation>, t: OpType)
    ensures CountIn(ops, Overall, t) == CountIn(ops, WithoutTags, t) + CountIn(ops, Tagged(AllTags), t)
  {
    if ops != [] {
      CountPartition(ops[..|ops| - 1], t);
    }
  }

  /** Field-by-field sum of two sets of counters. */
  function Plus(a: Totals, b: Totals): Totals {
    Totals(a.cor + b.cor, a.sub + b.sub, a.del + b.del, a.ins + b.ins, a.refLen + b.refLen, a.hypLen + b.hypLen)
  }

  /** The counter of one operation type. */
  function Counter(t: Totals, k: OpType): nat {
    match k
    case Correct => t.cor
    case Substitution => t.sub
    case Deletion => t.del
    case Insertion => t.ins
  }

  /**
   * Every counter of the overall view is the sum of the same counter of the without-tags view
   * and of the "all" view.
   */
  lemma TotalsPartition(ops: seq<Operation>)
    ensures var b := Accumulate(ops);
      In(b, Overall).totals == Plus(In(b, WithoutTags).totals, In(b, Tagged(AllTags)).totals)
  {
    AccumulateScopes(ops, Overall);
    AccumulateInTotals(ops, Overall);
    AccumulateScopes(ops, WithoutTags);
    AccumulateInTotals(ops, WithoutTags);
    AccumulateScopes(ops, Tagged(AllTags));
    AccumulateInTotals(ops, Tagged(AllTags));
    CountPartition(ops, Correct);
    CountPartition(ops, Substitution);
    CountPartition(ops, Deletion);
    CountPartition(ops, Insertion);
  }

  /** In every view both length counters equal cor + sub + del: insertions bump neither. */
  lemma LengthsBalanced(ops: seq<Operation>, s: Scope)
    ensures var t := In(Accumulate(ops), s).totals;
      t.refLen == t.hypLen == t.cor + t.sub + t.del
  {
    AccumulateScopes(ops, s);
    AccumulateInTotals(ops, s);
  }

  /**
   * In every view each group holds as many operations as the counter of its type; across views
   * the groups split as the counters do: overall = without tags + "all".
   */
  lemma GroupsPartition(ops: seq<Operation>, t: OpType)
    ensures forall s :: |In(Accumulate(ops), s).groups.Of(t)| == Counter(In(Accumulate(ops), s).totals, t)
    ensures var b := Accumulate(ops);
      |In(b, Overall).groups.Of(t)| == |In(b, WithoutTags).groups.Of(t)| + |In(b, Tagged(AllTags)).groups.Of(t)|
  {
    forall s ensures |In(Accumulate(ops), s).groups.Of(t)| == CountIn(ops, s, t) == Counter(In(Accumulate(ops), s).totals, t) {
      AccumulateScopes(ops, s);
      AccumulateInGroups(ops, s, t);
      AccumulateInTotals(ops, s);
    }
    CountPartition(ops, t);
  }

  lemma {:induction false} CountInCons(op: Operation, rest: seq<Operation>, s: Scope, t: OpType)
    ensures CountIn([op] + rest, s, t) == (if op.opType == t then Weight(s, op) else 0) + CountIn(rest, s, t)
    decreases |rest|
  {
    if rest == [] {
      assert ([op] + rest)[..0] == [];
    } else {
      var all := [op] + rest;
      assert all[..|all| - 1] == [op] + rest[..|rest| - 1];
      CountInCons(op, rest[..|rest| - 1], s, t);
    }
  }

  /**
   * The walk from (i, j) meets i operations that consume a reference word
   * (cor + sub + del) and j that consume a hypothesis word (cor + sub + ins).
   */
  lemma {:induction false} TraceCounts(m: array2<Operation>, i: nat, j: nat)
    requires WellFormed(m) && i < m.Length0 && j < m.Length1
    ensures var p := Trace(m, i, j);
      CountIn(p, Overall, Correct) + CountIn(p, Overall, Substitution) + CountIn(p, Overall, Deletion) == i &&
      CountIn(p, Overall, Correct) + CountIn(p, Overall, Substitution) + CountIn(p, Overall, Insertion) == j
    decreases i + j
  {
    if i > 0 || j > 0 {
      var rest := TraceStep(m, i, j);
      var next := Next(m[i, j].opType, i, j);
      TraceCounts(m, next.0, next.1);
      CountInCons(m[i, j], rest, Overall, Correct);
      CountInCons(m[i, j], rest, Overall, Substitution);
      CountInCons(m[i, j], rest, Overall, Deletion);
      CountInCons(m[i, j], rest, Overall, Insertion);
    }
  }

  /**
   * After the whole walk the overall view counts |reference| words on both length counters
   * (so hyp_len is the reference length, not the hypothesis length), and
   * cor + sub + ins is the hypothesis length.
   */
  lemma BacktraceLengths(m: array2<Operation>)
    requires WellFormed(m)
    ensures var t := Accumulate(Trace(m, m.Length0 - 1, m.Length1 - 1)).overall.totals;
      t.refLen == t.hypLen == t.cor + t.sub + t.del == m.Length0 - 1 &&
      t.cor + t.sub + t.ins == m.Length1 - 1
  {
    TraceCounts(m, m.Length0 - 1, m.Length1 - 1);
    OverallTotals(Trace(m, m.Length0 - 1, m.Length1 - 1), m.Length0 - 1, m.Length1 - 1);
  }

  /** The overall counters of a list of operations whose weights add up to `i` and `j`. */
  lemma OverallTotals(p: seq<Operation>, i: nat, j: nat)
    requires CountIn(p, Overall, Correct) + CountIn(p, Overall, Substitution) + CountIn(p, Overall, Deletion) == i
    requires CountIn(p, Overall, Correct) + CountIn(p, Overall, Substitution) + CountIn(p, Overall, Insertion) == j
    ensures var t := Accumulate(p).overall.totals;
      t.refLen == t.hypLen == t.cor + t.sub + t.del == i && t.cor + t.sub + t.ins == j
  {
    AccumulateScopes(p, Overall);
    AccumulateInTotals(p, Overall);
  }

  /** Every operation met on the walk is a cell of the matrix. */
  lemma {:induction false} TraceCells(m: array2<Operation>, i: nat, j: nat)
    requires WellFormed(m) && i < m.Length0 && j < m.Length1
    ensures forall o :: o in Trace(m, i, j) ==> exists a, b :: 0 <= a < m.Length0 && 0 <= b < m.Length1 && m[a, b] == o
    decreases i + j
  {
    if i > 0 || j > 0 {
      var rest := TraceStep(m, i, j);
      var next := Next(m[i, j].opType, i, j);
      TraceCells(m, next.0, next.1);
    }
  }

  lemma {:induction false} CountInAbsent(ops: seq<Operation>, s: Scope, t: OpType)
    requires forall o :: o in ops ==> o.opType != t
    ensures CountIn(ops, s, t) == 0
  {
    if ops != [] {
      CountInAbsent(ops[..|ops| - 1], s, t);
    }
  }

  /** A compiled matrix can be walked: its first row inserts and its first column deletes. */
  lemma CompiledWellFormed(original: seq<Token>, filtered: seq<Token>, hypothesis: seq<Token>, m: array2<Operation>)
    requires |filtered| <= |original|
    requires m.Length0 == |filtered| + 1 && m.Length1 == |hypothesis| + 1
    requires forall i, j :: 0 <= i < m.Length0 && 0 <= j < m.Length1 ==>
      m[i, j] == Aligner.Cell(original, filtered, hypothesis, i, j)
    ensures WellFormed(m)
  {
  }

  /** Walking a compiled matrix never counts a substitution, in any view. */
  lemma CompiledNoSubstitution(original: seq<Token>, filtered: seq<Token>, hypothesis: seq<Token>, m: array2<Operation>, s: Scope)
    requires |filtered| <= |original|
    requires m.Length0 == |filtered| + 1 && m.Length1 == |hypothesis| + 1
    requires forall i, j :: 0 <= i < m.Length0 && 0 <= j < m.Length1 ==>
      m[i, j] == Aligner.Cell(original, filtered, hypothesis, i, j)
    ensures WellFormed(m)
    ensures In(Accumulate(Trace(m, m.Length0 - 1, m.Length1 - 1)), s).totals.sub == 0
  {
    var p := Trace(m, m.Length0 - 1, m.Length1 - 1);
    TraceCells(m, m.Length0 - 1, m.Length1 - 1);
    forall o | o in p ensures o.opType != Substitution {
      var a, b :| 0 <= a < m.Length0 && 0 <= b < m.Length1 && m[a, b] == o;
      Aligner.NoSubstitution(original, filtered, hypothesis, a, b);
    }
    CountInAbsent(p, s, Substitution);
    AccumulateScopes(p, s);
    AccumulateInTotals(p, s);
  }

  lemma ClosedForm(ops: seq<Operation>, s: Scope)
    ensures In(Accumulate(ops), s).totals == Expected(ops, s)
  {
    AccumulateScopes(ops, s);
    AccumulateInTotals(ops, s);
  }

  /**
   * A deleted reference token carrying a vocal-noise and an overlap event counts once overall,
   * not at all without tags, once under "all" and once under each of its two event types.
   */
  lemma TwoEventsDeleted(word: Token, gap: Token)
    requires word.events == [Event(Vocal, []), Event(Overlap, [])]
    ensures var b := Accumulate([Operation(word, gap, Deletion, DeletionPenalty)]);
      In(b, Overall).totals.del == 1 && In(b, WithoutTags).totals.del == 0 &&
      In(b, Tagged(AllTags)).totals.del == 1 &&
      In(b, Tagged(EventTag(Vocal))).totals.del == 1 && In(b, Tagged(EventTag(Overlap))).totals.del == 1 &&
      In(b, Tagged(EventTag(Gap))).totals.del == 0
  {
    var ops := [Operation(word, gap, Deletion, DeletionPenalty)];
    ClosedForm(ops, Overall);
    ClosedForm(ops, WithoutTags);
    ClosedForm(ops, Tagged(AllTags));
    ClosedForm(ops, Tagged(EventTag(Vocal)));
    ClosedForm(ops, Tagged(EventTag(Overlap)));
    ClosedForm(ops, Tagged(EventTag(Gap)));
    assert ops[..0] == [];
    var events := word.events;
    assert events[..1] == [Event(Vocal, [])] && events[..1][..0] == [];
    assert EventCount(events[..1], Vocal) == 1 && EventCount(events[..1], Overlap) == 0;
    assert EventCount(events[..1], Gap) == 0;
    assert EventCount(events, Vocal) == 1 && EventCount(events, Overlap) == 1 && EventCount(events, Gap) == 0;
    var op := ops[0];
    forall s ensures CountIn(ops, s, Deletion) == Weight(s, op) {
      assert CountIn(ops[..0], s, Deletion) == 0;
    }
  }
}
