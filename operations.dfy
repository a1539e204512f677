/**
 * Levenshtein operations and the per-type groups that tally them
 * (LevenshteinOperation and LevenshteinOperationGroup).
 */
module Operations {
  import opened Canonical
  import opened Wrappers
  import opened Ranking

  /** The four edit operations of a word alignment. */
  datatype OpType = Correct | Insertion | Deletion | Substitution

  /** The SCTK penalties of the edit operations. */
  const CorrectPenalty: int := 0
  const InsertionPenalty: int := 1
  const DeletionPenalty: int := 1
  const SubstitutionPenalty: int := 2

  /** The enum member name of an operation type, used as a dictionary key. */
  function TypeName(t: OpType): string {
    match t
    case Correct => "CORRECT"
    case Insertion => "INSERTION"
    case Deletion => "DELETION"
    case Substitution => "SUBSTITUTION"
  }

  /** Different types have different names. */
  lemma TypeNameInjective(a: OpType, b: OpType)
    ensures TypeName(a) == TypeName(b) ==> a == b
  {
    assert TypeName(a)[0] == match a
      case Correct => 'C' case Insertion => 'I' case Deletion => 'D' case Substitution => 'S';
    assert TypeName(b)[0] == match b
      case Correct => 'C' case Insertion => 'I' case Deletion => 'D' case Substitution => 'S';
  }

  /** One step of an alignment: the reference and hypothesis tokens, the edit and its cost. */
  datatype Operation = Operation(reference: Token, hypothesis: Token, opType: OpType, cost: int)

  /** The operation built with every constructor argument left at its default. */
  const DefaultOperation: Operation := Operation(Wordless, Wordless, Correct, CorrectPenalty)

  /** Operations hash and compare by the pair of their two words and nothing else. */
  function Key(op: Operation): (string, string) {
    (op.reference.word, op.hypothesis.word)
  }

  /** Escapes a string for a single-quoted Python literal: backslashes and single quotes. */
  function EscapeSingle(s: string): string {
    if s == [] then []
    else (if s[0] == '\\' then "\\\\" else if s[0] == '\'' then "\\'" else [s[0]]) + EscapeSingle(s[1..])
  }

  /** Escapes a string for a double-quoted Python literal that holds no double quote. */
  function EscapeBackslash(s: string): string {
    if s == [] then []
    else (if s[0] == '\\' then "\\\\" else [s[0]]) + EscapeBackslash(s[1..])
  }

  /** Undoes either escaping: a backslash takes the next character literally. */
  function Unescape(s: string): string
    decreases |s|
  {
    if s == [] then []
    else if s[0] == '\\' && |s| >= 2 then [s[1]] + Unescape(s[2..])
    else [s[0]] + Unescape(s[1..])
  }

  lemma {:induction false} UnescapeSingle(s: string)
    ensures Unescape(EscapeSingle(s)) == s
  {
    if s != [] {
      var head := if s[0] == '\\' then "\\\\" else if s[0] == '\'' then "\\'" else [s[0]];
      var e := head + EscapeSingle(s[1..]);
      assert EscapeSingle(s) == e;
      UnescapeSingle(s[1..]);
      if |head| == 2 {
        assert e[2..] == EscapeSingle(s[1..]);
      } else {
        assert e[1..] == EscapeSingle(s[1..]);
      }
    }
  }

  lemma {:induction false} UnescapeBackslash(s: string)
    ensures Unescape(EscapeBackslash(s)) == s
  {
    if s != [] {
      var head := if s[0] == '\\' then "\\\\" else [s[0]];
      var e := head + EscapeBackslash(s[1..]);
      assert EscapeBackslash(s) == e;
      UnescapeBackslash(s[1..]);
      if |head| == 2 {
        assert e[2..] == EscapeBackslash(s[1..]);
      } else {
        assert e[1..] == EscapeBackslash(s[1..]);
      }
    }
  }

  /**
   * Python's `repr` of a string: double quotes when the text holds a single quote and no
   * double quote, single quotes (escaping them) otherwise.
   */
  function PyRepr(s: string): (r: string)
    ensures |r| >= 2 && r[0] == r[|r| - 1] && (r[0] == '\'' || r[0] == '"')
    ensures Unescape(r[1..|r| - 1]) == s
  {
    if '\'' in s && '"' !in s then
      var r := "\"" + EscapeBackslash(s) + "\"";
      UnescapeBackslash(s);
      assert r[1..|r| - 1] == EscapeBackslash(s);
      r
    else
      var r := "'" + EscapeSingle(s) + "'";
      UnescapeSingle(s);
      assert r[1..|r| - 1] == EscapeSingle(s);
      r
  }

  /** The text of an operation: `repr` of "<reference word> ==> <hypothesis word>". */
  function Repr(op: Operation): string {
    PyRepr(op.reference.word + " ==> " + op.hypothesis.word)
  }

  // ---------------------------------------------------------------------------------------
  // Tallying: a dictionary from operation (by key) to count, kept in insertion order.
  // ---------------------------------------------------------------------------------------

  /** The position of an entry whose operation has key `k`, or -1. */
  function KeyIndex(d: seq<(Operation, nat)>, k: (string, string)): (r: int)
    ensures -1 <= r < |d|
    ensures r >= 0 ==> Key(d[r].0) == k
    ensures r == -1 ==> forall i :: 0 <= i < |d| ==> Key(d[i].0) != k
  {
    if d == [] then -1
    else if Key(d[0].0) == k then 0
    else var r := KeyIndex(d[1..], k); if r == -1 then -1 else r + 1
  }

  /** The count a `defaultdict(int)` returns for key `k`: 0 when it is absent. */
  function CountOf(d: seq<(Operation, nat)>, k: (string, string)): nat {
    var i := KeyIndex(d, k);
    if i >= 0 then d[i].1 else 0
  }

  /** `d[op] += 1`: the first operation seen with a key stays as that key's representative. */
  function Bump(d: seq<(Operation, nat)>, op: Operation): seq<(Operation, nat)> {
    var i := KeyIndex(d, Key(op));
    if i >= 0 then d[i := (d[i].0, d[i].1 + 1)] else d + [(op, 1)]
  }

  /** The dictionary filled by visiting `ops` from the last operation to the first. */
  function Tally(ops: seq<Operation>): seq<(Operation, nat)> {
    if ops == [] then [] else Bump(Tally(ops[1..]), ops[0])
  }

  /** The number of operations of `ops` with key `k`. */
  function Occurrences(ops: seq<Operation>, k: (string, string)): nat {
    if ops == [] then 0 else (if Key(ops[0]) == k then 1 else 0) + Occurrences(ops[1..], k)
  }

  /** The result of `collect_operations`: the tally, stably sorted by descending count. */
  function Collect(ops: seq<Operation>): seq<(Operation, nat)> {
    SortDesc(Tally(ops))
  }

  lemma {:induction false} KeyIndexSameKeys(d: seq<(Operation, nat)>, e: seq<(Operation, nat)>, k: (string, string))
    requires |d| == |e|
    requires forall i :: 0 <= i < |d| ==> Key(d[i].0) == Key(e[i].0)
    ensures KeyIndex(d, k) == KeyIndex(e, k)
  {
    if d != [] {
      KeyIndexSameKeys(d[1..], e[1..], k);
    }
  }

  lemma {:induction false} KeyIndexAppend(d: seq<(Operation, nat)>, x: (Operation, nat), k: (string, string))
    ensures KeyIndex(d + [x], k) ==
      (if KeyIndex(d, k) >= 0 then KeyIndex(d, k) else if Key(x.0) == k then |d| else -1)
  {
    if d == [] {
    } else {
      assert (d + [x])[0] == d[0] && (d + [x])[1..] == d[1..] + [x];
      KeyIndexAppend(d[1..], x, k);
    }
  }

  lemma {:induction false} SumCountsBump(d: seq<(Operation, nat)>, i: nat)
    requires i < |d|
    ensures SumCounts(d[i := (d[i].0, d[i].1 + 1)]) == SumCounts(d) + 1
  {
    if i > 0 {
      assert d[i := (d[i].0, d[i].1 + 1)][1..] == d[1..][i - 1 := (d[i].0, d[i].1 + 1)];
      SumCountsBump(d[1..], i - 1);
    }
  }

  /** One `+= 1` raises the count of the operation's key by one and no other count. */
  lemma {:induction false} BumpEffect(d: seq<(Operation, nat)>, op: Operation, k: (string, string))
    requires DistinctKeys(d, Key)
    ensures DistinctKeys(Bump(d, op), Key)
    ensures KeyIndex(Bump(d, op), k) >= 0 <==> KeyIndex(d, k) >= 0 || k == Key(op)
    ensures CountOf(Bump(d, op), k) == CountOf(d, k) + (if k == Key(op) then 1 else 0)
    ensures SumCounts(Bump(d, op)) == SumCounts(d) + 1
    ensures forall e :: e in Bump(d, op) ==> e.0 == op || exists f :: f in d && f.0 == e.0
  {
    if KeyIndex(d, Key(op)) >= 0 {
      BumpPresent(d, op, k);
    } else {
      BumpAbsent(d, op, k);
    }
  }

  /** `+= 1` on a key already present: the keys stay where they are. */
  lemma BumpPresent(d: seq<(Operation, nat)>, op: Operation, k: (string, string))
    requires DistinctKeys(d, Key) && KeyIndex(d, Key(op)) >= 0
    ensures KeyIndex(Bump(d, op), k) == KeyIndex(d, k)
    ensures DistinctKeys(Bump(d, op), Key)
    ensures CountOf(Bump(d, op), k) == CountOf(d, k) + (if k == Key(op) then 1 else 0)
    ensures SumCounts(Bump(d, op)) == SumCounts(d) + 1
    ensures forall e :: e in Bump(d, op) ==> exists f :: f in d && f.0 == e.0
  {
    var i := KeyIndex(d, Key(op));
    var b := Bump(d, op);
    assert b == d[i := (d[i].0, d[i].1 + 1)];
    RaiseKeepsKeys(d, i, b, k);
    SumCountsBump(d, i);
  }

  /** Raising the count of one entry leaves every key where it was. */
  lemma RaiseKeepsKeys(d: seq<(Operation, nat)>, i: nat, b: seq<(Operation, nat)>, k: (string, string))
    requires DistinctKeys(d, Key) && i < |d| && b == d[i := (d[i].0, d[i].1 + 1)]
    ensures KeyIndex(b, k) == KeyIndex(d, k)
    ensures DistinctKeys(b, Key)
    ensures forall e :: e in b ==> exists f :: f in d && f.0 == e.0
  {
    assert forall j :: 0 <= j < |d| ==> b[j].0 == d[j].0;
    KeyIndexSameKeys(d, b, k);
    forall e | e in b ensures exists f :: f in d && f.0 == e.0 {
      var j :| 0 <= j < |b| && b[j] == e;
      assert d[j] in d;
    }
  }

  /** `+= 1` on a new key: the operation is appended with count one. */
  lemma BumpAbsent(d: seq<(Operation, nat)>, op: Operation, k: (string, string))
    requires DistinctKeys(d, Key) && KeyIndex(d, Key(op)) == -1
    ensures DistinctKeys(Bump(d, op), Key)
    ensures KeyIndex(Bump(d, op), k) >= 0 <==> KeyIndex(d, k) >= 0 || k == Key(op)
    ensures CountOf(Bump(d, op), k) == CountOf(d, k) + (if k == Key(op) then 1 else 0)
    ensures SumCounts(Bump(d, op)) == SumCounts(d) + 1
    ensures forall e :: e in Bump(d, op) ==> e.0 == op || exists f :: f in d && f.0 == e.0
  {
    var b := d + [(op, 1)];
    assert Bump(d, op) == b;
    KeyIndexAppend(d, (op, 1), k);
    SumCountsAppend(d, [(op, 1)]);
    DistinctAppend(d, op);
    forall e | e in b ensures e.0 == op || exists f :: f in d && f.0 == e.0 {
      if e != (op, 1) {
        assert e in d;
      }
    }
  }

  /** A new key appended to a dictionary with distinct keys keeps them distinct. */
  lemma DistinctAppend(d: seq<(Operation, nat)>, op: Operation)
    requires DistinctKeys(d, Key) && KeyIndex(d, Key(op)) == -1
    ensures DistinctKeys(d + [(op, 1)], Key)
  {
    var b := d + [(op, 1)];
    forall i, j | 0 <= i < j < |b| ensures Key(b[i].0) != Key(b[j].0) {
      if j == |d| {
        assert Key(d[i].0) != Key(op);
      }
    }
  }

  /** The tally's keys are distinct, and each key's count is its number of occurrences. */
  lemma {:induction false} TallyCounts(ops: seq<Operation>, k: (string, string))
    ensures DistinctKeys(Tally(ops), Key)
    ensures KeyIndex(Tally(ops), k) >= 0 <==> Occurrences(ops, k) > 0
    ensures CountOf(Tally(ops), k) == Occurrences(ops, k)
  {
    if ops != [] {
      TallyCounts(ops[1..], k);
      BumpEffect(Tally(ops[1..]), ops[0], k);
    }
  }

  /** The tally's counts add up to the number of operations. */
  lemma {:induction false} TallySum(ops: seq<Operation>)
    ensures SumCounts(Tally(ops)) == |ops|
  {
    if ops != [] {
      TallySum(ops[1..]);
      TallyCounts(ops[1..], Key(ops[0]));
      BumpEffect(Tally(ops[1..]), ops[0], Key(ops[0]));
    }
  }

  /** Every representative in the tally is one of the tallied operations. */
  lemma {:induction false} TallyFrom(ops: seq<Operation>)
    ensures forall e :: e in Tally(ops) ==> e.0 in ops
  {
    if ops != [] {
      TallyFrom(ops[1..]);
      TallyCounts(ops[1..], Key(ops[0]));
      BumpEffect(Tally(ops[1..]), ops[0], Key(ops[0]));
      forall e | e in Tally(ops) ensures e.0 in ops {
        if e.0 != ops[0] {
          var f :| f in Tally(ops[1..]) && f.0 == e.0;
          assert f.0 in ops[1..];
        }
      }
    }
  }

  /** Each collected entry is a tallied operation with its number of occurrences. */
  lemma CollectEntries(ops: seq<Operation>)
    ensures forall e :: e in Collect(ops) ==> e.0 in ops && e.1 == Occurrences(ops, Key(e.0)) > 0
  {
    var t := Tally(ops);
    SortDescPermutes(t);
    TallyFrom(ops);
    forall e | e in Collect(ops) ensures e.0 in ops && e.1 == Occurrences(ops, Key(e.0)) > 0 {
      assert e in multiset(t);
      var i :| 0 <= i < |t| && t[i] == e;
      TallyCounts(ops, Key(e.0));
      assert KeyIndex(t, Key(e.0)) == i;
    }
  }

  /** Every operation's key has a collected entry. */
  lemma CollectCovers(ops: seq<Operation>)
    ensures forall op :: op in ops ==> exists e :: e in Collect(ops) && Key(e.0) == Key(op)
  {
    var t := Tally(ops);
    SortDescPermutes(t);
    forall op | op in ops ensures exists e :: e in Collect(ops) && Key(e.0) == Key(op) {
      TallyCounts(ops, Key(op));
      OccursIn(ops, op);
      var e := t[KeyIndex(t, Key(op))];
      assert e in multiset(Collect(ops));
    }
  }

  /**
   * What `collect_operations` promises: one entry per distinct operation, each with its
   * number of occurrences, in descending order of count, the counts adding up to the number
   * of operations; entries with equal counts keep the order in which the reversed list first
   * meets them.
   */
  lemma CollectSpec(ops: seq<Operation>)
    ensures SortedDesc(Collect(ops))
    ensures DistinctKeys(Collect(ops), Key)
    ensures forall e :: e in Collect(ops) ==> e.0 in ops && e.1 == Occurrences(ops, Key(e.0)) > 0
    ensures forall op :: op in ops ==> exists e :: e in Collect(ops) && Key(e.0) == Key(op)
    ensures SumCounts(Collect(ops)) == |ops|
    ensures forall c :: WithCount(Collect(ops), c) == WithCount(Tally(ops), c)
  {
    var t := Tally(ops);
    SortDescSorted(t);
    TallyCounts(ops, ("", ""));
    SortDescDistinct(t, Key);
    CollectEntries(ops);
    CollectCovers(ops);
    TallySum(ops);
    SortDescSum(t);
    forall c ensures WithCount(Collect(ops), c) == WithCount(t, c) {
      SortDescStable(t, c);
    }
  }

  lemma {:induction false} OccursIn(ops: seq<Operation>, op: Operation)
    requires op in ops
    ensures Occurrences(ops, Key(op)) > 0
  {
    if ops[0] != op {
      OccursIn(ops[1..], op);
    }
  }

  // ---------------------------------------------------------------------------------------
  // Rendering groups as dictionaries.
  // ---------------------------------------------------------------------------------------

  /** `dict.update({repr(op): count})` over collected operations, left to right. */
  function Render(c: seq<(Operation, nat)>): seq<(string, nat)> {
    AssignEach(c, RenderedKey, RenderedCount)
  }

  /** The key an operation is rendered under: its text. */
  function RenderedKey(e: (Operation, nat)): string {
    Repr(e.0)
  }

  function RenderedCount(e: (Operation, nat)): nat {
    e.1
  }

  /** The key of a group's entry: the name of its type. */
  function GroupName(g: (OpType, seq<Operation>)): string {
    TypeName(g.0)
  }

  /** The value of a group's entry: its collected operations, rendered. */
  function GroupDict(g: (OpType, seq<Operation>)): seq<(string, nat)> {
    Render(Collect(g.1))
  }

  /** The nested dictionary built from groups given as (type, operations) pairs, in order. */
  function GroupsToDict(groups: seq<(OpType, seq<Operation>)>): seq<(string, seq<(string, nat)>)> {
    AssignEach(groups, GroupName, GroupDict)
  }

  /** When the texts of the collected operations differ, rendering loses nothing. */
  lemma RenderFaithful(c: seq<(Operation, nat)>)
    requires DistinctKeys(c, Repr)
    ensures |Render(c)| == |c|
    ensures forall i :: 0 <= i < |c| ==> Render(c)[i] == (Repr(c[i].0), c[i].1)
  {
    AssignEachEntries(c, RenderedKey, RenderedCount);
  }

  /** The type names differ, so every group gets its own entry, in the order given. */
  lemma GroupsToDictEntries(groups: seq<(OpType, seq<Operation>)>)
    requires forall i, j :: 0 <= i < j < |groups| ==> groups[i].0 != groups[j].0
    ensures |GroupsToDict(groups)| == |groups|
    ensures forall i :: 0 <= i < |groups| ==>
      GroupsToDict(groups)[i] == (TypeName(groups[i].0), Render(Collect(groups[i].1)))
  {
    forall i, j | 0 <= i < j < |groups| ensures GroupName(groups[i]) != GroupName(groups[j]) {
      TypeNameInjective(groups[i].0, groups[j].0);
    }
    AssignEachEntries(groups, GroupName, GroupDict);
  }

  /** Why adding to a group failed. */
  datatype GroupError = TypeMismatch(given: OpType, expected: OpType)

  /** A list of operations that all have one type. */
  class OperationGroup {
    const opType: OpType
    var operations: seq<Operation>

    /** Every operation of the group has the group's type. */
    predicate Valid()
      reads this
    {
      forall op :: op in operations ==> op.opType == opType
    }

    constructor (t: OpType)
      ensures opType == t && operations == [] && Valid()
    {
      opType := t;
      operations := [];
    }

    /** The enum name of the group's type. */
    function TypeNameOf(): (r: string)
      ensures r == TypeName(opType)
    {
      TypeName(opType)
    }

    /** Appends an operation of the group's type; refuses one of another type. */
    method Add(op: Operation) returns (r: Result<(), GroupError>)
      requires Valid()
      modifies this
      ensures Valid()
      ensures op.opType == opType ==> r.Ok? && operations == old(operations) + [op]
      ensures op.opType != opType ==> r == Err(TypeMismatch(op.opType, opType)) && operations == old(operations)
    {
      if op.opType != opType {
        return Err(TypeMismatch(op.opType, opType));
      }
      operations := operations + [op];
      return Ok(());
    }

    /** Counts the operations by key, walking the list backwards, then sorts by count. */
    method CollectOperations() returns (collected: seq<(Operation, nat)>)
      ensures collected == Collect(operations)
      ensures SortedDesc(collected) && SumCounts(collected) == |operations|
      ensures forall e :: e in collected ==> e.1 == Occurrences(operations, Key(e.0))
    {
      var tally: seq<(Operation, nat)> := [];
      var i := |operations|;
      while i > 0
        invariant 0 <= i <= |operations|
        invariant tally == Tally(operations[i..])
      {
        i := i - 1;
        assert operations[i..][1..] == operations[i + 1..];
        tally := Bump(tally, operations[i]);
      }
      assert operations[0..] == operations;
      collected := SortDesc(tally);
      CollectSpec(operations);
    }
  }

  /** `operations_groups_to_dict`, filled one group at a time. */
  method OperationsGroupsToDict(groups: seq<(OpType, seq<Operation>)>) returns (d: seq<(string, seq<(string, nat)>)>)
    ensures d == GroupsToDict(groups)
  {
    d := [];
    var g := 0;
    while g < |groups|
      invariant 0 <= g <= |groups|
      invariant d == GroupsToDict(groups[..g])
    {
      var c := Collect(groups[g].1);
      var inner := RenderCollected(c);
      AssignEachSnoc(groups, GroupName, GroupDict, g);
      d := Assign(d, TypeName(groups[g].0), inner);
      g := g + 1;
    }
    assert groups[..g] == groups;
  }

  /** The inner loop of `operations_groups_to_dict`: one entry per collected operation. */
  method RenderCollected(c: seq<(Operation, nat)>) returns (inner: seq<(string, nat)>)
    ensures inner == Render(c)
  {
    inner := [];
    var k := 0;
    while k < |c|
      invariant 0 <= k <= |c|
      invariant inner == Render(c[..k])
    {
      AssignEachSnoc(c, RenderedKey, RenderedCount, k);
      inner := Assign(inner, Repr(c[k].0), c[k].1);
      k := k + 1;
    }
    assert c[..k] == c;
  }
}
