/**
 * The Levenshtein operation matrix of a reference against a hypothesis
 * (DefaultMetrics._compile_operation_matrix and _get_reference_word).
 *
 * `original` is the utterance's full reference, `filtered` its lexical tokens (Type B
 * placeholders removed) and `hypothesis` the recognised tokens. Row i and column j of the
 * matrix stand for the first i filtered tokens and the first j hypothesis tokens.
 */
module Aligner {
  import opened Canonical
  import opened Operations

  /** Python's `min` of three numbers. */
  function Min3(a: int, b: int, c: int): (r: int)
    ensures r <= a && r <= b && r <= c
    ensures r == a || r == b || r == c
  {
    if a <= b && a <= c then a else if b <= c then b else c
  }

  /**
   * The reference token an operation carries: no word for an insertion, the filtered token's
   * word otherwise; the original token's events ahead of the filtered token's when the original
   * token is a Type B placeholder. Every other field is left at its protobuf default.
   */
  function ReferenceWord(original: Token, filtered: Token, t: OpType): (r: Token)
    ensures r.word == (if t == Insertion then "" else filtered.word)
    ensures r.events == (if IsTypeB(original.tokenType) then original.events else []) + filtered.events
    ensures r.tokenType == Pronunciation && r.startTime == 0.0 && r.endTime == 0.0
  {
    var word := if t == Insertion then "" else filtered.word;
    var events := if IsTypeB(original.tokenType) then original.events + filtered.events else filtered.events;
    Token(word, Pronunciation, 0.0, 0.0, events)
  }

  /**
   * The weighted edit distance between the first i filtered tokens and the first j hypothesis
   * tokens, compared by word: 0 for a match, 1 for an insertion or a deletion, 2 for a
   * substitution.
   */
  function Cost(r: seq<Token>, h: seq<Token>, i: nat, j: nat): int
    requires i <= |r| && j <= |h|
    decreases i + j
  {
    if i == 0 then j
    else if j == 0 then i
    else if r[i - 1].word == h[j - 1].word then Cost(r, h, i - 1, j - 1)
    else
      Min3(Cost(r, h, i - 1, j - 1) + SubstitutionPenalty,
           Cost(r, h, i, j - 1) + InsertionPenalty,
           Cost(r, h, i - 1, j) + DeletionPenalty)
  }

  /**
   * The label of an interior cell whose words differ: insertion when the minimum equals the
   * insertion cost, else deletion when it equals the deletion cost, else substitution.
   */
  function Choice(r: seq<Token>, h: seq<Token>, i: nat, j: nat): OpType
    requires 1 <= i <= |r| && 1 <= j <= |h|
  {
    var c := Cost(r, h, i, j);
    if c == Cost(r, h, i, j - 1) + InsertionPenalty then Insertion
    else if c == Cost(r, h, i - 1, j) + DeletionPenalty then Deletion
    else Substitution
  }

  /** The operation stored at row i, column j of the matrix. */
  function Cell(original: seq<Token>, r: seq<Token>, h: seq<Token>, i: nat, j: nat): (op: Operation)
    requires |r| <= |original| && i <= |r| && j <= |h|
    ensures op.cost == Cost(r, h, i, j)
  {
    if i == 0 && j == 0 then DefaultOperation
    else if i == 0 then
      Operation(if |original| == 0 then Wordless else original[0], h[j - 1], Insertion, InsertionPenalty * j)
    else if j == 0 then
      Operation(ReferenceWord(original[i - 1], r[i - 1], Deletion), Wordless, Deletion, DeletionPenalty * i)
    else if r[i - 1].word == h[j - 1].word then
      Operation(r[i - 1], h[j - 1], Correct, Cost(r, h, i - 1, j - 1))
    else
      var t := Choice(r, h, i, j);
      Operation(ReferenceWord(original[i - 1], r[i - 1], t), if t == Deletion then Wordless else h[j - 1],
                t, Cost(r, h, i, j))
  }

  /**
   * Fills the (|filtered| + 1) x (|hypothesis| + 1) matrix: the first column with deletions,
   * the first row with insertions, then every interior cell from its three neighbours.
   */
  method CompileOperationMatrix(original: seq<Token>, filtered: seq<Token>, hypothesis: seq<Token>)
    returns (m: array2<Operation>)
    requires |filtered| <= |original|
    ensures fresh(m)
    ensures m.Length0 == |filtered| + 1 && m.Length1 == |hypothesis| + 1
    ensures forall i, j :: 0 <= i < m.Length0 && 0 <= j < m.Length1 ==>
      m[i, j] == Cell(original, filtered, hypothesis, i, j)
    ensures m[0, 0].opType == Correct && m[0, 0].cost == 0
    ensures forall i :: 1 <= i < m.Length0 ==> m[i, 0].opType == Deletion && m[i, 0].cost == i
    ensures forall j :: 1 <= j < m.Length1 ==> m[0, j].opType == Insertion && m[0, j].cost == j
    ensures forall j :: 1 <= j < m.Length1 ==>
      m[0, j].reference == (if original == [] then Wordless else original[0])
  {
    var rows, cols := |filtered| + 1, |hypothesis| + 1;
    m := new Operation[rows, cols]((_, _) => DefaultOperation);
    var i := 1;
    while i < rows
      invariant 1 <= i <= rows
      invariant forall a :: 0 <= a < i ==> m[a, 0] == Cell(original, filtered, hypothesis, a, 0)
    {
      m[i, 0] := Operation(ReferenceWord(original[i - 1], filtered[i - 1], Deletion), Wordless, Deletion,
                           DeletionPenalty * i);
      i := i + 1;
    }
    var j := 1;
    while j < cols
      invariant 1 <= j <= cols
      invariant forall a, b :: 0 <= a < rows && 0 <= b < cols && (b == 0 || (a == 0 && b < j)) ==>
        m[a, b] == Cell(original, filtered, hypothesis, a, b)
    {
      var reference := if original == [] then Wordless else original[0];
      m[0, j] := Operation(reference, hypothesis[j - 1], Insertion, InsertionPenalty * j);
      j := j + 1;
    }
    i := 1;
    while i < rows
      invariant 1 <= i <= rows
      invariant forall a, b :: 0 <= a < rows && 0 <= b < cols && (b == 0 || a == 0 || a < i) ==>
        m[a, b] == Cell(original, filtered, hypothesis, a, b)
    {
      FillRow(m, original, filtered, hypothesis, i);
      i := i + 1;
    }
  }

  /** The inner loop: row i, left to right, each cell from the row above and the cell before. */
  method FillRow(m: array2<Operation>, original: seq<Token>, filtered: seq<Token>, hypothesis: seq<Token>, i: nat)
    requires |filtered| <= |original| && 1 <= i <= |filtered|
    requires m.Length0 == |filtered| + 1 && m.Length1 == |hypothesis| + 1
    requires forall a, b :: 0 <= a < i && 0 <= b < m.Length1 ==> m[a, b] == Cell(original, filtered, hypothesis, a, b)
    requires m[i, 0] == Cell(original, filtered, hypothesis, i, 0)
    modifies m
    ensures forall b :: 0 <= b < m.Length1 ==> m[i, b] == Cell(original, filtered, hypothesis, i, b)
    ensures forall a, b :: 0 <= a < m.Length0 && 0 <= b < m.Length1 && a != i ==> m[a, b] == old(m[a, b])
  {
    var j := 1;
    while j < m.Length1
      invariant 1 <= j <= m.Length1
      invariant forall b :: 0 <= b < j ==> m[i, b] == Cell(original, filtered, hypothesis, i, b)
      invariant forall a, b :: 0 <= a < m.Length0 && 0 <= b < m.Length1 && a != i ==> m[a, b] == old(m[a, b])
    {
      assert m[i - 1, j - 1] == Cell(original, filtered, hypothesis, i - 1, j - 1);
      assert m[i - 1, j] == Cell(original, filtered, hypothesis, i - 1, j);
      var op := InteriorOperation(original, filtered, hypothesis, i, j,
                                  m[i - 1, j - 1].cost, m[i, j - 1].cost, m[i - 1, j].cost);
      m[i, j] := op;
      j := j + 1;
    }
  }

  /** One interior cell, from the costs of its diagonal, left and upper neighbours. */
  method InteriorOperation(original: seq<Token>, filtered: seq<Token>, hypothesis: seq<Token>, i: nat, j: nat,
                           diagonal: int, left: int, up: int) returns (op: Operation)
    requires |filtered| <= |original| && 1 <= i <= |filtered| && 1 <= j <= |hypothesis|
    requires diagonal == Cost(filtered, hypothesis, i - 1, j - 1)
    requires left == Cost(filtered, hypothesis, i, j - 1) && up == Cost(filtered, hypothesis, i - 1, j)
    ensures op == Cell(original, filtered, hypothesis, i, j)
  {
    if filtered[i - 1].word == hypothesis[j - 1].word {
      op := Operation(filtered[i - 1], hypothesis[j - 1], Correct, diagonal);
    } else {
      var substitution := diagonal + SubstitutionPenalty;
      var insertion := left + InsertionPenalty;
      var deletion := up + DeletionPenalty;
      var cost := Min3(substitution, insertion, deletion);
      var t, word;
      if cost == insertion {
        t, word := Insertion, hypothesis[j - 1];
      } else if cost == deletion {
        t, word := Deletion, Wordless;
      } else {
        t, word := Substitution, hypothesis[j - 1];
      }
      op := Operation(ReferenceWord(original[i - 1], filtered[i - 1], t), word, t, cost);
    }
  }

  // ---------------------------------------------------------------------------------------
  // Properties of the cost recurrence.
  // ---------------------------------------------------------------------------------------

  /**
   * Neighbouring cells differ in cost by at most one, along a row and along a column.
   */
  lemma {:induction false} CostLipschitz(r: seq<Token>, h: seq<Token>, i: nat, j: nat)
    requires i <= |r| && j <= |h|
    ensures 1 <= i ==> Cost(r, h, i, j) <= Cost(r, h, i - 1, j) + 1 && Cost(r, h, i - 1, j) <= Cost(r, h, i, j) + 1
    ensures 1 <= j ==> Cost(r, h, i, j) <= Cost(r, h, i, j - 1) + 1 && Cost(r, h, i, j - 1) <= Cost(r, h, i, j) + 1
    decreases i + j
  {
    if 1 <= i && 1 <= j {
      var i', j' := i - 1, j - 1;
      CostLipschitz(r, h, i', j);
      CostLipschitz(r, h, i, j');
      CostLipschitzInterior(r, h, i, j);
    } else if 1 <= i {
      assert Cost(r, h, i, j) == i && Cost(r, h, i - 1, j) == i - 1;
    } else if 1 <= j {
      assert Cost(r, h, i, j) == j && Cost(r, h, i, j - 1) == j - 1;
    }
  }

  /** The interior step of CostLipschitz, from the facts about the upper and left cells. */
  lemma CostLipschitzInterior(r: seq<Token>, h: seq<Token>, i: nat, j: nat)
    requires 1 <= i <= |r| && 1 <= j <= |h|
    requires Cost(r, h, i - 1, j) <= Cost(r, h, i - 1, j - 1) + 1 && Cost(r, h, i - 1, j - 1) <= Cost(r, h, i - 1, j) + 1
    requires Cost(r, h, i, j - 1) <= Cost(r, h, i - 1, j - 1) + 1 && Cost(r, h, i - 1, j - 1) <= Cost(r, h, i, j - 1) + 1
    ensures Cost(r, h, i, j) <= Cost(r, h, i - 1, j) + 1 && Cost(r, h, i - 1, j) <= Cost(r, h, i, j) + 1
    ensures Cost(r, h, i, j) <= Cost(r, h, i, j - 1) + 1 && Cost(r, h, i, j - 1) <= Cost(r, h, i, j) + 1
  {
    var i', j' := i - 1, j - 1;
    var diagonal, left, up := Cost(r, h, i', j'), Cost(r, h, i, j'), Cost(r, h, i', j);
    var same := r[i'].word == h[j'].word;
    assert Cost(r, h, i, j) ==
      if same then diagonal
      else Min3(diagonal + SubstitutionPenalty, left + InsertionPenalty, up + DeletionPenalty);
    NeighbourStep(Cost(r, h, i, j), diagonal, left, up, same);
  }

  /**
   * The arithmetic of one interior step of CostLipschitz: when the left and upper costs are
   * within one of the diagonal, the cell's cost is within one of both.
   */
  lemma NeighbourStep(cost: int, diagonal: int, left: int, up: int, same: bool)
    requires diagonal - 1 <= left <= diagonal + 1 && diagonal - 1 <= up <= diagonal + 1
    requires cost == if same then diagonal
      else Min3(diagonal + SubstitutionPenalty, left + InsertionPenalty, up + DeletionPenalty)
    ensures cost <= up + 1 && up <= cost + 1 && cost <= left + 1 && left <= cost + 1
  {
  }

  /** Inserting is never dearer than substituting, so no cell is ever labelled a substitution. */
  lemma NoSubstitution(original: seq<Token>, r: seq<Token>, h: seq<Token>, i: nat, j: nat)
    requires |r| <= |original| && i <= |r| && j <= |h|
    ensures Cell(original, r, h, i, j).opType != Substitution
  {
    if 1 <= i && 1 <= j && r[i - 1].word != h[j - 1].word {
      CostLipschitz(r, h, i, j - 1);
    }
  }

  /**
   * The interior rule: equal words give a correct cell carrying the diagonal cost; different
   * words give an insertion or a deletion whose cost is the cheaper of the two moves.
   */
  lemma InteriorCell(original: seq<Token>, r: seq<Token>, h: seq<Token>, i: nat, j: nat)
    requires |r| <= |original| && 1 <= i <= |r| && 1 <= j <= |h|
    ensures Cell(original, r, h, i, j).opType == Correct <==> r[i - 1].word == h[j - 1].word
    ensures r[i - 1].word == h[j - 1].word ==> Cost(r, h, i, j) == Cost(r, h, i - 1, j - 1)
    ensures r[i - 1].word != h[j - 1].word ==>
      Cost(r, h, i, j) == 1 + if Cost(r, h, i, j - 1) <= Cost(r, h, i - 1, j) then Cost(r, h, i, j - 1) else Cost(r, h, i - 1, j)
    ensures r[i - 1].word != h[j - 1].word ==>
      (Cell(original, r, h, i, j).opType == Insertion <==> Cost(r, h, i, j - 1) <= Cost(r, h, i - 1, j))
  {
    NoSubstitution(original, r, h, i, j);
    CostLipschitz(r, h, i, j - 1);
  }

  /** The length of a longest common subsequence of the two word prefixes. */
  function Lcs(r: seq<Token>, h: seq<Token>, i: nat, j: nat): (n: nat)
    requires i <= |r| && j <= |h|
    ensures n <= i && n <= j
    decreases i + j
  {
    if i == 0 || j == 0 then 0
    else if r[i - 1].word == h[j - 1].word then Lcs(r, h, i - 1, j - 1) + 1
    else
      var a, b := Lcs(r, h, i - 1, j), Lcs(r, h, i, j - 1);
      if a >= b then a else b
  }

  /** With these weights the matrix cost is i + j less twice the common-subsequence length. */
  lemma {:induction false} CostIsLcs(r: seq<Token>, h: seq<Token>, i: nat, j: nat)
    requires i <= |r| && j <= |h|
    ensures Cost(r, h, i, j) == i + j - 2 * Lcs(r, h, i, j)
    decreases i + j
  {
    if 1 <= i && 1 <= j {
      var i', j' := i - 1, j - 1;
      CostIsLcs(r, h, i', j');
      if r[i'].word != h[j'].word {
        CostIsLcs(r, h, i', j);
        CostIsLcs(r, h, i, j');
        CostLipschitz(r, h, i, j');
        CostIsLcsDiffer(r, h, i, j);
      } else {
        CostIsLcsSame(r, h, i, j);
      }
    }
  }

  /** The interior step of CostIsLcs for equal words: both follow the diagonal. */
  lemma CostIsLcsSame(r: seq<Token>, h: seq<Token>, i: nat, j: nat)
    requires 1 <= i <= |r| && 1 <= j <= |h| && r[i - 1].word == h[j - 1].word
    requires Cost(r, h, i - 1, j - 1) == (i - 1) + (j - 1) - 2 * Lcs(r, h, i - 1, j - 1)
    ensures Cost(r, h, i, j) == i + j - 2 * Lcs(r, h, i, j)
  {
    var i', j' := i - 1, j - 1;
    assert Cost(r, h, i, j) == Cost(r, h, i', j');
    assert Lcs(r, h, i, j) == Lcs(r, h, i', j') + 1;
  }

  /** The interior step of CostIsLcs for different words: the cheapest move takes the longer subsequence. */
  lemma CostIsLcsDiffer(r: seq<Token>, h: seq<Token>, i: nat, j: nat)
    requires 1 <= i <= |r| && 1 <= j <= |h| && r[i - 1].word != h[j - 1].word
    requires Cost(r, h, i - 1, j - 1) == (i - 1) + (j - 1) - 2 * Lcs(r, h, i - 1, j - 1)
    requires Cost(r, h, i - 1, j) == (i - 1) + j - 2 * Lcs(r, h, i - 1, j)
    requires Cost(r, h, i, j - 1) == i + (j - 1) - 2 * Lcs(r, h, i, j - 1)
    requires Cost(r, h, i, j - 1) <= Cost(r, h, i - 1, j - 1) + 1
    ensures Cost(r, h, i, j) == i + j - 2 * Lcs(r, h, i, j)
  {
    var i', j' := i - 1, j - 1;
    var diagonal, left, up := Cost(r, h, i', j'), Cost(r, h, i, j'), Cost(r, h, i', j);
    var d, b, a := Lcs(r, h, i', j'), Lcs(r, h, i, j'), Lcs(r, h, i', j);
    LcsStep(i + j, diagonal, left, up, d, b, a);
  }

  /**
   * The arithmetic of one interior step of CostIsLcs: with the diagonal, left and upper costs
   * given by their common-subsequence lengths, the cheapest move gives the longer of the two.
   */
  lemma LcsStep(n: int, diagonal: int, left: int, up: int, d: int, b: int, a: int)
    requires diagonal == n - 2 - 2 * d && left == n - 1 - 2 * b && up == n - 1 - 2 * a
    requires left <= diagonal + 1
    ensures Min3(diagonal + SubstitutionPenalty, left + InsertionPenalty, up + DeletionPenalty) ==
      n - 2 * (if a >= b then a else b)
  {
  }

  /** The cost lies between the length difference and the total length. */
  lemma CostBounds(r: seq<Token>, h: seq<Token>, i: nat, j: nat)
    requires i <= |r| && j <= |h|
    ensures (if i >= j then i - j else j - i) <= Cost(r, h, i, j) <= i + j
  {
    CostIsLcs(r, h, i, j);
  }

  // ---------------------------------------------------------------------------------------
  // The reference token at row i comes from the original token at index i - 1.
  // ---------------------------------------------------------------------------------------

  /** Without Type B tokens, every row's reference token carries its own events only. */
  lemma NoPlaceholderNoMerge(original: seq<Token>, h: seq<Token>, i: nat, j: nat)
    requires forall t :: t in original ==> !IsTypeB(t.tokenType)
    requires 1 <= i <= |Lexical(original)| && j <= |h|
    ensures Lexical(original) == original
    ensures Cell(original, Lexical(original), h, i, j).reference.events == original[i - 1].events
  {
    LexicalKeepsAll(original);
  }

  lemma {:induction false} LexicalKeepsAll(s: seq<Token>)
    requires forall t :: t in s ==> !IsTypeB(t.tokenType)
    ensures Lexical(s) == s
  {
    if s != [] {
      LexicalKeepsAll(s[..|s| - 1]);
      assert s == s[..|s| - 1] + [s[|s| - 1]];
    }
  }

  /**
   * The original token at index i - 1 is paired with the filtered token at index i - 1, not
   * with the one the filtered token came from: a vocal event placed after the last word never
   * reaches the matrix, and its events are lost.
   */
  lemma TrailingPlaceholderLost(e: Event, h: seq<Token>)
    ensures var word := Token("yes", Pronunciation, 0.0, 1.0, []);
      var noise := Token("", VocalEvent, 1.0, 2.0, [e]);
      var original := [word, noise];
      var filtered := Lexical(original);
      filtered == [word] &&
      forall i, j :: 0 <= i <= |filtered| && 0 <= j <= |h| ==>
        e !in Cell(original, filtered, h, i, j).reference.events
  {
    var word := Token("yes", Pronunciation, 0.0, 1.0, []);
    var noise := Token("", VocalEvent, 1.0, 2.0, [e]);
    LexicalSnoc([], word);
    LexicalSnoc([word], noise);
    assert [] + [word] == [word] && [word] + [noise] == [word, noise];
  }

  /**
   * A vocal event in the middle of a reference lends its events to the next word: the filtered
   * token at index 1 is paired with the placeholder at index 1.
   */
  lemma MiddlePlaceholderShifts(e: Event, h: seq<Token>, j: nat)
    requires j <= |h|
    ensures var first := Token("a", Pronunciation, 0.0, 1.0, []);
      var noise := Token("", VocalEvent, 1.0, 2.0, [e]);
      var second := Token("b", Pronunciation, 2.0, 3.0, []);
      var original := [first, noise, second];
      Lexical(original) == [first, second] &&
      (j == 0 || Cell(original, [first, second], h, 2, j).opType != Correct ==>
        Cell(original, [first, second], h, 2, j).reference.events == [e])
  {
    var first := Token("a", Pronunciation, 0.0, 1.0, []);
    var noise := Token("", VocalEvent, 1.0, 2.0, [e]);
    var second := Token("b", Pronunciation, 2.0, 3.0, []);
    MiddlePlaceholderDropped(first, noise, second);
    CellEvents([first, noise, second], [first, second], h, 2, j);
  }

  /** A placeholder between two words is the one token the filtering drops. */
  lemma MiddlePlaceholderDropped(first: Token, noise: Token, second: Token)
    requires !IsTypeB(first.tokenType) && IsTypeB(noise.tokenType) && !IsTypeB(second.tokenType)
    ensures Lexical([first, noise, second]) == [first, second]
  {
    var s := [first, noise, second];
    assert s[..2][..1] == [first] && [first][..0] == [];
    assert Lexical(s[..2][..1]) == [first];
    assert Lexical(s[..2]) == [first];
  }

  /**
   * Outside the first row, a cell that is not a match carries the events of its filtered word,
   * after those of the original token at the same index when that token is a placeholder.
   */
  lemma CellEvents(original: seq<Token>, r: seq<Token>, h: seq<Token>, i: nat, j: nat)
    requires |r| <= |original| && 1 <= i <= |r| && j <= |h|
    ensures j == 0 || Cell(original, r, h, i, j).opType != Correct ==>
      Cell(original, r, h, i, j).reference.events ==
        if IsTypeB(original[i - 1].tokenType) then original[i - 1].events + r[i - 1].events else r[i - 1].events
  {
  }
}
