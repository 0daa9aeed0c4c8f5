/**
 * String helpers of the checker (text_gestion.py): character classes, the
 * two-character validity automaton, the precedence measure of an expression,
 * the single-substitution diff used by proofs, and simultaneous substitution.
 *
 * Every function that the verifier must evaluate on concrete equalities is
 * written by index recursion with one character compared at a time; the
 * lemmas below relate those definitions to slices and concatenations.
 */
module TextGestion {
  import opened Wrappers

  /** Priority of each operator: '+' binds loosest, '^' tightest. */
  const OPERATION_ORDER: map<char, nat> := map['+' := 0, '*' := 1, '^' := 2]
  /** What one parenthesis adds to the priority of the operators it encloses. */
  const PARENTHESIS_ORDER: nat := 3
  /** Text that never appears in a valid expression (rejected by WellFormed). */
  const IMPOSSIBLE_CHARACTER: string := "+#@=={}==@#+"

  predicate NoSpaces(s: string)
  {
    ' ' !in s
  }

  // ----------------------------------------------------------------------
  // full_concatenate

  /** The strings of the list written one after the other. */
  function Concat(strs: seq<string>): string
  {
    if |strs| == 0 then "" else strs[0] + Concat(strs[1..])
  }

  lemma {:induction false} ConcatAppend(a: seq<string>, b: seq<string>)
    ensures Concat(a + b) == Concat(a) + Concat(b)
    decreases |a|
  {
    if |a| == 0 {
      assert a + b == b;
    } else {
      assert (a + b)[1..] == a[1..] + b;
      ConcatAppend(a[1..], b);
    }
  }

  /** The length of the concatenation is the sum of the lengths. */
  function TotalLength(strs: seq<string>): nat
  {
    if |strs| == 0 then 0 else |strs[0]| + TotalLength(strs[1..])
  }

  lemma {:induction false} ConcatLength(strs: seq<string>)
    ensures |Concat(strs)| == TotalLength(strs)
    decreases |strs|
  {
    if |strs| > 0 {
      ConcatLength(strs[1..]);
    }
  }

  method FullConcatenate(strList: seq<string>) returns (result: string)
    ensures result == Concat(strList)
    ensures |result| == TotalLength(strList)
  {
    result := "";
    for i := 0 to |strList|
      invariant result == Concat(strList[..i])
    {
      assert strList[..i + 1] == strList[..i] + [strList[i]];
      ConcatAppend(strList[..i], [strList[i]]);
      result := result + strList[i];
    }
    assert strList[..|strList|] == strList;
    ConcatLength(strList);
  }

  // ----------------------------------------------------------------------
  // remove_spaces

  /** The characters of `s` from index `i` on, without the spaces. */
  function RemoveSpacesFrom(s: string, i: nat): (r: string)
    requires i <= |s|
    ensures NoSpaces(r)
    ensures |r| <= |s| - i
    decreases |s| - i
  {
    if i == |s| then ""
    else if s[i] == ' ' then RemoveSpacesFrom(s, i + 1)
    else [s[i]] + RemoveSpacesFrom(s, i + 1)
  }

  function RemoveSpaces(s: string): (r: string)
    ensures NoSpaces(r)
    ensures |r| <= |s|
  {
    RemoveSpacesFrom(s, 0)
  }

  lemma {:induction false} RemoveSpacesShift(t: string, j: nat)
    requires j <= |t|
    ensures RemoveSpacesFrom(t, j) == RemoveSpacesFrom(t[j..], 0)
    decreases |t| - j
  {
    if j < |t| {
      RemoveSpacesShift(t, j + 1);
      RemoveSpacesShiftOne(t[j..]);
      assert t[j..][1..] == t[j + 1..];
    }
  }

  lemma RemoveSpacesShiftOne(u: string)
    requires |u| > 0
    ensures RemoveSpacesFrom(u, 1) == RemoveSpacesFrom(u[1..], 0)
  {
    ShiftBy(u, 1, 1);
  }

  lemma {:induction false} ShiftBy(u: string, d: nat, i: nat)
    requires d <= i <= |u|
    ensures RemoveSpacesFrom(u, i) == RemoveSpacesFrom(u[d..], i - d)
    decreases |u| - i
  {
    if i < |u| {
      ShiftBy(u, d, i + 1);
      assert u[d..][i - d] == u[i];
    }
  }

  /** The recursion of the source's character scan: the first character, then the rest. */
  lemma RemoveSpacesCons(s: string)
    requires |s| > 0
    ensures RemoveSpaces(s) == if s[0] == ' ' then RemoveSpaces(s[1..]) else [s[0]] + RemoveSpaces(s[1..])
  {
    RemoveSpacesShiftOne(s);
  }

  lemma {:induction false} RemoveSpacesAppend(a: string, b: string)
    ensures RemoveSpaces(a + b) == RemoveSpaces(a) + RemoveSpaces(b)
    decreases |a|
  {
    if |a| == 0 {
      assert a + b == b;
    } else {
      assert (a + b)[0] == a[0];
      assert (a + b)[1..] == a[1..] + b;
      RemoveSpacesAppend(a[1..], b);
      RemoveSpacesCons(a);
      RemoveSpacesCons(a + b);
    }
  }

  /** A string without spaces is left as it is. */
  lemma {:induction false} RemoveSpacesOfSpaceFree(s: string)
    requires NoSpaces(s)
    ensures RemoveSpaces(s) == s
    decreases |s|
  {
    if |s| > 0 {
      RemoveSpacesOfSpaceFree(s[1..]);
      RemoveSpacesCons(s);
    }
  }

  lemma RemoveSpacesIdempotent(s: string)
    ensures RemoveSpaces(RemoveSpaces(s)) == RemoveSpaces(s)
  {
    RemoveSpacesOfSpaceFree(RemoveSpaces(s));
  }

  /** Only spaces are dropped: every other character keeps its number of occurrences. */
  lemma {:induction false} RemoveSpacesKeepsOthers(s: string)
    ensures multiset(RemoveSpaces(s)) == multiset(s)[' ' := 0]
    decreases |s|
  {
    if |s| > 0 {
      RemoveSpacesKeepsOthers(s[1..]);
      RemoveSpacesCons(s);
      assert s == [s[0]] + s[1..];
      assert multiset(s) == multiset([s[0]]) + multiset(s[1..]);
    }
  }

  /** Removing the spaces of a text without them gives nothing back only when it is empty. */
  lemma RemoveSpacesEmpty(s: string)
    requires NoSpaces(s)
    ensures RemoveSpaces(s) == "" <==> s == ""
  {
    RemoveSpacesOfSpaceFree(s);
  }

  // ----------------------------------------------------------------------
  // Occurrences of a pattern (str.count / str.replace scan left to right,
  // jumping over each occurrence they find)

  /** The characters of pat from index k on appear in s from index i + k on. */
  predicate MatchFrom(s: string, pat: string, i: nat, k: nat)
    requires i + |pat| <= |s|
    decreases |pat| - k
  {
    k >= |pat| || (s[i + k] == pat[k] && MatchFrom(s, pat, i, k + 1))
  }

  predicate MatchAt(s: string, pat: string, i: nat)
  {
    i + |pat| <= |s| && MatchFrom(s, pat, i, 0)
  }

  lemma {:induction false} MatchFromIff(s: string, pat: string, i: nat, k: nat)
    requires i + |pat| <= |s| && k <= |pat|
    ensures MatchFrom(s, pat, i, k) <==> s[i + k..i + |pat|] == pat[k..]
    decreases |pat| - k
  {
    if k < |pat| {
      MatchFromIff(s, pat, i, k + 1);
      assert s[i + k..i + |pat|] == [s[i + k]] + s[i + k + 1..i + |pat|];
      assert pat[k..] == [pat[k]] + pat[k + 1..];
    }
  }

  lemma MatchAtIff(s: string, pat: string, i: nat)
    ensures MatchAt(s, pat, i) <==> i + |pat| <= |s| && s[i..i + |pat|] == pat
  {
    if i + |pat| <= |s| {
      MatchFromIff(s, pat, i, 0);
    }
  }

  /** Start positions of the occurrences of pat in s[i..], found left to right without overlap. */
  function OccurrencesFrom(s: string, pat: string, i: nat): (occ: seq<nat>)
    requires |pat| > 0
    ensures forall k :: 0 <= k < |occ| ==> i <= occ[k] && MatchAt(s, pat, occ[k])
    ensures forall k :: 0 <= k < |occ| - 1 ==> occ[k] + |pat| <= occ[k + 1]
    decreases |s| - i
  {
    if i + |pat| > |s| then []
    else if MatchAt(s, pat, i) then [i] + OccurrencesFrom(s, pat, i + |pat|)
    else OccurrencesFrom(s, pat, i + 1)
  }

  function Occurrences(s: string, pat: string): seq<nat>
    requires |pat| > 0
  {
    OccurrencesFrom(s, pat, 0)
  }

  /** Positions in [i, j) where no occurrence starts (j is the next found occurrence or the end). */
  lemma {:induction false} OccurrencesFromSkip(s: string, pat: string, i: nat)
    requires |pat| > 0
    ensures var occ := OccurrencesFrom(s, pat, i);
            forall q :: i <= q && (|occ| == 0 || q < occ[0]) && q + |pat| <= |s| ==> !MatchAt(s, pat, q)
    decreases |s| - i
  {
    if i + |pat| <= |s| && !MatchAt(s, pat, i) {
      OccurrencesFromSkip(s, pat, i + 1);
    }
  }

  // ----------------------------------------------------------------------
  // str.split and split_list

  function SplitFrom(s: string, sep: string, start: nat, i: nat): (parts: seq<string>)
    requires |sep| > 0 && start <= i <= |s|
    ensures |parts| >= 1
    decreases |s| - i
  {
    if i + |sep| > |s| then [s[start..]]
    else if MatchAt(s, sep, i) then [s[start..i]] + SplitFrom(s, sep, i + |sep|, i + |sep|)
    else SplitFrom(s, sep, start, i + 1)
  }

  /** Python's s.split(sep): the pieces between the occurrences of sep. */
  function Split(s: string, sep: string): seq<string>
    requires |sep| > 0
  {
    SplitFrom(s, sep, 0, 0)
  }

  /** The pieces put back together with the separator between them (str.join). */
  function Join(parts: seq<string>, sep: string): string
  {
    if |parts| == 0 then ""
    else if |parts| == 1 then parts[0]
    else parts[0] + sep + Join(parts[1..], sep)
  }

  lemma {:induction false} SplitFromJoin(s: string, sep: string, start: nat, i: nat)
    requires |sep| > 0 && start <= i <= |s|
    ensures Join(SplitFrom(s, sep, start, i), sep) == s[start..]
    decreases |s| - i
  {
    if i + |sep| > |s| {
    } else if MatchAt(s, sep, i) {
      MatchAtIff(s, sep, i);
      var rest := SplitFrom(s, sep, i + |sep|, i + |sep|);
      SplitFromJoin(s, sep, i + |sep|, i + |sep|);
      assert ([s[start..i]] + rest)[1..] == rest;
      assert s[start..] == s[start..i] + s[i..i + |sep|] + s[i + |sep|..];
    } else {
      SplitFromJoin(s, sep, start, i + 1);
    }
  }

  /** Splitting then joining with the same separator gives the text back. */
  lemma SplitJoin(s: string, sep: string)
    requires |sep| > 0
    ensures Join(Split(s, sep), sep) == s
  {
    SplitFromJoin(s, sep, 0, 0);
  }

  /** A match inside a slice is a match in the whole text, shifted by the slice start. */
  lemma MatchInSlice(s: string, pat: string, a: nat, b: nat, q: nat)
    requires a <= b <= |s| && q + |pat| <= b - a
    ensures MatchAt(s[a..b], pat, q) <==> MatchAt(s, pat, a + q)
  {
    MatchAtIff(s[a..b], pat, q);
    MatchAtIff(s, pat, a + q);
    var x, y := s[a..b][q..q + |pat|], s[a + q..a + q + |pat|];
    forall k | 0 <= k < |pat|
      ensures x[k] == y[k]
    {
      assert s[a..b][q + k] == s[a + q + k];
    }
    assert x == y;
  }

  /** A piece never contains the separator. */
  lemma {:induction false} SplitFromPieces(s: string, sep: string, start: nat, i: nat)
    requires |sep| > 0 && start <= i <= |s|
    requires forall q :: start <= q < i && q + |sep| <= |s| ==> !MatchAt(s, sep, q)
    ensures forall k :: 0 <= k < |SplitFrom(s, sep, start, i)| ==>
              forall q :: 0 <= q && q + |sep| <= |SplitFrom(s, sep, start, i)[k]| ==>
                !MatchAt(SplitFrom(s, sep, start, i)[k], sep, q)
    decreases |s| - i
  {
    var parts := SplitFrom(s, sep, start, i);
    if i + |sep| > |s| {
      forall q | 0 <= q && q + |sep| <= |s[start..]|
        ensures !MatchAt(s[start..], sep, q)
      {
        assert start + q < i;
        MatchInSlice(s, sep, start, |s|, q);
        assert s[start..|s|] == s[start..];
      }
    } else if MatchAt(s, sep, i) {
      SplitFromPieces(s, sep, i + |sep|, i + |sep|);
      forall q | 0 <= q && q + |sep| <= |s[start..i]|
        ensures !MatchAt(s[start..i], sep, q)
      {
        MatchInSlice(s, sep, start, i, q);
      }
      assert parts == [s[start..i]] + SplitFrom(s, sep, i + |sep|, i + |sep|);
    } else {
      SplitFromPieces(s, sep, start, i + 1);
    }
  }

  lemma SplitPiecesAvoidSeparator(s: string, sep: string)
    requires |sep| > 0
    ensures forall k :: 0 <= k < |Split(s, sep)| ==>
              forall q :: 0 <= q && q + |sep| <= |Split(s, sep)[k]| ==> !MatchAt(Split(s, sep)[k], sep, q)
  {
    SplitFromPieces(s, sep, 0, 0);
  }

  /** Every element of the list split by the separator, all pieces in order. */
  function SplitAll(strs: seq<string>, sep: string): seq<string>
    requires |sep| > 0
  {
    if |strs| == 0 then [] else Split(strs[0], sep) + SplitAll(strs[1..], sep)
  }

  lemma {:induction false} SplitAllAppend(a: seq<string>, b: seq<string>, sep: string)
    requires |sep| > 0
    ensures SplitAll(a + b, sep) == SplitAll(a, sep) + SplitAll(b, sep)
    decreases |a|
  {
    if |a| == 0 {
      assert a + b == b;
    } else {
      assert (a + b)[1..] == a[1..] + b;
      SplitAllAppend(a[1..], b, sep);
    }
  }

  method SplitList(strList: seq<string>, splitter: string) returns (result: seq<string>)
    requires |splitter| > 0
    ensures result == SplitAll(strList, splitter)
    ensures |result| >= |strList|
  {
    result := [];
    for i := 0 to |strList|
      invariant result == SplitAll(strList[..i], splitter)
      invariant |result| >= i
    {
      var pieces := Split(strList[i], splitter);
      var j := 0;
      var before := result;
      while j < |pieces|
        invariant 0 <= j <= |pieces|
        invariant result == before + pieces[..j]
      {
        result := result + [pieces[j]];
        assert pieces[..j + 1] == pieces[..j] + [pieces[j]];
        j := j + 1;
      }
      assert pieces[..j] == pieces;
      assert strList[..i + 1] == strList[..i] + [strList[i]];
      SplitAllAppend(strList[..i], [strList[i]], splitter);
      assert SplitAll([strList[i]], splitter) == pieces;
    }
    assert strList[..|strList|] == strList;
  }

  /** Concatenating the pieces of every element loses exactly the separators. */
  lemma {:induction false} SplitAllJoin(strs: seq<string>, sep: string)
    requires |sep| > 0
    ensures |SplitAll(strs, sep)| >= |strs|
    ensures forall k :: 0 <= k < |strs| ==> Join(Split(strs[k], sep), sep) == strs[k]
    decreases |strs|
  {
    if |strs| > 0 {
      SplitAllJoin(strs[1..], sep);
      forall k | 0 <= k < |strs|
        ensures Join(Split(strs[k], sep), sep) == strs[k]
      {
        SplitJoin(strs[k], sep);
      }
    }
  }

  // ----------------------------------------------------------------------
  // Counting characters (str.count with a one-character pattern)

  /** Number of occurrences of c in s[i..j]. */
  function CountBetween(s: string, c: char, i: nat, j: nat): nat
    requires i <= j <= |s|
    decreases j - i
  {
    if i == j then 0 else (if s[i] == c then 1 else 0) + CountBetween(s, c, i + 1, j)
  }

  /** Number of occurrences of c in s[i..]. */
  function CountFrom(s: string, c: char, i: nat): nat
    requires i <= |s|
    decreases |s| - i
  {
    if i == |s| then 0 else (if s[i] == c then 1 else 0) + CountFrom(s, c, i + 1)
  }

  function Count(s: string, c: char): nat
  {
    CountFrom(s, c, 0)
  }

  lemma {:induction false} CountFromIsBetween(s: string, c: char, i: nat)
    requires i <= |s|
    ensures CountFrom(s, c, i) == CountBetween(s, c, i, |s|)
    decreases |s| - i
  {
    if i < |s| {
      CountFromIsBetween(s, c, i + 1);
    }
  }

  lemma {:induction false} CountBetweenSplit(s: string, c: char, i: nat, k: nat, j: nat)
    requires i <= k <= j <= |s|
    ensures CountBetween(s, c, i, j) == CountBetween(s, c, i, k) + CountBetween(s, c, k, j)
    decreases k - i
  {
    if i < k {
      CountBetweenSplit(s, c, i + 1, k, j);
    }
  }

  // ----------------------------------------------------------------------
  // compute_first_order_operation

  /**
   * Priority of the first operator met reading s[i..] left to right, where
   * each `aug` seen before it adds PARENTHESIS_ORDER and each `dim` takes it
   * away; 0 when no operator is met.
   */
  function Scan(s: string, i: nat, aug: char, dim: char): int
    requires i <= |s|
    decreases |s| - i
  {
    if i == |s| then 0
    else if s[i] == aug then PARENTHESIS_ORDER + Scan(s, i + 1, aug, dim)
    else if s[i] == dim then Scan(s, i + 1, aug, dim) - PARENTHESIS_ORDER
    else if s[i] in OPERATION_ORDER then OPERATION_ORDER[s[i]]
    else Scan(s, i + 1, aug, dim)
  }

  /** The same measure reading s[..j] from right to left. */
  function ScanBack(s: string, j: nat, aug: char, dim: char): int
    requires j <= |s|
    decreases j
  {
    if j == 0 then 0
    else if s[j - 1] == aug then PARENTHESIS_ORDER + ScanBack(s, j - 1, aug, dim)
    else if s[j - 1] == dim then ScanBack(s, j - 1, aug, dim) - PARENTHESIS_ORDER
    else if s[j - 1] in OPERATION_ORDER then OPERATION_ORDER[s[j - 1]]
    else ScanBack(s, j - 1, aug, dim)
  }

  /**
   * How tightly the first operator of e binds, read from the left ('(' raises)
   * or from the right (')' raises).
   */
  function FirstOrder(e: string, leftToRight: bool): int
  {
    if leftToRight then Scan(e, 0, '(', ')') else ScanBack(e, |e|, ')', '(')
  }

  function Reverse(s: string): (r: string)
    ensures |r| == |s|
    ensures forall i :: 0 <= i < |s| ==> r[i] == s[|s| - 1 - i]
  {
    if |s| == 0 then "" else Reverse(s[1..]) + [s[0]]
  }

  function SwapParen(c: char): char
  {
    if c == '(' then ')' else if c == ')' then '(' else c
  }

  /** The text with every '(' turned into ')' and the other way round. */
  function SwapParens(s: string): (r: string)
    ensures |r| == |s|
    ensures forall i :: 0 <= i < |s| ==> r[i] == SwapParen(s[i])
  {
    seq(|s|, i requires 0 <= i < |s| => SwapParen(s[i]))
  }

  lemma {:induction false} ScanOfReverse(s: string, i: nat, aug: char, dim: char)
    requires i <= |s|
    ensures Scan(Reverse(s), i, aug, dim) == ScanBack(s, |s| - i, aug, dim)
    decreases |s| - i
  {
    if i < |s| {
      ScanOfReverse(s, i + 1, aug, dim);
    }
  }

  lemma {:induction false} ScanOfSwapped(s: string, i: nat)
    requires i <= |s|
    ensures Scan(s, i, ')', '(') == Scan(SwapParens(s), i, '(', ')')
    decreases |s| - i
  {
    if i < |s| {
      ScanOfSwapped(s, i + 1);
    }
  }

  /** Reading right to left is reading the reversed text, with the parentheses swapped, left to right. */
  lemma FirstOrderRightToLeft(e: string)
    ensures FirstOrder(e, false) == FirstOrder(SwapParens(Reverse(e)), true)
  {
    ScanOfReverse(e, 0, ')', '(');
    ScanOfSwapped(Reverse(e), 0);
  }

  /** Index of the first operator of s[i..], or |s| when there is none. */
  function FirstOperatorIndex(s: string, i: nat): (k: nat)
    requires i <= |s|
    ensures i <= k <= |s|
    ensures k < |s| ==> s[k] in OPERATION_ORDER
    ensures forall q :: i <= q < k ==> s[q] !in OPERATION_ORDER
    decreases |s| - i
  {
    if i == |s| then |s| else if s[i] in OPERATION_ORDER then i else FirstOperatorIndex(s, i + 1)
  }

  /**
   * The measure is the operator's priority plus PARENTHESIS_ORDER times the
   * number of parentheses still open in front of it.
   */
  lemma {:induction false} ScanCounts(s: string, i: nat)
    requires i <= |s|
    ensures var k := FirstOperatorIndex(s, i);
            Scan(s, i, '(', ')')
            == PARENTHESIS_ORDER * (CountBetween(s, '(', i, k) - CountBetween(s, ')', i, k))
               + (if k < |s| then OPERATION_ORDER[s[k]] else 0)
    decreases |s| - i
  {
    if i < |s| && s[i] !in OPERATION_ORDER {
      ScanCounts(s, i + 1);
    }
  }

  lemma FirstOrderCounts(e: string)
    ensures var k := FirstOperatorIndex(e, 0);
            FirstOrder(e, true)
            == PARENTHESIS_ORDER * (CountBetween(e, '(', 0, k) - CountBetween(e, ')', 0, k))
               + (if k < |e| then OPERATION_ORDER[e[k]] else 0)
  {
    ScanCounts(e, 0);
  }

  method ComputeFirstOrderOperation(expression: string, leftToRight: bool) returns (order: int)
    ensures order == FirstOrder(expression, leftToRight)
  {
    var augmenting, diminishing := '(', ')';
    var e := expression;
    if !leftToRight {
      augmenting, diminishing := diminishing, augmenting;
      e := Reverse(expression);
      ScanOfReverse(expression, 0, augmenting, diminishing);
    }
    order := 0;
    var i := 0;
    while i < |e|
      invariant 0 <= i <= |e|
      invariant order + Scan(e, i, augmenting, diminishing) == Scan(e, 0, augmenting, diminishing)
    {
      if e[i] == augmenting {
        order := order + PARENTHESIS_ORDER;
      } else if e[i] == diminishing {
        order := order - PARENTHESIS_ORDER;
      } else if e[i] in OPERATION_ORDER {
        order := order + OPERATION_ORDER[e[i]];
        break;
      }
      i := i + 1;
    }
  }

  // ----------------------------------------------------------------------
  // verify_order_operation

  /** What a neighbouring text needs before its outermost character can be read. */
  predicate NeighbourReadable(side: string)
  {
    side != "" ==> RemoveSpaces(side) != ""
  }

  /** The left neighbour binds no tighter than the first operator of the center. */
  predicate LeftNeighbourOk(left: string, center: string)
    requires NeighbourReadable(left)
  {
    left == "" ||
    var op := RemoveSpaces(left)[|RemoveSpaces(left)| - 1];
    op == '(' || (op in OPERATION_ORDER && FirstOrder(center, true) >= OPERATION_ORDER[op])
  }

  /** The right neighbour binds no tighter than the last operator of the center. */
  predicate RightNeighbourOk(center: string, right: string)
    requires NeighbourReadable(right)
  {
    right == "" ||
    var op := RemoveSpaces(right)[0];
    op == ')' || (op in OPERATION_ORDER && FirstOrder(center, false) >= OPERATION_ORDER[op])
  }

  /** The center is one character, parenthesised, or sits directly inside parentheses. */
  predicate Enclosed(left: string, center: string, right: string)
    requires |center| > 0
  {
    |center| == 1 || (center[0] == '(' && center[|center| - 1] == ')')
    || (left != "" && right != "" && left[|left| - 1] == '(' && right[0] == ')')
  }

  /**
   * Whether `center`, written between `left` and `right`, can be replaced
   * without changing how the surrounding operators group it.
   */
  predicate VerifyOrderOperation(left: string, center: string, right: string)
    requires |center| > 0 && NeighbourReadable(left) && NeighbourReadable(right)
  {
    Enclosed(left, center, right) || (LeftNeighbourOk(left, center) && RightNeighbourOk(center, right))
  }

  /** A center written between two '+' operators (or at either end) can always be replaced when it has no ')' . */
  lemma PlusNeighboursAccept(left: string, center: string, right: string)
    requires |center| > 0 && NeighbourReadable(left) && NeighbourReadable(right)
    requires left == "" || RemoveSpaces(left)[|RemoveSpaces(left)| - 1] == '+'
    requires right == "" || RemoveSpaces(right)[0] == '+'
    requires Count(center, ')') == 0 && Count(center, '(') == 0
    ensures VerifyOrderOperation(left, center, right)
  {
    var k := FirstOperatorIndex(center, 0);
    CountFromIsBetween(center, '(', 0);
    CountFromIsBetween(center, ')', 0);
    FirstOrderCounts(center);
    CountBetweenSplit(center, ')', 0, k, |center|);
    CountBetweenSplit(center, '(', 0, k, |center|);
    FirstOrderRightToLeft(center);
    var w := SwapParens(Reverse(center));
    var k' := FirstOperatorIndex(w, 0);
    CountFromIsBetween(w, '(', 0);
    CountFromIsBetween(w, ')', 0);
    FirstOrderCounts(w);
    NoParensSwapped(center);
    CountBetweenSplit(w, ')', 0, k', |w|);
    CountBetweenSplit(w, '(', 0, k', |w|);
  }

  /** A center without parentheses whose first operator is '+' or '*' cannot follow '^'. */
  lemma PowerRejectsLooserCenter(left: string, center: string, right: string)
    requires |center| > 1 && NeighbourReadable(left) && NeighbourReadable(right)
    requires center[0] != '('
    requires left != "" && RemoveSpaces(left)[|RemoveSpaces(left)| - 1] == '^'
    requires Count(center, ')') == 0 && Count(center, '(') == 0
    requires FirstOperatorIndex(center, 0) < |center| && center[FirstOperatorIndex(center, 0)] != '^'
    ensures !VerifyOrderOperation(left, center, right)
  {
    var k := FirstOperatorIndex(center, 0);
    CountFromIsBetween(center, '(', 0);
    CountFromIsBetween(center, ')', 0);
    FirstOrderCounts(center);
    CountBetweenSplit(center, ')', 0, k, |center|);
    CountBetweenSplit(center, '(', 0, k, |center|);
    assert left[|left| - 1] != '(' by {
      assert left == left[..|left| - 1] + [left[|left| - 1]];
      RemoveSpacesAppend(left[..|left| - 1], [left[|left| - 1]]);
    }
  }

  lemma {:induction false} NoParensSwappedFrom(s: string, i: nat)
    requires i <= |s|
    requires CountBetween(s, '(', i, |s|) == 0 && CountBetween(s, ')', i, |s|) == 0
    ensures CountBetween(SwapParens(Reverse(s)), '(', 0, |s| - i) == 0
    ensures CountBetween(SwapParens(Reverse(s)), ')', 0, |s| - i) == 0
    decreases |s| - i
  {
    if i < |s| {
      NoParensSwappedFrom(s, i + 1);
      var w := SwapParens(Reverse(s));
      CountBetweenSplit(w, '(', 0, |s| - i - 1, |s| - i);
      CountBetweenSplit(w, ')', 0, |s| - i - 1, |s| - i);
    }
  }

  lemma NoParensSwapped(s: string)
    requires Count(s, '(') == 0 && Count(s, ')') == 0
    ensures Count(SwapParens(Reverse(s)), '(') == 0 && Count(SwapParens(Reverse(s)), ')') == 0
  {
    CountFromIsBetween(s, '(', 0);
    CountFromIsBetween(s, ')', 0);
    CountFromIsBetween(SwapParens(Reverse(s)), '(', 0);
    CountFromIsBetween(SwapParens(Reverse(s)), ')', 0);
    NoParensSwappedFrom(s, 0);
  }

  /** The example of the source's documentation: b*c cannot be replaced in a + b*c^d. */
  lemma VerifyOrderDocumentedExample()
    ensures !VerifyOrderOperation("a +", "b*c", "^d")
    ensures VerifyOrderOperation("a +", "b*c", "+d")
    ensures VerifyOrderOperation("a^(", "b*c", ")")
  {
    assert RemoveSpaces("a +") == "a+" by {
      assert "a +"[1..] == " +";
      assert " +"[1..] == "+";
    }
    assert RemoveSpaces("^d") == "^d" by {
      RemoveSpacesOfSpaceFree("^d");
    }
    assert RemoveSpaces("+d") == "+d" by {
      RemoveSpacesOfSpaceFree("+d");
    }
  }

  // ----------------------------------------------------------------------
  // Character classes (is_number, is_letter, is_operator, character_code)

  predicate IsNumber(c: char)
  {
    '0' <= c <= '9'
  }

  predicate IsLetter(c: char)
  {
    'a' <= c <= 'z' || 'A' <= c <= 'Z'
  }

  predicate IsOperator(c: char)
  {
    c in OPERATION_ORDER || c == '='
  }

  /** Class of the empty mark standing before the first and after the last character. */
  const EMPTY_CODE: nat := 0

  /** 1 for a digit, 2 a letter, 3 an operator, 4 '(', 5 ')'; None for anything else. */
  function CharacterCode(c: char): (code: Option<nat>)
    ensures code.Some? ==> 1 <= code.value <= 5
    ensures code == Some(1) <==> IsNumber(c)
    ensures code == Some(2) <==> IsLetter(c)
    ensures code == Some(3) <==> IsOperator(c)
    ensures code == Some(4) <==> c == '('
    ensures code == Some(5) <==> c == ')'
  {
    if IsNumber(c) then Some(1)
    else if IsLetter(c) then Some(2)
    else if IsOperator(c) then Some(3)
    else if c == '(' then Some(4)
    else if c == ')' then Some(5)
    else None
  }

  // ----------------------------------------------------------------------
  // verify_maths

  /** ALLOWED[a][b]: may a character of class b follow one of class a. */
  const ALLOWED: seq<seq<bool>> :=
    [[true,  true,  true,  false, true,  false],
     [true,  true,  false, true,  false, true],
     [true,  false, false, true,  false, true],
     [false, true,  true,  false, true,  false],
     [false, true,  true,  false, true,  false],
     [true,  false, false, true,  false, true]]

  predicate Allowed(last: nat, next: nat)
    requires last < 6 && next < 6
  {
    ALLOWED[last][next]
  }

  /** The automaton run over s[i..] after a character of class `last`, ending on the empty mark. */
  predicate AcceptsFrom(s: string, i: nat, last: nat)
    requires i <= |s| && last < 6
    decreases |s| - i
  {
    if i == |s| then Allowed(last, EMPTY_CODE)
    else match CharacterCode(s[i])
      case None => false
      case Some(code) => Allowed(last, code) && AcceptsFrom(s, i + 1, code)
  }

  /** Whether an expression makes sense: as many '(' as ')', and every adjacent pair allowed. */
  predicate WellFormed(e: string)
  {
    Count(e, '(') == Count(e, ')') && AcceptsFrom(RemoveSpaces(e), 0, EMPTY_CODE)
  }

  /** Class of position j of s padded with the empty mark at both ends (j = 0 and j = |s| + 1). */
  function ClassAt(s: string, j: nat): (k: nat)
    ensures k < 6
  {
    if j == 0 || j > |s| then EMPTY_CODE
    else match CharacterCode(s[j - 1])
      case None => EMPTY_CODE
      case Some(code) => code
  }

  predicate AllClassified(s: string)
  {
    forall i :: 0 <= i < |s| ==> CharacterCode(s[i]).Some?
  }

  /** The whole-text reading of the automaton: every character classified, every adjacent pair allowed. */
  predicate AdjacentPairsAllowed(s: string)
  {
    AllClassified(s) && forall j :: 0 <= j <= |s| ==> Allowed(ClassAt(s, j), ClassAt(s, j + 1))
  }

  lemma {:induction false} AcceptsFromIff(s: string, i: nat)
    requires i <= |s|
    ensures AcceptsFrom(s, i, ClassAt(s, i)) <==>
            (forall q :: i <= q < |s| ==> CharacterCode(s[q]).Some?) &&
            (forall j :: i <= j <= |s| ==> Allowed(ClassAt(s, j), ClassAt(s, j + 1)))
    decreases |s| - i
  {
    if i < |s| {
      AcceptsFromIff(s, i + 1);
      if CharacterCode(s[i]).Some? {
        assert ClassAt(s, i + 1) == CharacterCode(s[i]).value;
        assert (forall j :: i <= j <= |s| ==> Allowed(ClassAt(s, j), ClassAt(s, j + 1))) <==>
               Allowed(ClassAt(s, i), ClassAt(s, i + 1)) &&
               (forall j :: i + 1 <= j <= |s| ==> Allowed(ClassAt(s, j), ClassAt(s, j + 1)));
        assert (forall q :: i <= q < |s| ==> CharacterCode(s[q]).Some?) <==>
               (forall q :: i + 1 <= q < |s| ==> CharacterCode(s[q]).Some?);
        assert AcceptsFrom(s, i, ClassAt(s, i)) ==
               (Allowed(ClassAt(s, i), ClassAt(s, i + 1)) && AcceptsFrom(s, i + 1, ClassAt(s, i + 1)));
      } else {
        assert !AcceptsFrom(s, i, ClassAt(s, i));
        assert !(forall q :: i <= q < |s| ==> CharacterCode(s[q]).Some?);
      }
    } else {
      assert ClassAt(s, |s| + 1) == EMPTY_CODE;
    }
  }

  /** The automaton accepts exactly the texts whose adjacent pairs are all allowed. */
  lemma WellFormedIff(e: string)
    ensures WellFormed(e) <==> Count(e, '(') == Count(e, ')') && AdjacentPairsAllowed(RemoveSpaces(e))
  {
    AcceptsFromIff(RemoveSpaces(e), 0);
  }

  method VerifyMaths(expression: string) returns (ok: bool)
    ensures ok <==> Count(expression, '(') == Count(expression, ')') && AdjacentPairsAllowed(RemoveSpaces(expression))
    ensures ok == WellFormed(expression)
  {
    WellFormedIff(expression);
    if Count(expression, '(') != Count(expression, ')') {
      return false;
    }
    var s := RemoveSpaces(expression);
    var last := EMPTY_CODE;
    for i := 0 to |s|
      invariant last == ClassAt(s, i)
      invariant forall q :: 0 <= q < i ==> CharacterCode(s[q]).Some?
      invariant forall j :: 0 <= j < i ==> Allowed(ClassAt(s, j), ClassAt(s, j + 1))
    {
      var code := CharacterCode(s[i]);
      if code.None? {
        return false;
      }
      assert ClassAt(s, i + 1) == code.value;
      if !Allowed(last, code.value) {
        return false;
      }
      last := code.value;
    }
    ok := Allowed(last, EMPTY_CODE);
  }

  /** The empty expression is accepted. */
  lemma WellFormedEmpty()
    ensures WellFormed("")
  {
  }

  /**
   * What an accepted expression looks like: it neither starts nor ends with an
   * operator, does not start with ')' nor end with '(', and each character is
   * followed only by what the table allows.
   */
  lemma WellFormedShape(e: string)
    requires WellFormed(e)
    ensures var s := RemoveSpaces(e);
            |s| > 0 ==> !IsOperator(s[0]) && s[0] != ')' && !IsOperator(s[|s| - 1]) && s[|s| - 1] != '('
    ensures var s := RemoveSpaces(e);
            forall i :: 0 <= i < |s| - 1 ==>
              (IsLetter(s[i]) ==> IsOperator(s[i + 1]) || s[i + 1] == ')') &&
              (IsNumber(s[i]) ==> IsNumber(s[i + 1]) || IsOperator(s[i + 1]) || s[i + 1] == ')') &&
              (IsOperator(s[i]) || s[i] == '(' ==> IsNumber(s[i + 1]) || IsLetter(s[i + 1]) || s[i + 1] == '(') &&
              (s[i] == ')' ==> IsOperator(s[i + 1]) || s[i + 1] == ')')
  {
    WellFormedIff(e);
    var s := RemoveSpaces(e);
    if |s| > 0 {
      assert Allowed(ClassAt(s, 0), ClassAt(s, 1));
      assert Allowed(ClassAt(s, |s|), ClassAt(s, |s| + 1));
    }
    forall i | 0 <= i < |s| - 1
      ensures (IsLetter(s[i]) ==> IsOperator(s[i + 1]) || s[i + 1] == ')') &&
              (IsNumber(s[i]) ==> IsNumber(s[i + 1]) || IsOperator(s[i + 1]) || s[i + 1] == ')') &&
              (IsOperator(s[i]) || s[i] == '(' ==> IsNumber(s[i + 1]) || IsLetter(s[i + 1]) || s[i + 1] == '(') &&
              (s[i] == ')' ==> IsOperator(s[i + 1]) || s[i + 1] == ')')
    {
      assert Allowed(ClassAt(s, i + 1), ClassAt(s, i + 2));
    }
  }

  /** An expression with more '(' than ')' (or fewer) is refused whatever its characters. */
  lemma UnbalancedRefused(e: string)
    requires Count(e, '(') != Count(e, ')')
    ensures !WellFormed(e)
  {
  }

  /** The placeholder text of the source can never pass as an expression. */
  lemma ImpossibleCharacterRefused()
    ensures !WellFormed(IMPOSSIBLE_CHARACTER)
  {
    RemoveSpacesOfSpaceFree(IMPOSSIBLE_CHARACTER);
  }

  /** Only the numbers of parentheses are compared, not their order: a)+(b is accepted. */
  lemma CountsNotNesting()
    ensures WellFormed("a)+(b")
  {
    RemoveSpacesOfSpaceFree("a)+(b");
  }

  // ----------------------------------------------------------------------
  // extract_unknowns

  /** Letters of s[i..] that are not in `seen` yet, appended to it in order of first appearance. */
  function UnknownsFrom(s: string, i: nat, seen: seq<char>): seq<char>
    requires i <= |s|
    decreases |s| - i
  {
    if i == |s| then seen
    else if IsLetter(s[i]) && s[i] !in seen then UnknownsFrom(s, i + 1, seen + [s[i]])
    else UnknownsFrom(s, i + 1, seen)
  }

  /** The distinct letters of s in order of first appearance. */
  function Unknowns(s: string): seq<char>
  {
    UnknownsFrom(s, 0, [])
  }

  predicate Distinct(xs: seq<char>)
  {
    forall i, j :: 0 <= i < j < |xs| ==> xs[i] != xs[j]
  }

  lemma {:induction false} UnknownsFromSpec(s: string, i: nat, seen: seq<char>)
    requires i <= |s| && Distinct(seen)
    ensures var r := UnknownsFrom(s, i, seen);
            Distinct(r) && |seen| <= |r| && r[..|seen|] == seen &&
            (forall c :: c in r <==> c in seen || (IsLetter(c) && c in s[i..]))
    decreases |s| - i
  {
    if i < |s| {
      var seen' := if IsLetter(s[i]) && s[i] !in seen then seen + [s[i]] else seen;
      UnknownsFromSpec(s, i + 1, seen');
      var r := UnknownsFrom(s, i, seen);
      assert r[..|seen'|] == seen';
      assert r[..|seen|] == seen'[..|seen|];
      assert s[i..] == [s[i]] + s[i + 1..];
    }
  }

  /** The unknowns are the letters of the text, each once. */
  lemma UnknownsSpec(s: string)
    ensures Distinct(Unknowns(s))
    ensures forall c :: c in Unknowns(s) <==> IsLetter(c) && c in s
  {
    UnknownsFromSpec(s, 0, []);
  }

  method ExtractUnknowns(expression: string) returns (unknowns: seq<char>)
    ensures unknowns == Unknowns(RemoveSpaces(expression))
    ensures Distinct(unknowns)
    ensures forall c :: c in unknowns <==> IsLetter(c) && c in RemoveSpaces(expression)
  {
    var s := RemoveSpaces(expression);
    unknowns := [];
    for i := 0 to |s|
      invariant UnknownsFrom(s, i, unknowns) == Unknowns(s)
    {
      if IsLetter(s[i]) && s[i] !in unknowns {
        unknowns := unknowns + [s[i]];
      }
    }
    UnknownsSpec(s);
  }

  // ----------------------------------------------------------------------
  // upper_case_first_letter

  function UpperCase(c: char): char
  {
    if 'a' <= c <= 'z' then (c as int - 32) as char else c
  }

  function UpperCaseFirstLetter(text: string): (r: string)
    requires |text| > 0
    ensures |r| == |text| && r[1..] == text[1..]
    ensures 'a' <= text[0] <= 'z' ==> 'A' <= r[0] <= 'Z' && r[0] as int == text[0] as int - 32
    ensures !('a' <= text[0] <= 'z') ==> r == text
  {
    [UpperCase(text[0])] + text[1..]
  }

  // ----------------------------------------------------------------------
  // replace_using_dict

  /**
   * An ordered dictionary from single characters (the unknowns) to the text
   * that replaces them.
   */
  type Replacements = seq<(char, string)>

  predicate DistinctKeys(dict: Replacements)
  {
    forall i, j :: 0 <= i < j < |dict| ==> dict[i].0 != dict[j].0
  }

  /** Index of the entry whose key is c. */
  function KeyIndex(dict: Replacements, c: char): (r: Option<nat>)
    ensures r.Some? ==> r.value < |dict| && dict[r.value].0 == c
    ensures r.Some? ==> forall k :: 0 <= k < r.value ==> dict[k].0 != c
    ensures r.None? ==> forall k :: 0 <= k < |dict| ==> dict[k].0 != c
  {
    if |dict| == 0 then None
    else if dict[0].0 == c then Some(0)
    else match KeyIndex(dict[1..], c)
      case None => None
      case Some(k) => Some(k + 1)
  }

  /** What one character becomes: the value of its key, or itself. */
  function Image(dict: Replacements, c: char): string
  {
    match KeyIndex(dict, c)
    case None => [c]
    case Some(k) => dict[k].1
  }

  /**
   * Every key of the dictionary replaced by its value at the same time: a
   * value that is inserted is never replaced again.
   */
  function Substitute(s: string, dict: Replacements): string
  {
    if |s| == 0 then "" else Image(dict, s[0]) + Substitute(s[1..], dict)
  }

  lemma {:induction false} SubstituteAppend(a: string, b: string, dict: Replacements)
    ensures Substitute(a + b, dict) == Substitute(a, dict) + Substitute(b, dict)
    decreases |a|
  {
    if |a| == 0 {
      assert a + b == b;
    } else {
      assert (a + b)[0] == a[0];
      assert (a + b)[1..] == a[1..] + b;
      SubstituteAppend(a[1..], b, dict);
    }
  }

  /** A text without any key is left unchanged. */
  lemma {:induction false} SubstituteWithoutKeys(s: string, dict: Replacements)
    requires forall i :: 0 <= i < |s| ==> KeyIndex(dict, s[i]).None?
    ensures Substitute(s, dict) == s
    decreases |s|
  {
    if |s| > 0 {
      SubstituteWithoutKeys(s[1..], dict);
    }
  }

  /** Swapping two unknowns works: with a -> b and b -> a, "a+b" becomes "b+a". */
  lemma SubstituteSwaps()
    ensures Substitute("a+b", [('a', "b"), ('b', "a")]) == "b+a"
  {
    var dict := [('a', "b"), ('b', "a")];
    assert Image(dict, 'a') == "b";
    assert Image(dict, 'b') == "a";
    assert Image(dict, '+') == "+";
    assert Substitute("b", dict) == "a";
    assert Substitute("+b", dict) == "+a";
  }

  /** A character of the text, or the placeholder standing for the value of the index-th key. */
  datatype Token = Text(c: char) | Placeholder(index: nat)

  function Texts(s: string): (r: seq<Token>)
    ensures |r| == |s| && forall i :: 0 <= i < |s| ==> r[i] == Text(s[i])
  {
    seq(|s|, i requires 0 <= i < |s| => Text(s[i]))
  }

  /** The text carried by a sequence of tokens in which every placeholder has been expanded. */
  function TextOf(tokens: seq<Token>): string
    requires forall i :: 0 <= i < |tokens| ==> tokens[i].Text?
  {
    if |tokens| == 0 then "" else [tokens[0].c] + TextOf(tokens[1..])
  }

  /** The temporary step for one key: each Text(key) becomes its placeholder. */
  function MarkKey(tokens: seq<Token>, key: char, index: nat): (r: seq<Token>)
    ensures |r| == |tokens|
    ensures forall i :: 0 <= i < |tokens| ==> r[i] == if tokens[i] == Text(key) then Placeholder(index) else tokens[i]
  {
    seq(|tokens|, i requires 0 <= i < |tokens| => if tokens[i] == Text(key) then Placeholder(index) else tokens[i])
  }

  /** The end step for one key: each of its placeholders becomes the value. */
  function Expand(tokens: seq<Token>, index: nat, value: string): seq<Token>
  {
    if |tokens| == 0 then []
    else (if tokens[0] == Placeholder(index) then Texts(value) else [tokens[0]]) + Expand(tokens[1..], index, value)
  }

  lemma {:induction false} ExpandAppend(a: seq<Token>, b: seq<Token>, index: nat, value: string)
    ensures Expand(a + b, index, value) == Expand(a, index, value) + Expand(b, index, value)
    decreases |a|
  {
    if |a| == 0 {
      assert a + b == b;
    } else {
      assert (a + b)[0] == a[0];
      assert (a + b)[1..] == a[1..] + b;
      ExpandAppend(a[1..], b, index, value);
    }
  }

  lemma {:induction false} ExpandTexts(s: string, index: nat, value: string)
    ensures Expand(Texts(s), index, value) == Texts(s)
    decreases |s|
  {
    if |s| > 0 {
      assert Texts(s)[1..] == Texts(s[1..]);
      ExpandTexts(s[1..], index, value);
    }
  }

  /** After the temporary step for the first n keys: keys among them are placeholders. */
  function Marked(s: string, dict: Replacements, n: nat): (r: seq<Token>)
    ensures |r| == |s|
  {
    seq(|s|, i requires 0 <= i < |s| =>
      match KeyIndex(dict, s[i])
      case Some(k) => if k < n then Placeholder(k) else Text(s[i])
      case None => Text(s[i]))
  }

  /** What one character has become after the end step for the first n keys. */
  function Piece(dict: Replacements, c: char, n: nat): seq<Token>
  {
    match KeyIndex(dict, c)
    case Some(k) => if k < n then Texts(dict[k].1) else [Placeholder(k)]
    case None => [Text(c)]
  }

  /** After the end step for the first n keys. */
  function Expanded(s: string, dict: Replacements, n: nat): seq<Token>
  {
    if |s| == 0 then [] else Piece(dict, s[0], n) + Expanded(s[1..], dict, n)
  }

  lemma {:induction false} ExpandStep(s: string, dict: Replacements, n: nat)
    requires n < |dict|
    ensures Expand(Expanded(s, dict, n), n, dict[n].1) == Expanded(s, dict, n + 1)
    decreases |s|
  {
    if |s| > 0 {
      ExpandAppend(Piece(dict, s[0], n), Expanded(s[1..], dict, n), n, dict[n].1);
      ExpandStep(s[1..], dict, n);
      match KeyIndex(dict, s[0])
      case Some(k) =>
        if k < n {
          ExpandTexts(dict[k].1, n, dict[n].1);
        } else {
          assert Expand([Placeholder(k)], n, dict[n].1) == if k == n then Texts(dict[n].1) else [Placeholder(k)];
        }
      case None =>
        assert Expand([Text(s[0])], n, dict[n].1) == [Text(s[0])];
    }
  }

  lemma {:induction false} MarkedAllIsExpandedNone(s: string, dict: Replacements)
    ensures Marked(s, dict, |dict|) == Expanded(s, dict, 0)
    decreases |s|
  {
    if |s| > 0 {
      MarkedAllIsExpandedNone(s[1..], dict);
      assert Marked(s, dict, |dict|) == [Marked(s, dict, |dict|)[0]] + Marked(s[1..], dict, |dict|);
    }
  }

  lemma {:induction false} ExpandedAllIsSubstitute(s: string, dict: Replacements)
    ensures forall i :: 0 <= i < |Expanded(s, dict, |dict|)| ==> Expanded(s, dict, |dict|)[i].Text?
    ensures TextOf(Expanded(s, dict, |dict|)) == Substitute(s, dict)
    decreases |s|
  {
    if |s| > 0 {
      ExpandedAllIsSubstitute(s[1..], dict);
      TextOfAppend(Texts(Image(dict, s[0])), Expanded(s[1..], dict, |dict|));
      TextOfTexts(Image(dict, s[0]));
    }
  }

  lemma {:induction false} TextOfAppend(a: seq<Token>, b: seq<Token>)
    requires forall i :: 0 <= i < |a| ==> a[i].Text?
    requires forall i :: 0 <= i < |b| ==> b[i].Text?
    ensures forall i :: 0 <= i < |a + b| ==> (a + b)[i].Text?
    ensures TextOf(a + b) == TextOf(a) + TextOf(b)
    decreases |a|
  {
    if |a| > 0 {
      assert (a + b)[1..] == a[1..] + b;
      TextOfAppend(a[1..], b);
    } else {
      assert a + b == b;
    }
  }

  lemma {:induction false} TextOfTexts(s: string)
    ensures TextOf(Texts(s)) == s
    decreases |s|
  {
    if |s| > 0 {
      assert Texts(s)[1..] == Texts(s[1..]);
      TextOfTexts(s[1..]);
    }
  }

  /**
   * The source's two passes: every key is first turned into a placeholder that
   * no text can contain, then every placeholder into its value.
   */
  method ReplaceUsingDict(s: string, dict: Replacements) returns (r: string)
    ensures r == Substitute(s, dict)
  {
    var tokens := Texts(s);
    assert tokens == Marked(s, dict, 0);
    for index := 0 to |dict|
      invariant tokens == Marked(s, dict, index)
    {
      tokens := MarkKey(tokens, dict[index].0, index);
      assert tokens == Marked(s, dict, index + 1) by {
        forall i | 0 <= i < |s|
          ensures tokens[i] == Marked(s, dict, index + 1)[i]
        {
          match KeyIndex(dict, s[i])
          case Some(k) =>
          case None =>
        }
      }
    }
    MarkedAllIsExpandedNone(s, dict);
    for index := 0 to |dict|
      invariant tokens == Expanded(s, dict, index)
    {
      ExpandStep(s, dict, index);
      tokens := Expand(tokens, index, dict[index].1);
    }
    ExpandedAllIsSubstitute(s, dict);
    r := TextOf(tokens);
  }

  // ----------------------------------------------------------------------
  // only_one_modification

  /** `after` is `before` with the n characters at p replaced by rhs, compared one character at a time. */
  predicate SpliceFrom(before: string, p: nat, n: nat, rhs: string, after: string, k: nat)
    requires p + n <= |before| && |after| == |before| - n + |rhs|
    decreases |after| - k
  {
    k >= |after| ||
    (after[k] == (if k < p then before[k] else if k < p + |rhs| then rhs[k - p] else before[k - |rhs| + n])
     && SpliceFrom(before, p, n, rhs, after, k + 1))
  }

  predicate SpliceIs(before: string, p: nat, n: nat, rhs: string, after: string)
    requires p + n <= |before|
  {
    |after| == |before| - n + |rhs| && SpliceFrom(before, p, n, rhs, after, 0)
  }

  lemma {:induction false} SpliceFromIff(before: string, p: nat, n: nat, rhs: string, after: string, k: nat)
    requires p + n <= |before| && |after| == |before| - n + |rhs| && k <= |after|
    ensures SpliceFrom(before, p, n, rhs, after, k) <==> after[k..] == (before[..p] + rhs + before[p + n..])[k..]
    decreases |after| - k
  {
    var w := before[..p] + rhs + before[p + n..];
    if k < |after| {
      SpliceFromIff(before, p, n, rhs, after, k + 1);
      assert w[k] == if k < p then before[k] else if k < p + |rhs| then rhs[k - p] else before[k - |rhs| + n];
      assert after[k..] == [after[k]] + after[k + 1..];
      assert w[k..] == [w[k]] + w[k + 1..];
    }
  }

  lemma SpliceIsIff(before: string, p: nat, n: nat, rhs: string, after: string)
    requires p + n <= |before|
    ensures SpliceIs(before, p, n, rhs, after) <==> after == before[..p] + rhs + before[p + n..]
  {
    if |after| == |before| - n + |rhs| {
      SpliceFromIff(before, p, n, rhs, after, 0);
    }
  }

  /** Index in occ of the first occurrence whose replacement gives `after`. */
  function FirstSplice(before: string, after: string, n: nat, rhs: string, occ: seq<nat>): (r: Option<nat>)
    requires forall k :: 0 <= k < |occ| ==> occ[k] + n <= |before|
    ensures r.Some? ==> r.value < |occ| && SpliceIs(before, occ[r.value], n, rhs, after)
    ensures r.Some? ==> forall k :: 0 <= k < r.value ==> !SpliceIs(before, occ[k], n, rhs, after)
    ensures r.None? ==> forall k :: 0 <= k < |occ| ==> !SpliceIs(before, occ[k], n, rhs, after)
  {
    if |occ| == 0 then None
    else if SpliceIs(before, occ[0], n, rhs, after) then Some(0)
    else match FirstSplice(before, after, n, rhs, occ[1..])
      case None => None
      case Some(k) => Some(k + 1)
  }

  /** What the source needs of a modification: when it has exactly one '=', both sides are non-empty. */
  predicate ModificationReadable(modification: string)
  {
    var parts := Split(modification, "=");
    |parts| == 2 ==> |parts[0]| > 0 && |parts[1]| > 0
  }

  /** What the source needs of the old equality: it does not start or end with a space. */
  predicate EdgesReadable(before: string)
  {
    |before| > 0 ==> before[0] != ' ' && before[|before| - 1] != ' '
  }

  lemma PrefixReadable(before: string, p: nat)
    requires EdgesReadable(before) && p <= |before|
    ensures NeighbourReadable(before[..p]) && NeighbourReadable(before[p..])
  {
    if p > 0 {
      assert before[..p] == [before[0]] + before[1..p];
    }
    if p < |before| {
      assert before[p..] == before[p..|before| - 1] + [before[|before| - 1]];
      RemoveSpacesAppend(before[p..|before| - 1], [before[|before| - 1]]);
    }
  }

  /**
   * Whether `after` is obtained from `before` by replacing one occurrence of the
   * left side of `modification` (an equality lhs=rhs) by its right side, at the
   * first occurrence where that replacement gives `after`, and whether that
   * replacement respects the order of operations.
   */
  predicate SingleModification(before: string, after: string, modification: string)
    requires ModificationReadable(modification) && EdgesReadable(before)
  {
    var parts := Split(modification, "=");
    if |parts| != 2 then false
    else
      var lhs, rhs := parts[0], parts[1];
      var occ := Occurrences(before, lhs);
      match FirstSplice(before, after, |lhs|, rhs, occ)
      case None => false
      case Some(k) => ReplacementOrderOk(before, occ[k], |lhs|, rhs)
  }

  /** The order of operations allows rhs in place of the n characters of `before` at p. */
  predicate ReplacementOrderOk(before: string, p: nat, n: nat, rhs: string)
    requires EdgesReadable(before) && p + n <= |before| && |rhs| > 0
  {
    PrefixReadable(before, p);
    PrefixReadable(before, p + n);
    VerifyOrderOperation(before[..p], rhs, before[p + n..])
  }

  lemma FirstSpliceAt(before: string, after: string, n: nat, rhs: string, occ: seq<nat>, i: nat)
    requires forall k :: 0 <= k < |occ| ==> occ[k] + n <= |before|
    requires i < |occ| && SpliceIs(before, occ[i], n, rhs, after)
    requires forall k :: 0 <= k < i ==> !SpliceIs(before, occ[k], n, rhs, after)
    ensures FirstSplice(before, after, n, rhs, occ) == Some(i)
  {
  }

  method OnlyOneModification(oldStatement: string, newStatement: string, modification: string)
    returns (ok: bool)
    requires ModificationReadable(modification) && EdgesReadable(oldStatement)
    ensures ok == SingleModification(oldStatement, newStatement, modification)
  {
    var parts := Split(modification, "=");
    if |parts| != 2 {
      return false;
    }
    var lhs, rhs := parts[0], parts[1];
    var occ := Occurrences(oldStatement, lhs);
    for possibility := 0 to |occ|
      invariant forall k :: 0 <= k < possibility ==> !SpliceIs(oldStatement, occ[k], |lhs|, rhs, newStatement)
    {
      var p := occ[possibility];
      var candidate := oldStatement[..p] + rhs + oldStatement[p + |lhs|..];
      SpliceIsIff(oldStatement, p, |lhs|, rhs, newStatement);
      if candidate == newStatement {
        FirstSpliceAt(oldStatement, newStatement, |lhs|, rhs, occ, possibility);
        return ReplacementOrderOk(oldStatement, p, |lhs|, rhs);
      }
    }
    return false;
  }

  /**
   * An accepted modification really is one replacement: `before` and `after`
   * share a prefix and a suffix around an occurrence of lhs in `before` and of
   * rhs in `after`.
   */
  lemma SingleModificationSound(before: string, after: string, lhs: string, rhs: string)
    requires |lhs| > 0 && |rhs| > 0 && EdgesReadable(before)
    requires Split(lhs + "=" + rhs, "=") == [lhs, rhs]
    requires SingleModification(before, after, lhs + "=" + rhs)
    ensures exists p :: 0 <= p && p + |lhs| <= |before| && before == before[..p] + lhs + before[p + |lhs|..]
              && after == before[..p] + rhs + before[p + |lhs|..]
              && ReplacementOrderOk(before, p, |lhs|, rhs)
  {
    var occ := Occurrences(before, lhs);
    var k := FirstSplice(before, after, |lhs|, rhs, occ).value;
    var p := occ[k];
    MatchAtIff(before, lhs, p);
    SpliceIsIff(before, p, |lhs|, rhs, after);
    assert before == before[..p] + before[p..p + |lhs|] + before[p + |lhs|..];
  }

  /**
   * When the first occurrence of x in `before` is the one that gives `after`,
   * the modification x=y is accepted exactly when the order of operations
   * allows y between the text on its left and the text on its right.
   */
  lemma SingleModificationAt(before: string, after: string, x: string, y: string, left: string, right: string)
    requires |x| > 0 && |y| > 0 && Lacks(x, '=') && Lacks(y, '=') && EdgesReadable(before)
    requires ModificationReadable(Eq(x, y))
    requires NeighbourReadable(left) && NeighbourReadable(right)
    requires before == left + x + right && after == left + y + right
    requires |Occurrences(before, x)| > 0 && Occurrences(before, x)[0] == |left|
    ensures SingleModification(before, after, Eq(x, y)) == VerifyOrderOperation(left, y, right)
  {
    SplitEq(x, y);
    var p := |left|;
    assert before[..p] == left;
    assert before[p + |x|..] == right;
    SpliceIsIff(before, p, |x|, y, after);
    FirstSpliceAt(before, after, |x|, y, Occurrences(before, x), 0);
  }

  /** When x occurs only once in `before` and replacing it there does not give `after`, x=y is refused. */
  lemma SingleModificationMiss(before: string, after: string, x: string, y: string, left: string, right: string)
    requires |x| > 0 && Lacks(x, '=') && Lacks(y, '=') && EdgesReadable(before)
    requires ModificationReadable(Eq(x, y))
    requires before == left + x + right && after != left + y + right
    requires Occurrences(before, x) == [|left|]
    ensures !SingleModification(before, after, Eq(x, y))
  {
    SplitEq(x, y);
    var p := |left|;
    assert before[..p] == left;
    assert before[p + |x|..] == right;
    SpliceIsIff(before, p, |x|, y, after);
  }

  /** When x occurs twice in `before` and replacing it at neither place gives `after`, x=y is refused. */
  lemma SingleModificationMissTwice(before: string, after: string, x: string, y: string,
                                    left: string, right: string, left2: string, right2: string)
    requires |x| > 0 && Lacks(x, '=') && Lacks(y, '=') && EdgesReadable(before)
    requires ModificationReadable(Eq(x, y))
    requires before == left + x + right && after != left + y + right
    requires before == left2 + x + right2 && after != left2 + y + right2
    requires Occurrences(before, x) == [|left|, |left2|]
    ensures !SingleModification(before, after, Eq(x, y))
  {
    SplitEq(x, y);
    assert before[..|left|] == left && before[|left| + |x|..] == right;
    assert before[..|left2|] == left2 && before[|left2| + |x|..] == right2;
    SpliceIsIff(before, |left|, |x|, y, after);
    SpliceIsIff(before, |left2|, |x|, y, after);
  }

  /** Without an occurrence of the left side in `before` no modification is accepted. */
  lemma SingleModificationNeedsOccurrence(before: string, after: string, modification: string)
    requires ModificationReadable(modification) && EdgesReadable(before)
    requires var parts := Split(modification, "=");
             |parts| == 2 && Occurrences(before, parts[0]) == []
    ensures !SingleModification(before, after, modification)
  {
  }

  /** A modification that is not one equality (no '=' or several) is never accepted. */
  lemma SingleModificationNeedsOneEquality(before: string, after: string, modification: string)
    requires ModificationReadable(modification) && EdgesReadable(before)
    requires |Split(modification, "=")| != 2
    ensures !SingleModification(before, after, modification)
  {
  }

  // ----------------------------------------------------------------------
  // evaluate_expression and str() of its result

  function DigitValue(c: char): nat
    requires IsNumber(c)
  {
    c as int - '0' as int
  }

  function Digit(d: nat): (c: char)
    requires d < 10
    ensures IsNumber(c) && DigitValue(c) == d
  {
    ('0' as int + d) as char
  }

  function Power(base: nat, exponent: nat): nat
    decreases exponent
  {
    if exponent == 0 then 1 else base * Power(base, exponent - 1)
  }

  /** A run of digits starting at i, read onto acc: its value and the index after it. */
  function NumberFrom(s: string, i: nat, acc: nat): (r: (nat, nat))
    requires i <= |s|
    ensures i <= r.1 <= |s|
    decreases |s| - i
  {
    if i < |s| && IsNumber(s[i]) then NumberFrom(s, i + 1, acc * 10 + DigitValue(s[i])) else (acc, i)
  }

  /*
   * The integer expressions of simplifications, with the precedence of the
   * source's evaluator ('^' read as a power):
   *   sum     = product { '+' product }
   *   product = power { '*' power }
   *   power   = atom [ '^' power ]        (right associative)
   *   atom    = digits | '(' sum ')'
   * Each parser returns the value and the index after what it read.
   */

  function ParseSum(s: string, i: nat): (r: Option<(nat, nat)>)
    requires i <= |s|
    ensures r.Some? ==> i < r.value.1 <= |s|
    decreases |s| - i, 5
  {
    match ParseProduct(s, i)
    case None => None
    case Some((v, j)) => SumRest(s, v, j)
  }

  function SumRest(s: string, acc: nat, j: nat): (r: Option<(nat, nat)>)
    requires j <= |s|
    ensures r.Some? ==> j <= r.value.1 <= |s|
    decreases |s| - j, 4
  {
    if j < |s| && s[j] == '+' then
      match ParseProduct(s, j + 1)
      case None => None
      case Some((v, k)) => SumRest(s, acc + v, k)
    else Some((acc, j))
  }

  function ParseProduct(s: string, i: nat): (r: Option<(nat, nat)>)
    requires i <= |s|
    ensures r.Some? ==> i < r.value.1 <= |s|
    decreases |s| - i, 3
  {
    match ParsePower(s, i)
    case None => None
    case Some((v, j)) => ProductRest(s, v, j)
  }

  function ProductRest(s: string, acc: nat, j: nat): (r: Option<(nat, nat)>)
    requires j <= |s|
    ensures r.Some? ==> j <= r.value.1 <= |s|
    decreases |s| - j, 2
  {
    if j < |s| && s[j] == '*' then
      match ParsePower(s, j + 1)
      case None => None
      case Some((v, k)) => ProductRest(s, acc * v, k)
    else Some((acc, j))
  }

  function ParsePower(s: string, i: nat): (r: Option<(nat, nat)>)
    requires i <= |s|
    ensures r.Some? ==> i < r.value.1 <= |s|
    decreases |s| - i, 1
  {
    match ParseAtom(s, i)
    case None => None
    case Some((b, j)) =>
      if j < |s| && s[j] == '^' then
        match ParsePower(s, j + 1)
        case None => None
        case Some((e, k)) => Some((Power(b, e), k))
      else Some((b, j))
  }

  function ParseAtom(s: string, i: nat): (r: Option<(nat, nat)>)
    requires i <= |s|
    ensures r.Some? ==> i < r.value.1 <= |s|
    decreases |s| - i, 0
  {
    if i < |s| && IsNumber(s[i]) then Some(NumberFrom(s, i, 0))
    else if i < |s| && s[i] == '(' then
      match ParseSum(s, i + 1)
      case None => None
      case Some((v, j)) => if j < |s| && s[j] == ')' then Some((v, j + 1)) else None
    else None
  }

  /** The value of an integer expression, or None when it is not one (a letter, a stray symbol). */
  function Evaluate(expression: string): Option<nat>
  {
    match ParseSum(expression, 0)
    case Some((v, j)) => if j == |expression| then Some(v) else None
    case None => None
  }

  /** The decimal digits of n, as str() writes them. */
  function NatToString(n: nat): (r: string)
    ensures |r| > 0 && forall i :: 0 <= i < |r| ==> IsNumber(r[i])
    decreases n
  {
    if n < 10 then [Digit(n)] else NatToString(n / 10) + [Digit(n % 10)]
  }

  /** The number written by the digits d, read left to right onto acc. */
  function ReadDigits(acc: nat, d: string): nat
    requires forall i :: 0 <= i < |d| ==> IsNumber(d[i])
    decreases |d|
  {
    if |d| == 0 then acc else ReadDigits(acc * 10 + DigitValue(d[0]), d[1..])
  }

  lemma {:induction false} ReadDigitsSnoc(acc: nat, d: string, c: char)
    requires (forall i :: 0 <= i < |d| ==> IsNumber(d[i])) && IsNumber(c)
    ensures ReadDigits(acc, d + [c]) == ReadDigits(acc, d) * 10 + DigitValue(c)
    decreases |d|
  {
    if |d| > 0 {
      assert (d + [c])[1..] == d[1..] + [c];
      ReadDigitsSnoc(acc * 10 + DigitValue(d[0]), d[1..], c);
    }
  }

  lemma {:induction false} ReadNatToString(n: nat)
    ensures ReadDigits(0, NatToString(n)) == n
    decreases n
  {
    if n >= 10 {
      ReadNatToString(n / 10);
      ReadDigitsSnoc(0, NatToString(n / 10), Digit(n % 10));
    }
  }

  /** NumberFrom reads the whole run of digits s[i..k]. */
  lemma {:induction false} NumberFromRun(s: string, i: nat, k: nat, acc: nat)
    requires i <= k <= |s| && (forall q :: i <= q < k ==> IsNumber(s[q])) && (k == |s| || !IsNumber(s[k]))
    ensures NumberFrom(s, i, acc) == (ReadDigits(acc, s[i..k]), k)
    decreases k - i
  {
    if i < k {
      NumberFromRun(s, i + 1, k, acc * 10 + DigitValue(s[i]));
      assert s[i..k][1..] == s[i + 1..k];
    }
  }

  /** Writing a number and evaluating the text gives the number back. */
  lemma EvaluateNatToString(n: nat)
    ensures Evaluate(NatToString(n)) == Some(n)
  {
    var d := NatToString(n);
    NumberFromRun(d, 0, |d|, 0);
    assert d[0..|d|] == d;
    ReadNatToString(n);
    assert ParseAtom(d, 0) == Some((n, |d|));
    assert ParsePower(d, 0) == Some((n, |d|));
    assert ParseProduct(d, 0) == Some((n, |d|));
    assert ParseSum(d, 0) == Some((n, |d|));
  }

  // ----------------------------------------------------------------------
  // Splitting an equality written lhs=rhs

  /** The equality lhs=rhs as the source writes it. */
  function Eq(lhs: string, rhs: string): string
  {
    lhs + "=" + rhs
  }

  /** Index of the first occurrence of pat at or after i, or |s| when there is none. */
  function NextOccurrence(s: string, pat: string, i: nat): (k: nat)
    requires |pat| > 0 && i <= |s|
    ensures i <= k <= |s|
    ensures k < |s| ==> MatchAt(s, pat, k)
    ensures forall q :: i <= q < k && q + |pat| <= |s| ==> !MatchAt(s, pat, q)
    decreases |s| - i
  {
    if i + |pat| > |s| then |s|
    else if MatchAt(s, pat, i) then i
    else NextOccurrence(s, pat, i + 1)
  }

  /** The first piece of a split runs up to the next occurrence of the separator. */
  lemma {:induction false} SplitFromHead(s: string, sep: string, start: nat, i: nat)
    requires |sep| > 0 && start <= i <= |s|
    ensures SplitFrom(s, sep, start, i)[0] == s[start..NextOccurrence(s, sep, i)]
    ensures NextOccurrence(s, sep, i) < |s| ==>
              SplitFrom(s, sep, start, i)
              == [s[start..NextOccurrence(s, sep, i)]]
                 + SplitFrom(s, sep, NextOccurrence(s, sep, i) + |sep|, NextOccurrence(s, sep, i) + |sep|)
    ensures NextOccurrence(s, sep, i) == |s| ==> SplitFrom(s, sep, start, i) == [s[start..]]
    decreases |s| - i
  {
    if i + |sep| <= |s| && !MatchAt(s, sep, i) {
      SplitFromHead(s, sep, start, i + 1);
    }
  }

  /** Text without the character c. */
  predicate Lacks(s: string, c: char)
  {
    c !in s
  }

  lemma SplitEq(lhs: string, rhs: string)
    requires Lacks(lhs, '=') && Lacks(rhs, '=')
    ensures Split(Eq(lhs, rhs), "=") == [lhs, rhs]
  {
    var s := Eq(lhs, rhs);
    assert MatchAt(s, "=", |lhs|) by {
      assert s[|lhs|] == '=';
    }
    assert forall q :: 0 <= q < |lhs| ==> !MatchAt(s, "=", q) by {
      forall q | 0 <= q < |lhs|
        ensures !MatchAt(s, "=", q)
      {
        assert s[q] == lhs[q];
      }
    }
    assert NextOccurrence(s, "=", 0) == |lhs|;
    SplitFromHead(s, "=", 0, 0);
    var j := |lhs| + 1;
    assert forall q :: j <= q < |s| ==> !MatchAt(s, "=", q) by {
      forall q | j <= q < |s|
        ensures !MatchAt(s, "=", q)
      {
        assert s[q] == rhs[q - j];
      }
    }
    assert NextOccurrence(s, "=", j) == |s|;
    SplitFromHead(s, "=", j, j);
    assert s[..|lhs|] == lhs;
    assert s[j..] == rhs;
  }

  /** x=y with something on each side and no other '=' is a readable modification. */
  lemma EqModificationReadable(x: string, y: string)
    requires |x| > 0 && |y| > 0 && Lacks(x, '=') && Lacks(y, '=')
    ensures Split(Eq(x, y), "=") == [x, y] && ModificationReadable(Eq(x, y))
  {
    SplitEq(x, y);
  }

  /** Removing the spaces of an equality removes them on each side. */
  lemma RemoveSpacesEq(lhs: string, rhs: string)
    ensures RemoveSpaces(Eq(lhs, rhs)) == Eq(RemoveSpaces(lhs), RemoveSpaces(rhs))
  {
    RemoveSpacesAppend(lhs + "=", rhs);
    RemoveSpacesAppend(lhs, "=");
  }

  lemma {:induction false} RemoveSpacesLacks(s: string, c: char)
    requires Lacks(s, c)
    ensures Lacks(RemoveSpaces(s), c)
    decreases |s|
  {
    if |s| > 0 {
      assert s == [s[0]] + s[1..];
      RemoveSpacesLacks(s[1..], c);
      RemoveSpacesCons(s);
    }
  }

  /** A text with a character other than a space keeps something once its spaces are removed. */
  lemma {:induction false} RemoveSpacesNonEmpty(s: string, i: nat)
    requires i < |s| && s[i] != ' '
    ensures RemoveSpaces(s) != ""
    decreases i
  {
    RemoveSpacesCons(s);
    if s[0] == ' ' {
      RemoveSpacesNonEmpty(s[1..], i - 1);
    }
  }

  /**
   * An equality written lhs=rhs with one '=' and something on each side is
   * readable, with or without its spaces, and splits into its two sides.
   */
  lemma EqReadable(lhs: string, rhs: string, i: nat, j: nat)
    requires Lacks(lhs, '=') && Lacks(rhs, '=')
    requires i < |lhs| && lhs[i] != ' ' && j < |rhs| && rhs[j] != ' '
    ensures Split(Eq(lhs, rhs), "=") == [lhs, rhs]
    ensures Split(RemoveSpaces(Eq(lhs, rhs)), "=") == [RemoveSpaces(lhs), RemoveSpaces(rhs)]
    ensures ModificationReadable(RemoveSpaces(Eq(lhs, rhs)))
  {
    SplitEq(lhs, rhs);
    RemoveSpacesEq(lhs, rhs);
    RemoveSpacesLacks(lhs, '=');
    RemoveSpacesLacks(rhs, '=');
    SplitEq(RemoveSpaces(lhs), RemoveSpaces(rhs));
    RemoveSpacesNonEmpty(lhs, i);
    RemoveSpacesNonEmpty(rhs, j);
  }
}
