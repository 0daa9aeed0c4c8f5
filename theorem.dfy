/**
 * Theorems and equalities (theorem.py): the errors a construction can raise,
 * the theorem value, the checks on its unknowns, and the instantiation of an
 * equality with parameters (substitution, evaluation of simplifications and
 * the order-of-operations check on every substituted value).
 */
module Theorems {
  import opened Wrappers
  import opened TextGestion

  /** Every error a theorem construction or a proof step can raise. */
  datatype Error =
    // theorem.py
    | BadUnknownName
    | NonExistingUnknown(unknown: char)
    | TheoremRecursion
    | NotRightNumberOfParameters(required: nat, given: nat)
    | EqualitySideNotOkForMaths
    | NotANumber
    | BadOperationOrderInReplacement
    // proof.py
    | TheoremNotProven
    | ModificationNotValid
    | WrongModification
    | WrongSimplification
    | CannotConclude

  /** A named simplification c = expression, the expression without spaces. */
  datatype Simplification = Simplification(name: string, expression: string)

  /** What a theorem declares before it is instantiated. */
  datatype Header = Header(
    name: string,
    conclusion: string,
    unknowns: seq<string>,
    simplifications: seq<Simplification>)

  /** The state of a proof: its aim, the equalities reached, the theorems cited, and whether it was concluded. */
  datatype ProofRecord = ProofRecord(
    conclusionAim: seq<string>,
    equalities: seq<string>,
    dependencies: seq<Theorem>,
    isFinished: bool)

  /** An instantiated equality: its declaration, its proof (None for an axiom) and its two sides. */
  datatype Theorem = Theorem(
    header: Header,
    proof: Option<ProofRecord>,
    leftHandSide: string,
    rightHandSide: string)

  predicate IsAxiom(t: Theorem)
  {
    t.proof.None?
  }

  predicate IsProven(t: Theorem)
  {
    IsAxiom(t) || t.proof.value.isFinished
  }

  // ----------------------------------------------------------------------
  // Unknowns and simplification names

  /** Names the source accepts for unknowns: each is exactly one letter. */
  predicate NamesValid(names: seq<string>)
  {
    forall k :: 0 <= k < |names| ==> |names[k]| == 1 && IsLetter(names[k][0])
  }

  /** The same check on the names of the simplifications. */
  predicate SimplificationNamesValid(simplifications: seq<Simplification>)
  {
    forall k :: 0 <= k < |simplifications| ==>
      |simplifications[k].name| == 1 && IsLetter(simplifications[k].name[0])
  }

  predicate ValidNames(h: Header)
  {
    NamesValid(h.unknowns) && SimplificationNamesValid(h.simplifications)
  }

  /** The checks of the source's constructor on names, in its order (unknowns first). */
  method CheckNames(unknowns: seq<string>, simplifications: seq<Simplification>) returns (ok: bool)
    ensures ok <==> NamesValid(unknowns) && SimplificationNamesValid(simplifications)
  {
    for i := 0 to |unknowns|
      invariant NamesValid(unknowns[..i])
    {
      if |unknowns[i]| != 1 || !IsLetter(unknowns[i][0]) {
        return false;
      }
    }
    for i := 0 to |simplifications|
      invariant SimplificationNamesValid(simplifications[..i])
    {
      if |simplifications[i].name| != 1 || !IsLetter(simplifications[i].name[0]) {
        return false;
      }
    }
    return true;
  }

  predicate NamedBySimplification(simplifications: seq<Simplification>, name: string)
  {
    exists k :: 0 <= k < |simplifications| && simplifications[k].name == name
  }

  /** The character is an unknown or the name of a simplification of the theorem. */
  predicate HasInstantiatedCharacter(h: Header, c: char)
  {
    [c] in h.unknowns || NamedBySimplification(h.simplifications, [c])
  }

  /** The first letter of `letters` the theorem does not know. */
  function FirstUnboundIn(h: Header, letters: seq<char>): (r: Option<char>)
    ensures r.None? <==> forall i :: 0 <= i < |letters| ==> HasInstantiatedCharacter(h, letters[i])
    ensures r.Some? ==> r.value in letters && !HasInstantiatedCharacter(h, r.value)
    ensures r.Some? ==> exists k :: 0 <= k < |letters| && letters[k] == r.value &&
                          forall j :: 0 <= j < k ==> HasInstantiatedCharacter(h, letters[j])
  {
    if |letters| == 0 then None
    else if !HasInstantiatedCharacter(h, letters[0]) then Some(letters[0])
    else
      var r := FirstUnboundIn(h, letters[1..]);
      if r.Some? then
        var k :| 0 <= k < |letters[1..]| && letters[1..][k] == r.value &&
                 forall j :: 0 <= j < k ==> HasInstantiatedCharacter(h, letters[1..][j]);
        assert letters[k + 1] == r.value;
        r
      else r
  }

  /**
   * The letter reported by verify_has_instantiated_every_character: the first
   * letter of the expression, in order of appearance, that the theorem does
   * not know; None when every letter is known.
   */
  function FirstUnbound(h: Header, expression: string): (r: Option<char>)
    ensures r.None? <==> forall c :: IsLetter(c) && c in RemoveSpaces(expression) ==> HasInstantiatedCharacter(h, c)
    ensures r.Some? ==> IsLetter(r.value) && r.value in RemoveSpaces(expression) && !HasInstantiatedCharacter(h, r.value)
  {
    UnknownsSpec(RemoveSpaces(expression));
    var letters := Unknowns(RemoveSpaces(expression));
    var r := FirstUnboundIn(h, letters);
    assert r.None? ==> forall c :: IsLetter(c) && c in RemoveSpaces(expression) ==> HasInstantiatedCharacter(h, c) by {
      if r.None? {
        forall c | IsLetter(c) && c in RemoveSpaces(expression)
          ensures HasInstantiatedCharacter(h, c)
        {
          var i :| 0 <= i < |letters| && letters[i] == c;
        }
      }
    }
    r
  }

  /** A text whose letters are all known has no unbound letter. */
  lemma FirstUnboundNone(h: Header, e: string)
    requires forall c :: c in e && IsLetter(c) ==> HasInstantiatedCharacter(h, c)
    ensures FirstUnbound(h, e) == None
  {
    RemoveSpacesKeepsOthers(e);
    forall c | IsLetter(c) && c in RemoveSpaces(e) ensures HasInstantiatedCharacter(h, c) {
      assert c in multiset(RemoveSpaces(e));
    }
  }

  method VerifyHasInstantiatedEveryCharacter(h: Header, expression: string) returns (unbound: Option<char>)
    ensures unbound == FirstUnbound(h, expression)
  {
    var letters := ExtractUnknowns(expression);
    for i := 0 to |letters|
      invariant FirstUnboundIn(h, letters) == FirstUnboundIn(h, letters[i..])
    {
      assert letters[i..][1..] == letters[i + 1..];
      if !HasInstantiatedCharacter(h, letters[i]) {
        return Some(letters[i]);
      }
    }
    return None;
  }

  // ----------------------------------------------------------------------
  // is_held

  /** The equality names the two sides of the theorem, in either order. */
  predicate IsHeld(t: Theorem, equality: string)
  {
    var parts := Split(equality, "=");
    |parts| == 2 && t.leftHandSide in parts && t.rightHandSide in parts
  }

  /** On an equality x=y: held exactly when each side of the theorem is x or y. */
  lemma IsHeldEq(t: Theorem, x: string, y: string)
    requires Lacks(x, '=') && Lacks(y, '=')
    ensures IsHeld(t, Eq(x, y)) <==>
              (t.leftHandSide == x || t.leftHandSide == y) && (t.rightHandSide == x || t.rightHandSide == y)
  {
    SplitEq(x, y);
  }

  /** A theorem may be used in both directions. */
  lemma IsHeldSymmetric(t: Theorem, x: string, y: string)
    requires Lacks(x, '=') && Lacks(y, '=')
    ensures IsHeld(t, Eq(x, y)) == IsHeld(t, Eq(y, x))
  {
    IsHeldEq(t, x, y);
    IsHeldEq(t, y, x);
  }

  // ----------------------------------------------------------------------
  // Instantiation of an equality (Equality.__init__)

  /** dict[key] = value on an insertion-ordered dictionary: an existing key keeps its place. */
  function Put(dict: Replacements, key: char, value: string): (r: Replacements)
    ensures KeyIndex(r, key).Some? && r[KeyIndex(r, key).value].1 == value
    ensures forall c :: c != key ==> KeyIndex(r, c) == KeyIndex(dict, c)
    ensures forall c :: c != key && KeyIndex(dict, c).Some? ==> r[KeyIndex(r, c).value] == dict[KeyIndex(dict, c).value]
    ensures |r| == |dict| || |r| == |dict| + 1
  {
    match KeyIndex(dict, key)
    case Some(k) =>
      var r := dict[k := (key, value)];
      KeyIndexUpdate(dict, k, key, value);
      r
    case None =>
      KeyIndexAppend(dict, key, value);
      dict + [(key, value)]
  }

  lemma {:induction false} KeyIndexUpdate(dict: Replacements, k: nat, key: char, value: string)
    requires k < |dict| && dict[k].0 == key
    ensures forall c :: KeyIndex(dict[k := (key, value)], c) == KeyIndex(dict, c)
    decreases |dict|
  {
    if k > 0 {
      assert dict[k := (key, value)][1..] == dict[1..][k - 1 := (key, value)];
      KeyIndexUpdate(dict[1..], k - 1, key, value);
    } else {
      assert dict[k := (key, value)][1..] == dict[1..];
    }
  }

  lemma {:induction false} KeyIndexAppend(dict: Replacements, key: char, value: string)
    requires KeyIndex(dict, key).None?
    ensures KeyIndex(dict + [(key, value)], key) == Some(|dict|)
    ensures forall c :: c != key ==> KeyIndex(dict + [(key, value)], c) == KeyIndex(dict, c)
    decreases |dict|
  {
    if |dict| > 0 {
      assert (dict + [(key, value)])[1..] == dict[1..] + [(key, value)];
      KeyIndexAppend(dict[1..], key, value);
    }
  }

  /** Every value of the dictionary can be split on and substituted without inserting spaces. */
  predicate ValuesReadable(dict: Replacements)
  {
    forall k :: 0 <= k < |dict| ==> |dict[k].1| > 0 && NoSpaces(dict[k].1)
  }

  /** What the source needs of the parameters: none is empty once its spaces are removed. */
  predicate ParametersReadable(params: seq<string>)
  {
    forall k :: 0 <= k < |params| ==> RemoveSpaces(params[k]) != ""
  }

  /** The parameters used: '0' for every unknown when none are given. */
  function Parameters(h: Header, params: Option<seq<string>>): (r: Result<seq<string>, Error>)
    ensures r.Ok? ==> |r.value| == |h.unknowns|
    ensures params.None? ==> r.Ok? && forall k :: 0 <= k < |r.value| ==> r.value[k] == "0"
    ensures params.Some? && |params.value| == |h.unknowns| ==> r == Ok(params.value)
    ensures params.Some? && |params.value| != |h.unknowns| ==>
              r == Err(NotRightNumberOfParameters(|h.unknowns|, |params.value|))
  {
    match params
    case None => Ok(seq(|h.unknowns|, _ => "0"))
    case Some(ps) =>
      if |h.unknowns| != |ps| then Err(NotRightNumberOfParameters(|h.unknowns|, |ps|)) else Ok(ps)
  }

  /** Each unknown bound to its parameter without spaces, in order. */
  function BindUnknowns(dict: Replacements, unknowns: seq<string>, params: seq<string>): (r: Replacements)
    requires |unknowns| == |params| && NamesValid(unknowns)
    ensures forall k :: 0 <= k < |unknowns| ==> KeyIndex(r, unknowns[k][0]).Some?
    ensures forall c :: KeyIndex(dict, c).Some? ==> KeyIndex(r, c).Some?
    decreases |unknowns|
  {
    if |unknowns| == 0 then dict
    else BindUnknowns(Put(dict, unknowns[0][0], RemoveSpaces(params[0])), unknowns[1..], params[1..])
  }

  /**
   * Each simplification in order: its expression, with the current
   * dictionary substituted, must evaluate to a number, which is then bound to
   * its name.
   */
  function BindSimplifications(dict: Replacements, simplifications: seq<Simplification>): (r: Result<Replacements, Error>)
    requires SimplificationNamesValid(simplifications)
    ensures r.Err? ==> r.error == NotANumber
    ensures r.Ok? ==> forall c :: KeyIndex(dict, c).Some? ==> KeyIndex(r.value, c).Some?
    ensures r.Ok? ==> forall k :: 0 <= k < |simplifications| ==> KeyIndex(r.value, simplifications[k].name[0]).Some?
    decreases |simplifications|
  {
    if |simplifications| == 0 then Ok(dict)
    else
      match Evaluate(Substitute(simplifications[0].expression, dict))
      case None => Err(NotANumber)
      case Some(n) => BindSimplifications(Put(dict, simplifications[0].name[0], NatToString(n)), simplifications[1..])
  }

  /**
   * The k-th simplification evaluates: the simplifications before it all
   * evaluated, and its expression, under the dictionary they leave, reads as
   * a number.
   */
  predicate SimplificationEvaluates(dict: Replacements, simplifications: seq<Simplification>, k: nat)
    requires SimplificationNamesValid(simplifications) && k < |simplifications|
  {
    var before := BindSimplifications(dict, simplifications[..k]);
    before.Ok? && Evaluate(Substitute(simplifications[k].expression, before.value)).Some?
  }

  /** The number the k-th simplification evaluates to. */
  function SimplificationValue(dict: Replacements, simplifications: seq<Simplification>, k: nat): nat
    requires SimplificationNamesValid(simplifications) && k < |simplifications|
    requires SimplificationEvaluates(dict, simplifications, k)
  {
    Evaluate(Substitute(simplifications[k].expression, BindSimplifications(dict, simplifications[..k]).value)).value
  }

  /** Binding a list made of two parts binds the second from the dictionary the first leaves. */
  lemma {:induction false} BindSimplificationsAppend(dict: Replacements, a: seq<Simplification>, b: seq<Simplification>)
    requires SimplificationNamesValid(a) && SimplificationNamesValid(b)
    ensures SimplificationNamesValid(a + b)
    ensures BindSimplifications(dict, a).Err? ==> BindSimplifications(dict, a + b) == BindSimplifications(dict, a)
    ensures BindSimplifications(dict, a).Ok? ==>
              BindSimplifications(dict, a + b) == BindSimplifications(BindSimplifications(dict, a).value, b)
    decreases |a|
  {
    assert forall k :: 0 <= k < |a + b| ==> (a + b)[k] == if k < |a| then a[k] else b[k - |a|];
    if |a| == 0 {
      assert a + b == b;
    } else {
      assert (a + b)[0] == a[0];
      assert (a + b)[1..] == a[1..] + b;
      match Evaluate(Substitute(a[0].expression, dict))
      case None =>
      case Some(n) =>
        BindSimplificationsAppend(Put(dict, a[0].name[0], NatToString(n)), a[1..], b);
    }
  }

  /** One more simplification: its evaluation decides, and its name is bound to the number's decimal text. */
  lemma BindSimplificationsStep(dict: Replacements, simplifications: seq<Simplification>, k: nat)
    requires SimplificationNamesValid(simplifications) && k < |simplifications|
    ensures SimplificationNamesValid(simplifications[..k]) && SimplificationNamesValid(simplifications[..k + 1])
    ensures !SimplificationEvaluates(dict, simplifications, k) ==>
              BindSimplifications(dict, simplifications[..k + 1]) == Err(NotANumber)
    ensures SimplificationEvaluates(dict, simplifications, k) ==>
              BindSimplifications(dict, simplifications[..k + 1])
              == Ok(Put(BindSimplifications(dict, simplifications[..k]).value, simplifications[k].name[0],
                        NatToString(SimplificationValue(dict, simplifications, k))))
  {
    var a, b := simplifications[..k], [simplifications[k]];
    assert simplifications[..k + 1] == a + b;
    BindSimplificationsAppend(dict, a, b);
    match BindSimplifications(dict, a)
    case Err(e) =>
    case Ok(d) =>
      assert b[1..] == [];
  }

  lemma {:induction false} BindSimplificationsPrefixOk(dict: Replacements, simplifications: seq<Simplification>, n: nat)
    requires SimplificationNamesValid(simplifications) && n <= |simplifications|
    ensures SimplificationNamesValid(simplifications[..n])
    ensures BindSimplifications(dict, simplifications[..n]).Ok? <==>
              forall k :: 0 <= k < n ==> SimplificationEvaluates(dict, simplifications, k)
  {
    if n == 0 {
      assert simplifications[..0] == [];
    } else {
      BindSimplificationsPrefixOk(dict, simplifications, n - 1);
      BindSimplificationsStep(dict, simplifications, n - 1);
      if SimplificationEvaluates(dict, simplifications, n - 1) {
        assert BindSimplifications(dict, simplifications[..n]).Ok?;
        forall k | 0 <= k < n
          ensures SimplificationEvaluates(dict, simplifications, k)
        {
          if k < n - 1 {
            assert BindSimplifications(dict, simplifications[..n - 1]).Ok?;
          }
        }
      } else {
        assert BindSimplifications(dict, simplifications[..n]).Err?;
      }
    }
  }

  /** resolve the simplifications: it succeeds exactly when every one of them evaluates, in order. */
  lemma BindSimplificationsOk(dict: Replacements, simplifications: seq<Simplification>)
    requires SimplificationNamesValid(simplifications)
    ensures BindSimplifications(dict, simplifications).Ok? <==>
              forall k :: 0 <= k < |simplifications| ==> SimplificationEvaluates(dict, simplifications, k)
  {
    BindSimplificationsPrefixOk(dict, simplifications, |simplifications|);
    assert simplifications[..|simplifications|] == simplifications;
  }

  /** Binding other letters does not change the image of c. */
  lemma {:induction false} BindSimplificationsKeeps(dict: Replacements, simplifications: seq<Simplification>, c: char)
    requires SimplificationNamesValid(simplifications)
    requires forall k :: 0 <= k < |simplifications| ==> simplifications[k].name[0] != c
    requires BindSimplifications(dict, simplifications).Ok?
    ensures Image(BindSimplifications(dict, simplifications).value, c) == Image(dict, c)
    decreases |simplifications|
  {
    if |simplifications| > 0 {
      var n := Evaluate(Substitute(simplifications[0].expression, dict)).value;
      BindSimplificationsKeeps(Put(dict, simplifications[0].name[0], NatToString(n)), simplifications[1..], c);
    }
  }

  /**
   * A simplification that no later one renames is bound, in the end, to the
   * decimal text of the number its expression evaluates to under the
   * bindings made before it.
   */
  lemma BindSimplificationsImage(dict: Replacements, simplifications: seq<Simplification>, k: nat)
    requires SimplificationNamesValid(simplifications) && k < |simplifications|
    requires forall j :: k < j < |simplifications| ==> simplifications[j].name[0] != simplifications[k].name[0]
    requires BindSimplifications(dict, simplifications).Ok?
    ensures SimplificationEvaluates(dict, simplifications, k)
    ensures Image(BindSimplifications(dict, simplifications).value, simplifications[k].name[0])
            == NatToString(SimplificationValue(dict, simplifications, k))
  {
    var c := simplifications[k].name[0];
    BindSimplificationsSplit(dict, simplifications, k + 1);
    var d', b := BindSimplifications(dict, simplifications[..k + 1]), simplifications[k + 1..];
    assert d'.Ok?;
    BindSimplificationsStep(dict, simplifications, k);
    assert Image(d'.value, c) == NatToString(SimplificationValue(dict, simplifications, k));
    LaterNames(simplifications, k + 1, c);
    BindSimplificationsKeeps(d'.value, b, c);
  }

  lemma LaterNames(simplifications: seq<Simplification>, m: nat, c: char)
    requires SimplificationNamesValid(simplifications) && m <= |simplifications|
    requires forall j :: m <= j < |simplifications| ==> simplifications[j].name[0] != c
    ensures SimplificationNamesValid(simplifications[m..])
    ensures forall j :: 0 <= j < |simplifications[m..]| ==> simplifications[m..][j].name[0] != c
  {
    assert forall j :: 0 <= j < |simplifications[m..]| ==> simplifications[m..][j] == simplifications[m + j];
  }

  /** The same, for a list cut at m. */
  lemma BindSimplificationsSplit(dict: Replacements, simplifications: seq<Simplification>, m: nat)
    requires SimplificationNamesValid(simplifications) && m <= |simplifications|
    ensures SimplificationNamesValid(simplifications[..m]) && SimplificationNamesValid(simplifications[m..])
    ensures BindSimplifications(dict, simplifications[..m]).Err? ==>
              BindSimplifications(dict, simplifications) == BindSimplifications(dict, simplifications[..m])
    ensures BindSimplifications(dict, simplifications[..m]).Ok? ==>
              BindSimplifications(dict, simplifications)
              == BindSimplifications(BindSimplifications(dict, simplifications[..m]).value, simplifications[m..])
  {
    assert simplifications == simplifications[..m] + simplifications[m..];
    BindSimplificationsAppend(dict, simplifications[..m], simplifications[m..]);
  }

  lemma {:induction false} BindUnknownsReadable(dict: Replacements, unknowns: seq<string>, params: seq<string>)
    requires |unknowns| == |params| && NamesValid(unknowns)
    requires ValuesReadable(dict) && ParametersReadable(params)
    ensures ValuesReadable(BindUnknowns(dict, unknowns, params))
    decreases |unknowns|
  {
    if |unknowns| > 0 {
      PutReadable(dict, unknowns[0][0], RemoveSpaces(params[0]));
      BindUnknownsReadable(Put(dict, unknowns[0][0], RemoveSpaces(params[0])), unknowns[1..], params[1..]);
    }
  }

  lemma PutReadable(dict: Replacements, key: char, value: string)
    requires ValuesReadable(dict) && |value| > 0 && NoSpaces(value)
    ensures ValuesReadable(Put(dict, key, value))
  {
  }

  lemma {:induction false} BindSimplificationsReadable(dict: Replacements, simplifications: seq<Simplification>)
    requires SimplificationNamesValid(simplifications)
    requires ValuesReadable(dict)
    ensures BindSimplifications(dict, simplifications).Ok? ==> ValuesReadable(BindSimplifications(dict, simplifications).value)
    decreases |simplifications|
  {
    if |simplifications| > 0 {
      match Evaluate(Substitute(simplifications[0].expression, dict))
      case None =>
      case Some(n) =>
        PutReadable(dict, simplifications[0].name[0], NatToString(n));
        BindSimplificationsReadable(Put(dict, simplifications[0].name[0], NatToString(n)), simplifications[1..]);
    }
  }

  /** Substituting space-free values into a space-free text gives a space-free text. */
  lemma {:induction false} SubstituteNoSpaces(s: string, dict: Replacements)
    requires NoSpaces(s) && ValuesReadable(dict)
    ensures NoSpaces(Substitute(s, dict))
    decreases |s|
  {
    if |s| > 0 {
      SubstituteNoSpaces(s[1..], dict);
      var a, b := Image(dict, s[0]), Substitute(s[1..], dict);
      assert NoSpaces(a);
      assert Substitute(s, dict) == a + b;
    }
  }

  // ----------------------------------------------------------------------
  // The order-of-operations check on substituted values


  /** Every piece of a space-free text split on a separator is space-free. */
  lemma {:induction false} SplitFromNoSpaces(s: string, sep: string, start: nat, i: nat)
    requires |sep| > 0 && start <= i <= |s| && NoSpaces(s)
    ensures forall k :: 0 <= k < |SplitFrom(s, sep, start, i)| ==> NoSpaces(SplitFrom(s, sep, start, i)[k])
    decreases |s| - i
  {
    if i + |sep| > |s| {
    } else if MatchAt(s, sep, i) {
      SplitFromNoSpaces(s, sep, i + |sep|, i + |sep|);
      assert SplitFrom(s, sep, start, i) == [s[start..i]] + SplitFrom(s, sep, i + |sep|, i + |sep|);
    } else {
      SplitFromNoSpaces(s, sep, start, i + 1);
    }
  }

  lemma PiecesReadable(side: string, v: string)
    requires |v| > 0 && NoSpaces(side)
    ensures forall k :: 0 <= k < |Split(side, v)| ==> NoSpaces(Split(side, v)[k]) && NeighbourReadable(Split(side, v)[k])
  {
    SplitFromNoSpaces(side, v, 0, 0);
    forall k | 0 <= k < |Split(side, v)|
      ensures NeighbourReadable(Split(side, v)[k])
    {
      RemoveSpacesOfSpaceFree(Split(side, v)[k]);
    }
  }

  /**
   * The source's check for one value v: for every two consecutive pieces of
   * side.split(v), v written between them passes verify_order_operation.
   */
  predicate PiecesSafe(pieces: seq<string>, v: string)
    requires |v| > 0 && forall k :: 0 <= k < |pieces| ==> NeighbourReadable(pieces[k])
  {
    forall k :: 0 <= k < |pieces| - 1 ==> VerifyOrderOperation(pieces[k], v, pieces[k + 1])
  }

  predicate ValueOrderOk(side: string, v: string)
    requires |v| > 0 && NoSpaces(side)
  {
    PiecesReadable(side, v);
    PiecesSafe(Split(side, v), v)
  }

  /** Every value of the dictionary passes the order check wherever it appears in the side. */
  predicate SideOrderOk(side: string, dict: Replacements)
    requires NoSpaces(side) && ValuesReadable(dict)
  {
    forall k :: 0 <= k < |dict| ==> ValueOrderOk(side, dict[k].1)
  }

  /** The nested loop of the source: both sides, every key, every pair of consecutive chunks. */
  method CheckReplacementOrder(lhs: string, rhs: string, dict: Replacements) returns (ok: bool)
    requires NoSpaces(lhs) && NoSpaces(rhs) && ValuesReadable(dict)
    ensures ok <==> SideOrderOk(lhs, dict) && SideOrderOk(rhs, dict)
  {
    var sides := [lhs, rhs];
    for s := 0 to 2
      invariant forall j :: 0 <= j < s ==> SideOrderOk(sides[j], dict)
    {
      var side := sides[s];
      for key := 0 to |dict|
        invariant forall j :: 0 <= j < key ==> ValueOrderOk(side, dict[j].1)
      {
        var replacedBy := dict[key].1;
        var chunks := Split(side, replacedBy);
        PiecesReadable(side, replacedBy);
        for index := 0 to |chunks| - 1
          invariant forall j :: 0 <= j < index ==> VerifyOrderOperation(chunks[j], replacedBy, chunks[j + 1])
        {
          if !VerifyOrderOperation(chunks[index], replacedBy, chunks[index + 1]) {
            return false;
          }
        }
        assert PiecesSafe(chunks, replacedBy);
      }
      assert SideOrderOk(side, dict);
    }
    assert SideOrderOk(sides[0], dict) && SideOrderOk(sides[1], dict);
    return true;
  }

  /** A value that never occurs in the side leaves nothing to check. */
  lemma AbsentValueOrderOk(side: string, v: string)
    requires |v| > 0 && NoSpaces(side) && Occurrences(side, v) == []
    ensures ValueOrderOk(side, v)
  {
    NoOccurrenceSplit(side, v, 0, 0);
  }

  lemma {:induction false} NoOccurrenceSplit(s: string, sep: string, start: nat, i: nat)
    requires |sep| > 0 && start <= i <= |s| && OccurrencesFrom(s, sep, i) == []
    ensures SplitFrom(s, sep, start, i) == [s[start..]]
    decreases |s| - i
  {
    if i + |sep| <= |s| {
      NoOccurrenceSplit(s, sep, start, i + 1);
    }
  }

  /** A one-character value is always accepted: it passes verify_order_operation everywhere. */
  lemma SingleCharacterValueOrderOk(side: string, v: string)
    requires |v| == 1 && NoSpaces(side)
    ensures ValueOrderOk(side, v)
  {
    PiecesReadable(side, v);
  }

  /** A value written as one character or wrapped in parentheses. */
  predicate SimpleValue(v: string)
  {
    |v| == 1 || (|v| >= 2 && v[0] == '(' && v[|v| - 1] == ')')
  }

  predicate SimpleValues(dict: Replacements)
  {
    |dict| == 0 || (SimpleValue(dict[0].1) && SimpleValues(dict[1..]))
  }

  /** Such a value can be put anywhere: every one of its occurrences passes the order check. */
  lemma SimpleValueOrderOk(side: string, v: string)
    requires |v| > 0 && NoSpaces(side) && SimpleValue(v)
    ensures ValueOrderOk(side, v)
  {
    PiecesReadable(side, v);
  }

  /** A dictionary of simple values passes the order check on every side. */
  lemma {:induction false} SimpleValuesOrderOk(side: string, dict: Replacements)
    requires NoSpaces(side) && ValuesReadable(dict) && SimpleValues(dict)
    ensures SideOrderOk(side, dict)
    decreases |dict|
  {
    if |dict| > 0 {
      SimpleValueOrderOk(side, dict[0].1);
      SimpleValuesOrderOk(side, dict[1..]);
      assert forall k :: 1 <= k < |dict| ==> dict[k] == dict[1..][k - 1];
    }
  }

  // ----------------------------------------------------------------------
  // The replacement dictionary

  /** The dictionary of the source, built unknowns first then simplifications. */
  function Bindings(h: Header, params: seq<string>): Result<Replacements, Error>
    requires ValidNames(h) && |params| == |h.unknowns|
  {
    BindSimplifications(BindUnknowns([], h.unknowns, params), h.simplifications)
  }

  /** The two loops of the source that fill replacement_dictionary. */
  method BuildReplacements(h: Header, params: seq<string>) returns (r: Result<Replacements, Error>)
    requires ValidNames(h) && |params| == |h.unknowns|
    ensures r == Bindings(h, params)
  {
    var dict: Replacements := [];
    for i := 0 to |h.unknowns|
      invariant BindUnknowns(dict, h.unknowns[i..], params[i..]) == BindUnknowns([], h.unknowns, params)
    {
      assert h.unknowns[i..][1..] == h.unknowns[i + 1..];
      assert params[i..][1..] == params[i + 1..];
      dict := Put(dict, h.unknowns[i][0], RemoveSpaces(params[i]));
    }
    assert h.unknowns[|h.unknowns|..] == [];
    for i := 0 to |h.simplifications|
      invariant BindSimplifications(dict, h.simplifications[i..]) == Bindings(h, params)
    {
      assert h.simplifications[i..][1..] == h.simplifications[i + 1..];
      var equality := ReplaceUsingDict(h.simplifications[i].expression, dict);
      var evaluation := Evaluate(equality);
      if evaluation.None? {
        return Err(NotANumber);
      }
      dict := Put(dict, h.simplifications[i].name[0], NatToString(evaluation.value));
    }
    assert h.simplifications[|h.simplifications|..] == [];
    return Ok(dict);
  }

  /** Distinct unknowns are each bound to their own parameter, without spaces. */
  lemma {:induction false} BindUnknownsImage(dict: Replacements, unknowns: seq<string>, params: seq<string>, i: nat)
    requires |unknowns| == |params| && NamesValid(unknowns)
    requires forall j, k :: 0 <= j < k < |unknowns| ==> unknowns[j] != unknowns[k]
    requires i < |unknowns|
    ensures Image(BindUnknowns(dict, unknowns, params), unknowns[i][0]) == RemoveSpaces(params[i])
    decreases |unknowns|
  {
    var d' := Put(dict, unknowns[0][0], RemoveSpaces(params[0]));
    if i == 0 {
      BindUnknownsKeeps(d', unknowns[1..], params[1..], unknowns[0][0]);
    } else {
      BindUnknownsImage(d', unknowns[1..], params[1..], i - 1);
    }
  }

  /** Binding other letters does not change the image of c. */
  lemma {:induction false} BindUnknownsKeeps(dict: Replacements, unknowns: seq<string>, params: seq<string>, c: char)
    requires |unknowns| == |params| && NamesValid(unknowns)
    requires forall k :: 0 <= k < |unknowns| ==> unknowns[k][0] != c
    ensures Image(BindUnknowns(dict, unknowns, params), c) == Image(dict, c)
    decreases |unknowns|
  {
    if |unknowns| > 0 {
      BindUnknownsKeeps(Put(dict, unknowns[0][0], RemoveSpaces(params[0])), unknowns[1..], params[1..], c);
    }
  }

  // ----------------------------------------------------------------------
  // Instantiation of the two sides (Equality.__init__ after get_proof)

  /** What the source needs of a declaration: its conclusion has exactly one '='. */
  predicate ConclusionReadable(h: Header)
  {
    |Split(h.conclusion, "=")| == 2
  }

  /** The symbolic sides of the conclusion, without spaces. */
  function SymbolicSides(h: Header): (r: (string, string))
    requires ConclusionReadable(h)
    ensures NoSpaces(r.0) && NoSpaces(r.1)
  {
    var parts := Split(h.conclusion, "=");
    (RemoveSpaces(parts[0]), RemoveSpaces(parts[1]))
  }

  /**
   * The rest of the equality constructor once the proof is built: parameter
   * count, validity of the symbolic sides, the dictionary, substitution, the
   * order check and validity of the instantiated sides.
   */
  function InstantiateSides(h: Header, params: Option<seq<string>>): (r: Result<(string, string), Error>)
    requires ValidNames(h) && ConclusionReadable(h)
    requires params.Some? ==> ParametersReadable(params.value)
  {
    var ps :- Parameters(h, params);
    var (lhs, rhs) := SymbolicSides(h);
    if !(WellFormed(lhs) && WellFormed(rhs)) then Err(EqualitySideNotOkForMaths)
    else
      var dict :- Bindings(h, ps);
      var lhs', rhs' := Substitute(lhs, dict), Substitute(rhs, dict);
      BindingsReadable(h, ps);
      SubstituteNoSpaces(lhs, dict);
      SubstituteNoSpaces(rhs, dict);
      if !(SideOrderOk(lhs', dict) && SideOrderOk(rhs', dict)) then Err(BadOperationOrderInReplacement)
      else if !(WellFormed(lhs') && WellFormed(rhs')) then Err(EqualitySideNotOkForMaths)
      else Ok((lhs', rhs'))
  }

  lemma BindingsReadable(h: Header, params: seq<string>)
    requires ValidNames(h) && |params| == |h.unknowns| && ParametersReadable(params)
    ensures Bindings(h, params).Ok? ==> ValuesReadable(Bindings(h, params).value)
  {
    BindUnknownsReadable([], h.unknowns, params);
    BindSimplificationsReadable(BindUnknowns([], h.unknowns, params), h.simplifications);
  }

  lemma DefaultParametersReadable(h: Header)
    ensures ParametersReadable(Parameters(h, None).value)
  {
    forall k | 0 <= k < |Parameters(h, None).value|
      ensures RemoveSpaces(Parameters(h, None).value[k]) != ""
    {
      assert RemoveSpaces("0") == "0";
    }
  }

  /**
   * What a successful instantiation means: the parameters had the right
   * number, the symbolic sides were valid, every value found a number, and
   * the instantiated sides are the symbolic sides under the dictionary,
   * valid and order-safe.
   */
  lemma InstantiateSidesOk(h: Header, params: Option<seq<string>>)
    requires ValidNames(h) && ConclusionReadable(h)
    requires params.Some? ==> ParametersReadable(params.value)
    requires InstantiateSides(h, params).Ok?
    ensures Parameters(h, params).Ok?
    ensures WellFormed(SymbolicSides(h).0) && WellFormed(SymbolicSides(h).1)
    ensures Bindings(h, Parameters(h, params).value).Ok?
    ensures var dict := Bindings(h, Parameters(h, params).value).value;
            var (lhs, rhs) := InstantiateSides(h, params).value;
            ValuesReadable(dict) && NoSpaces(lhs) && NoSpaces(rhs)
            && lhs == Substitute(SymbolicSides(h).0, dict) && rhs == Substitute(SymbolicSides(h).1, dict)
            && WellFormed(lhs) && WellFormed(rhs)
            && SideOrderOk(lhs, dict) && SideOrderOk(rhs, dict)
  {
    var ps := Parameters(h, params).value;
    if params.None? {
      DefaultParametersReadable(h);
    }
    BindingsReadable(h, ps);
    var dict := Bindings(h, ps).value;
    SubstituteNoSpaces(SymbolicSides(h).0, dict);
    SubstituteNoSpaces(SymbolicSides(h).1, dict);
  }

  /** A wrong number of parameters is reported first, with both counts. */
  lemma InstantiateSidesCount(h: Header, ps: seq<string>)
    requires ValidNames(h) && ConclusionReadable(h) && ParametersReadable(ps)
    requires |ps| != |h.unknowns|
    ensures InstantiateSides(h, Some(ps)) == Err(NotRightNumberOfParameters(|h.unknowns|, |ps|))
  {
  }

  /** An invalid symbolic side is reported before any substitution. */
  lemma InstantiateSidesSymbolic(h: Header, params: Option<seq<string>>)
    requires ValidNames(h) && ConclusionReadable(h)
    requires params.Some? ==> ParametersReadable(params.value) && |params.value| == |h.unknowns|
    requires !WellFormed(SymbolicSides(h).0) || !WellFormed(SymbolicSides(h).1)
    ensures InstantiateSides(h, params) == Err(EqualitySideNotOkForMaths)
  {
  }

  /** The sides the constructor gives when each of its checks passes. */
  lemma InstantiateSidesOf(h: Header, params: Option<seq<string>>, ps: seq<string>, l0: string, r0: string,
                           dict: Replacements, l1: string, r1: string)
    requires ValidNames(h) && ConclusionReadable(h)
    requires params.Some? ==> ParametersReadable(params.value)
    requires Parameters(h, params) == Ok(ps)
    requires SymbolicSides(h) == (l0, r0) && WellFormed(l0) && WellFormed(r0)
    requires Bindings(h, ps) == Ok(dict)
    requires Substitute(l0, dict) == l1 && Substitute(r0, dict) == r1
    requires NoSpaces(l1) && NoSpaces(r1) && ValuesReadable(dict)
    requires SideOrderOk(l1, dict) && SideOrderOk(r1, dict)
    requires WellFormed(l1) && WellFormed(r1)
    ensures InstantiateSides(h, params) == Ok((l1, r1))
  {
  }

  /** A value that breaks the order of operations in either side stops the constructor. */
  lemma InstantiateSidesOrderError(h: Header, params: Option<seq<string>>, ps: seq<string>, l0: string, r0: string,
                                   dict: Replacements, l1: string, r1: string)
    requires ValidNames(h) && ConclusionReadable(h)
    requires params.Some? ==> ParametersReadable(params.value)
    requires Parameters(h, params) == Ok(ps)
    requires SymbolicSides(h) == (l0, r0) && WellFormed(l0) && WellFormed(r0)
    requires Bindings(h, ps) == Ok(dict)
    requires Substitute(l0, dict) == l1 && Substitute(r0, dict) == r1
    requires NoSpaces(l1) && NoSpaces(r1) && ValuesReadable(dict)
    requires !SideOrderOk(l1, dict) || !SideOrderOk(r1, dict)
    ensures InstantiateSides(h, params) == Err(BadOperationOrderInReplacement)
  {
  }
}
