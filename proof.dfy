/**
 * Proofs (proof.py): the state of a proof of one theorem, the search for the
 * equality a new one comes from, and the three steps a proof script takes
 * (evolve, simplify, conclude).
 *
 * Each step is first a function from the old state to the new one (or to the
 * error raised); the class Proof updates its fields as the source does and
 * is proved to follow those functions.
 */
module Proofs {
  import opened Wrappers
  import opened TextGestion
  import opened Theorems

  /** Every equality stored by a proof has had its spaces removed. */
  predicate SpaceFree(equalities: seq<string>)
  {
    forall i :: 0 <= i < |equalities| ==> NoSpaces(equalities[i])
  }

  lemma SpaceFreeReadable(equalities: seq<string>)
    requires SpaceFree(equalities)
    ensures forall i :: 0 <= i < |equalities| ==> EdgesReadable(equalities[i])
  {
  }

  /** The state of a new proof, or the error its starting equality raises. */
  function StartRecord(h: Header, startingEquality: string): (r: Result<ProofRecord, Error>)
    ensures FirstUnbound(h, startingEquality).Some? <==> r.Err?
    ensures r.Err? ==> r.error == NonExistingUnknown(FirstUnbound(h, startingEquality).value)
    ensures r.Ok? ==> r.value.equalities == [RemoveSpaces(startingEquality)] && r.value.dependencies == []
                      && !r.value.isFinished && r.value.conclusionAim == Split(RemoveSpaces(h.conclusion), "=")
  {
    var start := RemoveSpaces(startingEquality);
    RemoveSpacesIdempotent(startingEquality);
    match FirstUnbound(h, start)
    case Some(c) => Err(NonExistingUnknown(c))
    case None => Ok(ProofRecord(Split(RemoveSpaces(h.conclusion), "="), [start], [], false))
  }

  /**
   * Index of the first stored equality from which `newEquality` follows by
   * the modification (find_old_equality: the first match wins).
   */
  function OldEquality(equalities: seq<string>, newEquality: string, modification: string): (r: Option<nat>)
    requires SpaceFree(equalities) && ModificationReadable(modification)
    ensures r.Some? ==> r.value < |equalities| && SingleModification(equalities[r.value], newEquality, modification)
    ensures r.Some? ==> forall j :: 0 <= j < r.value ==> !SingleModification(equalities[j], newEquality, modification)
    ensures r.None? <==> forall j :: 0 <= j < |equalities| ==> !SingleModification(equalities[j], newEquality, modification)
  {
    if |equalities| == 0 then None
    else if SingleModification(equalities[0], newEquality, modification) then Some(0)
    else match OldEquality(equalities[1..], newEquality, modification)
      case None => None
      case Some(k) => Some(k + 1)
  }

  /** The equality at j is the first one from which the new equality follows. */
  lemma OldEqualityAt(equalities: seq<string>, newEquality: string, modification: string, j: nat)
    requires SpaceFree(equalities) && ModificationReadable(modification)
    requires j < |equalities| && SingleModification(equalities[j], newEquality, modification)
    requires forall i :: 0 <= i < j ==> !SingleModification(equalities[i], newEquality, modification)
    ensures OldEquality(equalities, newEquality, modification) == Some(j)
  {
  }

  /**
   * evolve_equality on a proof state: the checks in the source's order, then
   * the cited theorem and the new equality appended.
   */
  function EvolveRecord(h: Header, rec: ProofRecord, newEquality: string, modification: string, cited: Theorem)
    : (r: Result<ProofRecord, Error>)
    requires SpaceFree(rec.equalities) && ModificationReadable(RemoveSpaces(modification))
    ensures !IsProven(cited) ==> r == Err(TheoremNotProven)
    ensures IsProven(cited) && !IsHeld(cited, RemoveSpaces(modification)) ==> r == Err(ModificationNotValid)
    ensures r.Err? && FirstUnbound(h, newEquality).None? && FirstUnbound(h, modification).None? ==>
              r.error in {TheoremNotProven, ModificationNotValid, WrongModification}
    ensures IsProven(cited) && IsHeld(cited, RemoveSpaces(modification)) && FirstUnbound(h, newEquality).Some? ==>
              r == Err(NonExistingUnknown(FirstUnbound(h, newEquality).value))
    ensures IsProven(cited) && IsHeld(cited, RemoveSpaces(modification)) && FirstUnbound(h, newEquality).None?
            && FirstUnbound(h, modification).Some? ==>
              r == Err(NonExistingUnknown(FirstUnbound(h, modification).value))
    ensures IsProven(cited) && IsHeld(cited, RemoveSpaces(modification))
            && FirstUnbound(h, newEquality).None? && FirstUnbound(h, modification).None?
            && OldEquality(rec.equalities, RemoveSpaces(newEquality), RemoveSpaces(modification)).None? ==>
              r == Err(WrongModification)
    ensures r.Ok? <==> IsProven(cited) && IsHeld(cited, RemoveSpaces(modification))
                       && FirstUnbound(h, newEquality).None? && FirstUnbound(h, modification).None?
                       && OldEquality(rec.equalities, RemoveSpaces(newEquality), RemoveSpaces(modification)).Some?
    ensures r.Ok? ==> r.value == rec.(equalities := rec.equalities + [RemoveSpaces(newEquality)],
                                      dependencies := rec.dependencies + [cited])
  {
    var newEq, modif := RemoveSpaces(newEquality), RemoveSpaces(modification);
    RemoveSpacesIdempotent(newEquality);
    RemoveSpacesIdempotent(modification);
    if !IsProven(cited) then Err(TheoremNotProven)
    else if !IsHeld(cited, modif) then Err(ModificationNotValid)
    else if FirstUnbound(h, newEq).Some? then Err(NonExistingUnknown(FirstUnbound(h, newEq).value))
    else if FirstUnbound(h, modif).Some? then Err(NonExistingUnknown(FirstUnbound(h, modif).value))
    else if OldEquality(rec.equalities, newEq, modif).None? then Err(WrongModification)
    else Ok(rec.(equalities := rec.equalities + [newEq], dependencies := rec.dependencies + [cited]))
  }

  /** The two sides of a declared simplification are the two parts of the text. */
  predicate DeclaredSimplification(h: Header, parts: seq<string>)
  {
    exists k :: 0 <= k < |h.simplifications| &&
      h.simplifications[k].name in parts && h.simplifications[k].expression in parts
  }

  /** use_simplification on a proof state: only the new equality is appended. */
  function SimplifyRecord(h: Header, rec: ProofRecord, newEquality: string, simplification: string)
    : (r: Result<ProofRecord, Error>)
    requires SpaceFree(rec.equalities) && ModificationReadable(RemoveSpaces(simplification))
    ensures r.Err? ==> r.error == WrongSimplification
    ensures r.Ok? <==> var parts := Split(RemoveSpaces(simplification), "=");
                       |parts| == 2 && DeclaredSimplification(h, parts)
                       && OldEquality(rec.equalities, RemoveSpaces(newEquality), RemoveSpaces(simplification)).Some?
    ensures r.Ok? ==> r.value == rec.(equalities := rec.equalities + [RemoveSpaces(newEquality)])
  {
    var simpl, newEq := RemoveSpaces(simplification), RemoveSpaces(newEquality);
    var parts := Split(simpl, "=");
    if |parts| != 2 then Err(WrongSimplification)
    else if !DeclaredSimplification(h, parts) then Err(WrongSimplification)
    else if OldEquality(rec.equalities, newEq, simpl).None? then Err(WrongSimplification)
    else Ok(rec.(equalities := rec.equalities + [newEq]))
  }

  /** conclude on a proof state: both sides of the aim must have been reached. */
  function ConcludeRecord(rec: ProofRecord): (r: Result<ProofRecord, Error>)
    requires |rec.conclusionAim| == 2
    ensures r.Ok? <==> rec.isFinished || (rec.conclusionAim[0] in rec.equalities && rec.conclusionAim[1] in rec.equalities)
    ensures r.Err? ==> r.error == CannotConclude
    ensures r.Ok? ==> r.value == rec.(isFinished := true)
  {
    if rec.isFinished then Ok(rec)
    else if !(rec.conclusionAim[0] in rec.equalities && rec.conclusionAim[1] in rec.equalities) then Err(CannotConclude)
    else Ok(rec.(isFinished := true))
  }

  // ----------------------------------------------------------------------
  // What the steps preserve

  /** One successful evolve or simplify step appends exactly one equality and keeps the others. */
  predicate Extends(before: ProofRecord, after: ProofRecord, newEquality: string)
  {
    after.equalities == before.equalities + [RemoveSpaces(newEquality)]
    && after.conclusionAim == before.conclusionAim && after.isFinished == before.isFinished
  }

  lemma EvolveExtends(h: Header, rec: ProofRecord, newEquality: string, modification: string, cited: Theorem)
    requires SpaceFree(rec.equalities) && ModificationReadable(RemoveSpaces(modification))
    requires EvolveRecord(h, rec, newEquality, modification, cited).Ok?
    ensures var after := EvolveRecord(h, rec, newEquality, modification, cited).value;
            Extends(rec, after, newEquality) && SpaceFree(after.equalities)
            && |after.equalities| == |rec.equalities| + 1 && after.equalities[0] == rec.equalities[0]
            && after.dependencies == rec.dependencies + [cited]
  {
  }

  lemma SimplifyExtends(h: Header, rec: ProofRecord, newEquality: string, simplification: string)
    requires SpaceFree(rec.equalities) && ModificationReadable(RemoveSpaces(simplification))
    requires SimplifyRecord(h, rec, newEquality, simplification).Ok?
    ensures var after := SimplifyRecord(h, rec, newEquality, simplification).value;
            Extends(rec, after, newEquality) && SpaceFree(after.equalities)
            && |after.equalities| == |rec.equalities| + 1 && after.equalities[0] == rec.equalities[0]
            && after.dependencies == rec.dependencies
  {
  }

  /** Concluding twice is concluding once. */
  lemma ConcludeIdempotent(rec: ProofRecord)
    requires |rec.conclusionAim| == 2 && ConcludeRecord(rec).Ok?
    ensures ConcludeRecord(ConcludeRecord(rec).value) == ConcludeRecord(rec)
  {
  }

  /** A concluded proof has reached both sides of its aim, and concluding keeps the equalities. */
  lemma ConcludeReachesAim(rec: ProofRecord)
    requires |rec.conclusionAim| == 2 && !rec.isFinished && ConcludeRecord(rec).Ok?
    ensures var after := ConcludeRecord(rec).value;
            after.isFinished && after.equalities == rec.equalities
            && rec.conclusionAim[0] in after.equalities && rec.conclusionAim[1] in after.equalities
  {
  }

  /**
   * A step accepted by evolve is one rewrite by the cited theorem: some
   * earlier equality is L + x + R and the new one is L + y + R, where x and y
   * are the two parts of the modification and both sides of the theorem are
   * among them.
   */
  lemma EvolveIsOneRewrite(h: Header, rec: ProofRecord, newEquality: string, modification: string, cited: Theorem)
    requires SpaceFree(rec.equalities) && ModificationReadable(RemoveSpaces(modification))
    requires EvolveRecord(h, rec, newEquality, modification, cited).Ok?
    ensures exists i, x, y, p :: 0 <= i < |rec.equalities| && Split(RemoveSpaces(modification), "=") == [x, y]
              && cited.leftHandSide in [x, y] && cited.rightHandSide in [x, y]
              && 0 <= p && p + |x| <= |rec.equalities[i]|
              && rec.equalities[i] == rec.equalities[i][..p] + x + rec.equalities[i][p + |x|..]
              && RemoveSpaces(newEquality) == rec.equalities[i][..p] + y + rec.equalities[i][p + |x|..]
  {
    var modif := RemoveSpaces(modification);
    var i := OldEquality(rec.equalities, RemoveSpaces(newEquality), modif).value;
    var parts := Split(modif, "=");
    var x, y := parts[0], parts[1];
    assert parts == [x, y];
    SplitJoin(modif, "=");
    assert Join(parts, "=") == x + "=" + y by {
      assert parts[1..] == [y];
    }
    SingleModificationSound(rec.equalities[i], RemoveSpaces(newEquality), x, y);
  }

  // ----------------------------------------------------------------------
  // The proof object

  class Proof {
    /** The theorem this proof belongs to. */
    const theorem: Header
    var conclusionAim: seq<string>
    var equalities: seq<string>
    var isFinished: bool
    var dependencies: seq<Theorem>

    /** The state of this proof as a value. */
    function Record(): ProofRecord
      reads this
    {
      ProofRecord(conclusionAim, equalities, dependencies, isFinished)
    }

    predicate Valid()
      reads this
    {
      SpaceFree(equalities)
    }

    /** The source raises NonExistingUnknown here; callers check FirstUnbound first. */
    constructor (theorem: Header, startingEquality: string)
      requires FirstUnbound(theorem, startingEquality).None?
      ensures this.theorem == theorem && Valid()
      ensures Record() == StartRecord(theorem, startingEquality).value
    {
      this.theorem := theorem;
      conclusionAim := Split(RemoveSpaces(theorem.conclusion), "=");
      isFinished := false;
      dependencies := [];
      var start := RemoveSpaces(startingEquality);
      equalities := [start];
    }

    method FindOldEquality(newEquality: string, modification: string) returns (found: Option<string>)
      requires Valid() && ModificationReadable(modification)
      ensures found.None? <==> OldEquality(equalities, newEquality, modification).None?
      ensures found.Some? ==> found.value == equalities[OldEquality(equalities, newEquality, modification).value]
    {
      SpaceFreeReadable(equalities);
      for i := 0 to |equalities|
        invariant forall j :: 0 <= j < i ==> !SingleModification(equalities[j], newEquality, modification)
      {
        var ok := OnlyOneModification(equalities[i], newEquality, modification);
        if ok {
          return Some(equalities[i]);
        }
      }
      return None;
    }

    method EvolveEquality(newEquality: string, modification: string, cited: Theorem) returns (err: Option<Error>)
      requires Valid() && ModificationReadable(RemoveSpaces(modification))
      modifies this
      ensures Valid()
      ensures var r := EvolveRecord(theorem, old(Record()), newEquality, modification, cited);
              (r.Ok? ==> err.None? && Record() == r.value) && (r.Err? ==> err == Some(r.error) && Record() == old(Record()))
    {
      var newEq := RemoveSpaces(newEquality);
      var modif := RemoveSpaces(modification);
      if !IsProven(cited) {
        return Some(TheoremNotProven);
      }
      if !IsHeld(cited, modif) {
        return Some(ModificationNotValid);
      }
      var unbound := VerifyHasInstantiatedEveryCharacter(theorem, newEq);
      if unbound.Some? {
        return Some(NonExistingUnknown(unbound.value));
      }
      unbound := VerifyHasInstantiatedEveryCharacter(theorem, modif);
      if unbound.Some? {
        return Some(NonExistingUnknown(unbound.value));
      }
      var oldEquality := FindOldEquality(newEq, modif);
      if oldEquality.None? {
        return Some(WrongModification);
      }
      dependencies := dependencies + [cited];
      equalities := equalities + [newEq];
      return None;
    }

    method UseSimplification(newEquality: string, simplification: string) returns (err: Option<Error>)
      requires Valid() && ModificationReadable(RemoveSpaces(simplification))
      modifies this
      ensures Valid()
      ensures var r := SimplifyRecord(theorem, old(Record()), newEquality, simplification);
              (r.Ok? ==> err.None? && Record() == r.value) && (r.Err? ==> err == Some(r.error) && Record() == old(Record()))
    {
      var simpl := RemoveSpaces(simplification);
      var newEq := RemoveSpaces(newEquality);
      var parts := Split(simpl, "=");
      if |parts| != 2 {
        return Some(WrongSimplification);
      }
      var valid := false;
      for k := 0 to |theorem.simplifications|
        invariant !valid
        invariant forall j :: 0 <= j < k ==>
                    !(theorem.simplifications[j].name in parts && theorem.simplifications[j].expression in parts)
      {
        if theorem.simplifications[k].name in parts && theorem.simplifications[k].expression in parts {
          valid := true;
          break;
        }
      }
      if !valid {
        return Some(WrongSimplification);
      }
      var oldEquality := FindOldEquality(newEq, simpl);
      if oldEquality.None? {
        return Some(WrongSimplification);
      }
      equalities := equalities + [newEq];
      return None;
    }

    method Conclude() returns (err: Option<Error>)
      requires |conclusionAim| == 2
      modifies this
      ensures unchanged(this`conclusionAim, this`equalities, this`dependencies)
      ensures var r := ConcludeRecord(old(Record()));
              (r.Ok? ==> err.None? && Record() == r.value) && (r.Err? ==> err == Some(r.error) && Record() == old(Record()))
    {
      if isFinished {
        return None;
      }
      var conclusionLhs, conclusionRhs := conclusionAim[0], conclusionAim[1];
      if !(conclusionLhs in equalities && conclusionRhs in equalities) {
        return Some(CannotConclude);
      }
      isFinished := true;
      return None;
    }
  }
}
