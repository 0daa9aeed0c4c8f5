/**
 * Construction of a theorem (Theorem.__init__ and Equality.__init__ with
 * get_proof): a declared variant is data, a proof script is a list of
 * steps, and constructing a variant with parameters either gives the
 * instantiated theorem or the first error the source raises.
 *
 * Names of variants are a type parameter N; a registry maps every name to
 * its declaration. Python's recursion limit becomes a fuel: every nested
 * proof costs one unit, and a proof met with no fuel left raises
 * TheoremRecursion.
 */
module Construction {
  import opened Wrappers
  import opened TextGestion
  import opened Theorems
  import opened Proofs

  /** One call of a proof script; Evolve names the cited variant and its parameters. */
  datatype Step<N> =
    | Evolve(newEquality: string, modification: string, cited: N, parameters: seq<string>)
    | Simplify(newEquality: string, simplification: string)
    | Conclude

  /** get_proof: the starting equality and the steps, in order. */
  datatype Script<N> = Script(start: string, steps: seq<Step<N>>)

  /** A variant as declared by its class: None for the proof of an axiom. */
  datatype Declaration<N> = Declaration(
    name: string,
    conclusion: string,
    unknowns: seq<string>,
    simplifications: seq<Simplification>,
    proof: Option<Script<N>>)

  /** An equality as the declarations write it: its two sides around " = ". */
  function Equation(lhs: string, rhs: string): string
  {
    lhs + " = " + rhs
  }

  /** Sides without '=' that do not start with a space. */
  predicate EquationSides(lhs: string, rhs: string)
  {
    Lacks(lhs, '=') && Lacks(rhs, '=') && |lhs| > 0 && lhs[0] != ' ' && |rhs| > 0 && rhs[0] != ' '
  }

  /** Such an equality splits on its '=', around the two sides, with or without its spaces. */
  lemma EquationReadable(lhs: string, rhs: string)
    requires EquationSides(lhs, rhs)
    ensures Split(Equation(lhs, rhs), "=") == [lhs + " ", " " + rhs]
    ensures Split(RemoveSpaces(Equation(lhs, rhs)), "=") == [RemoveSpaces(lhs), RemoveSpaces(rhs)]
    ensures ModificationReadable(RemoveSpaces(Equation(lhs, rhs)))
  {
    assert Equation(lhs, rhs) == Eq(lhs + " ", " " + rhs);
    EqReadable(lhs + " ", " " + rhs, 0, 1);
    RemoveSpacesAppend(lhs, " ");
    RemoveSpacesAppend(" ", rhs);
    assert RemoveSpaces(" ") == "";
    assert RemoveSpaces(lhs + " ") == RemoveSpaces(lhs);
    assert RemoveSpaces(" " + rhs) == RemoveSpaces(rhs);
  }

  /** The simplifications as the constructor stores them: expressions without spaces. */
  function RemoveSpacesOfSimplifications(simplifications: seq<Simplification>): (r: seq<Simplification>)
    ensures |r| == |simplifications|
    ensures forall k :: 0 <= k < |r| ==>
              r[k] == Simplification(simplifications[k].name, RemoveSpaces(simplifications[k].expression))
  {
    if |simplifications| == 0 then []
    else [Simplification(simplifications[0].name, RemoveSpaces(simplifications[0].expression))]
         + RemoveSpacesOfSimplifications(simplifications[1..])
  }

  function HeaderOf<N>(d: Declaration<N>): Header
  {
    Header(d.name, d.conclusion, d.unknowns, RemoveSpacesOfSimplifications(d.simplifications))
  }

  // ----------------------------------------------------------------------
  // What the source needs of its inputs

  predicate StepReadable<N>(step: Step<N>)
  {
    match step
    case Evolve(_, modification, _, parameters) =>
      ModificationReadable(RemoveSpaces(modification)) && ParametersReadable(parameters)
    case Simplify(_, simplification) => ModificationReadable(RemoveSpaces(simplification))
    case Conclude => true
  }

  predicate StepsReadable<N>(steps: seq<Step<N>>)
  {
    forall k :: 0 <= k < |steps| ==> StepReadable(steps[k])
  }

  /** The conclusion has exactly one '=' (with or without its spaces) and every step is readable. */
  predicate DeclarationReadable<N>(d: Declaration<N>)
  {
    |Split(d.conclusion, "=")| == 2 && |Split(RemoveSpaces(d.conclusion), "=")| == 2
    && (d.proof.Some? ==> StepsReadable(d.proof.value.steps))
  }

  /** The declaration the registry gives for `n` is readable. */
  ghost predicate Registered<N>(reg: N -> Declaration<N>, n: N)
  {
    DeclarationReadable(reg(n))
  }

  ghost predicate RegistryReadable<N(!new)>(reg: N -> Declaration<N>)
  {
    forall n :: Registered(reg, n)
  }

  // ----------------------------------------------------------------------
  // Construction as a function

  /**
   * The constructor of a variant: names, the letters of the conclusion, the
   * proof (on the symbolic conclusion), then the instantiation of the sides.
   */
  function Instantiate<N(!new)>(reg: N -> Declaration<N>, d: Declaration<N>, params: Option<seq<string>>, fuel: nat)
    : Result<Theorem, Error>
    requires RegistryReadable(reg) && DeclarationReadable(d)
    requires params.Some? ==> ParametersReadable(params.value)
    decreases fuel, 1
  {
    var h := HeaderOf(d);
    if !ValidNames(h) then Err(BadUnknownName)
    else if FirstUnbound(h, d.conclusion).Some? then Err(NonExistingUnknown(FirstUnbound(h, d.conclusion).value))
    else
      var proof :- BuildProof(reg, h, d.proof, fuel);
      var sides :- InstantiateSides(h, params);
      Ok(Theorem(h, proof, sides.0, sides.1))
  }

  /** get_proof: None for an axiom; a script runs on a new proof, with one unit of fuel less for what it cites. */
  function BuildProof<N(!new)>(reg: N -> Declaration<N>, h: Header, script: Option<Script<N>>, fuel: nat)
    : Result<Option<ProofRecord>, Error>
    requires RegistryReadable(reg) && |Split(RemoveSpaces(h.conclusion), "=")| == 2
    requires script.Some? ==> StepsReadable(script.value.steps)
    decreases fuel, 0
  {
    match script
    case None => Ok(None)
    case Some(s) =>
      if fuel == 0 then Err(TheoremRecursion)
      else
        var start :- StartRecord(h, s.start);
        RemoveSpacesOfSpaceFree(RemoveSpaces(s.start));
        var final :- RunSteps(reg, h, start, s.steps, fuel - 1);
        Ok(Some(final))
  }

  /** The steps of a script in order; the first error stops the proof. */
  function RunSteps<N(!new)>(reg: N -> Declaration<N>, h: Header, rec: ProofRecord, steps: seq<Step<N>>, fuel: nat)
    : (r: Result<ProofRecord, Error>)
    requires RegistryReadable(reg) && SpaceFree(rec.equalities) && |rec.conclusionAim| == 2
    requires StepsReadable(steps)
    ensures r.Ok? ==> SpaceFree(r.value.equalities) && r.value.conclusionAim == rec.conclusionAim
    decreases fuel, 2, |steps|
  {
    if |steps| == 0 then Ok(rec)
    else
      var next :- RunStep(reg, h, rec, steps[0], fuel);
      RunSteps(reg, h, next, steps[1..], fuel)
  }

  /** One step; the cited variant is constructed first, as Python evaluates the argument first. */
  function RunStep<N(!new)>(reg: N -> Declaration<N>, h: Header, rec: ProofRecord, step: Step<N>, fuel: nat)
    : (r: Result<ProofRecord, Error>)
    requires RegistryReadable(reg) && SpaceFree(rec.equalities) && |rec.conclusionAim| == 2
    requires StepReadable(step)
    ensures r.Ok? ==> SpaceFree(r.value.equalities) && r.value.conclusionAim == rec.conclusionAim
    decreases fuel, 2, 0
  {
    match step
    case Evolve(newEquality, modification, cited, parameters) =>
      assert Registered(reg, cited);
      var theorem :- Instantiate(reg, reg(cited), Some(parameters), fuel);
      RemoveSpacesOfSpaceFree(RemoveSpaces(newEquality));
      EvolveRecord(h, rec, newEquality, modification, theorem)
    case Simplify(newEquality, simplification) =>
      RemoveSpacesOfSpaceFree(RemoveSpaces(newEquality));
      SimplifyRecord(h, rec, newEquality, simplification)
    case Conclude => ConcludeRecord(rec)
  }

  // ----------------------------------------------------------------------
  // Construction as the source runs it

  /** The constructors of Theorem and Equality, in their order, with get_proof on a Proof object. */
  method Construct<N(!new)>(reg: N -> Declaration<N>, d: Declaration<N>, params: Option<seq<string>>, fuel: nat)
    returns (r: Result<Theorem, Error>)
    requires RegistryReadable(reg) && DeclarationReadable(d)
    requires params.Some? ==> ParametersReadable(params.value)
    ensures r == Instantiate(reg, d, params, fuel)
    decreases fuel, 1
  {
    var namesOk := CheckNames(d.unknowns, d.simplifications);
    if !namesOk {
      return Err(BadUnknownName);
    }
    var simplNoSpace: seq<Simplification> := [];
    for i := 0 to |d.simplifications|
      invariant |simplNoSpace| == i
      invariant forall k :: 0 <= k < i ==>
                  simplNoSpace[k] == Simplification(d.simplifications[k].name, RemoveSpaces(d.simplifications[k].expression))
    {
      simplNoSpace := simplNoSpace + [Simplification(d.simplifications[i].name, RemoveSpaces(d.simplifications[i].expression))];
    }
    assert simplNoSpace == RemoveSpacesOfSimplifications(d.simplifications);
    var h := Header(d.name, d.conclusion, d.unknowns, simplNoSpace);
    var unbound := VerifyHasInstantiatedEveryCharacter(h, d.conclusion);
    if unbound.Some? {
      return Err(NonExistingUnknown(unbound.value));
    }
    var proof := GetProof(reg, h, d.proof, fuel);
    if proof.Err? {
      return Err(proof.error);
    }
    var paramList: seq<string>;
    if params.None? {
      paramList := seq(|h.unknowns|, _ => "0");
      DefaultParametersReadable(h);
    } else if |h.unknowns| != |params.value| {
      return Err(NotRightNumberOfParameters(|h.unknowns|, |params.value|));
    } else {
      paramList := params.value;
    }
    var parts := Split(d.conclusion, "=");
    var lhs, rhs := RemoveSpaces(parts[0]), RemoveSpaces(parts[1]);
    var lhsOk := VerifyMaths(lhs);
    var rhsOk := VerifyMaths(rhs);
    if !(lhsOk && rhsOk) {
      return Err(EqualitySideNotOkForMaths);
    }
    var dict := BuildReplacements(h, paramList);
    if dict.Err? {
      return Err(dict.error);
    }
    BindingsReadable(h, paramList);
    lhs := ReplaceUsingDict(lhs, dict.value);
    rhs := ReplaceUsingDict(rhs, dict.value);
    SubstituteNoSpaces(SymbolicSides(h).0, dict.value);
    SubstituteNoSpaces(SymbolicSides(h).1, dict.value);
    var orderOk := CheckReplacementOrder(lhs, rhs, dict.value);
    if !orderOk {
      return Err(BadOperationOrderInReplacement);
    }
    lhsOk := VerifyMaths(lhs);
    rhsOk := VerifyMaths(rhs);
    if !(lhsOk && rhsOk) {
      return Err(EqualitySideNotOkForMaths);
    }
    return Ok(Theorem(h, proof.value, lhs, rhs));
  }

  /** get_proof of a variant: a new Proof, then the calls of its script, each raising at the first error. */
  method GetProof<N(!new)>(reg: N -> Declaration<N>, h: Header, script: Option<Script<N>>, fuel: nat)
    returns (r: Result<Option<ProofRecord>, Error>)
    requires RegistryReadable(reg) && |Split(RemoveSpaces(h.conclusion), "=")| == 2
    requires script.Some? ==> StepsReadable(script.value.steps)
    ensures r == BuildProof(reg, h, script, fuel)
    decreases fuel, 0
  {
    if script.None? {
      return Ok(None);
    }
    if fuel == 0 {
      return Err(TheoremRecursion);
    }
    var s := script.value;
    var unbound := VerifyHasInstantiatedEveryCharacter(h, RemoveSpaces(s.start));
    RemoveSpacesIdempotent(s.start);
    if unbound.Some? {
      return Err(NonExistingUnknown(unbound.value));
    }
    var proof := new Proof(h, s.start);
    var err := RunScript(reg, proof, s.steps, fuel - 1);
    if err.Some? {
      return Err(err.value);
    }
    return Ok(Some(proof.Record()));
  }

  /** The calls of a script, in order, on the proof object. */
  method RunScript<N(!new)>(reg: N -> Declaration<N>, proof: Proof, steps: seq<Step<N>>, fuel: nat)
    returns (err: Option<Error>)
    requires RegistryReadable(reg) && proof.Valid() && |proof.conclusionAim| == 2 && StepsReadable(steps)
    modifies proof
    ensures var r := RunSteps(reg, proof.theorem, old(proof.Record()), steps, fuel);
            (r.Ok? ==> err.None? && proof.Record() == r.value) && (r.Err? ==> err == Some(r.error))
    decreases fuel, 3
  {
    ghost var start := proof.Record();
    for i := 0 to |steps|
      invariant proof.Valid() && |proof.conclusionAim| == 2
      invariant RunSteps(reg, proof.theorem, start, steps, fuel) == RunSteps(reg, proof.theorem, proof.Record(), steps[i..], fuel)
    {
      assert steps[i..][0] == steps[i] && steps[i..][1..] == steps[i + 1..];
      RunStepsFirst(reg, proof.theorem, proof.Record(), steps[i..], fuel);
      err := ApplyStep(reg, proof, steps[i], fuel);
      if err.Some? {
        return;
      }
    }
    assert steps[|steps|..] == [];
    return None;
  }

  /** One call of a script on the proof object. */
  method ApplyStep<N(!new)>(reg: N -> Declaration<N>, proof: Proof, step: Step<N>, fuel: nat) returns (err: Option<Error>)
    requires RegistryReadable(reg) && proof.Valid() && |proof.conclusionAim| == 2 && StepReadable(step)
    modifies proof
    ensures proof.Valid() && |proof.conclusionAim| == 2
    ensures var r := RunStep(reg, proof.theorem, old(proof.Record()), step, fuel);
            (r.Ok? ==> err.None? && proof.Record() == r.value) && (r.Err? ==> err == Some(r.error))
    decreases fuel, 2
  {
    match step
    case Evolve(newEquality, modification, cited, parameters) => {
      assert Registered(reg, cited);
      var theorem := Construct(reg, reg(cited), Some(parameters), fuel);
      if theorem.Err? {
        return Some(theorem.error);
      }
      RemoveSpacesOfSpaceFree(RemoveSpaces(newEquality));
      err := proof.EvolveEquality(newEquality, modification, theorem.value);
    }
    case Simplify(newEquality, simplification) => {
      RemoveSpacesOfSpaceFree(RemoveSpaces(newEquality));
      err := proof.UseSimplification(newEquality, simplification);
    }
    case Conclude => {
      err := proof.Conclude();
    }
  }

  lemma RunStepsFirst<N(!new)>(reg: N -> Declaration<N>, h: Header, rec: ProofRecord, steps: seq<Step<N>>, fuel: nat)
    requires RegistryReadable(reg) && SpaceFree(rec.equalities) && |rec.conclusionAim| == 2
    requires StepsReadable(steps) && |steps| > 0
    ensures var r := RunStep(reg, h, rec, steps[0], fuel);
            (r.Err? ==> RunSteps(reg, h, rec, steps, fuel) == Err(r.error))
            && (r.Ok? ==> RunSteps(reg, h, rec, steps, fuel) == RunSteps(reg, h, r.value, steps[1..], fuel))
  {
  }

  // ----------------------------------------------------------------------
  // The fuel only bounds recursion

  lemma {:induction false} InstantiateFuel<N(!new)>(reg: N -> Declaration<N>, d: Declaration<N>, params: Option<seq<string>>, fuel: nat)
    requires RegistryReadable(reg) && DeclarationReadable(d)
    requires params.Some? ==> ParametersReadable(params.value)
    requires Instantiate(reg, d, params, fuel) != Err(TheoremRecursion)
    ensures Instantiate(reg, d, params, fuel + 1) == Instantiate(reg, d, params, fuel)
    decreases fuel, 1
  {
    var h := HeaderOf(d);
    if ValidNames(h) && FirstUnbound(h, d.conclusion).None? {
      BuildProofFuel(reg, h, d.proof, fuel);
    }
  }

  lemma {:induction false} BuildProofFuel<N(!new)>(reg: N -> Declaration<N>, h: Header, script: Option<Script<N>>, fuel: nat)
    requires RegistryReadable(reg) && |Split(RemoveSpaces(h.conclusion), "=")| == 2
    requires script.Some? ==> StepsReadable(script.value.steps)
    requires BuildProof(reg, h, script, fuel) != Err(TheoremRecursion)
    ensures BuildProof(reg, h, script, fuel + 1) == BuildProof(reg, h, script, fuel)
    decreases fuel, 0
  {
    if script.Some? && StartRecord(h, script.value.start).Ok? {
      var start := StartRecord(h, script.value.start).value;
      RemoveSpacesOfSpaceFree(RemoveSpaces(script.value.start));
      RunStepsFuel(reg, h, start, script.value.steps, fuel - 1);
    }
  }

  lemma {:induction false} RunStepsFuel<N(!new)>(reg: N -> Declaration<N>, h: Header, rec: ProofRecord, steps: seq<Step<N>>, fuel: nat)
    requires RegistryReadable(reg) && SpaceFree(rec.equalities) && |rec.conclusionAim| == 2
    requires StepsReadable(steps)
    requires RunSteps(reg, h, rec, steps, fuel) != Err(TheoremRecursion)
    ensures RunSteps(reg, h, rec, steps, fuel + 1) == RunSteps(reg, h, rec, steps, fuel)
    decreases fuel, 2, |steps|
  {
    if |steps| > 0 {
      RunStepFuel(reg, h, rec, steps[0], fuel);
      var next := RunStep(reg, h, rec, steps[0], fuel);
      if next.Ok? {
        RunStepsFuel(reg, h, next.value, steps[1..], fuel);
      }
    }
  }

  lemma {:induction false} RunStepFuel<N(!new)>(reg: N -> Declaration<N>, h: Header, rec: ProofRecord, step: Step<N>, fuel: nat)
    requires RegistryReadable(reg) && SpaceFree(rec.equalities) && |rec.conclusionAim| == 2
    requires StepReadable(step)
    requires RunStep(reg, h, rec, step, fuel) != Err(TheoremRecursion)
    ensures RunStep(reg, h, rec, step, fuel + 1) == RunStep(reg, h, rec, step, fuel)
    decreases fuel, 2, 0
  {
    if step.Evolve? {
      assert Registered(reg, step.cited);
      InstantiateFuel(reg, reg(step.cited), Some(step.parameters), fuel);
    }
  }

  /** Once a construction ends without a recursion error, more fuel changes nothing. */
  lemma {:induction false} InstantiateMoreFuel<N(!new)>(reg: N -> Declaration<N>, d: Declaration<N>, params: Option<seq<string>>, fuel: nat, more: nat)
    requires RegistryReadable(reg) && DeclarationReadable(d)
    requires params.Some? ==> ParametersReadable(params.value)
    requires Instantiate(reg, d, params, fuel) != Err(TheoremRecursion) && fuel <= more
    ensures Instantiate(reg, d, params, more) == Instantiate(reg, d, params, fuel)
    decreases more - fuel
  {
    if fuel < more {
      InstantiateFuel(reg, d, params, fuel);
      InstantiateMoreFuel(reg, d, params, fuel + 1, more);
    }
  }

  // ----------------------------------------------------------------------
  // What a constructed theorem guarantees

  /** What every proof state reached by a script satisfies. */
  predicate ProofInvariant(rec: ProofRecord)
  {
    |rec.conclusionAim| == 2
    && (rec.isFinished ==> rec.conclusionAim[0] in rec.equalities && rec.conclusionAim[1] in rec.equalities)
    && (forall k :: 0 <= k < |rec.dependencies| ==> IsProven(rec.dependencies[k]))
  }

  /** What a run of steps keeps of the state it starts from. */
  predicate Continues(before: ProofRecord, after: ProofRecord)
  {
    |before.equalities| <= |after.equalities| && after.equalities[..|before.equalities|] == before.equalities
    && |before.dependencies| <= |after.dependencies| && after.dependencies[..|before.dependencies|] == before.dependencies
    && after.conclusionAim == before.conclusionAim
    && (before.isFinished ==> after.isFinished)
  }

  lemma RunStepKeeps<N(!new)>(reg: N -> Declaration<N>, h: Header, rec: ProofRecord, step: Step<N>, fuel: nat)
    requires RegistryReadable(reg) && SpaceFree(rec.equalities) && ProofInvariant(rec)
    requires StepReadable(step) && RunStep(reg, h, rec, step, fuel).Ok?
    ensures ProofInvariant(RunStep(reg, h, rec, step, fuel).value)
    ensures Continues(rec, RunStep(reg, h, rec, step, fuel).value)
  {
    var after := RunStep(reg, h, rec, step, fuel).value;
    assert after.equalities[..|rec.equalities|] == rec.equalities;
    assert after.dependencies[..|rec.dependencies|] == rec.dependencies;
  }

  lemma {:induction false} RunStepsKeep<N(!new)>(reg: N -> Declaration<N>, h: Header, rec: ProofRecord, steps: seq<Step<N>>, fuel: nat)
    requires RegistryReadable(reg) && SpaceFree(rec.equalities) && ProofInvariant(rec)
    requires StepsReadable(steps) && RunSteps(reg, h, rec, steps, fuel).Ok?
    ensures ProofInvariant(RunSteps(reg, h, rec, steps, fuel).value)
    ensures Continues(rec, RunSteps(reg, h, rec, steps, fuel).value)
    decreases |steps|
  {
    if |steps| > 0 {
      var next := RunStep(reg, h, rec, steps[0], fuel).value;
      RunStepKeeps(reg, h, rec, steps[0], fuel);
      RunStepsKeep(reg, h, next, steps[1..], fuel);
      var last := RunSteps(reg, h, rec, steps, fuel).value;
      assert last.equalities[..|next.equalities|][..|rec.equalities|] == last.equalities[..|rec.equalities|];
      assert last.dependencies[..|next.dependencies|][..|rec.dependencies|] == last.dependencies[..|rec.dependencies|];
    }
  }

  /**
   * A constructed theorem with a proof: the proof starts from the starting
   * equality, every theorem it cites is proven, and when it is proven both
   * sides of the symbolic conclusion were reached.
   */
  lemma ConstructedProof<N(!new)>(reg: N -> Declaration<N>, d: Declaration<N>, params: Option<seq<string>>, fuel: nat)
    requires RegistryReadable(reg) && DeclarationReadable(d)
    requires params.Some? ==> ParametersReadable(params.value)
    requires Instantiate(reg, d, params, fuel).Ok? && d.proof.Some?
    ensures var t := Instantiate(reg, d, params, fuel).value;
            var aim := Split(RemoveSpaces(d.conclusion), "=");
            t.proof.Some? && |t.proof.value.equalities| > 0
            && t.proof.value.equalities[0] == RemoveSpaces(d.proof.value.start)
            && (forall k :: 0 <= k < |t.proof.value.dependencies| ==> IsProven(t.proof.value.dependencies[k]))
            && t.proof.value.conclusionAim == aim
            && (IsProven(t) ==> aim[0] in t.proof.value.equalities && aim[1] in t.proof.value.equalities)
  {
    var h := HeaderOf(d);
    assert Instantiate(reg, d, params, fuel).value.proof == BuildProof(reg, h, d.proof, fuel).value;
    BuildProofKeeps(reg, h, d.proof.value, fuel);
  }

  lemma BuildProofKeeps<N(!new)>(reg: N -> Declaration<N>, h: Header, script: Script<N>, fuel: nat)
    requires RegistryReadable(reg) && |Split(RemoveSpaces(h.conclusion), "=")| == 2
    requires StepsReadable(script.steps) && BuildProof(reg, h, Some(script), fuel).Ok?
    ensures var proof := BuildProof(reg, h, Some(script), fuel).value;
            proof.Some? && |proof.value.equalities| > 0
            && proof.value.equalities[0] == RemoveSpaces(script.start)
            && ProofInvariant(proof.value)
            && proof.value.conclusionAim == Split(RemoveSpaces(h.conclusion), "=")
  {
    var start := StartRecord(h, script.start).value;
    RemoveSpacesOfSpaceFree(RemoveSpaces(script.start));
    RunStepsKeep(reg, h, start, script.steps, fuel - 1);
    var final := RunSteps(reg, h, start, script.steps, fuel - 1).value;
    assert final.equalities[..1] == start.equalities;
  }

  /** An axiom is constructed without a proof and is proven. */
  lemma ConstructedAxiom<N(!new)>(reg: N -> Declaration<N>, d: Declaration<N>, params: Option<seq<string>>, fuel: nat)
    requires RegistryReadable(reg) && DeclarationReadable(d)
    requires params.Some? ==> ParametersReadable(params.value)
    requires Instantiate(reg, d, params, fuel).Ok? && d.proof.None?
    ensures IsAxiom(Instantiate(reg, d, params, fuel).value) && IsProven(Instantiate(reg, d, params, fuel).value)
  {
  }

  /**
   * The proof is built before the parameters are looked at: two
   * constructions of the same variant carry the same proof, and a failing
   * proof makes every construction fail with its error.
   */
  lemma ProofIgnoresParameters<N(!new)>(reg: N -> Declaration<N>, d: Declaration<N>, p: Option<seq<string>>, q: Option<seq<string>>, fuel: nat)
    requires RegistryReadable(reg) && DeclarationReadable(d)
    requires p.Some? ==> ParametersReadable(p.value)
    requires q.Some? ==> ParametersReadable(q.value)
    ensures Instantiate(reg, d, p, fuel).Ok? && Instantiate(reg, d, q, fuel).Ok? ==>
              Instantiate(reg, d, p, fuel).value.proof == Instantiate(reg, d, q, fuel).value.proof
              && Instantiate(reg, d, p, fuel).value.header == Instantiate(reg, d, q, fuel).value.header
    ensures var h := HeaderOf(d);
            ValidNames(h) && FirstUnbound(h, d.conclusion).None? && BuildProof(reg, h, d.proof, fuel).Err? ==>
              Instantiate(reg, d, p, fuel) == Instantiate(reg, d, q, fuel) == Err(BuildProof(reg, h, d.proof, fuel).error)
  {
  }

  /** A successful construction: valid names, every letter bound, and the sides as InstantiateSides gives them. */
  lemma ConstructedSides<N(!new)>(reg: N -> Declaration<N>, d: Declaration<N>, params: Option<seq<string>>, fuel: nat)
    requires RegistryReadable(reg) && DeclarationReadable(d)
    requires params.Some? ==> ParametersReadable(params.value)
    requires Instantiate(reg, d, params, fuel).Ok?
    ensures var t := Instantiate(reg, d, params, fuel).value;
            t.header == HeaderOf(d) && ValidNames(t.header) && FirstUnbound(t.header, d.conclusion).None?
            && InstantiateSides(t.header, params) == Ok((t.leftHandSide, t.rightHandSide))
            && WellFormed(t.leftHandSide) && WellFormed(t.rightHandSide)
            && NoSpaces(t.leftHandSide) && NoSpaces(t.rightHandSide)
  {
    InstantiateSidesOk(HeaderOf(d), params);
  }

  // ----------------------------------------------------------------------
  // Replaying a construction one check at a time

  /** Removing the spaces of `lhs = rhs` leaves the equality of the two sides without spaces. */
  lemma RemoveSpacesEquation(lhs: string, rhs: string)
    ensures RemoveSpaces(Equation(lhs, rhs)) == Eq(RemoveSpaces(lhs), RemoveSpaces(rhs))
  {
    assert Equation(lhs, rhs) == Eq(lhs + " ", " " + rhs);
    RemoveSpacesEq(lhs + " ", " " + rhs);
    RemoveSpacesAppend(lhs, " ");
    RemoveSpacesAppend(" ", rhs);
    assert RemoveSpaces(" ") == "";
    assert RemoveSpaces(lhs + " ") == RemoveSpaces(lhs);
    assert RemoveSpaces(" " + rhs) == RemoveSpaces(rhs);
  }

  /** A conclusion `lhs = rhs` has the two sides, without spaces, as symbolic sides and as aim. */
  lemma SymbolicSidesOf(h: Header, lhs: string, rhs: string)
    requires h.conclusion == Equation(lhs, rhs) && EquationSides(lhs, rhs)
    ensures ConclusionReadable(h) && SymbolicSides(h) == (RemoveSpaces(lhs), RemoveSpaces(rhs))
    ensures Split(RemoveSpaces(h.conclusion), "=") == [RemoveSpaces(lhs), RemoveSpaces(rhs)]
  {
    EquationReadable(lhs, rhs);
    RemoveSpacesAppend(lhs, " ");
    RemoveSpacesAppend(" ", rhs);
    assert RemoveSpaces(" ") == "";
    assert RemoveSpaces(lhs + " ") == RemoveSpaces(lhs);
    assert RemoveSpaces(" " + rhs) == RemoveSpaces(rhs);
  }

  /** The constructor succeeds when each of its checks passes, with the proof and the sides they give. */
  lemma InstantiateOf<N(!new)>(reg: N -> Declaration<N>, d: Declaration<N>, h: Header, params: Option<seq<string>>,
                               fuel: nat, proof: Option<ProofRecord>, lhs: string, rhs: string)
    requires RegistryReadable(reg) && DeclarationReadable(d) && HeaderOf(d) == h
    requires params.Some? ==> ParametersReadable(params.value)
    requires ValidNames(h) && FirstUnbound(h, h.conclusion).None?
    requires BuildProof(reg, h, d.proof, fuel) == Ok(proof)
    requires InstantiateSides(h, params) == Ok((lhs, rhs))
    ensures Instantiate(reg, d, params, fuel) == Ok(Theorem(h, proof, lhs, rhs))
  {
  }

  /** An axiom is constructed as soon as its checks pass: it has no proof to build. */
  lemma AxiomInstanceOf<N(!new)>(reg: N -> Declaration<N>, d: Declaration<N>, h: Header, params: Option<seq<string>>,
                                 fuel: nat, lhs: string, rhs: string)
    requires RegistryReadable(reg) && DeclarationReadable(d) && HeaderOf(d) == h && d.proof.None?
    requires params.Some? ==> ParametersReadable(params.value)
    requires ValidNames(h) && FirstUnbound(h, h.conclusion).None?
    requires InstantiateSides(h, params) == Ok((lhs, rhs))
    ensures Instantiate(reg, d, params, fuel) == Ok(Theorem(h, None, lhs, rhs))
  {
  }

  /** A variant with a proof script is constructed with the proof the script builds. */
  lemma TheoremInstanceOf<N(!new)>(reg: N -> Declaration<N>, d: Declaration<N>, h: Header, params: Option<seq<string>>,
                                   fuel: nat, script: Script<N>, proof: ProofRecord, lhs: string, rhs: string)
    requires RegistryReadable(reg) && DeclarationReadable(d) && HeaderOf(d) == h && d.proof == Some(script)
    requires params.Some? ==> ParametersReadable(params.value)
    requires ValidNames(h) && FirstUnbound(h, h.conclusion).None?
    requires BuildProof(reg, h, Some(script), fuel) == Ok(Some(proof))
    requires InstantiateSides(h, params) == Ok((lhs, rhs))
    ensures Instantiate(reg, d, params, fuel) == Ok(Theorem(h, Some(proof), lhs, rhs))
  {
  }

  /** The constructor fails with the error of the proof when the proof fails. */
  lemma InstantiateProofError<N(!new)>(reg: N -> Declaration<N>, d: Declaration<N>, h: Header,
                                       params: Option<seq<string>>, fuel: nat, e: Error)
    requires RegistryReadable(reg) && DeclarationReadable(d) && HeaderOf(d) == h
    requires params.Some? ==> ParametersReadable(params.value)
    requires ValidNames(h) && FirstUnbound(h, h.conclusion).None?
    requires BuildProof(reg, h, d.proof, fuel) == Err(e)
    ensures Instantiate(reg, d, params, fuel) == Err(e)
  {
  }

  /** The constructor fails with the error of the sides when the proof succeeds and the sides fail. */
  lemma InstantiateSidesError<N(!new)>(reg: N -> Declaration<N>, d: Declaration<N>, h: Header,
                                       params: Option<seq<string>>, fuel: nat, proof: Option<ProofRecord>, e: Error)
    requires RegistryReadable(reg) && DeclarationReadable(d) && HeaderOf(d) == h
    requires params.Some? ==> ParametersReadable(params.value)
    requires ValidNames(h) && FirstUnbound(h, h.conclusion).None?
    requires BuildProof(reg, h, d.proof, fuel) == Ok(proof)
    requires InstantiateSides(h, params) == Err(e)
    ensures Instantiate(reg, d, params, fuel) == Err(e)
  {
  }

  /** A script that starts and runs to the end, with one unit of fuel less, gives its final proof state. */
  lemma BuildProofOf<N(!new)>(reg: N -> Declaration<N>, h: Header, script: Script<N>, fuel: nat,
                              start: ProofRecord, final: ProofRecord)
    requires RegistryReadable(reg) && SpaceFree(start.equalities) && |start.conclusionAim| == 2 && StepsReadable(script.steps)
    requires RunSteps(reg, h, start, script.steps, fuel) == Ok(final)
    requires StartRecord(h, script.start) == Ok(start)
    requires |Split(RemoveSpaces(h.conclusion), "=")| == 2
    ensures BuildProof(reg, h, Some(script), fuel + 1) == Ok(Some(final))
  {
  }

  /** A script whose steps fail gives the error of the failing step. */
  lemma BuildProofErrorOf<N(!new)>(reg: N -> Declaration<N>, h: Header, script: Script<N>, fuel: nat,
                                   start: ProofRecord, e: Error)
    requires RegistryReadable(reg) && SpaceFree(start.equalities) && |start.conclusionAim| == 2 && StepsReadable(script.steps)
    requires RunSteps(reg, h, start, script.steps, fuel) == Err(e)
    requires StartRecord(h, script.start) == Ok(start)
    requires |Split(RemoveSpaces(h.conclusion), "=")| == 2
    ensures BuildProof(reg, h, Some(script), fuel + 1) == Err(e)
  {
  }

  /** The steps after a successful first step run from the state it gives. */
  lemma RunStepsCons<N(!new)>(reg: N -> Declaration<N>, h: Header, rec: ProofRecord, steps: seq<Step<N>>,
                              fuel: nat, next: ProofRecord)
    requires RegistryReadable(reg) && SpaceFree(rec.equalities) && |rec.conclusionAim| == 2
    requires StepsReadable(steps) && |steps| > 0
    requires RunStep(reg, h, rec, steps[0], fuel) == Ok(next)
    ensures SpaceFree(next.equalities) && |next.conclusionAim| == 2 && StepsReadable(steps[1..])
    ensures RunSteps(reg, h, rec, steps, fuel) == RunSteps(reg, h, next, steps[1..], fuel)
  {
    RunStepsFirst(reg, h, rec, steps, fuel);
  }

  /** A failing first step stops the script with its error. */
  lemma RunStepsStop<N(!new)>(reg: N -> Declaration<N>, h: Header, rec: ProofRecord, steps: seq<Step<N>>,
                              fuel: nat, e: Error)
    requires RegistryReadable(reg) && SpaceFree(rec.equalities) && |rec.conclusionAim| == 2
    requires StepsReadable(steps) && |steps| > 0
    requires RunStep(reg, h, rec, steps[0], fuel) == Err(e)
    ensures RunSteps(reg, h, rec, steps, fuel) == Err(e)
  {
    RunStepsFirst(reg, h, rec, steps, fuel);
  }

  /** An evolve step succeeds when the cited variant is constructed and each check of evolve_equality passes. */
  lemma EvolveStepOk<N(!new)>(reg: N -> Declaration<N>, h: Header, rec: ProofRecord, step: Step<N>, fuel: nat,
                              cited: Theorem, j: nat, next: ProofRecord)
    requires RegistryReadable(reg) && SpaceFree(rec.equalities) && |rec.conclusionAim| == 2
    requires step.Evolve? && StepReadable(step) && Registered(reg, step.cited)
    requires Instantiate(reg, reg(step.cited), Some(step.parameters), fuel) == Ok(cited)
    requires IsProven(cited) && IsHeld(cited, RemoveSpaces(step.modification))
    requires FirstUnbound(h, step.newEquality).None? && FirstUnbound(h, step.modification).None?
    requires OldEquality(rec.equalities, RemoveSpaces(step.newEquality), RemoveSpaces(step.modification)) == Some(j)
    requires next == rec.(equalities := rec.equalities + [RemoveSpaces(step.newEquality)],
                          dependencies := rec.dependencies + [cited])
    ensures RunStep(reg, h, rec, step, fuel) == Ok(next)
  {
  }

  /** A simplify step succeeds when its equality is a declared simplification and an old equality matches. */
  lemma SimplifyStepOk<N(!new)>(reg: N -> Declaration<N>, h: Header, rec: ProofRecord, step: Step<N>, fuel: nat,
                                j: nat, next: ProofRecord)
    requires RegistryReadable(reg) && SpaceFree(rec.equalities) && |rec.conclusionAim| == 2
    requires step.Simplify? && StepReadable(step)
    requires |Split(RemoveSpaces(step.simplification), "=")| == 2
    requires DeclaredSimplification(h, Split(RemoveSpaces(step.simplification), "="))
    requires OldEquality(rec.equalities, RemoveSpaces(step.newEquality), RemoveSpaces(step.simplification)) == Some(j)
    requires next == rec.(equalities := rec.equalities + [RemoveSpaces(step.newEquality)])
    ensures RunStep(reg, h, rec, step, fuel) == Ok(next)
  {
  }

  /** A conclude step succeeds once both sides of the aim are among the equalities. */
  lemma ConcludeStepOk<N(!new)>(reg: N -> Declaration<N>, h: Header, rec: ProofRecord, step: Step<N>, fuel: nat,
                                i: nat, j: nat)
    requires RegistryReadable(reg) && SpaceFree(rec.equalities) && |rec.conclusionAim| == 2
    requires step.Conclude? && i < |rec.equalities| && j < |rec.equalities|
    requires rec.equalities[i] == rec.conclusionAim[0] && rec.equalities[j] == rec.conclusionAim[1]
    ensures RunStep(reg, h, rec, step, fuel) == Ok(rec.(isFinished := true))
  {
  }

  /** An evolve step constructs the cited variant, then follows evolve_equality with it. */
  lemma EvolveOf<N(!new)>(reg: N -> Declaration<N>, h: Header, rec: ProofRecord, step: Step<N>, fuel: nat,
                          cited: Theorem)
    requires RegistryReadable(reg) && SpaceFree(rec.equalities) && |rec.conclusionAim| == 2
    requires step.Evolve? && StepReadable(step) && Registered(reg, step.cited)
    requires Instantiate(reg, reg(step.cited), Some(step.parameters), fuel) == Ok(cited)
    ensures RunStep(reg, h, rec, step, fuel) == EvolveRecord(h, rec, step.newEquality, step.modification, cited)
  {
  }

  /** An evolve step whose cited variant cannot be constructed fails with the error of that construction. */
  lemma EvolveCitedError<N(!new)>(reg: N -> Declaration<N>, h: Header, rec: ProofRecord, step: Step<N>, fuel: nat,
                                  e: Error)
    requires RegistryReadable(reg) && SpaceFree(rec.equalities) && |rec.conclusionAim| == 2
    requires step.Evolve? && StepReadable(step) && Registered(reg, step.cited)
    requires Instantiate(reg, reg(step.cited), Some(step.parameters), fuel) == Err(e)
    ensures RunStep(reg, h, rec, step, fuel) == Err(e)
  {
  }
}
