/*
 * The attacks of hijacks.py: theorems whose proofs try to slip past the
 * checks of the constructor, each refused with the error the program raises.
 */
module Hijacks {
  import opened Wrappers
  import opened TextGestion
  import opened Theorems
  import opened Proofs
  import opened Construction
  import opened TheoremSet
  import opened ReplayHeaders
  import opened SquareDistributionReplay
  import opened Replays

  // ----------------------------------------------------------------------
  // A registry that extends another one

  function RenameStep<A, B>(step: Step<A>, f: A -> B): Step<B>
  {
    match step
    case Evolve(newEquality, modification, cited, parameters) => Evolve(newEquality, modification, f(cited), parameters)
    case Simplify(newEquality, simplification) => Simplify(newEquality, simplification)
    case Conclude => Conclude
  }

  function RenameSteps<A, B>(steps: seq<Step<A>>, f: A -> B): (r: seq<Step<B>>)
    ensures |r| == |steps|
  {
    if |steps| == 0 then [] else [RenameStep(steps[0], f)] + RenameSteps(steps[1..], f)
  }

  function RenameProof<A, B>(proof: Option<Script<A>>, f: A -> B): Option<Script<B>>
  {
    match proof
    case None => None
    case Some(s) => Some(Script(s.start, RenameSteps(s.steps, f)))
  }

  /** The same declaration, with every cited name mapped by `f`. */
  function RenameDeclaration<A, B>(d: Declaration<A>, f: A -> B): Declaration<B>
  {
    Declaration(d.name, d.conclusion, d.unknowns, d.simplifications, RenameProof(d.proof, f))
  }

  /** `reg'` gives, for every name `f(n)`, the declaration that `reg` gives for `n`, with its citations renamed. */
  ghost predicate Renames<A(!new), B>(reg: A -> Declaration<A>, reg': B -> Declaration<B>, f: A -> B)
  {
    forall n :: reg'(f(n)) == RenameDeclaration(reg(n), f)
  }

  lemma {:induction false} RenamedStepsReadable<A, B>(steps: seq<Step<A>>, f: A -> B)
    requires StepsReadable(steps)
    ensures StepsReadable(RenameSteps(steps, f))
    decreases |steps|
  {
    if |steps| > 0 {
      var r := RenameSteps(steps, f);
      assert StepReadable(steps[0]);
      assert StepsReadable(steps[1..]) by {
        forall k | 0 <= k < |steps| - 1 ensures StepReadable(steps[1..][k]) {
          assert steps[1..][k] == steps[k + 1];
        }
      }
      RenamedStepsReadable(steps[1..], f);
      forall k | 0 <= k < |r| ensures StepReadable(r[k]) {
        if k > 0 {
          assert r[k] == RenameSteps(steps[1..], f)[k - 1];
        }
      }
    }
  }

  lemma RenamedReadable<A, B>(d: Declaration<A>, f: A -> B)
    requires DeclarationReadable(d)
    ensures DeclarationReadable(RenameDeclaration(d, f)) && HeaderOf(RenameDeclaration(d, f)) == HeaderOf(d)
  {
    if d.proof.Some? {
      RenamedStepsReadable(d.proof.value.steps, f);
    }
  }

  /** Renaming the names of a registry changes no construction. */
  lemma {:induction false} InstantiateRenamed<A(!new), B(!new)>(reg: A -> Declaration<A>, reg': B -> Declaration<B>, f: A -> B,
                                                               d: Declaration<A>, params: Option<seq<string>>, fuel: nat)
    requires RegistryReadable(reg) && RegistryReadable(reg') && Renames(reg, reg', f) && DeclarationReadable(d)
    requires params.Some? ==> ParametersReadable(params.value)
    ensures DeclarationReadable(RenameDeclaration(d, f))
    ensures Instantiate(reg', RenameDeclaration(d, f), params, fuel) == Instantiate(reg, d, params, fuel)
    decreases fuel, 1
  {
    RenamedReadable(d, f);
    var h := HeaderOf(d);
    if ValidNames(h) && FirstUnbound(h, d.conclusion).None? {
      BuildProofRenamed(reg, reg', f, h, d.proof, fuel);
    }
  }

  lemma {:induction false} BuildProofRenamed<A(!new), B(!new)>(reg: A -> Declaration<A>, reg': B -> Declaration<B>, f: A -> B,
                                                              h: Header, script: Option<Script<A>>, fuel: nat)
    requires RegistryReadable(reg) && RegistryReadable(reg') && Renames(reg, reg', f)
    requires |Split(RemoveSpaces(h.conclusion), "=")| == 2
    requires script.Some? ==> StepsReadable(script.value.steps)
    ensures script.Some? ==> StepsReadable(RenameProof(script, f).value.steps)
    ensures BuildProof(reg', h, RenameProof(script, f), fuel) == BuildProof(reg, h, script, fuel)
    decreases fuel, 0
  {
    if script.Some? {
      RenamedStepsReadable(script.value.steps, f);
      if fuel > 0 && StartRecord(h, script.value.start).Ok? {
        var start := StartRecord(h, script.value.start).value;
        RemoveSpacesOfSpaceFree(RemoveSpaces(script.value.start));
        RunStepsRenamed(reg, reg', f, h, start, script.value.steps, fuel - 1);
      }
    }
  }

  lemma {:induction false} RunStepsRenamed<A(!new), B(!new)>(reg: A -> Declaration<A>, reg': B -> Declaration<B>, f: A -> B,
                                                            h: Header, rec: ProofRecord, steps: seq<Step<A>>, fuel: nat)
    requires RegistryReadable(reg) && RegistryReadable(reg') && Renames(reg, reg', f)
    requires SpaceFree(rec.equalities) && |rec.conclusionAim| == 2 && StepsReadable(steps)
    ensures StepsReadable(RenameSteps(steps, f))
    ensures RunSteps(reg', h, rec, RenameSteps(steps, f), fuel) == RunSteps(reg, h, rec, steps, fuel)
    decreases fuel, 2, |steps|
  {
    RenamedStepsReadable(steps, f);
    if |steps| > 0 {
      var r := RenameSteps(steps, f);
      assert r[0] == RenameStep(steps[0], f) && r[1..] == RenameSteps(steps[1..], f);
      assert StepReadable(steps[0]);
      RunStepRenamed(reg, reg', f, h, rec, steps[0], fuel);
      var next := RunStep(reg, h, rec, steps[0], fuel);
      if next.Ok? {
        assert StepsReadable(steps[1..]) by {
          forall k | 0 <= k < |steps| - 1 ensures StepReadable(steps[1..][k]) {
            assert steps[1..][k] == steps[k + 1];
          }
        }
        RunStepsRenamed(reg, reg', f, h, next.value, steps[1..], fuel);
      }
    }
  }

  lemma {:induction false} RunStepRenamed<A(!new), B(!new)>(reg: A -> Declaration<A>, reg': B -> Declaration<B>, f: A -> B,
                                                           h: Header, rec: ProofRecord, step: Step<A>, fuel: nat)
    requires RegistryReadable(reg) && RegistryReadable(reg') && Renames(reg, reg', f)
    requires SpaceFree(rec.equalities) && |rec.conclusionAim| == 2 && StepReadable(step)
    ensures StepReadable(RenameStep(step, f))
    ensures RunStep(reg', h, rec, RenameStep(step, f), fuel) == RunStep(reg, h, rec, step, fuel)
    decreases fuel, 2, 0
  {
    if step.Evolve? {
      assert Registered(reg, step.cited);
      assert reg'(f(step.cited)) == RenameDeclaration(reg(step.cited), f);
      InstantiateRenamed(reg, reg', f, reg(step.cited), Some(step.parameters), fuel);
    }
  }

  // ----------------------------------------------------------------------
  // The attacks, beside the theorem set

  /** The classes of the theorem set, and the five attack classes that cite them or each other. */
  datatype HName = Known(n: Name) | Hijack1 | Hijack2 | Hijack3 | Hijack4 | Hijack4Bis

  function Lift(n: Name): HName
  {
    Known(n)
  }

  /** Hijack1: a + b^2 = a + b*a + b, by an instance of the distribution of the square on a + b. */
  const Hijack1Declaration: Declaration<HName> :=
    Declaration("hijack 1", Equation("a + b^2", "a + b*a + b"), ["a", "b"], [], Some(Hijack1Proof))

  const Hijack1Proof: Script<HName> := Script("a + b^2", [
    Evolve("a + b*a + b", Equation("a + b^2", "a + b*a + b"), Known(SquareDistribution), ["a + b"]),
    Conclude])

  /** Hijack2: 2*x + 3*x^2 = 5*x^2, by the litteral addition 2*x + 3*x = 5*x. */
  const Hijack2Declaration: Declaration<HName> :=
    Declaration("hijack 2", Equation("2*x + 3*x^2", "5*x^2"), ["x"], [], Some(Hijack2Proof))

  const Hijack2Proof: Script<HName> := Script("2*x + 3*x^2", [
    Evolve("5*x^2", Equation("2*x + 3*x", "5*x"), Known(LitteralAddition), ["2", "3", "x"]),
    Conclude])

  /** Hijack3: (a + b)^2 = a + b^2, by the removal of the parenthesis around a+b. */
  const Hijack3Declaration: Declaration<HName> :=
    Declaration("hijack 3", Equation("(a + b)^2", "a + b^2"), ["a", "b"], [], Some(Hijack3Proof))

  const Hijack3Proof: Script<HName> := Script("(a + b)^2", [
    Evolve("a + b^2", Equation("(a+b)", "a + b"), Known(RemovalOfParenthesis), ["a+b"]),
    Conclude])

  /** Hijack4: a^2 = a, by Hijack4Bis. */
  const Hijack4Declaration: Declaration<HName> :=
    Declaration("hijack 4", Equation("a^2", "a"), ["a"], [], Some(Hijack4Proof))

  const Hijack4Proof: Script<HName> := Script("a^2", [Evolve("a", Equation("a^2", "a"), Hijack4Bis, ["a"]), Conclude])

  /** Hijack4Bis: a^2 = a, by Hijack4. */
  const Hijack4BisDeclaration: Declaration<HName> :=
    Declaration("hijack 4 bis", Equation("a^2", "a"), ["a"], [], Some(Hijack4BisProof))

  const Hijack4BisProof: Script<HName> := Script("a^2", [Evolve("a", Equation("a^2", "a"), Hijack4, ["a"]), Conclude])

  /** Every class of the theorem set under its own name, and the attacks. */
  function HijackRegistry(n: HName): Declaration<HName>
  {
    match n
    case Known(m) => RenameDeclaration(Declare(m), Lift)
    case Hijack1 => Hijack1Declaration
    case Hijack2 => Hijack2Declaration
    case Hijack3 => Hijack3Declaration
    case Hijack4 => Hijack4Declaration
    case Hijack4Bis => Hijack4BisDeclaration
  }

  /** The construction of `n(params)` among the theorem set and the attacks. */
  function HijackInstance(n: HName, params: Option<seq<string>>, fuel: nat): Result<Theorem, Error>
    requires params.Some? ==> ParametersReadable(params.value)
  {
    HijackRegistryReadable();
    assert Registered(HijackRegistry, n);
    Instantiate(HijackRegistry, HijackRegistry(n), params, fuel)
  }

  /** The attacks are registered under their own names. */
  lemma HijackRegistryGives()
    ensures HijackRegistry(Hijack1) == Hijack1Declaration && HijackRegistry(Hijack2) == Hijack2Declaration
    ensures HijackRegistry(Hijack3) == Hijack3Declaration && HijackRegistry(Hijack4) == Hijack4Declaration
    ensures HijackRegistry(Hijack4Bis) == Hijack4BisDeclaration
  {
  }

  lemma HijackInstanceIs(n: HName, params: Option<seq<string>>, fuel: nat)
    requires params.Some? ==> ParametersReadable(params.value)
    ensures RegistryReadable(HijackRegistry) && DeclarationReadable(HijackRegistry(n))
    ensures HijackInstance(n, params, fuel) == Instantiate(HijackRegistry, HijackRegistry(n), params, fuel)
  {
    HijackRegistryReadable();
    assert Registered(HijackRegistry, n);
  }

  lemma LiftedReadable(m: Name)
    ensures DeclarationReadable(HijackRegistry(Known(m)))
  {
    DeclaredReadable(m);
    RenamedReadable(Declare(m), Lift);
  }

  lemma HijackDeclaredReadable(n: HName)
    ensures DeclarationReadable(HijackRegistry(n))
  {
    match n
    case Known(m) => LiftedReadable(m);
    case Hijack1 => Hijack1Readable();
    case Hijack2 => Hijack2Readable();
    case Hijack3 => Hijack3Readable();
    case Hijack4 => Hijack4Readable();
    case Hijack4Bis => Hijack4BisReadable();
  }

  /** The registry of the attacks is readable and extends the theorem set. */
  lemma HijackRegistryReadable()
    ensures RegistryReadable(HijackRegistry) && Renames(Declare, HijackRegistry, Lift)
  {
    forall n ensures Registered(HijackRegistry, n) {
      HijackDeclaredReadable(n);
    }
  }

  // ----------------------------------------------------------------------
  // What the constructor checks of the attacks before their proofs

  const HHijack1 := Header("hijack 1", Equation("a + b^2", "a + b*a + b"), ["a", "b"], [])
  const Hijack1State0 := ProofRecord(["a+b^2", "a+b*a+b"], ["a+b^2"], [], false)

  lemma Hijack1Header()
    ensures HeaderOf(Hijack1Declaration) == HHijack1 && Hijack1Declaration.proof == Some(Hijack1Proof)
  {
  }

  lemma Hijack1Names()
    ensures ValidNames(HHijack1)
  {
  }

  lemma Hijack1Unbound()
    ensures FirstUnbound(HHijack1, HHijack1.conclusion) == None
  {
    FirstUnboundNone(HHijack1, HHijack1.conclusion);
  }

  lemma Hijack1LeftUnspaced()
    ensures RemoveSpaces("a + b^2") == "a+b^2"
  {
  }

  lemma Hijack1RightUnspaced()
    ensures RemoveSpaces("a + b*a + b") == "a+b*a+b"
  {
  }

  lemma Hijack1Symbolic()
    ensures Split(RemoveSpaces(HHijack1.conclusion), "=") == ["a+b^2", "a+b*a+b"]
  {
    EquationReadable("a + b^2", "a + b*a + b");
    Hijack1LeftUnspaced();
    Hijack1RightUnspaced();
  }

  lemma Hijack1Started()
    ensures StartRecord(HHijack1, "a + b^2") == Ok(Hijack1State0)
    ensures SpaceFree(Hijack1State0.equalities) && |Hijack1State0.conclusionAim| == 2
  {
    FirstUnboundNone(HHijack1, "a + b^2"); Hijack1LeftUnspaced(); Hijack1Symbolic();
  }

  lemma Hijack1Step0()
    ensures StepReadable(Hijack1Proof.steps[0])
  {
    EquationReadable("a + b^2", "a + b*a + b");
    assert RemoveSpaces("a + b") != "";
  }

  lemma Hijack1Readable()
    ensures DeclarationReadable(Hijack1Declaration)
  {
    ConclusionOk(Hijack1Declaration.conclusion, "a + b^2", "a + b*a + b");
    Hijack1Step0();
  }

  /** The checks of the constructor before the proof pass for Hijack1, and its proof starts. */
  lemma Hijack1Declared()
    ensures HeaderOf(Hijack1Declaration) == HHijack1 && Hijack1Declaration.proof == Some(Hijack1Proof)
    ensures ValidNames(HHijack1) && FirstUnbound(HHijack1, HHijack1.conclusion) == None
    ensures |Split(RemoveSpaces(HHijack1.conclusion), "=")| == 2 && StepsReadable(Hijack1Proof.steps)
    ensures StartRecord(HHijack1, "a + b^2") == Ok(Hijack1State0)
    ensures SpaceFree(Hijack1State0.equalities) && |Hijack1State0.conclusionAim| == 2
  {
    Hijack1Header(); Hijack1Names(); Hijack1Unbound(); Hijack1Symbolic(); Hijack1Started(); Hijack1Step0();
    assert StepReadable(Hijack1Proof.steps[1]);
  }

  lemma Hijack1Modification()
    ensures RemoveSpaces(Equation("a + b^2", "a + b*a + b")) == Eq("a+b^2", "a+b*a+b")
    ensures RemoveSpaces("a + b*a + b") == "a+b*a+b"
  {
    RemoveSpacesEquation("a + b^2", "a + b*a + b"); Hijack1LeftUnspaced(); Hijack1RightUnspaced(); Hijack1RightUnspaced();
  }

  lemma Hijack1Bound()
    ensures FirstUnbound(HHijack1, "a + b*a + b") == None
    ensures FirstUnbound(HHijack1, Equation("a + b^2", "a + b*a + b")) == None
  {
    FirstUnboundNone(HHijack1, "a + b*a + b"); FirstUnboundNone(HHijack1, Equation("a + b^2", "a + b*a + b"));
  }

  const HHijack2 := Header("hijack 2", Equation("2*x + 3*x^2", "5*x^2"), ["x"], [])
  const Hijack2State0 := ProofRecord(["2*x+3*x^2", "5*x^2"], ["2*x+3*x^2"], [], false)

  lemma Hijack2Header()
    ensures HeaderOf(Hijack2Declaration) == HHijack2 && Hijack2Declaration.proof == Some(Hijack2Proof)
  {
  }

  lemma Hijack2Names()
    ensures ValidNames(HHijack2)
  {
  }

  lemma Hijack2Unbound()
    ensures FirstUnbound(HHijack2, HHijack2.conclusion) == None
  {
    FirstUnboundNone(HHijack2, HHijack2.conclusion);
  }

  lemma Hijack2LeftUnspaced()
    ensures RemoveSpaces("2*x + 3*x^2") == "2*x+3*x^2"
  {
  }

  lemma Hijack2Symbolic()
    ensures Split(RemoveSpaces(HHijack2.conclusion), "=") == ["2*x+3*x^2", "5*x^2"]
  {
    EquationReadable("2*x + 3*x^2", "5*x^2");
    Hijack2LeftUnspaced();
    RemoveSpacesOfSpaceFree("5*x^2");
  }

  lemma Hijack2Started()
    ensures StartRecord(HHijack2, "2*x + 3*x^2") == Ok(Hijack2State0)
    ensures SpaceFree(Hijack2State0.equalities) && |Hijack2State0.conclusionAim| == 2
  {
    FirstUnboundNone(HHijack2, "2*x + 3*x^2"); Hijack2LeftUnspaced(); Hijack2Symbolic();
  }

  lemma Hijack2Step0()
    ensures StepReadable(Hijack2Proof.steps[0])
  {
    EquationReadable("2*x + 3*x", "5*x");
    UnspacedReadable(["2", "3", "x"]);
  }

  lemma Hijack2Readable()
    ensures DeclarationReadable(Hijack2Declaration)
  {
    ConclusionOk(Hijack2Declaration.conclusion, "2*x + 3*x^2", "5*x^2");
    Hijack2Step0();
  }

  /** The checks of the constructor before the proof pass for Hijack2, and its proof starts. */
  lemma Hijack2Declared()
    ensures HeaderOf(Hijack2Declaration) == HHijack2 && Hijack2Declaration.proof == Some(Hijack2Proof)
    ensures ValidNames(HHijack2) && FirstUnbound(HHijack2, HHijack2.conclusion) == None
    ensures |Split(RemoveSpaces(HHijack2.conclusion), "=")| == 2 && StepsReadable(Hijack2Proof.steps)
    ensures StartRecord(HHijack2, "2*x + 3*x^2") == Ok(Hijack2State0)
    ensures SpaceFree(Hijack2State0.equalities) && |Hijack2State0.conclusionAim| == 2
  {
    Hijack2Header(); Hijack2Names(); Hijack2Unbound(); Hijack2Symbolic(); Hijack2Started(); Hijack2Step0();
    assert StepReadable(Hijack2Proof.steps[1]);
  }

  lemma Hijack2ModificationLeftUnspaced()
    ensures RemoveSpaces("2*x + 3*x") == "2*x+3*x"
  {
  }

  lemma Hijack2Modification()
    ensures RemoveSpaces(Equation("2*x + 3*x", "5*x")) == Eq("2*x+3*x", "5*x")
    ensures RemoveSpaces("5*x^2") == "5*x^2"
  {
    RemoveSpacesEquation("2*x + 3*x", "5*x"); Hijack2ModificationLeftUnspaced(); RemoveSpacesOfSpaceFree("5*x"); RemoveSpacesOfSpaceFree("5*x^2");
  }

  lemma Hijack2Bound()
    ensures FirstUnbound(HHijack2, "5*x^2") == None
    ensures FirstUnbound(HHijack2, Equation("2*x + 3*x", "5*x")) == None
  {
    FirstUnboundNone(HHijack2, "5*x^2"); FirstUnboundNone(HHijack2, Equation("2*x + 3*x", "5*x"));
  }

  const HHijack3 := Header("hijack 3", Equation("(a + b)^2", "a + b^2"), ["a", "b"], [])
  const Hijack3State0 := ProofRecord(["(a+b)^2", "a+b^2"], ["(a+b)^2"], [], false)

  lemma Hijack3Header()
    ensures HeaderOf(Hijack3Declaration) == HHijack3 && Hijack3Declaration.proof == Some(Hijack3Proof)
  {
  }

  lemma Hijack3Names()
    ensures ValidNames(HHijack3)
  {
  }

  lemma Hijack3Unbound()
    ensures FirstUnbound(HHijack3, HHijack3.conclusion) == None
  {
    FirstUnboundNone(HHijack3, HHijack3.conclusion);
  }

  lemma Hijack3LeftUnspaced()
    ensures RemoveSpaces("(a + b)^2") == "(a+b)^2"
  {
  }

  lemma Hijack3Symbolic()
    ensures Split(RemoveSpaces(HHijack3.conclusion), "=") == ["(a+b)^2", "a+b^2"]
  {
    EquationReadable("(a + b)^2", "a + b^2");
    Hijack3LeftUnspaced();
    Hijack1LeftUnspaced();
  }

  lemma Hijack3Started()
    ensures StartRecord(HHijack3, "(a + b)^2") == Ok(Hijack3State0)
    ensures SpaceFree(Hijack3State0.equalities) && |Hijack3State0.conclusionAim| == 2
  {
    FirstUnboundNone(HHijack3, "(a + b)^2"); Hijack3LeftUnspaced(); Hijack3Symbolic();
  }

  lemma Hijack3Step0()
    ensures StepReadable(Hijack3Proof.steps[0])
  {
    EquationReadable("(a+b)", "a + b");
    UnspacedReadable(["a+b"]);
  }

  lemma Hijack3Readable()
    ensures DeclarationReadable(Hijack3Declaration)
  {
    ConclusionOk(Hijack3Declaration.conclusion, "(a + b)^2", "a + b^2");
    Hijack3Step0();
  }

  /** The checks of the constructor before the proof pass for Hijack3, and its proof starts. */
  lemma Hijack3Declared()
    ensures HeaderOf(Hijack3Declaration) == HHijack3 && Hijack3Declaration.proof == Some(Hijack3Proof)
    ensures ValidNames(HHijack3) && FirstUnbound(HHijack3, HHijack3.conclusion) == None
    ensures |Split(RemoveSpaces(HHijack3.conclusion), "=")| == 2 && StepsReadable(Hijack3Proof.steps)
    ensures StartRecord(HHijack3, "(a + b)^2") == Ok(Hijack3State0)
    ensures SpaceFree(Hijack3State0.equalities) && |Hijack3State0.conclusionAim| == 2
  {
    Hijack3Header(); Hijack3Names(); Hijack3Unbound(); Hijack3Symbolic(); Hijack3Started(); Hijack3Step0();
    assert StepReadable(Hijack3Proof.steps[1]);
  }

  lemma Hijack3ModificationRightUnspaced()
    ensures RemoveSpaces("a + b") == "a+b"
  {
  }

  lemma Hijack3Modification()
    ensures RemoveSpaces(Equation("(a+b)", "a + b")) == Eq("(a+b)", "a+b")
    ensures RemoveSpaces("a + b^2") == "a+b^2"
  {
    RemoveSpacesEquation("(a+b)", "a + b"); RemoveSpacesOfSpaceFree("(a+b)"); Hijack3ModificationRightUnspaced(); Hijack1LeftUnspaced();
  }

  lemma Hijack3Bound()
    ensures FirstUnbound(HHijack3, "a + b^2") == None
    ensures FirstUnbound(HHijack3, Equation("(a+b)", "a + b")) == None
  {
    FirstUnboundNone(HHijack3, "a + b^2"); FirstUnboundNone(HHijack3, Equation("(a+b)", "a + b"));
  }

  const HHijack4 := Header("hijack 4", Equation("a^2", "a"), ["a"], [])
  const Hijack4State0 := ProofRecord(["a^2", "a"], ["a^2"], [], false)

  lemma Hijack4Header()
    ensures HeaderOf(Hijack4Declaration) == HHijack4 && Hijack4Declaration.proof == Some(Hijack4Proof)
  {
  }

  lemma Hijack4Names()
    ensures ValidNames(HHijack4)
  {
  }

  lemma Hijack4Unbound()
    ensures FirstUnbound(HHijack4, HHijack4.conclusion) == None
  {
    FirstUnboundNone(HHijack4, HHijack4.conclusion);
  }

  lemma Hijack4Symbolic()
    ensures Split(RemoveSpaces(HHijack4.conclusion), "=") == ["a^2", "a"]
  {
    EquationReadable("a^2", "a");
    RemoveSpacesOfSpaceFree("a^2");
    RemoveSpacesOfSpaceFree("a");
  }

  lemma Hijack4Started()
    ensures StartRecord(HHijack4, "a^2") == Ok(Hijack4State0)
    ensures SpaceFree(Hijack4State0.equalities) && |Hijack4State0.conclusionAim| == 2
  {
    FirstUnboundNone(HHijack4, "a^2"); RemoveSpacesOfSpaceFree("a^2"); Hijack4Symbolic();
  }

  lemma Hijack4Step0()
    ensures StepReadable(Hijack4Proof.steps[0])
  {
    EquationReadable("a^2", "a");
    UnspacedReadable(["a"]);
  }

  lemma Hijack4Readable()
    ensures DeclarationReadable(Hijack4Declaration)
  {
    ConclusionOk(Hijack4Declaration.conclusion, "a^2", "a");
    Hijack4Step0();
  }

  /** The checks of the constructor before the proof pass for Hijack4, and its proof starts. */
  lemma Hijack4Declared()
    ensures HeaderOf(Hijack4Declaration) == HHijack4 && Hijack4Declaration.proof == Some(Hijack4Proof)
    ensures ValidNames(HHijack4) && FirstUnbound(HHijack4, HHijack4.conclusion) == None
    ensures |Split(RemoveSpaces(HHijack4.conclusion), "=")| == 2 && StepsReadable(Hijack4Proof.steps)
    ensures StartRecord(HHijack4, "a^2") == Ok(Hijack4State0)
    ensures SpaceFree(Hijack4State0.equalities) && |Hijack4State0.conclusionAim| == 2
  {
    Hijack4Header(); Hijack4Names(); Hijack4Unbound(); Hijack4Symbolic(); Hijack4Started(); Hijack4Step0();
    assert StepReadable(Hijack4Proof.steps[1]);
  }

  lemma Hijack4Modification()
    ensures RemoveSpaces(Equation("a^2", "a")) == Eq("a^2", "a")
    ensures RemoveSpaces("a") == "a"
  {
    RemoveSpacesEquation("a^2", "a"); RemoveSpacesOfSpaceFree("a^2"); RemoveSpacesOfSpaceFree("a"); RemoveSpacesOfSpaceFree("a");
  }

  lemma Hijack4Bound()
    ensures FirstUnbound(HHijack4, "a") == None
    ensures FirstUnbound(HHijack4, Equation("a^2", "a")) == None
  {
    FirstUnboundNone(HHijack4, "a"); FirstUnboundNone(HHijack4, Equation("a^2", "a"));
  }

  const HHijack4Bis := Header("hijack 4 bis", Equation("a^2", "a"), ["a"], [])
  const Hijack4BisState0 := ProofRecord(["a^2", "a"], ["a^2"], [], false)

  lemma Hijack4BisHeader()
    ensures HeaderOf(Hijack4BisDeclaration) == HHijack4Bis && Hijack4BisDeclaration.proof == Some(Hijack4BisProof)
  {
  }

  lemma Hijack4BisNames()
    ensures ValidNames(HHijack4Bis)
  {
  }

  lemma Hijack4BisUnbound()
    ensures FirstUnbound(HHijack4Bis, HHijack4Bis.conclusion) == None
  {
    FirstUnboundNone(HHijack4Bis, HHijack4Bis.conclusion);
  }

  lemma Hijack4BisSymbolic()
    ensures Split(RemoveSpaces(HHijack4Bis.conclusion), "=") == ["a^2", "a"]
  {
    EquationReadable("a^2", "a");
    RemoveSpacesOfSpaceFree("a^2");
    RemoveSpacesOfSpaceFree("a");
  }

  lemma Hijack4BisStarted()
    ensures StartRecord(HHijack4Bis, "a^2") == Ok(Hijack4BisState0)
    ensures SpaceFree(Hijack4BisState0.equalities) && |Hijack4BisState0.conclusionAim| == 2
  {
    FirstUnboundNone(HHijack4Bis, "a^2"); RemoveSpacesOfSpaceFree("a^2"); Hijack4BisSymbolic();
  }

  lemma Hijack4BisStep0()
    ensures StepReadable(Hijack4BisProof.steps[0])
  {
    EquationReadable("a^2", "a");
    UnspacedReadable(["a"]);
  }

  lemma Hijack4BisReadable()
    ensures DeclarationReadable(Hijack4BisDeclaration)
  {
    ConclusionOk(Hijack4BisDeclaration.conclusion, "a^2", "a");
    Hijack4BisStep0();
  }

  /** The checks of the constructor before the proof pass for Hijack4Bis, and its proof starts. */
  lemma Hijack4BisDeclared()
    ensures HeaderOf(Hijack4BisDeclaration) == HHijack4Bis && Hijack4BisDeclaration.proof == Some(Hijack4BisProof)
    ensures ValidNames(HHijack4Bis) && FirstUnbound(HHijack4Bis, HHijack4Bis.conclusion) == None
    ensures |Split(RemoveSpaces(HHijack4Bis.conclusion), "=")| == 2 && StepsReadable(Hijack4BisProof.steps)
    ensures StartRecord(HHijack4Bis, "a^2") == Ok(Hijack4BisState0)
    ensures SpaceFree(Hijack4BisState0.equalities) && |Hijack4BisState0.conclusionAim| == 2
  {
    Hijack4BisHeader(); Hijack4BisNames(); Hijack4BisUnbound(); Hijack4BisSymbolic(); Hijack4BisStarted(); Hijack4BisStep0();
    assert StepReadable(Hijack4BisProof.steps[1]);
  }

  lemma Hijack4BisModification()
    ensures RemoveSpaces(Equation("a^2", "a")) == Eq("a^2", "a")
    ensures RemoveSpaces("a") == "a"
  {
    RemoveSpacesEquation("a^2", "a"); RemoveSpacesOfSpaceFree("a^2"); RemoveSpacesOfSpaceFree("a"); RemoveSpacesOfSpaceFree("a");
  }

  lemma Hijack4BisBound()
    ensures FirstUnbound(HHijack4Bis, "a") == None
    ensures FirstUnbound(HHijack4Bis, Equation("a^2", "a")) == None
  {
    FirstUnboundNone(HHijack4Bis, "a"); FirstUnboundNone(HHijack4Bis, Equation("a^2", "a"));
  }

  // ----------------------------------------------------------------------
  // Hijack1: the square of a + b is refused

  /** Around a value that holds a '+', a '^' would bind tighter than the value's own '+'. */
  lemma PowerAfterSumRefused()
    ensures NeighbourReadable("^2") && !VerifyOrderOperation("", "a+b", "^2")
  {
    assert RemoveSpaces("^2") == "^2";
    assert FirstOrder("a+b", false) == 0;
  }

  lemma SquareOfSumBindings()
    ensures ParametersReadable(["a + b"]) && Parameters(HSquareDistribution, Some(["a + b"])) == Ok(["a + b"])
    ensures Bindings(HSquareDistribution, ["a + b"]) == Ok([('a', "a+b")])
  {
    assert RemoveSpaces("a + b") == "a+b";
    assert BindUnknowns([], ["a"], ["a + b"]) == [('a', "a+b")];
  }

  /** With a := a+b, the side a^2 becomes a+b^2, where a+b is followed by '^'. */
  lemma SquareOfSumOutOfOrder()
    ensures Substitute("a^2", [('a', "a+b")]) == "a+b^2"
    ensures NoSpaces("a+b^2") && ValuesReadable([('a', "a+b")]) && !SideOrderOk("a+b^2", [('a', "a+b")])
    ensures Substitute("a*a", [('a', "a+b")]) == "a+b*a+b" && NoSpaces("a+b*a+b")
  {
    var dict := [('a', "a+b")];
    assert Substitute("a", dict) == "a+b";
    assert Substitute("*a", dict) == "*a+b";
    assert Substitute("2", dict) == "2";
    assert Substitute("^2", dict) == "^2";
    assert Substitute("a^2", dict) == "a+b^2";
    assert MatchAt("a+b^2", "a+b", 0);
    var pieces := Split("a+b^2", "a+b");
    assert pieces == ["", "^2"];
    PowerAfterSumRefused();
    assert !VerifyOrderOperation(pieces[0], "a+b", pieces[1]);
    assert !ValueOrderOk("a+b^2", "a+b");
  }

  /** SquareDistribution(['a + b']) proves its symbolic proof, then stops on the order of its sides. */
  lemma SquareOfSumRefused(reg: Name -> Declaration<Name>, fuel: nat)
    requires RegistryReadable(reg)
    requires reg(Addition) == AdditionDeclaration && reg(IdentityExponent) == IdentityExponentDeclaration
    requires reg(PowerDistribution) == PowerDistributionDeclaration && reg(RemovalOfParenthesis) == RemovalOfParenthesisDeclaration
    ensures DeclarationReadable(SquareDistributionDeclaration)
    ensures Instantiate(reg, SquareDistributionDeclaration, Some(["a + b"]), fuel + 2) == Err(BadOperationOrderInReplacement)
  {
    SquareDistributionDeclared(); SquareDistributionStepsReadable(); SquareDistributionBuilt(reg, fuel);
    SquareOfSumBindings(); SquareOfSumOutOfOrder();
    InstantiateSidesOrderError(HSquareDistribution, Some(["a + b"]), ["a + b"], "a^2", "a*a", [('a', "a+b")], "a+b^2", "a+b*a+b");
    InstantiateSidesError(reg, SquareDistributionDeclaration, HSquareDistribution, Some(["a + b"]), fuel + 2,
                          Some(SquareDistributionState6), BadOperationOrderInReplacement);
  }

  /** The step of Hijack1 fails with the error of the square it cites. */
  lemma Hijack1Run0(reg: Name -> Declaration<Name>, hreg: HName -> Declaration<HName>, fuel: nat)
    requires RegistryReadable(reg) && RegistryReadable(hreg) && Renames(reg, hreg, Lift)
    requires reg(Addition) == AdditionDeclaration && reg(IdentityExponent) == IdentityExponentDeclaration
    requires reg(PowerDistribution) == PowerDistributionDeclaration && reg(RemovalOfParenthesis) == RemovalOfParenthesisDeclaration
    requires reg(SquareDistribution) == SquareDistributionDeclaration
    requires SpaceFree(Hijack1State0.equalities) && |Hijack1State0.conclusionAim| == 2 && StepReadable(Hijack1Proof.steps[0])
    ensures RunStep(hreg, HHijack1, Hijack1State0, Hijack1Proof.steps[0], fuel + 2) == Err(BadOperationOrderInReplacement)
  {
    SquareOfSumRefused(reg, fuel);
    InstantiateRenamed(reg, hreg, Lift, SquareDistributionDeclaration, Some(["a + b"]), fuel + 2);
    assert hreg(Lift(SquareDistribution)) == RenameDeclaration(SquareDistributionDeclaration, Lift);
    assert Registered(hreg, Hijack1Proof.steps[0].cited);
    EvolveCitedError(hreg, HHijack1, Hijack1State0, Hijack1Proof.steps[0], fuel + 2, BadOperationOrderInReplacement);
  }

  /** Hijack1 fails with the error of the square it cites, in any registry that extends the theorem set. */
  lemma Hijack1Refused(reg: Name -> Declaration<Name>, hreg: HName -> Declaration<HName>,
                       params: Option<seq<string>>, fuel: nat)
    requires RegistryReadable(reg) && RegistryReadable(hreg) && Renames(reg, hreg, Lift)
    requires reg(Addition) == AdditionDeclaration && reg(IdentityExponent) == IdentityExponentDeclaration
    requires reg(PowerDistribution) == PowerDistributionDeclaration && reg(RemovalOfParenthesis) == RemovalOfParenthesisDeclaration
    requires reg(SquareDistribution) == SquareDistributionDeclaration
    requires params.Some? ==> ParametersReadable(params.value)
    ensures DeclarationReadable(Hijack1Declaration)
    ensures Instantiate(hreg, Hijack1Declaration, params, fuel + 3) == Err(BadOperationOrderInReplacement)
  {
    Hijack1Readable();
    var e := BadOperationOrderInReplacement;
    Hijack1Declared();
    Hijack1Run0(reg, hreg, fuel);
    RunStepsStop(hreg, HHijack1, Hijack1State0, Hijack1Proof.steps, fuel + 2, e);
    BuildProofErrorOf(hreg, HHijack1, Hijack1Proof, fuel + 2, Hijack1State0, e);
    InstantiateProofError(hreg, Hijack1Declaration, HHijack1, params, fuel + 3, e);
  }

  // ----------------------------------------------------------------------
  // Hijack2: 5*x does not replace 2*x+3*x in front of '^2'

  /** Before a '^', a value whose last operator is '*' would lose its grouping. */
  lemma PowerAfterProductRefused()
    ensures NeighbourReadable("^2") && !VerifyOrderOperation("", "5*x", "^2")
  {
    assert RemoveSpaces("^2") == "^2";
    assert FirstOrder("5*x", false) == 1;
  }

  /** The only old equality holds 2*x+3*x, but 5*x put in its place would sit before '^2'. */
  lemma Hijack2Misplaced()
    ensures ModificationReadable(Eq("2*x+3*x", "5*x"))
    ensures OldEquality(["2*x+3*x^2"], "5*x^2", Eq("2*x+3*x", "5*x")) == None
  {
    var before, after, x, y := "2*x+3*x^2", "5*x^2", "2*x+3*x", "5*x";
    EqModificationReadable(x, y);
    assert before == "" + x + "^2" && after == "" + y + "^2";
    assert Occurrences(before, x)[0] == 0;
    RemoveSpacesOfSpaceFree("^2");
    SingleModificationAt(before, after, x, y, "", "^2");
    PowerAfterProductRefused();
    assert [before][1..] == [];
  }

  /** The renamed registry constructs the litteral addition Hijack2 cites as the theorem set does. */
  lemma Hijack2Cited(reg: Name -> Declaration<Name>, hreg: HName -> Declaration<HName>, fuel: nat)
    requires RegistryReadable(reg) && RegistryReadable(hreg) && Renames(reg, hreg, Lift)
    requires reg(LeftDistributivity) == LeftDistributivityDeclaration && reg(ProductCommutativity) == ProductCommutativityDeclaration
    requires reg(RemovalOfParenthesis) == RemovalOfParenthesisDeclaration && reg(RightDistributivity) == RightDistributivityDeclaration
    requires reg(LitteralAddition) == LitteralAdditionDeclaration
    ensures Registered(hreg, Hijack2Proof.steps[0].cited)
    ensures Instantiate(hreg, hreg(Hijack2Proof.steps[0].cited), Some(Hijack2Proof.steps[0].parameters), fuel + 2)
            == Ok(LitteralAdditionOfTwoThreeX)
  {
    LitteralAdditionOfTwoThreeXConstructed(reg, fuel);
    InstantiateRenamed(reg, hreg, Lift, LitteralAdditionDeclaration, Some(["2", "3", "x"]), fuel + 2);
    assert hreg(Lift(LitteralAddition)) == RenameDeclaration(LitteralAdditionDeclaration, Lift);
  }

  /** The step of Hijack2, with the variant it cites, fails on the old equality. */
  lemma Hijack2Evolved()
    ensures SpaceFree(Hijack2State0.equalities) && ModificationReadable(RemoveSpaces(Hijack2Proof.steps[0].modification))
    ensures EvolveRecord(HHijack2, Hijack2State0, Hijack2Proof.steps[0].newEquality, Hijack2Proof.steps[0].modification, LitteralAdditionOfTwoThreeX)
            == Err(WrongModification)
  {
    IsHeldEq(LitteralAdditionOfTwoThreeX, "2*x+3*x", "5*x");
    Hijack2Modification(); Hijack2Bound(); Hijack2Misplaced();
  }

  /** The step of Hijack2 constructs the litteral addition, which holds, and fails on the old equality. */
  lemma Hijack2Run0(hreg: HName -> Declaration<HName>, fuel: nat)
    requires RegistryReadable(hreg) && Registered(hreg, Hijack2Proof.steps[0].cited)
    requires Instantiate(hreg, hreg(Hijack2Proof.steps[0].cited), Some(Hijack2Proof.steps[0].parameters), fuel + 2)
             == Ok(LitteralAdditionOfTwoThreeX)
    requires SpaceFree(Hijack2State0.equalities) && |Hijack2State0.conclusionAim| == 2 && StepReadable(Hijack2Proof.steps[0])
    ensures RunStep(hreg, HHijack2, Hijack2State0, Hijack2Proof.steps[0], fuel + 2) == Err(WrongModification)
  {
    EvolveOf(hreg, HHijack2, Hijack2State0, Hijack2Proof.steps[0], fuel + 2, LitteralAdditionOfTwoThreeX);
    Hijack2Evolved();
  }

  /** Hijack2 fails with WrongModification, in any registry that extends the theorem set. */
  lemma Hijack2Refused(reg: Name -> Declaration<Name>, hreg: HName -> Declaration<HName>,
                       params: Option<seq<string>>, fuel: nat)
    requires RegistryReadable(reg) && RegistryReadable(hreg) && Renames(reg, hreg, Lift)
    requires reg(LeftDistributivity) == LeftDistributivityDeclaration && reg(ProductCommutativity) == ProductCommutativityDeclaration
    requires reg(RemovalOfParenthesis) == RemovalOfParenthesisDeclaration && reg(RightDistributivity) == RightDistributivityDeclaration
    requires reg(LitteralAddition) == LitteralAdditionDeclaration
    requires params.Some? ==> ParametersReadable(params.value)
    ensures DeclarationReadable(Hijack2Declaration)
    ensures Instantiate(hreg, Hijack2Declaration, params, fuel + 3) == Err(WrongModification)
  {
    Hijack2Readable();
    Hijack2Declared();
    Hijack2Cited(reg, hreg, fuel);
    Hijack2Run0(hreg, fuel);
    RunStepsStop(hreg, HHijack2, Hijack2State0, Hijack2Proof.steps, fuel + 2, WrongModification);
    BuildProofErrorOf(hreg, HHijack2, Hijack2Proof, fuel + 2, Hijack2State0, WrongModification);
    InstantiateProofError(hreg, Hijack2Declaration, HHijack2, params, fuel + 3, WrongModification);
  }

  // ----------------------------------------------------------------------
  // Hijack3: a+b does not replace (a+b) in front of '^2'

  /** RemovalOfParenthesis(['a+b']), as cited by Hijack3. */
  const ParenthesizedSum := Theorem(HRemovalOfParenthesis, None, "(a+b)", "a+b")

  lemma ParenthesizedSumBindings()
    ensures ParametersReadable(["a+b"]) && Parameters(HRemovalOfParenthesis, Some(["a+b"])) == Ok(["a+b"])
    ensures Bindings(HRemovalOfParenthesis, ["a+b"]) == Ok([('a', "a+b")])
  {
    UnspacedReadable(["a+b"]);
    RemoveSpacesOfSpaceFree("a+b");
    assert BindUnknowns([], ["a"], ["a+b"]) == [('a', "a+b")];
  }

  /** Inside parentheses, or alone, a sum may replace a: both sides keep their order. */
  lemma ParenthesizedSumOrdered()
    ensures Substitute("(a)", [('a', "a+b")]) == "(a+b)" && Substitute("a", [('a', "a+b")]) == "a+b"
    ensures NoSpaces("(a+b)") && NoSpaces("a+b") && ValuesReadable([('a', "a+b")])
    ensures SideOrderOk("(a+b)", [('a', "a+b")]) && SideOrderOk("a+b", [('a', "a+b")])
  {
    var dict := [('a', "a+b")];
    assert Substitute(")", dict) == ")";
    assert Substitute("a)", dict) == "a+b)";
    assert Substitute("(a)", dict) == "(a+b)";
    assert Substitute("a", dict) == "a+b";
    assert MatchAt("(a+b)", "a+b", 1);
    assert Split("(a+b)", "a+b") == ["(", ")"];
    assert RemoveSpaces("(") == "(" && RemoveSpaces(")") == ")";
    assert VerifyOrderOperation("(", "a+b", ")");
    assert ValueOrderOk("(a+b)", "a+b");
    assert MatchAt("a+b", "a+b", 0);
    assert Split("a+b", "a+b") == ["", ""];
    assert VerifyOrderOperation("", "a+b", "");
    assert ValueOrderOk("a+b", "a+b");
  }

  lemma ParenthesizedSumFormed()
    ensures WellFormed("(a+b)") && WellFormed("a+b")
  {
    RemoveSpacesOfSpaceFree("(a+b)"); RemoveSpacesOfSpaceFree("a+b");
  }

  lemma ParenthesizedSumSides()
    ensures ValidNames(HRemovalOfParenthesis) && ConclusionReadable(HRemovalOfParenthesis) && ParametersReadable(["a+b"])
    ensures InstantiateSides(HRemovalOfParenthesis, Some(["a+b"])) == Ok(("(a+b)", "a+b"))
  {
    RemovalOfParenthesisNames(); RemovalOfParenthesisSymbolic(); RemovalOfParenthesisLeftFormed(); RemovalOfParenthesisRightFormed();
    ParenthesizedSumBindings(); ParenthesizedSumOrdered(); ParenthesizedSumFormed();
    InstantiateSidesOf(HRemovalOfParenthesis, Some(["a+b"]), ["a+b"], "(a)", "a", [('a', "a+b")], "(a+b)", "a+b");
  }

  lemma ParenthesizedSumConstructed(reg: Name -> Declaration<Name>, fuel: nat)
    requires RegistryReadable(reg)
    ensures DeclarationReadable(RemovalOfParenthesisDeclaration) && ParametersReadable(["a+b"])
    ensures Instantiate(reg, RemovalOfParenthesisDeclaration, Some(["a+b"]), fuel) == Ok(ParenthesizedSum)
  {
    RemovalOfParenthesisDeclared(); ParenthesizedSumSides();
    AxiomInstanceOf(reg, RemovalOfParenthesisDeclaration, HRemovalOfParenthesis, Some(["a+b"]), fuel, "(a+b)", "a+b");
  }

  /** The only old equality holds (a+b), but a+b put in its place would sit before '^2'. */
  lemma Hijack3Misplaced()
    ensures ModificationReadable(Eq("(a+b)", "a+b"))
    ensures OldEquality(["(a+b)^2"], "a+b^2", Eq("(a+b)", "a+b")) == None
  {
    var before, after, x, y := "(a+b)^2", "a+b^2", "(a+b)", "a+b";
    EqModificationReadable(x, y);
    assert before == "" + x + "^2" && after == "" + y + "^2";
    assert Occurrences(before, x)[0] == 0;
    RemoveSpacesOfSpaceFree("^2");
    SingleModificationAt(before, after, x, y, "", "^2");
    PowerAfterSumRefused();
    assert [before][1..] == [];
  }

  /** The renamed registry constructs the removal of parenthesis Hijack3 cites as the theorem set does. */
  lemma Hijack3Cited(reg: Name -> Declaration<Name>, hreg: HName -> Declaration<HName>, fuel: nat)
    requires RegistryReadable(reg) && RegistryReadable(hreg) && Renames(reg, hreg, Lift)
    requires reg(RemovalOfParenthesis) == RemovalOfParenthesisDeclaration
    ensures Registered(hreg, Hijack3Proof.steps[0].cited)
    ensures Instantiate(hreg, hreg(Hijack3Proof.steps[0].cited), Some(Hijack3Proof.steps[0].parameters), fuel)
            == Ok(ParenthesizedSum)
  {
    ParenthesizedSumConstructed(reg, fuel);
    InstantiateRenamed(reg, hreg, Lift, RemovalOfParenthesisDeclaration, Some(["a+b"]), fuel);
    assert hreg(Lift(RemovalOfParenthesis)) == RenameDeclaration(RemovalOfParenthesisDeclaration, Lift);
  }

  /** The step of Hijack3, with the variant it cites, fails on the old equality. */
  lemma Hijack3Evolved()
    ensures SpaceFree(Hijack3State0.equalities) && ModificationReadable(RemoveSpaces(Hijack3Proof.steps[0].modification))
    ensures EvolveRecord(HHijack3, Hijack3State0, Hijack3Proof.steps[0].newEquality, Hijack3Proof.steps[0].modification, ParenthesizedSum)
            == Err(WrongModification)
  {
    IsHeldEq(ParenthesizedSum, "(a+b)", "a+b");
    Hijack3Modification(); Hijack3Bound(); Hijack3Misplaced();
  }

  /** The step of Hijack3 constructs the removal of parenthesis, which holds, and fails on the old equality. */
  lemma Hijack3Run0(hreg: HName -> Declaration<HName>, fuel: nat)
    requires RegistryReadable(hreg) && Registered(hreg, Hijack3Proof.steps[0].cited)
    requires Instantiate(hreg, hreg(Hijack3Proof.steps[0].cited), Some(Hijack3Proof.steps[0].parameters), fuel)
             == Ok(ParenthesizedSum)
    requires SpaceFree(Hijack3State0.equalities) && |Hijack3State0.conclusionAim| == 2 && StepReadable(Hijack3Proof.steps[0])
    ensures RunStep(hreg, HHijack3, Hijack3State0, Hijack3Proof.steps[0], fuel) == Err(WrongModification)
  {
    EvolveOf(hreg, HHijack3, Hijack3State0, Hijack3Proof.steps[0], fuel, ParenthesizedSum);
    Hijack3Evolved();
  }

  /** Hijack3 fails with WrongModification, in any registry that extends the theorem set. */
  lemma Hijack3Refused(reg: Name -> Declaration<Name>, hreg: HName -> Declaration<HName>,
                       params: Option<seq<string>>, fuel: nat)
    requires RegistryReadable(reg) && RegistryReadable(hreg) && Renames(reg, hreg, Lift)
    requires reg(RemovalOfParenthesis) == RemovalOfParenthesisDeclaration
    requires params.Some? ==> ParametersReadable(params.value)
    ensures DeclarationReadable(Hijack3Declaration)
    ensures Instantiate(hreg, Hijack3Declaration, params, fuel + 1) == Err(WrongModification)
  {
    Hijack3Readable();
    Hijack3Declared();
    Hijack3Cited(reg, hreg, fuel);
    Hijack3Run0(hreg, fuel);
    RunStepsStop(hreg, HHijack3, Hijack3State0, Hijack3Proof.steps, fuel, WrongModification);
    BuildProofErrorOf(hreg, HHijack3, Hijack3Proof, fuel, Hijack3State0, WrongModification);
    InstantiateProofError(hreg, Hijack3Declaration, HHijack3, params, fuel + 1, WrongModification);
  }

  // ----------------------------------------------------------------------
  // Hijack4 and Hijack4Bis: each proof constructs the other

  /** With no fuel left, a variant with a proof is refused at once. */
  lemma Hijack4Exhausted(hreg: HName -> Declaration<HName>, params: Option<seq<string>>)
    requires RegistryReadable(hreg)
    requires params.Some? ==> ParametersReadable(params.value)
    ensures DeclarationReadable(Hijack4Declaration) && DeclarationReadable(Hijack4BisDeclaration)
    ensures Instantiate(hreg, Hijack4Declaration, params, 0) == Err(TheoremRecursion)
    ensures Instantiate(hreg, Hijack4BisDeclaration, params, 0) == Err(TheoremRecursion)
  {
    Hijack4Readable(); Hijack4BisReadable(); Hijack4Declared(); Hijack4BisDeclared();
    InstantiateProofError(hreg, Hijack4Declaration, HHijack4, params, 0, TheoremRecursion);
    InstantiateProofError(hreg, Hijack4BisDeclaration, HHijack4Bis, params, 0, TheoremRecursion);
  }

  /** Hijack4 fails with the error of the Hijack4Bis it cites, constructed with one unit of fuel less. */
  lemma Hijack4Stopped(hreg: HName -> Declaration<HName>, params: Option<seq<string>>, fuel: nat, e: Error)
    requires RegistryReadable(hreg) && hreg(Hijack4Bis) == Hijack4BisDeclaration
    requires params.Some? ==> ParametersReadable(params.value)
    requires DeclarationReadable(Hijack4BisDeclaration) && ParametersReadable(["a"])
    requires Instantiate(hreg, Hijack4BisDeclaration, Some(["a"]), fuel) == Err(e)
    ensures DeclarationReadable(Hijack4Declaration)
    ensures Instantiate(hreg, Hijack4Declaration, params, fuel + 1) == Err(e)
  {
    Hijack4Readable(); Hijack4Declared();
    assert Registered(hreg, Hijack4Proof.steps[0].cited);
    EvolveCitedError(hreg, HHijack4, Hijack4State0, Hijack4Proof.steps[0], fuel, e);
    RunStepsStop(hreg, HHijack4, Hijack4State0, Hijack4Proof.steps, fuel, e);
    BuildProofErrorOf(hreg, HHijack4, Hijack4Proof, fuel, Hijack4State0, e);
    InstantiateProofError(hreg, Hijack4Declaration, HHijack4, params, fuel + 1, e);
  }

  /** Hijack4Bis fails with the error of the Hijack4 it cites, constructed with one unit of fuel less. */
  lemma Hijack4BisStopped(hreg: HName -> Declaration<HName>, params: Option<seq<string>>, fuel: nat, e: Error)
    requires RegistryReadable(hreg) && hreg(Hijack4) == Hijack4Declaration
    requires params.Some? ==> ParametersReadable(params.value)
    requires DeclarationReadable(Hijack4Declaration) && ParametersReadable(["a"])
    requires Instantiate(hreg, Hijack4Declaration, Some(["a"]), fuel) == Err(e)
    ensures DeclarationReadable(Hijack4BisDeclaration)
    ensures Instantiate(hreg, Hijack4BisDeclaration, params, fuel + 1) == Err(e)
  {
    Hijack4BisReadable(); Hijack4BisDeclared();
    assert Registered(hreg, Hijack4BisProof.steps[0].cited);
    EvolveCitedError(hreg, HHijack4Bis, Hijack4BisState0, Hijack4BisProof.steps[0], fuel, e);
    RunStepsStop(hreg, HHijack4Bis, Hijack4BisState0, Hijack4BisProof.steps, fuel, e);
    BuildProofErrorOf(hreg, HHijack4Bis, Hijack4BisProof, fuel, Hijack4BisState0, e);
    InstantiateProofError(hreg, Hijack4BisDeclaration, HHijack4Bis, params, fuel + 1, e);
  }

  /** Whatever the depth allowed, Hijack4 and Hijack4Bis end in TheoremRecursion. */
  lemma {:induction false} MutualRecursionRefused(hreg: HName -> Declaration<HName>, params: Option<seq<string>>, fuel: nat)
    requires RegistryReadable(hreg) && hreg(Hijack4) == Hijack4Declaration && hreg(Hijack4Bis) == Hijack4BisDeclaration
    requires params.Some? ==> ParametersReadable(params.value)
    ensures DeclarationReadable(Hijack4Declaration) && DeclarationReadable(Hijack4BisDeclaration)
    ensures Instantiate(hreg, Hijack4Declaration, params, fuel) == Err(TheoremRecursion)
    ensures Instantiate(hreg, Hijack4BisDeclaration, params, fuel) == Err(TheoremRecursion)
    decreases fuel
  {
    if fuel == 0 {
      Hijack4Exhausted(hreg, params);
    } else {
      UnspacedReadable(["a"]);
      MutualRecursionRefused(hreg, Some(["a"]), fuel - 1);
      Hijack4Stopped(hreg, params, fuel - 1, TheoremRecursion);
      Hijack4BisStopped(hreg, params, fuel - 1, TheoremRecursion);
    }
  }

  // ----------------------------------------------------------------------
  // The attacks among the theorem set

  /** Hijack1 raises BadOperationOrderInReplacement as soon as the square it cites can be constructed. */
  lemma Hijack1Fails(params: Option<seq<string>>, fuel: nat)
    requires params.Some? ==> ParametersReadable(params.value)
    ensures HijackInstance(Hijack1, params, fuel + 3) == Err(BadOperationOrderInReplacement)
  {
    HijackRegistryReadable(); DeclareReadable(); DeclareGives();
    Hijack1Refused(Declare, HijackRegistry, params, fuel);
    HijackRegistryGives();
    HijackInstanceIs(Hijack1, params, fuel + 3);
  }

  /** Hijack2 raises WrongModification as soon as the litteral addition it cites can be constructed. */
  lemma Hijack2Fails(params: Option<seq<string>>, fuel: nat)
    requires params.Some? ==> ParametersReadable(params.value)
    ensures HijackInstance(Hijack2, params, fuel + 3) == Err(WrongModification)
  {
    HijackRegistryReadable(); DeclareReadable(); DeclareGives();
    Hijack2Refused(Declare, HijackRegistry, params, fuel);
    HijackRegistryGives();
    HijackInstanceIs(Hijack2, params, fuel + 3);
  }

  /** Hijack3 raises WrongModification whenever its proof may run. */
  lemma Hijack3Fails(params: Option<seq<string>>, fuel: nat)
    requires params.Some? ==> ParametersReadable(params.value)
    ensures HijackInstance(Hijack3, params, fuel + 1) == Err(WrongModification)
  {
    HijackRegistryReadable(); DeclareReadable(); DeclareGives();
    Hijack3Refused(Declare, HijackRegistry, params, fuel);
    HijackRegistryGives();
    HijackInstanceIs(Hijack3, params, fuel + 1);
  }

  /** Hijack4 and Hijack4Bis raise TheoremRecursion, with any parameters and any depth. */
  lemma Hijack4Fails(params: Option<seq<string>>, fuel: nat)
    requires params.Some? ==> ParametersReadable(params.value)
    ensures HijackInstance(Hijack4, params, fuel) == Err(TheoremRecursion)
    ensures HijackInstance(Hijack4Bis, params, fuel) == Err(TheoremRecursion)
  {
    HijackRegistryReadable();
    MutualRecursionRefused(HijackRegistry, params, fuel);
    HijackRegistryGives();
    HijackInstanceIs(Hijack4, params, fuel);
    HijackInstanceIs(Hijack4Bis, params, fuel);
  }
}
