/*
 * The proof script of RightMultiplicationByIdentity, step by step.
 */
module RightMultiplicationByIdentityReplay {
  import opened Wrappers
  import opened TextGestion
  import opened Theorems
  import opened Proofs
  import opened Construction
  import opened TheoremSet
  import opened ReplayHeaders

  /** ProductCommutativity(['a', '1']), as cited by the proof of RightMultiplicationByIdentity. */
  const CommuteAAndOne := Theorem(HProductCommutativity, None, "a*1", "1*a")

  lemma CommuteAAndOneBindings()
    ensures Bindings(HProductCommutativity, ["a", "1"]) == Ok([('a', "a"), ('b', "1")])
  {
    RemoveSpacesOfSpaceFree("a");
    RemoveSpacesOfSpaceFree("1");
    assert BindUnknowns([], ["a", "b"], ["a", "1"]) == [('a', "a"), ('b', "1")];
  }

  lemma CommuteAAndOneParameters()
    ensures ParametersReadable(["a", "1"]) && Parameters(HProductCommutativity, Some(["a", "1"])) == Ok(["a", "1"])
  {
    UnspacedReadable(["a", "1"]);
  }

  lemma CommuteAAndOneLeftSubstituted()
    ensures Substitute("a*b", [('a', "a"), ('b', "1")]) == "a*1"
  {
    var dict := [('a', "a"), ('b', "1")];
    assert Substitute("b", dict) == "1";
    assert Substitute("*b", dict) == "*1";
    assert Substitute("a*b", dict) == "a*1";
  }

  lemma CommuteAAndOneRightSubstituted()
    ensures Substitute("b*a", [('a', "a"), ('b', "1")]) == "1*a"
  {
    var dict := [('a', "a"), ('b', "1")];
    assert Substitute("a", dict) == "a";
    assert Substitute("*a", dict) == "*a";
    assert Substitute("b*a", dict) == "1*a";
  }

  lemma CommuteAAndOneLeftFormed()
    ensures WellFormed("a*1")
  {
    RemoveSpacesOfSpaceFree("a*1");
  }

  lemma CommuteAAndOneRightFormed()
    ensures WellFormed("1*a")
  {
    RemoveSpacesOfSpaceFree("1*a");
  }

  lemma CommuteAAndOneValues()
    ensures NoSpaces("a*1") && NoSpaces("1*a") && ValuesReadable([('a', "a"), ('b', "1")])
  {
  }

  lemma CommuteAAndOneLeftOrdered()
    ensures SideOrderOk("a*1", [('a', "a"), ('b', "1")])
  {
    CommuteAAndOneValues();
    SimpleValuesOrderOk("a*1", [('a', "a"), ('b', "1")]);
  }

  lemma CommuteAAndOneRightOrdered()
    ensures SideOrderOk("1*a", [('a', "a"), ('b', "1")])
  {
    CommuteAAndOneValues();
    SimpleValuesOrderOk("1*a", [('a', "a"), ('b', "1")]);
  }

  lemma CommuteAAndOneSides()
    ensures ValidNames(HProductCommutativity) && ConclusionReadable(HProductCommutativity) && ParametersReadable(["a", "1"])
    ensures InstantiateSides(HProductCommutativity, Some(["a", "1"])) == Ok(("a*1", "1*a"))
  {
    ProductCommutativityNames(); ProductCommutativitySymbolic(); ProductCommutativityLeftFormed(); ProductCommutativityRightFormed();
    CommuteAAndOneBindings(); CommuteAAndOneParameters(); CommuteAAndOneLeftSubstituted(); CommuteAAndOneRightSubstituted();
    CommuteAAndOneLeftFormed(); CommuteAAndOneRightFormed(); CommuteAAndOneValues(); CommuteAAndOneLeftOrdered(); CommuteAAndOneRightOrdered();
    InstantiateSidesOf(HProductCommutativity, Some(["a", "1"]), ["a", "1"], "a*b", "b*a", [('a', "a"), ('b', "1")], "a*1", "1*a");
  }

  lemma CommuteAAndOneConstructed(reg: Name -> Declaration<Name>, fuel: nat)
    requires RegistryReadable(reg)
    ensures DeclarationReadable(ProductCommutativityDeclaration) && ParametersReadable(["a", "1"])
    ensures Instantiate(reg, ProductCommutativityDeclaration, Some(["a", "1"]), fuel) == Ok(CommuteAAndOne)
  {
    ProductCommutativityDeclared(); CommuteAAndOneSides();
    AxiomInstanceOf(reg, ProductCommutativityDeclaration, HProductCommutativity, Some(["a", "1"]), fuel, "a*1", "1*a");
  }

  /** LeftMultiplicationByIdentity(['a']), as cited by the proof of RightMultiplicationByIdentity. */
  const OneTimesA := Theorem(HLeftMultiplicationByIdentity, None, "1*a", "a")

  lemma OneTimesABindings()
    ensures Bindings(HLeftMultiplicationByIdentity, ["a"]) == Ok([('a', "a")])
  {
    RemoveSpacesOfSpaceFree("a");
    assert BindUnknowns([], ["a"], ["a"]) == [('a', "a")];
  }

  lemma OneTimesAParameters()
    ensures ParametersReadable(["a"]) && Parameters(HLeftMultiplicationByIdentity, Some(["a"])) == Ok(["a"])
  {
    UnspacedReadable(["a"]);
  }

  lemma OneTimesALeftSubstituted()
    ensures Substitute("1*a", [('a', "a")]) == "1*a"
  {
    var dict := [('a', "a")];
    assert Substitute("a", dict) == "a";
    assert Substitute("*a", dict) == "*a";
    assert Substitute("1*a", dict) == "1*a";
  }

  lemma OneTimesARightSubstituted()
    ensures Substitute("a", [('a', "a")]) == "a"
  {
    var dict := [('a', "a")];
    assert Substitute("a", dict) == "a";
  }

  lemma OneTimesALeftFormed()
    ensures WellFormed("1*a")
  {
    RemoveSpacesOfSpaceFree("1*a");
  }

  lemma OneTimesARightFormed()
    ensures WellFormed("a")
  {
    RemoveSpacesOfSpaceFree("a");
  }

  lemma OneTimesAValues()
    ensures NoSpaces("1*a") && NoSpaces("a") && ValuesReadable([('a', "a")])
  {
  }

  lemma OneTimesALeftOrdered()
    ensures SideOrderOk("1*a", [('a', "a")])
  {
    OneTimesAValues();
    SimpleValuesOrderOk("1*a", [('a', "a")]);
  }

  lemma OneTimesARightOrdered()
    ensures SideOrderOk("a", [('a', "a")])
  {
    OneTimesAValues();
    SimpleValuesOrderOk("a", [('a', "a")]);
  }

  lemma OneTimesASides()
    ensures ValidNames(HLeftMultiplicationByIdentity) && ConclusionReadable(HLeftMultiplicationByIdentity) && ParametersReadable(["a"])
    ensures InstantiateSides(HLeftMultiplicationByIdentity, Some(["a"])) == Ok(("1*a", "a"))
  {
    LeftMultiplicationByIdentityNames(); LeftMultiplicationByIdentitySymbolic(); LeftMultiplicationByIdentityLeftFormed(); LeftMultiplicationByIdentityRightFormed();
    OneTimesABindings(); OneTimesAParameters(); OneTimesALeftSubstituted(); OneTimesARightSubstituted();
    OneTimesALeftFormed(); OneTimesARightFormed(); OneTimesAValues(); OneTimesALeftOrdered(); OneTimesARightOrdered();
    InstantiateSidesOf(HLeftMultiplicationByIdentity, Some(["a"]), ["a"], "1*a", "a", [('a', "a")], "1*a", "a");
  }

  lemma OneTimesAConstructed(reg: Name -> Declaration<Name>, fuel: nat)
    requires RegistryReadable(reg)
    ensures DeclarationReadable(LeftMultiplicationByIdentityDeclaration) && ParametersReadable(["a"])
    ensures Instantiate(reg, LeftMultiplicationByIdentityDeclaration, Some(["a"]), fuel) == Ok(OneTimesA)
  {
    LeftMultiplicationByIdentityDeclared(); OneTimesASides();
    AxiomInstanceOf(reg, LeftMultiplicationByIdentityDeclaration, HLeftMultiplicationByIdentity, Some(["a"]), fuel, "1*a", "a");
  }

  const RightMultiplicationByIdentityState0 := ProofRecord(["a*1", "a"], ["a*1"], [], false)
  const RightMultiplicationByIdentityState1 := RightMultiplicationByIdentityState0.(equalities := RightMultiplicationByIdentityState0.equalities + ["1*a"], dependencies := RightMultiplicationByIdentityState0.dependencies + [CommuteAAndOne])
  const RightMultiplicationByIdentityState2 := RightMultiplicationByIdentityState1.(equalities := RightMultiplicationByIdentityState1.equalities + ["a"], dependencies := RightMultiplicationByIdentityState1.dependencies + [OneTimesA])
  const RightMultiplicationByIdentityState3 := RightMultiplicationByIdentityState2.(isFinished := true)

  lemma RightMultiplicationByIdentityStarted()
    ensures StartRecord(HRightMultiplicationByIdentity, "a*1") == Ok(RightMultiplicationByIdentityState0)
    ensures SpaceFree(RightMultiplicationByIdentityState0.equalities) && |RightMultiplicationByIdentityState0.conclusionAim| == 2
  {
    FirstUnboundNone(HRightMultiplicationByIdentity, "a*1"); RemoveSpacesOfSpaceFree("a*1"); RightMultiplicationByIdentitySymbolic();
  }

  lemma RightMultiplicationByIdentityRun0At0()
    ensures ModificationReadable(Eq("a*1", "1*a")) && EdgesReadable("a*1")
    ensures SingleModification("a*1", "1*a", Eq("a*1", "1*a"))
  {
    EqModificationReadable("a*1", "1*a");
    assert "a*1" == "" + "a*1" + "";
    assert Occurrences("a*1", "a*1")[0] == 0;
    SingleModificationAt("a*1", "1*a", "a*1", "1*a", "", "");
  }

  lemma RightMultiplicationByIdentityRun0At0In()
    ensures ModificationReadable(Eq("a*1", "1*a"))
    ensures 0 < |RightMultiplicationByIdentityState0.equalities| && EdgesReadable(RightMultiplicationByIdentityState0.equalities[0])
    ensures SingleModification(RightMultiplicationByIdentityState0.equalities[0], "1*a", Eq("a*1", "1*a"))
  {
    RightMultiplicationByIdentityRun0At0();
    assert |RightMultiplicationByIdentityState0.equalities| == 1;
    assert RightMultiplicationByIdentityState0.equalities[0] == "a*1";
  }

  lemma RightMultiplicationByIdentityRun0Found()
    requires SpaceFree(RightMultiplicationByIdentityState0.equalities)
    ensures ModificationReadable(Eq("a*1", "1*a"))
    ensures OldEquality(RightMultiplicationByIdentityState0.equalities, "1*a", Eq("a*1", "1*a")) == Some(0)
  {
    EqModificationReadable("a*1", "1*a"); RightMultiplicationByIdentityRun0At0In();
    OldEqualityAt(RightMultiplicationByIdentityState0.equalities, "1*a", Eq("a*1", "1*a"), 0);
  }

  lemma RightMultiplicationByIdentityRun0Modification()
    ensures RemoveSpaces(Equation("a*1", "1*a")) == Eq("a*1", "1*a")
  {
    RemoveSpacesEquation("a*1", "1*a"); RemoveSpacesOfSpaceFree("a*1"); RemoveSpacesOfSpaceFree("1*a");
  }

  lemma RightMultiplicationByIdentityRun0Held()
    ensures IsHeld(CommuteAAndOne, Eq("a*1", "1*a"))
  {
    IsHeldEq(CommuteAAndOne, "a*1", "1*a");
  }

  lemma RightMultiplicationByIdentityRun0Bound()
    ensures FirstUnbound(HRightMultiplicationByIdentity, "1*a") == None
    ensures FirstUnbound(HRightMultiplicationByIdentity, Equation("a*1", "1*a")) == None
  {
    FirstUnboundNone(HRightMultiplicationByIdentity, "1*a"); FirstUnboundNone(HRightMultiplicationByIdentity, Equation("a*1", "1*a"));
  }

  lemma RightMultiplicationByIdentityRun0(reg: Name -> Declaration<Name>, fuel: nat)
    requires RegistryReadable(reg) && SpaceFree(RightMultiplicationByIdentityState0.equalities) && StepReadable(RightMultiplicationByIdentityProof.steps[0])
    requires reg(ProductCommutativity) == ProductCommutativityDeclaration
    ensures RunStep(reg, HRightMultiplicationByIdentity, RightMultiplicationByIdentityState0, RightMultiplicationByIdentityProof.steps[0], fuel) == Ok(RightMultiplicationByIdentityState1)
  {
    RightMultiplicationByIdentityStep0(); RemoveSpacesOfSpaceFree("1*a");
    CommuteAAndOneConstructed(reg, fuel); RightMultiplicationByIdentityRun0Modification(); RightMultiplicationByIdentityRun0Held(); RightMultiplicationByIdentityRun0Bound(); RightMultiplicationByIdentityRun0Found();
    EvolveStepOk(reg, HRightMultiplicationByIdentity, RightMultiplicationByIdentityState0, RightMultiplicationByIdentityProof.steps[0], fuel, CommuteAAndOne, 0, RightMultiplicationByIdentityState1);
  }

  lemma RightMultiplicationByIdentityRun1At0()
    ensures ModificationReadable(Eq("1*a", "a")) && EdgesReadable("a*1")
    ensures !SingleModification("a*1", "a", Eq("1*a", "a"))
  {
    EqModificationReadable("1*a", "a");
    SplitEq("1*a", "a");
    assert Occurrences("a*1", "1*a") == [];
    SingleModificationNeedsOccurrence("a*1", "a", Eq("1*a", "a"));
  }

  lemma RightMultiplicationByIdentityRun1At1()
    ensures ModificationReadable(Eq("1*a", "a")) && EdgesReadable("1*a")
    ensures SingleModification("1*a", "a", Eq("1*a", "a"))
  {
    EqModificationReadable("1*a", "a");
    assert "1*a" == "" + "1*a" + "";
    assert Occurrences("1*a", "1*a")[0] == 0;
    SingleModificationAt("1*a", "a", "1*a", "a", "", "");
  }

  lemma RightMultiplicationByIdentityRun1At0In()
    ensures ModificationReadable(Eq("1*a", "a"))
    ensures 0 < |RightMultiplicationByIdentityState1.equalities| && EdgesReadable(RightMultiplicationByIdentityState1.equalities[0])
    ensures !SingleModification(RightMultiplicationByIdentityState1.equalities[0], "a", Eq("1*a", "a"))
  {
    RightMultiplicationByIdentityRun1At0();
    assert |RightMultiplicationByIdentityState1.equalities| == 2;
    assert RightMultiplicationByIdentityState1.equalities[0] == "a*1";
  }

  lemma RightMultiplicationByIdentityRun1At1In()
    ensures ModificationReadable(Eq("1*a", "a"))
    ensures 1 < |RightMultiplicationByIdentityState1.equalities| && EdgesReadable(RightMultiplicationByIdentityState1.equalities[1])
    ensures SingleModification(RightMultiplicationByIdentityState1.equalities[1], "a", Eq("1*a", "a"))
  {
    RightMultiplicationByIdentityRun1At1();
    assert |RightMultiplicationByIdentityState1.equalities| == 2;
    assert RightMultiplicationByIdentityState1.equalities[1] == "1*a";
  }

  lemma RightMultiplicationByIdentityRun1Skipped()
    ensures ModificationReadable(Eq("1*a", "a")) && 1 < |RightMultiplicationByIdentityState1.equalities|
    ensures forall i :: 0 <= i < 1 ==> EdgesReadable(RightMultiplicationByIdentityState1.equalities[i]) && !SingleModification(RightMultiplicationByIdentityState1.equalities[i], "a", Eq("1*a", "a"))
  {
    EqModificationReadable("1*a", "a"); RightMultiplicationByIdentityRun1At1In();
    forall i | 0 <= i < 1
      ensures EdgesReadable(RightMultiplicationByIdentityState1.equalities[i]) && !SingleModification(RightMultiplicationByIdentityState1.equalities[i], "a", Eq("1*a", "a"))
    {
      RightMultiplicationByIdentityRun1At0In();
    }
  }

  lemma RightMultiplicationByIdentityRun1Found()
    requires SpaceFree(RightMultiplicationByIdentityState1.equalities)
    ensures ModificationReadable(Eq("1*a", "a"))
    ensures OldEquality(RightMultiplicationByIdentityState1.equalities, "a", Eq("1*a", "a")) == Some(1)
  {
    EqModificationReadable("1*a", "a"); RightMultiplicationByIdentityRun1At1In(); RightMultiplicationByIdentityRun1Skipped();
    OldEqualityAt(RightMultiplicationByIdentityState1.equalities, "a", Eq("1*a", "a"), 1);
  }

  lemma RightMultiplicationByIdentityRun1Modification()
    ensures RemoveSpaces(Equation("1*a", "a")) == Eq("1*a", "a")
  {
    RemoveSpacesEquation("1*a", "a"); RemoveSpacesOfSpaceFree("1*a"); RemoveSpacesOfSpaceFree("a");
  }

  lemma RightMultiplicationByIdentityRun1Held()
    ensures IsHeld(OneTimesA, Eq("1*a", "a"))
  {
    IsHeldEq(OneTimesA, "1*a", "a");
  }

  lemma RightMultiplicationByIdentityRun1Bound()
    ensures FirstUnbound(HRightMultiplicationByIdentity, "a") == None
    ensures FirstUnbound(HRightMultiplicationByIdentity, Equation("1*a", "a")) == None
  {
    FirstUnboundNone(HRightMultiplicationByIdentity, "a"); FirstUnboundNone(HRightMultiplicationByIdentity, Equation("1*a", "a"));
  }

  lemma RightMultiplicationByIdentityRun1(reg: Name -> Declaration<Name>, fuel: nat)
    requires RegistryReadable(reg) && SpaceFree(RightMultiplicationByIdentityState1.equalities) && StepReadable(RightMultiplicationByIdentityProof.steps[1])
    requires reg(LeftMultiplicationByIdentity) == LeftMultiplicationByIdentityDeclaration
    ensures RunStep(reg, HRightMultiplicationByIdentity, RightMultiplicationByIdentityState1, RightMultiplicationByIdentityProof.steps[1], fuel) == Ok(RightMultiplicationByIdentityState2)
  {
    RightMultiplicationByIdentityStep1(); RemoveSpacesOfSpaceFree("a");
    OneTimesAConstructed(reg, fuel); RightMultiplicationByIdentityRun1Modification(); RightMultiplicationByIdentityRun1Held(); RightMultiplicationByIdentityRun1Bound(); RightMultiplicationByIdentityRun1Found();
    EvolveStepOk(reg, HRightMultiplicationByIdentity, RightMultiplicationByIdentityState1, RightMultiplicationByIdentityProof.steps[1], fuel, OneTimesA, 1, RightMultiplicationByIdentityState2);
  }

  lemma RightMultiplicationByIdentityRun2(reg: Name -> Declaration<Name>, fuel: nat)
    requires RegistryReadable(reg) && SpaceFree(RightMultiplicationByIdentityState2.equalities) && StepReadable(RightMultiplicationByIdentityProof.steps[2])
    ensures RunStep(reg, HRightMultiplicationByIdentity, RightMultiplicationByIdentityState2, RightMultiplicationByIdentityProof.steps[2], fuel) == Ok(RightMultiplicationByIdentityState3)
  {
    assert RightMultiplicationByIdentityState2.equalities[0] == RightMultiplicationByIdentityState2.conclusionAim[0];
    assert RightMultiplicationByIdentityState2.equalities[2] == RightMultiplicationByIdentityState2.conclusionAim[1];
    ConcludeStepOk(reg, HRightMultiplicationByIdentity, RightMultiplicationByIdentityState2, RightMultiplicationByIdentityProof.steps[2], fuel, 0, 2);
  }

  lemma RightMultiplicationByIdentityRunsFrom3(reg: Name -> Declaration<Name>, fuel: nat)
    requires RegistryReadable(reg) && SpaceFree(RightMultiplicationByIdentityState3.equalities) && |RightMultiplicationByIdentityState3.conclusionAim| == 2
    requires StepsReadable(RightMultiplicationByIdentityProof.steps[3..])
    requires reg(LeftMultiplicationByIdentity) == LeftMultiplicationByIdentityDeclaration && reg(ProductCommutativity) == ProductCommutativityDeclaration
    ensures RunSteps(reg, HRightMultiplicationByIdentity, RightMultiplicationByIdentityState3, RightMultiplicationByIdentityProof.steps[3..], fuel) == Ok(RightMultiplicationByIdentityState3)
  {
    assert RightMultiplicationByIdentityProof.steps[3..] == [];
  }

  lemma RightMultiplicationByIdentityRunsFrom2(reg: Name -> Declaration<Name>, fuel: nat)
    requires RegistryReadable(reg) && SpaceFree(RightMultiplicationByIdentityState2.equalities) && |RightMultiplicationByIdentityState2.conclusionAim| == 2
    requires StepsReadable(RightMultiplicationByIdentityProof.steps[2..])
    requires reg(LeftMultiplicationByIdentity) == LeftMultiplicationByIdentityDeclaration && reg(ProductCommutativity) == ProductCommutativityDeclaration
    ensures RunSteps(reg, HRightMultiplicationByIdentity, RightMultiplicationByIdentityState2, RightMultiplicationByIdentityProof.steps[2..], fuel) == Ok(RightMultiplicationByIdentityState3)
  {
    var s := RightMultiplicationByIdentityProof.steps[2..];
    assert s[0] == RightMultiplicationByIdentityProof.steps[2];
    RightMultiplicationByIdentityRun2(reg, fuel); RunStepsCons(reg, HRightMultiplicationByIdentity, RightMultiplicationByIdentityState2, s, fuel, RightMultiplicationByIdentityState3);
    assert s[1..] == RightMultiplicationByIdentityProof.steps[3..];
    RightMultiplicationByIdentityRunsFrom3(reg, fuel);
  }

  lemma RightMultiplicationByIdentityRunsFrom1(reg: Name -> Declaration<Name>, fuel: nat)
    requires RegistryReadable(reg) && SpaceFree(RightMultiplicationByIdentityState1.equalities) && |RightMultiplicationByIdentityState1.conclusionAim| == 2
    requires StepsReadable(RightMultiplicationByIdentityProof.steps[1..])
    requires reg(LeftMultiplicationByIdentity) == LeftMultiplicationByIdentityDeclaration && reg(ProductCommutativity) == ProductCommutativityDeclaration
    ensures RunSteps(reg, HRightMultiplicationByIdentity, RightMultiplicationByIdentityState1, RightMultiplicationByIdentityProof.steps[1..], fuel) == Ok(RightMultiplicationByIdentityState3)
  {
    var s := RightMultiplicationByIdentityProof.steps[1..];
    assert s[0] == RightMultiplicationByIdentityProof.steps[1];
    RightMultiplicationByIdentityRun1(reg, fuel); RunStepsCons(reg, HRightMultiplicationByIdentity, RightMultiplicationByIdentityState1, s, fuel, RightMultiplicationByIdentityState2);
    assert s[1..] == RightMultiplicationByIdentityProof.steps[2..];
    RightMultiplicationByIdentityRunsFrom2(reg, fuel);
  }

  lemma RightMultiplicationByIdentityRunsFrom0(reg: Name -> Declaration<Name>, fuel: nat)
    requires RegistryReadable(reg) && SpaceFree(RightMultiplicationByIdentityState0.equalities) && |RightMultiplicationByIdentityState0.conclusionAim| == 2
    requires StepsReadable(RightMultiplicationByIdentityProof.steps)
    requires reg(LeftMultiplicationByIdentity) == LeftMultiplicationByIdentityDeclaration && reg(ProductCommutativity) == ProductCommutativityDeclaration
    ensures RunSteps(reg, HRightMultiplicationByIdentity, RightMultiplicationByIdentityState0, RightMultiplicationByIdentityProof.steps, fuel) == Ok(RightMultiplicationByIdentityState3)
  {
    var s := RightMultiplicationByIdentityProof.steps;
    assert s[0] == RightMultiplicationByIdentityProof.steps[0];
    RightMultiplicationByIdentityRun0(reg, fuel); RunStepsCons(reg, HRightMultiplicationByIdentity, RightMultiplicationByIdentityState0, s, fuel, RightMultiplicationByIdentityState1);
    assert s[1..] == RightMultiplicationByIdentityProof.steps[1..];
    RightMultiplicationByIdentityRunsFrom1(reg, fuel);
  }

  lemma RightMultiplicationByIdentityBuilt(reg: Name -> Declaration<Name>, fuel: nat)
    requires RegistryReadable(reg) && |Split(RemoveSpaces(HRightMultiplicationByIdentity.conclusion), "=")| == 2
    requires StepsReadable(RightMultiplicationByIdentityProof.steps)
    requires reg(LeftMultiplicationByIdentity) == LeftMultiplicationByIdentityDeclaration && reg(ProductCommutativity) == ProductCommutativityDeclaration
    ensures BuildProof(reg, HRightMultiplicationByIdentity, Some(RightMultiplicationByIdentityProof), fuel + 1) == Ok(Some(RightMultiplicationByIdentityState3))
  {
    RightMultiplicationByIdentityStarted(); RightMultiplicationByIdentityRunsFrom0(reg, fuel);
  }
}
