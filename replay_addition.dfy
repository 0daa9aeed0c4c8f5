/*
 * The proof script of Addition, step by step.
 */
module AdditionReplay {
  import opened Wrappers
  import opened TextGestion
  import opened Theorems
  import opened Proofs
  import opened Construction
  import opened TheoremSet
  import opened ReplayHeaders

  const AdditionState0 := ProofRecord(["a+b", "c"], ["a+b"], [], false)
  const AdditionState1 := AdditionState0.(equalities := AdditionState0.equalities + ["c"])
  const AdditionState2 := AdditionState1.(isFinished := true)

  lemma AdditionStarted()
    ensures StartRecord(HAddition, "a+b") == Ok(AdditionState0)
    ensures SpaceFree(AdditionState0.equalities) && |AdditionState0.conclusionAim| == 2
  {
    FirstUnboundNone(HAddition, "a+b"); RemoveSpacesOfSpaceFree("a+b"); AdditionSymbolic();
  }

  lemma AdditionRun0At0()
    ensures ModificationReadable(Eq("a+b", "c")) && EdgesReadable("a+b")
    ensures SingleModification("a+b", "c", Eq("a+b", "c"))
  {
    EqModificationReadable("a+b", "c");
    assert "a+b" == "" + "a+b" + "";
    assert Occurrences("a+b", "a+b")[0] == 0;
    SingleModificationAt("a+b", "c", "a+b", "c", "", "");
  }

  lemma AdditionRun0At0In()
    ensures ModificationReadable(Eq("a+b", "c"))
    ensures 0 < |AdditionState0.equalities| && EdgesReadable(AdditionState0.equalities[0])
    ensures SingleModification(AdditionState0.equalities[0], "c", Eq("a+b", "c"))
  {
    AdditionRun0At0();
    assert |AdditionState0.equalities| == 1;
    assert AdditionState0.equalities[0] == "a+b";
  }

  lemma AdditionRun0Found()
    requires SpaceFree(AdditionState0.equalities)
    ensures ModificationReadable(Eq("a+b", "c"))
    ensures OldEquality(AdditionState0.equalities, "c", Eq("a+b", "c")) == Some(0)
  {
    EqModificationReadable("a+b", "c"); AdditionRun0At0In();
    OldEqualityAt(AdditionState0.equalities, "c", Eq("a+b", "c"), 0);
  }

  lemma AdditionRun0Modification()
    ensures RemoveSpaces(Equation("a+b", "c")) == Eq("a+b", "c")
  {
    RemoveSpacesEquation("a+b", "c"); RemoveSpacesOfSpaceFree("a+b"); RemoveSpacesOfSpaceFree("c");
  }

  lemma AdditionRun0Declared()
    ensures Split(Eq("a+b", "c"), "=") == ["a+b", "c"] && DeclaredSimplification(HAddition, ["a+b", "c"])
  {
    SplitEq("a+b", "c");
    assert HAddition.simplifications[0].name in ["a+b", "c"];
  }

  lemma AdditionRun0(reg: Name -> Declaration<Name>, fuel: nat)
    requires RegistryReadable(reg) && SpaceFree(AdditionState0.equalities) && StepReadable(AdditionProof.steps[0])
    ensures RunStep(reg, HAddition, AdditionState0, AdditionProof.steps[0], fuel) == Ok(AdditionState1)
  {
    AdditionStep0(); RemoveSpacesOfSpaceFree("c");
    AdditionRun0Modification(); AdditionRun0Declared(); AdditionRun0Found();
    SimplifyStepOk(reg, HAddition, AdditionState0, AdditionProof.steps[0], fuel, 0, AdditionState1);
  }

  lemma AdditionRun1(reg: Name -> Declaration<Name>, fuel: nat)
    requires RegistryReadable(reg) && SpaceFree(AdditionState1.equalities) && StepReadable(AdditionProof.steps[1])
    ensures RunStep(reg, HAddition, AdditionState1, AdditionProof.steps[1], fuel) == Ok(AdditionState2)
  {
    assert AdditionState1.equalities[0] == AdditionState1.conclusionAim[0];
    assert AdditionState1.equalities[1] == AdditionState1.conclusionAim[1];
    ConcludeStepOk(reg, HAddition, AdditionState1, AdditionProof.steps[1], fuel, 0, 1);
  }

  lemma AdditionRunsFrom2(reg: Name -> Declaration<Name>, fuel: nat)
    requires RegistryReadable(reg) && SpaceFree(AdditionState2.equalities) && |AdditionState2.conclusionAim| == 2
    requires StepsReadable(AdditionProof.steps[2..])
    ensures RunSteps(reg, HAddition, AdditionState2, AdditionProof.steps[2..], fuel) == Ok(AdditionState2)
  {
    assert AdditionProof.steps[2..] == [];
  }

  lemma AdditionRunsFrom1(reg: Name -> Declaration<Name>, fuel: nat)
    requires RegistryReadable(reg) && SpaceFree(AdditionState1.equalities) && |AdditionState1.conclusionAim| == 2
    requires StepsReadable(AdditionProof.steps[1..])
    ensures RunSteps(reg, HAddition, AdditionState1, AdditionProof.steps[1..], fuel) == Ok(AdditionState2)
  {
    var s := AdditionProof.steps[1..];
    assert s[0] == AdditionProof.steps[1];
    AdditionRun1(reg, fuel); RunStepsCons(reg, HAddition, AdditionState1, s, fuel, AdditionState2);
    assert s[1..] == AdditionProof.steps[2..];
    AdditionRunsFrom2(reg, fuel);
  }

  lemma AdditionRunsFrom0(reg: Name -> Declaration<Name>, fuel: nat)
    requires RegistryReadable(reg) && SpaceFree(AdditionState0.equalities) && |AdditionState0.conclusionAim| == 2
    requires StepsReadable(AdditionProof.steps)
    ensures RunSteps(reg, HAddition, AdditionState0, AdditionProof.steps, fuel) == Ok(AdditionState2)
  {
    var s := AdditionProof.steps;
    assert s[0] == AdditionProof.steps[0];
    AdditionRun0(reg, fuel); RunStepsCons(reg, HAddition, AdditionState0, s, fuel, AdditionState1);
    assert s[1..] == AdditionProof.steps[1..];
    AdditionRunsFrom1(reg, fuel);
  }

  lemma AdditionBuilt(reg: Name -> Declaration<Name>, fuel: nat)
    requires RegistryReadable(reg) && |Split(RemoveSpaces(HAddition.conclusion), "=")| == 2
    requires StepsReadable(AdditionProof.steps)
    ensures BuildProof(reg, HAddition, Some(AdditionProof), fuel + 1) == Ok(Some(AdditionState2))
  {
    AdditionStarted(); AdditionRunsFrom0(reg, fuel);
  }
}
