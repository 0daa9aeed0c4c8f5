/*
 * The proof script of Power, step by step.
 */
module PowerReplay {
  import opened Wrappers
  import opened TextGestion
  import opened Theorems
  import opened Proofs
  import opened Construction
  import opened TheoremSet
  import opened ReplayHeaders

  const PowerState0 := ProofRecord(["a^b", "c"], ["a^b"], [], false)
  const PowerState1 := PowerState0.(equalities := PowerState0.equalities + ["c"])
  const PowerState2 := PowerState1.(isFinished := true)

  lemma PowerStarted()
    ensures StartRecord(HPower, "a^b") == Ok(PowerState0)
    ensures SpaceFree(PowerState0.equalities) && |PowerState0.conclusionAim| == 2
  {
    FirstUnboundNone(HPower, "a^b"); RemoveSpacesOfSpaceFree("a^b"); PowerSymbolic();
  }

  lemma PowerRun0At0()
    ensures ModificationReadable(Eq("a^b", "c")) && EdgesReadable("a^b")
    ensures SingleModification("a^b", "c", Eq("a^b", "c"))
  {
    EqModificationReadable("a^b", "c");
    assert "a^b" == "" + "a^b" + "";
    assert Occurrences("a^b", "a^b")[0] == 0;
    SingleModificationAt("a^b", "c", "a^b", "c", "", "");
  }

  lemma PowerRun0At0In()
    ensures ModificationReadable(Eq("a^b", "c"))
    ensures 0 < |PowerState0.equalities| && EdgesReadable(PowerState0.equalities[0])
    ensures SingleModification(PowerState0.equalities[0], "c", Eq("a^b", "c"))
  {
    PowerRun0At0();
    assert |PowerState0.equalities| == 1;
    assert PowerState0.equalities[0] == "a^b";
  }

  lemma PowerRun0Found()
    requires SpaceFree(PowerState0.equalities)
    ensures ModificationReadable(Eq("a^b", "c"))
    ensures OldEquality(PowerState0.equalities, "c", Eq("a^b", "c")) == Some(0)
  {
    EqModificationReadable("a^b", "c"); PowerRun0At0In();
    OldEqualityAt(PowerState0.equalities, "c", Eq("a^b", "c"), 0);
  }

  lemma PowerRun0Modification()
    ensures RemoveSpaces(Equation("a^b", "c")) == Eq("a^b", "c")
  {
    RemoveSpacesEquation("a^b", "c"); RemoveSpacesOfSpaceFree("a^b"); RemoveSpacesOfSpaceFree("c");
  }

  lemma PowerRun0Declared()
    ensures Split(Eq("a^b", "c"), "=") == ["a^b", "c"] && DeclaredSimplification(HPower, ["a^b", "c"])
  {
    SplitEq("a^b", "c");
    assert HPower.simplifications[0].name in ["a^b", "c"];
  }

  lemma PowerRun0(reg: Name -> Declaration<Name>, fuel: nat)
    requires RegistryReadable(reg) && SpaceFree(PowerState0.equalities) && StepReadable(PowerProof.steps[0])
    ensures RunStep(reg, HPower, PowerState0, PowerProof.steps[0], fuel) == Ok(PowerState1)
  {
    PowerStep0(); RemoveSpacesOfSpaceFree("c");
    PowerRun0Modification(); PowerRun0Declared(); PowerRun0Found();
    SimplifyStepOk(reg, HPower, PowerState0, PowerProof.steps[0], fuel, 0, PowerState1);
  }

  lemma PowerRun1(reg: Name -> Declaration<Name>, fuel: nat)
    requires RegistryReadable(reg) && SpaceFree(PowerState1.equalities) && StepReadable(PowerProof.steps[1])
    ensures RunStep(reg, HPower, PowerState1, PowerProof.steps[1], fuel) == Ok(PowerState2)
  {
    assert PowerState1.equalities[0] == PowerState1.conclusionAim[0];
    assert PowerState1.equalities[1] == PowerState1.conclusionAim[1];
    ConcludeStepOk(reg, HPower, PowerState1, PowerProof.steps[1], fuel, 0, 1);
  }

  lemma PowerRunsFrom2(reg: Name -> Declaration<Name>, fuel: nat)
    requires RegistryReadable(reg) && SpaceFree(PowerState2.equalities) && |PowerState2.conclusionAim| == 2
    requires StepsReadable(PowerProof.steps[2..])
    ensures RunSteps(reg, HPower, PowerState2, PowerProof.steps[2..], fuel) == Ok(PowerState2)
  {
    assert PowerProof.steps[2..] == [];
  }

  lemma PowerRunsFrom1(reg: Name -> Declaration<Name>, fuel: nat)
    requires RegistryReadable(reg) && SpaceFree(PowerState1.equalities) && |PowerState1.conclusionAim| == 2
    requires StepsReadable(PowerProof.steps[1..])
    ensures RunSteps(reg, HPower, PowerState1, PowerProof.steps[1..], fuel) == Ok(PowerState2)
  {
    var s := PowerProof.steps[1..];
    assert s[0] == PowerProof.steps[1];
    PowerRun1(reg, fuel); RunStepsCons(reg, HPower, PowerState1, s, fuel, PowerState2);
    assert s[1..] == PowerProof.steps[2..];
    PowerRunsFrom2(reg, fuel);
  }

  lemma PowerRunsFrom0(reg: Name -> Declaration<Name>, fuel: nat)
    requires RegistryReadable(reg) && SpaceFree(PowerState0.equalities) && |PowerState0.conclusionAim| == 2
    requires StepsReadable(PowerProof.steps)
    ensures RunSteps(reg, HPower, PowerState0, PowerProof.steps, fuel) == Ok(PowerState2)
  {
    var s := PowerProof.steps;
    assert s[0] == PowerProof.steps[0];
    PowerRun0(reg, fuel); RunStepsCons(reg, HPower, PowerState0, s, fuel, PowerState1);
    assert s[1..] == PowerProof.steps[1..];
    PowerRunsFrom1(reg, fuel);
  }

  lemma PowerBuilt(reg: Name -> Declaration<Name>, fuel: nat)
    requires RegistryReadable(reg) && |Split(RemoveSpaces(HPower.conclusion), "=")| == 2
    requires StepsReadable(PowerProof.steps)
    ensures BuildProof(reg, HPower, Some(PowerProof), fuel + 1) == Ok(Some(PowerState2))
  {
    PowerStarted(); PowerRunsFrom0(reg, fuel);
  }
}
