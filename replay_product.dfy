/*
 * The proof script of Product, step by step.
 */
module ProductReplay {
  import opened Wrappers
  import opened TextGestion
  import opened Theorems
  import opened Proofs
  import opened Construction
  import opened TheoremSet
  import opened ReplayHeaders

  const ProductState0 := ProofRecord(["a*b", "c"], ["a*b"], [], false)
  const ProductState1 := ProductState0.(equalities := ProductState0.equalities + ["c"])
  const ProductState2 := ProductState1.(isFinished := true)

  lemma ProductStarted()
    ensures StartRecord(HProduct, "a*b") == Ok(ProductState0)
    ensures SpaceFree(ProductState0.equalities) && |ProductState0.conclusionAim| == 2
  {
    FirstUnboundNone(HProduct, "a*b"); RemoveSpacesOfSpaceFree("a*b"); ProductSymbolic();
  }

  lemma ProductRun0At0()
    ensures ModificationReadable(Eq("a*b", "c")) && EdgesReadable("a*b")
    ensures SingleModification("a*b", "c", Eq("a*b", "c"))
  {
    EqModificationReadable("a*b", "c");
    assert "a*b" == "" + "a*b" + "";
    assert Occurrences("a*b", "a*b")[0] == 0;
    SingleModificationAt("a*b", "c", "a*b", "c", "", "");
  }

  lemma ProductRun0At0In()
    ensures ModificationReadable(Eq("a*b", "c"))
    ensures 0 < |ProductState0.equalities| && EdgesReadable(ProductState0.equalities[0])
    ensures SingleModification(ProductState0.equalities[0], "c", Eq("a*b", "c"))
  {
    ProductRun0At0();
    assert |ProductState0.equalities| == 1;
    assert ProductState0.equalities[0] == "a*b";
  }

  lemma ProductRun0Found()
    requires SpaceFree(ProductState0.equalities)
    ensures ModificationReadable(Eq("a*b", "c"))
    ensures OldEquality(ProductState0.equalities, "c", Eq("a*b", "c")) == Some(0)
  {
    EqModificationReadable("a*b", "c"); ProductRun0At0In();
    OldEqualityAt(ProductState0.equalities, "c", Eq("a*b", "c"), 0);
  }

  lemma ProductRun0Modification()
    ensures RemoveSpaces(Equation("a*b", "c")) == Eq("a*b", "c")
  {
    RemoveSpacesEquation("a*b", "c"); RemoveSpacesOfSpaceFree("a*b"); RemoveSpacesOfSpaceFree("c");
  }

  lemma ProductRun0Declared()
    ensures Split(Eq("a*b", "c"), "=") == ["a*b", "c"] && DeclaredSimplification(HProduct, ["a*b", "c"])
  {
    SplitEq("a*b", "c");
    assert HProduct.simplifications[0].name in ["a*b", "c"];
  }

  lemma ProductRun0(reg: Name -> Declaration<Name>, fuel: nat)
    requires RegistryReadable(reg) && SpaceFree(ProductState0.equalities) && StepReadable(ProductProof.steps[0])
    ensures RunStep(reg, HProduct, ProductState0, ProductProof.steps[0], fuel) == Ok(ProductState1)
  {
    ProductStep0(); RemoveSpacesOfSpaceFree("c");
    ProductRun0Modification(); ProductRun0Declared(); ProductRun0Found();
    SimplifyStepOk(reg, HProduct, ProductState0, ProductProof.steps[0], fuel, 0, ProductState1);
  }

  lemma ProductRun1(reg: Name -> Declaration<Name>, fuel: nat)
    requires RegistryReadable(reg) && SpaceFree(ProductState1.equalities) && StepReadable(ProductProof.steps[1])
    ensures RunStep(reg, HProduct, ProductState1, ProductProof.steps[1], fuel) == Ok(ProductState2)
  {
    assert ProductState1.equalities[0] == ProductState1.conclusionAim[0];
    assert ProductState1.equalities[1] == ProductState1.conclusionAim[1];
    ConcludeStepOk(reg, HProduct, ProductState1, ProductProof.steps[1], fuel, 0, 1);
  }

  lemma ProductRunsFrom2(reg: Name -> Declaration<Name>, fuel: nat)
    requires RegistryReadable(reg) && SpaceFree(ProductState2.equalities) && |ProductState2.conclusionAim| == 2
    requires StepsReadable(ProductProof.steps[2..])
    ensures RunSteps(reg, HProduct, ProductState2, ProductProof.steps[2..], fuel) == Ok(ProductState2)
  {
    assert ProductProof.steps[2..] == [];
  }

  lemma ProductRunsFrom1(reg: Name -> Declaration<Name>, fuel: nat)
    requires RegistryReadable(reg) && SpaceFree(ProductState1.equalities) && |ProductState1.conclusionAim| == 2
    requires StepsReadable(ProductProof.steps[1..])
    ensures RunSteps(reg, HProduct, ProductState1, ProductProof.steps[1..], fuel) == Ok(ProductState2)
  {
    var s := ProductProof.steps[1..];
    assert s[0] == ProductProof.steps[1];
    ProductRun1(reg, fuel); RunStepsCons(reg, HProduct, ProductState1, s, fuel, ProductState2);
    assert s[1..] == ProductProof.steps[2..];
    ProductRunsFrom2(reg, fuel);
  }

  lemma ProductRunsFrom0(reg: Name -> Declaration<Name>, fuel: nat)
    requires RegistryReadable(reg) && SpaceFree(ProductState0.equalities) && |ProductState0.conclusionAim| == 2
    requires StepsReadable(ProductProof.steps)
    ensures RunSteps(reg, HProduct, ProductState0, ProductProof.steps, fuel) == Ok(ProductState2)
  {
    var s := ProductProof.steps;
    assert s[0] == ProductProof.steps[0];
    ProductRun0(reg, fuel); RunStepsCons(reg, HProduct, ProductState0, s, fuel, ProductState1);
    assert s[1..] == ProductProof.steps[1..];
    ProductRunsFrom1(reg, fuel);
  }

  lemma ProductBuilt(reg: Name -> Declaration<Name>, fuel: nat)
    requires RegistryReadable(reg) && |Split(RemoveSpaces(HProduct.conclusion), "=")| == 2
    requires StepsReadable(ProductProof.steps)
    ensures BuildProof(reg, HProduct, Some(ProductProof), fuel + 1) == Ok(Some(ProductState2))
  {
    ProductStarted(); ProductRunsFrom0(reg, fuel);
  }
}
