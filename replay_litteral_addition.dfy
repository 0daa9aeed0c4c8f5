/*
 * The proof script of LitteralAddition, step by step.
 */
module LitteralAdditionReplay {
  import opened Wrappers
  import opened TextGestion
  import opened Theorems
  import opened Proofs
  import opened Construction
  import opened TheoremSet
  import opened ReplayHeaders
  import opened RightDistributivityReplay

  /** RightDistributivity(['a', 'b', 'x']), as cited by the proof of LitteralAddition. */
  const DistributeX := Theorem(HRightDistributivity, Some(RightDistributivityState5), "(a+b)*x", "a*x+b*x")

  lemma DistributeXBindings()
    ensures Bindings(HRightDistributivity, ["a", "b", "x"]) == Ok([('a', "a"), ('b', "b"), ('c', "x")])
  {
    RemoveSpacesOfSpaceFree("a");
    RemoveSpacesOfSpaceFree("b");
    RemoveSpacesOfSpaceFree("x");
    assert BindUnknowns([], ["a", "b", "c"], ["a", "b", "x"]) == [('a', "a"), ('b', "b"), ('c', "x")];
  }

  lemma DistributeXParameters()
    ensures ParametersReadable(["a", "b", "x"]) && Parameters(HRightDistributivity, Some(["a", "b", "x"])) == Ok(["a", "b", "x"])
  {
    UnspacedReadable(["a", "b", "x"]);
  }

  lemma DistributeXLeftSubstituted()
    ensures Substitute("(a+b)*c", [('a', "a"), ('b', "b"), ('c', "x")]) == "(a+b)*x"
  {
    var dict := [('a', "a"), ('b', "b"), ('c', "x")];
    assert Substitute("c", dict) == "x";
    assert Substitute("*c", dict) == "*x";
    assert Substitute(")*c", dict) == ")*x";
    assert Substitute("b)*c", dict) == "b)*x";
    assert Substitute("+b)*c", dict) == "+b)*x";
    assert Substitute("a+b)*c", dict) == "a+b)*x";
    assert Substitute("(a+b)*c", dict) == "(a+b)*x";
  }

  lemma DistributeXRightSubstituted()
    ensures Substitute("a*c+b*c", [('a', "a"), ('b', "b"), ('c', "x")]) == "a*x+b*x"
  {
    var dict := [('a', "a"), ('b', "b"), ('c', "x")];
    assert Substitute("c", dict) == "x";
    assert Substitute("*c", dict) == "*x";
    assert Substitute("b*c", dict) == "b*x";
    assert Substitute("+b*c", dict) == "+b*x";
    assert Substitute("c+b*c", dict) == "x+b*x";
    assert Substitute("*c+b*c", dict) == "*x+b*x";
    assert Substitute("a*c+b*c", dict) == "a*x+b*x";
  }

  lemma DistributeXLeftFormed()
    ensures WellFormed("(a+b)*x")
  {
    RemoveSpacesOfSpaceFree("(a+b)*x");
  }

  lemma DistributeXRightFormed()
    ensures WellFormed("a*x+b*x")
  {
    RemoveSpacesOfSpaceFree("a*x+b*x");
  }

  lemma DistributeXValues()
    ensures NoSpaces("(a+b)*x") && NoSpaces("a*x+b*x") && ValuesReadable([('a', "a"), ('b', "b"), ('c', "x")])
  {
  }

  lemma DistributeXLeftOrdered()
    ensures SideOrderOk("(a+b)*x", [('a', "a"), ('b', "b"), ('c', "x")])
  {
    DistributeXValues();
    SimpleValuesOrderOk("(a+b)*x", [('a', "a"), ('b', "b"), ('c', "x")]);
  }

  lemma DistributeXRightOrdered()
    ensures SideOrderOk("a*x+b*x", [('a', "a"), ('b', "b"), ('c', "x")])
  {
    DistributeXValues();
    SimpleValuesOrderOk("a*x+b*x", [('a', "a"), ('b', "b"), ('c', "x")]);
  }

  lemma DistributeXSides()
    ensures ValidNames(HRightDistributivity) && ConclusionReadable(HRightDistributivity) && ParametersReadable(["a", "b", "x"])
    ensures InstantiateSides(HRightDistributivity, Some(["a", "b", "x"])) == Ok(("(a+b)*x", "a*x+b*x"))
  {
    RightDistributivityNames(); RightDistributivitySymbolic(); RightDistributivityLeftFormed(); RightDistributivityRightFormed();
    DistributeXBindings(); DistributeXParameters(); DistributeXLeftSubstituted(); DistributeXRightSubstituted();
    DistributeXLeftFormed(); DistributeXRightFormed(); DistributeXValues(); DistributeXLeftOrdered(); DistributeXRightOrdered();
    InstantiateSidesOf(HRightDistributivity, Some(["a", "b", "x"]), ["a", "b", "x"], "(a+b)*c", "a*c+b*c", [('a', "a"), ('b', "b"), ('c', "x")], "(a+b)*x", "a*x+b*x");
  }

  lemma DistributeXConstructed(reg: Name -> Declaration<Name>, fuel: nat)
    requires RegistryReadable(reg)
    requires reg(LeftDistributivity) == LeftDistributivityDeclaration && reg(ProductCommutativity) == ProductCommutativityDeclaration
    ensures DeclarationReadable(RightDistributivityDeclaration) && ParametersReadable(["a", "b", "x"])
    ensures Instantiate(reg, RightDistributivityDeclaration, Some(["a", "b", "x"]), fuel + 1) == Ok(DistributeX)
  {
    RightDistributivityDeclared(); DistributeXSides();
    RightDistributivityStepsReadable(); RightDistributivityBuilt(reg, fuel);
    TheoremInstanceOf(reg, RightDistributivityDeclaration, HRightDistributivity, Some(["a", "b", "x"]), fuel + 1, RightDistributivityProof, RightDistributivityState5, "(a+b)*x", "a*x+b*x");
  }

  /** RemovalOfParenthesis(['c']), as cited by the proof of LitteralAddition. */
  const UnparenthesizeC := Theorem(HRemovalOfParenthesis, None, "(c)", "c")

  lemma UnparenthesizeCBindings()
    ensures Bindings(HRemovalOfParenthesis, ["c"]) == Ok([('a', "c")])
  {
    RemoveSpacesOfSpaceFree("c");
    assert BindUnknowns([], ["a"], ["c"]) == [('a', "c")];
  }

  lemma UnparenthesizeCParameters()
    ensures ParametersReadable(["c"]) && Parameters(HRemovalOfParenthesis, Some(["c"])) == Ok(["c"])
  {
    UnspacedReadable(["c"]);
  }

  lemma UnparenthesizeCLeftSubstituted()
    ensures Substitute("(a)", [('a', "c")]) == "(c)"
  {
    var dict := [('a', "c")];
    assert Substitute(")", dict) == ")";
    assert Substitute("a)", dict) == "c)";
    assert Substitute("(a)", dict) == "(c)";
  }

  lemma UnparenthesizeCRightSubstituted()
    ensures Substitute("a", [('a', "c")]) == "c"
  {
    var dict := [('a', "c")];
    assert Substitute("a", dict) == "c";
  }

  lemma UnparenthesizeCLeftFormed()
    ensures WellFormed("(c)")
  {
    RemoveSpacesOfSpaceFree("(c)");
  }

  lemma UnparenthesizeCRightFormed()
    ensures WellFormed("c")
  {
    RemoveSpacesOfSpaceFree("c");
  }

  lemma UnparenthesizeCValues()
    ensures NoSpaces("(c)") && NoSpaces("c") && ValuesReadable([('a', "c")])
  {
  }

  lemma UnparenthesizeCLeftOrdered()
    ensures SideOrderOk("(c)", [('a', "c")])
  {
    UnparenthesizeCValues();
    SimpleValuesOrderOk("(c)", [('a', "c")]);
  }

  lemma UnparenthesizeCRightOrdered()
    ensures SideOrderOk("c", [('a', "c")])
  {
    UnparenthesizeCValues();
    SimpleValuesOrderOk("c", [('a', "c")]);
  }

  lemma UnparenthesizeCSides()
    ensures ValidNames(HRemovalOfParenthesis) && ConclusionReadable(HRemovalOfParenthesis) && ParametersReadable(["c"])
    ensures InstantiateSides(HRemovalOfParenthesis, Some(["c"])) == Ok(("(c)", "c"))
  {
    RemovalOfParenthesisNames(); RemovalOfParenthesisSymbolic(); RemovalOfParenthesisLeftFormed(); RemovalOfParenthesisRightFormed();
    UnparenthesizeCBindings(); UnparenthesizeCParameters(); UnparenthesizeCLeftSubstituted(); UnparenthesizeCRightSubstituted();
    UnparenthesizeCLeftFormed(); UnparenthesizeCRightFormed(); UnparenthesizeCValues(); UnparenthesizeCLeftOrdered(); UnparenthesizeCRightOrdered();
    InstantiateSidesOf(HRemovalOfParenthesis, Some(["c"]), ["c"], "(a)", "a", [('a', "c")], "(c)", "c");
  }

  lemma UnparenthesizeCConstructed(reg: Name -> Declaration<Name>, fuel: nat)
    requires RegistryReadable(reg)
    ensures DeclarationReadable(RemovalOfParenthesisDeclaration) && ParametersReadable(["c"])
    ensures Instantiate(reg, RemovalOfParenthesisDeclaration, Some(["c"]), fuel) == Ok(UnparenthesizeC)
  {
    RemovalOfParenthesisDeclared(); UnparenthesizeCSides();
    AxiomInstanceOf(reg, RemovalOfParenthesisDeclaration, HRemovalOfParenthesis, Some(["c"]), fuel, "(c)", "c");
  }

  const LitteralAdditionState0 := ProofRecord(["a*x+b*x", "c*x"], ["a*x+b*x"], [], false)
  const LitteralAdditionState1 := LitteralAdditionState0.(equalities := LitteralAdditionState0.equalities + ["(a+b)*x"], dependencies := LitteralAdditionState0.dependencies + [DistributeX])
  const LitteralAdditionState2 := LitteralAdditionState1.(equalities := LitteralAdditionState1.equalities + ["(c)*x"])
  const LitteralAdditionState3 := LitteralAdditionState2.(equalities := LitteralAdditionState2.equalities + ["c*x"], dependencies := LitteralAdditionState2.dependencies + [UnparenthesizeC])
  const LitteralAdditionState4 := LitteralAdditionState3.(isFinished := true)

  lemma LitteralAdditionStarted()
    ensures StartRecord(HLitteralAddition, "a*x + b*x") == Ok(LitteralAdditionState0)
    ensures SpaceFree(LitteralAdditionState0.equalities) && |LitteralAdditionState0.conclusionAim| == 2
  {
    FirstUnboundNone(HLitteralAddition, "a*x + b*x"); LitteralAdditionLeftUnspaced(); LitteralAdditionSymbolic();
  }

  lemma LitteralAdditionRun0At0()
    ensures ModificationReadable(Eq("a*x+b*x", "(a+b)*x")) && EdgesReadable("a*x+b*x")
    ensures SingleModification("a*x+b*x", "(a+b)*x", Eq("a*x+b*x", "(a+b)*x"))
  {
    EqModificationReadable("a*x+b*x", "(a+b)*x");
    assert "a*x+b*x" == "" + "a*x+b*x" + "";
    assert Occurrences("a*x+b*x", "a*x+b*x")[0] == 0;
    SingleModificationAt("a*x+b*x", "(a+b)*x", "a*x+b*x", "(a+b)*x", "", "");
  }

  lemma LitteralAdditionRun0At0In()
    ensures ModificationReadable(Eq("a*x+b*x", "(a+b)*x"))
    ensures 0 < |LitteralAdditionState0.equalities| && EdgesReadable(LitteralAdditionState0.equalities[0])
    ensures SingleModification(LitteralAdditionState0.equalities[0], "(a+b)*x", Eq("a*x+b*x", "(a+b)*x"))
  {
    LitteralAdditionRun0At0();
    assert |LitteralAdditionState0.equalities| == 1;
    assert LitteralAdditionState0.equalities[0] == "a*x+b*x";
  }

  lemma LitteralAdditionRun0Found()
    requires SpaceFree(LitteralAdditionState0.equalities)
    ensures ModificationReadable(Eq("a*x+b*x", "(a+b)*x"))
    ensures OldEquality(LitteralAdditionState0.equalities, "(a+b)*x", Eq("a*x+b*x", "(a+b)*x")) == Some(0)
  {
    EqModificationReadable("a*x+b*x", "(a+b)*x"); LitteralAdditionRun0At0In();
    OldEqualityAt(LitteralAdditionState0.equalities, "(a+b)*x", Eq("a*x+b*x", "(a+b)*x"), 0);
  }

  lemma LitteralAdditionRun0Modification()
    ensures RemoveSpaces(Equation("a*x + b*x", "(a+b)*x")) == Eq("a*x+b*x", "(a+b)*x")
  {
    RemoveSpacesEquation("a*x + b*x", "(a+b)*x"); LitteralAdditionLeftUnspaced(); RemoveSpacesOfSpaceFree("(a+b)*x");
  }

  lemma LitteralAdditionRun0Held()
    ensures IsHeld(DistributeX, Eq("a*x+b*x", "(a+b)*x"))
  {
    IsHeldEq(DistributeX, "a*x+b*x", "(a+b)*x");
  }

  lemma LitteralAdditionRun0Bound()
    ensures FirstUnbound(HLitteralAddition, "(a+b)*x") == None
    ensures FirstUnbound(HLitteralAddition, Equation("a*x + b*x", "(a+b)*x")) == None
  {
    LitteralAdditionNamed();
    FirstUnboundNone(HLitteralAddition, "(a+b)*x"); FirstUnboundNone(HLitteralAddition, Equation("a*x + b*x", "(a+b)*x"));
  }

  lemma LitteralAdditionRun0(reg: Name -> Declaration<Name>, fuel: nat)
    requires RegistryReadable(reg) && SpaceFree(LitteralAdditionState0.equalities) && StepReadable(LitteralAdditionProof.steps[0])
    requires reg(LeftDistributivity) == LeftDistributivityDeclaration && reg(ProductCommutativity) == ProductCommutativityDeclaration && reg(RightDistributivity) == RightDistributivityDeclaration
    ensures RunStep(reg, HLitteralAddition, LitteralAdditionState0, LitteralAdditionProof.steps[0], fuel + 1) == Ok(LitteralAdditionState1)
  {
    LitteralAdditionStep0(); RemoveSpacesOfSpaceFree("(a+b)*x");
    DistributeXConstructed(reg, fuel); LitteralAdditionRun0Modification(); LitteralAdditionRun0Held(); LitteralAdditionRun0Bound(); LitteralAdditionRun0Found();
    EvolveStepOk(reg, HLitteralAddition, LitteralAdditionState0, LitteralAdditionProof.steps[0], fuel + 1, DistributeX, 0, LitteralAdditionState1);
  }

  lemma LitteralAdditionRun1At0()
    ensures ModificationReadable(Eq("a+b", "c")) && EdgesReadable("a*x+b*x")
    ensures !SingleModification("a*x+b*x", "(c)*x", Eq("a+b", "c"))
  {
    EqModificationReadable("a+b", "c");
    SplitEq("a+b", "c");
    assert Occurrences("a*x+b*x", "a+b") == [];
    SingleModificationNeedsOccurrence("a*x+b*x", "(c)*x", Eq("a+b", "c"));
  }

  lemma LitteralAdditionRun1At1()
    ensures ModificationReadable(Eq("a+b", "c")) && EdgesReadable("(a+b)*x")
    ensures SingleModification("(a+b)*x", "(c)*x", Eq("a+b", "c"))
  {
    EqModificationReadable("a+b", "c");
    assert "(a+b)*x" == "(" + "a+b" + ")*x";
    assert Occurrences("(a+b)*x", "a+b")[0] == 1;
    RemoveSpacesOfSpaceFree("(");
    RemoveSpacesOfSpaceFree(")*x");
    SingleModificationAt("(a+b)*x", "(c)*x", "a+b", "c", "(", ")*x");
  }

  lemma LitteralAdditionRun1At0In()
    ensures ModificationReadable(Eq("a+b", "c"))
    ensures 0 < |LitteralAdditionState1.equalities| && EdgesReadable(LitteralAdditionState1.equalities[0])
    ensures !SingleModification(LitteralAdditionState1.equalities[0], "(c)*x", Eq("a+b", "c"))
  {
    LitteralAdditionRun1At0();
    assert |LitteralAdditionState1.equalities| == 2;
    assert LitteralAdditionState1.equalities[0] == "a*x+b*x";
  }

  lemma LitteralAdditionRun1At1In()
    ensures ModificationReadable(Eq("a+b", "c"))
    ensures 1 < |LitteralAdditionState1.equalities| && EdgesReadable(LitteralAdditionState1.equalities[1])
    ensures SingleModification(LitteralAdditionState1.equalities[1], "(c)*x", Eq("a+b", "c"))
  {
    LitteralAdditionRun1At1();
    assert |LitteralAdditionState1.equalities| == 2;
    assert LitteralAdditionState1.equalities[1] == "(a+b)*x";
  }

  lemma LitteralAdditionRun1Skipped()
    ensures ModificationReadable(Eq("a+b", "c")) && 1 < |LitteralAdditionState1.equalities|
    ensures forall i :: 0 <= i < 1 ==> EdgesReadable(LitteralAdditionState1.equalities[i]) && !SingleModification(LitteralAdditionState1.equalities[i], "(c)*x", Eq("a+b", "c"))
  {
    EqModificationReadable("a+b", "c"); LitteralAdditionRun1At1In();
    forall i | 0 <= i < 1
      ensures EdgesReadable(LitteralAdditionState1.equalities[i]) && !SingleModification(LitteralAdditionState1.equalities[i], "(c)*x", Eq("a+b", "c"))
    {
      LitteralAdditionRun1At0In();
    }
  }

  lemma LitteralAdditionRun1Found()
    requires SpaceFree(LitteralAdditionState1.equalities)
    ensures ModificationReadable(Eq("a+b", "c"))
    ensures OldEquality(LitteralAdditionState1.equalities, "(c)*x", Eq("a+b", "c")) == Some(1)
  {
    EqModificationReadable("a+b", "c"); LitteralAdditionRun1At1In(); LitteralAdditionRun1Skipped();
    OldEqualityAt(LitteralAdditionState1.equalities, "(c)*x", Eq("a+b", "c"), 1);
  }

  lemma LitteralAdditionRun1Modification()
    ensures RemoveSpaces(Equation("a+b", "c")) == Eq("a+b", "c")
  {
    RemoveSpacesEquation("a+b", "c"); RemoveSpacesOfSpaceFree("a+b"); RemoveSpacesOfSpaceFree("c");
  }

  lemma LitteralAdditionRun1Declared()
    ensures Split(Eq("a+b", "c"), "=") == ["a+b", "c"] && DeclaredSimplification(HLitteralAddition, ["a+b", "c"])
  {
    SplitEq("a+b", "c");
    assert HLitteralAddition.simplifications[0].name in ["a+b", "c"];
  }

  lemma LitteralAdditionRun1(reg: Name -> Declaration<Name>, fuel: nat)
    requires RegistryReadable(reg) && SpaceFree(LitteralAdditionState1.equalities) && StepReadable(LitteralAdditionProof.steps[1])
    ensures RunStep(reg, HLitteralAddition, LitteralAdditionState1, LitteralAdditionProof.steps[1], fuel + 1) == Ok(LitteralAdditionState2)
  {
    LitteralAdditionStep1(); RemoveSpacesOfSpaceFree("(c)*x");
    LitteralAdditionRun1Modification(); LitteralAdditionRun1Declared(); LitteralAdditionRun1Found();
    SimplifyStepOk(reg, HLitteralAddition, LitteralAdditionState1, LitteralAdditionProof.steps[1], fuel + 1, 1, LitteralAdditionState2);
  }

  lemma LitteralAdditionRun2At0()
    ensures ModificationReadable(Eq("(c)", "c")) && EdgesReadable("a*x+b*x")
    ensures !SingleModification("a*x+b*x", "c*x", Eq("(c)", "c"))
  {
    EqModificationReadable("(c)", "c");
    SplitEq("(c)", "c");
    assert Occurrences("a*x+b*x", "(c)") == [];
    SingleModificationNeedsOccurrence("a*x+b*x", "c*x", Eq("(c)", "c"));
  }

  lemma LitteralAdditionRun2At1()
    ensures ModificationReadable(Eq("(c)", "c")) && EdgesReadable("(a+b)*x")
    ensures !SingleModification("(a+b)*x", "c*x", Eq("(c)", "c"))
  {
    EqModificationReadable("(c)", "c");
    SplitEq("(c)", "c");
    assert Occurrences("(a+b)*x", "(c)") == [];
    SingleModificationNeedsOccurrence("(a+b)*x", "c*x", Eq("(c)", "c"));
  }

  lemma LitteralAdditionRun2At2()
    ensures ModificationReadable(Eq("(c)", "c")) && EdgesReadable("(c)*x")
    ensures SingleModification("(c)*x", "c*x", Eq("(c)", "c"))
  {
    EqModificationReadable("(c)", "c");
    assert "(c)*x" == "" + "(c)" + "*x";
    assert Occurrences("(c)*x", "(c)")[0] == 0;
    RemoveSpacesOfSpaceFree("*x");
    SingleModificationAt("(c)*x", "c*x", "(c)", "c", "", "*x");
  }

  lemma LitteralAdditionRun2At0In()
    ensures ModificationReadable(Eq("(c)", "c"))
    ensures 0 < |LitteralAdditionState2.equalities| && EdgesReadable(LitteralAdditionState2.equalities[0])
    ensures !SingleModification(LitteralAdditionState2.equalities[0], "c*x", Eq("(c)", "c"))
  {
    LitteralAdditionRun2At0();
    assert |LitteralAdditionState2.equalities| == 3;
    assert LitteralAdditionState2.equalities[0] == "a*x+b*x";
  }

  lemma LitteralAdditionRun2At1In()
    ensures ModificationReadable(Eq("(c)", "c"))
    ensures 1 < |LitteralAdditionState2.equalities| && EdgesReadable(LitteralAdditionState2.equalities[1])
    ensures !SingleModification(LitteralAdditionState2.equalities[1], "c*x", Eq("(c)", "c"))
  {
    LitteralAdditionRun2At1();
    assert |LitteralAdditionState2.equalities| == 3;
    assert LitteralAdditionState2.equalities[1] == "(a+b)*x";
  }

  lemma LitteralAdditionRun2At2In()
    ensures ModificationReadable(Eq("(c)", "c"))
    ensures 2 < |LitteralAdditionState2.equalities| && EdgesReadable(LitteralAdditionState2.equalities[2])
    ensures SingleModification(LitteralAdditionState2.equalities[2], "c*x", Eq("(c)", "c"))
  {
    LitteralAdditionRun2At2();
    assert |LitteralAdditionState2.equalities| == 3;
    assert LitteralAdditionState2.equalities[2] == "(c)*x";
  }

  lemma LitteralAdditionRun2Skipped()
    ensures ModificationReadable(Eq("(c)", "c")) && 2 < |LitteralAdditionState2.equalities|
    ensures forall i :: 0 <= i < 2 ==> EdgesReadable(LitteralAdditionState2.equalities[i]) && !SingleModification(LitteralAdditionState2.equalities[i], "c*x", Eq("(c)", "c"))
  {
    EqModificationReadable("(c)", "c"); LitteralAdditionRun2At2In();
    forall i | 0 <= i < 2
      ensures EdgesReadable(LitteralAdditionState2.equalities[i]) && !SingleModification(LitteralAdditionState2.equalities[i], "c*x", Eq("(c)", "c"))
    {
      if i == 0 {
        LitteralAdditionRun2At0In();
      } else {
        LitteralAdditionRun2At1In();
      }
    }
  }

  lemma LitteralAdditionRun2Found()
    requires SpaceFree(LitteralAdditionState2.equalities)
    ensures ModificationReadable(Eq("(c)", "c"))
    ensures OldEquality(LitteralAdditionState2.equalities, "c*x", Eq("(c)", "c")) == Some(2)
  {
    EqModificationReadable("(c)", "c"); LitteralAdditionRun2At2In(); LitteralAdditionRun2Skipped();
    OldEqualityAt(LitteralAdditionState2.equalities, "c*x", Eq("(c)", "c"), 2);
  }

  lemma LitteralAdditionRun2Modification()
    ensures RemoveSpaces(Equation("(c)", "c")) == Eq("(c)", "c")
  {
    RemoveSpacesEquation("(c)", "c"); RemoveSpacesOfSpaceFree("(c)"); RemoveSpacesOfSpaceFree("c");
  }

  lemma LitteralAdditionRun2Held()
    ensures IsHeld(UnparenthesizeC, Eq("(c)", "c"))
  {
    IsHeldEq(UnparenthesizeC, "(c)", "c");
  }

  lemma LitteralAdditionRun2Bound()
    ensures FirstUnbound(HLitteralAddition, "c*x") == None
    ensures FirstUnbound(HLitteralAddition, Equation("(c)", "c")) == None
  {
    LitteralAdditionNamed();
    FirstUnboundNone(HLitteralAddition, "c*x"); FirstUnboundNone(HLitteralAddition, Equation("(c)", "c"));
  }

  lemma LitteralAdditionRun2(reg: Name -> Declaration<Name>, fuel: nat)
    requires RegistryReadable(reg) && SpaceFree(LitteralAdditionState2.equalities) && StepReadable(LitteralAdditionProof.steps[2])
    requires reg(RemovalOfParenthesis) == RemovalOfParenthesisDeclaration
    ensures RunStep(reg, HLitteralAddition, LitteralAdditionState2, LitteralAdditionProof.steps[2], fuel + 1) == Ok(LitteralAdditionState3)
  {
    LitteralAdditionStep2(); RemoveSpacesOfSpaceFree("c*x");
    UnparenthesizeCConstructed(reg, fuel + 1); LitteralAdditionRun2Modification(); LitteralAdditionRun2Held(); LitteralAdditionRun2Bound(); LitteralAdditionRun2Found();
    EvolveStepOk(reg, HLitteralAddition, LitteralAdditionState2, LitteralAdditionProof.steps[2], fuel + 1, UnparenthesizeC, 2, LitteralAdditionState3);
  }

  lemma LitteralAdditionRun3(reg: Name -> Declaration<Name>, fuel: nat)
    requires RegistryReadable(reg) && SpaceFree(LitteralAdditionState3.equalities) && StepReadable(LitteralAdditionProof.steps[3])
    ensures RunStep(reg, HLitteralAddition, LitteralAdditionState3, LitteralAdditionProof.steps[3], fuel + 1) == Ok(LitteralAdditionState4)
  {
    assert LitteralAdditionState3.equalities[0] == LitteralAdditionState3.conclusionAim[0];
    assert LitteralAdditionState3.equalities[3] == LitteralAdditionState3.conclusionAim[1];
    ConcludeStepOk(reg, HLitteralAddition, LitteralAdditionState3, LitteralAdditionProof.steps[3], fuel + 1, 0, 3);
  }

  lemma LitteralAdditionRunsFrom4(reg: Name -> Declaration<Name>, fuel: nat)
    requires RegistryReadable(reg) && SpaceFree(LitteralAdditionState4.equalities) && |LitteralAdditionState4.conclusionAim| == 2
    requires StepsReadable(LitteralAdditionProof.steps[4..])
    requires reg(LeftDistributivity) == LeftDistributivityDeclaration && reg(ProductCommutativity) == ProductCommutativityDeclaration && reg(RemovalOfParenthesis) == RemovalOfParenthesisDeclaration && reg(RightDistributivity) == RightDistributivityDeclaration
    ensures RunSteps(reg, HLitteralAddition, LitteralAdditionState4, LitteralAdditionProof.steps[4..], fuel + 1) == Ok(LitteralAdditionState4)
  {
    assert LitteralAdditionProof.steps[4..] == [];
  }

  lemma LitteralAdditionRunsFrom3(reg: Name -> Declaration<Name>, fuel: nat)
    requires RegistryReadable(reg) && SpaceFree(LitteralAdditionState3.equalities) && |LitteralAdditionState3.conclusionAim| == 2
    requires StepsReadable(LitteralAdditionProof.steps[3..])
    requires reg(LeftDistributivity) == LeftDistributivityDeclaration && reg(ProductCommutativity) == ProductCommutativityDeclaration && reg(RemovalOfParenthesis) == RemovalOfParenthesisDeclaration && reg(RightDistributivity) == RightDistributivityDeclaration
    ensures RunSteps(reg, HLitteralAddition, LitteralAdditionState3, LitteralAdditionProof.steps[3..], fuel + 1) == Ok(LitteralAdditionState4)
  {
    var s := LitteralAdditionProof.steps[3..];
    assert s[0] == LitteralAdditionProof.steps[3];
    LitteralAdditionRun3(reg, fuel); RunStepsCons(reg, HLitteralAddition, LitteralAdditionState3, s, fuel + 1, LitteralAdditionState4);
    assert s[1..] == LitteralAdditionProof.steps[4..];
    LitteralAdditionRunsFrom4(reg, fuel);
  }

  lemma LitteralAdditionRunsFrom2(reg: Name -> Declaration<Name>, fuel: nat)
    requires RegistryReadable(reg) && SpaceFree(LitteralAdditionState2.equalities) && |LitteralAdditionState2.conclusionAim| == 2
    requires StepsReadable(LitteralAdditionProof.steps[2..])
    requires reg(LeftDistributivity) == LeftDistributivityDeclaration && reg(ProductCommutativity) == ProductCommutativityDeclaration && reg(RemovalOfParenthesis) == RemovalOfParenthesisDeclaration && reg(RightDistributivity) == RightDistributivityDeclaration
    ensures RunSteps(reg, HLitteralAddition, LitteralAdditionState2, LitteralAdditionProof.steps[2..], fuel + 1) == Ok(LitteralAdditionState4)
  {
    var s := LitteralAdditionProof.steps[2..];
    assert s[0] == LitteralAdditionProof.steps[2];
    LitteralAdditionRun2(reg, fuel); RunStepsCons(reg, HLitteralAddition, LitteralAdditionState2, s, fuel + 1, LitteralAdditionState3);
    assert s[1..] == LitteralAdditionProof.steps[3..];
    LitteralAdditionRunsFrom3(reg, fuel);
  }

  lemma LitteralAdditionRunsFrom1(reg: Name -> Declaration<Name>, fuel: nat)
    requires RegistryReadable(reg) && SpaceFree(LitteralAdditionState1.equalities) && |LitteralAdditionState1.conclusionAim| == 2
    requires StepsReadable(LitteralAdditionProof.steps[1..])
    requires reg(LeftDistributivity) == LeftDistributivityDeclaration && reg(ProductCommutativity) == ProductCommutativityDeclaration && reg(RemovalOfParenthesis) == RemovalOfParenthesisDeclaration && reg(RightDistributivity) == RightDistributivityDeclaration
    ensures RunSteps(reg, HLitteralAddition, LitteralAdditionState1, LitteralAdditionProof.steps[1..], fuel + 1) == Ok(LitteralAdditionState4)
  {
    var s := LitteralAdditionProof.steps[1..];
    assert s[0] == LitteralAdditionProof.steps[1];
    LitteralAdditionRun1(reg, fuel); RunStepsCons(reg, HLitteralAddition, LitteralAdditionState1, s, fuel + 1, LitteralAdditionState2);
    assert s[1..] == LitteralAdditionProof.steps[2..];
    LitteralAdditionRunsFrom2(reg, fuel);
  }

  lemma LitteralAdditionRunsFrom0(reg: Name -> Declaration<Name>, fuel: nat)
    requires RegistryReadable(reg) && SpaceFree(LitteralAdditionState0.equalities) && |LitteralAdditionState0.conclusionAim| == 2
    requires StepsReadable(LitteralAdditionProof.steps)
    requires reg(LeftDistributivity) == LeftDistributivityDeclaration && reg(ProductCommutativity) == ProductCommutativityDeclaration && reg(RemovalOfParenthesis) == RemovalOfParenthesisDeclaration && reg(RightDistributivity) == RightDistributivityDeclaration
    ensures RunSteps(reg, HLitteralAddition, LitteralAdditionState0, LitteralAdditionProof.steps, fuel + 1) == Ok(LitteralAdditionState4)
  {
    var s := LitteralAdditionProof.steps;
    assert s[0] == LitteralAdditionProof.steps[0];
    LitteralAdditionRun0(reg, fuel); RunStepsCons(reg, HLitteralAddition, LitteralAdditionState0, s, fuel + 1, LitteralAdditionState1);
    assert s[1..] == LitteralAdditionProof.steps[1..];
    LitteralAdditionRunsFrom1(reg, fuel);
  }

  lemma LitteralAdditionBuilt(reg: Name -> Declaration<Name>, fuel: nat)
    requires RegistryReadable(reg) && |Split(RemoveSpaces(HLitteralAddition.conclusion), "=")| == 2
    requires StepsReadable(LitteralAdditionProof.steps)
    requires reg(LeftDistributivity) == LeftDistributivityDeclaration && reg(ProductCommutativity) == ProductCommutativityDeclaration && reg(RemovalOfParenthesis) == RemovalOfParenthesisDeclaration && reg(RightDistributivity) == RightDistributivityDeclaration
    ensures BuildProof(reg, HLitteralAddition, Some(LitteralAdditionProof), fuel + 2) == Ok(Some(LitteralAdditionState4))
  {
    LitteralAdditionStarted(); LitteralAdditionRunsFrom0(reg, fuel);
  }
}
