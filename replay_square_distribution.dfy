/*
 * The proof script of SquareDistribution, step by step.
 */
module SquareDistributionReplay {
  import opened Wrappers
  import opened TextGestion
  import opened Theorems
  import opened Proofs
  import opened Construction
  import opened TheoremSet
  import opened ReplayHeaders
  import opened AdditionReplay

  /** RemovalOfParenthesis(['2']), as cited by the proof of SquareDistribution. */
  const ParenthesizeTwo := Theorem(HRemovalOfParenthesis, None, "(2)", "2")

  lemma ParenthesizeTwoBindings()
    ensures Bindings(HRemovalOfParenthesis, ["2"]) == Ok([('a', "2")])
  {
    RemoveSpacesOfSpaceFree("2");
    assert BindUnknowns([], ["a"], ["2"]) == [('a', "2")];
  }

  lemma ParenthesizeTwoParameters()
    ensures ParametersReadable(["2"]) && Parameters(HRemovalOfParenthesis, Some(["2"])) == Ok(["2"])
  {
    UnspacedReadable(["2"]);
  }

  lemma ParenthesizeTwoLeftSubstituted()
    ensures Substitute("(a)", [('a', "2")]) == "(2)"
  {
    var dict := [('a', "2")];
    assert Substitute(")", dict) == ")";
    assert Substitute("a)", dict) == "2)";
    assert Substitute("(a)", dict) == "(2)";
  }

  lemma ParenthesizeTwoRightSubstituted()
    ensures Substitute("a", [('a', "2")]) == "2"
  {
    var dict := [('a', "2")];
    assert Substitute("a", dict) == "2";
  }

  lemma ParenthesizeTwoLeftFormed()
    ensures WellFormed("(2)")
  {
    RemoveSpacesOfSpaceFree("(2)");
  }

  lemma ParenthesizeTwoRightFormed()
    ensures WellFormed("2")
  {
    RemoveSpacesOfSpaceFree("2");
  }

  lemma ParenthesizeTwoValues()
    ensures NoSpaces("(2)") && NoSpaces("2") && ValuesReadable([('a', "2")])
  {
  }

  lemma ParenthesizeTwoLeftOrdered()
    ensures SideOrderOk("(2)", [('a', "2")])
  {
    ParenthesizeTwoValues();
    SimpleValuesOrderOk("(2)", [('a', "2")]);
  }

  lemma ParenthesizeTwoRightOrdered()
    ensures SideOrderOk("2", [('a', "2")])
  {
    ParenthesizeTwoValues();
    SimpleValuesOrderOk("2", [('a', "2")]);
  }

  lemma ParenthesizeTwoSides()
    ensures ValidNames(HRemovalOfParenthesis) && ConclusionReadable(HRemovalOfParenthesis) && ParametersReadable(["2"])
    ensures InstantiateSides(HRemovalOfParenthesis, Some(["2"])) == Ok(("(2)", "2"))
  {
    RemovalOfParenthesisNames(); RemovalOfParenthesisSymbolic(); RemovalOfParenthesisLeftFormed(); RemovalOfParenthesisRightFormed();
    ParenthesizeTwoBindings(); ParenthesizeTwoParameters(); ParenthesizeTwoLeftSubstituted(); ParenthesizeTwoRightSubstituted();
    ParenthesizeTwoLeftFormed(); ParenthesizeTwoRightFormed(); ParenthesizeTwoValues(); ParenthesizeTwoLeftOrdered(); ParenthesizeTwoRightOrdered();
    InstantiateSidesOf(HRemovalOfParenthesis, Some(["2"]), ["2"], "(a)", "a", [('a', "2")], "(2)", "2");
  }

  lemma ParenthesizeTwoConstructed(reg: Name -> Declaration<Name>, fuel: nat)
    requires RegistryReadable(reg)
    ensures DeclarationReadable(RemovalOfParenthesisDeclaration) && ParametersReadable(["2"])
    ensures Instantiate(reg, RemovalOfParenthesisDeclaration, Some(["2"]), fuel) == Ok(ParenthesizeTwo)
  {
    RemovalOfParenthesisDeclared(); ParenthesizeTwoSides();
    AxiomInstanceOf(reg, RemovalOfParenthesisDeclaration, HRemovalOfParenthesis, Some(["2"]), fuel, "(2)", "2");
  }

  /** Addition(['1', '1']), as cited by the proof of SquareDistribution. */
  const OnePlusOne := Theorem(HAddition, Some(AdditionState2), "1+1", "2")

  lemma OnePlusOneUnknowns()
    ensures BindUnknowns([], ["a", "b"], ["1", "1"]) == [('a', "1"), ('b', "1")]
  {
    RemoveSpacesOfSpaceFree("1");
    RemoveSpacesOfSpaceFree("1");
    assert BindUnknowns([], ["a", "b"], ["1", "1"]) == [('a', "1"), ('b', "1")];
  }

  lemma OnePlusOneSimplification0()
    ensures Substitute("a+b", [('a', "1"), ('b', "1")]) == "1+1"
    ensures Evaluate("1+1") == Some(2) && NatToString(2) == "2"
  {
    var dict := [('a', "1"), ('b', "1")];
    assert Substitute("b", dict) == "1";
    assert Substitute("+b", dict) == "+1";
    assert Substitute("a+b", dict) == "1+1";
  }

  lemma OnePlusOneBindings()
    ensures Bindings(HAddition, ["1", "1"]) == Ok([('a', "1"), ('b', "1"), ('c', "2")])
  {
    OnePlusOneUnknowns();
    OnePlusOneSimplification0();
    assert HAddition.simplifications[0].expression == "a+b";
    assert Put([('a', "1"), ('b', "1")], 'c', "2") == [('a', "1"), ('b', "1"), ('c', "2")];
    assert HAddition.simplifications[1..] == [];
  }

  lemma OnePlusOneParameters()
    ensures ParametersReadable(["1", "1"]) && Parameters(HAddition, Some(["1", "1"])) == Ok(["1", "1"])
  {
    UnspacedReadable(["1", "1"]);
  }

  lemma OnePlusOneLeftSubstituted()
    ensures Substitute("a+b", [('a', "1"), ('b', "1"), ('c', "2")]) == "1+1"
  {
    var dict := [('a', "1"), ('b', "1"), ('c', "2")];
    assert Substitute("b", dict) == "1";
    assert Substitute("+b", dict) == "+1";
    assert Substitute("a+b", dict) == "1+1";
  }

  lemma OnePlusOneRightSubstituted()
    ensures Substitute("c", [('a', "1"), ('b', "1"), ('c', "2")]) == "2"
  {
    var dict := [('a', "1"), ('b', "1"), ('c', "2")];
    assert Substitute("c", dict) == "2";
  }

  lemma OnePlusOneLeftFormed()
    ensures WellFormed("1+1")
  {
    RemoveSpacesOfSpaceFree("1+1");
  }

  lemma OnePlusOneRightFormed()
    ensures WellFormed("2")
  {
    RemoveSpacesOfSpaceFree("2");
  }

  lemma OnePlusOneValues()
    ensures NoSpaces("1+1") && NoSpaces("2") && ValuesReadable([('a', "1"), ('b', "1"), ('c', "2")])
  {
  }

  lemma OnePlusOneLeftOrdered()
    ensures SideOrderOk("1+1", [('a', "1"), ('b', "1"), ('c', "2")])
  {
    OnePlusOneValues();
    SimpleValuesOrderOk("1+1", [('a', "1"), ('b', "1"), ('c', "2")]);
  }

  lemma OnePlusOneRightOrdered()
    ensures SideOrderOk("2", [('a', "1"), ('b', "1"), ('c', "2")])
  {
    OnePlusOneValues();
    SimpleValuesOrderOk("2", [('a', "1"), ('b', "1"), ('c', "2")]);
  }

  lemma OnePlusOneSides()
    ensures ValidNames(HAddition) && ConclusionReadable(HAddition) && ParametersReadable(["1", "1"])
    ensures InstantiateSides(HAddition, Some(["1", "1"])) == Ok(("1+1", "2"))
  {
    AdditionNames(); AdditionSymbolic(); AdditionLeftFormed(); AdditionRightFormed();
    OnePlusOneBindings(); OnePlusOneParameters(); OnePlusOneLeftSubstituted(); OnePlusOneRightSubstituted();
    OnePlusOneLeftFormed(); OnePlusOneRightFormed(); OnePlusOneValues(); OnePlusOneLeftOrdered(); OnePlusOneRightOrdered();
    InstantiateSidesOf(HAddition, Some(["1", "1"]), ["1", "1"], "a+b", "c", [('a', "1"), ('b', "1"), ('c', "2")], "1+1", "2");
  }

  lemma OnePlusOneConstructed(reg: Name -> Declaration<Name>, fuel: nat)
    requires RegistryReadable(reg)
    ensures DeclarationReadable(AdditionDeclaration) && ParametersReadable(["1", "1"])
    ensures Instantiate(reg, AdditionDeclaration, Some(["1", "1"]), fuel + 1) == Ok(OnePlusOne)
  {
    AdditionDeclared(); OnePlusOneSides();
    AdditionStepsReadable(); AdditionBuilt(reg, fuel);
    TheoremInstanceOf(reg, AdditionDeclaration, HAddition, Some(["1", "1"]), fuel + 1, AdditionProof, AdditionState2, "1+1", "2");
  }

  /** PowerDistribution(['a', '1', '1']), as cited by the proof of SquareDistribution. */
  const AddExponents := Theorem(HPowerDistribution, None, "a^1*a^1", "a^(1+1)")

  lemma AddExponentsBindings()
    ensures Bindings(HPowerDistribution, ["a", "1", "1"]) == Ok([('b', "a"), ('x', "1"), ('y', "1")])
  {
    RemoveSpacesOfSpaceFree("a");
    RemoveSpacesOfSpaceFree("1");
    RemoveSpacesOfSpaceFree("1");
    assert BindUnknowns([], ["b", "x", "y"], ["a", "1", "1"]) == [('b', "a"), ('x', "1"), ('y', "1")];
  }

  lemma AddExponentsParameters()
    ensures ParametersReadable(["a", "1", "1"]) && Parameters(HPowerDistribution, Some(["a", "1", "1"])) == Ok(["a", "1", "1"])
  {
    UnspacedReadable(["a", "1", "1"]);
  }

  lemma AddExponentsLeftSubstituted()
    ensures Substitute("b^x*b^y", [('b', "a"), ('x', "1"), ('y', "1")]) == "a^1*a^1"
  {
    var dict := [('b', "a"), ('x', "1"), ('y', "1")];
    assert Substitute("y", dict) == "1";
    assert Substitute("^y", dict) == "^1";
    assert Substitute("b^y", dict) == "a^1";
    assert Substitute("*b^y", dict) == "*a^1";
    assert Substitute("x*b^y", dict) == "1*a^1";
    assert Substitute("^x*b^y", dict) == "^1*a^1";
    assert Substitute("b^x*b^y", dict) == "a^1*a^1";
  }

  lemma AddExponentsRightSubstituted()
    ensures Substitute("b^(x+y)", [('b', "a"), ('x', "1"), ('y', "1")]) == "a^(1+1)"
  {
    var dict := [('b', "a"), ('x', "1"), ('y', "1")];
    assert Substitute(")", dict) == ")";
    assert Substitute("y)", dict) == "1)";
    assert Substitute("+y)", dict) == "+1)";
    assert Substitute("x+y)", dict) == "1+1)";
    assert Substitute("(x+y)", dict) == "(1+1)";
    assert Substitute("^(x+y)", dict) == "^(1+1)";
    assert Substitute("b^(x+y)", dict) == "a^(1+1)";
  }

  lemma AddExponentsLeftFormed()
    ensures WellFormed("a^1*a^1")
  {
    RemoveSpacesOfSpaceFree("a^1*a^1");
  }

  lemma AddExponentsRightFormed()
    ensures WellFormed("a^(1+1)")
  {
    RemoveSpacesOfSpaceFree("a^(1+1)");
  }

  lemma AddExponentsValues()
    ensures NoSpaces("a^1*a^1") && NoSpaces("a^(1+1)") && ValuesReadable([('b', "a"), ('x', "1"), ('y', "1")])
  {
  }

  lemma AddExponentsLeftOrdered()
    ensures SideOrderOk("a^1*a^1", [('b', "a"), ('x', "1"), ('y', "1")])
  {
    AddExponentsValues();
    SimpleValuesOrderOk("a^1*a^1", [('b', "a"), ('x', "1"), ('y', "1")]);
  }

  lemma AddExponentsRightOrdered()
    ensures SideOrderOk("a^(1+1)", [('b', "a"), ('x', "1"), ('y', "1")])
  {
    AddExponentsValues();
    SimpleValuesOrderOk("a^(1+1)", [('b', "a"), ('x', "1"), ('y', "1")]);
  }

  lemma AddExponentsSides()
    ensures ValidNames(HPowerDistribution) && ConclusionReadable(HPowerDistribution) && ParametersReadable(["a", "1", "1"])
    ensures InstantiateSides(HPowerDistribution, Some(["a", "1", "1"])) == Ok(("a^1*a^1", "a^(1+1)"))
  {
    PowerDistributionNames(); PowerDistributionSymbolic(); PowerDistributionLeftFormed(); PowerDistributionRightFormed();
    AddExponentsBindings(); AddExponentsParameters(); AddExponentsLeftSubstituted(); AddExponentsRightSubstituted();
    AddExponentsLeftFormed(); AddExponentsRightFormed(); AddExponentsValues(); AddExponentsLeftOrdered(); AddExponentsRightOrdered();
    InstantiateSidesOf(HPowerDistribution, Some(["a", "1", "1"]), ["a", "1", "1"], "b^x*b^y", "b^(x+y)", [('b', "a"), ('x', "1"), ('y', "1")], "a^1*a^1", "a^(1+1)");
  }

  lemma AddExponentsConstructed(reg: Name -> Declaration<Name>, fuel: nat)
    requires RegistryReadable(reg)
    ensures DeclarationReadable(PowerDistributionDeclaration) && ParametersReadable(["a", "1", "1"])
    ensures Instantiate(reg, PowerDistributionDeclaration, Some(["a", "1", "1"]), fuel) == Ok(AddExponents)
  {
    PowerDistributionDeclared(); AddExponentsSides();
    AxiomInstanceOf(reg, PowerDistributionDeclaration, HPowerDistribution, Some(["a", "1", "1"]), fuel, "a^1*a^1", "a^(1+1)");
  }

  /** IdentityExponent(['a']), as cited by the proof of SquareDistribution. */
  const AToTheOne := Theorem(HIdentityExponent, None, "a^1", "a")

  lemma AToTheOneBindings()
    ensures Bindings(HIdentityExponent, ["a"]) == Ok([('a', "a")])
  {
    RemoveSpacesOfSpaceFree("a");
    assert BindUnknowns([], ["a"], ["a"]) == [('a', "a")];
  }

  lemma AToTheOneParameters()
    ensures ParametersReadable(["a"]) && Parameters(HIdentityExponent, Some(["a"])) == Ok(["a"])
  {
    UnspacedReadable(["a"]);
  }

  lemma AToTheOneLeftSubstituted()
    ensures Substitute("a^1", [('a', "a")]) == "a^1"
  {
    var dict := [('a', "a")];
    assert Substitute("1", dict) == "1";
    assert Substitute("^1", dict) == "^1";
    assert Substitute("a^1", dict) == "a^1";
  }

  lemma AToTheOneRightSubstituted()
    ensures Substitute("a", [('a', "a")]) == "a"
  {
    var dict := [('a', "a")];
    assert Substitute("a", dict) == "a";
  }

  lemma AToTheOneLeftFormed()
    ensures WellFormed("a^1")
  {
    RemoveSpacesOfSpaceFree("a^1");
  }

  lemma AToTheOneRightFormed()
    ensures WellFormed("a")
  {
    RemoveSpacesOfSpaceFree("a");
  }

  lemma AToTheOneValues()
    ensures NoSpaces("a^1") && NoSpaces("a") && ValuesReadable([('a', "a")])
  {
  }

  lemma AToTheOneLeftOrdered()
    ensures SideOrderOk("a^1", [('a', "a")])
  {
    AToTheOneValues();
    SimpleValuesOrderOk("a^1", [('a', "a")]);
  }

  lemma AToTheOneRightOrdered()
    ensures SideOrderOk("a", [('a', "a")])
  {
    AToTheOneValues();
    SimpleValuesOrderOk("a", [('a', "a")]);
  }

  lemma AToTheOneSides()
    ensures ValidNames(HIdentityExponent) && ConclusionReadable(HIdentityExponent) && ParametersReadable(["a"])
    ensures InstantiateSides(HIdentityExponent, Some(["a"])) == Ok(("a^1", "a"))
  {
    IdentityExponentNames(); IdentityExponentSymbolic(); IdentityExponentLeftFormed(); IdentityExponentRightFormed();
    AToTheOneBindings(); AToTheOneParameters(); AToTheOneLeftSubstituted(); AToTheOneRightSubstituted();
    AToTheOneLeftFormed(); AToTheOneRightFormed(); AToTheOneValues(); AToTheOneLeftOrdered(); AToTheOneRightOrdered();
    InstantiateSidesOf(HIdentityExponent, Some(["a"]), ["a"], "a^1", "a", [('a', "a")], "a^1", "a");
  }

  lemma AToTheOneConstructed(reg: Name -> Declaration<Name>, fuel: nat)
    requires RegistryReadable(reg)
    ensures DeclarationReadable(IdentityExponentDeclaration) && ParametersReadable(["a"])
    ensures Instantiate(reg, IdentityExponentDeclaration, Some(["a"]), fuel) == Ok(AToTheOne)
  {
    IdentityExponentDeclared(); AToTheOneSides();
    AxiomInstanceOf(reg, IdentityExponentDeclaration, HIdentityExponent, Some(["a"]), fuel, "a^1", "a");
  }

  const SquareDistributionState0 := ProofRecord(["a^2", "a*a"], ["a^2"], [], false)
  const SquareDistributionState1 := SquareDistributionState0.(equalities := SquareDistributionState0.equalities + ["a^(2)"], dependencies := SquareDistributionState0.dependencies + [ParenthesizeTwo])
  const SquareDistributionState2 := SquareDistributionState1.(equalities := SquareDistributionState1.equalities + ["a^(1+1)"], dependencies := SquareDistributionState1.dependencies + [OnePlusOne])
  const SquareDistributionState3 := SquareDistributionState2.(equalities := SquareDistributionState2.equalities + ["a^1*a^1"], dependencies := SquareDistributionState2.dependencies + [AddExponents])
  const SquareDistributionState4 := SquareDistributionState3.(equalities := SquareDistributionState3.equalities + ["a*a^1"], dependencies := SquareDistributionState3.dependencies + [AToTheOne])
  const SquareDistributionState5 := SquareDistributionState4.(equalities := SquareDistributionState4.equalities + ["a*a"], dependencies := SquareDistributionState4.dependencies + [AToTheOne])
  const SquareDistributionState6 := SquareDistributionState5.(isFinished := true)

  lemma SquareDistributionStarted()
    ensures StartRecord(HSquareDistribution, "a^2") == Ok(SquareDistributionState0)
    ensures SpaceFree(SquareDistributionState0.equalities) && |SquareDistributionState0.conclusionAim| == 2
  {
    FirstUnboundNone(HSquareDistribution, "a^2"); RemoveSpacesOfSpaceFree("a^2"); SquareDistributionSymbolic();
  }

  lemma SquareDistributionRun0At0()
    ensures ModificationReadable(Eq("2", "(2)")) && EdgesReadable("a^2")
    ensures SingleModification("a^2", "a^(2)", Eq("2", "(2)"))
  {
    EqModificationReadable("2", "(2)");
    assert "a^2" == "a^" + "2" + "";
    assert Occurrences("a^2", "2")[0] == 2;
    RemoveSpacesOfSpaceFree("a^");
    SingleModificationAt("a^2", "a^(2)", "2", "(2)", "a^", "");
  }

  lemma SquareDistributionRun0At0In()
    ensures ModificationReadable(Eq("2", "(2)"))
    ensures 0 < |SquareDistributionState0.equalities| && EdgesReadable(SquareDistributionState0.equalities[0])
    ensures SingleModification(SquareDistributionState0.equalities[0], "a^(2)", Eq("2", "(2)"))
  {
    SquareDistributionRun0At0();
    assert |SquareDistributionState0.equalities| == 1;
    assert SquareDistributionState0.equalities[0] == "a^2";
  }

  lemma SquareDistributionRun0Found()
    requires SpaceFree(SquareDistributionState0.equalities)
    ensures ModificationReadable(Eq("2", "(2)"))
    ensures OldEquality(SquareDistributionState0.equalities, "a^(2)", Eq("2", "(2)")) == Some(0)
  {
    EqModificationReadable("2", "(2)"); SquareDistributionRun0At0In();
    OldEqualityAt(SquareDistributionState0.equalities, "a^(2)", Eq("2", "(2)"), 0);
  }

  lemma SquareDistributionRun0Modification()
    ensures RemoveSpaces(Equation("2", "(2)")) == Eq("2", "(2)")
  {
    RemoveSpacesEquation("2", "(2)"); RemoveSpacesOfSpaceFree("2"); RemoveSpacesOfSpaceFree("(2)");
  }

  lemma SquareDistributionRun0Held()
    ensures IsHeld(ParenthesizeTwo, Eq("2", "(2)"))
  {
    IsHeldEq(ParenthesizeTwo, "2", "(2)");
  }

  lemma SquareDistributionRun0Bound()
    ensures FirstUnbound(HSquareDistribution, "a^(2)") == None
    ensures FirstUnbound(HSquareDistribution, Equation("2", "(2)")) == None
  {
    FirstUnboundNone(HSquareDistribution, "a^(2)"); FirstUnboundNone(HSquareDistribution, Equation("2", "(2)"));
  }

  lemma SquareDistributionRun0(reg: Name -> Declaration<Name>, fuel: nat)
    requires RegistryReadable(reg) && SpaceFree(SquareDistributionState0.equalities) && StepReadable(SquareDistributionProof.steps[0])
    requires reg(RemovalOfParenthesis) == RemovalOfParenthesisDeclaration
    ensures RunStep(reg, HSquareDistribution, SquareDistributionState0, SquareDistributionProof.steps[0], fuel + 1) == Ok(SquareDistributionState1)
  {
    SquareDistributionStep0(); RemoveSpacesOfSpaceFree("a^(2)");
    ParenthesizeTwoConstructed(reg, fuel + 1); SquareDistributionRun0Modification(); SquareDistributionRun0Held(); SquareDistributionRun0Bound(); SquareDistributionRun0Found();
    EvolveStepOk(reg, HSquareDistribution, SquareDistributionState0, SquareDistributionProof.steps[0], fuel + 1, ParenthesizeTwo, 0, SquareDistributionState1);
  }

  lemma SquareDistributionRun1At0()
    ensures ModificationReadable(Eq("2", "1+1")) && EdgesReadable("a^2")
    ensures !SingleModification("a^2", "a^(1+1)", Eq("2", "1+1"))
  {
    EqModificationReadable("2", "1+1");
    assert "a^2" == "a^" + "2" + "";
    assert Occurrences("a^2", "2") == [2];
    assert |"a^(1+1)"| != |"a^" + "1+1" + ""|;
    SingleModificationMiss("a^2", "a^(1+1)", "2", "1+1", "a^", "");
  }

  lemma SquareDistributionRun1At1()
    ensures ModificationReadable(Eq("2", "1+1")) && EdgesReadable("a^(2)")
    ensures SingleModification("a^(2)", "a^(1+1)", Eq("2", "1+1"))
  {
    EqModificationReadable("2", "1+1");
    assert "a^(2)" == "a^(" + "2" + ")";
    assert Occurrences("a^(2)", "2")[0] == 3;
    RemoveSpacesOfSpaceFree("a^(");
    RemoveSpacesOfSpaceFree(")");
    SingleModificationAt("a^(2)", "a^(1+1)", "2", "1+1", "a^(", ")");
  }

  lemma SquareDistributionRun1At0In()
    ensures ModificationReadable(Eq("2", "1+1"))
    ensures 0 < |SquareDistributionState1.equalities| && EdgesReadable(SquareDistributionState1.equalities[0])
    ensures !SingleModification(SquareDistributionState1.equalities[0], "a^(1+1)", Eq("2", "1+1"))
  {
    SquareDistributionRun1At0();
    assert |SquareDistributionState1.equalities| == 2;
    assert SquareDistributionState1.equalities[0] == "a^2";
  }

  lemma SquareDistributionRun1At1In()
    ensures ModificationReadable(Eq("2", "1+1"))
    ensures 1 < |SquareDistributionState1.equalities| && EdgesReadable(SquareDistributionState1.equalities[1])
    ensures SingleModification(SquareDistributionState1.equalities[1], "a^(1+1)", Eq("2", "1+1"))
  {
    SquareDistributionRun1At1();
    assert |SquareDistributionState1.equalities| == 2;
    assert SquareDistributionState1.equalities[1] == "a^(2)";
  }

  lemma SquareDistributionRun1Skipped()
    ensures ModificationReadable(Eq("2", "1+1")) && 1 < |SquareDistributionState1.equalities|
    ensures forall i :: 0 <= i < 1 ==> EdgesReadable(SquareDistributionState1.equalities[i]) && !SingleModification(SquareDistributionState1.equalities[i], "a^(1+1)", Eq("2", "1+1"))
  {
    EqModificationReadable("2", "1+1"); SquareDistributionRun1At1In();
    forall i | 0 <= i < 1
      ensures EdgesReadable(SquareDistributionState1.equalities[i]) && !SingleModification(SquareDistributionState1.equalities[i], "a^(1+1)", Eq("2", "1+1"))
    {
      SquareDistributionRun1At0In();
    }
  }

  lemma SquareDistributionRun1Found()
    requires SpaceFree(SquareDistributionState1.equalities)
    ensures ModificationReadable(Eq("2", "1+1"))
    ensures OldEquality(SquareDistributionState1.equalities, "a^(1+1)", Eq("2", "1+1")) == Some(1)
  {
    EqModificationReadable("2", "1+1"); SquareDistributionRun1At1In(); SquareDistributionRun1Skipped();
    OldEqualityAt(SquareDistributionState1.equalities, "a^(1+1)", Eq("2", "1+1"), 1);
  }

  lemma SquareDistributionRun1NewUnspaced()
    ensures RemoveSpaces("a^(1 + 1)") == "a^(1+1)"
  {
  }

  lemma SquareDistributionRun1RightUnspaced()
    ensures RemoveSpaces("1 + 1") == "1+1"
  {
  }

  lemma SquareDistributionRun1Modification()
    ensures RemoveSpaces(Equation("2", "1 + 1")) == Eq("2", "1+1")
  {
    RemoveSpacesEquation("2", "1 + 1"); RemoveSpacesOfSpaceFree("2"); SquareDistributionRun1RightUnspaced();
  }

  lemma SquareDistributionRun1Held()
    ensures IsHeld(OnePlusOne, Eq("2", "1+1"))
  {
    IsHeldEq(OnePlusOne, "2", "1+1");
  }

  lemma SquareDistributionRun1Bound()
    ensures FirstUnbound(HSquareDistribution, "a^(1 + 1)") == None
    ensures FirstUnbound(HSquareDistribution, Equation("2", "1 + 1")) == None
  {
    FirstUnboundNone(HSquareDistribution, "a^(1 + 1)"); FirstUnboundNone(HSquareDistribution, Equation("2", "1 + 1"));
  }

  lemma SquareDistributionRun1(reg: Name -> Declaration<Name>, fuel: nat)
    requires RegistryReadable(reg) && SpaceFree(SquareDistributionState1.equalities) && StepReadable(SquareDistributionProof.steps[1])
    requires reg(Addition) == AdditionDeclaration
    ensures RunStep(reg, HSquareDistribution, SquareDistributionState1, SquareDistributionProof.steps[1], fuel + 1) == Ok(SquareDistributionState2)
  {
    SquareDistributionStep1(); SquareDistributionRun1NewUnspaced();
    OnePlusOneConstructed(reg, fuel); SquareDistributionRun1Modification(); SquareDistributionRun1Held(); SquareDistributionRun1Bound(); SquareDistributionRun1Found();
    EvolveStepOk(reg, HSquareDistribution, SquareDistributionState1, SquareDistributionProof.steps[1], fuel + 1, OnePlusOne, 1, SquareDistributionState2);
  }

  lemma SquareDistributionRun2At0()
    ensures ModificationReadable(Eq("a^(1+1)", "a^1*a^1")) && EdgesReadable("a^2")
    ensures !SingleModification("a^2", "a^1*a^1", Eq("a^(1+1)", "a^1*a^1"))
  {
    EqModificationReadable("a^(1+1)", "a^1*a^1");
    SplitEq("a^(1+1)", "a^1*a^1");
    assert Occurrences("a^2", "a^(1+1)") == [];
    SingleModificationNeedsOccurrence("a^2", "a^1*a^1", Eq("a^(1+1)", "a^1*a^1"));
  }

  lemma SquareDistributionRun2At1()
    ensures ModificationReadable(Eq("a^(1+1)", "a^1*a^1")) && EdgesReadable("a^(2)")
    ensures !SingleModification("a^(2)", "a^1*a^1", Eq("a^(1+1)", "a^1*a^1"))
  {
    EqModificationReadable("a^(1+1)", "a^1*a^1");
    SplitEq("a^(1+1)", "a^1*a^1");
    assert Occurrences("a^(2)", "a^(1+1)") == [];
    SingleModificationNeedsOccurrence("a^(2)", "a^1*a^1", Eq("a^(1+1)", "a^1*a^1"));
  }

  lemma SquareDistributionRun2At2()
    ensures ModificationReadable(Eq("a^(1+1)", "a^1*a^1")) && EdgesReadable("a^(1+1)")
    ensures SingleModification("a^(1+1)", "a^1*a^1", Eq("a^(1+1)", "a^1*a^1"))
  {
    EqModificationReadable("a^(1+1)", "a^1*a^1");
    assert "a^(1+1)" == "" + "a^(1+1)" + "";
    assert Occurrences("a^(1+1)", "a^(1+1)")[0] == 0;
    SingleModificationAt("a^(1+1)", "a^1*a^1", "a^(1+1)", "a^1*a^1", "", "");
  }

  lemma SquareDistributionRun2At0In()
    ensures ModificationReadable(Eq("a^(1+1)", "a^1*a^1"))
    ensures 0 < |SquareDistributionState2.equalities| && EdgesReadable(SquareDistributionState2.equalities[0])
    ensures !SingleModification(SquareDistributionState2.equalities[0], "a^1*a^1", Eq("a^(1+1)", "a^1*a^1"))
  {
    SquareDistributionRun2At0();
    assert |SquareDistributionState2.equalities| == 3;
    assert SquareDistributionState2.equalities[0] == "a^2";
  }

  lemma SquareDistributionRun2At1In()
    ensures ModificationReadable(Eq("a^(1+1)", "a^1*a^1"))
    ensures 1 < |SquareDistributionState2.equalities| && EdgesReadable(SquareDistributionState2.equalities[1])
    ensures !SingleModification(SquareDistributionState2.equalities[1], "a^1*a^1", Eq("a^(1+1)", "a^1*a^1"))
  {
    SquareDistributionRun2At1();
    assert |SquareDistributionState2.equalities| == 3;
    assert SquareDistributionState2.equalities[1] == "a^(2)";
  }

  lemma SquareDistributionRun2At2In()
    ensures ModificationReadable(Eq("a^(1+1)", "a^1*a^1"))
    ensures 2 < |SquareDistributionState2.equalities| && EdgesReadable(SquareDistributionState2.equalities[2])
    ensures SingleModification(SquareDistributionState2.equalities[2], "a^1*a^1", Eq("a^(1+1)", "a^1*a^1"))
  {
    SquareDistributionRun2At2();
    assert |SquareDistributionState2.equalities| == 3;
    assert SquareDistributionState2.equalities[2] == "a^(1+1)";
  }

  lemma SquareDistributionRun2Skipped()
    ensures ModificationReadable(Eq("a^(1+1)", "a^1*a^1")) && 2 < |SquareDistributionState2.equalities|
    ensures forall i :: 0 <= i < 2 ==> EdgesReadable(SquareDistributionState2.equalities[i]) && !SingleModification(SquareDistributionState2.equalities[i], "a^1*a^1", Eq("a^(1+1)", "a^1*a^1"))
  {
    EqModificationReadable("a^(1+1)", "a^1*a^1"); SquareDistributionRun2At2In();
    forall i | 0 <= i < 2
      ensures EdgesReadable(SquareDistributionState2.equalities[i]) && !SingleModification(SquareDistributionState2.equalities[i], "a^1*a^1", Eq("a^(1+1)", "a^1*a^1"))
    {
      if i == 0 {
        SquareDistributionRun2At0In();
      } else {
        SquareDistributionRun2At1In();
      }
    }
  }

  lemma SquareDistributionRun2Found()
    requires SpaceFree(SquareDistributionState2.equalities)
    ensures ModificationReadable(Eq("a^(1+1)", "a^1*a^1"))
    ensures OldEquality(SquareDistributionState2.equalities, "a^1*a^1", Eq("a^(1+1)", "a^1*a^1")) == Some(2)
  {
    EqModificationReadable("a^(1+1)", "a^1*a^1"); SquareDistributionRun2At2In(); SquareDistributionRun2Skipped();
    OldEqualityAt(SquareDistributionState2.equalities, "a^1*a^1", Eq("a^(1+1)", "a^1*a^1"), 2);
  }

  lemma SquareDistributionRun2NewUnspaced()
    ensures RemoveSpaces("a^1 * a^1") == "a^1*a^1"
  {
  }

  lemma SquareDistributionRun2Modification()
    ensures RemoveSpaces(Equation("a^(1 + 1)", "a^1 * a^1")) == Eq("a^(1+1)", "a^1*a^1")
  {
    RemoveSpacesEquation("a^(1 + 1)", "a^1 * a^1"); SquareDistributionRun1NewUnspaced(); SquareDistributionRun2NewUnspaced();
  }

  lemma SquareDistributionRun2Held()
    ensures IsHeld(AddExponents, Eq("a^(1+1)", "a^1*a^1"))
  {
    IsHeldEq(AddExponents, "a^(1+1)", "a^1*a^1");
  }

  lemma SquareDistributionRun2Bound()
    ensures FirstUnbound(HSquareDistribution, "a^1 * a^1") == None
    ensures FirstUnbound(HSquareDistribution, Equation("a^(1 + 1)", "a^1 * a^1")) == None
  {
    FirstUnboundNone(HSquareDistribution, "a^1 * a^1"); FirstUnboundNone(HSquareDistribution, Equation("a^(1 + 1)", "a^1 * a^1"));
  }

  lemma SquareDistributionRun2(reg: Name -> Declaration<Name>, fuel: nat)
    requires RegistryReadable(reg) && SpaceFree(SquareDistributionState2.equalities) && StepReadable(SquareDistributionProof.steps[2])
    requires reg(PowerDistribution) == PowerDistributionDeclaration
    ensures RunStep(reg, HSquareDistribution, SquareDistributionState2, SquareDistributionProof.steps[2], fuel + 1) == Ok(SquareDistributionState3)
  {
    SquareDistributionStep2(); SquareDistributionRun2NewUnspaced();
    AddExponentsConstructed(reg, fuel + 1); SquareDistributionRun2Modification(); SquareDistributionRun2Held(); SquareDistributionRun2Bound(); SquareDistributionRun2Found();
    EvolveStepOk(reg, HSquareDistribution, SquareDistributionState2, SquareDistributionProof.steps[2], fuel + 1, AddExponents, 2, SquareDistributionState3);
  }

  lemma SquareDistributionRun3At0()
    ensures ModificationReadable(Eq("a^1", "a")) && EdgesReadable("a^2")
    ensures !SingleModification("a^2", "a*a^1", Eq("a^1", "a"))
  {
    EqModificationReadable("a^1", "a");
    SplitEq("a^1", "a");
    assert Occurrences("a^2", "a^1") == [];
    SingleModificationNeedsOccurrence("a^2", "a*a^1", Eq("a^1", "a"));
  }

  lemma SquareDistributionRun3At1()
    ensures ModificationReadable(Eq("a^1", "a")) && EdgesReadable("a^(2)")
    ensures !SingleModification("a^(2)", "a*a^1", Eq("a^1", "a"))
  {
    EqModificationReadable("a^1", "a");
    SplitEq("a^1", "a");
    assert Occurrences("a^(2)", "a^1") == [];
    SingleModificationNeedsOccurrence("a^(2)", "a*a^1", Eq("a^1", "a"));
  }

  lemma SquareDistributionRun3At2()
    ensures ModificationReadable(Eq("a^1", "a")) && EdgesReadable("a^(1+1)")
    ensures !SingleModification("a^(1+1)", "a*a^1", Eq("a^1", "a"))
  {
    EqModificationReadable("a^1", "a");
    SplitEq("a^1", "a");
    assert Occurrences("a^(1+1)", "a^1") == [];
    SingleModificationNeedsOccurrence("a^(1+1)", "a*a^1", Eq("a^1", "a"));
  }

  lemma SquareDistributionRun3At3()
    ensures ModificationReadable(Eq("a^1", "a")) && EdgesReadable("a^1*a^1")
    ensures SingleModification("a^1*a^1", "a*a^1", Eq("a^1", "a"))
  {
    EqModificationReadable("a^1", "a");
    assert "a^1*a^1" == "" + "a^1" + "*a^1";
    assert Occurrences("a^1*a^1", "a^1")[0] == 0;
    RemoveSpacesOfSpaceFree("*a^1");
    SingleModificationAt("a^1*a^1", "a*a^1", "a^1", "a", "", "*a^1");
  }

  lemma SquareDistributionRun3At0In()
    ensures ModificationReadable(Eq("a^1", "a"))
    ensures 0 < |SquareDistributionState3.equalities| && EdgesReadable(SquareDistributionState3.equalities[0])
    ensures !SingleModification(SquareDistributionState3.equalities[0], "a*a^1", Eq("a^1", "a"))
  {
    SquareDistributionRun3At0();
    assert |SquareDistributionState3.equalities| == 4;
    assert SquareDistributionState3.equalities[0] == "a^2";
  }

  lemma SquareDistributionRun3At1In()
    ensures ModificationReadable(Eq("a^1", "a"))
    ensures 1 < |SquareDistributionState3.equalities| && EdgesReadable(SquareDistributionState3.equalities[1])
    ensures !SingleModification(SquareDistributionState3.equalities[1], "a*a^1", Eq("a^1", "a"))
  {
    SquareDistributionRun3At1();
    assert |SquareDistributionState3.equalities| == 4;
    assert SquareDistributionState3.equalities[1] == "a^(2)";
  }

  lemma SquareDistributionRun3At2In()
    ensures ModificationReadable(Eq("a^1", "a"))
    ensures 2 < |SquareDistributionState3.equalities| && EdgesReadable(SquareDistributionState3.equalities[2])
    ensures !SingleModification(SquareDistributionState3.equalities[2], "a*a^1", Eq("a^1", "a"))
  {
    SquareDistributionRun3At2();
    assert |SquareDistributionState3.equalities| == 4;
    assert SquareDistributionState3.equalities[2] == "a^(1+1)";
  }

  lemma SquareDistributionRun3At3In()
    ensures ModificationReadable(Eq("a^1", "a"))
    ensures 3 < |SquareDistributionState3.equalities| && EdgesReadable(SquareDistributionState3.equalities[3])
    ensures SingleModification(SquareDistributionState3.equalities[3], "a*a^1", Eq("a^1", "a"))
  {
    SquareDistributionRun3At3();
    assert |SquareDistributionState3.equalities| == 4;
    assert SquareDistributionState3.equalities[3] == "a^1*a^1";
  }

  lemma SquareDistributionRun3Skipped()
    ensures ModificationReadable(Eq("a^1", "a")) && 3 < |SquareDistributionState3.equalities|
    ensures forall i :: 0 <= i < 3 ==> EdgesReadable(SquareDistributionState3.equalities[i]) && !SingleModification(SquareDistributionState3.equalities[i], "a*a^1", Eq("a^1", "a"))
  {
    EqModificationReadable("a^1", "a"); SquareDistributionRun3At3In();
    forall i | 0 <= i < 3
      ensures EdgesReadable(SquareDistributionState3.equalities[i]) && !SingleModification(SquareDistributionState3.equalities[i], "a*a^1", Eq("a^1", "a"))
    {
      if i == 0 {
        SquareDistributionRun3At0In();
      } else if i == 1 {
        SquareDistributionRun3At1In();
      } else {
        SquareDistributionRun3At2In();
      }
    }
  }

  lemma SquareDistributionRun3Found()
    requires SpaceFree(SquareDistributionState3.equalities)
    ensures ModificationReadable(Eq("a^1", "a"))
    ensures OldEquality(SquareDistributionState3.equalities, "a*a^1", Eq("a^1", "a")) == Some(3)
  {
    EqModificationReadable("a^1", "a"); SquareDistributionRun3At3In(); SquareDistributionRun3Skipped();
    OldEqualityAt(SquareDistributionState3.equalities, "a*a^1", Eq("a^1", "a"), 3);
  }

  lemma SquareDistributionRun3NewUnspaced()
    ensures RemoveSpaces("a * a^1") == "a*a^1"
  {
  }

  lemma SquareDistributionRun3Modification()
    ensures RemoveSpaces(Equation("a^1", "a")) == Eq("a^1", "a")
  {
    RemoveSpacesEquation("a^1", "a"); RemoveSpacesOfSpaceFree("a^1"); RemoveSpacesOfSpaceFree("a");
  }

  lemma SquareDistributionRun3Held()
    ensures IsHeld(AToTheOne, Eq("a^1", "a"))
  {
    IsHeldEq(AToTheOne, "a^1", "a");
  }

  lemma SquareDistributionRun3Bound()
    ensures FirstUnbound(HSquareDistribution, "a * a^1") == None
    ensures FirstUnbound(HSquareDistribution, Equation("a^1", "a")) == None
  {
    FirstUnboundNone(HSquareDistribution, "a * a^1"); FirstUnboundNone(HSquareDistribution, Equation("a^1", "a"));
  }

  lemma SquareDistributionRun3(reg: Name -> Declaration<Name>, fuel: nat)
    requires RegistryReadable(reg) && SpaceFree(SquareDistributionState3.equalities) && StepReadable(SquareDistributionProof.steps[3])
    requires reg(IdentityExponent) == IdentityExponentDeclaration
    ensures RunStep(reg, HSquareDistribution, SquareDistributionState3, SquareDistributionProof.steps[3], fuel + 1) == Ok(SquareDistributionState4)
  {
    SquareDistributionStep3(); SquareDistributionRun3NewUnspaced();
    AToTheOneConstructed(reg, fuel + 1); SquareDistributionRun3Modification(); SquareDistributionRun3Held(); SquareDistributionRun3Bound(); SquareDistributionRun3Found();
    EvolveStepOk(reg, HSquareDistribution, SquareDistributionState3, SquareDistributionProof.steps[3], fuel + 1, AToTheOne, 3, SquareDistributionState4);
  }

  lemma SquareDistributionRun4At0()
    ensures ModificationReadable(Eq("a^1", "a")) && EdgesReadable("a^2")
    ensures !SingleModification("a^2", "a*a", Eq("a^1", "a"))
  {
    EqModificationReadable("a^1", "a");
    SplitEq("a^1", "a");
    assert Occurrences("a^2", "a^1") == [];
    SingleModificationNeedsOccurrence("a^2", "a*a", Eq("a^1", "a"));
  }

  lemma SquareDistributionRun4At1()
    ensures ModificationReadable(Eq("a^1", "a")) && EdgesReadable("a^(2)")
    ensures !SingleModification("a^(2)", "a*a", Eq("a^1", "a"))
  {
    EqModificationReadable("a^1", "a");
    SplitEq("a^1", "a");
    assert Occurrences("a^(2)", "a^1") == [];
    SingleModificationNeedsOccurrence("a^(2)", "a*a", Eq("a^1", "a"));
  }

  lemma SquareDistributionRun4At2()
    ensures ModificationReadable(Eq("a^1", "a")) && EdgesReadable("a^(1+1)")
    ensures !SingleModification("a^(1+1)", "a*a", Eq("a^1", "a"))
  {
    EqModificationReadable("a^1", "a");
    SplitEq("a^1", "a");
    assert Occurrences("a^(1+1)", "a^1") == [];
    SingleModificationNeedsOccurrence("a^(1+1)", "a*a", Eq("a^1", "a"));
  }

  lemma SquareDistributionRun4At3()
    ensures ModificationReadable(Eq("a^1", "a")) && EdgesReadable("a^1*a^1")
    ensures !SingleModification("a^1*a^1", "a*a", Eq("a^1", "a"))
  {
    EqModificationReadable("a^1", "a");
    assert "a^1*a^1" == "" + "a^1" + "*a^1";
    assert "a^1*a^1" == "a^1*" + "a^1" + "";
    assert Occurrences("a^1*a^1", "a^1") == [0, 4];
    assert |"a*a"| != |"" + "a" + "*a^1"|;
    assert |"a*a"| != |"a^1*" + "a" + ""|;
    SingleModificationMissTwice("a^1*a^1", "a*a", "a^1", "a", "", "*a^1", "a^1*", "");
  }

  lemma SquareDistributionRun4At4()
    ensures ModificationReadable(Eq("a^1", "a")) && EdgesReadable("a*a^1")
    ensures SingleModification("a*a^1", "a*a", Eq("a^1", "a"))
  {
    EqModificationReadable("a^1", "a");
    assert "a*a^1" == "a*" + "a^1" + "";
    assert Occurrences("a*a^1", "a^1")[0] == 2;
    RemoveSpacesOfSpaceFree("a*");
    SingleModificationAt("a*a^1", "a*a", "a^1", "a", "a*", "");
  }

  lemma SquareDistributionRun4At0In()
    ensures ModificationReadable(Eq("a^1", "a"))
    ensures 0 < |SquareDistributionState4.equalities| && EdgesReadable(SquareDistributionState4.equalities[0])
    ensures !SingleModification(SquareDistributionState4.equalities[0], "a*a", Eq("a^1", "a"))
  {
    SquareDistributionRun4At0();
    assert |SquareDistributionState4.equalities| == 5;
    assert SquareDistributionState4.equalities[0] == "a^2";
  }

  lemma SquareDistributionRun4At1In()
    ensures ModificationReadable(Eq("a^1", "a"))
    ensures 1 < |SquareDistributionState4.equalities| && EdgesReadable(SquareDistributionState4.equalities[1])
    ensures !SingleModification(SquareDistributionState4.equalities[1], "a*a", Eq("a^1", "a"))
  {
    SquareDistributionRun4At1();
    assert |SquareDistributionState4.equalities| == 5;
    assert SquareDistributionState4.equalities[1] == "a^(2)";
  }

  lemma SquareDistributionRun4At2In()
    ensures ModificationReadable(Eq("a^1", "a"))
    ensures 2 < |SquareDistributionState4.equalities| && EdgesReadable(SquareDistributionState4.equalities[2])
    ensures !SingleModification(SquareDistributionState4.equalities[2], "a*a", Eq("a^1", "a"))
  {
    SquareDistributionRun4At2();
    assert |SquareDistributionState4.equalities| == 5;
    assert SquareDistributionState4.equalities[2] == "a^(1+1)";
  }

  lemma SquareDistributionRun4At3In()
    ensures ModificationReadable(Eq("a^1", "a"))
    ensures 3 < |SquareDistributionState4.equalities| && EdgesReadable(SquareDistributionState4.equalities[3])
    ensures !SingleModification(SquareDistributionState4.equalities[3], "a*a", Eq("a^1", "a"))
  {
    SquareDistributionRun4At3();
    assert |SquareDistributionState4.equalities| == 5;
    assert SquareDistributionState4.equalities[3] == "a^1*a^1";
  }

  lemma SquareDistributionRun4At4In()
    ensures ModificationReadable(Eq("a^1", "a"))
    ensures 4 < |SquareDistributionState4.equalities| && EdgesReadable(SquareDistributionState4.equalities[4])
    ensures SingleModification(SquareDistributionState4.equalities[4], "a*a", Eq("a^1", "a"))
  {
    SquareDistributionRun4At4();
    assert |SquareDistributionState4.equalities| == 5;
    assert SquareDistributionState4.equalities[4] == "a*a^1";
  }

  lemma SquareDistributionRun4Skipped()
    ensures ModificationReadable(Eq("a^1", "a")) && 4 < |SquareDistributionState4.equalities|
    ensures forall i :: 0 <= i < 4 ==> EdgesReadable(SquareDistributionState4.equalities[i]) && !SingleModification(SquareDistributionState4.equalities[i], "a*a", Eq("a^1", "a"))
  {
    EqModificationReadable("a^1", "a"); SquareDistributionRun4At4In();
    forall i | 0 <= i < 4
      ensures EdgesReadable(SquareDistributionState4.equalities[i]) && !SingleModification(SquareDistributionState4.equalities[i], "a*a", Eq("a^1", "a"))
    {
      if i == 0 {
        SquareDistributionRun4At0In();
      } else if i == 1 {
        SquareDistributionRun4At1In();
      } else if i == 2 {
        SquareDistributionRun4At2In();
      } else {
        SquareDistributionRun4At3In();
      }
    }
  }

  lemma SquareDistributionRun4Found()
    requires SpaceFree(SquareDistributionState4.equalities)
    ensures ModificationReadable(Eq("a^1", "a"))
    ensures OldEquality(SquareDistributionState4.equalities, "a*a", Eq("a^1", "a")) == Some(4)
  {
    EqModificationReadable("a^1", "a"); SquareDistributionRun4At4In(); SquareDistributionRun4Skipped();
    OldEqualityAt(SquareDistributionState4.equalities, "a*a", Eq("a^1", "a"), 4);
  }

  lemma SquareDistributionRun4NewUnspaced()
    ensures RemoveSpaces("a * a") == "a*a"
  {
  }

  lemma SquareDistributionRun4Modification()
    ensures RemoveSpaces(Equation("a^1", "a")) == Eq("a^1", "a")
  {
    RemoveSpacesEquation("a^1", "a"); RemoveSpacesOfSpaceFree("a^1"); RemoveSpacesOfSpaceFree("a");
  }

  lemma SquareDistributionRun4Held()
    ensures IsHeld(AToTheOne, Eq("a^1", "a"))
  {
    IsHeldEq(AToTheOne, "a^1", "a");
  }

  lemma SquareDistributionRun4Bound()
    ensures FirstUnbound(HSquareDistribution, "a * a") == None
    ensures FirstUnbound(HSquareDistribution, Equation("a^1", "a")) == None
  {
    FirstUnboundNone(HSquareDistribution, "a * a"); FirstUnboundNone(HSquareDistribution, Equation("a^1", "a"));
  }

  lemma SquareDistributionRun4(reg: Name -> Declaration<Name>, fuel: nat)
    requires RegistryReadable(reg) && SpaceFree(SquareDistributionState4.equalities) && StepReadable(SquareDistributionProof.steps[4])
    requires reg(IdentityExponent) == IdentityExponentDeclaration
    ensures RunStep(reg, HSquareDistribution, SquareDistributionState4, SquareDistributionProof.steps[4], fuel + 1) == Ok(SquareDistributionState5)
  {
    SquareDistributionStep4(); SquareDistributionRun4NewUnspaced();
    AToTheOneConstructed(reg, fuel + 1); SquareDistributionRun4Modification(); SquareDistributionRun4Held(); SquareDistributionRun4Bound(); SquareDistributionRun4Found();
    EvolveStepOk(reg, HSquareDistribution, SquareDistributionState4, SquareDistributionProof.steps[4], fuel + 1, AToTheOne, 4, SquareDistributionState5);
  }

  lemma SquareDistributionRun5(reg: Name -> Declaration<Name>, fuel: nat)
    requires RegistryReadable(reg) && SpaceFree(SquareDistributionState5.equalities) && StepReadable(SquareDistributionProof.steps[5])
    ensures RunStep(reg, HSquareDistribution, SquareDistributionState5, SquareDistributionProof.steps[5], fuel + 1) == Ok(SquareDistributionState6)
  {
    assert SquareDistributionState5.equalities[0] == SquareDistributionState5.conclusionAim[0];
    assert SquareDistributionState5.equalities[5] == SquareDistributionState5.conclusionAim[1];
    ConcludeStepOk(reg, HSquareDistribution, SquareDistributionState5, SquareDistributionProof.steps[5], fuel + 1, 0, 5);
  }

  lemma SquareDistributionRunsFrom6(reg: Name -> Declaration<Name>, fuel: nat)
    requires RegistryReadable(reg) && SpaceFree(SquareDistributionState6.equalities) && |SquareDistributionState6.conclusionAim| == 2
    requires StepsReadable(SquareDistributionProof.steps[6..])
    requires reg(Addition) == AdditionDeclaration && reg(IdentityExponent) == IdentityExponentDeclaration && reg(PowerDistribution) == PowerDistributionDeclaration && reg(RemovalOfParenthesis) == RemovalOfParenthesisDeclaration
    ensures RunSteps(reg, HSquareDistribution, SquareDistributionState6, SquareDistributionProof.steps[6..], fuel + 1) == Ok(SquareDistributionState6)
  {
    assert SquareDistributionProof.steps[6..] == [];
  }

  lemma SquareDistributionRunsFrom5(reg: Name -> Declaration<Name>, fuel: nat)
    requires RegistryReadable(reg) && SpaceFree(SquareDistributionState5.equalities) && |SquareDistributionState5.conclusionAim| == 2
    requires StepsReadable(SquareDistributionProof.steps[5..])
    requires reg(Addition) == AdditionDeclaration && reg(IdentityExponent) == IdentityExponentDeclaration && reg(PowerDistribution) == PowerDistributionDeclaration && reg(RemovalOfParenthesis) == RemovalOfParenthesisDeclaration
    ensures RunSteps(reg, HSquareDistribution, SquareDistributionState5, SquareDistributionProof.steps[5..], fuel + 1) == Ok(SquareDistributionState6)
  {
    var s := SquareDistributionProof.steps[5..];
    assert s[0] == SquareDistributionProof.steps[5];
    SquareDistributionRun5(reg, fuel); RunStepsCons(reg, HSquareDistribution, SquareDistributionState5, s, fuel + 1, SquareDistributionState6);
    assert s[1..] == SquareDistributionProof.steps[6..];
    SquareDistributionRunsFrom6(reg, fuel);
  }

  lemma SquareDistributionRunsFrom4(reg: Name -> Declaration<Name>, fuel: nat)
    requires RegistryReadable(reg) && SpaceFree(SquareDistributionState4.equalities) && |SquareDistributionState4.conclusionAim| == 2
    requires StepsReadable(SquareDistributionProof.steps[4..])
    requires reg(Addition) == AdditionDeclaration && reg(IdentityExponent) == IdentityExponentDeclaration && reg(PowerDistribution) == PowerDistributionDeclaration && reg(RemovalOfParenthesis) == RemovalOfParenthesisDeclaration
    ensures RunSteps(reg, HSquareDistribution, SquareDistributionState4, SquareDistributionProof.steps[4..], fuel + 1) == Ok(SquareDistributionState6)
  {
    var s := SquareDistributionProof.steps[4..];
    assert s[0] == SquareDistributionProof.steps[4];
    SquareDistributionRun4(reg, fuel); RunStepsCons(reg, HSquareDistribution, SquareDistributionState4, s, fuel + 1, SquareDistributionState5);
    assert s[1..] == SquareDistributionProof.steps[5..];
    SquareDistributionRunsFrom5(reg, fuel);
  }

  lemma SquareDistributionRunsFrom3(reg: Name -> Declaration<Name>, fuel: nat)
    requires RegistryReadable(reg) && SpaceFree(SquareDistributionState3.equalities) && |SquareDistributionState3.conclusionAim| == 2
    requires StepsReadable(SquareDistributionProof.steps[3..])
    requires reg(Addition) == AdditionDeclaration && reg(IdentityExponent) == IdentityExponentDeclaration && reg(PowerDistribution) == PowerDistributionDeclaration && reg(RemovalOfParenthesis) == RemovalOfParenthesisDeclaration
    ensures RunSteps(reg, HSquareDistribution, SquareDistributionState3, SquareDistributionProof.steps[3..], fuel + 1) == Ok(SquareDistributionState6)
  {
    var s := SquareDistributionProof.steps[3..];
    assert s[0] == SquareDistributionProof.steps[3];
    SquareDistributionRun3(reg, fuel); RunStepsCons(reg, HSquareDistribution, SquareDistributionState3, s, fuel + 1, SquareDistributionState4);
    assert s[1..] == SquareDistributionProof.steps[4..];
    SquareDistributionRunsFrom4(reg, fuel);
  }

  lemma SquareDistributionRunsFrom2(reg: Name -> Declaration<Name>, fuel: nat)
    requires RegistryReadable(reg) && SpaceFree(SquareDistributionState2.equalities) && |SquareDistributionState2.conclusionAim| == 2
    requires StepsReadable(SquareDistributionProof.steps[2..])
    requires reg(Addition) == AdditionDeclaration && reg(IdentityExponent) == IdentityExponentDeclaration && reg(PowerDistribution) == PowerDistributionDeclaration && reg(RemovalOfParenthesis) == RemovalOfParenthesisDeclaration
    ensures RunSteps(reg, HSquareDistribution, SquareDistributionState2, SquareDistributionProof.steps[2..], fuel + 1) == Ok(SquareDistributionState6)
  {
    var s := SquareDistributionProof.steps[2..];
    assert s[0] == SquareDistributionProof.steps[2];
    SquareDistributionRun2(reg, fuel); RunStepsCons(reg, HSquareDistribution, SquareDistributionState2, s, fuel + 1, SquareDistributionState3);
    assert s[1..] == SquareDistributionProof.steps[3..];
    SquareDistributionRunsFrom3(reg, fuel);
  }

  lemma SquareDistributionRunsFrom1(reg: Name -> Declaration<Name>, fuel: nat)
    requires RegistryReadable(reg) && SpaceFree(SquareDistributionState1.equalities) && |SquareDistributionState1.conclusionAim| == 2
    requires StepsReadable(SquareDistributionProof.steps[1..])
    requires reg(Addition) == AdditionDeclaration && reg(IdentityExponent) == IdentityExponentDeclaration && reg(PowerDistribution) == PowerDistributionDeclaration && reg(RemovalOfParenthesis) == RemovalOfParenthesisDeclaration
    ensures RunSteps(reg, HSquareDistribution, SquareDistributionState1, SquareDistributionProof.steps[1..], fuel + 1) == Ok(SquareDistributionState6)
  {
    var s := SquareDistributionProof.steps[1..];
    assert s[0] == SquareDistributionProof.steps[1];
    SquareDistributionRun1(reg, fuel); RunStepsCons(reg, HSquareDistribution, SquareDistributionState1, s, fuel + 1, SquareDistributionState2);
    assert s[1..] == SquareDistributionProof.steps[2..];
    SquareDistributionRunsFrom2(reg, fuel);
  }

  lemma SquareDistributionRunsFrom0(reg: Name -> Declaration<Name>, fuel: nat)
    requires RegistryReadable(reg) && SpaceFree(SquareDistributionState0.equalities) && |SquareDistributionState0.conclusionAim| == 2
    requires StepsReadable(SquareDistributionProof.steps)
    requires reg(Addition) == AdditionDeclaration && reg(IdentityExponent) == IdentityExponentDeclaration && reg(PowerDistribution) == PowerDistributionDeclaration && reg(RemovalOfParenthesis) == RemovalOfParenthesisDeclaration
    ensures RunSteps(reg, HSquareDistribution, SquareDistributionState0, SquareDistributionProof.steps, fuel + 1) == Ok(SquareDistributionState6)
  {
    var s := SquareDistributionProof.steps;
    assert s[0] == SquareDistributionProof.steps[0];
    SquareDistributionRun0(reg, fuel); RunStepsCons(reg, HSquareDistribution, SquareDistributionState0, s, fuel + 1, SquareDistributionState1);
    assert s[1..] == SquareDistributionProof.steps[1..];
    SquareDistributionRunsFrom1(reg, fuel);
  }

  lemma SquareDistributionBuilt(reg: Name -> Declaration<Name>, fuel: nat)
    requires RegistryReadable(reg) && |Split(RemoveSpaces(HSquareDistribution.conclusion), "=")| == 2
    requires StepsReadable(SquareDistributionProof.steps)
    requires reg(Addition) == AdditionDeclaration && reg(IdentityExponent) == IdentityExponentDeclaration && reg(PowerDistribution) == PowerDistributionDeclaration && reg(RemovalOfParenthesis) == RemovalOfParenthesisDeclaration
    ensures BuildProof(reg, HSquareDistribution, Some(SquareDistributionProof), fuel + 2) == Ok(Some(SquareDistributionState6))
  {
    SquareDistributionStarted(); SquareDistributionRunsFrom0(reg, fuel);
  }
}
