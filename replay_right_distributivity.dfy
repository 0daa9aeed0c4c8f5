/*
 * The proof script of RightDistributivity, step by step.
 */
module RightDistributivityReplay {
  import opened Wrappers
  import opened TextGestion
  import opened Theorems
  import opened Proofs
  import opened Construction
  import opened TheoremSet
  import opened ReplayHeaders

  /** ProductCommutativity(['(a+b)', 'c']), as cited by the proof of RightDistributivity. */
  const CommuteSumAndC := Theorem(HProductCommutativity, None, "(a+b)*c", "c*(a+b)")

  lemma CommuteSumAndCBindings()
    ensures Bindings(HProductCommutativity, ["(a+b)", "c"]) == Ok([('a', "(a+b)"), ('b', "c")])
  {
    RemoveSpacesOfSpaceFree("(a+b)");
    RemoveSpacesOfSpaceFree("c");
    assert BindUnknowns([], ["a", "b"], ["(a+b)", "c"]) == [('a', "(a+b)"), ('b', "c")];
  }

  lemma CommuteSumAndCParameters()
    ensures ParametersReadable(["(a+b)", "c"]) && Parameters(HProductCommutativity, Some(["(a+b)", "c"])) == Ok(["(a+b)", "c"])
  {
    UnspacedReadable(["(a+b)", "c"]);
  }

  lemma CommuteSumAndCLeftSubstituted()
    ensures Substitute("a*b", [('a', "(a+b)"), ('b', "c")]) == "(a+b)*c"
  {
    var dict := [('a', "(a+b)"), ('b', "c")];
    assert Substitute("b", dict) == "c";
    assert Substitute("*b", dict) == "*c";
    assert Substitute("a*b", dict) == "(a+b)*c";
  }

  lemma CommuteSumAndCRightSubstituted()
    ensures Substitute("b*a", [('a', "(a+b)"), ('b', "c")]) == "c*(a+b)"
  {
    var dict := [('a', "(a+b)"), ('b', "c")];
    assert Substitute("a", dict) == "(a+b)";
    assert Substitute("*a", dict) == "*(a+b)";
    assert Substitute("b*a", dict) == "c*(a+b)";
  }

  lemma CommuteSumAndCLeftFormed()
    ensures WellFormed("(a+b)*c")
  {
    RemoveSpacesOfSpaceFree("(a+b)*c");
  }

  lemma CommuteSumAndCRightFormed()
    ensures WellFormed("c*(a+b)")
  {
    RemoveSpacesOfSpaceFree("c*(a+b)");
  }

  lemma CommuteSumAndCValues()
    ensures NoSpaces("(a+b)*c") && NoSpaces("c*(a+b)") && ValuesReadable([('a', "(a+b)"), ('b', "c")])
  {
  }

  lemma CommuteSumAndCLeftOrdered()
    ensures SideOrderOk("(a+b)*c", [('a', "(a+b)"), ('b', "c")])
  {
    CommuteSumAndCValues();
    SimpleValuesOrderOk("(a+b)*c", [('a', "(a+b)"), ('b', "c")]);
  }

  lemma CommuteSumAndCRightOrdered()
    ensures SideOrderOk("c*(a+b)", [('a', "(a+b)"), ('b', "c")])
  {
    CommuteSumAndCValues();
    SimpleValuesOrderOk("c*(a+b)", [('a', "(a+b)"), ('b', "c")]);
  }

  lemma CommuteSumAndCSides()
    ensures ValidNames(HProductCommutativity) && ConclusionReadable(HProductCommutativity) && ParametersReadable(["(a+b)", "c"])
    ensures InstantiateSides(HProductCommutativity, Some(["(a+b)", "c"])) == Ok(("(a+b)*c", "c*(a+b)"))
  {
    ProductCommutativityNames(); ProductCommutativitySymbolic(); ProductCommutativityLeftFormed(); ProductCommutativityRightFormed();
    CommuteSumAndCBindings(); CommuteSumAndCParameters(); CommuteSumAndCLeftSubstituted(); CommuteSumAndCRightSubstituted();
    CommuteSumAndCLeftFormed(); CommuteSumAndCRightFormed(); CommuteSumAndCValues(); CommuteSumAndCLeftOrdered(); CommuteSumAndCRightOrdered();
    InstantiateSidesOf(HProductCommutativity, Some(["(a+b)", "c"]), ["(a+b)", "c"], "a*b", "b*a", [('a', "(a+b)"), ('b', "c")], "(a+b)*c", "c*(a+b)");
  }

  lemma CommuteSumAndCConstructed(reg: Name -> Declaration<Name>, fuel: nat)
    requires RegistryReadable(reg)
    ensures DeclarationReadable(ProductCommutativityDeclaration) && ParametersReadable(["(a+b)", "c"])
    ensures Instantiate(reg, ProductCommutativityDeclaration, Some(["(a+b)", "c"]), fuel) == Ok(CommuteSumAndC)
  {
    ProductCommutativityDeclared(); CommuteSumAndCSides();
    AxiomInstanceOf(reg, ProductCommutativityDeclaration, HProductCommutativity, Some(["(a+b)", "c"]), fuel, "(a+b)*c", "c*(a+b)");
  }

  /** LeftDistributivity(['c', 'a', 'b']), as cited by the proof of RightDistributivity. */
  const DistributeC := Theorem(HLeftDistributivity, None, "c*(a+b)", "c*a+c*b")

  lemma DistributeCBindings()
    ensures Bindings(HLeftDistributivity, ["c", "a", "b"]) == Ok([('a', "c"), ('b', "a"), ('c', "b")])
  {
    RemoveSpacesOfSpaceFree("c");
    RemoveSpacesOfSpaceFree("a");
    RemoveSpacesOfSpaceFree("b");
    assert BindUnknowns([], ["a", "b", "c"], ["c", "a", "b"]) == [('a', "c"), ('b', "a"), ('c', "b")];
  }

  lemma DistributeCParameters()
    ensures ParametersReadable(["c", "a", "b"]) && Parameters(HLeftDistributivity, Some(["c", "a", "b"])) == Ok(["c", "a", "b"])
  {
    UnspacedReadable(["c", "a", "b"]);
  }

  lemma DistributeCLeftSubstituted()
    ensures Substitute("a*(b+c)", [('a', "c"), ('b', "a"), ('c', "b")]) == "c*(a+b)"
  {
    var dict := [('a', "c"), ('b', "a"), ('c', "b")];
    assert Substitute(")", dict) == ")";
    assert Substitute("c)", dict) == "b)";
    assert Substitute("+c)", dict) == "+b)";
    assert Substitute("b+c)", dict) == "a+b)";
    assert Substitute("(b+c)", dict) == "(a+b)";
    assert Substitute("*(b+c)", dict) == "*(a+b)";
    assert Substitute("a*(b+c)", dict) == "c*(a+b)";
  }

  lemma DistributeCRightSubstituted()
    ensures Substitute("a*b+a*c", [('a', "c"), ('b', "a"), ('c', "b")]) == "c*a+c*b"
  {
    var dict := [('a', "c"), ('b', "a"), ('c', "b")];
    assert Substitute("c", dict) == "b";
    assert Substitute("*c", dict) == "*b";
    assert Substitute("a*c", dict) == "c*b";
    assert Substitute("+a*c", dict) == "+c*b";
    assert Substitute("b+a*c", dict) == "a+c*b";
    assert Substitute("*b+a*c", dict) == "*a+c*b";
    assert Substitute("a*b+a*c", dict) == "c*a+c*b";
  }

  lemma DistributeCLeftFormed()
    ensures WellFormed("c*(a+b)")
  {
    RemoveSpacesOfSpaceFree("c*(a+b)");
  }

  lemma DistributeCRightFormed()
    ensures WellFormed("c*a+c*b")
  {
    RemoveSpacesOfSpaceFree("c*a+c*b");
  }

  lemma DistributeCValues()
    ensures NoSpaces("c*(a+b)") && NoSpaces("c*a+c*b") && ValuesReadable([('a', "c"), ('b', "a"), ('c', "b")])
  {
  }

  lemma DistributeCLeftOrdered()
    ensures SideOrderOk("c*(a+b)", [('a', "c"), ('b', "a"), ('c', "b")])
  {
    DistributeCValues();
    SimpleValuesOrderOk("c*(a+b)", [('a', "c"), ('b', "a"), ('c', "b")]);
  }

  lemma DistributeCRightOrdered()
    ensures SideOrderOk("c*a+c*b", [('a', "c"), ('b', "a"), ('c', "b")])
  {
    DistributeCValues();
    SimpleValuesOrderOk("c*a+c*b", [('a', "c"), ('b', "a"), ('c', "b")]);
  }

  lemma DistributeCSides()
    ensures ValidNames(HLeftDistributivity) && ConclusionReadable(HLeftDistributivity) && ParametersReadable(["c", "a", "b"])
    ensures InstantiateSides(HLeftDistributivity, Some(["c", "a", "b"])) == Ok(("c*(a+b)", "c*a+c*b"))
  {
    LeftDistributivityNames(); LeftDistributivitySymbolic(); LeftDistributivityLeftFormed(); LeftDistributivityRightFormed();
    DistributeCBindings(); DistributeCParameters(); DistributeCLeftSubstituted(); DistributeCRightSubstituted();
    DistributeCLeftFormed(); DistributeCRightFormed(); DistributeCValues(); DistributeCLeftOrdered(); DistributeCRightOrdered();
    InstantiateSidesOf(HLeftDistributivity, Some(["c", "a", "b"]), ["c", "a", "b"], "a*(b+c)", "a*b+a*c", [('a', "c"), ('b', "a"), ('c', "b")], "c*(a+b)", "c*a+c*b");
  }

  lemma DistributeCConstructed(reg: Name -> Declaration<Name>, fuel: nat)
    requires RegistryReadable(reg)
    ensures DeclarationReadable(LeftDistributivityDeclaration) && ParametersReadable(["c", "a", "b"])
    ensures Instantiate(reg, LeftDistributivityDeclaration, Some(["c", "a", "b"]), fuel) == Ok(DistributeC)
  {
    LeftDistributivityDeclared(); DistributeCSides();
    AxiomInstanceOf(reg, LeftDistributivityDeclaration, HLeftDistributivity, Some(["c", "a", "b"]), fuel, "c*(a+b)", "c*a+c*b");
  }

  /** ProductCommutativity(['c', 'a']), as cited by the proof of RightDistributivity. */
  const CommuteCAndA := Theorem(HProductCommutativity, None, "c*a", "a*c")

  lemma CommuteCAndABindings()
    ensures Bindings(HProductCommutativity, ["c", "a"]) == Ok([('a', "c"), ('b', "a")])
  {
    RemoveSpacesOfSpaceFree("c");
    RemoveSpacesOfSpaceFree("a");
    assert BindUnknowns([], ["a", "b"], ["c", "a"]) == [('a', "c"), ('b', "a")];
  }

  lemma CommuteCAndAParameters()
    ensures ParametersReadable(["c", "a"]) && Parameters(HProductCommutativity, Some(["c", "a"])) == Ok(["c", "a"])
  {
    UnspacedReadable(["c", "a"]);
  }

  lemma CommuteCAndALeftSubstituted()
    ensures Substitute("a*b", [('a', "c"), ('b', "a")]) == "c*a"
  {
    var dict := [('a', "c"), ('b', "a")];
    assert Substitute("b", dict) == "a";
    assert Substitute("*b", dict) == "*a";
    assert Substitute("a*b", dict) == "c*a";
  }

  lemma CommuteCAndARightSubstituted()
    ensures Substitute("b*a", [('a', "c"), ('b', "a")]) == "a*c"
  {
    var dict := [('a', "c"), ('b', "a")];
    assert Substitute("a", dict) == "c";
    assert Substitute("*a", dict) == "*c";
    assert Substitute("b*a", dict) == "a*c";
  }

  lemma CommuteCAndALeftFormed()
    ensures WellFormed("c*a")
  {
    RemoveSpacesOfSpaceFree("c*a");
  }

  lemma CommuteCAndARightFormed()
    ensures WellFormed("a*c")
  {
    RemoveSpacesOfSpaceFree("a*c");
  }

  lemma CommuteCAndAValues()
    ensures NoSpaces("c*a") && NoSpaces("a*c") && ValuesReadable([('a', "c"), ('b', "a")])
  {
  }

  lemma CommuteCAndALeftOrdered()
    ensures SideOrderOk("c*a", [('a', "c"), ('b', "a")])
  {
    CommuteCAndAValues();
    SimpleValuesOrderOk("c*a", [('a', "c"), ('b', "a")]);
  }

  lemma CommuteCAndARightOrdered()
    ensures SideOrderOk("a*c", [('a', "c"), ('b', "a")])
  {
    CommuteCAndAValues();
    SimpleValuesOrderOk("a*c", [('a', "c"), ('b', "a")]);
  }

  lemma CommuteCAndASides()
    ensures ValidNames(HProductCommutativity) && ConclusionReadable(HProductCommutativity) && ParametersReadable(["c", "a"])
    ensures InstantiateSides(HProductCommutativity, Some(["c", "a"])) == Ok(("c*a", "a*c"))
  {
    ProductCommutativityNames(); ProductCommutativitySymbolic(); ProductCommutativityLeftFormed(); ProductCommutativityRightFormed();
    CommuteCAndABindings(); CommuteCAndAParameters(); CommuteCAndALeftSubstituted(); CommuteCAndARightSubstituted();
    CommuteCAndALeftFormed(); CommuteCAndARightFormed(); CommuteCAndAValues(); CommuteCAndALeftOrdered(); CommuteCAndARightOrdered();
    InstantiateSidesOf(HProductCommutativity, Some(["c", "a"]), ["c", "a"], "a*b", "b*a", [('a', "c"), ('b', "a")], "c*a", "a*c");
  }

  lemma CommuteCAndAConstructed(reg: Name -> Declaration<Name>, fuel: nat)
    requires RegistryReadable(reg)
    ensures DeclarationReadable(ProductCommutativityDeclaration) && ParametersReadable(["c", "a"])
    ensures Instantiate(reg, ProductCommutativityDeclaration, Some(["c", "a"]), fuel) == Ok(CommuteCAndA)
  {
    ProductCommutativityDeclared(); CommuteCAndASides();
    AxiomInstanceOf(reg, ProductCommutativityDeclaration, HProductCommutativity, Some(["c", "a"]), fuel, "c*a", "a*c");
  }

  /** ProductCommutativity(['b', 'c']), as cited by the proof of RightDistributivity. */
  const CommuteBAndC := Theorem(HProductCommutativity, None, "b*c", "c*b")

  lemma CommuteBAndCBindings()
    ensures Bindings(HProductCommutativity, ["b", "c"]) == Ok([('a', "b"), ('b', "c")])
  {
    RemoveSpacesOfSpaceFree("b");
    RemoveSpacesOfSpaceFree("c");
    assert BindUnknowns([], ["a", "b"], ["b", "c"]) == [('a', "b"), ('b', "c")];
  }

  lemma CommuteBAndCParameters()
    ensures ParametersReadable(["b", "c"]) && Parameters(HProductCommutativity, Some(["b", "c"])) == Ok(["b", "c"])
  {
    UnspacedReadable(["b", "c"]);
  }

  lemma CommuteBAndCLeftSubstituted()
    ensures Substitute("a*b", [('a', "b"), ('b', "c")]) == "b*c"
  {
    var dict := [('a', "b"), ('b', "c")];
    assert Substitute("b", dict) == "c";
    assert Substitute("*b", dict) == "*c";
    assert Substitute("a*b", dict) == "b*c";
  }

  lemma CommuteBAndCRightSubstituted()
    ensures Substitute("b*a", [('a', "b"), ('b', "c")]) == "c*b"
  {
    var dict := [('a', "b"), ('b', "c")];
    assert Substitute("a", dict) == "b";
    assert Substitute("*a", dict) == "*b";
    assert Substitute("b*a", dict) == "c*b";
  }

  lemma CommuteBAndCLeftFormed()
    ensures WellFormed("b*c")
  {
    RemoveSpacesOfSpaceFree("b*c");
  }

  lemma CommuteBAndCRightFormed()
    ensures WellFormed("c*b")
  {
    RemoveSpacesOfSpaceFree("c*b");
  }

  lemma CommuteBAndCValues()
    ensures NoSpaces("b*c") && NoSpaces("c*b") && ValuesReadable([('a', "b"), ('b', "c")])
  {
  }

  lemma CommuteBAndCLeftOrdered()
    ensures SideOrderOk("b*c", [('a', "b"), ('b', "c")])
  {
    CommuteBAndCValues();
    SimpleValuesOrderOk("b*c", [('a', "b"), ('b', "c")]);
  }

  lemma CommuteBAndCRightOrdered()
    ensures SideOrderOk("c*b", [('a', "b"), ('b', "c")])
  {
    CommuteBAndCValues();
    SimpleValuesOrderOk("c*b", [('a', "b"), ('b', "c")]);
  }

  lemma CommuteBAndCSides()
    ensures ValidNames(HProductCommutativity) && ConclusionReadable(HProductCommutativity) && ParametersReadable(["b", "c"])
    ensures InstantiateSides(HProductCommutativity, Some(["b", "c"])) == Ok(("b*c", "c*b"))
  {
    ProductCommutativityNames(); ProductCommutativitySymbolic(); ProductCommutativityLeftFormed(); ProductCommutativityRightFormed();
    CommuteBAndCBindings(); CommuteBAndCParameters(); CommuteBAndCLeftSubstituted(); CommuteBAndCRightSubstituted();
    CommuteBAndCLeftFormed(); CommuteBAndCRightFormed(); CommuteBAndCValues(); CommuteBAndCLeftOrdered(); CommuteBAndCRightOrdered();
    InstantiateSidesOf(HProductCommutativity, Some(["b", "c"]), ["b", "c"], "a*b", "b*a", [('a', "b"), ('b', "c")], "b*c", "c*b");
  }

  lemma CommuteBAndCConstructed(reg: Name -> Declaration<Name>, fuel: nat)
    requires RegistryReadable(reg)
    ensures DeclarationReadable(ProductCommutativityDeclaration) && ParametersReadable(["b", "c"])
    ensures Instantiate(reg, ProductCommutativityDeclaration, Some(["b", "c"]), fuel) == Ok(CommuteBAndC)
  {
    ProductCommutativityDeclared(); CommuteBAndCSides();
    AxiomInstanceOf(reg, ProductCommutativityDeclaration, HProductCommutativity, Some(["b", "c"]), fuel, "b*c", "c*b");
  }

  const RightDistributivityState0 := ProofRecord(["(a+b)*c", "a*c+b*c"], ["(a+b)*c"], [], false)
  const RightDistributivityState1 := RightDistributivityState0.(equalities := RightDistributivityState0.equalities + ["c*(a+b)"], dependencies := RightDistributivityState0.dependencies + [CommuteSumAndC])
  const RightDistributivityState2 := RightDistributivityState1.(equalities := RightDistributivityState1.equalities + ["c*a+c*b"], dependencies := RightDistributivityState1.dependencies + [DistributeC])
  const RightDistributivityState3 := RightDistributivityState2.(equalities := RightDistributivityState2.equalities + ["a*c+c*b"], dependencies := RightDistributivityState2.dependencies + [CommuteCAndA])
  const RightDistributivityState4 := RightDistributivityState3.(equalities := RightDistributivityState3.equalities + ["a*c+b*c"], dependencies := RightDistributivityState3.dependencies + [CommuteBAndC])
  const RightDistributivityState5 := RightDistributivityState4.(isFinished := true)

  lemma RightDistributivityStarted()
    ensures StartRecord(HRightDistributivity, "(a + b)*c") == Ok(RightDistributivityState0)
    ensures SpaceFree(RightDistributivityState0.equalities) && |RightDistributivityState0.conclusionAim| == 2
  {
    FirstUnboundNone(HRightDistributivity, "(a + b)*c"); RightDistributivityLeftUnspaced(); RightDistributivitySymbolic();
  }

  lemma RightDistributivityRun0At0()
    ensures ModificationReadable(Eq("(a+b)*c", "c*(a+b)")) && EdgesReadable("(a+b)*c")
    ensures SingleModification("(a+b)*c", "c*(a+b)", Eq("(a+b)*c", "c*(a+b)"))
  {
    EqModificationReadable("(a+b)*c", "c*(a+b)");
    assert "(a+b)*c" == "" + "(a+b)*c" + "";
    assert Occurrences("(a+b)*c", "(a+b)*c")[0] == 0;
    SingleModificationAt("(a+b)*c", "c*(a+b)", "(a+b)*c", "c*(a+b)", "", "");
  }

  lemma RightDistributivityRun0At0In()
    ensures ModificationReadable(Eq("(a+b)*c", "c*(a+b)"))
    ensures 0 < |RightDistributivityState0.equalities| && EdgesReadable(RightDistributivityState0.equalities[0])
    ensures SingleModification(RightDistributivityState0.equalities[0], "c*(a+b)", Eq("(a+b)*c", "c*(a+b)"))
  {
    RightDistributivityRun0At0();
    assert |RightDistributivityState0.equalities| == 1;
    assert RightDistributivityState0.equalities[0] == "(a+b)*c";
  }

  lemma RightDistributivityRun0Found()
    requires SpaceFree(RightDistributivityState0.equalities)
    ensures ModificationReadable(Eq("(a+b)*c", "c*(a+b)"))
    ensures OldEquality(RightDistributivityState0.equalities, "c*(a+b)", Eq("(a+b)*c", "c*(a+b)")) == Some(0)
  {
    EqModificationReadable("(a+b)*c", "c*(a+b)"); RightDistributivityRun0At0In();
    OldEqualityAt(RightDistributivityState0.equalities, "c*(a+b)", Eq("(a+b)*c", "c*(a+b)"), 0);
  }

  lemma RightDistributivityRun0NewUnspaced()
    ensures RemoveSpaces("c*(a + b)") == "c*(a+b)"
  {
  }

  lemma RightDistributivityRun0Modification()
    ensures RemoveSpaces(Equation("(a + b)*c", "c*(a + b)")) == Eq("(a+b)*c", "c*(a+b)")
  {
    RemoveSpacesEquation("(a + b)*c", "c*(a + b)"); RightDistributivityLeftUnspaced(); RightDistributivityRun0NewUnspaced();
  }

  lemma RightDistributivityRun0Held()
    ensures IsHeld(CommuteSumAndC, Eq("(a+b)*c", "c*(a+b)"))
  {
    IsHeldEq(CommuteSumAndC, "(a+b)*c", "c*(a+b)");
  }

  lemma RightDistributivityRun0Bound()
    ensures FirstUnbound(HRightDistributivity, "c*(a + b)") == None
    ensures FirstUnbound(HRightDistributivity, Equation("(a + b)*c", "c*(a + b)")) == None
  {
    FirstUnboundNone(HRightDistributivity, "c*(a + b)"); FirstUnboundNone(HRightDistributivity, Equation("(a + b)*c", "c*(a + b)"));
  }

  lemma RightDistributivityRun0(reg: Name -> Declaration<Name>, fuel: nat)
    requires RegistryReadable(reg) && SpaceFree(RightDistributivityState0.equalities) && StepReadable(RightDistributivityProof.steps[0])
    requires reg(ProductCommutativity) == ProductCommutativityDeclaration
    ensures RunStep(reg, HRightDistributivity, RightDistributivityState0, RightDistributivityProof.steps[0], fuel) == Ok(RightDistributivityState1)
  {
    RightDistributivityStep0(); RightDistributivityRun0NewUnspaced();
    CommuteSumAndCConstructed(reg, fuel); RightDistributivityRun0Modification(); RightDistributivityRun0Held(); RightDistributivityRun0Bound(); RightDistributivityRun0Found();
    EvolveStepOk(reg, HRightDistributivity, RightDistributivityState0, RightDistributivityProof.steps[0], fuel, CommuteSumAndC, 0, RightDistributivityState1);
  }

  lemma RightDistributivityRun1At0()
    ensures ModificationReadable(Eq("c*(a+b)", "c*a+c*b")) && EdgesReadable("(a+b)*c")
    ensures !SingleModification("(a+b)*c", "c*a+c*b", Eq("c*(a+b)", "c*a+c*b"))
  {
    EqModificationReadable("c*(a+b)", "c*a+c*b");
    SplitEq("c*(a+b)", "c*a+c*b");
    assert Occurrences("(a+b)*c", "c*(a+b)") == [];
    SingleModificationNeedsOccurrence("(a+b)*c", "c*a+c*b", Eq("c*(a+b)", "c*a+c*b"));
  }

  lemma RightDistributivityRun1At1()
    ensures ModificationReadable(Eq("c*(a+b)", "c*a+c*b")) && EdgesReadable("c*(a+b)")
    ensures SingleModification("c*(a+b)", "c*a+c*b", Eq("c*(a+b)", "c*a+c*b"))
  {
    EqModificationReadable("c*(a+b)", "c*a+c*b");
    assert "c*(a+b)" == "" + "c*(a+b)" + "";
    assert Occurrences("c*(a+b)", "c*(a+b)")[0] == 0;
    SingleModificationAt("c*(a+b)", "c*a+c*b", "c*(a+b)", "c*a+c*b", "", "");
  }

  lemma RightDistributivityRun1At0In()
    ensures ModificationReadable(Eq("c*(a+b)", "c*a+c*b"))
    ensures 0 < |RightDistributivityState1.equalities| && EdgesReadable(RightDistributivityState1.equalities[0])
    ensures !SingleModification(RightDistributivityState1.equalities[0], "c*a+c*b", Eq("c*(a+b)", "c*a+c*b"))
  {
    RightDistributivityRun1At0();
    assert |RightDistributivityState1.equalities| == 2;
    assert RightDistributivityState1.equalities[0] == "(a+b)*c";
  }

  lemma RightDistributivityRun1At1In()
    ensures ModificationReadable(Eq("c*(a+b)", "c*a+c*b"))
    ensures 1 < |RightDistributivityState1.equalities| && EdgesReadable(RightDistributivityState1.equalities[1])
    ensures SingleModification(RightDistributivityState1.equalities[1], "c*a+c*b", Eq("c*(a+b)", "c*a+c*b"))
  {
    RightDistributivityRun1At1();
    assert |RightDistributivityState1.equalities| == 2;
    assert RightDistributivityState1.equalities[1] == "c*(a+b)";
  }

  lemma RightDistributivityRun1Skipped()
    ensures ModificationReadable(Eq("c*(a+b)", "c*a+c*b")) && 1 < |RightDistributivityState1.equalities|
    ensures forall i :: 0 <= i < 1 ==> EdgesReadable(RightDistributivityState1.equalities[i]) && !SingleModification(RightDistributivityState1.equalities[i], "c*a+c*b", Eq("c*(a+b)", "c*a+c*b"))
  {
    EqModificationReadable("c*(a+b)", "c*a+c*b"); RightDistributivityRun1At1In();
    forall i | 0 <= i < 1
      ensures EdgesReadable(RightDistributivityState1.equalities[i]) && !SingleModification(RightDistributivityState1.equalities[i], "c*a+c*b", Eq("c*(a+b)", "c*a+c*b"))
    {
      RightDistributivityRun1At0In();
    }
  }

  lemma RightDistributivityRun1Found()
    requires SpaceFree(RightDistributivityState1.equalities)
    ensures ModificationReadable(Eq("c*(a+b)", "c*a+c*b"))
    ensures OldEquality(RightDistributivityState1.equalities, "c*a+c*b", Eq("c*(a+b)", "c*a+c*b")) == Some(1)
  {
    EqModificationReadable("c*(a+b)", "c*a+c*b"); RightDistributivityRun1At1In(); RightDistributivityRun1Skipped();
    OldEqualityAt(RightDistributivityState1.equalities, "c*a+c*b", Eq("c*(a+b)", "c*a+c*b"), 1);
  }

  lemma RightDistributivityRun1NewUnspaced()
    ensures RemoveSpaces("c*a + c*b") == "c*a+c*b"
  {
  }

  lemma RightDistributivityRun1Modification()
    ensures RemoveSpaces(Equation("c*(a + b)", "c*a + c*b")) == Eq("c*(a+b)", "c*a+c*b")
  {
    RemoveSpacesEquation("c*(a + b)", "c*a + c*b"); RightDistributivityRun0NewUnspaced(); RightDistributivityRun1NewUnspaced();
  }

  lemma RightDistributivityRun1Held()
    ensures IsHeld(DistributeC, Eq("c*(a+b)", "c*a+c*b"))
  {
    IsHeldEq(DistributeC, "c*(a+b)", "c*a+c*b");
  }

  lemma RightDistributivityRun1Bound()
    ensures FirstUnbound(HRightDistributivity, "c*a + c*b") == None
    ensures FirstUnbound(HRightDistributivity, Equation("c*(a + b)", "c*a + c*b")) == None
  {
    FirstUnboundNone(HRightDistributivity, "c*a + c*b"); FirstUnboundNone(HRightDistributivity, Equation("c*(a + b)", "c*a + c*b"));
  }

  lemma RightDistributivityRun1(reg: Name -> Declaration<Name>, fuel: nat)
    requires RegistryReadable(reg) && SpaceFree(RightDistributivityState1.equalities) && StepReadable(RightDistributivityProof.steps[1])
    requires reg(LeftDistributivity) == LeftDistributivityDeclaration
    ensures RunStep(reg, HRightDistributivity, RightDistributivityState1, RightDistributivityProof.steps[1], fuel) == Ok(RightDistributivityState2)
  {
    RightDistributivityStep1(); RightDistributivityRun1NewUnspaced();
    DistributeCConstructed(reg, fuel); RightDistributivityRun1Modification(); RightDistributivityRun1Held(); RightDistributivityRun1Bound(); RightDistributivityRun1Found();
    EvolveStepOk(reg, HRightDistributivity, RightDistributivityState1, RightDistributivityProof.steps[1], fuel, DistributeC, 1, RightDistributivityState2);
  }

  lemma RightDistributivityRun2At0()
    ensures ModificationReadable(Eq("c*a", "a*c")) && EdgesReadable("(a+b)*c")
    ensures !SingleModification("(a+b)*c", "a*c+c*b", Eq("c*a", "a*c"))
  {
    EqModificationReadable("c*a", "a*c");
    SplitEq("c*a", "a*c");
    assert Occurrences("(a+b)*c", "c*a") == [];
    SingleModificationNeedsOccurrence("(a+b)*c", "a*c+c*b", Eq("c*a", "a*c"));
  }

  lemma RightDistributivityRun2At1()
    ensures ModificationReadable(Eq("c*a", "a*c")) && EdgesReadable("c*(a+b)")
    ensures !SingleModification("c*(a+b)", "a*c+c*b", Eq("c*a", "a*c"))
  {
    EqModificationReadable("c*a", "a*c");
    SplitEq("c*a", "a*c");
    assert Occurrences("c*(a+b)", "c*a") == [];
    SingleModificationNeedsOccurrence("c*(a+b)", "a*c+c*b", Eq("c*a", "a*c"));
  }

  lemma RightDistributivityRun2At2()
    ensures ModificationReadable(Eq("c*a", "a*c")) && EdgesReadable("c*a+c*b")
    ensures SingleModification("c*a+c*b", "a*c+c*b", Eq("c*a", "a*c"))
  {
    EqModificationReadable("c*a", "a*c");
    assert "c*a+c*b" == "" + "c*a" + "+c*b";
    assert Occurrences("c*a+c*b", "c*a")[0] == 0;
    RemoveSpacesOfSpaceFree("+c*b");
    SingleModificationAt("c*a+c*b", "a*c+c*b", "c*a", "a*c", "", "+c*b");
  }

  lemma RightDistributivityRun2At0In()
    ensures ModificationReadable(Eq("c*a", "a*c"))
    ensures 0 < |RightDistributivityState2.equalities| && EdgesReadable(RightDistributivityState2.equalities[0])
    ensures !SingleModification(RightDistributivityState2.equalities[0], "a*c+c*b", Eq("c*a", "a*c"))
  {
    RightDistributivityRun2At0();
    assert |RightDistributivityState2.equalities| == 3;
    assert RightDistributivityState2.equalities[0] == "(a+b)*c";
  }

  lemma RightDistributivityRun2At1In()
    ensures ModificationReadable(Eq("c*a", "a*c"))
    ensures 1 < |RightDistributivityState2.equalities| && EdgesReadable(RightDistributivityState2.equalities[1])
    ensures !SingleModification(RightDistributivityState2.equalities[1], "a*c+c*b", Eq("c*a", "a*c"))
  {
    RightDistributivityRun2At1();
    assert |RightDistributivityState2.equalities| == 3;
    assert RightDistributivityState2.equalities[1] == "c*(a+b)";
  }

  lemma RightDistributivityRun2At2In()
    ensures ModificationReadable(Eq("c*a", "a*c"))
    ensures 2 < |RightDistributivityState2.equalities| && EdgesReadable(RightDistributivityState2.equalities[2])
    ensures SingleModification(RightDistributivityState2.equalities[2], "a*c+c*b", Eq("c*a", "a*c"))
  {
    RightDistributivityRun2At2();
    assert |RightDistributivityState2.equalities| == 3;
    assert RightDistributivityState2.equalities[2] == "c*a+c*b";
  }

  lemma RightDistributivityRun2Skipped()
    ensures ModificationReadable(Eq("c*a", "a*c")) && 2 < |RightDistributivityState2.equalities|
    ensures forall i :: 0 <= i < 2 ==> EdgesReadable(RightDistributivityState2.equalities[i]) && !SingleModification(RightDistributivityState2.equalities[i], "a*c+c*b", Eq("c*a", "a*c"))
  {
    EqModificationReadable("c*a", "a*c"); RightDistributivityRun2At2In();
    forall i | 0 <= i < 2
      ensures EdgesReadable(RightDistributivityState2.equalities[i]) && !SingleModification(RightDistributivityState2.equalities[i], "a*c+c*b", Eq("c*a", "a*c"))
    {
      if i == 0 {
        RightDistributivityRun2At0In();
      } else {
        RightDistributivityRun2At1In();
      }
    }
  }

  lemma RightDistributivityRun2Found()
    requires SpaceFree(RightDistributivityState2.equalities)
    ensures ModificationReadable(Eq("c*a", "a*c"))
    ensures OldEquality(RightDistributivityState2.equalities, "a*c+c*b", Eq("c*a", "a*c")) == Some(2)
  {
    EqModificationReadable("c*a", "a*c"); RightDistributivityRun2At2In(); RightDistributivityRun2Skipped();
    OldEqualityAt(RightDistributivityState2.equalities, "a*c+c*b", Eq("c*a", "a*c"), 2);
  }

  lemma RightDistributivityRun2NewUnspaced()
    ensures RemoveSpaces("a*c + c*b") == "a*c+c*b"
  {
  }

  lemma RightDistributivityRun2Modification()
    ensures RemoveSpaces(Equation("c*a", "a*c")) == Eq("c*a", "a*c")
  {
    RemoveSpacesEquation("c*a", "a*c"); RemoveSpacesOfSpaceFree("c*a"); RemoveSpacesOfSpaceFree("a*c");
  }

  lemma RightDistributivityRun2Held()
    ensures IsHeld(CommuteCAndA, Eq("c*a", "a*c"))
  {
    IsHeldEq(CommuteCAndA, "c*a", "a*c");
  }

  lemma RightDistributivityRun2Bound()
    ensures FirstUnbound(HRightDistributivity, "a*c + c*b") == None
    ensures FirstUnbound(HRightDistributivity, Equation("c*a", "a*c")) == None
  {
    FirstUnboundNone(HRightDistributivity, "a*c + c*b"); FirstUnboundNone(HRightDistributivity, Equation("c*a", "a*c"));
  }

  lemma RightDistributivityRun2(reg: Name -> Declaration<Name>, fuel: nat)
    requires RegistryReadable(reg) && SpaceFree(RightDistributivityState2.equalities) && StepReadable(RightDistributivityProof.steps[2])
    requires reg(ProductCommutativity) == ProductCommutativityDeclaration
    ensures RunStep(reg, HRightDistributivity, RightDistributivityState2, RightDistributivityProof.steps[2], fuel) == Ok(RightDistributivityState3)
  {
    RightDistributivityStep2(); RightDistributivityRun2NewUnspaced();
    CommuteCAndAConstructed(reg, fuel); RightDistributivityRun2Modification(); RightDistributivityRun2Held(); RightDistributivityRun2Bound(); RightDistributivityRun2Found();
    EvolveStepOk(reg, HRightDistributivity, RightDistributivityState2, RightDistributivityProof.steps[2], fuel, CommuteCAndA, 2, RightDistributivityState3);
  }

  lemma RightDistributivityRun3At0()
    ensures ModificationReadable(Eq("c*b", "b*c")) && EdgesReadable("(a+b)*c")
    ensures !SingleModification("(a+b)*c", "a*c+b*c", Eq("c*b", "b*c"))
  {
    EqModificationReadable("c*b", "b*c");
    SplitEq("c*b", "b*c");
    assert Occurrences("(a+b)*c", "c*b") == [];
    SingleModificationNeedsOccurrence("(a+b)*c", "a*c+b*c", Eq("c*b", "b*c"));
  }

  lemma RightDistributivityRun3At1()
    ensures ModificationReadable(Eq("c*b", "b*c")) && EdgesReadable("c*(a+b)")
    ensures !SingleModification("c*(a+b)", "a*c+b*c", Eq("c*b", "b*c"))
  {
    EqModificationReadable("c*b", "b*c");
    SplitEq("c*b", "b*c");
    assert Occurrences("c*(a+b)", "c*b") == [];
    SingleModificationNeedsOccurrence("c*(a+b)", "a*c+b*c", Eq("c*b", "b*c"));
  }

  lemma RightDistributivityRun3At2()
    ensures ModificationReadable(Eq("c*b", "b*c")) && EdgesReadable("c*a+c*b")
    ensures !SingleModification("c*a+c*b", "a*c+b*c", Eq("c*b", "b*c"))
  {
    EqModificationReadable("c*b", "b*c");
    assert "c*a+c*b" == "c*a+" + "c*b" + "";
    assert Occurrences("c*a+c*b", "c*b") == [4];
    assert "a*c+b*c"[0] != ("c*a+" + "b*c" + "")[0];
    SingleModificationMiss("c*a+c*b", "a*c+b*c", "c*b", "b*c", "c*a+", "");
  }

  lemma RightDistributivityRun3At3()
    ensures ModificationReadable(Eq("c*b", "b*c")) && EdgesReadable("a*c+c*b")
    ensures SingleModification("a*c+c*b", "a*c+b*c", Eq("c*b", "b*c"))
  {
    EqModificationReadable("c*b", "b*c");
    assert "a*c+c*b" == "a*c+" + "c*b" + "";
    assert Occurrences("a*c+c*b", "c*b")[0] == 4;
    RemoveSpacesOfSpaceFree("a*c+");
    SingleModificationAt("a*c+c*b", "a*c+b*c", "c*b", "b*c", "a*c+", "");
  }

  lemma RightDistributivityRun3At0In()
    ensures ModificationReadable(Eq("c*b", "b*c"))
    ensures 0 < |RightDistributivityState3.equalities| && EdgesReadable(RightDistributivityState3.equalities[0])
    ensures !SingleModification(RightDistributivityState3.equalities[0], "a*c+b*c", Eq("c*b", "b*c"))
  {
    RightDistributivityRun3At0();
    assert |RightDistributivityState3.equalities| == 4;
    assert RightDistributivityState3.equalities[0] == "(a+b)*c";
  }

  lemma RightDistributivityRun3At1In()
    ensures ModificationReadable(Eq("c*b", "b*c"))
    ensures 1 < |RightDistributivityState3.equalities| && EdgesReadable(RightDistributivityState3.equalities[1])
    ensures !SingleModification(RightDistributivityState3.equalities[1], "a*c+b*c", Eq("c*b", "b*c"))
  {
    RightDistributivityRun3At1();
    assert |RightDistributivityState3.equalities| == 4;
    assert RightDistributivityState3.equalities[1] == "c*(a+b)";
  }

  lemma RightDistributivityRun3At2In()
    ensures ModificationReadable(Eq("c*b", "b*c"))
    ensures 2 < |RightDistributivityState3.equalities| && EdgesReadable(RightDistributivityState3.equalities[2])
    ensures !SingleModification(RightDistributivityState3.equalities[2], "a*c+b*c", Eq("c*b", "b*c"))
  {
    RightDistributivityRun3At2();
    assert |RightDistributivityState3.equalities| == 4;
    assert RightDistributivityState3.equalities[2] == "c*a+c*b";
  }

  lemma RightDistributivityRun3At3In()
    ensures ModificationReadable(Eq("c*b", "b*c"))
    ensures 3 < |RightDistributivityState3.equalities| && EdgesReadable(RightDistributivityState3.equalities[3])
    ensures SingleModification(RightDistributivityState3.equalities[3], "a*c+b*c", Eq("c*b", "b*c"))
  {
    RightDistributivityRun3At3();
    assert |RightDistributivityState3.equalities| == 4;
    assert RightDistributivityState3.equalities[3] == "a*c+c*b";
  }

  lemma RightDistributivityRun3Skipped()
    ensures ModificationReadable(Eq("c*b", "b*c")) && 3 < |RightDistributivityState3.equalities|
    ensures forall i :: 0 <= i < 3 ==> EdgesReadable(RightDistributivityState3.equalities[i]) && !SingleModification(RightDistributivityState3.equalities[i], "a*c+b*c", Eq("c*b", "b*c"))
  {
    EqModificationReadable("c*b", "b*c"); RightDistributivityRun3At3In();
    forall i | 0 <= i < 3
      ensures EdgesReadable(RightDistributivityState3.equalities[i]) && !SingleModification(RightDistributivityState3.equalities[i], "a*c+b*c", Eq("c*b", "b*c"))
    {
      if i == 0 {
        RightDistributivityRun3At0In();
      } else if i == 1 {
        RightDistributivityRun3At1In();
      } else {
        RightDistributivityRun3At2In();
      }
    }
  }

  lemma RightDistributivityRun3Found()
    requires SpaceFree(RightDistributivityState3.equalities)
    ensures ModificationReadable(Eq("c*b", "b*c"))
    ensures OldEquality(RightDistributivityState3.equalities, "a*c+b*c", Eq("c*b", "b*c")) == Some(3)
  {
    EqModificationReadable("c*b", "b*c"); RightDistributivityRun3At3In(); RightDistributivityRun3Skipped();
    OldEqualityAt(RightDistributivityState3.equalities, "a*c+b*c", Eq("c*b", "b*c"), 3);
  }

  lemma RightDistributivityRun3Modification()
    ensures RemoveSpaces(Equation("c*b", "b*c")) == Eq("c*b", "b*c")
  {
    RemoveSpacesEquation("c*b", "b*c"); RemoveSpacesOfSpaceFree("c*b"); RemoveSpacesOfSpaceFree("b*c");
  }

  lemma RightDistributivityRun3Held()
    ensures IsHeld(CommuteBAndC, Eq("c*b", "b*c"))
  {
    IsHeldEq(CommuteBAndC, "c*b", "b*c");
  }

  lemma RightDistributivityRun3Bound()
    ensures FirstUnbound(HRightDistributivity, "a*c + b*c") == None
    ensures FirstUnbound(HRightDistributivity, Equation("c*b", "b*c")) == None
  {
    FirstUnboundNone(HRightDistributivity, "a*c + b*c"); FirstUnboundNone(HRightDistributivity, Equation("c*b", "b*c"));
  }

  lemma RightDistributivityRun3(reg: Name -> Declaration<Name>, fuel: nat)
    requires RegistryReadable(reg) && SpaceFree(RightDistributivityState3.equalities) && StepReadable(RightDistributivityProof.steps[3])
    requires reg(ProductCommutativity) == ProductCommutativityDeclaration
    ensures RunStep(reg, HRightDistributivity, RightDistributivityState3, RightDistributivityProof.steps[3], fuel) == Ok(RightDistributivityState4)
  {
    RightDistributivityStep3(); RightDistributivityRightUnspaced();
    CommuteBAndCConstructed(reg, fuel); RightDistributivityRun3Modification(); RightDistributivityRun3Held(); RightDistributivityRun3Bound(); RightDistributivityRun3Found();
    EvolveStepOk(reg, HRightDistributivity, RightDistributivityState3, RightDistributivityProof.steps[3], fuel, CommuteBAndC, 3, RightDistributivityState4);
  }

  lemma RightDistributivityRun4(reg: Name -> Declaration<Name>, fuel: nat)
    requires RegistryReadable(reg) && SpaceFree(RightDistributivityState4.equalities) && StepReadable(RightDistributivityProof.steps[4])
    ensures RunStep(reg, HRightDistributivity, RightDistributivityState4, RightDistributivityProof.steps[4], fuel) == Ok(RightDistributivityState5)
  {
    assert RightDistributivityState4.equalities[0] == RightDistributivityState4.conclusionAim[0];
    assert RightDistributivityState4.equalities[4] == RightDistributivityState4.conclusionAim[1];
    ConcludeStepOk(reg, HRightDistributivity, RightDistributivityState4, RightDistributivityProof.steps[4], fuel, 0, 4);
  }

  lemma RightDistributivityRunsFrom5(reg: Name -> Declaration<Name>, fuel: nat)
    requires RegistryReadable(reg) && SpaceFree(RightDistributivityState5.equalities) && |RightDistributivityState5.conclusionAim| == 2
    requires StepsReadable(RightDistributivityProof.steps[5..])
    requires reg(LeftDistributivity) == LeftDistributivityDeclaration && reg(ProductCommutativity) == ProductCommutativityDeclaration
    ensures RunSteps(reg, HRightDistributivity, RightDistributivityState5, RightDistributivityProof.steps[5..], fuel) == Ok(RightDistributivityState5)
  {
    assert RightDistributivityProof.steps[5..] == [];
  }

  lemma RightDistributivityRunsFrom4(reg: Name -> Declaration<Name>, fuel: nat)
    requires RegistryReadable(reg) && SpaceFree(RightDistributivityState4.equalities) && |RightDistributivityState4.conclusionAim| == 2
    requires StepsReadable(RightDistributivityProof.steps[4..])
    requires reg(LeftDistributivity) == LeftDistributivityDeclaration && reg(ProductCommutativity) == ProductCommutativityDeclaration
    ensures RunSteps(reg, HRightDistributivity, RightDistributivityState4, RightDistributivityProof.steps[4..], fuel) == Ok(RightDistributivityState5)
  {
    var s := RightDistributivityProof.steps[4..];
    assert s[0] == RightDistributivityProof.steps[4];
    RightDistributivityRun4(reg, fuel); RunStepsCons(reg, HRightDistributivity, RightDistributivityState4, s, fuel, RightDistributivityState5);
    assert s[1..] == RightDistributivityProof.steps[5..];
    RightDistributivityRunsFrom5(reg, fuel);
  }

  lemma RightDistributivityRunsFrom3(reg: Name -> Declaration<Name>, fuel: nat)
    requires RegistryReadable(reg) && SpaceFree(RightDistributivityState3.equalities) && |RightDistributivityState3.conclusionAim| == 2
    requires StepsReadable(RightDistributivityProof.steps[3..])
    requires reg(LeftDistributivity) == LeftDistributivityDeclaration && reg(ProductCommutativity) == ProductCommutativityDeclaration
    ensures RunSteps(reg, HRightDistributivity, RightDistributivityState3, RightDistributivityProof.steps[3..], fuel) == Ok(RightDistributivityState5)
  {
    var s := RightDistributivityProof.steps[3..];
    assert s[0] == RightDistributivityProof.steps[3];
    RightDistributivityRun3(reg, fuel); RunStepsCons(reg, HRightDistributivity, RightDistributivityState3, s, fuel, RightDistributivityState4);
    assert s[1..] == RightDistributivityProof.steps[4..];
    RightDistributivityRunsFrom4(reg, fuel);
  }

  lemma RightDistributivityRunsFrom2(reg: Name -> Declaration<Name>, fuel: nat)
    requires RegistryReadable(reg) && SpaceFree(RightDistributivityState2.equalities) && |RightDistributivityState2.conclusionAim| == 2
    requires StepsReadable(RightDistributivityProof.steps[2..])
    requires reg(LeftDistributivity) == LeftDistributivityDeclaration && reg(ProductCommutativity) == ProductCommutativityDeclaration
    ensures RunSteps(reg, HRightDistributivity, RightDistributivityState2, RightDistributivityProof.steps[2..], fuel) == Ok(RightDistributivityState5)
  {
    var s := RightDistributivityProof.steps[2..];
    assert s[0] == RightDistributivityProof.steps[2];
    RightDistributivityRun2(reg, fuel); RunStepsCons(reg, HRightDistributivity, RightDistributivityState2, s, fuel, RightDistributivityState3);
    assert s[1..] == RightDistributivityProof.steps[3..];
    RightDistributivityRunsFrom3(reg, fuel);
  }

  lemma RightDistributivityRunsFrom1(reg: Name -> Declaration<Name>, fuel: nat)
    requires RegistryReadable(reg) && SpaceFree(RightDistributivityState1.equalities) && |RightDistributivityState1.conclusionAim| == 2
    requires StepsReadable(RightDistributivityProof.steps[1..])
    requires reg(LeftDistributivity) == LeftDistributivityDeclaration && reg(ProductCommutativity) == ProductCommutativityDeclaration
    ensures RunSteps(reg, HRightDistributivity, RightDistributivityState1, RightDistributivityProof.steps[1..], fuel) == Ok(RightDistributivityState5)
  {
    var s := RightDistributivityProof.steps[1..];
    assert s[0] == RightDistributivityProof.steps[1];
    RightDistributivityRun1(reg, fuel); RunStepsCons(reg, HRightDistributivity, RightDistributivityState1, s, fuel, RightDistributivityState2);
    assert s[1..] == RightDistributivityProof.steps[2..];
    RightDistributivityRunsFrom2(reg, fuel);
  }

  lemma RightDistributivityRunsFrom0(reg: Name -> Declaration<Name>, fuel: nat)
    requires RegistryReadable(reg) && SpaceFree(RightDistributivityState0.equalities) && |RightDistributivityState0.conclusionAim| == 2
    requires StepsReadable(RightDistributivityProof.steps)
    requires reg(LeftDistributivity) == LeftDistributivityDeclaration && reg(ProductCommutativity) == ProductCommutativityDeclaration
    ensures RunSteps(reg, HRightDistributivity, RightDistributivityState0, RightDistributivityProof.steps, fuel) == Ok(RightDistributivityState5)
  {
    var s := RightDistributivityProof.steps;
    assert s[0] == RightDistributivityProof.steps[0];
    RightDistributivityRun0(reg, fuel); RunStepsCons(reg, HRightDistributivity, RightDistributivityState0, s, fuel, RightDistributivityState1);
    assert s[1..] == RightDistributivityProof.steps[1..];
    RightDistributivityRunsFrom1(reg, fuel);
  }

  lemma RightDistributivityBuilt(reg: Name -> Declaration<Name>, fuel: nat)
    requires RegistryReadable(reg) && |Split(RemoveSpaces(HRightDistributivity.conclusion), "=")| == 2
    requires StepsReadable(RightDistributivityProof.steps)
    requires reg(LeftDistributivity) == LeftDistributivityDeclaration && reg(ProductCommutativity) == ProductCommutativityDeclaration
    ensures BuildProof(reg, HRightDistributivity, Some(RightDistributivityProof), fuel + 1) == Ok(Some(RightDistributivityState5))
  {
    RightDistributivityStarted(); RightDistributivityRunsFrom0(reg, fuel);
  }
}
