/*
 * Constructions of the variants of the theorem set, with the proofs their scripts build.
 */
module Replays {
  import opened Wrappers
  import opened TextGestion
  import opened Theorems
  import opened Proofs
  import opened Construction
  import opened TheoremSet
  import opened ReplayHeaders
  import opened AdditionReplay
  import opened ProductReplay
  import opened PowerReplay
  import opened RightDistributivityReplay
  import opened RightMultiplicationByIdentityReplay
  import opened SquareDistributionReplay
  import opened LitteralAdditionReplay

  /** RightDistributivity(['a', 'b', 'c']). */
  const RightDistributivityInstance := Theorem(HRightDistributivity, Some(RightDistributivityState5), "(a+b)*c", "a*c+b*c")

  lemma RightDistributivityInstanceBindings()
    ensures Bindings(HRightDistributivity, ["a", "b", "c"]) == Ok([('a', "a"), ('b', "b"), ('c', "c")])
  {
    RemoveSpacesOfSpaceFree("a");
    RemoveSpacesOfSpaceFree("b");
    RemoveSpacesOfSpaceFree("c");
    assert BindUnknowns([], ["a", "b", "c"], ["a", "b", "c"]) == [('a', "a"), ('b', "b"), ('c', "c")];
  }

  lemma RightDistributivityInstanceParameters()
    ensures ParametersReadable(["a", "b", "c"]) && Parameters(HRightDistributivity, Some(["a", "b", "c"])) == Ok(["a", "b", "c"])
  {
    UnspacedReadable(["a", "b", "c"]);
  }

  lemma RightDistributivityInstanceLeftSubstituted()
    ensures Substitute("(a+b)*c", [('a', "a"), ('b', "b"), ('c', "c")]) == "(a+b)*c"
  {
    var dict := [('a', "a"), ('b', "b"), ('c', "c")];
    assert Substitute("c", dict) == "c";
    assert Substitute("*c", dict) == "*c";
    assert Substitute(")*c", dict) == ")*c";
    assert Substitute("b)*c", dict) == "b)*c";
    assert Substitute("+b)*c", dict) == "+b)*c";
    assert Substitute("a+b)*c", dict) == "a+b)*c";
    assert Substitute("(a+b)*c", dict) == "(a+b)*c";
  }

  lemma RightDistributivityInstanceRightSubstituted()
    ensures Substitute("a*c+b*c", [('a', "a"), ('b', "b"), ('c', "c")]) == "a*c+b*c"
  {
    var dict := [('a', "a"), ('b', "b"), ('c', "c")];
    assert Substitute("c", dict) == "c";
    assert Substitute("*c", dict) == "*c";
    assert Substitute("b*c", dict) == "b*c";
    assert Substitute("+b*c", dict) == "+b*c";
    assert Substitute("c+b*c", dict) == "c+b*c";
    assert Substitute("*c+b*c", dict) == "*c+b*c";
    assert Substitute("a*c+b*c", dict) == "a*c+b*c";
  }

  lemma RightDistributivityInstanceLeftFormed()
    ensures WellFormed("(a+b)*c")
  {
    RemoveSpacesOfSpaceFree("(a+b)*c");
  }

  lemma RightDistributivityInstanceRightFormed()
    ensures WellFormed("a*c+b*c")
  {
    RemoveSpacesOfSpaceFree("a*c+b*c");
  }

  lemma RightDistributivityInstanceValues()
    ensures NoSpaces("(a+b)*c") && NoSpaces("a*c+b*c") && ValuesReadable([('a', "a"), ('b', "b"), ('c', "c")])
  {
  }

  lemma RightDistributivityInstanceLeftOrdered()
    ensures SideOrderOk("(a+b)*c", [('a', "a"), ('b', "b"), ('c', "c")])
  {
    RightDistributivityInstanceValues();
    SimpleValuesOrderOk("(a+b)*c", [('a', "a"), ('b', "b"), ('c', "c")]);
  }

  lemma RightDistributivityInstanceRightOrdered()
    ensures SideOrderOk("a*c+b*c", [('a', "a"), ('b', "b"), ('c', "c")])
  {
    RightDistributivityInstanceValues();
    SimpleValuesOrderOk("a*c+b*c", [('a', "a"), ('b', "b"), ('c', "c")]);
  }

  lemma RightDistributivityInstanceSides()
    ensures ValidNames(HRightDistributivity) && ConclusionReadable(HRightDistributivity) && ParametersReadable(["a", "b", "c"])
    ensures InstantiateSides(HRightDistributivity, Some(["a", "b", "c"])) == Ok(("(a+b)*c", "a*c+b*c"))
  {
    RightDistributivityNames(); RightDistributivitySymbolic(); RightDistributivityLeftFormed(); RightDistributivityRightFormed();
    RightDistributivityInstanceBindings(); RightDistributivityInstanceParameters(); RightDistributivityInstanceLeftSubstituted(); RightDistributivityInstanceRightSubstituted();
    RightDistributivityInstanceLeftFormed(); RightDistributivityInstanceRightFormed(); RightDistributivityInstanceValues(); RightDistributivityInstanceLeftOrdered(); RightDistributivityInstanceRightOrdered();
    InstantiateSidesOf(HRightDistributivity, Some(["a", "b", "c"]), ["a", "b", "c"], "(a+b)*c", "a*c+b*c", [('a', "a"), ('b', "b"), ('c', "c")], "(a+b)*c", "a*c+b*c");
  }

  lemma RightDistributivityInstanceConstructed(reg: Name -> Declaration<Name>, fuel: nat)
    requires RegistryReadable(reg)
    requires reg(LeftDistributivity) == LeftDistributivityDeclaration && reg(ProductCommutativity) == ProductCommutativityDeclaration
    ensures DeclarationReadable(RightDistributivityDeclaration) && ParametersReadable(["a", "b", "c"])
    ensures Instantiate(reg, RightDistributivityDeclaration, Some(["a", "b", "c"]), fuel + 1) == Ok(RightDistributivityInstance)
  {
    RightDistributivityDeclared(); RightDistributivityInstanceSides();
    RightDistributivityStepsReadable(); RightDistributivityBuilt(reg, fuel);
    TheoremInstanceOf(reg, RightDistributivityDeclaration, HRightDistributivity, Some(["a", "b", "c"]), fuel + 1, RightDistributivityProof, RightDistributivityState5, "(a+b)*c", "a*c+b*c");
  }

  /** RightMultiplicationByIdentity(['a']). */
  const RightMultiplicationByIdentityInstance := Theorem(HRightMultiplicationByIdentity, Some(RightMultiplicationByIdentityState3), "a*1", "a")

  lemma RightMultiplicationByIdentityInstanceBindings()
    ensures Bindings(HRightMultiplicationByIdentity, ["a"]) == Ok([('a', "a")])
  {
    RemoveSpacesOfSpaceFree("a");
    assert BindUnknowns([], ["a"], ["a"]) == [('a', "a")];
  }

  lemma RightMultiplicationByIdentityInstanceParameters()
    ensures ParametersReadable(["a"]) && Parameters(HRightMultiplicationByIdentity, Some(["a"])) == Ok(["a"])
  {
    UnspacedReadable(["a"]);
  }

  lemma RightMultiplicationByIdentityInstanceLeftSubstituted()
    ensures Substitute("a*1", [('a', "a")]) == "a*1"
  {
    var dict := [('a', "a")];
    assert Substitute("1", dict) == "1";
    assert Substitute("*1", dict) == "*1";
    assert Substitute("a*1", dict) == "a*1";
  }

  lemma RightMultiplicationByIdentityInstanceRightSubstituted()
    ensures Substitute("a", [('a', "a")]) == "a"
  {
    var dict := [('a', "a")];
    assert Substitute("a", dict) == "a";
  }

  lemma RightMultiplicationByIdentityInstanceLeftFormed()
    ensures WellFormed("a*1")
  {
    RemoveSpacesOfSpaceFree("a*1");
  }

  lemma RightMultiplicationByIdentityInstanceRightFormed()
    ensures WellFormed("a")
  {
    RemoveSpacesOfSpaceFree("a");
  }

  lemma RightMultiplicationByIdentityInstanceValues()
    ensures NoSpaces("a*1") && NoSpaces("a") && ValuesReadable([('a', "a")])
  {
  }

  lemma RightMultiplicationByIdentityInstanceLeftOrdered()
    ensures SideOrderOk("a*1", [('a', "a")])
  {
    RightMultiplicationByIdentityInstanceValues();
    SimpleValuesOrderOk("a*1", [('a', "a")]);
  }

  lemma RightMultiplicationByIdentityInstanceRightOrdered()
    ensures SideOrderOk("a", [('a', "a")])
  {
    RightMultiplicationByIdentityInstanceValues();
    SimpleValuesOrderOk("a", [('a', "a")]);
  }

  lemma RightMultiplicationByIdentityInstanceSides()
    ensures ValidNames(HRightMultiplicationByIdentity) && ConclusionReadable(HRightMultiplicationByIdentity) && ParametersReadable(["a"])
    ensures InstantiateSides(HRightMultiplicationByIdentity, Some(["a"])) == Ok(("a*1", "a"))
  {
    RightMultiplicationByIdentityNames(); RightMultiplicationByIdentitySymbolic(); RightMultiplicationByIdentityLeftFormed(); RightMultiplicationByIdentityRightFormed();
    RightMultiplicationByIdentityInstanceBindings(); RightMultiplicationByIdentityInstanceParameters(); RightMultiplicationByIdentityInstanceLeftSubstituted(); RightMultiplicationByIdentityInstanceRightSubstituted();
    RightMultiplicationByIdentityInstanceLeftFormed(); RightMultiplicationByIdentityInstanceRightFormed(); RightMultiplicationByIdentityInstanceValues(); RightMultiplicationByIdentityInstanceLeftOrdered(); RightMultiplicationByIdentityInstanceRightOrdered();
    InstantiateSidesOf(HRightMultiplicationByIdentity, Some(["a"]), ["a"], "a*1", "a", [('a', "a")], "a*1", "a");
  }

  lemma RightMultiplicationByIdentityInstanceConstructed(reg: Name -> Declaration<Name>, fuel: nat)
    requires RegistryReadable(reg)
    requires reg(LeftMultiplicationByIdentity) == LeftMultiplicationByIdentityDeclaration && reg(ProductCommutativity) == ProductCommutativityDeclaration
    ensures DeclarationReadable(RightMultiplicationByIdentityDeclaration) && ParametersReadable(["a"])
    ensures Instantiate(reg, RightMultiplicationByIdentityDeclaration, Some(["a"]), fuel + 1) == Ok(RightMultiplicationByIdentityInstance)
  {
    RightMultiplicationByIdentityDeclared(); RightMultiplicationByIdentityInstanceSides();
    RightMultiplicationByIdentityStepsReadable(); RightMultiplicationByIdentityBuilt(reg, fuel);
    TheoremInstanceOf(reg, RightMultiplicationByIdentityDeclaration, HRightMultiplicationByIdentity, Some(["a"]), fuel + 1, RightMultiplicationByIdentityProof, RightMultiplicationByIdentityState3, "a*1", "a");
  }

  /** Addition(['2', '3']). */
  const AdditionOfTwoAndThree := Theorem(HAddition, Some(AdditionState2), "2+3", "5")

  lemma AdditionOfTwoAndThreeUnknowns()
    ensures BindUnknowns([], ["a", "b"], ["2", "3"]) == [('a', "2"), ('b', "3")]
  {
    RemoveSpacesOfSpaceFree("2");
    RemoveSpacesOfSpaceFree("3");
    assert BindUnknowns([], ["a", "b"], ["2", "3"]) == [('a', "2"), ('b', "3")];
  }

  lemma AdditionOfTwoAndThreeSimplification0()
    ensures Substitute("a+b", [('a', "2"), ('b', "3")]) == "2+3"
    ensures Evaluate("2+3") == Some(5) && NatToString(5) == "5"
  {
    var dict := [('a', "2"), ('b', "3")];
    assert Substitute("b", dict) == "3";
    assert Substitute("+b", dict) == "+3";
    assert Substitute("a+b", dict) == "2+3";
  }

  lemma AdditionOfTwoAndThreeBindings()
    ensures Bindings(HAddition, ["2", "3"]) == Ok([('a', "2"), ('b', "3"), ('c', "5")])
  {
    AdditionOfTwoAndThreeUnknowns();
    AdditionOfTwoAndThreeSimplification0();
    assert HAddition.simplifications[0].expression == "a+b";
    assert Put([('a', "2"), ('b', "3")], 'c', "5") == [('a', "2"), ('b', "3"), ('c', "5")];
    assert HAddition.simplifications[1..] == [];
  }

  lemma AdditionOfTwoAndThreeParameters()
    ensures ParametersReadable(["2", "3"]) && Parameters(HAddition, Some(["2", "3"])) == Ok(["2", "3"])
  {
    UnspacedReadable(["2", "3"]);
  }

  lemma AdditionOfTwoAndThreeLeftSubstituted()
    ensures Substitute("a+b", [('a', "2"), ('b', "3"), ('c', "5")]) == "2+3"
  {
    var dict := [('a', "2"), ('b', "3"), ('c', "5")];
    assert Substitute("b", dict) == "3";
    assert Substitute("+b", dict) == "+3";
    assert Substitute("a+b", dict) == "2+3";
  }

  lemma AdditionOfTwoAndThreeRightSubstituted()
    ensures Substitute("c", [('a', "2"), ('b', "3"), ('c', "5")]) == "5"
  {
    var dict := [('a', "2"), ('b', "3"), ('c', "5")];
    assert Substitute("c", dict) == "5";
  }

  lemma AdditionOfTwoAndThreeLeftFormed()
    ensures WellFormed("2+3")
  {
    RemoveSpacesOfSpaceFree("2+3");
  }

  lemma AdditionOfTwoAndThreeRightFormed()
    ensures WellFormed("5")
  {
    RemoveSpacesOfSpaceFree("5");
  }

  lemma AdditionOfTwoAndThreeValues()
    ensures NoSpaces("2+3") && NoSpaces("5") && ValuesReadable([('a', "2"), ('b', "3"), ('c', "5")])
  {
  }

  lemma AdditionOfTwoAndThreeLeftOrdered()
    ensures SideOrderOk("2+3", [('a', "2"), ('b', "3"), ('c', "5")])
  {
    AdditionOfTwoAndThreeValues();
    SimpleValuesOrderOk("2+3", [('a', "2"), ('b', "3"), ('c', "5")]);
  }

  lemma AdditionOfTwoAndThreeRightOrdered()
    ensures SideOrderOk("5", [('a', "2"), ('b', "3"), ('c', "5")])
  {
    AdditionOfTwoAndThreeValues();
    SimpleValuesOrderOk("5", [('a', "2"), ('b', "3"), ('c', "5")]);
  }

  lemma AdditionOfTwoAndThreeSides()
    ensures ValidNames(HAddition) && ConclusionReadable(HAddition) && ParametersReadable(["2", "3"])
    ensures InstantiateSides(HAddition, Some(["2", "3"])) == Ok(("2+3", "5"))
  {
    AdditionNames(); AdditionSymbolic(); AdditionLeftFormed(); AdditionRightFormed();
    AdditionOfTwoAndThreeBindings(); AdditionOfTwoAndThreeParameters(); AdditionOfTwoAndThreeLeftSubstituted(); AdditionOfTwoAndThreeRightSubstituted();
    AdditionOfTwoAndThreeLeftFormed(); AdditionOfTwoAndThreeRightFormed(); AdditionOfTwoAndThreeValues(); AdditionOfTwoAndThreeLeftOrdered(); AdditionOfTwoAndThreeRightOrdered();
    InstantiateSidesOf(HAddition, Some(["2", "3"]), ["2", "3"], "a+b", "c", [('a', "2"), ('b', "3"), ('c', "5")], "2+3", "5");
  }

  lemma AdditionOfTwoAndThreeConstructed(reg: Name -> Declaration<Name>, fuel: nat)
    requires RegistryReadable(reg)
    ensures DeclarationReadable(AdditionDeclaration) && ParametersReadable(["2", "3"])
    ensures Instantiate(reg, AdditionDeclaration, Some(["2", "3"]), fuel + 1) == Ok(AdditionOfTwoAndThree)
  {
    AdditionDeclared(); AdditionOfTwoAndThreeSides();
    AdditionStepsReadable(); AdditionBuilt(reg, fuel);
    TheoremInstanceOf(reg, AdditionDeclaration, HAddition, Some(["2", "3"]), fuel + 1, AdditionProof, AdditionState2, "2+3", "5");
  }

  /** Product(['2', '3']). */
  const ProductOfTwoAndThree := Theorem(HProduct, Some(ProductState2), "2*3", "6")

  lemma ProductOfTwoAndThreeUnknowns()
    ensures BindUnknowns([], ["a", "b"], ["2", "3"]) == [('a', "2"), ('b', "3")]
  {
    RemoveSpacesOfSpaceFree("2");
    RemoveSpacesOfSpaceFree("3");
    assert BindUnknowns([], ["a", "b"], ["2", "3"]) == [('a', "2"), ('b', "3")];
  }

  lemma ProductOfTwoAndThreeSimplification0()
    ensures Substitute("a*b", [('a', "2"), ('b', "3")]) == "2*3"
    ensures Evaluate("2*3") == Some(6) && NatToString(6) == "6"
  {
    var dict := [('a', "2"), ('b', "3")];
    assert Substitute("b", dict) == "3";
    assert Substitute("*b", dict) == "*3";
    assert Substitute("a*b", dict) == "2*3";
  }

  lemma ProductOfTwoAndThreeBindings()
    ensures Bindings(HProduct, ["2", "3"]) == Ok([('a', "2"), ('b', "3"), ('c', "6")])
  {
    ProductOfTwoAndThreeUnknowns();
    ProductOfTwoAndThreeSimplification0();
    assert HProduct.simplifications[0].expression == "a*b";
    assert Put([('a', "2"), ('b', "3")], 'c', "6") == [('a', "2"), ('b', "3"), ('c', "6")];
    assert HProduct.simplifications[1..] == [];
  }

  lemma ProductOfTwoAndThreeParameters()
    ensures ParametersReadable(["2", "3"]) && Parameters(HProduct, Some(["2", "3"])) == Ok(["2", "3"])
  {
    UnspacedReadable(["2", "3"]);
  }

  lemma ProductOfTwoAndThreeLeftSubstituted()
    ensures Substitute("a*b", [('a', "2"), ('b', "3"), ('c', "6")]) == "2*3"
  {
    var dict := [('a', "2"), ('b', "3"), ('c', "6")];
    assert Substitute("b", dict) == "3";
    assert Substitute("*b", dict) == "*3";
    assert Substitute("a*b", dict) == "2*3";
  }

  lemma ProductOfTwoAndThreeRightSubstituted()
    ensures Substitute("c", [('a', "2"), ('b', "3"), ('c', "6")]) == "6"
  {
    var dict := [('a', "2"), ('b', "3"), ('c', "6")];
    assert Substitute("c", dict) == "6";
  }

  lemma ProductOfTwoAndThreeLeftFormed()
    ensures WellFormed("2*3")
  {
    RemoveSpacesOfSpaceFree("2*3");
  }

  lemma ProductOfTwoAndThreeRightFormed()
    ensures WellFormed("6")
  {
    RemoveSpacesOfSpaceFree("6");
  }

  lemma ProductOfTwoAndThreeValues()
    ensures NoSpaces("2*3") && NoSpaces("6") && ValuesReadable([('a', "2"), ('b', "3"), ('c', "6")])
  {
  }

  lemma ProductOfTwoAndThreeLeftOrdered()
    ensures SideOrderOk("2*3", [('a', "2"), ('b', "3"), ('c', "6")])
  {
    ProductOfTwoAndThreeValues();
    SimpleValuesOrderOk("2*3", [('a', "2"), ('b', "3"), ('c', "6")]);
  }

  lemma ProductOfTwoAndThreeRightOrdered()
    ensures SideOrderOk("6", [('a', "2"), ('b', "3"), ('c', "6")])
  {
    ProductOfTwoAndThreeValues();
    SimpleValuesOrderOk("6", [('a', "2"), ('b', "3"), ('c', "6")]);
  }

  lemma ProductOfTwoAndThreeSides()
    ensures ValidNames(HProduct) && ConclusionReadable(HProduct) && ParametersReadable(["2", "3"])
    ensures InstantiateSides(HProduct, Some(["2", "3"])) == Ok(("2*3", "6"))
  {
    ProductNames(); ProductSymbolic(); ProductLeftFormed(); ProductRightFormed();
    ProductOfTwoAndThreeBindings(); ProductOfTwoAndThreeParameters(); ProductOfTwoAndThreeLeftSubstituted(); ProductOfTwoAndThreeRightSubstituted();
    ProductOfTwoAndThreeLeftFormed(); ProductOfTwoAndThreeRightFormed(); ProductOfTwoAndThreeValues(); ProductOfTwoAndThreeLeftOrdered(); ProductOfTwoAndThreeRightOrdered();
    InstantiateSidesOf(HProduct, Some(["2", "3"]), ["2", "3"], "a*b", "c", [('a', "2"), ('b', "3"), ('c', "6")], "2*3", "6");
  }

  lemma ProductOfTwoAndThreeConstructed(reg: Name -> Declaration<Name>, fuel: nat)
    requires RegistryReadable(reg)
    ensures DeclarationReadable(ProductDeclaration) && ParametersReadable(["2", "3"])
    ensures Instantiate(reg, ProductDeclaration, Some(["2", "3"]), fuel + 1) == Ok(ProductOfTwoAndThree)
  {
    ProductDeclared(); ProductOfTwoAndThreeSides();
    ProductStepsReadable(); ProductBuilt(reg, fuel);
    TheoremInstanceOf(reg, ProductDeclaration, HProduct, Some(["2", "3"]), fuel + 1, ProductProof, ProductState2, "2*3", "6");
  }

  /** Power(['2', '3']). */
  const PowerOfTwoAndThree := Theorem(HPower, Some(PowerState2), "2^3", "8")

  lemma PowerOfTwoAndThreeUnknowns()
    ensures BindUnknowns([], ["a", "b"], ["2", "3"]) == [('a', "2"), ('b', "3")]
  {
    RemoveSpacesOfSpaceFree("2");
    RemoveSpacesOfSpaceFree("3");
    assert BindUnknowns([], ["a", "b"], ["2", "3"]) == [('a', "2"), ('b', "3")];
  }

  lemma PowerOfTwoAndThreeSimplification0()
    ensures Substitute("a^b", [('a', "2"), ('b', "3")]) == "2^3"
    ensures Evaluate("2^3") == Some(8) && NatToString(8) == "8"
  {
    var dict := [('a', "2"), ('b', "3")];
    assert Substitute("b", dict) == "3";
    assert Substitute("^b", dict) == "^3";
    assert Substitute("a^b", dict) == "2^3";
  }

  lemma PowerOfTwoAndThreeBindings()
    ensures Bindings(HPower, ["2", "3"]) == Ok([('a', "2"), ('b', "3"), ('c', "8")])
  {
    PowerOfTwoAndThreeUnknowns();
    PowerOfTwoAndThreeSimplification0();
    assert HPower.simplifications[0].expression == "a^b";
    assert Put([('a', "2"), ('b', "3")], 'c', "8") == [('a', "2"), ('b', "3"), ('c', "8")];
    assert HPower.simplifications[1..] == [];
  }

  lemma PowerOfTwoAndThreeParameters()
    ensures ParametersReadable(["2", "3"]) && Parameters(HPower, Some(["2", "3"])) == Ok(["2", "3"])
  {
    UnspacedReadable(["2", "3"]);
  }

  lemma PowerOfTwoAndThreeLeftSubstituted()
    ensures Substitute("a^b", [('a', "2"), ('b', "3"), ('c', "8")]) == "2^3"
  {
    var dict := [('a', "2"), ('b', "3"), ('c', "8")];
    assert Substitute("b", dict) == "3";
    assert Substitute("^b", dict) == "^3";
    assert Substitute("a^b", dict) == "2^3";
  }

  lemma PowerOfTwoAndThreeRightSubstituted()
    ensures Substitute("c", [('a', "2"), ('b', "3"), ('c', "8")]) == "8"
  {
    var dict := [('a', "2"), ('b', "3"), ('c', "8")];
    assert Substitute("c", dict) == "8";
  }

  lemma PowerOfTwoAndThreeLeftFormed()
    ensures WellFormed("2^3")
  {
    RemoveSpacesOfSpaceFree("2^3");
  }

  lemma PowerOfTwoAndThreeRightFormed()
    ensures WellFormed("8")
  {
    RemoveSpacesOfSpaceFree("8");
  }

  lemma PowerOfTwoAndThreeValues()
    ensures NoSpaces("2^3") && NoSpaces("8") && ValuesReadable([('a', "2"), ('b', "3"), ('c', "8")])
  {
  }

  lemma PowerOfTwoAndThreeLeftOrdered()
    ensures SideOrderOk("2^3", [('a', "2"), ('b', "3"), ('c', "8")])
  {
    PowerOfTwoAndThreeValues();
    SimpleValuesOrderOk("2^3", [('a', "2"), ('b', "3"), ('c', "8")]);
  }

  lemma PowerOfTwoAndThreeRightOrdered()
    ensures SideOrderOk("8", [('a', "2"), ('b', "3"), ('c', "8")])
  {
    PowerOfTwoAndThreeValues();
    SimpleValuesOrderOk("8", [('a', "2"), ('b', "3"), ('c', "8")]);
  }

  lemma PowerOfTwoAndThreeSides()
    ensures ValidNames(HPower) && ConclusionReadable(HPower) && ParametersReadable(["2", "3"])
    ensures InstantiateSides(HPower, Some(["2", "3"])) == Ok(("2^3", "8"))
  {
    PowerNames(); PowerSymbolic(); PowerLeftFormed(); PowerRightFormed();
    PowerOfTwoAndThreeBindings(); PowerOfTwoAndThreeParameters(); PowerOfTwoAndThreeLeftSubstituted(); PowerOfTwoAndThreeRightSubstituted();
    PowerOfTwoAndThreeLeftFormed(); PowerOfTwoAndThreeRightFormed(); PowerOfTwoAndThreeValues(); PowerOfTwoAndThreeLeftOrdered(); PowerOfTwoAndThreeRightOrdered();
    InstantiateSidesOf(HPower, Some(["2", "3"]), ["2", "3"], "a^b", "c", [('a', "2"), ('b', "3"), ('c', "8")], "2^3", "8");
  }

  lemma PowerOfTwoAndThreeConstructed(reg: Name -> Declaration<Name>, fuel: nat)
    requires RegistryReadable(reg)
    ensures DeclarationReadable(PowerDeclaration) && ParametersReadable(["2", "3"])
    ensures Instantiate(reg, PowerDeclaration, Some(["2", "3"]), fuel + 1) == Ok(PowerOfTwoAndThree)
  {
    PowerDeclared(); PowerOfTwoAndThreeSides();
    PowerStepsReadable(); PowerBuilt(reg, fuel);
    TheoremInstanceOf(reg, PowerDeclaration, HPower, Some(["2", "3"]), fuel + 1, PowerProof, PowerState2, "2^3", "8");
  }

  /** SquareDistribution(['x']). */
  const SquareDistributionOfX := Theorem(HSquareDistribution, Some(SquareDistributionState6), "x^2", "x*x")

  lemma SquareDistributionOfXBindings()
    ensures Bindings(HSquareDistribution, ["x"]) == Ok([('a', "x")])
  {
    RemoveSpacesOfSpaceFree("x");
    assert BindUnknowns([], ["a"], ["x"]) == [('a', "x")];
  }

  lemma SquareDistributionOfXParameters()
    ensures ParametersReadable(["x"]) && Parameters(HSquareDistribution, Some(["x"])) == Ok(["x"])
  {
    UnspacedReadable(["x"]);
  }

  lemma SquareDistributionOfXLeftSubstituted()
    ensures Substitute("a^2", [('a', "x")]) == "x^2"
  {
    var dict := [('a', "x")];
    assert Substitute("2", dict) == "2";
    assert Substitute("^2", dict) == "^2";
    assert Substitute("a^2", dict) == "x^2";
  }

  lemma SquareDistributionOfXRightSubstituted()
    ensures Substitute("a*a", [('a', "x")]) == "x*x"
  {
    var dict := [('a', "x")];
    assert Substitute("a", dict) == "x";
    assert Substitute("*a", dict) == "*x";
    assert Substitute("a*a", dict) == "x*x";
  }

  lemma SquareDistributionOfXLeftFormed()
    ensures WellFormed("x^2")
  {
    RemoveSpacesOfSpaceFree("x^2");
  }

  lemma SquareDistributionOfXRightFormed()
    ensures WellFormed("x*x")
  {
    RemoveSpacesOfSpaceFree("x*x");
  }

  lemma SquareDistributionOfXValues()
    ensures NoSpaces("x^2") && NoSpaces("x*x") && ValuesReadable([('a', "x")])
  {
  }

  lemma SquareDistributionOfXLeftOrdered()
    ensures SideOrderOk("x^2", [('a', "x")])
  {
    SquareDistributionOfXValues();
    SimpleValuesOrderOk("x^2", [('a', "x")]);
  }

  lemma SquareDistributionOfXRightOrdered()
    ensures SideOrderOk("x*x", [('a', "x")])
  {
    SquareDistributionOfXValues();
    SimpleValuesOrderOk("x*x", [('a', "x")]);
  }

  lemma SquareDistributionOfXSides()
    ensures ValidNames(HSquareDistribution) && ConclusionReadable(HSquareDistribution) && ParametersReadable(["x"])
    ensures InstantiateSides(HSquareDistribution, Some(["x"])) == Ok(("x^2", "x*x"))
  {
    SquareDistributionNames(); SquareDistributionSymbolic(); SquareDistributionLeftFormed(); SquareDistributionRightFormed();
    SquareDistributionOfXBindings(); SquareDistributionOfXParameters(); SquareDistributionOfXLeftSubstituted(); SquareDistributionOfXRightSubstituted();
    SquareDistributionOfXLeftFormed(); SquareDistributionOfXRightFormed(); SquareDistributionOfXValues(); SquareDistributionOfXLeftOrdered(); SquareDistributionOfXRightOrdered();
    InstantiateSidesOf(HSquareDistribution, Some(["x"]), ["x"], "a^2", "a*a", [('a', "x")], "x^2", "x*x");
  }

  lemma SquareDistributionOfXConstructed(reg: Name -> Declaration<Name>, fuel: nat)
    requires RegistryReadable(reg)
    requires reg(Addition) == AdditionDeclaration && reg(IdentityExponent) == IdentityExponentDeclaration && reg(PowerDistribution) == PowerDistributionDeclaration && reg(RemovalOfParenthesis) == RemovalOfParenthesisDeclaration
    ensures DeclarationReadable(SquareDistributionDeclaration) && ParametersReadable(["x"])
    ensures Instantiate(reg, SquareDistributionDeclaration, Some(["x"]), fuel + 2) == Ok(SquareDistributionOfX)
  {
    SquareDistributionDeclared(); SquareDistributionOfXSides();
    SquareDistributionStepsReadable(); SquareDistributionBuilt(reg, fuel);
    TheoremInstanceOf(reg, SquareDistributionDeclaration, HSquareDistribution, Some(["x"]), fuel + 2, SquareDistributionProof, SquareDistributionState6, "x^2", "x*x");
  }

  /** LitteralAddition(['2', '3', 'x']). */
  const LitteralAdditionOfTwoThreeX := Theorem(HLitteralAddition, Some(LitteralAdditionState4), "2*x+3*x", "5*x")

  lemma LitteralAdditionOfTwoThreeXUnknowns()
    ensures BindUnknowns([], ["a", "b", "x"], ["2", "3", "x"]) == [('a', "2"), ('b', "3"), ('x', "x")]
  {
    RemoveSpacesOfSpaceFree("2");
    RemoveSpacesOfSpaceFree("3");
    RemoveSpacesOfSpaceFree("x");
    assert BindUnknowns([], ["a", "b", "x"], ["2", "3", "x"]) == [('a', "2"), ('b', "3"), ('x', "x")];
  }

  lemma LitteralAdditionOfTwoThreeXSimplification0()
    ensures Substitute("a+b", [('a', "2"), ('b', "3"), ('x', "x")]) == "2+3"
    ensures Evaluate("2+3") == Some(5) && NatToString(5) == "5"
  {
    var dict := [('a', "2"), ('b', "3"), ('x', "x")];
    assert Substitute("b", dict) == "3";
    assert Substitute("+b", dict) == "+3";
    assert Substitute("a+b", dict) == "2+3";
  }

  lemma LitteralAdditionOfTwoThreeXBindings()
    ensures Bindings(HLitteralAddition, ["2", "3", "x"]) == Ok([('a', "2"), ('b', "3"), ('x', "x"), ('c', "5")])
  {
    LitteralAdditionOfTwoThreeXUnknowns();
    LitteralAdditionOfTwoThreeXSimplification0();
    assert HLitteralAddition.simplifications[0].expression == "a+b";
    assert Put([('a', "2"), ('b', "3"), ('x', "x")], 'c', "5") == [('a', "2"), ('b', "3"), ('x', "x"), ('c', "5")];
    assert HLitteralAddition.simplifications[1..] == [];
  }

  lemma LitteralAdditionOfTwoThreeXParameters()
    ensures ParametersReadable(["2", "3", "x"]) && Parameters(HLitteralAddition, Some(["2", "3", "x"])) == Ok(["2", "3", "x"])
  {
    UnspacedReadable(["2", "3", "x"]);
  }

  lemma LitteralAdditionOfTwoThreeXLeftSubstituted()
    ensures Substitute("a*x+b*x", [('a', "2"), ('b', "3"), ('x', "x"), ('c', "5")]) == "2*x+3*x"
  {
    var dict := [('a', "2"), ('b', "3"), ('x', "x"), ('c', "5")];
    assert Substitute("x", dict) == "x";
    assert Substitute("*x", dict) == "*x";
    assert Substitute("b*x", dict) == "3*x";
    assert Substitute("+b*x", dict) == "+3*x";
    assert Substitute("x+b*x", dict) == "x+3*x";
    assert Substitute("*x+b*x", dict) == "*x+3*x";
    assert Substitute("a*x+b*x", dict) == "2*x+3*x";
  }

  lemma LitteralAdditionOfTwoThreeXRightSubstituted()
    ensures Substitute("c*x", [('a', "2"), ('b', "3"), ('x', "x"), ('c', "5")]) == "5*x"
  {
    var dict := [('a', "2"), ('b', "3"), ('x', "x"), ('c', "5")];
    assert Substitute("x", dict) == "x";
    assert Substitute("*x", dict) == "*x";
    assert Substitute("c*x", dict) == "5*x";
  }

  lemma LitteralAdditionOfTwoThreeXLeftFormed()
    ensures WellFormed("2*x+3*x")
  {
    RemoveSpacesOfSpaceFree("2*x+3*x");
  }

  lemma LitteralAdditionOfTwoThreeXRightFormed()
    ensures WellFormed("5*x")
  {
    RemoveSpacesOfSpaceFree("5*x");
  }

  lemma LitteralAdditionOfTwoThreeXValues()
    ensures NoSpaces("2*x+3*x") && NoSpaces("5*x") && ValuesReadable([('a', "2"), ('b', "3"), ('x', "x"), ('c', "5")])
  {
  }

  lemma LitteralAdditionOfTwoThreeXLeftOrdered()
    ensures SideOrderOk("2*x+3*x", [('a', "2"), ('b', "3"), ('x', "x"), ('c', "5")])
  {
    LitteralAdditionOfTwoThreeXValues();
    SimpleValuesOrderOk("2*x+3*x", [('a', "2"), ('b', "3"), ('x', "x"), ('c', "5")]);
  }

  lemma LitteralAdditionOfTwoThreeXRightOrdered()
    ensures SideOrderOk("5*x", [('a', "2"), ('b', "3"), ('x', "x"), ('c', "5")])
  {
    LitteralAdditionOfTwoThreeXValues();
    SimpleValuesOrderOk("5*x", [('a', "2"), ('b', "3"), ('x', "x"), ('c', "5")]);
  }

  lemma LitteralAdditionOfTwoThreeXSides()
    ensures ValidNames(HLitteralAddition) && ConclusionReadable(HLitteralAddition) && ParametersReadable(["2", "3", "x"])
    ensures InstantiateSides(HLitteralAddition, Some(["2", "3", "x"])) == Ok(("2*x+3*x", "5*x"))
  {
    LitteralAdditionNames(); LitteralAdditionSymbolic(); LitteralAdditionLeftFormed(); LitteralAdditionRightFormed();
    LitteralAdditionOfTwoThreeXBindings(); LitteralAdditionOfTwoThreeXParameters(); LitteralAdditionOfTwoThreeXLeftSubstituted(); LitteralAdditionOfTwoThreeXRightSubstituted();
    LitteralAdditionOfTwoThreeXLeftFormed(); LitteralAdditionOfTwoThreeXRightFormed(); LitteralAdditionOfTwoThreeXValues(); LitteralAdditionOfTwoThreeXLeftOrdered(); LitteralAdditionOfTwoThreeXRightOrdered();
    InstantiateSidesOf(HLitteralAddition, Some(["2", "3", "x"]), ["2", "3", "x"], "a*x+b*x", "c*x", [('a', "2"), ('b', "3"), ('x', "x"), ('c', "5")], "2*x+3*x", "5*x");
  }

  lemma LitteralAdditionOfTwoThreeXConstructed(reg: Name -> Declaration<Name>, fuel: nat)
    requires RegistryReadable(reg)
    requires reg(LeftDistributivity) == LeftDistributivityDeclaration && reg(ProductCommutativity) == ProductCommutativityDeclaration && reg(RemovalOfParenthesis) == RemovalOfParenthesisDeclaration && reg(RightDistributivity) == RightDistributivityDeclaration
    ensures DeclarationReadable(LitteralAdditionDeclaration) && ParametersReadable(["2", "3", "x"])
    ensures Instantiate(reg, LitteralAdditionDeclaration, Some(["2", "3", "x"]), fuel + 2) == Ok(LitteralAdditionOfTwoThreeX)
  {
    LitteralAdditionDeclared(); LitteralAdditionOfTwoThreeXSides();
    LitteralAdditionStepsReadable(); LitteralAdditionBuilt(reg, fuel);
    TheoremInstanceOf(reg, LitteralAdditionDeclaration, HLitteralAddition, Some(["2", "3", "x"]), fuel + 2, LitteralAdditionProof, LitteralAdditionState4, "2*x+3*x", "5*x");
  }

  lemma RightDistributivityInstanceRecorded()
    ensures RightDistributivityInstance == Theorem(HRightDistributivity, Some(ProofRecord(["(a+b)*c", "a*c+b*c"], ["(a+b)*c", "c*(a+b)", "c*a+c*b", "a*c+c*b", "a*c+b*c"], [CommuteSumAndC, DistributeC, CommuteCAndA, CommuteBAndC], true)), "(a+b)*c", "a*c+b*c")
  {
    assert RightDistributivityState1.equalities == ["(a+b)*c", "c*(a+b)"];
    assert RightDistributivityState1.dependencies == [CommuteSumAndC];
    assert RightDistributivityState2.equalities == ["(a+b)*c", "c*(a+b)", "c*a+c*b"];
    assert RightDistributivityState2.dependencies == [CommuteSumAndC, DistributeC];
    assert RightDistributivityState3.equalities == ["(a+b)*c", "c*(a+b)", "c*a+c*b", "a*c+c*b"];
    assert RightDistributivityState3.dependencies == [CommuteSumAndC, DistributeC, CommuteCAndA];
    assert RightDistributivityState4.equalities == ["(a+b)*c", "c*(a+b)", "c*a+c*b", "a*c+c*b", "a*c+b*c"];
    assert RightDistributivityState4.dependencies == [CommuteSumAndC, DistributeC, CommuteCAndA, CommuteBAndC];
  }

  /** The construction of RightDistributivity(['a', 'b', 'c']) in any registry that declares the variants its proof uses as the theorem set does. */
  lemma RightDistributivityReplayed(reg: Name -> Declaration<Name>, fuel: nat)
    requires RegistryReadable(reg)
    requires reg(LeftDistributivity) == LeftDistributivityDeclaration && reg(ProductCommutativity) == ProductCommutativityDeclaration && reg(RightDistributivity) == RightDistributivityDeclaration
    ensures DeclarationReadable(reg(RightDistributivity))
    ensures Instantiate(reg, reg(RightDistributivity), Some(["a", "b", "c"]), fuel + 1) == Ok(Theorem(HRightDistributivity, Some(ProofRecord(["(a+b)*c", "a*c+b*c"], ["(a+b)*c", "c*(a+b)", "c*a+c*b", "a*c+c*b", "a*c+b*c"], [CommuteSumAndC, DistributeC, CommuteCAndA, CommuteBAndC], true)), "(a+b)*c", "a*c+b*c"))
  {
    RightDistributivityInstanceRecorded();
    RightDistributivityInstanceConstructed(reg, fuel);
  }

  /**
   * RightDistributivity(['a', 'b', 'c']) is constructed with the sides (a+b)*c and a*c+b*c and a finished
   * proof whose equalities and dependencies are those of its script.
   */
  lemma RightDistributivityProved(fuel: nat)
    ensures Instance(RightDistributivity, Some(["a", "b", "c"]), fuel + 1) == Ok(Theorem(HRightDistributivity, Some(ProofRecord(["(a+b)*c", "a*c+b*c"], ["(a+b)*c", "c*(a+b)", "c*a+c*b", "a*c+c*b", "a*c+b*c"], [CommuteSumAndC, DistributeC, CommuteCAndA, CommuteBAndC], true)), "(a+b)*c", "a*c+b*c"))
  {
    DeclareReadable(); DeclareGives();
    RightDistributivityReplayed(Declare, fuel);
  }

  lemma RightMultiplicationByIdentityInstanceRecorded()
    ensures RightMultiplicationByIdentityInstance == Theorem(HRightMultiplicationByIdentity, Some(ProofRecord(["a*1", "a"], ["a*1", "1*a", "a"], [CommuteAAndOne, OneTimesA], true)), "a*1", "a")
  {
    assert RightMultiplicationByIdentityState1.equalities == ["a*1", "1*a"];
    assert RightMultiplicationByIdentityState1.dependencies == [CommuteAAndOne];
    assert RightMultiplicationByIdentityState2.equalities == ["a*1", "1*a", "a"];
    assert RightMultiplicationByIdentityState2.dependencies == [CommuteAAndOne, OneTimesA];
  }

  /** The construction of RightMultiplicationByIdentity(['a']) in any registry that declares the variants its proof uses as the theorem set does. */
  lemma RightMultiplicationByIdentityReplayed(reg: Name -> Declaration<Name>, fuel: nat)
    requires RegistryReadable(reg)
    requires reg(LeftMultiplicationByIdentity) == LeftMultiplicationByIdentityDeclaration && reg(ProductCommutativity) == ProductCommutativityDeclaration && reg(RightMultiplicationByIdentity) == RightMultiplicationByIdentityDeclaration
    ensures DeclarationReadable(reg(RightMultiplicationByIdentity))
    ensures Instantiate(reg, reg(RightMultiplicationByIdentity), Some(["a"]), fuel + 1) == Ok(Theorem(HRightMultiplicationByIdentity, Some(ProofRecord(["a*1", "a"], ["a*1", "1*a", "a"], [CommuteAAndOne, OneTimesA], true)), "a*1", "a"))
  {
    RightMultiplicationByIdentityInstanceRecorded();
    RightMultiplicationByIdentityInstanceConstructed(reg, fuel);
  }

  /**
   * RightMultiplicationByIdentity(['a']) is constructed with the sides a*1 and a and a finished
   * proof whose equalities and dependencies are those of its script.
   */
  lemma RightMultiplicationByIdentityProved(fuel: nat)
    ensures Instance(RightMultiplicationByIdentity, Some(["a"]), fuel + 1) == Ok(Theorem(HRightMultiplicationByIdentity, Some(ProofRecord(["a*1", "a"], ["a*1", "1*a", "a"], [CommuteAAndOne, OneTimesA], true)), "a*1", "a"))
  {
    DeclareReadable(); DeclareGives();
    RightMultiplicationByIdentityReplayed(Declare, fuel);
  }

  lemma AdditionOfTwoAndThreeRecorded()
    ensures AdditionOfTwoAndThree == Theorem(HAddition, Some(ProofRecord(["a+b", "c"], ["a+b", "c"], [], true)), "2+3", "5")
  {
    assert AdditionState1.equalities == ["a+b", "c"];
  }

  /** The construction of Addition(['2', '3']) in any registry that declares the variants its proof uses as the theorem set does. */
  lemma AdditionReplayed(reg: Name -> Declaration<Name>, fuel: nat)
    requires RegistryReadable(reg)
    requires reg(Addition) == AdditionDeclaration
    ensures DeclarationReadable(reg(Addition))
    ensures Instantiate(reg, reg(Addition), Some(["2", "3"]), fuel + 1) == Ok(Theorem(HAddition, Some(ProofRecord(["a+b", "c"], ["a+b", "c"], [], true)), "2+3", "5"))
  {
    AdditionOfTwoAndThreeRecorded();
    AdditionOfTwoAndThreeConstructed(reg, fuel);
  }

  /**
   * Addition(['2', '3']) is constructed with the sides 2+3 and 5 and a finished
   * proof whose equalities and dependencies are those of its script.
   */
  lemma AdditionProved(fuel: nat)
    ensures Instance(Addition, Some(["2", "3"]), fuel + 1) == Ok(Theorem(HAddition, Some(ProofRecord(["a+b", "c"], ["a+b", "c"], [], true)), "2+3", "5"))
  {
    DeclareReadable(); DeclareGives();
    AdditionReplayed(Declare, fuel);
  }

  lemma ProductOfTwoAndThreeRecorded()
    ensures ProductOfTwoAndThree == Theorem(HProduct, Some(ProofRecord(["a*b", "c"], ["a*b", "c"], [], true)), "2*3", "6")
  {
    assert ProductState1.equalities == ["a*b", "c"];
  }

  /** The construction of Product(['2', '3']) in any registry that declares the variants its proof uses as the theorem set does. */
  lemma ProductReplayed(reg: Name -> Declaration<Name>, fuel: nat)
    requires RegistryReadable(reg)
    requires reg(Product) == ProductDeclaration
    ensures DeclarationReadable(reg(Product))
    ensures Instantiate(reg, reg(Product), Some(["2", "3"]), fuel + 1) == Ok(Theorem(HProduct, Some(ProofRecord(["a*b", "c"], ["a*b", "c"], [], true)), "2*3", "6"))
  {
    ProductOfTwoAndThreeRecorded();
    ProductOfTwoAndThreeConstructed(reg, fuel);
  }

  /**
   * Product(['2', '3']) is constructed with the sides 2*3 and 6 and a finished
   * proof whose equalities and dependencies are those of its script.
   */
  lemma ProductProved(fuel: nat)
    ensures Instance(Product, Some(["2", "3"]), fuel + 1) == Ok(Theorem(HProduct, Some(ProofRecord(["a*b", "c"], ["a*b", "c"], [], true)), "2*3", "6"))
  {
    DeclareReadable(); DeclareGives();
    ProductReplayed(Declare, fuel);
  }

  lemma PowerOfTwoAndThreeRecorded()
    ensures PowerOfTwoAndThree == Theorem(HPower, Some(ProofRecord(["a^b", "c"], ["a^b", "c"], [], true)), "2^3", "8")
  {
    assert PowerState1.equalities == ["a^b", "c"];
  }

  /** The construction of Power(['2', '3']) in any registry that declares the variants its proof uses as the theorem set does. */
  lemma PowerReplayed(reg: Name -> Declaration<Name>, fuel: nat)
    requires RegistryReadable(reg)
    requires reg(Power) == PowerDeclaration
    ensures DeclarationReadable(reg(Power))
    ensures Instantiate(reg, reg(Power), Some(["2", "3"]), fuel + 1) == Ok(Theorem(HPower, Some(ProofRecord(["a^b", "c"], ["a^b", "c"], [], true)), "2^3", "8"))
  {
    PowerOfTwoAndThreeRecorded();
    PowerOfTwoAndThreeConstructed(reg, fuel);
  }

  /**
   * Power(['2', '3']) is constructed with the sides 2^3 and 8 and a finished
   * proof whose equalities and dependencies are those of its script.
   */
  lemma PowerProved(fuel: nat)
    ensures Instance(Power, Some(["2", "3"]), fuel + 1) == Ok(Theorem(HPower, Some(ProofRecord(["a^b", "c"], ["a^b", "c"], [], true)), "2^3", "8"))
  {
    DeclareReadable(); DeclareGives();
    PowerReplayed(Declare, fuel);
  }

  lemma SquareDistributionOfXRecorded()
    ensures SquareDistributionOfX == Theorem(HSquareDistribution, Some(ProofRecord(["a^2", "a*a"], ["a^2", "a^(2)", "a^(1+1)", "a^1*a^1", "a*a^1", "a*a"], [ParenthesizeTwo, OnePlusOne, AddExponents, AToTheOne, AToTheOne], true)), "x^2", "x*x")
  {
    assert SquareDistributionState1.equalities == ["a^2", "a^(2)"];
    assert SquareDistributionState1.dependencies == [ParenthesizeTwo];
    assert SquareDistributionState2.equalities == ["a^2", "a^(2)", "a^(1+1)"];
    assert SquareDistributionState2.dependencies == [ParenthesizeTwo, OnePlusOne];
    assert SquareDistributionState3.equalities == ["a^2", "a^(2)", "a^(1+1)", "a^1*a^1"];
    assert SquareDistributionState3.dependencies == [ParenthesizeTwo, OnePlusOne, AddExponents];
    assert SquareDistributionState4.equalities == ["a^2", "a^(2)", "a^(1+1)", "a^1*a^1", "a*a^1"];
    assert SquareDistributionState4.dependencies == [ParenthesizeTwo, OnePlusOne, AddExponents, AToTheOne];
    assert SquareDistributionState5.equalities == ["a^2", "a^(2)", "a^(1+1)", "a^1*a^1", "a*a^1", "a*a"];
    assert SquareDistributionState5.dependencies == [ParenthesizeTwo, OnePlusOne, AddExponents, AToTheOne, AToTheOne];
  }

  /** The construction of SquareDistribution(['x']) in any registry that declares the variants its proof uses as the theorem set does. */
  lemma SquareDistributionReplayed(reg: Name -> Declaration<Name>, fuel: nat)
    requires RegistryReadable(reg)
    requires reg(Addition) == AdditionDeclaration && reg(IdentityExponent) == IdentityExponentDeclaration && reg(PowerDistribution) == PowerDistributionDeclaration && reg(RemovalOfParenthesis) == RemovalOfParenthesisDeclaration && reg(SquareDistribution) == SquareDistributionDeclaration
    ensures DeclarationReadable(reg(SquareDistribution))
    ensures Instantiate(reg, reg(SquareDistribution), Some(["x"]), fuel + 2) == Ok(Theorem(HSquareDistribution, Some(ProofRecord(["a^2", "a*a"], ["a^2", "a^(2)", "a^(1+1)", "a^1*a^1", "a*a^1", "a*a"], [ParenthesizeTwo, OnePlusOne, AddExponents, AToTheOne, AToTheOne], true)), "x^2", "x*x"))
  {
    SquareDistributionOfXRecorded();
    SquareDistributionOfXConstructed(reg, fuel);
  }

  /**
   * SquareDistribution(['x']) is constructed with the sides x^2 and x*x and a finished
   * proof whose equalities and dependencies are those of its script.
   */
  lemma SquareDistributionProved(fuel: nat)
    ensures Instance(SquareDistribution, Some(["x"]), fuel + 2) == Ok(Theorem(HSquareDistribution, Some(ProofRecord(["a^2", "a*a"], ["a^2", "a^(2)", "a^(1+1)", "a^1*a^1", "a*a^1", "a*a"], [ParenthesizeTwo, OnePlusOne, AddExponents, AToTheOne, AToTheOne], true)), "x^2", "x*x"))
  {
    DeclareReadable(); DeclareGives();
    SquareDistributionReplayed(Declare, fuel);
  }

  lemma LitteralAdditionOfTwoThreeXRecorded()
    ensures LitteralAdditionOfTwoThreeX == Theorem(HLitteralAddition, Some(ProofRecord(["a*x+b*x", "c*x"], ["a*x+b*x", "(a+b)*x", "(c)*x", "c*x"], [DistributeX, UnparenthesizeC], true)), "2*x+3*x", "5*x")
  {
    assert LitteralAdditionState1.equalities == ["a*x+b*x", "(a+b)*x"];
    assert LitteralAdditionState1.dependencies == [DistributeX];
    assert LitteralAdditionState2.equalities == ["a*x+b*x", "(a+b)*x", "(c)*x"];
    assert LitteralAdditionState3.equalities == ["a*x+b*x", "(a+b)*x", "(c)*x", "c*x"];
    assert LitteralAdditionState3.dependencies == [DistributeX, UnparenthesizeC];
  }

  /** The construction of LitteralAddition(['2', '3', 'x']) in any registry that declares the variants its proof uses as the theorem set does. */
  lemma LitteralAdditionReplayed(reg: Name -> Declaration<Name>, fuel: nat)
    requires RegistryReadable(reg)
    requires reg(LeftDistributivity) == LeftDistributivityDeclaration && reg(LitteralAddition) == LitteralAdditionDeclaration && reg(ProductCommutativity) == ProductCommutativityDeclaration && reg(RemovalOfParenthesis) == RemovalOfParenthesisDeclaration && reg(RightDistributivity) == RightDistributivityDeclaration
    ensures DeclarationReadable(reg(LitteralAddition))
    ensures Instantiate(reg, reg(LitteralAddition), Some(["2", "3", "x"]), fuel + 2) == Ok(Theorem(HLitteralAddition, Some(ProofRecord(["a*x+b*x", "c*x"], ["a*x+b*x", "(a+b)*x", "(c)*x", "c*x"], [DistributeX, UnparenthesizeC], true)), "2*x+3*x", "5*x"))
  {
    LitteralAdditionOfTwoThreeXRecorded();
    LitteralAdditionOfTwoThreeXConstructed(reg, fuel);
  }

  /**
   * LitteralAddition(['2', '3', 'x']) is constructed with the sides 2*x+3*x and 5*x and a finished
   * proof whose equalities and dependencies are those of its script.
   */
  lemma LitteralAdditionProved(fuel: nat)
    ensures Instance(LitteralAddition, Some(["2", "3", "x"]), fuel + 2) == Ok(Theorem(HLitteralAddition, Some(ProofRecord(["a*x+b*x", "c*x"], ["a*x+b*x", "(a+b)*x", "(c)*x", "c*x"], [DistributeX, UnparenthesizeC], true)), "2*x+3*x", "5*x"))
  {
    DeclareReadable(); DeclareGives();
    LitteralAdditionReplayed(Declare, fuel);
  }
}
