/*
 * The checks of the constructor that depend only on the declaration, for the variants the replays use.
 */
module ReplayHeaders {
  import opened Wrappers
  import opened TextGestion
  import opened Theorems
  import opened Proofs
  import opened Construction
  import opened TheoremSet

  const HProductCommutativity := Header("the commutativity of the product", Equation("a*b", "b*a"), ["a", "b"], [])

  lemma ProductCommutativityHeader()
    ensures HeaderOf(ProductCommutativityDeclaration) == HProductCommutativity && ProductCommutativityDeclaration.proof == None
  {
  }

  lemma ProductCommutativityNames()
    ensures ValidNames(HProductCommutativity)
  {
  }

  lemma ProductCommutativityUnbound()
    ensures FirstUnbound(HProductCommutativity, HProductCommutativity.conclusion) == None
  {
    FirstUnboundNone(HProductCommutativity, HProductCommutativity.conclusion);
  }

  lemma ProductCommutativitySymbolic()
    ensures ConclusionReadable(HProductCommutativity) && SymbolicSides(HProductCommutativity) == ("a*b", "b*a")
    ensures Split(RemoveSpaces(HProductCommutativity.conclusion), "=") == ["a*b", "b*a"]
  {
    SymbolicSidesOf(HProductCommutativity, "a*b", "b*a");
    RemoveSpacesOfSpaceFree("a*b");
    RemoveSpacesOfSpaceFree("b*a");
  }

  lemma ProductCommutativityLeftFormed()
    ensures WellFormed("a*b")
  {
    RemoveSpacesOfSpaceFree("a*b");
  }

  lemma ProductCommutativityRightFormed()
    ensures WellFormed("b*a")
  {
    RemoveSpacesOfSpaceFree("b*a");
  }

  /** The checks of the constructor that do not depend on the parameters pass for ProductCommutativity. */
  lemma ProductCommutativityDeclared()
    ensures HeaderOf(ProductCommutativityDeclaration) == HProductCommutativity && DeclarationReadable(ProductCommutativityDeclaration) && ProductCommutativityDeclaration.proof == None
    ensures ValidNames(HProductCommutativity) && FirstUnbound(HProductCommutativity, HProductCommutativity.conclusion) == None
    ensures ConclusionReadable(HProductCommutativity) && SymbolicSides(HProductCommutativity) == ("a*b", "b*a")
    ensures Split(RemoveSpaces(HProductCommutativity.conclusion), "=") == ["a*b", "b*a"]
    ensures WellFormed("a*b") && WellFormed("b*a")
  {
    ProductCommutativityHeader(); ProductCommutativityNames(); ProductCommutativityUnbound(); ProductCommutativitySymbolic(); ProductCommutativityLeftFormed(); ProductCommutativityRightFormed(); ProductCommutativityReadable();
  }

  const HLeftDistributivity := Header("the left distributivity of the product", Equation("a*(b + c)", "a*b + a*c"), ["a", "b", "c"], [])

  lemma LeftDistributivityHeader()
    ensures HeaderOf(LeftDistributivityDeclaration) == HLeftDistributivity && LeftDistributivityDeclaration.proof == None
  {
  }

  lemma LeftDistributivityNames()
    ensures ValidNames(HLeftDistributivity)
  {
  }

  lemma LeftDistributivityUnbound()
    ensures FirstUnbound(HLeftDistributivity, HLeftDistributivity.conclusion) == None
  {
    FirstUnboundNone(HLeftDistributivity, HLeftDistributivity.conclusion);
  }

  lemma LeftDistributivityLeftUnspaced()
    ensures RemoveSpaces("a*(b + c)") == "a*(b+c)"
  {
  }

  lemma LeftDistributivityRightUnspaced()
    ensures RemoveSpaces("a*b + a*c") == "a*b+a*c"
  {
  }

  lemma LeftDistributivitySymbolic()
    ensures ConclusionReadable(HLeftDistributivity) && SymbolicSides(HLeftDistributivity) == ("a*(b+c)", "a*b+a*c")
    ensures Split(RemoveSpaces(HLeftDistributivity.conclusion), "=") == ["a*(b+c)", "a*b+a*c"]
  {
    SymbolicSidesOf(HLeftDistributivity, "a*(b + c)", "a*b + a*c");
    LeftDistributivityLeftUnspaced();
    LeftDistributivityRightUnspaced();
  }

  lemma LeftDistributivityLeftFormed()
    ensures WellFormed("a*(b+c)")
  {
    RemoveSpacesOfSpaceFree("a*(b+c)");
  }

  lemma LeftDistributivityRightFormed()
    ensures WellFormed("a*b+a*c")
  {
    RemoveSpacesOfSpaceFree("a*b+a*c");
  }

  /** The checks of the constructor that do not depend on the parameters pass for LeftDistributivity. */
  lemma LeftDistributivityDeclared()
    ensures HeaderOf(LeftDistributivityDeclaration) == HLeftDistributivity && DeclarationReadable(LeftDistributivityDeclaration) && LeftDistributivityDeclaration.proof == None
    ensures ValidNames(HLeftDistributivity) && FirstUnbound(HLeftDistributivity, HLeftDistributivity.conclusion) == None
    ensures ConclusionReadable(HLeftDistributivity) && SymbolicSides(HLeftDistributivity) == ("a*(b+c)", "a*b+a*c")
    ensures Split(RemoveSpaces(HLeftDistributivity.conclusion), "=") == ["a*(b+c)", "a*b+a*c"]
    ensures WellFormed("a*(b+c)") && WellFormed("a*b+a*c")
  {
    LeftDistributivityHeader(); LeftDistributivityNames(); LeftDistributivityUnbound(); LeftDistributivitySymbolic(); LeftDistributivityLeftFormed(); LeftDistributivityRightFormed(); LeftDistributivityReadable();
  }

  const HRemovalOfParenthesis := Header("the removal of parenthesis", Equation("(a)", "a"), ["a"], [])

  lemma RemovalOfParenthesisHeader()
    ensures HeaderOf(RemovalOfParenthesisDeclaration) == HRemovalOfParenthesis && RemovalOfParenthesisDeclaration.proof == None
  {
  }

  lemma RemovalOfParenthesisNames()
    ensures ValidNames(HRemovalOfParenthesis)
  {
  }

  lemma RemovalOfParenthesisUnbound()
    ensures FirstUnbound(HRemovalOfParenthesis, HRemovalOfParenthesis.conclusion) == None
  {
    FirstUnboundNone(HRemovalOfParenthesis, HRemovalOfParenthesis.conclusion);
  }

  lemma RemovalOfParenthesisSymbolic()
    ensures ConclusionReadable(HRemovalOfParenthesis) && SymbolicSides(HRemovalOfParenthesis) == ("(a)", "a")
    ensures Split(RemoveSpaces(HRemovalOfParenthesis.conclusion), "=") == ["(a)", "a"]
  {
    SymbolicSidesOf(HRemovalOfParenthesis, "(a)", "a");
    RemoveSpacesOfSpaceFree("(a)");
    RemoveSpacesOfSpaceFree("a");
  }

  lemma RemovalOfParenthesisLeftFormed()
    ensures WellFormed("(a)")
  {
    RemoveSpacesOfSpaceFree("(a)");
  }

  lemma RemovalOfParenthesisRightFormed()
    ensures WellFormed("a")
  {
    RemoveSpacesOfSpaceFree("a");
  }

  /** The checks of the constructor that do not depend on the parameters pass for RemovalOfParenthesis. */
  lemma RemovalOfParenthesisDeclared()
    ensures HeaderOf(RemovalOfParenthesisDeclaration) == HRemovalOfParenthesis && DeclarationReadable(RemovalOfParenthesisDeclaration) && RemovalOfParenthesisDeclaration.proof == None
    ensures ValidNames(HRemovalOfParenthesis) && FirstUnbound(HRemovalOfParenthesis, HRemovalOfParenthesis.conclusion) == None
    ensures ConclusionReadable(HRemovalOfParenthesis) && SymbolicSides(HRemovalOfParenthesis) == ("(a)", "a")
    ensures Split(RemoveSpaces(HRemovalOfParenthesis.conclusion), "=") == ["(a)", "a"]
    ensures WellFormed("(a)") && WellFormed("a")
  {
    RemovalOfParenthesisHeader(); RemovalOfParenthesisNames(); RemovalOfParenthesisUnbound(); RemovalOfParenthesisSymbolic(); RemovalOfParenthesisLeftFormed(); RemovalOfParenthesisRightFormed(); RemovalOfParenthesisReadable();
  }

  const HLeftMultiplicationByIdentity := Header("the left multiplication by the identity", Equation("1*a", "a"), ["a"], [])

  lemma LeftMultiplicationByIdentityHeader()
    ensures HeaderOf(LeftMultiplicationByIdentityDeclaration) == HLeftMultiplicationByIdentity && LeftMultiplicationByIdentityDeclaration.proof == None
  {
  }

  lemma LeftMultiplicationByIdentityNames()
    ensures ValidNames(HLeftMultiplicationByIdentity)
  {
  }

  lemma LeftMultiplicationByIdentityUnbound()
    ensures FirstUnbound(HLeftMultiplicationByIdentity, HLeftMultiplicationByIdentity.conclusion) == None
  {
    FirstUnboundNone(HLeftMultiplicationByIdentity, HLeftMultiplicationByIdentity.conclusion);
  }

  lemma LeftMultiplicationByIdentitySymbolic()
    ensures ConclusionReadable(HLeftMultiplicationByIdentity) && SymbolicSides(HLeftMultiplicationByIdentity) == ("1*a", "a")
    ensures Split(RemoveSpaces(HLeftMultiplicationByIdentity.conclusion), "=") == ["1*a", "a"]
  {
    SymbolicSidesOf(HLeftMultiplicationByIdentity, "1*a", "a");
    RemoveSpacesOfSpaceFree("1*a");
    RemoveSpacesOfSpaceFree("a");
  }

  lemma LeftMultiplicationByIdentityLeftFormed()
    ensures WellFormed("1*a")
  {
    RemoveSpacesOfSpaceFree("1*a");
  }

  lemma LeftMultiplicationByIdentityRightFormed()
    ensures WellFormed("a")
  {
    RemoveSpacesOfSpaceFree("a");
  }

  /** The checks of the constructor that do not depend on the parameters pass for LeftMultiplicationByIdentity. */
  lemma LeftMultiplicationByIdentityDeclared()
    ensures HeaderOf(LeftMultiplicationByIdentityDeclaration) == HLeftMultiplicationByIdentity && DeclarationReadable(LeftMultiplicationByIdentityDeclaration) && LeftMultiplicationByIdentityDeclaration.proof == None
    ensures ValidNames(HLeftMultiplicationByIdentity) && FirstUnbound(HLeftMultiplicationByIdentity, HLeftMultiplicationByIdentity.conclusion) == None
    ensures ConclusionReadable(HLeftMultiplicationByIdentity) && SymbolicSides(HLeftMultiplicationByIdentity) == ("1*a", "a")
    ensures Split(RemoveSpaces(HLeftMultiplicationByIdentity.conclusion), "=") == ["1*a", "a"]
    ensures WellFormed("1*a") && WellFormed("a")
  {
    LeftMultiplicationByIdentityHeader(); LeftMultiplicationByIdentityNames(); LeftMultiplicationByIdentityUnbound(); LeftMultiplicationByIdentitySymbolic(); LeftMultiplicationByIdentityLeftFormed(); LeftMultiplicationByIdentityRightFormed(); LeftMultiplicationByIdentityReadable();
  }

  const HIdentityExponent := Header("the identity exponent", Equation("a^1", "a"), ["a"], [])

  lemma IdentityExponentHeader()
    ensures HeaderOf(IdentityExponentDeclaration) == HIdentityExponent && IdentityExponentDeclaration.proof == None
  {
  }

  lemma IdentityExponentNames()
    ensures ValidNames(HIdentityExponent)
  {
  }

  lemma IdentityExponentUnbound()
    ensures FirstUnbound(HIdentityExponent, HIdentityExponent.conclusion) == None
  {
    FirstUnboundNone(HIdentityExponent, HIdentityExponent.conclusion);
  }

  lemma IdentityExponentSymbolic()
    ensures ConclusionReadable(HIdentityExponent) && SymbolicSides(HIdentityExponent) == ("a^1", "a")
    ensures Split(RemoveSpaces(HIdentityExponent.conclusion), "=") == ["a^1", "a"]
  {
    SymbolicSidesOf(HIdentityExponent, "a^1", "a");
    RemoveSpacesOfSpaceFree("a^1");
    RemoveSpacesOfSpaceFree("a");
  }

  lemma IdentityExponentLeftFormed()
    ensures WellFormed("a^1")
  {
    RemoveSpacesOfSpaceFree("a^1");
  }

  lemma IdentityExponentRightFormed()
    ensures WellFormed("a")
  {
    RemoveSpacesOfSpaceFree("a");
  }

  /** The checks of the constructor that do not depend on the parameters pass for IdentityExponent. */
  lemma IdentityExponentDeclared()
    ensures HeaderOf(IdentityExponentDeclaration) == HIdentityExponent && DeclarationReadable(IdentityExponentDeclaration) && IdentityExponentDeclaration.proof == None
    ensures ValidNames(HIdentityExponent) && FirstUnbound(HIdentityExponent, HIdentityExponent.conclusion) == None
    ensures ConclusionReadable(HIdentityExponent) && SymbolicSides(HIdentityExponent) == ("a^1", "a")
    ensures Split(RemoveSpaces(HIdentityExponent.conclusion), "=") == ["a^1", "a"]
    ensures WellFormed("a^1") && WellFormed("a")
  {
    IdentityExponentHeader(); IdentityExponentNames(); IdentityExponentUnbound(); IdentityExponentSymbolic(); IdentityExponentLeftFormed(); IdentityExponentRightFormed(); IdentityExponentReadable();
  }

  const HPowerDistribution := Header("the power distribution", Equation("b^x * b^y", "b^(x + y)"), ["b", "x", "y"], [])

  lemma PowerDistributionHeader()
    ensures HeaderOf(PowerDistributionDeclaration) == HPowerDistribution && PowerDistributionDeclaration.proof == None
  {
  }

  lemma PowerDistributionNames()
    ensures ValidNames(HPowerDistribution)
  {
  }

  lemma PowerDistributionUnbound()
    ensures FirstUnbound(HPowerDistribution, HPowerDistribution.conclusion) == None
  {
    FirstUnboundNone(HPowerDistribution, HPowerDistribution.conclusion);
  }

  lemma PowerDistributionLeftUnspaced()
    ensures RemoveSpaces("b^x * b^y") == "b^x*b^y"
  {
  }

  lemma PowerDistributionRightUnspaced()
    ensures RemoveSpaces("b^(x + y)") == "b^(x+y)"
  {
  }

  lemma PowerDistributionSymbolic()
    ensures ConclusionReadable(HPowerDistribution) && SymbolicSides(HPowerDistribution) == ("b^x*b^y", "b^(x+y)")
    ensures Split(RemoveSpaces(HPowerDistribution.conclusion), "=") == ["b^x*b^y", "b^(x+y)"]
  {
    SymbolicSidesOf(HPowerDistribution, "b^x * b^y", "b^(x + y)");
    PowerDistributionLeftUnspaced();
    PowerDistributionRightUnspaced();
  }

  lemma PowerDistributionLeftFormed()
    ensures WellFormed("b^x*b^y")
  {
    RemoveSpacesOfSpaceFree("b^x*b^y");
  }

  lemma PowerDistributionRightFormed()
    ensures WellFormed("b^(x+y)")
  {
    RemoveSpacesOfSpaceFree("b^(x+y)");
  }

  /** The checks of the constructor that do not depend on the parameters pass for PowerDistribution. */
  lemma PowerDistributionDeclared()
    ensures HeaderOf(PowerDistributionDeclaration) == HPowerDistribution && DeclarationReadable(PowerDistributionDeclaration) && PowerDistributionDeclaration.proof == None
    ensures ValidNames(HPowerDistribution) && FirstUnbound(HPowerDistribution, HPowerDistribution.conclusion) == None
    ensures ConclusionReadable(HPowerDistribution) && SymbolicSides(HPowerDistribution) == ("b^x*b^y", "b^(x+y)")
    ensures Split(RemoveSpaces(HPowerDistribution.conclusion), "=") == ["b^x*b^y", "b^(x+y)"]
    ensures WellFormed("b^x*b^y") && WellFormed("b^(x+y)")
  {
    PowerDistributionHeader(); PowerDistributionNames(); PowerDistributionUnbound(); PowerDistributionSymbolic(); PowerDistributionLeftFormed(); PowerDistributionRightFormed(); PowerDistributionReadable();
  }

  const HAddition := Header("the addition", Equation("a + b", "c"), ["a", "b"], [Simplification("c", "a+b")])

  lemma AdditionSimplification0()
    ensures RemoveSpaces("a + b") == "a+b"
  {
  }

  lemma AdditionHeader()
    ensures HeaderOf(AdditionDeclaration) == HAddition && AdditionDeclaration.proof == Some(AdditionProof)
  {
    AdditionSimplification0();
  }

  lemma AdditionNames()
    ensures ValidNames(HAddition)
  {
  }

  lemma AdditionNamed()
    ensures HasInstantiatedCharacter(HAddition, 'c')
  {
    assert HAddition.simplifications[0].name == "c";
  }

  lemma AdditionUnbound()
    ensures FirstUnbound(HAddition, HAddition.conclusion) == None
  {
    AdditionNamed();
    FirstUnboundNone(HAddition, HAddition.conclusion);
  }

  lemma AdditionSymbolic()
    ensures ConclusionReadable(HAddition) && SymbolicSides(HAddition) == ("a+b", "c")
    ensures Split(RemoveSpaces(HAddition.conclusion), "=") == ["a+b", "c"]
  {
    SymbolicSidesOf(HAddition, "a + b", "c");
    AdditionSimplification0();
    RemoveSpacesOfSpaceFree("c");
  }

  lemma AdditionLeftFormed()
    ensures WellFormed("a+b")
  {
    RemoveSpacesOfSpaceFree("a+b");
  }

  lemma AdditionRightFormed()
    ensures WellFormed("c")
  {
    RemoveSpacesOfSpaceFree("c");
  }

  /** The checks of the constructor that do not depend on the parameters pass for Addition. */
  lemma AdditionDeclared()
    ensures HeaderOf(AdditionDeclaration) == HAddition && DeclarationReadable(AdditionDeclaration) && AdditionDeclaration.proof == Some(AdditionProof)
    ensures ValidNames(HAddition) && FirstUnbound(HAddition, HAddition.conclusion) == None
    ensures ConclusionReadable(HAddition) && SymbolicSides(HAddition) == ("a+b", "c")
    ensures Split(RemoveSpaces(HAddition.conclusion), "=") == ["a+b", "c"]
    ensures WellFormed("a+b") && WellFormed("c")
  {
    AdditionHeader(); AdditionNames(); AdditionUnbound(); AdditionSymbolic(); AdditionLeftFormed(); AdditionRightFormed(); AdditionReadable();
  }

  const HProduct := Header("the product", Equation("a * b", "c"), ["a", "b"], [Simplification("c", "a*b")])

  lemma ProductSimplification0()
    ensures RemoveSpaces("a * b") == "a*b"
  {
  }

  lemma ProductHeader()
    ensures HeaderOf(ProductDeclaration) == HProduct && ProductDeclaration.proof == Some(ProductProof)
  {
    ProductSimplification0();
  }

  lemma ProductNames()
    ensures ValidNames(HProduct)
  {
  }

  lemma ProductNamed()
    ensures HasInstantiatedCharacter(HProduct, 'c')
  {
    assert HProduct.simplifications[0].name == "c";
  }

  lemma ProductUnbound()
    ensures FirstUnbound(HProduct, HProduct.conclusion) == None
  {
    ProductNamed();
    FirstUnboundNone(HProduct, HProduct.conclusion);
  }

  lemma ProductSymbolic()
    ensures ConclusionReadable(HProduct) && SymbolicSides(HProduct) == ("a*b", "c")
    ensures Split(RemoveSpaces(HProduct.conclusion), "=") == ["a*b", "c"]
  {
    SymbolicSidesOf(HProduct, "a * b", "c");
    ProductSimplification0();
    RemoveSpacesOfSpaceFree("c");
  }

  lemma ProductLeftFormed()
    ensures WellFormed("a*b")
  {
    RemoveSpacesOfSpaceFree("a*b");
  }

  lemma ProductRightFormed()
    ensures WellFormed("c")
  {
    RemoveSpacesOfSpaceFree("c");
  }

  /** The checks of the constructor that do not depend on the parameters pass for Product. */
  lemma ProductDeclared()
    ensures HeaderOf(ProductDeclaration) == HProduct && DeclarationReadable(ProductDeclaration) && ProductDeclaration.proof == Some(ProductProof)
    ensures ValidNames(HProduct) && FirstUnbound(HProduct, HProduct.conclusion) == None
    ensures ConclusionReadable(HProduct) && SymbolicSides(HProduct) == ("a*b", "c")
    ensures Split(RemoveSpaces(HProduct.conclusion), "=") == ["a*b", "c"]
    ensures WellFormed("a*b") && WellFormed("c")
  {
    ProductHeader(); ProductNames(); ProductUnbound(); ProductSymbolic(); ProductLeftFormed(); ProductRightFormed(); ProductReadable();
  }

  const HPower := Header("the power", Equation("a^b", "c"), ["a", "b"], [Simplification("c", "a^b")])

  lemma PowerHeader()
    ensures HeaderOf(PowerDeclaration) == HPower && PowerDeclaration.proof == Some(PowerProof)
  {
    RemoveSpacesOfSpaceFree("a^b");
  }

  lemma PowerNames()
    ensures ValidNames(HPower)
  {
  }

  lemma PowerNamed()
    ensures HasInstantiatedCharacter(HPower, 'c')
  {
    assert HPower.simplifications[0].name == "c";
  }

  lemma PowerUnbound()
    ensures FirstUnbound(HPower, HPower.conclusion) == None
  {
    PowerNamed();
    FirstUnboundNone(HPower, HPower.conclusion);
  }

  lemma PowerSymbolic()
    ensures ConclusionReadable(HPower) && SymbolicSides(HPower) == ("a^b", "c")
    ensures Split(RemoveSpaces(HPower.conclusion), "=") == ["a^b", "c"]
  {
    SymbolicSidesOf(HPower, "a^b", "c");
    RemoveSpacesOfSpaceFree("a^b");
    RemoveSpacesOfSpaceFree("c");
  }

  lemma PowerLeftFormed()
    ensures WellFormed("a^b")
  {
    RemoveSpacesOfSpaceFree("a^b");
  }

  lemma PowerRightFormed()
    ensures WellFormed("c")
  {
    RemoveSpacesOfSpaceFree("c");
  }

  /** The checks of the constructor that do not depend on the parameters pass for Power. */
  lemma PowerDeclared()
    ensures HeaderOf(PowerDeclaration) == HPower && DeclarationReadable(PowerDeclaration) && PowerDeclaration.proof == Some(PowerProof)
    ensures ValidNames(HPower) && FirstUnbound(HPower, HPower.conclusion) == None
    ensures ConclusionReadable(HPower) && SymbolicSides(HPower) == ("a^b", "c")
    ensures Split(RemoveSpaces(HPower.conclusion), "=") == ["a^b", "c"]
    ensures WellFormed("a^b") && WellFormed("c")
  {
    PowerHeader(); PowerNames(); PowerUnbound(); PowerSymbolic(); PowerLeftFormed(); PowerRightFormed(); PowerReadable();
  }

  const HRightDistributivity := Header("the right distributivity of the product", Equation("(a + b)*c", "a*c + b*c"), ["a", "b", "c"], [])

  lemma RightDistributivityHeader()
    ensures HeaderOf(RightDistributivityDeclaration) == HRightDistributivity && RightDistributivityDeclaration.proof == Some(RightDistributivityProof)
  {
  }

  lemma RightDistributivityNames()
    ensures ValidNames(HRightDistributivity)
  {
  }

  lemma RightDistributivityUnbound()
    ensures FirstUnbound(HRightDistributivity, HRightDistributivity.conclusion) == None
  {
    FirstUnboundNone(HRightDistributivity, HRightDistributivity.conclusion);
  }

  lemma RightDistributivityLeftUnspaced()
    ensures RemoveSpaces("(a + b)*c") == "(a+b)*c"
  {
  }

  lemma RightDistributivityRightUnspaced()
    ensures RemoveSpaces("a*c + b*c") == "a*c+b*c"
  {
  }

  lemma RightDistributivitySymbolic()
    ensures ConclusionReadable(HRightDistributivity) && SymbolicSides(HRightDistributivity) == ("(a+b)*c", "a*c+b*c")
    ensures Split(RemoveSpaces(HRightDistributivity.conclusion), "=") == ["(a+b)*c", "a*c+b*c"]
  {
    SymbolicSidesOf(HRightDistributivity, "(a + b)*c", "a*c + b*c");
    RightDistributivityLeftUnspaced();
    RightDistributivityRightUnspaced();
  }

  lemma RightDistributivityLeftFormed()
    ensures WellFormed("(a+b)*c")
  {
    RemoveSpacesOfSpaceFree("(a+b)*c");
  }

  lemma RightDistributivityRightFormed()
    ensures WellFormed("a*c+b*c")
  {
    RemoveSpacesOfSpaceFree("a*c+b*c");
  }

  /** The checks of the constructor that do not depend on the parameters pass for RightDistributivity. */
  lemma RightDistributivityDeclared()
    ensures HeaderOf(RightDistributivityDeclaration) == HRightDistributivity && DeclarationReadable(RightDistributivityDeclaration) && RightDistributivityDeclaration.proof == Some(RightDistributivityProof)
    ensures ValidNames(HRightDistributivity) && FirstUnbound(HRightDistributivity, HRightDistributivity.conclusion) == None
    ensures ConclusionReadable(HRightDistributivity) && SymbolicSides(HRightDistributivity) == ("(a+b)*c", "a*c+b*c")
    ensures Split(RemoveSpaces(HRightDistributivity.conclusion), "=") == ["(a+b)*c", "a*c+b*c"]
    ensures WellFormed("(a+b)*c") && WellFormed("a*c+b*c")
  {
    RightDistributivityHeader(); RightDistributivityNames(); RightDistributivityUnbound(); RightDistributivitySymbolic(); RightDistributivityLeftFormed(); RightDistributivityRightFormed(); RightDistributivityReadable();
  }

  const HRightMultiplicationByIdentity := Header("the right multiplication by the identity", Equation("a*1", "a"), ["a"], [])

  lemma RightMultiplicationByIdentityHeader()
    ensures HeaderOf(RightMultiplicationByIdentityDeclaration) == HRightMultiplicationByIdentity && RightMultiplicationByIdentityDeclaration.proof == Some(RightMultiplicationByIdentityProof)
  {
  }

  lemma RightMultiplicationByIdentityNames()
    ensures ValidNames(HRightMultiplicationByIdentity)
  {
  }

  lemma RightMultiplicationByIdentityUnbound()
    ensures FirstUnbound(HRightMultiplicationByIdentity, HRightMultiplicationByIdentity.conclusion) == None
  {
    FirstUnboundNone(HRightMultiplicationByIdentity, HRightMultiplicationByIdentity.conclusion);
  }

  lemma RightMultiplicationByIdentitySymbolic()
    ensures ConclusionReadable(HRightMultiplicationByIdentity) && SymbolicSides(HRightMultiplicationByIdentity) == ("a*1", "a")
    ensures Split(RemoveSpaces(HRightMultiplicationByIdentity.conclusion), "=") == ["a*1", "a"]
  {
    SymbolicSidesOf(HRightMultiplicationByIdentity, "a*1", "a");
    RemoveSpacesOfSpaceFree("a*1");
    RemoveSpacesOfSpaceFree("a");
  }

  lemma RightMultiplicationByIdentityLeftFormed()
    ensures WellFormed("a*1")
  {
    RemoveSpacesOfSpaceFree("a*1");
  }

  lemma RightMultiplicationByIdentityRightFormed()
    ensures WellFormed("a")
  {
    RemoveSpacesOfSpaceFree("a");
  }

  /** The checks of the constructor that do not depend on the parameters pass for RightMultiplicationByIdentity. */
  lemma RightMultiplicationByIdentityDeclared()
    ensures HeaderOf(RightMultiplicationByIdentityDeclaration) == HRightMultiplicationByIdentity && DeclarationReadable(RightMultiplicationByIdentityDeclaration) && RightMultiplicationByIdentityDeclaration.proof == Some(RightMultiplicationByIdentityProof)
    ensures ValidNames(HRightMultiplicationByIdentity) && FirstUnbound(HRightMultiplicationByIdentity, HRightMultiplicationByIdentity.conclusion) == None
    ensures ConclusionReadable(HRightMultiplicationByIdentity) && SymbolicSides(HRightMultiplicationByIdentity) == ("a*1", "a")
    ensures Split(RemoveSpaces(HRightMultiplicationByIdentity.conclusion), "=") == ["a*1", "a"]
    ensures WellFormed("a*1") && WellFormed("a")
  {
    RightMultiplicationByIdentityHeader(); RightMultiplicationByIdentityNames(); RightMultiplicationByIdentityUnbound(); RightMultiplicationByIdentitySymbolic(); RightMultiplicationByIdentityLeftFormed(); RightMultiplicationByIdentityRightFormed(); RightMultiplicationByIdentityReadable();
  }

  const HSquareDistribution := Header("the distribution of the square", Equation("a^2", "a*a"), ["a"], [])

  lemma SquareDistributionHeader()
    ensures HeaderOf(SquareDistributionDeclaration) == HSquareDistribution && SquareDistributionDeclaration.proof == Some(SquareDistributionProof)
  {
  }

  lemma SquareDistributionNames()
    ensures ValidNames(HSquareDistribution)
  {
  }

  lemma SquareDistributionUnbound()
    ensures FirstUnbound(HSquareDistribution, HSquareDistribution.conclusion) == None
  {
    FirstUnboundNone(HSquareDistribution, HSquareDistribution.conclusion);
  }

  lemma SquareDistributionSymbolic()
    ensures ConclusionReadable(HSquareDistribution) && SymbolicSides(HSquareDistribution) == ("a^2", "a*a")
    ensures Split(RemoveSpaces(HSquareDistribution.conclusion), "=") == ["a^2", "a*a"]
  {
    SymbolicSidesOf(HSquareDistribution, "a^2", "a*a");
    RemoveSpacesOfSpaceFree("a^2");
    RemoveSpacesOfSpaceFree("a*a");
  }

  lemma SquareDistributionLeftFormed()
    ensures WellFormed("a^2")
  {
    RemoveSpacesOfSpaceFree("a^2");
  }

  lemma SquareDistributionRightFormed()
    ensures WellFormed("a*a")
  {
    RemoveSpacesOfSpaceFree("a*a");
  }

  /** The checks of the constructor that do not depend on the parameters pass for SquareDistribution. */
  lemma SquareDistributionDeclared()
    ensures HeaderOf(SquareDistributionDeclaration) == HSquareDistribution && DeclarationReadable(SquareDistributionDeclaration) && SquareDistributionDeclaration.proof == Some(SquareDistributionProof)
    ensures ValidNames(HSquareDistribution) && FirstUnbound(HSquareDistribution, HSquareDistribution.conclusion) == None
    ensures ConclusionReadable(HSquareDistribution) && SymbolicSides(HSquareDistribution) == ("a^2", "a*a")
    ensures Split(RemoveSpaces(HSquareDistribution.conclusion), "=") == ["a^2", "a*a"]
    ensures WellFormed("a^2") && WellFormed("a*a")
  {
    SquareDistributionHeader(); SquareDistributionNames(); SquareDistributionUnbound(); SquareDistributionSymbolic(); SquareDistributionLeftFormed(); SquareDistributionRightFormed(); SquareDistributionReadable();
  }

  const HLitteralAddition := Header("the litteral addition", Equation("a*x + b*x", "c*x"), ["a", "b", "x"], [Simplification("c", "a+b")])

  lemma LitteralAdditionHeader()
    ensures HeaderOf(LitteralAdditionDeclaration) == HLitteralAddition && LitteralAdditionDeclaration.proof == Some(LitteralAdditionProof)
  {
    RemoveSpacesOfSpaceFree("a+b");
  }

  lemma LitteralAdditionNames()
    ensures ValidNames(HLitteralAddition)
  {
  }

  lemma LitteralAdditionNamed()
    ensures HasInstantiatedCharacter(HLitteralAddition, 'c')
  {
    assert HLitteralAddition.simplifications[0].name == "c";
  }

  lemma LitteralAdditionUnbound()
    ensures FirstUnbound(HLitteralAddition, HLitteralAddition.conclusion) == None
  {
    LitteralAdditionNamed();
    FirstUnboundNone(HLitteralAddition, HLitteralAddition.conclusion);
  }

  lemma LitteralAdditionLeftUnspaced()
    ensures RemoveSpaces("a*x + b*x") == "a*x+b*x"
  {
  }

  lemma LitteralAdditionSymbolic()
    ensures ConclusionReadable(HLitteralAddition) && SymbolicSides(HLitteralAddition) == ("a*x+b*x", "c*x")
    ensures Split(RemoveSpaces(HLitteralAddition.conclusion), "=") == ["a*x+b*x", "c*x"]
  {
    SymbolicSidesOf(HLitteralAddition, "a*x + b*x", "c*x");
    LitteralAdditionLeftUnspaced();
    RemoveSpacesOfSpaceFree("c*x");
  }

  lemma LitteralAdditionLeftFormed()
    ensures WellFormed("a*x+b*x")
  {
    RemoveSpacesOfSpaceFree("a*x+b*x");
  }

  lemma LitteralAdditionRightFormed()
    ensures WellFormed("c*x")
  {
    RemoveSpacesOfSpaceFree("c*x");
  }

  /** The checks of the constructor that do not depend on the parameters pass for LitteralAddition. */
  lemma LitteralAdditionDeclared()
    ensures HeaderOf(LitteralAdditionDeclaration) == HLitteralAddition && DeclarationReadable(LitteralAdditionDeclaration) && LitteralAdditionDeclaration.proof == Some(LitteralAdditionProof)
    ensures ValidNames(HLitteralAddition) && FirstUnbound(HLitteralAddition, HLitteralAddition.conclusion) == None
    ensures ConclusionReadable(HLitteralAddition) && SymbolicSides(HLitteralAddition) == ("a*x+b*x", "c*x")
    ensures Split(RemoveSpaces(HLitteralAddition.conclusion), "=") == ["a*x+b*x", "c*x"]
    ensures WellFormed("a*x+b*x") && WellFormed("c*x")
  {
    LitteralAdditionHeader(); LitteralAdditionNames(); LitteralAdditionUnbound(); LitteralAdditionSymbolic(); LitteralAdditionLeftFormed(); LitteralAdditionRightFormed(); LitteralAdditionReadable();
  }
}
