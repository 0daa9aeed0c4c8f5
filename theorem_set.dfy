/**
 * The set of theorems and axioms (theorem_set.py): every class of the file
 * is a variant of Name, declared as data by Declare. A class without
 * get_proof is an axiom (proof None); the others carry their proof script,
 * one step per call on the proof object, in the order of the source.
 */
module TheoremSet {
  import opened Wrappers
  import opened TextGestion
  import opened Theorems
  import opened Proofs
  import opened Construction

  datatype Name =
    | RemovalOfParenthesis
    | AdditionCommutativity
    | ProductCommutativity
    | LeftDistributivity
    | RightDistributivity
    | TripleLeftDistributivity
    | TripleRightDistributivity
    | LitteralAddition
    | LeftMultiplicationByIdentity
    | RightMultiplicationByIdentity
    | IdentityExponent
    | Addition
    | Product
    | Power
    | PowerDistribution
    | SquareDistribution
    | CubeLeftDistribution
    | CubeRightDistribution
    | FirstRemarkableIdentity
    | FirstIdentityWithTwist
    | CubeRemarkableIdentity

  function Axiom(name: string, conclusion: string, unknowns: seq<string>): Declaration<Name>
  {
    Declaration(name, conclusion, unknowns, [], None)
  }

  /** The declaration of each class: its constructor's arguments and, for a theorem, its get_proof. */
  function Declare(n: Name): Declaration<Name>
  {
    match n
    case RemovalOfParenthesis => RemovalOfParenthesisDeclaration
    case AdditionCommutativity => AdditionCommutativityDeclaration
    case ProductCommutativity => ProductCommutativityDeclaration
    case LeftDistributivity => LeftDistributivityDeclaration
    case RightDistributivity => RightDistributivityDeclaration
    case TripleLeftDistributivity => TripleLeftDistributivityDeclaration
    case TripleRightDistributivity => TripleRightDistributivityDeclaration
    case LitteralAddition => LitteralAdditionDeclaration
    case LeftMultiplicationByIdentity => LeftMultiplicationByIdentityDeclaration
    case RightMultiplicationByIdentity => RightMultiplicationByIdentityDeclaration
    case IdentityExponent => IdentityExponentDeclaration
    case Addition => AdditionDeclaration
    case Product => ProductDeclaration
    case Power => PowerDeclaration
    case PowerDistribution => PowerDistributionDeclaration
    case SquareDistribution => SquareDistributionDeclaration
    case CubeLeftDistribution => CubeLeftDistributionDeclaration
    case CubeRightDistribution => CubeRightDistributionDeclaration
    case FirstRemarkableIdentity => FirstRemarkableIdentityDeclaration
    case FirstIdentityWithTwist => FirstIdentityWithTwistDeclaration
    case CubeRemarkableIdentity => CubeRemarkableIdentityDeclaration
  }

  const RemovalOfParenthesisDeclaration: Declaration<Name> :=
    Axiom("the removal of parenthesis", Equation("(a)", "a"), ["a"])

  const AdditionCommutativityDeclaration: Declaration<Name> :=
    Axiom("the commutativity of the addition", Equation("a + b", "b + a"), ["a", "b"])

  const ProductCommutativityDeclaration: Declaration<Name> :=
    Axiom("the commutativity of the product", Equation("a*b", "b*a"), ["a", "b"])

  const LeftDistributivityDeclaration: Declaration<Name> :=
    Axiom("the left distributivity of the product", Equation("a*(b + c)", "a*b + a*c"), ["a", "b", "c"])

  const RightDistributivityDeclaration: Declaration<Name> :=
    Declaration("the right distributivity of the product", Equation("(a + b)*c", "a*c + b*c"),
      ["a", "b", "c"], [], Some(RightDistributivityProof))

  const TripleLeftDistributivityDeclaration: Declaration<Name> :=
    Declaration("the triple left distributivity of the product", Equation("a*(b + c + d)", "a*b + a*c + a*d"),
      ["a", "b", "c", "d"], [], Some(TripleLeftDistributivityProof))

  const TripleRightDistributivityDeclaration: Declaration<Name> :=
    Declaration("the triple right distributivity of the product", Equation("(a + b + c)*d", "a*d + b*d + c*d"),
      ["a", "b", "c", "d"], [], Some(TripleRightDistributivityProof))

  const LitteralAdditionDeclaration: Declaration<Name> :=
    Declaration("the litteral addition", Equation("a*x + b*x", "c*x"),
      ["a", "b", "x"], [Simplification("c", "a+b")], Some(LitteralAdditionProof))

  const LeftMultiplicationByIdentityDeclaration: Declaration<Name> :=
    Axiom("the left multiplication by the identity", Equation("1*a", "a"), ["a"])

  const RightMultiplicationByIdentityDeclaration: Declaration<Name> :=
    Declaration("the right multiplication by the identity", Equation("a*1", "a"),
      ["a"], [], Some(RightMultiplicationByIdentityProof))

  const IdentityExponentDeclaration: Declaration<Name> :=
    Axiom("the identity exponent", Equation("a^1", "a"), ["a"])

  const AdditionDeclaration: Declaration<Name> :=
    Declaration("the addition", Equation("a + b", "c"),
      ["a", "b"], [Simplification("c", "a + b")], Some(AdditionProof))

  const ProductDeclaration: Declaration<Name> :=
    Declaration("the product", Equation("a * b", "c"),
      ["a", "b"], [Simplification("c", "a * b")], Some(ProductProof))

  const PowerDeclaration: Declaration<Name> :=
    Declaration("the power", Equation("a^b", "c"),
      ["a", "b"], [Simplification("c", "a^b")], Some(PowerProof))

  const PowerDistributionDeclaration: Declaration<Name> :=
    Axiom("the power distribution", Equation("b^x * b^y", "b^(x + y)"), ["b", "x", "y"])

  const SquareDistributionDeclaration: Declaration<Name> :=
    Declaration("the distribution of the square", Equation("a^2", "a*a"),
      ["a"], [], Some(SquareDistributionProof))

  const CubeLeftDistributionDeclaration: Declaration<Name> :=
    Declaration("the left distribution of the cube", Equation("a^3", "a^2*a"),
      ["a"], [], Some(CubeLeftDistributionProof))

  const CubeRightDistributionDeclaration: Declaration<Name> :=
    Declaration("the right distribution of the cube", Equation("a^3", "a*a^2"),
      ["a"], [], Some(CubeRightDistributionProof))

  const FirstRemarkableIdentityDeclaration: Declaration<Name> :=
    Declaration("the first remarkable identity", Equation("(a+b)^2", "a^2 + 2*a*b + b^2"),
      ["a", "b"], [], Some(FirstRemarkableIdentityProof))

  const FirstIdentityWithTwistDeclaration: Declaration<Name> :=
    Declaration("the first identity with a twist", Equation("(x + 1)^2", "x^2 + 2*x + 1"),
      ["x"], [], Some(FirstIdentityWithTwistProof))

  const CubeRemarkableIdentityDeclaration: Declaration<Name> :=
    Declaration("the cube remarkable identity", Equation("(a + b)^3", "a^3 + 3*a^2*b + 3*a*b^2 + b^3"),
      ["a", "b"], [], Some(CubeRemarkableIdentityProof))

  /** The get_proof of RightDistributivity: its starting equality and its calls, in order. */
  const RightDistributivityProof: Script<Name> :=
    Script("(a + b)*c", [
      Evolve("c*(a + b)", Equation("(a + b)*c", "c*(a + b)"), ProductCommutativity, ["(a+b)", "c"]),
      Evolve("c*a + c*b", Equation("c*(a + b)", "c*a + c*b"), LeftDistributivity, ["c", "a", "b"]),
      Evolve("a*c + c*b", Equation("c*a", "a*c"), ProductCommutativity, ["c", "a"]),
      Evolve("a*c + b*c", Equation("c*b", "b*c"), ProductCommutativity, ["b", "c"]),
      Conclude])

  /** The get_proof of TripleLeftDistributivity: its starting equality and its calls, in order. */
  const TripleLeftDistributivityProof: Script<Name> :=
    Script("a*(b + c + d)", [
      Evolve("a*(b + (c+d))", Equation("c + d", "(c + d)"), RemovalOfParenthesis, ["c + d"]),
      Evolve("a*b + a*(c+d)", Equation("a*(b + (c+d))", "a*b + a*(c+d)"),
             LeftDistributivity, ["a", "b", "(c+d)"]),
      Evolve("a*b + a*c + a*d", Equation("a*(c + d)", "a*c + a*d"), LeftDistributivity, ["a", "c", "d"]),
      Conclude])

  /** The get_proof of TripleRightDistributivity: its starting equality and its calls, in order. */
  const TripleRightDistributivityProof: Script<Name> :=
    Script("(a + b + c)*d", [
      Evolve("d*(a + b + c)", Equation("(a + b + c)*d", "d*(a + b + c)"),
             ProductCommutativity, ["(a + b + c)", "d"]),
      Evolve("d*a + d*b + d*c", Equation("d*(a + b + c)", "d*a + d*b + d*c"),
             TripleLeftDistributivity, ["d", "a", "b", "c"]),
      Evolve("a*d + d*b + d*c", Equation("d*a", "a*d"), ProductCommutativity, ["d", "a"]),
      Evolve("a*d + b*d + d*c", Equation("d*b", "b*d"), ProductCommutativity, ["d", "b"]),
      Evolve("a*d + b*d + c*d", Equation("d*c", "c*d"), ProductCommutativity, ["d", "c"]),
      Conclude])

  /** The get_proof of LitteralAddition: its starting equality and its calls, in order. */
  const LitteralAdditionProof: Script<Name> :=
    Script("a*x + b*x", [
      Evolve("(a+b)*x", Equation("a*x + b*x", "(a+b)*x"), RightDistributivity, ["a", "b", "x"]),
      Simplify("(c)*x", Equation("a+b", "c")),
      Evolve("c*x", Equation("(c)", "c"), RemovalOfParenthesis, ["c"]),
      Conclude])

  /** The get_proof of RightMultiplicationByIdentity: its starting equality and its calls, in order. */
  const RightMultiplicationByIdentityProof: Script<Name> :=
    Script("a*1", [
      Evolve("1*a", Equation("a*1", "1*a"), ProductCommutativity, ["a", "1"]),
      Evolve("a", Equation("1*a", "a"), LeftMultiplicationByIdentity, ["a"]),
      Conclude])

  /** The get_proof of Addition: its starting equality and its calls, in order. */
  const AdditionProof: Script<Name> :=
    Script("a+b", [
      Simplify("c", Equation("a+b", "c")),
      Conclude])

  /** The get_proof of Product: its starting equality and its calls, in order. */
  const ProductProof: Script<Name> :=
    Script("a*b", [
      Simplify("c", Equation("a*b", "c")),
      Conclude])

  /** The get_proof of Power: its starting equality and its calls, in order. */
  const PowerProof: Script<Name> :=
    Script("a^b", [
      Simplify("c", Equation("a^b", "c")),
      Conclude])

  /** The get_proof of SquareDistribution: its starting equality and its calls, in order. */
  const SquareDistributionProof: Script<Name> :=
    Script("a^2", [
      Evolve("a^(2)", Equation("2", "(2)"), RemovalOfParenthesis, ["2"]),
      Evolve("a^(1 + 1)", Equation("2", "1 + 1"), Addition, ["1", "1"]),
      Evolve("a^1 * a^1", Equation("a^(1 + 1)", "a^1 * a^1"), PowerDistribution, ["a", "1", "1"]),
      Evolve("a * a^1", Equation("a^1", "a"), IdentityExponent, ["a"]),
      Evolve("a * a", Equation("a^1", "a"), IdentityExponent, ["a"]),
      Conclude])

  /** The get_proof of CubeLeftDistribution: its starting equality and its calls, in order. */
  const CubeLeftDistributionProof: Script<Name> :=
    Script("a^3", [
      Evolve("a^(3)", Equation("3", "(3)"), RemovalOfParenthesis, ["3"]),
      Evolve("a^(2 + 1)", Equation("3", "2 + 1"), Addition, ["2", "1"]),
      Evolve("a^2 * a^1", Equation("a^(2 + 1)", "a^2 * a^1"), PowerDistribution, ["a", "2", "1"]),
      Evolve("a^2 * a", Equation("a^1", "a"), IdentityExponent, ["a"]),
      Conclude])

  /** The get_proof of CubeRightDistribution: its starting equality and its calls, in order. */
  const CubeRightDistributionProof: Script<Name> :=
    Script("a^3", [
      Evolve("a^2*a", Equation("a^3", "a^2*a"), CubeLeftDistribution, ["a"]),
      Evolve("a*a^2", Equation("a^2*a", "a*a^2"), ProductCommutativity, ["a^2", "a"]),
      Conclude])

  /** The get_proof of FirstRemarkableIdentity: its starting equality and its calls, in order. */
  const FirstRemarkableIdentityProof: Script<Name> :=
    Script("(a + b)^2", [
      Evolve("(a + b)*(a + b)", Equation("(a + b)^2", "(a + b)*(a + b)"), SquareDistribution, ["(a + b)"]),
      Evolve("a*(a + b) + b*(a + b)", Equation("(a + b)*(a + b)", "a*(a + b) + b*(a + b)"),
             RightDistributivity, ["a", "b", "(a + b)"]),
      Evolve("a*a + a*b + b*(a + b)", Equation("a*(a + b)", "a*a + a*b"),
             LeftDistributivity, ["a", "a", "b"]),
      Evolve("a*a + a*b + b*a + b*b", Equation("b*(a + b)", "b*a + b*b"),
             LeftDistributivity, ["b", "a", "b"]),
      Evolve("a*a + a*b + a*b + b*b", Equation("b*a", "a*b"), ProductCommutativity, ["a", "b"]),
      Evolve("a*a + 1*a*b + a*b + b*b", Equation("a*b", "1*a*b"), LeftMultiplicationByIdentity, ["a*b"]),
      Evolve("a*a + 1*a*b + 1*a*b + b*b", Equation("a*b", "1*a*b"), LeftMultiplicationByIdentity, ["a*b"]),
      Evolve("a*a + 2*a*b + b*b", Equation("1*a*b + 1*a*b", "2*a*b"), LitteralAddition, ["1", "1", "a*b"]),
      Evolve("a^2 + 2*a*b + b*b", Equation("a*a", "a^2"), SquareDistribution, ["a"]),
      Evolve("a^2 + 2*a*b + b^2", Equation("b*b", "b^2"), SquareDistribution, ["b"]),
      Conclude])

  /** The get_proof of FirstIdentityWithTwist: its starting equality and its calls, in order. */
  const FirstIdentityWithTwistProof: Script<Name> :=
    Script("(x + 1)^2", [
      Evolve("x^2 + 2*x*1 + 1^2", Equation("(x + 1)^2", "x^2 + 2*x*1 + 1^2"),
             FirstRemarkableIdentity, ["x", "1"]),
      Evolve("x^2 + 2*x + 1^2", Equation("2*x*1", "2*x"), RightMultiplicationByIdentity, ["2*x"]),
      Evolve("x^2 + 2*x + 1", Equation("1^2", "1"), Power, ["1", "2"]),
      Conclude])

  /** The get_proof of CubeRemarkableIdentity: its starting equality and its calls, in order. */
  const CubeRemarkableIdentityProof: Script<Name> :=
    Script("(a + b)^3", [
      Evolve("(a + b)^2 * (a + b)", Equation("(a + b)^3", "(a + b)^2 * (a + b)"),
             CubeLeftDistribution, ["(a + b)"]),
      Evolve("((a + b)^2) * (a + b)", Equation("(a + b)^2", "((a + b)^2)"),
             RemovalOfParenthesis, ["(a + b)^2"]),
      Evolve("(a^2 + 2*a*b + b^2) * (a + b)", Equation("(a + b)^2", "a^2 + 2*a*b + b^2"),
             FirstRemarkableIdentity, ["a", "b"]),
      Evolve("(a^2 + 2*a*b + b^2)*a + (a^2 + 2*a*b + b^2)*b",
             Equation("(a^2 + 2*a*b + b^2) * (a + b)", "(a^2 + 2*a*b + b^2)*a + " + "(a^2 + 2*a*b + b^2)*b"),
             LeftDistributivity, ["(a^2 + 2*a*b + b^2)", "a", "b"]),
      Evolve("a^2*a + 2*a*b*a + b^2*a + (a^2 + 2*a*b + b^2)*b",
             Equation("(a^2 + 2*a*b + b^2)*a", "a^2*a + 2*a*b*a + b^2*a"),
             TripleRightDistributivity, ["a^2", "2*a*b", "b^2", "a"]),
      Evolve("a^2*a + 2*a*b*a + b^2*a + a^2*b + 2*a*b*b + b^2*b",
             Equation("(a^2 + 2*a*b + b^2)*b", "a^2*b + 2*a*b*b + b^2*b"),
             TripleRightDistributivity, ["a^2", "2*a*b", "b^2", "b"]),
      Evolve("a^3 + 2*a*b*a + b^2*a + a^2*b + 2*a*b*b + b^2*b", Equation("a^2*a", "a^3"),
             CubeLeftDistribution, ["a"]),
      Evolve("a^3 + 2*a*b*a + b^2*a + a^2*b + 2*a*b*b + b^3", Equation("b^2*b", "b^3"),
             CubeLeftDistribution, ["b"]),
      Evolve("a^3 + 2*a*b*a + a^2*b + b^2*a + 2*a*b*b + b^3", Equation("b^2*a + a^2*b", "a^2*b + b^2*a"),
             AdditionCommutativity, ["b^2*a", "a^2*b"]),
      Evolve("a^3 + 2*a*a*b + a^2*b + b^2*a + 2*a*b*b + b^3", Equation("b*a", "a*b"),
             ProductCommutativity, ["a", "b"]),
      Evolve("a^3 + 2*a^2*b + a^2*b + b^2*a + 2*a*b*b + b^3", Equation("a*a", "a^2"),
             SquareDistribution, ["a"]),
      Evolve("a^3 + 2*a^2*b + 1*a^2*b + b^2*a + 2*a*b*b + b^3", Equation("a^2*b", "1*a^2*b"),
             LeftMultiplicationByIdentity, ["a^2*b"]),
      Evolve("a^3 + 3*a^2*b + b^2*a + 2*a*b*b + b^3", Equation("2*a^2*b + 1*a^2*b", "3*a^2*b"),
             LitteralAddition, ["2", "1", "a^2*b"]),
      Evolve("a^3 + 3*a^2*b + a*b^2 + 2*a*b*b + b^3", Equation("b^2*a", "a*b^2"),
             ProductCommutativity, ["b^2", "a"]),
      Evolve("a^3 + 3*a^2*b + a*b^2 + 2*a*b^2 + b^3", Equation("b*b", "b^2"), SquareDistribution, ["b"]),
      Evolve("a^3 + 3*a^2*b + 1*a*b^2 + 2*a*b^2 + b^3", Equation("a*b^2", "1*a*b^2"),
             LeftMultiplicationByIdentity, ["a*b^2"]),
      Evolve("a^3 + 3*a^2*b + 3*a*b^2 + b^3", Equation("1*a*b^2 + 2*a*b^2", "3*a*b^2"),
             LitteralAddition, ["1", "2", "a*b^2"]),
      Conclude])

  // ----------------------------------------------------------------------
  // Every declaration is readable

  /** Every parameter starts with a character other than a space. */
  predicate Unspaced(params: seq<string>)
  {
    |params| == 0 || (|params[0]| > 0 && params[0][0] != ' ' && Unspaced(params[1..]))
  }

  lemma {:induction false} UnspacedReadable(params: seq<string>)
    requires Unspaced(params)
    ensures ParametersReadable(params)
    decreases |params|
  {
    if |params| > 0 {
      UnspacedReadable(params[1..]);
      RemoveSpacesNonEmpty(params[0], 0);
      assert forall k :: 1 <= k < |params| ==> params[k] == params[1..][k - 1];
    }
  }

  /** An evolve step cites an equality `lhs = rhs` with something on each side. */
  lemma EvolveReadable(step: Step<Name>, lhs: string, rhs: string)
    requires step.Evolve? && step.modification == Equation(lhs, rhs)
    requires EquationSides(lhs, rhs) && Unspaced(step.parameters)
    ensures StepReadable(step)
  {
    EquationReadable(lhs, rhs);
    UnspacedReadable(step.parameters);
  }

  lemma SimplifyReadable(step: Step<Name>, lhs: string, rhs: string)
    requires step.Simplify? && step.simplification == Equation(lhs, rhs) && EquationSides(lhs, rhs)
    ensures StepReadable(step)
  {
    EquationReadable(lhs, rhs);
  }

  /** The conclusion `lhs = rhs` has exactly one '=', with or without its spaces. */
  lemma ConclusionOk(conclusion: string, lhs: string, rhs: string)
    requires conclusion == Equation(lhs, rhs) && EquationSides(lhs, rhs)
    ensures |Split(conclusion, "=")| == 2 && |Split(RemoveSpaces(conclusion), "=")| == 2
  {
    EquationReadable(lhs, rhs);
  }

  /** A sequence of steps is readable when its first step and the rest are. */
  lemma ReadableTail(steps: seq<Step<Name>>)
    requires |steps| > 0 ==> StepReadable(steps[0]) && StepsReadable(steps[1..])
    ensures StepsReadable(steps)
  {
    if |steps| > 0 {
      forall k | 0 <= k < |steps| ensures StepReadable(steps[k]) {
        if k > 0 {
          assert steps[k] == steps[1..][k - 1];
        }
      }
    }
  }

  lemma RemovalOfParenthesisReadable()
    ensures DeclarationReadable(RemovalOfParenthesisDeclaration)
  {
    ConclusionOk(RemovalOfParenthesisDeclaration.conclusion, "(a)", "a");
  }

  lemma AdditionCommutativityReadable()
    ensures DeclarationReadable(AdditionCommutativityDeclaration)
  {
    ConclusionOk(AdditionCommutativityDeclaration.conclusion, "a + b", "b + a");
  }

  lemma ProductCommutativityReadable()
    ensures DeclarationReadable(ProductCommutativityDeclaration)
  {
    ConclusionOk(ProductCommutativityDeclaration.conclusion, "a*b", "b*a");
  }

  lemma LeftDistributivityReadable()
    ensures DeclarationReadable(LeftDistributivityDeclaration)
  {
    ConclusionOk(LeftDistributivityDeclaration.conclusion, "a*(b + c)", "a*b + a*c");
  }

  lemma RightDistributivityStep0()
    ensures StepReadable(RightDistributivityProof.steps[0])
  {
    EvolveReadable(RightDistributivityProof.steps[0], "(a + b)*c", "c*(a + b)");
  }

  lemma RightDistributivityStep1()
    ensures StepReadable(RightDistributivityProof.steps[1])
  {
    EvolveReadable(RightDistributivityProof.steps[1], "c*(a + b)", "c*a + c*b");
  }

  lemma RightDistributivityStep2()
    ensures StepReadable(RightDistributivityProof.steps[2])
  {
    EvolveReadable(RightDistributivityProof.steps[2], "c*a", "a*c");
  }

  lemma RightDistributivityStep3()
    ensures StepReadable(RightDistributivityProof.steps[3])
  {
    EvolveReadable(RightDistributivityProof.steps[3], "c*b", "b*c");
  }

  /** Every step of the get_proof of RightDistributivity is readable. */
  lemma RightDistributivityStepsReadable()
    ensures StepsReadable(RightDistributivityProof.steps)
  {
    RightDistributivityStep0(); RightDistributivityStep1(); RightDistributivityStep2();
    RightDistributivityStep3();
    var s := RightDistributivityProof.steps;
    ReadableTail(s[5..]);
    ReadableTail(s[4..]);
    ReadableTail(s[3..]);
    ReadableTail(s[2..]);
    ReadableTail(s[1..]);
    ReadableTail(s);
  }

  lemma RightDistributivityReadable()
    ensures DeclarationReadable(RightDistributivityDeclaration)
  {
    ConclusionOk(RightDistributivityDeclaration.conclusion, "(a + b)*c", "a*c + b*c");
    RightDistributivityStepsReadable();
  }

  lemma TripleLeftDistributivityStep0()
    ensures StepReadable(TripleLeftDistributivityProof.steps[0])
  {
    EvolveReadable(TripleLeftDistributivityProof.steps[0], "c + d", "(c + d)");
  }

  lemma TripleLeftDistributivityStep1()
    ensures StepReadable(TripleLeftDistributivityProof.steps[1])
  {
    EvolveReadable(TripleLeftDistributivityProof.steps[1], "a*(b + (c+d))", "a*b + a*(c+d)");
  }

  lemma TripleLeftDistributivityStep2()
    ensures StepReadable(TripleLeftDistributivityProof.steps[2])
  {
    EvolveReadable(TripleLeftDistributivityProof.steps[2], "a*(c + d)", "a*c + a*d");
  }

  /** Every step of the get_proof of TripleLeftDistributivity is readable. */
  lemma TripleLeftDistributivityStepsReadable()
    ensures StepsReadable(TripleLeftDistributivityProof.steps)
  {
    TripleLeftDistributivityStep0(); TripleLeftDistributivityStep1(); TripleLeftDistributivityStep2();
    var s := TripleLeftDistributivityProof.steps;
    ReadableTail(s[4..]);
    ReadableTail(s[3..]);
    ReadableTail(s[2..]);
    ReadableTail(s[1..]);
    ReadableTail(s);
  }

  lemma TripleLeftDistributivityReadable()
    ensures DeclarationReadable(TripleLeftDistributivityDeclaration)
  {
    ConclusionOk(TripleLeftDistributivityDeclaration.conclusion, "a*(b + c + d)", "a*b + a*c + a*d");
    TripleLeftDistributivityStepsReadable();
  }

  lemma TripleRightDistributivityStep0()
    ensures StepReadable(TripleRightDistributivityProof.steps[0])
  {
    EvolveReadable(TripleRightDistributivityProof.steps[0], "(a + b + c)*d", "d*(a + b + c)");
  }

  lemma TripleRightDistributivityStep1()
    ensures StepReadable(TripleRightDistributivityProof.steps[1])
  {
    EvolveReadable(TripleRightDistributivityProof.steps[1], "d*(a + b + c)", "d*a + d*b + d*c");
  }

  lemma TripleRightDistributivityStep2()
    ensures StepReadable(TripleRightDistributivityProof.steps[2])
  {
    EvolveReadable(TripleRightDistributivityProof.steps[2], "d*a", "a*d");
  }

  lemma TripleRightDistributivityStep3()
    ensures StepReadable(TripleRightDistributivityProof.steps[3])
  {
    EvolveReadable(TripleRightDistributivityProof.steps[3], "d*b", "b*d");
  }

  lemma TripleRightDistributivityStep4()
    ensures StepReadable(TripleRightDistributivityProof.steps[4])
  {
    EvolveReadable(TripleRightDistributivityProof.steps[4], "d*c", "c*d");
  }

  /** Every step of the get_proof of TripleRightDistributivity is readable. */
  lemma TripleRightDistributivityStepsReadable()
    ensures StepsReadable(TripleRightDistributivityProof.steps)
  {
    TripleRightDistributivityStep0(); TripleRightDistributivityStep1(); TripleRightDistributivityStep2();
    TripleRightDistributivityStep3(); TripleRightDistributivityStep4();
    var s := TripleRightDistributivityProof.steps;
    ReadableTail(s[6..]);
    ReadableTail(s[5..]);
    ReadableTail(s[4..]);
    ReadableTail(s[3..]);
    ReadableTail(s[2..]);
    ReadableTail(s[1..]);
    ReadableTail(s);
  }

  lemma TripleRightDistributivityReadable()
    ensures DeclarationReadable(TripleRightDistributivityDeclaration)
  {
    ConclusionOk(TripleRightDistributivityDeclaration.conclusion, "(a + b + c)*d", "a*d + b*d + c*d");
    TripleRightDistributivityStepsReadable();
  }

  lemma LitteralAdditionStep0()
    ensures StepReadable(LitteralAdditionProof.steps[0])
  {
    EvolveReadable(LitteralAdditionProof.steps[0], "a*x + b*x", "(a+b)*x");
  }

  lemma LitteralAdditionStep1()
    ensures StepReadable(LitteralAdditionProof.steps[1])
  {
    SimplifyReadable(LitteralAdditionProof.steps[1], "a+b", "c");
  }

  lemma LitteralAdditionStep2()
    ensures StepReadable(LitteralAdditionProof.steps[2])
  {
    EvolveReadable(LitteralAdditionProof.steps[2], "(c)", "c");
  }

  /** Every step of the get_proof of LitteralAddition is readable. */
  lemma LitteralAdditionStepsReadable()
    ensures StepsReadable(LitteralAdditionProof.steps)
  {
    LitteralAdditionStep0(); LitteralAdditionStep1(); LitteralAdditionStep2();
    var s := LitteralAdditionProof.steps;
    ReadableTail(s[4..]);
    ReadableTail(s[3..]);
    ReadableTail(s[2..]);
    ReadableTail(s[1..]);
    ReadableTail(s);
  }

  lemma LitteralAdditionReadable()
    ensures DeclarationReadable(LitteralAdditionDeclaration)
  {
    ConclusionOk(LitteralAdditionDeclaration.conclusion, "a*x + b*x", "c*x");
    LitteralAdditionStepsReadable();
  }

  lemma LeftMultiplicationByIdentityReadable()
    ensures DeclarationReadable(LeftMultiplicationByIdentityDeclaration)
  {
    ConclusionOk(LeftMultiplicationByIdentityDeclaration.conclusion, "1*a", "a");
  }

  lemma RightMultiplicationByIdentityStep0()
    ensures StepReadable(RightMultiplicationByIdentityProof.steps[0])
  {
    EvolveReadable(RightMultiplicationByIdentityProof.steps[0], "a*1", "1*a");
  }

  lemma RightMultiplicationByIdentityStep1()
    ensures StepReadable(RightMultiplicationByIdentityProof.steps[1])
  {
    EvolveReadable(RightMultiplicationByIdentityProof.steps[1], "1*a", "a");
  }

  /** Every step of the get_proof of RightMultiplicationByIdentity is readable. */
  lemma RightMultiplicationByIdentityStepsReadable()
    ensures StepsReadable(RightMultiplicationByIdentityProof.steps)
  {
    RightMultiplicationByIdentityStep0(); RightMultiplicationByIdentityStep1();
    var s := RightMultiplicationByIdentityProof.steps;
    ReadableTail(s[3..]);
    ReadableTail(s[2..]);
    ReadableTail(s[1..]);
    ReadableTail(s);
  }

  lemma RightMultiplicationByIdentityReadable()
    ensures DeclarationReadable(RightMultiplicationByIdentityDeclaration)
  {
    ConclusionOk(RightMultiplicationByIdentityDeclaration.conclusion, "a*1", "a");
    RightMultiplicationByIdentityStepsReadable();
  }

  lemma IdentityExponentReadable()
    ensures DeclarationReadable(IdentityExponentDeclaration)
  {
    ConclusionOk(IdentityExponentDeclaration.conclusion, "a^1", "a");
  }

  lemma AdditionStep0()
    ensures StepReadable(AdditionProof.steps[0])
  {
    SimplifyReadable(AdditionProof.steps[0], "a+b", "c");
  }

  /** Every step of the get_proof of Addition is readable. */
  lemma AdditionStepsReadable()
    ensures StepsReadable(AdditionProof.steps)
  {
    AdditionStep0();
    var s := AdditionProof.steps;
    ReadableTail(s[2..]);
    ReadableTail(s[1..]);
    ReadableTail(s);
  }

  lemma AdditionReadable()
    ensures DeclarationReadable(AdditionDeclaration)
  {
    ConclusionOk(AdditionDeclaration.conclusion, "a + b", "c");
    AdditionStepsReadable();
  }

  lemma ProductStep0()
    ensures StepReadable(ProductProof.steps[0])
  {
    SimplifyReadable(ProductProof.steps[0], "a*b", "c");
  }

  /** Every step of the get_proof of Product is readable. */
  lemma ProductStepsReadable()
    ensures StepsReadable(ProductProof.steps)
  {
    ProductStep0();
    var s := ProductProof.steps;
    ReadableTail(s[2..]);
    ReadableTail(s[1..]);
    ReadableTail(s);
  }

  lemma ProductReadable()
    ensures DeclarationReadable(ProductDeclaration)
  {
    ConclusionOk(ProductDeclaration.conclusion, "a * b", "c");
    ProductStepsReadable();
  }

  lemma PowerStep0()
    ensures StepReadable(PowerProof.steps[0])
  {
    SimplifyReadable(PowerProof.steps[0], "a^b", "c");
  }

  /** Every step of the get_proof of Power is readable. */
  lemma PowerStepsReadable()
    ensures StepsReadable(PowerProof.steps)
  {
    PowerStep0();
    var s := PowerProof.steps;
    ReadableTail(s[2..]);
    ReadableTail(s[1..]);
    ReadableTail(s);
  }

  lemma PowerReadable()
    ensures DeclarationReadable(PowerDeclaration)
  {
    ConclusionOk(PowerDeclaration.conclusion, "a^b", "c");
    PowerStepsReadable();
  }

  lemma PowerDistributionReadable()
    ensures DeclarationReadable(PowerDistributionDeclaration)
  {
    ConclusionOk(PowerDistributionDeclaration.conclusion, "b^x * b^y", "b^(x + y)");
  }

  lemma SquareDistributionStep0()
    ensures StepReadable(SquareDistributionProof.steps[0])
  {
    EvolveReadable(SquareDistributionProof.steps[0], "2", "(2)");
  }

  lemma SquareDistributionStep1()
    ensures StepReadable(SquareDistributionProof.steps[1])
  {
    EvolveReadable(SquareDistributionProof.steps[1], "2", "1 + 1");
  }

  lemma SquareDistributionStep2()
    ensures StepReadable(SquareDistributionProof.steps[2])
  {
    EvolveReadable(SquareDistributionProof.steps[2], "a^(1 + 1)", "a^1 * a^1");
  }

  lemma SquareDistributionStep3()
    ensures StepReadable(SquareDistributionProof.steps[3])
  {
    EvolveReadable(SquareDistributionProof.steps[3], "a^1", "a");
  }

  lemma SquareDistributionStep4()
    ensures StepReadable(SquareDistributionProof.steps[4])
  {
    EvolveReadable(SquareDistributionProof.steps[4], "a^1", "a");
  }

  /** Every step of the get_proof of SquareDistribution is readable. */
  lemma SquareDistributionStepsReadable()
    ensures StepsReadable(SquareDistributionProof.steps)
  {
    SquareDistributionStep0(); SquareDistributionStep1(); SquareDistributionStep2();
    SquareDistributionStep3(); SquareDistributionStep4();
    var s := SquareDistributionProof.steps;
    ReadableTail(s[6..]);
    ReadableTail(s[5..]);
    ReadableTail(s[4..]);
    ReadableTail(s[3..]);
    ReadableTail(s[2..]);
    ReadableTail(s[1..]);
    ReadableTail(s);
  }

  lemma SquareDistributionReadable()
    ensures DeclarationReadable(SquareDistributionDeclaration)
  {
    ConclusionOk(SquareDistributionDeclaration.conclusion, "a^2", "a*a");
    SquareDistributionStepsReadable();
  }

  lemma CubeLeftDistributionStep0()
    ensures StepReadable(CubeLeftDistributionProof.steps[0])
  {
    EvolveReadable(CubeLeftDistributionProof.steps[0], "3", "(3)");
  }

  lemma CubeLeftDistributionStep1()
    ensures StepReadable(CubeLeftDistributionProof.steps[1])
  {
    EvolveReadable(CubeLeftDistributionProof.steps[1], "3", "2 + 1");
  }

  lemma CubeLeftDistributionStep2()
    ensures StepReadable(CubeLeftDistributionProof.steps[2])
  {
    EvolveReadable(CubeLeftDistributionProof.steps[2], "a^(2 + 1)", "a^2 * a^1");
  }

  lemma CubeLeftDistributionStep3()
    ensures StepReadable(CubeLeftDistributionProof.steps[3])
  {
    EvolveReadable(CubeLeftDistributionProof.steps[3], "a^1", "a");
  }

  /** Every step of the get_proof of CubeLeftDistribution is readable. */
  lemma CubeLeftDistributionStepsReadable()
    ensures StepsReadable(CubeLeftDistributionProof.steps)
  {
    CubeLeftDistributionStep0(); CubeLeftDistributionStep1(); CubeLeftDistributionStep2();
    CubeLeftDistributionStep3();
    var s := CubeLeftDistributionProof.steps;
    ReadableTail(s[5..]);
    ReadableTail(s[4..]);
    ReadableTail(s[3..]);
    ReadableTail(s[2..]);
    ReadableTail(s[1..]);
    ReadableTail(s);
  }

  lemma CubeLeftDistributionReadable()
    ensures DeclarationReadable(CubeLeftDistributionDeclaration)
  {
    ConclusionOk(CubeLeftDistributionDeclaration.conclusion, "a^3", "a^2*a");
    CubeLeftDistributionStepsReadable();
  }

  lemma CubeRightDistributionStep0()
    ensures StepReadable(CubeRightDistributionProof.steps[0])
  {
    EvolveReadable(CubeRightDistributionProof.steps[0], "a^3", "a^2*a");
  }

  lemma CubeRightDistributionStep1()
    ensures StepReadable(CubeRightDistributionProof.steps[1])
  {
    EvolveReadable(CubeRightDistributionProof.steps[1], "a^2*a", "a*a^2");
  }

  /** Every step of the get_proof of CubeRightDistribution is readable. */
  lemma CubeRightDistributionStepsReadable()
    ensures StepsReadable(CubeRightDistributionProof.steps)
  {
    CubeRightDistributionStep0(); CubeRightDistributionStep1();
    var s := CubeRightDistributionProof.steps;
    ReadableTail(s[3..]);
    ReadableTail(s[2..]);
    ReadableTail(s[1..]);
    ReadableTail(s);
  }

  lemma CubeRightDistributionReadable()
    ensures DeclarationReadable(CubeRightDistributionDeclaration)
  {
    ConclusionOk(CubeRightDistributionDeclaration.conclusion, "a^3", "a*a^2");
    CubeRightDistributionStepsReadable();
  }

  lemma FirstRemarkableIdentityStep0()
    ensures StepReadable(FirstRemarkableIdentityProof.steps[0])
  {
    EvolveReadable(FirstRemarkableIdentityProof.steps[0], "(a + b)^2", "(a + b)*(a + b)");
  }

  lemma FirstRemarkableIdentityStep1()
    ensures StepReadable(FirstRemarkableIdentityProof.steps[1])
  {
    EvolveReadable(FirstRemarkableIdentityProof.steps[1], "(a + b)*(a + b)", "a*(a + b) + b*(a + b)");
  }

  lemma FirstRemarkableIdentityStep2()
    ensures StepReadable(FirstRemarkableIdentityProof.steps[2])
  {
    EvolveReadable(FirstRemarkableIdentityProof.steps[2], "a*(a + b)", "a*a + a*b");
  }

  lemma FirstRemarkableIdentityStep3()
    ensures StepReadable(FirstRemarkableIdentityProof.steps[3])
  {
    EvolveReadable(FirstRemarkableIdentityProof.steps[3], "b*(a + b)", "b*a + b*b");
  }

  lemma FirstRemarkableIdentityStep4()
    ensures StepReadable(FirstRemarkableIdentityProof.steps[4])
  {
    EvolveReadable(FirstRemarkableIdentityProof.steps[4], "b*a", "a*b");
  }

  lemma FirstRemarkableIdentityStep5()
    ensures StepReadable(FirstRemarkableIdentityProof.steps[5])
  {
    EvolveReadable(FirstRemarkableIdentityProof.steps[5], "a*b", "1*a*b");
  }

  lemma FirstRemarkableIdentityStep6()
    ensures StepReadable(FirstRemarkableIdentityProof.steps[6])
  {
    EvolveReadable(FirstRemarkableIdentityProof.steps[6], "a*b", "1*a*b");
  }

  lemma FirstRemarkableIdentityStep7()
    ensures StepReadable(FirstRemarkableIdentityProof.steps[7])
  {
    EvolveReadable(FirstRemarkableIdentityProof.steps[7], "1*a*b + 1*a*b", "2*a*b");
  }

  lemma FirstRemarkableIdentityStep8()
    ensures StepReadable(FirstRemarkableIdentityProof.steps[8])
  {
    EvolveReadable(FirstRemarkableIdentityProof.steps[8], "a*a", "a^2");
  }

  lemma FirstRemarkableIdentityStep9()
    ensures StepReadable(FirstRemarkableIdentityProof.steps[9])
  {
    EvolveReadable(FirstRemarkableIdentityProof.steps[9], "b*b", "b^2");
  }

  lemma FirstRemarkableIdentityReadableFrom8()
    ensures StepsReadable(FirstRemarkableIdentityProof.steps[8..])
  {
    FirstRemarkableIdentityStep8(); FirstRemarkableIdentityStep9();
    var s := FirstRemarkableIdentityProof.steps;
    ReadableTail(s[11..]);
    ReadableTail(s[10..]);
    ReadableTail(s[9..]);
    ReadableTail(s[8..]);
  }

  lemma FirstRemarkableIdentityReadableFrom4()
    ensures StepsReadable(FirstRemarkableIdentityProof.steps[4..])
  {
    FirstRemarkableIdentityStep4(); FirstRemarkableIdentityStep5(); FirstRemarkableIdentityStep6(); FirstRemarkableIdentityStep7();
    FirstRemarkableIdentityReadableFrom8();
    var s := FirstRemarkableIdentityProof.steps;
    ReadableTail(s[8..]);
    ReadableTail(s[7..]);
    ReadableTail(s[6..]);
    ReadableTail(s[5..]);
    ReadableTail(s[4..]);
  }

  lemma FirstRemarkableIdentityReadableFrom0()
    ensures StepsReadable(FirstRemarkableIdentityProof.steps)
  {
    FirstRemarkableIdentityStep0(); FirstRemarkableIdentityStep1(); FirstRemarkableIdentityStep2(); FirstRemarkableIdentityStep3();
    FirstRemarkableIdentityReadableFrom4();
    var s := FirstRemarkableIdentityProof.steps;
    ReadableTail(s[3..]);
    ReadableTail(s[2..]);
    ReadableTail(s[1..]);
    ReadableTail(s);
  }

  /** Every step of the get_proof of FirstRemarkableIdentity is readable. */
  lemma FirstRemarkableIdentityStepsReadable()
    ensures StepsReadable(FirstRemarkableIdentityProof.steps)
  {
    FirstRemarkableIdentityReadableFrom0();
  }

  lemma FirstRemarkableIdentityReadable()
    ensures DeclarationReadable(FirstRemarkableIdentityDeclaration)
  {
    ConclusionOk(FirstRemarkableIdentityDeclaration.conclusion, "(a+b)^2", "a^2 + 2*a*b + b^2");
    FirstRemarkableIdentityStepsReadable();
  }

  lemma FirstIdentityWithTwistStep0()
    ensures StepReadable(FirstIdentityWithTwistProof.steps[0])
  {
    EvolveReadable(FirstIdentityWithTwistProof.steps[0], "(x + 1)^2", "x^2 + 2*x*1 + 1^2");
  }

  lemma FirstIdentityWithTwistStep1()
    ensures StepReadable(FirstIdentityWithTwistProof.steps[1])
  {
    EvolveReadable(FirstIdentityWithTwistProof.steps[1], "2*x*1", "2*x");
  }

  lemma FirstIdentityWithTwistStep2()
    ensures StepReadable(FirstIdentityWithTwistProof.steps[2])
  {
    EvolveReadable(FirstIdentityWithTwistProof.steps[2], "1^2", "1");
  }

  /** Every step of the get_proof of FirstIdentityWithTwist is readable. */
  lemma FirstIdentityWithTwistStepsReadable()
    ensures StepsReadable(FirstIdentityWithTwistProof.steps)
  {
    FirstIdentityWithTwistStep0(); FirstIdentityWithTwistStep1(); FirstIdentityWithTwistStep2();
    var s := FirstIdentityWithTwistProof.steps;
    ReadableTail(s[4..]);
    ReadableTail(s[3..]);
    ReadableTail(s[2..]);
    ReadableTail(s[1..]);
    ReadableTail(s);
  }

  lemma FirstIdentityWithTwistReadable()
    ensures DeclarationReadable(FirstIdentityWithTwistDeclaration)
  {
    ConclusionOk(FirstIdentityWithTwistDeclaration.conclusion, "(x + 1)^2", "x^2 + 2*x + 1");
    FirstIdentityWithTwistStepsReadable();
  }

  lemma CubeRemarkableIdentityStep0()
    ensures StepReadable(CubeRemarkableIdentityProof.steps[0])
  {
    EvolveReadable(CubeRemarkableIdentityProof.steps[0], "(a + b)^3", "(a + b)^2 * (a + b)");
  }

  lemma CubeRemarkableIdentityStep1()
    ensures StepReadable(CubeRemarkableIdentityProof.steps[1])
  {
    EvolveReadable(CubeRemarkableIdentityProof.steps[1], "(a + b)^2", "((a + b)^2)");
  }

  lemma CubeRemarkableIdentityStep2()
    ensures StepReadable(CubeRemarkableIdentityProof.steps[2])
  {
    EvolveReadable(CubeRemarkableIdentityProof.steps[2], "(a + b)^2", "a^2 + 2*a*b + b^2");
  }

  lemma CubeRemarkableIdentityStep3Sides()
    ensures EquationSides("(a^2 + 2*a*b + b^2) * (a + b)", "(a^2 + 2*a*b + b^2)*a + " + "(a^2 + 2*a*b + b^2)*b")
  {
    assert Lacks("(a^2 + 2*a*b + b^2)*a + ", '=');
    assert Lacks("(a^2 + 2*a*b + b^2)*b", '=');
  }

  lemma CubeRemarkableIdentityStep3()
    ensures StepReadable(CubeRemarkableIdentityProof.steps[3])
  {
    CubeRemarkableIdentityStep3Sides();
    EvolveReadable(CubeRemarkableIdentityProof.steps[3],
      "(a^2 + 2*a*b + b^2) * (a + b)", "(a^2 + 2*a*b + b^2)*a + " + "(a^2 + 2*a*b + b^2)*b");
  }

  lemma CubeRemarkableIdentityStep4()
    ensures StepReadable(CubeRemarkableIdentityProof.steps[4])
  {
    EvolveReadable(CubeRemarkableIdentityProof.steps[4], "(a^2 + 2*a*b + b^2)*a", "a^2*a + 2*a*b*a + b^2*a");
  }

  lemma CubeRemarkableIdentityStep5()
    ensures StepReadable(CubeRemarkableIdentityProof.steps[5])
  {
    EvolveReadable(CubeRemarkableIdentityProof.steps[5], "(a^2 + 2*a*b + b^2)*b", "a^2*b + 2*a*b*b + b^2*b");
  }

  lemma CubeRemarkableIdentityStep6()
    ensures StepReadable(CubeRemarkableIdentityProof.steps[6])
  {
    EvolveReadable(CubeRemarkableIdentityProof.steps[6], "a^2*a", "a^3");
  }

  lemma CubeRemarkableIdentityStep7()
    ensures StepReadable(CubeRemarkableIdentityProof.steps[7])
  {
    EvolveReadable(CubeRemarkableIdentityProof.steps[7], "b^2*b", "b^3");
  }

  lemma CubeRemarkableIdentityStep8()
    ensures StepReadable(CubeRemarkableIdentityProof.steps[8])
  {
    EvolveReadable(CubeRemarkableIdentityProof.steps[8], "b^2*a + a^2*b", "a^2*b + b^2*a");
  }

  lemma CubeRemarkableIdentityStep9()
    ensures StepReadable(CubeRemarkableIdentityProof.steps[9])
  {
    EvolveReadable(CubeRemarkableIdentityProof.steps[9], "b*a", "a*b");
  }

  lemma CubeRemarkableIdentityStep10()
    ensures StepReadable(CubeRemarkableIdentityProof.steps[10])
  {
    EvolveReadable(CubeRemarkableIdentityProof.steps[10], "a*a", "a^2");
  }

  lemma CubeRemarkableIdentityStep11()
    ensures StepReadable(CubeRemarkableIdentityProof.steps[11])
  {
    EvolveReadable(CubeRemarkableIdentityProof.steps[11], "a^2*b", "1*a^2*b");
  }

  lemma CubeRemarkableIdentityStep12()
    ensures StepReadable(CubeRemarkableIdentityProof.steps[12])
  {
    EvolveReadable(CubeRemarkableIdentityProof.steps[12], "2*a^2*b + 1*a^2*b", "3*a^2*b");
  }

  lemma CubeRemarkableIdentityStep13()
    ensures StepReadable(CubeRemarkableIdentityProof.steps[13])
  {
    EvolveReadable(CubeRemarkableIdentityProof.steps[13], "b^2*a", "a*b^2");
  }

  lemma CubeRemarkableIdentityStep14()
    ensures StepReadable(CubeRemarkableIdentityProof.steps[14])
  {
    EvolveReadable(CubeRemarkableIdentityProof.steps[14], "b*b", "b^2");
  }

  lemma CubeRemarkableIdentityStep15()
    ensures StepReadable(CubeRemarkableIdentityProof.steps[15])
  {
    EvolveReadable(CubeRemarkableIdentityProof.steps[15], "a*b^2", "1*a*b^2");
  }

  lemma CubeRemarkableIdentityStep16()
    ensures StepReadable(CubeRemarkableIdentityProof.steps[16])
  {
    EvolveReadable(CubeRemarkableIdentityProof.steps[16], "1*a*b^2 + 2*a*b^2", "3*a*b^2");
  }

  lemma CubeRemarkableIdentityReadableFrom16()
    ensures StepsReadable(CubeRemarkableIdentityProof.steps[16..])
  {
    CubeRemarkableIdentityStep16();
    var s := CubeRemarkableIdentityProof.steps;
    ReadableTail(s[18..]);
    ReadableTail(s[17..]);
    ReadableTail(s[16..]);
  }

  lemma CubeRemarkableIdentityReadableFrom12()
    ensures StepsReadable(CubeRemarkableIdentityProof.steps[12..])
  {
    CubeRemarkableIdentityStep12(); CubeRemarkableIdentityStep13(); CubeRemarkableIdentityStep14(); CubeRemarkableIdentityStep15();
    CubeRemarkableIdentityReadableFrom16();
    var s := CubeRemarkableIdentityProof.steps;
    ReadableTail(s[16..]);
    ReadableTail(s[15..]);
    ReadableTail(s[14..]);
    ReadableTail(s[13..]);
    ReadableTail(s[12..]);
  }

  lemma CubeRemarkableIdentityReadableFrom8()
    ensures StepsReadable(CubeRemarkableIdentityProof.steps[8..])
  {
    CubeRemarkableIdentityStep8(); CubeRemarkableIdentityStep9(); CubeRemarkableIdentityStep10(); CubeRemarkableIdentityStep11();
    CubeRemarkableIdentityReadableFrom12();
    var s := CubeRemarkableIdentityProof.steps;
    ReadableTail(s[12..]);
    ReadableTail(s[11..]);
    ReadableTail(s[10..]);
    ReadableTail(s[9..]);
    ReadableTail(s[8..]);
  }

  lemma CubeRemarkableIdentityReadableFrom4()
    ensures StepsReadable(CubeRemarkableIdentityProof.steps[4..])
  {
    CubeRemarkableIdentityStep4(); CubeRemarkableIdentityStep5(); CubeRemarkableIdentityStep6(); CubeRemarkableIdentityStep7();
    CubeRemarkableIdentityReadableFrom8();
    var s := CubeRemarkableIdentityProof.steps;
    ReadableTail(s[8..]);
    ReadableTail(s[7..]);
    ReadableTail(s[6..]);
    ReadableTail(s[5..]);
    ReadableTail(s[4..]);
  }

  lemma CubeRemarkableIdentityReadableFrom0()
    ensures StepsReadable(CubeRemarkableIdentityProof.steps)
  {
    CubeRemarkableIdentityStep0(); CubeRemarkableIdentityStep1(); CubeRemarkableIdentityStep2(); CubeRemarkableIdentityStep3();
    CubeRemarkableIdentityReadableFrom4();
    var s := CubeRemarkableIdentityProof.steps;
    ReadableTail(s[3..]);
    ReadableTail(s[2..]);
    ReadableTail(s[1..]);
    ReadableTail(s);
  }

  lemma CubeRemarkableIdentitySides()
    ensures EquationSides("(a + b)^3", "a^3 + 3*a^2*b + 3*a*b^2 + b^3")
  {
    assert Lacks("a^3 + 3*a^2*b + 3*a*b^2 + b^3", '=');
  }

  lemma CubeRemarkableIdentityConclusion()
    ensures var c := CubeRemarkableIdentityDeclaration.conclusion;
            |Split(c, "=")| == 2 && |Split(RemoveSpaces(c), "=")| == 2
  {
    CubeRemarkableIdentitySides();
    ConclusionOk(CubeRemarkableIdentityDeclaration.conclusion, "(a + b)^3", "a^3 + 3*a^2*b + 3*a*b^2 + b^3");
  }

  lemma CubeRemarkableIdentityReadable()
    ensures DeclarationReadable(CubeRemarkableIdentityDeclaration)
  {
    CubeRemarkableIdentityConclusion();
    CubeRemarkableIdentityReadableFrom0();
  }

  lemma DeclareReadable()
    ensures RegistryReadable(Declare)
  {
    forall n ensures Registered(Declare, n) {
      DeclaredReadable(n);
    }
  }

  lemma DeclaredReadable(n: Name)
    ensures DeclarationReadable(Declare(n))
  {
    match n
    case RemovalOfParenthesis => RemovalOfParenthesisReadable();
    case AdditionCommutativity => AdditionCommutativityReadable();
    case ProductCommutativity => ProductCommutativityReadable();
    case LeftDistributivity => LeftDistributivityReadable();
    case RightDistributivity => RightDistributivityReadable();
    case TripleLeftDistributivity => TripleLeftDistributivityReadable();
    case TripleRightDistributivity => TripleRightDistributivityReadable();
    case LitteralAddition => LitteralAdditionReadable();
    case LeftMultiplicationByIdentity => LeftMultiplicationByIdentityReadable();
    case RightMultiplicationByIdentity => RightMultiplicationByIdentityReadable();
    case IdentityExponent => IdentityExponentReadable();
    case Addition => AdditionReadable();
    case Product => ProductReadable();
    case Power => PowerReadable();
    case PowerDistribution => PowerDistributionReadable();
    case SquareDistribution => SquareDistributionReadable();
    case CubeLeftDistribution => CubeLeftDistributionReadable();
    case CubeRightDistribution => CubeRightDistributionReadable();
    case FirstRemarkableIdentity => FirstRemarkableIdentityReadable();
    case FirstIdentityWithTwist => FirstIdentityWithTwistReadable();
    case CubeRemarkableIdentity => CubeRemarkableIdentityReadable();
  }

  /** The declaration of each class, one equation per class. */
  lemma DeclareGives()
    ensures Declare(RemovalOfParenthesis) == RemovalOfParenthesisDeclaration
    ensures Declare(AdditionCommutativity) == AdditionCommutativityDeclaration
    ensures Declare(ProductCommutativity) == ProductCommutativityDeclaration
    ensures Declare(LeftDistributivity) == LeftDistributivityDeclaration
    ensures Declare(RightDistributivity) == RightDistributivityDeclaration
    ensures Declare(TripleLeftDistributivity) == TripleLeftDistributivityDeclaration
    ensures Declare(TripleRightDistributivity) == TripleRightDistributivityDeclaration
    ensures Declare(LitteralAddition) == LitteralAdditionDeclaration
    ensures Declare(LeftMultiplicationByIdentity) == LeftMultiplicationByIdentityDeclaration
    ensures Declare(RightMultiplicationByIdentity) == RightMultiplicationByIdentityDeclaration
    ensures Declare(IdentityExponent) == IdentityExponentDeclaration
    ensures Declare(Addition) == AdditionDeclaration
    ensures Declare(Product) == ProductDeclaration
    ensures Declare(Power) == PowerDeclaration
    ensures Declare(PowerDistribution) == PowerDistributionDeclaration
    ensures Declare(SquareDistribution) == SquareDistributionDeclaration
    ensures Declare(CubeLeftDistribution) == CubeLeftDistributionDeclaration
    ensures Declare(CubeRightDistribution) == CubeRightDistributionDeclaration
    ensures Declare(FirstRemarkableIdentity) == FirstRemarkableIdentityDeclaration
    ensures Declare(FirstIdentityWithTwist) == FirstIdentityWithTwistDeclaration
    ensures Declare(CubeRemarkableIdentity) == CubeRemarkableIdentityDeclaration
  {
  }

  /** The construction of class n of the file, as `n(params)` runs it, with the given depth of nested proofs. */
  function Instance(n: Name, params: Option<seq<string>>, fuel: nat): Result<Theorem, Error>
    requires params.Some? ==> ParametersReadable(params.value)
  {
    DeclareReadable();
    DeclaredReadable(n);
    Instantiate(Declare, Declare(n), params, fuel)
  }

  /** The classes of the file that define no get_proof. */
  predicate IsAxiomName(n: Name)
  {
    n in {RemovalOfParenthesis, AdditionCommutativity, ProductCommutativity, LeftDistributivity,
          LeftMultiplicationByIdentity, IdentityExponent, PowerDistribution}
  }

  /** Exactly the seven classes without get_proof are declared without a proof script. */
  lemma AxiomNames(n: Name)
    ensures Declare(n).proof.None? <==> IsAxiomName(n)
  {
  }

  /** Whatever an axiom of the file is constructed with, the construction is an axiom and proven. */
  lemma AxiomsProven(n: Name, params: Option<seq<string>>, fuel: nat)
    requires IsAxiomName(n)
    requires params.Some? ==> ParametersReadable(params.value)
    ensures var t := Instance(n, params, fuel);
            t.Ok? ==> IsAxiom(t.value) && IsProven(t.value)
  {
    DeclareReadable();
    DeclaredReadable(n);
    AxiomNames(n);
    if Instantiate(Declare, Declare(n), params, fuel).Ok? {
      ConstructedAxiom(Declare, Declare(n), params, fuel);
    }
  }
}
