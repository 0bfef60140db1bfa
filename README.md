# Random-art expression trees in Dafny

This project models the expression trees of the Random-Art assignment and the two
generators that draw them at random:

- the **parallel design** (package `randomartassignment.expression`): `ExpressionParallel`
  and its variants Variable, Multiply, Average, Sin, Cos, plus `Power` and
  `AbsoluteValue`; evaluation takes the pixel coordinates x and y as parameters; the
  generator `ExpressionGeneratorParallel` draws a tree from the enum `ExpressionType`;
- the **legacy design** (`Expression`, `ExpressionGenerator`): the same variants, but a
  `Variable` is an object holding a mutable value `self`, every leaf of a generated tree
  is one of the generator's two shared variables `x` and `y`, and `evaluateExpression`
  sets them before evaluating.

Modules, one per source file, plus three shared ones:

| module | models |
|---|---|
| `Common` | the runtime exceptions as `Fault`, a `Result` type, and the string building of Multiply/Average `toString` |
| `Numeric` | doubles as a real or NaN; `Math.sin(Math.PI * a)`, `Math.cos(Math.PI * a)` and `Math.pow` as a `Semantics` parameter |
| `Randomness` | `Math.random()` / `java.util.Random` as an oracle of draws in [0, 1) |
| `ExpressionParallel` | the node datatype, the `Node` class (child-list operations), `toString` and `evaluate` as pure functions and as loop methods proved equal to them |
| `PowerExpression`, `AbsoluteValueExpression` | the two extra variants |
| `ExpressionGeneratorParallel` | `ExpressionType`, `createExpression`, the wrapper class |
| `Expression` | the legacy nodes: the `Variable` class, the `Operation` class, `toString`/`evaluate` in the current heap, and their agreement with the parallel design |
| `ExpressionGenerator` | the legacy generator class with its shared `x` and `y` |

Every exception the Java code can throw on a tree without null references is a
result, not a precondition:
`getFirst()` on an empty child list (Sin, Cos, AbsoluteValue), `get(i)` out of range
(Power), and `substring(0, -3)` in the text of a Multiply with no children. The
generators are specified by pure functions of the draws (`Generate`), and the methods
that draw from a shared `Random` object are proved to build exactly that tree.

Behaviour of the code worth noting:

- The parallel generator gives Multiply and Average exactly two children; its 2–4
  branch is guarded by `howManyArguments() == -1`, which no variant answers. Only the
  legacy generator draws 2 to 4 children.
- The text of Multiply has no parentheses, so it is not unambiguous: two different
  trees print as `X * Y * X` (`ExpressionParallel.MultiplyTextAmbiguous`).
- A node with the wrong number of children is not rejected. Sin, Cos and AbsoluteValue
  read only their first child, and Power only its first two. An Average with no children
  evaluates to NaN (0.0 / 0) and prints as `av)`. A Multiply with no children evaluates
  to 1, and printing it throws.
- The generators draw only Variable, Multiply, Average, Sin and Cos; Power and
  AbsoluteValue never occur in a generated tree.

## Model

| member | source | states |
|---|---|---|
| ExpressionParallel.HowManyArguments | src/randomartassignment/expression/ExpressionParallel.java:96-100 | the arity code is 0 exactly for Variable, 1 exactly for Sin, Cos, AbsoluteValue, 2 exactly for Multiply, Average, Power |
| ExpressionParallel.Node.constructor | src/randomartassignment/expression/ExpressionParallel.java:28-31 | a new node has an empty child list |
| ExpressionParallel.Node.WithArguments | src/randomartassignment/expression/ExpressionParallel.java:39-43 | the varargs constructor's children are its arguments, in order |
| ExpressionParallel.Node.AddArgument | src/randomartassignment/expression/ExpressionParallel.java:51-54 | the new child list is the old one with ex appended at the end |
| ExpressionParallel.Node.AddArguments | src/randomartassignment/expression/ExpressionParallel.java:62-68 | the new child list is the old one followed by all arguments in the order given |
| ExpressionParallel.Node.GetArgument | src/randomartassignment/expression/ExpressionParallel.java:79-82 | returns the child at index exactly when 0 <= index < size, and IndexOutOfBounds otherwise |
| ExpressionParallel.Accumulate | src/randomartassignment/expression/ExpressionParallel.java:234-238 | the accumulator loop yields the prefix followed by every child's text and a separator, or the first exception a child's toString throws |
| ExpressionParallel.ToString | src/randomartassignment/expression/ExpressionParallel.java:232-241 | the loop-and-truncate toString of every variant yields exactly the text Text(e) specifies, exceptions included; Multiply's cut of 3 characters and Average's cut of 2 plus ")" included |
| ExpressionParallel.MultiplyLoop | src/randomartassignment/expression/ExpressionParallel.java:207-214 | the loop that multiplies each child's value into a product starting at 1 yields the product of the children's values, or the first exception a child throws |
| ExpressionParallel.AverageLoop | src/randomartassignment/expression/ExpressionParallel.java:283-287 | the loop that adds each child's value to a total starting at 0 yields the sum of the children's values, one value per child, or the first exception |
| ExpressionParallel.Evaluate | src/randomartassignment/expression/ExpressionParallel.java:281-289 | evaluate of every variant yields exactly Eval(e), exceptions included; Average divides the loop's total by the number of children |
| ExpressionParallel.TextOkIff | src/randomartassignment/expression/ExpressionParallel.java:232-241 | toString throws on no tree except one where a Multiply has no child, a Sin/Cos/AbsoluteValue no first child, or a Power fewer than two, among the children it reads |
| ExpressionParallel.EvalOkIff | src/randomartassignment/expression/ExpressionParallel.java:355-358 | evaluate throws exactly when a node it reads lacks the first child (getFirst) or, for Power, child 0 or 1 (get); Multiply and Average never throw themselves |
| ExpressionParallel.EvalInUnit | src/randomartassignment/expression/ExpressionParallel.java:85-93 | for x, y in [-1, 1] and sine/cosine in [-1, 1], a tree without Power whose Average, Sin, Cos and AbsoluteValue nodes have a child evaluates without exception or NaN into [-1, 1] |
| ExpressionParallel.VariableSelects | src/randomartassignment/expression/ExpressionParallel.java:144-147 | a Variable evaluates to x exactly when its name is "X" and to y otherwise, and prints its name |
| ExpressionParallel.UnaryReadsFirstOnly | src/randomartassignment/expression/ExpressionParallel.java:355-358 | children after the first change neither the text nor the value of Sin, Cos, AbsoluteValue |
| ExpressionParallel.TrigText | src/randomartassignment/expression/ExpressionParallel.java:376-379 | Sin and Cos print "sin(pi * a)" and "cos(pi * a)" from the first child, and throw NoSuchElement with no child |
| ExpressionParallel.MultiplyTextAmbiguous | src/randomartassignment/expression/ExpressionParallel.java:232-241 | Multiply[Multiply[X, Y], X] and Multiply[X, Multiply[Y, X]] differ but both print "X * Y * X" |
| ExpressionParallel.SquareAtHalf | src/randomartassignment/expression/ExpressionParallel.java:207-214 | Multiply(X, X) at x = 0.5 evaluates to exactly 0.25 |
| Common.MultiplyTruncation | src/randomartassignment/expression/ExpressionParallel.java:239-240 | the accumulated string is shorter than 3 (substring throws) exactly when there are no children; otherwise cutting 3 characters leaves the texts joined by " * " |
| Common.AverageTruncation | src/randomartassignment/expression/ExpressionParallel.java:314-315 | cutting 2 characters and appending ")" gives "avg(" + texts joined by ", " + ")", and "av)" for no children |
| Common.TrailingIsJoin | src/randomartassignment/expression/ExpressionParallel.java:235-239 | for at least one part, every part followed by the separator is the join followed by one separator |
| Numeric.ProductInUnit | src/randomartassignment/expression/ExpressionParallel.java:207-214 | a product of values in [-1, 1] stays in [-1, 1] |
| Numeric.SumBounded | src/randomartassignment/expression/ExpressionParallel.java:283-287 | the sum of n values in [-1, 1] is finite and lies in [-n, n] |
| Numeric.MeanInUnit | src/randomartassignment/expression/ExpressionParallel.java:281-289 | the mean of values in [-1, 1] is in [-1, 1] exactly when there is at least one, and NaN when there is none |
| PowerExpression.NewPower | src/randomartassignment/expression/Power.java:31-34 | new Power(ex, ex2) has ex at index 0 and ex2 at index 1, and arity code 2 |
| PowerExpression.PowerText | src/randomartassignment/expression/Power.java:68-71 | Power prints "(a ^ b)" from children 0 and 1 only, is always parenthesised, and throws with fewer than two children |
| PowerExpression.PowerReadsTwo | src/randomartassignment/expression/Power.java:44-47 | Power's value needs children 0 and 1, ignores the rest, and is pow(child 0, abs(child 1)) |
| PowerExpression.ExponentNeverNegative | src/randomartassignment/expression/Power.java:36-47 | replacing pow by any function that agrees with it on non-negative exponents changes the value of no tree: pow is never asked about a negative exponent |
| AbsoluteValueExpression.NewAbsoluteValue | src/randomartassignment/expression/AbsoluteValue.java:29-32 | new AbsoluteValue(ex) has ex as its sole child, and arity code 1 |
| AbsoluteValueExpression.AbsoluteValueText | src/randomartassignment/expression/AbsoluteValue.java:64-67 | AbsoluteValue prints "abs(a)" from the first child, and throws NoSuchElement with no child |
| AbsoluteValueExpression.AbsoluteValueEval | src/randomartassignment/expression/AbsoluteValue.java:40-43 | the value exists exactly when the first child's does and is then Math.abs of it: a finite child gives a finite, non-negative value equal to the child's value or its negation, a NaN child gives NaN; no child throws NoSuchElement |
| ExpressionGeneratorParallel.ExpressionTypeTable | src/randomartassignment/expression/ExpressionGeneratorParallel.java:30-95 | EXPRESSIONS lists every ExpressionType exactly once, so SIZE is 5 |
| ExpressionGeneratorParallel.Leaf | src/randomartassignment/expression/ExpressionGeneratorParallel.java:172-175 | the depth-0 leaf is a childless Variable named "X" exactly when the coin is true, else "Y" |
| ExpressionGeneratorParallel.KindOf | src/randomartassignment/expression/ExpressionGeneratorParallel.java:35-85 | create() makes a Variable exactly for VARIABLE, and only VARIABLE consumes a draw |
| ExpressionGeneratorParallel.RandomKind | src/randomartassignment/expression/ExpressionGeneratorParallel.java:102-105 | generateRandomExpression consumes at least one draw and never makes a Power or AbsoluteValue |
| ExpressionGeneratorParallel.Generate | src/randomartassignment/expression/ExpressionGeneratorParallel.java:169-205 | for every draw sequence createExpression consumes at least one draw and yields a tree whose leaves are X or Y without children, with one child under Sin/Cos, exactly two under Multiply/Average, no Power or AbsoluteValue, and height at most depth |
| ExpressionGeneratorParallel.Create | src/randomartassignment/expression/ExpressionGeneratorParallel.java:37-84 | the method makes a fresh childless node of the kind KindOf gives, advancing the stream as KindOf says |
| ExpressionGeneratorParallel.GenerateRandomExpression | src/randomartassignment/expression/ExpressionGeneratorParallel.java:102-105 | the method makes the fresh childless node RandomKind gives |
| ExpressionGeneratorParallel.CreateExpression | src/randomartassignment/expression/ExpressionGeneratorParallel.java:169-205 | the recursive method builds exactly the tree Generate gives from the same draws, and leaves the stream where Generate says |
| ExpressionGeneratorParallel.ExpressionGeneratorParallel.constructor | src/randomartassignment/expression/ExpressionGeneratorParallel.java:133-136 | the root is Generate's tree, of generated shape and no higher than expressionDepth |
| ExpressionGeneratorParallel.ExpressionGeneratorParallel.FromExpression | src/randomartassignment/expression/ExpressionGeneratorParallel.java:144-147 | the root is the given tree |
| ExpressionGeneratorParallel.ExpressionGeneratorParallel.EvaluateExpression | src/randomartassignment/expression/ExpressionGeneratorParallel.java:207-219 | the result is the root's value at (setX, setY), and lies in [-1, 1] for a generated root and coordinates in [-1, 1] |
| ExpressionGeneratorParallel.ExpressionGeneratorParallel.ToString | src/randomartassignment/expression/ExpressionGeneratorParallel.java:221-230 | the result is the root's text, which exists for a generated root |
| ExpressionGeneratorParallel.GeneratedIsPrintableAndClosed | src/randomartassignment/expression/ExpressionGeneratorParallel.java:163-168 | a tree of generated shape prints without exception and is in the class whose value stays in [-1, 1] |
| ExpressionGeneratorParallel.GeneratedTreesBehave | src/randomartassignment/expression/ExpressionGeneratorParallel.java:207-219 | every generated tree prints, and at coordinates in [-1, 1] evaluates without exception or NaN into [-1, 1] |
| Expression.Variable.constructor | src/Expression.java:46-50 | a new Variable keeps its name and has value 0 |
| Expression.Variable.ChangeSelf | src/Expression.java:52-60 | afterwards evaluate() answers s, and the name is unchanged |
| Expression.VariableLeaf | src/Expression.java:57-60 | a Variable leaf evaluates to its object's current value, whatever its name, and prints its name |
| Expression.HowManyArguments | src/Expression.java:36 | the arity code is 0 exactly for a Variable, 1 exactly for Sin and Cos, 2 exactly for Multiply and Average |
| Expression.Operation.constructor | src/Expression.java:7-10 | a new operator node has an empty child list |
| Expression.Operation.WithArguments | src/Expression.java:12-16 | the varargs constructor's children are its arguments, in order |
| Expression.Operation.AddArgument | src/Expression.java:18-21 | the new child list is the old one with ex appended |
| Expression.Operation.AddArguments | src/Expression.java:23-27 | the new child list is the old one followed by all arguments in order |
| Expression.Operation.GetArgument | src/Expression.java:29-32 | returns the child at index exactly when it is in range, and IndexOutOfBounds otherwise |
| Expression.Accumulate | src/Expression.java:99-101 | the accumulator loop yields the prefix followed by every child's text and a separator, or the first exception |
| Expression.ToString | src/Expression.java:97-104 | the loop-and-truncate toString yields exactly the text Text(e) specifies, exceptions included; Multiply's cut of 3 characters and Average's cut of 2 plus ")" included |
| Expression.MultiplyLoop | src/Expression.java:84-90 | the loop that multiplies each child's value into a product starting at 1 yields the product of the children's values in the current heap, or the first exception |
| Expression.AverageLoop | src/Expression.java:118-124 | the loop that adds each child's value to a total starting at 0 yields the sum of the children's values, one per child |
| Expression.Evaluate | src/Expression.java:118-124 | evaluate yields exactly Eval(e) in the current heap: each leaf answers its object's self |
| Expression.TextMatchesParallel | src/Expression.java:97-104 | a legacy tree prints exactly as the parallel tree of the same shape, exceptions included |
| Expression.EvalMatchesParallel | src/Expression.java:34 | a tree whose leaves are the objects named "X" and "Y" evaluates, in the current heap, as the parallel design does with x and y being those objects' values |
| ExpressionGenerator.ChildCount | src/ExpressionGenerator.java:61 | two plus the integer part of three times a draw in [0, 1) is 2, 3 or 4 (in real arithmetic) |
| ExpressionGenerator.Draw | src/ExpressionGenerator.java:21-42 | generateExpression gives the shared x or y after two draws, or a childless operator after one |
| ExpressionGenerator.Generate | src/ExpressionGenerator.java:44-67 | createExpression consumes at least one draw at every depth |
| ExpressionGenerator.GenerateChildren | src/ExpressionGenerator.java:61-63 | the counting loop yields exactly k subtrees |
| ExpressionGenerator.ExpressionGenerator.constructor | src/ExpressionGenerator.java:13-19 | two fresh variables X and Y with value 0, and a root that is Generate's tree over them, of generated shape and no higher than expressionDepth |
| ExpressionGenerator.ExpressionGenerator.GenerateExpression | src/ExpressionGenerator.java:21-42 | the method returns what Draw gives, a fresh childless operator or a shared variable; the default branch is unreachable |
| ExpressionGenerator.ExpressionGenerator.CreateExpression | src/ExpressionGenerator.java:44-67 | the recursive method with its counting loop builds exactly the tree Generate gives from the same draws |
| ExpressionGenerator.ExpressionGenerator.EvaluateExpression | src/ExpressionGenerator.java:69-72 | x and y hold setX and setY, and the result is the parallel value of the root at (setX, setY), in [-1, 1] for coordinates in [-1, 1] |
| ExpressionGenerator.ExpressionGenerator.EvaluateExpressionOf | src/ExpressionGenerator.java:74-79 | x.self = setX and y.self = setY afterwards, so every leaf among x and y answers setX or setY and the tree evaluates as the parallel design does at (setX, setY) |
| ExpressionGenerator.ExpressionGenerator.ToString | src/ExpressionGenerator.java:81-84 | the result is the root's text, and it always exists |
| ExpressionGenerator.GenerateShape | src/ExpressionGenerator.java:44-67 | for every draw sequence every leaf is the shared x or y, Sin/Cos have one child, Multiply/Average 2 to 4, and height is at most depth |
| ExpressionGenerator.GenerateChildrenShape | src/ExpressionGenerator.java:61-63 | each of the k subtrees the loop adds has the generated shape and height at most depth - 1 |
| ExpressionGenerator.GeneratedLeaves | src/ExpressionGenerator.java:46-49 | the leaves of a generated tree are among x and y |
| ExpressionGenerator.GeneratedIsPrintableAndClosed | src/ExpressionGenerator.java:81-84 | a generated tree over X and Y prints without exception and its value stays in [-1, 1] |
| Randomness.IntBelow | src/randomartassignment/expression/ExpressionGeneratorParallel.java:104 | nextInt(SIZE) made from a draw in [0, 1) is a valid index below SIZE |

## Left out

- Driver, ConcurrencyTesting, SynchronizedMethodTesting and FileCreationTesting are not part of this model. They hold command-line parsing, image writing and threading demos.
- Floating point: a double is a real number or NaN, with no rounding, infinities or overflow. This holds for node values only: the coordinates x and y given to evaluate, setX and setY given to evaluateExpression, and a legacy Variable's self and changeSelf argument are finite reals, so a NaN or infinite coordinate is not modelled. Driver produces a NaN coordinate for an image 1 pixel wide or high, where the step 2.0 / (width - 1) is infinite and 0 times it is NaN; Driver is not part of this model. Math.sin, Math.cos and Math.pow are parameters of every statement. `sinPi(a)` stands for `Math.sin(Math.PI * a)` as a whole.
- The pseudo-random generators are not modelled: a stream of draws is any sequence in [0, 1). nextInt(n) is floor(draw * n) and nextBoolean is draw < 0.5. Nothing about the distribution is stated.
- Children are held by value in both designs. A node attached under two parents, or changed after it was attached, is not modelled; the generators do neither. Only the legacy Variable objects are references, since they are what the legacy generator shares.
- Null references are not modelled: the datatypes cannot hold a null child or a null Variable name. The constructors and addArgument accept a null child. With one, toString and evaluate of Sin, Cos, AbsoluteValue, Multiply and Average throw NullPointerException (in both designs where the variant exists). Power.evaluate throws NullPointerException too, while Power.toString prints the text "null". A null name makes the parallel Variable.evaluate throw NullPointerException; the legacy Variable.evaluate returns self and never reads the name. Neither generator creates a null child or a null name.
- The legacy Variable inherits a child list from Expression. It is never filled and is not modelled.
- grayscaleTest in both generators is not modelled. It builds one fixed tree, which the parallel generator discards.
- Negative depths are excluded (depth is a `nat`). The parallel constructor documents a depth of at least 0, but the legacy `ExpressionGenerator(int expressionDepth)` documents nothing, and Driver passes it the parsed command-line argument unchecked (src/Driver.java:20, src/Driver.java:37), so a negative depth can reach it. From a negative depth createExpression never meets the depth-0 case. It still returns when every branch draws a Variable, giving a tree with no height bound, and otherwise overflows the stack. Stack depth limits are not modelled either.
- String concatenation in Power.toString is modelled in the order javac used through Java 8: get(0), then child 0's toString, then get(1). Under the concatenation of Java 9 to 18, both get calls run before either toString; Java 19 and later use the modelled order again.
- ExpressionGenerator.ChildCount: proved to be 2, 3 or 4 in real arithmetic. In doubles, the largest draw 1 - 2^-53 makes draw * 3 round to 3 - 2^-51, and adding 2 rounds to 5.0, so that draw gives 5 children. The model gives 4.
- ExpressionGenerator.GenerateShape: its 2 to 4 children under Multiply and Average rest on ChildCount, so with double rounding a node can have 5 children.
- ExpressionParallel.EvalInUnit: the [-1, 1] range that every evaluate documents is proved only for trees without Power and with a child under every Average, Sin, Cos and AbsoluteValue. Power can give NaN, and an empty Average gives NaN.
