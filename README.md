# Expressivo in Dafny

A model of the core of Expressivo, a small symbolic-expression library. It
reads polynomial expressions made of `+`, `*`, nonnegative numbers and
variable names. It can differentiate them with respect to a variable and
simplify them under an environment that binds some variables to numbers.

The model follows the library's layers:

- `Terms` (terms.dfy) holds the three expression variants as a value
  (`Num`, `Var`, `BinOp`). It also defines their contents strings, the
  BinOpExpression constructor with its rep check, `equals` (equal contents)
  and `hashCode` (Java `int` arithmetic on the String hash of the contents).
- `Printing` (printing.dfy) has two printers. `ToString` is `toString` as
  written: a `+` node is parenthesised, a `*` node is not. `Print` is the
  repaired printer; see Findings.
- `Evaluation` (evaluation.dfy) defines the value of a tree and
  `PartialEval`. `PartialEval` substitutes bound variables and folds every
  node whose two operands became numbers, which is what `simplify` computes
  on freshly parsed objects.
- `Differentiation` (derivative.dfy) states the four derivative rules. It
  proves that the result really is the derivative: the value at a + h is the
  value at a, plus h times the derivative at a, plus h² times a remainder.
- `Objects` (objects.dfy) covers the mutable part. A `Variable` is a class
  whose value field (NaN, or `None` here, until bound) is overwritten by
  `simplify`. An expression object is a tree over shared `Variable`
  references. `Simplify` is a recursive method with a frame proved against
  the reference function `Simp`.
- `Building` (builder.dfy) turns a grammar parse tree into an expression.
  `BuildAST` is a recursive method whose SUM and PRODUCT cases run a
  left-folding `while` loop, as the source does, and allocate fresh Variable
  objects. `ChainStep` is one pass of that loop. `BuildAST` is proved
  against the function `Build`. `Parse` wraps `Build` and turns a parser
  failure into IllegalArgumentException; `ParseAST` does the same around
  the method `BuildAST`.
- `Reading` (reading.dfy) concerns the documented round trip
  `e.equals(parse(e.toString()))`, for a parser that keeps to the grammar.
  It proves the round trip for the repaired printer on every tree, and
  shows exactly on which trees it holds for `toString`.
  `Yield` is the text a grammar tree spans. `ParsesByGrammar` says that the
  parser accepts a text and returns a tree whose root is ROOT, which has the
  grammar's shape and spans that text. Under that hypothesis, and with number
  texts that read back, the repaired printer's text parses back to the tree
  itself. `toString`'s text parses back to the tree regrouped to the left
  (`Printing.Flatten`), which is equal to the tree exactly when no `*` node
  has a `*` node as its right operand.
- `Commands` (commands.dfy) holds the two string commands, `differentiate`
  and `simplify`, each echoing its input when parsing fails.
  `Differentiate` returns `toString` of the derivative, as written.
  `DifferentiateRepaired` is the same command with the repaired printer.
- `NumberText` (number_text.dfy) and `Wrappers` (wrappers.dfy) supply the
  number-to-text conversions and the `Option` and `Result` types.

The three Java number conversions are parameters of type `Format`:
`Double.toString` (`show`), `BigDecimal.valueOf(v).toPlainString()`
(`plain`) and `Double.parseDouble` (`read`). Lemmas that need them to
behave say so with `WellBehaved` and with `InjectiveOn`, over the finite set
of numbers in the trees concerned. The lib6005 parser generated from the
grammar is the parameter `parser`, which returns `None` where the parser
throws UnableToParseException. `Shaped` states what the grammar guarantees
about the trees the parser returns.

A Java runtime exception thrown while building the tree becomes the
`BuildError` (or `Internal`) branch of a `Result`. That branch names the
exception's cause. The commands do not catch it, and the model passes it
through unchanged.

## Model

| member | source | states |
|---|---|---|
| Terms.Contents | src/expressivo/BinOpExpression.java:29-43 | the contents of a BinOpExpression are enclosed in one pair of parentheses, so they are never empty |
| Terms.Equals | src/expressivo/BinOpExpression.java:152-157 | equals() is reflexive: an expression is equal to itself |
| Terms.HashCode | src/expressivo/BinOpExpression.java:165-172 | hashCode() is a Java `int`: it lies in the 32-bit signed range |
| Terms.NewBinOp | src/expressivo/BinOpExpression.java:29-36 | the node exists exactly for the operators '+' and '*'; it keeps both operands, and its contents are the operands' contents around the operator, in parentheses |
| Terms.Int32 | src/expressivo/BinOpExpression.java:166-171 | the hash arithmetic stays in the 32-bit range and differs from the exact sum by a multiple of 2^32 |
| Terms.EqualsImpliesEqualHash | src/expressivo/Expression.java:297-303 | expressions that are equal under equals() have equal hash codes |
| Terms.EqualsIsStructural | src/expressivo/Expression.java:289-295 | comparing contents is structural equality, in both directions, for trees with letter names and numbers whose Double.toString texts differ |
| Printing.ToString | src/expressivo/BinOpExpression.java:137-146 | a `+` node is printed inside one pair of parentheses |
| Printing.Print | src/expressivo/BinOpExpression.java:137-146 | the repaired printer also prints a `+` node inside one pair of parentheses |
| Printing.PrintAgreesWithToString | src/expressivo/BinOpExpression.java:137-146 | the repaired printer prints exactly what toString prints, on every tree where no `*` node has a `*` node as its right operand |
| Printing.ToStringCollides | src/expressivo/BinOpExpression.java:140-145 | x*(y*z) and (x*y)*z are different and not equal(), yet toString prints both as "x*y*z" |
| Printing.PrintInjective | src/expressivo/Expression.java:282-285 | the repaired printer prints two trees alike exactly when they are the same tree |
| Printing.FlattenPrints | src/expressivo/BinOpExpression.java:137-146 | toString prints a tree exactly as the repaired printer prints the tree regrouped to the left, and the regrouped tree has no `*` node as the right operand of a `*` node |
| Printing.FlattenFixed | src/expressivo/BinOpExpression.java:140-145 | regrouping to the left leaves a tree unchanged exactly when no `*` node of it has a `*` node as its right operand |
| Printing.GraftEval | src/expressivo/BinOpExpression.java:140-145 | attaching a product to the left of a chain of products keeps the value of the product |
| Printing.FlattenEval | src/expressivo/BinOpExpression.java:140-145 | the left-regrouped tree that toString's text reads back as has the value of the original tree under every environment |
| Evaluation.PartialEval | src/expressivo/BinOpExpression.java:78-103 | the variables left after simplification are exactly the input's variables that the environment does not bind |
| Evaluation.PartialEvalFolds | src/expressivo/Commands.java:48-50 | simplification yields a single number exactly when the environment binds every variable, and that number is the expression's value |
| Evaluation.PartialEvalSound | src/expressivo/Commands.java:48-49 | the simplified expression is equal to the input: it has the input's value under every environment that binds all of the input's variables and agrees with the given bindings |
| Evaluation.PartialEvalIdempotent | src/expressivo/BinOpExpression.java:78-103 | simplifying a simplified tree again under the same environment changes nothing |
| Differentiation.Derivative | src/expressivo/BinOpExpression.java:56-68 | the derivative mentions no variable the input does not, and keeps names well formed |
| Differentiation.DerivativeExpansion | src/expressivo/Expression.java:37-49 | the rules compute the derivative: the value at a + h equals the value at a, plus h times the derivative's value at a, plus h² times a remainder |
| Differentiation.DerivativeOfConstant | src/expressivo/Expression.java:41-47 | an expression that does not mention x has a derivative whose value is 0 everywhere |
| Differentiation.DerivativeOfSquare | src/expressivo/BinOpExpression.java:61-64 | d(x*x)/dx is x*1.0 + x*1.0, unsimplified and in the product rule's operand order |
| Objects.Variable.constructor | src/expressivo/Variable.java:28-31 | a new Variable has the given name and holds no value (NaN) |
| Objects.Variable.Simplify | src/expressivo/Variable.java:72-81 | a bound variable stores the environment's value and becomes that Number; an unbound one returns itself, and its stored value is unchanged |
| Objects.Value | src/expressivo/BinOpExpression.java:48-50 | only a Number or a Variable ever reports a value; a BinOpExpression always reports NaN |
| Objects.Simp | src/expressivo/BinOpExpression.java:78-103 | the result refers only to Variable objects of the input whose names the environment does not bind |
| Objects.Simplify | src/expressivo/BinOpExpression.java:78-103 | the result is what Simp gives on the objects as they were before the call; exactly the bound Variables are written, each with its environment value; the result refers only to unbound Variables |
| Objects.SimpFresh | src/expressivo/Commands.java:56-60 | on objects that hold no values, as parse leaves them, simplify computes PartialEval |
| Objects.StaleValue | src/expressivo/Variable.java:75-80 | a Variable keeps a value once bound: x+2.0 simplified under {x: 3.0} and then under {} gives 5.0 both times, although a fresh copy stays x+2.0 under {} |
| Building.Build | src/expressivo/Expression.java:126-137 | a NUMBER or VARIABLE token always builds; a WHITESPACE node never builds |
| Building.UnchainLeftChain | src/expressivo/Expression.java:161-170 | the left-nested chain the loop builds has as its operands exactly the list of children's trees, in order |
| Building.BuildList | src/expressivo/Expression.java:161-170 | when every child builds, the list has one tree per child, the i-th being child i's tree |
| Building.BuildListFirstError | src/expressivo/Expression.java:204-211 | when a child fails, the reported error is that of the first failing child, and every earlier child builds |
| Building.ChainBuild | src/expressivo/Expression.java:155-215 | a SUM or PRODUCT node fails exactly when it has no operand child or one fails; otherwise its tree is the left-nested chain of its operands, in order |
| Building.BuildShaped | src/expressivo/Expression.java:111-233 | every tree the grammar can produce builds, with letter-only variable names |
| Building.BuildAST | src/expressivo/Expression.java:111-233 | the method succeeds exactly when Build does, with the same error otherwise; on success the expression's tree is Build's, its Variables are new objects, and none holds a value |
| Building.BuildChain | src/expressivo/Expression.java:195-215 | the loop's result folds the children's expressions to the left, or fails with the first child's error or the empty-node error, as Fold specifies |
| Building.ChainStep | src/expressivo/Expression.java:204-211 | one pass of the loop: when child i fails, the whole node fails with its error; otherwise the new tree is the left chain of the first i + 1 children's trees, holds no values, and refers only to new Variables or those of the tree so far |
| Building.Parse | src/expressivo/Expression.java:241-280 | parse throws IllegalArgumentException exactly when the parser rejects the input; any other failure comes from building the tree |
| Building.ParseShaped | src/expressivo/Expression.java:241-280 | an input the parser accepts parses to a tree with letter-only names |
| Building.ParseAST | src/expressivo/Expression.java:241-280 | the object-level parse agrees with Parse, and its Variables are new and hold no values |
| Building.ToStringRoundTripFails | src/expressivo/Expression.java:282-285 | the as-written toString breaks the round trip: parsing the text of x*(y*z) gives a tree not equal() to it |
| Building.PrintRoundTrip | src/expressivo/Expression.java:282-285 | the witness that Reading.NestedProductGrammatical uses, and an instance of the round trip: with the repaired printer, parsing the printed form of x*(y*z) gives back x*(y*z), for a parser that reads that text as the grammar does |
| Reading.GrammaticalBuilds | src/expressivo/Expression.java:111-233 | a grammar tree spanning the repaired printer's text of e builds exactly e |
| Reading.PrintReadsBack | src/expressivo/Expression.java:282-285 | for every tree with letter names whose numbers read back, and a parser that parses the repaired printer's text by the grammar, parse gives back that tree, which is equal() to it |
| Reading.ToStringReadsBack | src/expressivo/Expression.java:282-285 | under the same conditions, parsing toString's text gives the tree regrouped to the left; when numbers print apart, the result is equal() to the tree exactly when no `*` node has a `*` node as its right operand |
| Reading.NestedProductGrammatical | src/expressivo/Expression.java:241-280 | the grammar tree of a*(b*c) spans that text, so a parser that returns it meets the read-back hypothesis |
| Commands.Differentiate | src/expressivo/Commands.java:28-40 | an input the parser rejects is returned as it is; the command fails exactly when building the parsed tree fails; otherwise it returns toString of the parsed tree's derivative |
| Commands.DifferentiateRepaired | src/expressivo/Commands.java:28-40 | the same command with the repaired printer: the same echo and failure cases, otherwise the repaired printer's text of the derivative |
| Commands.DerivativePrintSafe | src/expressivo/BinOpExpression.java:61-64 | when no `*` node of the input has a `*` node as its right operand, the derivative has none either |
| Commands.DifferentiatesAgree | src/expressivo/Commands.java:31-34 | on those inputs, the command as written and the repaired one return the same text |
| Commands.DifferentiateReadsBack | src/expressivo/Commands.java:24-25 | the repaired command's output, when the parser reads it by the grammar and the numbers read back, parses to the derivative and is equal() to it |
| Commands.DifferentiateToStringReadsBack | src/expressivo/Commands.java:24-25 | the command as written returns text that parses to the derivative regrouped to the left: equal() to the derivative exactly when the derivative has no `*` node as the right operand of a `*` node, which holds whenever the input has none, and equal to it in value under every environment in any case |
| Commands.DifferentiateNestedFails | src/expressivo/Commands.java:31-34 | on a*(b*c)*x the command as written returns text that parses to an expression not equal() to the derivative (though equal to it in value), and differs from the repaired command's output |
| Commands.DifferentiateDeterminesDerivative | src/expressivo/Commands.java:24-25 | two parsed inputs give the same output from the repaired command exactly when their derivatives are the same tree |
| Commands.DifferentiateSquare | test/expressivo/CommandsTest.java:84-87 | differentiate("x*x", "x") is "(x*1.0+x*1.0)" when the parser reads x*x as a product of two variables and 1.0 prints as "1.0" |
| Commands.DifferentiateCube | test/expressivo/CommandsTest.java:93-96 | differentiate("x*x*x", "x") is "(x*x*1.0+x*(x*1.0+x*1.0))" under the same conditions, for (x*x)*x |
| Commands.SimplifiedText | src/expressivo/Commands.java:61-76 | when every variable is bound the output is the plain decimal text of the value; otherwise it is the contents of the simplified expression |
| Commands.SimplifiedTextNumeric | src/expressivo/Commands.java:61-76 | the output is number text exactly when every variable is bound, and then it is the plain decimal text of the expression's value |
| Commands.SimplifyCommand | src/expressivo/Commands.java:54-81 | an input the parser rejects is returned as it is; the command fails exactly when building the parsed tree fails; otherwise it returns the simplified text of the parsed tree |
| Commands.Simplify | src/expressivo/Commands.java:54-81 | the command run on objects (parse, simplify in place, getValue, then print) returns what SimplifyCommand specifies |
| Commands.SimplifyNumeric | src/expressivo/Commands.java:48-50 | on grammatical input, simplify succeeds, and answers with a number exactly when the environment binds every variable |

## Left out

- Floating point: numbers are exact reals, so there is no rounding, and no NaN or infinity among values. A Variable's NaN marker is `None`.
- The texts of `Double.toString`, `BigDecimal.toPlainString` and `Double.parseDouble` are parameters. Their properties appear as predicates on them where needed. The NumberFormatException that `parseDouble` could throw is not modelled, because the grammar's NUMBER token always reads.
- The lib6005 parser, the grammar file (Expression.g), `GrammarCompiler` and `buildParser`'s file I/O are not part of this model. The parser is a parameter. A `null` parser, from a grammar that fails to compile, and the NullPointerException it would cause, are not modelled.
- `visitAll`, the diagnostic `System.out.println` calls, the commented-out `printInfix`, Parse.java (entirely commented out) and IntegerExpression.java (an empty stub) are not part of this model.
- The constructors' null-operand check and the `default` branches of `derivative` (returns null) and `simplify` (throws) are not modelled. They are unreachable, because operators are `Op` values and operands cannot be null.
- `equals` against a non-Expression object (always false) is not modelled. Both arguments are expressions.
- String.hashCode is the parameter `stringHash`.
- Differentiation.Derivative: modelled on values, so the sharing of operand objects between an expression and its derivative is not captured. `derivative` itself writes no field, but `Variable.simplify` does, so sharing carries the stale-value effect of the second Findings row from a derivative back to its source: for e = parse("x*y") and d = e.derivative("x"), d.simplify({y: 3.0}) stores 3.0 in e's y, and a later e.simplify({x: 2.0}) folds to 6.0.
- Evaluation.Eval: reads an unbound variable as 0. It is a reference semantics for the lemmas, not an operation of the library. Every lemma that uses it in a statement about simplify requires the variables to be bound.
- The lib6005 parser's behaviour enters only as the hypothesis `ParsesByGrammar` on the particular text being read back. That the parser accepts every grammatical text (its completeness) is not modelled, so the read-back lemmas take it as a requirement rather than proving it.
- Reading.PrintReadsBack: the read-back holds for numbers whose texts read back (`ReadsBack`); with floating point, `Double.toString` and `parseDouble` would supply this, which is outside the model.

## Findings

| source | as written | input that shows it | evidently intended | confidence | as-written member | corrected member |
|---|---|---|---|---|---|---|
| src/expressivo/BinOpExpression.java:140-145 | toString prints a `*` node as `left*right` with no parentheses, so a product as the right operand of a product loses its grouping; this breaks the promise of Expression.java:282-285 that `e.equals(parse(e.toString()))` | `x*(y*z)` prints as `x*y*z`, which parses as `(x*y)*z`, whose contents `((x*y)*z)` differ from `(x*(y*z))` | parenthesise the right operand of `*` when it is itself a product (`Printing.Print`), whose text parses back to the tree itself | not executed | Reading.ToStringReadsBack | Reading.PrintReadsBack |
| src/expressivo/Variable.java:75-79 | simplify stores a bound value in the Variable object, although Expression.java:15 documents an immutable type; a later simplify under an environment without that name still folds the stale value | simplify `x+2.0` under {x: 3.0}, then simplify the same object under {}: the second call gives 5.0 instead of `(x+2.0)` | simplification depends only on the expression and the environment (`Evaluation.PartialEval`) | not executed | Objects.StaleValue | Evaluation.PartialEvalSound |
| src/expressivo/Commands.java:34 | differentiate returns `deriv.toString()`, so a derivative with a product as the right operand of a product comes back regrouped. Commands.java:24-25 promises an expression "equal to the derivative" that need not be in simplest or canonical form. Read as equality of value, the promise holds (`Commands.DifferentiateToStringReadsBack`, `Printing.FlattenEval`); read as `equals()`, the structural equality the library defines, it is broken. This row concerns the `equals()` reading, and is the command-level consequence of the first row | `a*(b*c)*x` differentiated by `x`: the derivative contains `a*(b*c)`, printed as `a*b*c`, which parses as `(a*b)*c` | print the derivative with the repaired printer (`Commands.DifferentiateRepaired`), whose output parses back to the derivative | not executed | Commands.DifferentiateNestedFails | Commands.DifferentiateReadsBack |
