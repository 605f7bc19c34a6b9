# Calculator key handler

This project models the key handler of a small Android calculator, the lambda
passed to `CalculatorKeyboard` in `MainActivity.kt`. It also models the pure
helpers the handler calls: `isOperation`, `handleOperation`, `getNumber` and
the `CalculatorKey` enum.

The handler keeps four pieces of state:

- `current`: the text on the display;
- `runningTotal`: the left operand;
- `operation`: the pending operator key, or none;
- a mode of `ENTER` or `RESULT`.

A key press runs a fixed list of checks in this order:

1. Clear;
2. Equals;
3. clear a shown result;
4. append a digit;
5. append a point;
6. negate;
7. percent;
8. fold the operand into the running total;
9. set the pending operator.

Only Clear, and Equals with a pending operation, return early. Every other key
falls through all the checks.

The model is split into modules:

- `Calculator`: the handler as a pure reducer. `Step` handles one key and
  returns `Outcome<State>`. `Run` folds `Step` over a key sequence and stops at
  the first error.
- `Keys`: the enum and the two classifiers.
- `Numeric`: the numeric side, kept abstract. The handler computes on
  `Double`, parses with `toDouble`/`toDoubleOrNull` and prints with a locale
  `DecimalFormat`. The model takes all of these as a parameter record
  `Arith<N>` of type `N`, holding the parser, the formatter, the four
  operations and the constants `0.0` and `100.0`. Every property in
  `Properties` holds for every such record, except the one-point properties
  of the display (`StepKeepsOneDot`, `RunKeepsOneDot` and their two helpers).
  Those assume that the formatter never prints two decimal points
  (`FmtHasOneDot`).
- `Decimal`: one concrete record, signed fixed-point decimals counted in
  hundredths. The scenarios in `Scenarios` use it to show actual display
  texts.
- `Properties`: what each key class does, stated per key against `Step`, and
  the invariants every key press keeps.

The handler can throw. On the Equals path with a pending operation, the
display is parsed with the strict `toDouble()`, which throws
`NumberFormatException` on text that is not a number. Parsing is modelled by
one function, `parse`, that returns `None` where `toDouble()` throws, and
`toDoubleOrNull() ?: 0.0` is `ParseOrZero`. A strict parse that fails makes
`Step` return `Err(NumberFormat(text))`.

Three behaviours of the code are modelled as written:

- Clear resets both texts and the mode, but not the pending operation
  (lines 59-64). `ClearKeepsPendingOperation` shows the consequence:
  "5 + C 3 =" still adds.
- "5 + =" does not ignore the Equals. With nothing pending, the operator
  only copies the display into the running total (lines 150-153) and leaves
  "5" on the display. Equals then reads that "5" again as the right operand
  (line 73) and computes 5 + 5. `FivePlusEquals` shows that the result is
  "10".
- An operator followed by Equals on a fresh calculator throws, because the
  display is empty (`OperatorThenEqualsThrows`).

## Model

| member | source | states |
|---|---|---|
| Keys.GetNumber | app/src/main/java/com/kylecorry/calculator/MainActivity.kt:344-358 | a key has a number exactly when it is one of the ten digit keys, and that number is below ten |
| Keys.DigitKeyRoundTrip | app/src/main/java/com/kylecorry/calculator/MainActivity.kt:344-358 | `getNumber` is a bijection between the ten digit keys and the values 0..9: the digit key of `d` reads back as `d`, and every digit key is the digit key of its own number |
| Keys.KeyClassesPartition | app/src/main/java/com/kylecorry/calculator/MainActivity.kt:169-177 | no key is both an operator and a digit; the keys that are neither are exactly Equals, Dot, Negate, Clear and Percent |
| Keys.DigitChar | app/src/main/java/com/kylecorry/calculator/MainActivity.kt:96-98 | the character appended for digit `d` is the decimal digit whose distance from '0' is `d` |
| Numeric.CountDots | app/src/main/java/com/kylecorry/calculator/MainActivity.kt:100-102 | the point count is at most the text's length, and it is zero exactly when the text contains no '.' |
| Numeric.CountDotsConcat | app/src/main/java/com/kylecorry/calculator/MainActivity.kt:96-102 | the point count of appended texts is the sum of their counts |
| Properties.StepClear | app/src/main/java/com/kylecorry/calculator/MainActivity.kt:59-64 | Clear never fails; it empties both texts, sets Enter mode and keeps the pending operation |
| Properties.ClearIdempotent | app/src/main/java/com/kylecorry/calculator/MainActivity.kt:59-64 | a second Clear changes nothing |
| Properties.StepDigit | app/src/main/java/com/kylecorry/calculator/MainActivity.kt:89-98 | a digit is appended in Enter mode and replaces a shown result; the running total and operation are kept and the mode becomes Enter |
| Properties.StepDot | app/src/main/java/com/kylecorry/calculator/MainActivity.kt:91-102 | Dot over a result gives "."; in Enter mode it appends a point only when there is none, and otherwise the state is unchanged |
| Properties.TypingStep | app/src/main/java/com/kylecorry/calculator/MainActivity.kt:91-102 | in Enter mode a typing key appends exactly its character, provided a point only goes into a display without one |
| Properties.TypingAppends | app/src/main/java/com/kylecorry/calculator/MainActivity.kt:91-102 | any sequence of digit and Dot keys typed in Enter mode, with at most one point in all, appends exactly the text those keys spell and changes nothing else |
| Properties.StepNegate | app/src/main/java/com/kylecorry/calculator/MainActivity.kt:104-111 | Negate leaves an empty display alone; otherwise it strips a leading '-' or prepends one and sets Enter mode; the total and operation are kept |
| Properties.NegateTwice | app/src/main/java/com/kylecorry/calculator/MainActivity.kt:104-111 | negating twice restores the display exactly when the display is not "-" and does not start with "--" |
| Properties.ToggleSignKeepsDots | app/src/main/java/com/kylecorry/calculator/MainActivity.kt:106-110 | toggling the sign neither adds nor removes a decimal point |
| Properties.StepOperator | app/src/main/java/com/kylecorry/calculator/MainActivity.kt:137-158 | an operator always becomes the pending operation. Over typed input it folds the operand (alone, or combined with the old operation) into the running total and shows it as a result; otherwise only the operation changes |
| Properties.OnlyOperatorsSetOperation | app/src/main/java/com/kylecorry/calculator/MainActivity.kt:156-158 | from a state with no pending operation, a key leaves one pending exactly when it is an operator |
| Properties.OperatorAgreesWithEquals | app/src/main/java/com/kylecorry/calculator/MainActivity.kt:66-154 | with typed input and an operation pending, Equals succeeds exactly when the display parses strictly, and then an operator key and Equals show the same result and running total: "a + b +" computes what "a + b =" does |
| Properties.OperatorFoldsWhereEqualsThrows | app/src/main/java/com/kylecorry/calculator/MainActivity.kt:66-154 | on typed input that does not parse, Equals throws with that text, while an operator key still folds the pending operation in with `0.0` as the right operand, shows the result as both texts and becomes the pending operation |
| Properties.StepEquals | app/src/main/java/com/kylecorry/calculator/MainActivity.kt:66-86 | Equals fails exactly when an operation is pending and the display does not parse strictly, and the error carries that text. Otherwise it shows the operation's result, or the reformatted display when nothing is pending, as both texts, with nothing pending and in Result mode |
| Properties.StepPercent | app/src/main/java/com/kylecorry/calculator/MainActivity.kt:113-135 | Percent leaves an empty display alone. Otherwise it shows, as both texts, p = display/100, or total*p, total+total*p or total-total*p for a pending Times, Plus or Minus (0 for any other pending key). It drops the operation and sets Result mode |
| Properties.InitialInvariant | app/src/main/java/com/kylecorry/calculator/MainActivity.kt:35-46 | the starting state meets the invariant and its display has no point |
| Properties.StepPreservesInvariant | app/src/main/java/com/kylecorry/calculator/MainActivity.kt:57-160 | every successful key press keeps the invariant: in Result mode the display equals the running total, and a pending operation is an operator |
| Properties.AfterEqualsKeepsInvariant | app/src/main/java/com/kylecorry/calculator/MainActivity.kt:89-158 | the checks that follow Equals keep the invariant |
| Properties.StepKeepsOneDot | app/src/main/java/com/kylecorry/calculator/MainActivity.kt:57-160 | if the formatter never prints two points, no key press puts a second point on the display |
| Properties.AfterEqualsKeepsOneDot | app/src/main/java/com/kylecorry/calculator/MainActivity.kt:89-158 | the checks that follow Equals keep the display to at most one point |
| Properties.PercentAndFoldKeepOneDot | app/src/main/java/com/kylecorry/calculator/MainActivity.kt:113-154 | percent and the operator fold only ever show a formatted number or keep the display, so at most one point stays |
| Properties.RunPreservesInvariant | app/src/main/java/com/kylecorry/calculator/MainActivity.kt:57-160 | for every number system, after any run of keys that does not throw, in Result mode the display still equals the running total and a pending operation is still an operator |
| Properties.RunKeepsOneDot | app/src/main/java/com/kylecorry/calculator/MainActivity.kt:57-160 | if the formatter never prints two points, the display still has at most one point after any run of keys that does not throw |
| Properties.RunConcat | app/src/main/java/com/kylecorry/calculator/MainActivity.kt:57-160 | pressing the keys `a + b` is pressing `a` and then `b` from the state `a` leaves; if `a` throws, the whole sequence throws the same error |
| Decimal.DecimalFmtHasOneDot | app/src/main/java/com/kylecorry/calculator/MainActivity.kt:69-70 | the fixed-point formatter prints at most one point, so the dot invariant's assumption can be met |
| Scenarios.OperatorThenEqualsThrows | app/src/main/java/com/kylecorry/calculator/MainActivity.kt:66-80 | on a fresh calculator, an operator then Equals throws on the empty display |
| Scenarios.ClearKeepsPendingOperation | app/src/main/java/com/kylecorry/calculator/MainActivity.kt:59-80 | "5 + C 3 =" still applies the addition, to a running total that Clear emptied |
| Scenarios.TypingTwelvePointFive | app/src/main/java/com/kylecorry/calculator/MainActivity.kt:89-102 | "1 2 . 5" shows "12.5" in Enter mode with nothing pending |
| Scenarios.FivePlusThree | app/src/main/java/com/kylecorry/calculator/MainActivity.kt:66-80 | "5 + 3 =" shows "8" as a result with nothing pending |
| Scenarios.FivePlusEquals | app/src/main/java/com/kylecorry/calculator/MainActivity.kt:66-158 | "5 + =" shows "10": the operator leaves the typed "5" on the display, so Equals adds it to itself |
| Scenarios.TwentyPercent | app/src/main/java/com/kylecorry/calculator/MainActivity.kt:113-130 | "2 0 %" with nothing pending shows "0.2" |
| Scenarios.FiftyPlusTenPercent | app/src/main/java/com/kylecorry/calculator/MainActivity.kt:113-135 | "5 0 + 1 0 %" shows "55", fifty plus ten percent of fifty |
| Scenarios.DigitAfterResult | app/src/main/java/com/kylecorry/calculator/MainActivity.kt:82-98 | "7 = 3": the digit after a result starts a new display "3" while the running total stays "7" |

## Left out

- The Compose user interface (layout, fonts, button highlighting, the `clearAll` flag passed to the keyboard) is not modelled. It shows state but does not change it.
- The mutable Compose state objects are not modelled. They become an immutable `State` value that `Step` returns, one `Step` per call of the key handler, since each call runs to its end and its later checks see its earlier writes.
- IEEE-754 arithmetic is not modelled: rounding, NaN, infinities, and `-0.0`. The operations are parameters of `Arith`, so no property depends on them.
- Kotlin's `toDouble` grammar is not modelled: exponents, "NaN", "Infinity", leading '+', surrounding whitespace and hex forms. Only "does it parse" matters to the handler, and that is the `parse` parameter.
- `DecimalFormat` is not modelled: locale symbols, digit grouping, and its maximum of three fraction digits. The formatter is a parameter too. The one assumption made about it, at most one '.', is stated as `FmtHasOneDot` and is required only by the one-point lemmas (`StepKeepsOneDot`, `AfterEqualsKeepsOneDot`, `PercentAndFoldKeepOneDot`, `RunKeepsOneDot`).
- Decimal.Div: division by zero gives 0 in the fixed-point instance, where `Double` would give an infinity. The instance also truncates products and quotients to hundredths. It only serves the scenarios, none of which divides by zero.
- Properties.RunKeepsOneDot: like `StepKeepsOneDot` below, holds only for formatters that print at most one point.
- Properties.StepKeepsOneDot: holds only for formatters that print at most one point. A locale that writes '.' as a grouping separator, such as `1.234.567`, breaks it. The source makes no promise either way.
