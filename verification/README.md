# Calculator component, modelled in Dafny

This project models the `Calculator` web component of `new-web-app-room`. It is a pocket calculator with a display, digit buttons, `.`, `±`, `%`, `AC`, the four operators and `=`. Its state has four fields: the `display` text, the stored `previousValue` (a number or null), the pending `operation` (a symbol or null) and the `waitingForOperand` flag. Every button handler reads the fields as they were before the click and writes new values, so each click is one atomic transition.

Layout:

- `numbers.dfy` (module `Numbers`): the JavaScript numbers the component computes with. `Num` is a real value, `PosInfinity`, `NegInfinity` or `NaN`. `Add`, `Sub`, `Mul` and `Div` give the results of `+ - * /` on such values. `OrZero` is the `x || 0` fallback.
- `pure.dfy` (module `CalculatorPure`): `Calculate`, the operator dispatch, and `FormatDisplay`, the render-time formatting. `Conversions` holds the host's `parseFloat`, `String(number)` and `toExponential(3)` as function values. The model does not define them.
- `state.dfy` (module `CalculatorState`): the four fields as a `State` value, the `Initial` state, and each handler as a function from the state before a click to the state after it. `Press` applies one `Button`; `Run` applies a sequence of clicks.
- `properties.dfy` (module `CalculatorProperties`): lemmas about single clicks and click sequences. They cover the pending-operation invariant, idempotent and self-inverse clicks, what typing digits shows, the one-decimal-point invariant of the editing buttons, the repeated-operator behaviour and worked examples.
- `component.dfy` (module `CalculatorComponent`): the class `Calculator`, with the four fields and one method per handler. Each method assigns the fields as the handler's setters do. Its contract ties the new field values to the transition in `CalculatorState`, and says that the pending-operation invariant `Valid()` is kept.

Where the code matters more than a description of it:

- Pressing an operator while an operand and an operator are already stored always recomputes. This includes a second operator press with no digit in between: the shown display becomes the second operand, so `3 + +` shows 6 (page.tsx:39-47). The model follows the code, not the looser reading that a second operator only replaces the pending one.
- The subtraction symbol that the buttons pass and that `calculate` matches is the ASCII `-` (page.tsx:57, page.tsx:188). It is not the typographic minus.
- `x || 0` guards the stored operand only in `performOperation` (page.tsx:42); `handleEquals` uses it directly (page.tsx:74). The two can therefore differ only when the stored operand is NaN (`OperatorAndEqualsAgree`). With the buttons as wired, a stored operand always comes with one of the four arithmetic operators, so the operator press's branch for an empty operator never runs (`FalsyOperatorBranchIsDead`).
- Toggling the sign twice restores the display unless the display is `"-0"` or begins with two minus signs (`ToggleTwiceRestores`). Both directions of this are proved.

## Model

| member | source | states |
|---|---|---|
| `Numbers.Add` | packages/new-web-app-room/src/app/page.tsx:55-56 | On finite operands the result is the real sum. It is NaN exactly when an operand is NaN or the operands are opposite infinities, and infinite exactly when not NaN and some operand is infinite |
| `Numbers.Sub` | packages/new-web-app-room/src/app/page.tsx:57-58 | On finite operands the result is the real difference. It is NaN exactly when an operand is NaN or both are the same infinity |
| `Numbers.Mul` | packages/new-web-app-room/src/app/page.tsx:59-60 | On finite operands the result is the real product. It is NaN exactly when an operand is NaN or an infinity meets a zero |
| `Numbers.Div` | packages/new-web-app-room/src/app/page.tsx:61-62 | On finite operands with a non-zero divisor the result is the real quotient. Division by zero gives NaN for 0 or NaN, and otherwise the infinity with the dividend's sign. A finite number divided by an infinity gives 0. 0/0 and ∞/∞ are NaN |
| `Numbers.OrZero` | packages/new-web-app-room/src/app/page.tsx:42 | The zero fallback `x or 0` of JavaScript is `x` for every non-NaN `x` (0 included), and 0 for NaN |
| `CalculatorPure.Calculate` | packages/new-web-app-room/src/app/page.tsx:53-68 | For finite operands, `+ - × ÷` mean real addition, subtraction, multiplication and division (nonzero divisor). `÷` by zero gives NaN or a signed infinity. Any NaN operand makes an arithmetic operator's result NaN. `=` and every other symbol return the second operand |
| `CalculatorPure.FormatDisplay` | packages/new-web-app-room/src/app/page.tsx:93-98 | A display of at most nine characters is rendered unchanged |
| `CalculatorState.InputNumber` | packages/new-web-app-room/src/app/page.tsx:11-18 | When waiting, the display becomes exactly the digit and waiting is cleared. Otherwise `"0"` is replaced by the digit and any other display has the digit appended. The stored operand and operator never change |
| `CalculatorState.InputDecimal` | packages/new-web-app-room/src/app/page.tsx:20-27 | When waiting, the display becomes `"0."` and waiting is cleared. Otherwise `.` is appended only if absent. The display always ends up holding a `.`, and exactly one if it held at most one. The stored operand and operator never change |
| `CalculatorState.ToggledSign` | packages/new-web-app-room/src/app/page.tsx:83-84 | `"0"` is left alone. Any other text loses its leading `-` if it has one, and gains one otherwise |
| `CalculatorState.ToggleSign` | packages/new-web-app-room/src/app/page.tsx:82-86 | Only the display changes, and it becomes the sign-toggled text |
| `CalculatorState.Percentage` | packages/new-web-app-room/src/app/page.tsx:88-91 | Only the display changes. A finite parsed display `x` is replaced by the text of `x/100`, and NaN by the text of NaN |
| `CalculatorState.PerformOperation` | packages/new-web-app-room/src/app/page.tsx:36-51 | Always ends waiting with the new operator pending and the invariant holding. With no stored operand, it stores the parsed display and leaves the display alone. With a stored operand and a truthy pending operator, display and stored operand both become `calculate` of the stored operand under the zero fallback (`OrZero`), the parsed display and the operator. With a stored operand and an empty operator, both stay |
| `CalculatorState.HandleEquals` | packages/new-web-app-room/src/app/page.tsx:70-80 | A no-op unless an operand and a truthy operator are stored. Otherwise the display shows `calculate(stored, parsed display, operator)`, both fields are cleared and waiting is set. It keeps the invariant |
| `CalculatorState.Press` | packages/new-web-app-room/src/app/page.tsx:29-34 | One click runs the button's handler, as the button grid wires them (page.tsx:114-238). AC gives exactly the state on mount, from any state. Digit, `.`, `±` and `%` leave the stored operand and operator alone. An operator button ends waiting with its symbol pending. The buttons pass only `'0'`-`'9'` and `÷ × - +`, but `Digit` and `Operator` accept any text |
| `CalculatorProperties.PressPreservesConsistent` | packages/new-web-app-room/src/app/page.tsx:11-91 | Every button keeps "operand stored iff operator stored" |
| `CalculatorProperties.RunPreservesConsistent` | packages/new-web-app-room/src/app/page.tsx:11-91 | Any sequence of clicks keeps the invariant |
| `CalculatorProperties.ReachableIsConsistent` | packages/new-web-app-room/src/app/page.tsx:6-9 | The invariant holds in every state reachable from the initial one |
| `CalculatorProperties.WiredRunKeepsPendingArithmetic` | packages/new-web-app-room/src/app/page.tsx:36-51 | Over clicks whose operator buttons pass only `÷ × - +`, the invariant holds, and a pending operator stays one of those four symbols |
| `CalculatorProperties.FalsyOperatorBranchIsDead` | packages/new-web-app-room/src/app/page.tsx:39-47 | In every state reached from mount with the wired buttons, a stored operand comes with a truthy operator. So an operator press always recomputes the stored operand, the branch at page.tsx:41 is always taken when one is stored, and `=` always fires |
| `CalculatorProperties.InputDecimalIdempotent` | packages/new-web-app-room/src/app/page.tsx:20-27 | Two `.` presses in a row give the same state as one |
| `CalculatorProperties.HandleEqualsIdempotent` | packages/new-web-app-room/src/app/page.tsx:70-80 | A second `=` straight after the first changes nothing |
| `CalculatorProperties.ToggleTwiceRestores` | packages/new-web-app-room/src/app/page.tsx:82-86 | Two `±` presses restore the display if and only if it is neither `"-0"` nor starts with `--` |
| `CalculatorProperties.StripLeadingZerosSnoc` | packages/new-web-app-room/src/app/page.tsx:16 | Suppressing leading zeros commutes with typing one more digit, except that a digit on an all-zero entry starts the number afresh |
| `CalculatorProperties.TypingExtends` | packages/new-web-app-room/src/app/page.tsx:11-18 | Typing digits on a display that shows earlier digits, leading zeros suppressed, shows all of them with leading zeros suppressed. Nothing else changes |
| `CalculatorProperties.TypingAfterClear` | packages/new-web-app-room/src/app/page.tsx:29-34 | After AC from any state, typed digits show exactly as typed, leading zeros suppressed (`"0"` if none). Everything else is as on mount |
| `CalculatorProperties.TypingAfterOperator` | packages/new-web-app-room/src/app/page.tsx:12-14 | While waiting, a non-empty run of digits replaces the display with those digits, leading zeros suppressed, and clears waiting. Nothing else changes |
| `CalculatorProperties.EditingKeepsNumericText` | packages/new-web-app-room/src/app/page.tsx:20-27 | Digit, `.`, `±` and AC keep the display an optionally signed run of digits with at most one `.` |
| `CalculatorProperties.EditingRunKeepsNumericText` | packages/new-web-app-room/src/app/page.tsx:20-27 | The same over any sequence of those buttons |
| `CalculatorProperties.EditingNeverDoublesDecimalPoint` | packages/new-web-app-room/src/app/page.tsx:24-25 | After AC and any editing clicks, the display holds at most one `.` |
| `CalculatorProperties.RepeatedOperatorRecomputes` | packages/new-web-app-room/src/app/page.tsx:39-47 | A second operator press right after the first recomputes, using the shown display as the second operand |
| `CalculatorProperties.OperatorAndEqualsAgree` | packages/new-web-app-room/src/app/page.tsx:41-43 | An operator press and `=` show the same value whenever the stored operand is not NaN. So they can differ only when it is NaN. In that case the operator press computes from 0, and `=` shows NaN for an arithmetic operator |
| `CalculatorProperties.ThreePlusFour` | packages/new-web-app-room/src/app/page.tsx:36-80 | `3 + 4 =` shows 7 |
| `CalculatorProperties.FiveDividedByZero` | packages/new-web-app-room/src/app/page.tsx:61-62 | `5 ÷ 0 =` shows Infinity |
| `CalculatorProperties.NineTimesNineTimesTwo` | packages/new-web-app-room/src/app/page.tsx:36-80 | `9 × 9 ×` shows 81, and `2 =` then shows 162 |
| `CalculatorProperties.ThreePlusPlus` | packages/new-web-app-room/src/app/page.tsx:39-47 | `3 + +` shows and stores 6 |
| `CalculatorProperties.FiftyPercent` | packages/new-web-app-room/src/app/page.tsx:88-91 | `%` on `"50"` shows 0.5 |
| `CalculatorComponent.Calculator.constructor` | packages/new-web-app-room/src/app/page.tsx:6-9 | Mounting gives display `"0"`, nothing stored, nothing pending, not waiting. The invariant holds |
| `CalculatorComponent.Calculator.InputNumber` | packages/new-web-app-room/src/app/page.tsx:11-18 | Makes the `InputNumber` transition. Stored operand and operator are unchanged, and the invariant is kept |
| `CalculatorComponent.Calculator.InputDecimal` | packages/new-web-app-room/src/app/page.tsx:20-27 | Makes the `InputDecimal` transition. The display then holds a `.` and the flag is clear. The invariant is kept |
| `CalculatorComponent.Calculator.Clear` | packages/new-web-app-room/src/app/page.tsx:29-34 | Restores exactly the state on mount, from any state |
| `CalculatorComponent.Calculator.PerformOperation` | packages/new-web-app-room/src/app/page.tsx:36-51 | Makes the `PerformOperation` transition. It ends waiting, with the operator pending and an operand stored, so the invariant holds afterwards |
| `CalculatorComponent.Calculator.HandleEquals` | packages/new-web-app-room/src/app/page.tsx:70-80 | Makes the `HandleEquals` transition. It changes nothing unless an operand and a truthy operator are stored, and keeps the invariant |
| `CalculatorComponent.Calculator.ToggleSign` | packages/new-web-app-room/src/app/page.tsx:82-86 | Makes the `ToggleSign` transition. It changes nothing on `"0"` and keeps the invariant |
| `CalculatorComponent.Calculator.Percentage` | packages/new-web-app-room/src/app/page.tsx:88-91 | Makes the `Percentage` transition and keeps the invariant |
| `CalculatorComponent.ClickNineTimesNineTimesTwo` | packages/new-web-app-room/src/app/page.tsx:36-80 | On a freshly mounted component, from the methods' contracts alone: `9 × 9 ×` shows 81 and `2 =` shows 162 |

## Left out

- Floating-point rounding and the sign of zero. Numbers are exact reals plus ±Infinity and NaN. `-0` is not distinguished from `0`, and a zero divisor counts as `+0`.
- `parseFloat`, `String(number)` and `toExponential(3)` are not defined. They are the function values in `Conversions`, supplied when the component is mounted. Facts that depend on them (for example that `"3"` parses to 3) appear as hypotheses of the lemmas that need them.
- `CalculatorPure.FormatDisplay`: only the pass-through of displays of at most nine characters is stated. The exponential rendering of longer text depends on `toExponential(3)`, which is left abstract. Length is counted in Unicode characters rather than UTF-16 code units. The two agree on every display the buttons can build.
- `CalculatorState.Percentage`: its contract states the result for a finite or NaN parsed display. For an infinite one it states only that the other fields are unchanged.
- The rendered button grid, its styling and the highlighting of the pending operator (page.tsx:100-246) are presentation only. The mapping from each button to its handler is `Press`. `Header.tsx` is static markup and is not part of this model.
- React's state scheduling and re-render batching. Each handler is one atomic transition on the state before the click.
