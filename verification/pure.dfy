/** The two pure helpers of the calculator component: the operator
    dispatch `calculate` and the render-time `formatDisplay`. */
module CalculatorPure {
  import opened Numbers

  /** The host's number/text conversions, which the model leaves abstract:
      `parseFloat(text)`, `String(number)` and `number.toExponential(3)`. */
  datatype Conversions = Conversions(
    parseFloat: string -> Num,
    toString: Num -> string,
    toExponential3: Num -> string)

  /** The operator symbols that `calculate` gives an arithmetic meaning to. */
  const ArithmeticOperators: set<string> := {"+", "-", "×", "÷"}

  /** `calculate(firstValue, secondValue, operation)`: the four arithmetic
      operators, and the second operand for `=` and for every other symbol. */
  function Calculate(firstValue: Num, secondValue: Num, operation: string): (r: Num)
    ensures operation !in ArithmeticOperators ==> r == secondValue
    ensures firstValue.Finite? && secondValue.Finite? ==>
      var x, y := firstValue.value, secondValue.value;
      && (operation == "+" ==> r == Finite(x + y))
      && (operation == "-" ==> r == Finite(x - y))
      && (operation == "×" ==> r == Finite(x * y))
      && (operation == "÷" && y != 0.0 ==> r == Finite(x / y))
    ensures operation == "÷" && IsZero(secondValue) && firstValue.Finite? ==>
      r == (if IsZero(firstValue) then NaN else Infinity(IsPositive(firstValue)))
    ensures operation in ArithmeticOperators && (firstValue.NaN? || secondValue.NaN?) ==> r.NaN?
  {
    match operation
    case "+" => Add(firstValue, secondValue)
    case "-" => Sub(firstValue, secondValue)
    case "×" => Mul(firstValue, secondValue)
    case "÷" => Div(firstValue, secondValue)
    case "=" => secondValue
    case _ => secondValue
  }

  /** `formatDisplay(value)`: texts longer than nine characters are rendered
      in exponential notation with three fraction digits. */
  function FormatDisplay(value: string, conv: Conversions): (r: string)
    ensures |value| <= 9 ==> r == value
  {
    if |value| > 9 then conv.toExponential3(conv.parseFloat(value)) else value
  }
}
