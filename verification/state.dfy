/** The calculator's four state fields as one value, and each button
    handler as a function from the state before the click to the state
    after it. Every handler reads only the state before the click, so a
    click is one atomic transition. */
module CalculatorState {
  import opened Numbers
  import opened CalculatorPure

  /** A field that may hold `null`. */
  datatype Nullable<T> = Null | NonNull(value: T)

  datatype State = State(
    display: string,
    previousValue: Nullable<Num>,
    operation: Nullable<string>,
    waitingForOperand: bool)

  /** The state on mount and after AC. */
  const Initial: State := State("0", Null, Null, false)

  /** The pending-operation invariant: an operand is stored exactly when an
      operator is. */
  predicate Consistent(s: State) {
    s.previousValue.Null? <==> s.operation.Null?
  }

  /** JavaScript truthiness of the `operation` field: set and not empty. */
  predicate HasOperation(s: State) {
    s.operation.NonNull? && s.operation.value != ""
  }

  predicate StartsWithMinus(text: string) {
    |text| > 0 && text[0] == '-'
  }

  /** `inputNumber(num)` */
  function InputNumber(s: State, num: string): (r: State)
    ensures r.previousValue == s.previousValue && r.operation == s.operation
    ensures !r.waitingForOperand
    ensures s.waitingForOperand ==> r.display == num
    ensures !s.waitingForOperand && s.display == "0" ==> r.display == num
    ensures !s.waitingForOperand && s.display != "0" ==> r.display == s.display + num
  {
    if s.waitingForOperand then
      s.(display := num, waitingForOperand := false)
    else
      s.(display := if s.display == "0" then num else s.display + num)
  }

  /** `inputDecimal()` */
  function InputDecimal(s: State): (r: State)
    ensures r.previousValue == s.previousValue && r.operation == s.operation
    ensures !r.waitingForOperand
    ensures '.' in r.display
    ensures s.waitingForOperand ==> r.display == "0."
    ensures !s.waitingForOperand && '.' in s.display ==> r.display == s.display
    ensures !s.waitingForOperand && '.' !in s.display ==> r.display == s.display + "."
    ensures multiset(s.display)['.'] <= 1 ==> multiset(r.display)['.'] == 1
  {
    if s.waitingForOperand then
      s.(display := "0.", waitingForOperand := false)
    else if '.' !in s.display then
      s.(display := s.display + ".")
    else
      s
  }

  /** The display text after `toggleSign()`. */
  function ToggledSign(text: string): (r: string)
    ensures text == "0" ==> r == text
    ensures text != "0" && StartsWithMinus(text) ==> "-" + r == text
    ensures text != "0" && !StartsWithMinus(text) ==> r == "-" + text
  {
    if text == "0" then text
    else if StartsWithMinus(text) then text[1..]
    else "-" + text
  }

  /** `toggleSign()` */
  function ToggleSign(s: State): (r: State)
    ensures r.previousValue == s.previousValue && r.operation == s.operation
    ensures r.waitingForOperand == s.waitingForOperand
    ensures r.display == ToggledSign(s.display)
  {
    s.(display := ToggledSign(s.display))
  }

  /** `percentage()` */
  function Percentage(s: State, conv: Conversions): (r: State)
    ensures r.previousValue == s.previousValue && r.operation == s.operation
    ensures r.waitingForOperand == s.waitingForOperand
    ensures conv.parseFloat(s.display).Finite? ==>
      r.display == conv.toString(Finite(conv.parseFloat(s.display).value / 100.0))
    ensures conv.parseFloat(s.display).NaN? ==> r.display == conv.toString(NaN)
  {
    s.(display := conv.toString(Div(conv.parseFloat(s.display), Finite(100.0))))
  }

  /** `performOperation(nextOperation)` */
  function PerformOperation(s: State, nextOperation: string, conv: Conversions): (r: State)
    ensures r.waitingForOperand && r.operation == NonNull(nextOperation)
    ensures Consistent(r)
    ensures s.previousValue.Null? ==>
      r.display == s.display && r.previousValue == NonNull(conv.parseFloat(s.display))
    ensures s.previousValue.NonNull? && !HasOperation(s) ==>
      r.display == s.display && r.previousValue == s.previousValue
    ensures s.previousValue.NonNull? && HasOperation(s) ==>
      var v := Calculate(OrZero(s.previousValue.value), conv.parseFloat(s.display), s.operation.value);
      r.display == conv.toString(v) && r.previousValue == NonNull(v)
  {
    var inputValue := conv.parseFloat(s.display);
    var settled :=
      if s.previousValue.Null? then
        s.(previousValue := NonNull(inputValue))
      else if HasOperation(s) then
        var newValue := Calculate(OrZero(s.previousValue.value), inputValue, s.operation.value);
        s.(display := conv.toString(newValue), previousValue := NonNull(newValue))
      else
        s;
    settled.(waitingForOperand := true, operation := NonNull(nextOperation))
  }

  /** `handleEquals()` */
  function HandleEquals(s: State, conv: Conversions): (r: State)
    ensures !(s.previousValue.NonNull? && HasOperation(s)) ==> r == s
    ensures s.previousValue.NonNull? && HasOperation(s) ==>
      && r.display == conv.toString(Calculate(s.previousValue.value, conv.parseFloat(s.display), s.operation.value))
      && r.previousValue.Null? && r.operation.Null? && r.waitingForOperand
    ensures Consistent(s) ==> Consistent(r)
  {
    var inputValue := conv.parseFloat(s.display);
    if s.previousValue.NonNull? && HasOperation(s) then
      var newValue := Calculate(s.previousValue.value, inputValue, s.operation.value);
      State(conv.toString(newValue), Null, Null, true)
    else
      s
  }

  /** The calculator's buttons, each bound to one handler. */
  datatype Button =
    | Digit(num: string)
    | DecimalPoint
    | AllClear
    | Operator(symbol: string)
    | EqualsSign
    | PlusMinus
    | Percent

  /** One click: each button calls its handler. The buttons pass the
      digits '0' to '9' and the operators '÷', '×', '-' and '+'; the model
      accepts any text for both. */
  function Press(s: State, b: Button, conv: Conversions): (r: State)
    ensures b.AllClear? ==> r == Initial
    ensures b.Digit? || b.DecimalPoint? || b.PlusMinus? || b.Percent? ==>
      r.previousValue == s.previousValue && r.operation == s.operation
    ensures b.Operator? ==> r.waitingForOperand && r.operation == NonNull(b.symbol)
  {
    match b
    case Digit(num) => InputNumber(s, num)
    case DecimalPoint => InputDecimal(s)
    case AllClear => Initial
    case Operator(symbol) => PerformOperation(s, symbol, conv)
    case EqualsSign => HandleEquals(s, conv)
    case PlusMinus => ToggleSign(s)
    case Percent => Percentage(s, conv)
  }

  /** A sequence of clicks, first to last. */
  function Run(s: State, clicks: seq<Button>, conv: Conversions): State
    decreases |clicks|
  {
    if clicks == [] then s else Run(Press(s, clicks[0], conv), clicks[1..], conv)
  }
}
