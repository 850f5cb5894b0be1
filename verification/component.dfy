/** The `Calculator` component: its four state fields and the click
    handlers that overwrite them. Each handler reads the fields as they
    were before the click and then assigns the new values, as the
    component's setters do; each is proved to make exactly the transition
    that `CalculatorState` defines. */
module CalculatorComponent {
  import opened Numbers
  import opened CalculatorPure
  import opened CalculatorState

  class Calculator {
    var display: string
    var previousValue: Nullable<Num>
    var operation: Nullable<string>
    var waitingForOperand: bool
    /** The host's parseFloat / String / toExponential. */
    const conv: Conversions

    /** The four fields as one value. */
    function View(): State
      reads this
    {
      State(display, previousValue, operation, waitingForOperand)
    }

    /** The pending-operation invariant. */
    ghost predicate Valid()
      reads this
    {
      Consistent(View())
    }

    /** Mounting the component. */
    constructor (conv: Conversions)
      ensures View() == Initial && Valid()
      ensures this.conv == conv
    {
      display := "0";
      previousValue := Null;
      operation := Null;
      waitingForOperand := false;
      this.conv := conv;
    }

    /** A digit button. */
    method InputNumber(num: string)
      modifies this
      ensures View() == CalculatorState.InputNumber(old(View()), num)
      ensures previousValue == old(previousValue) && operation == old(operation)
      ensures old(Valid()) ==> Valid()
    {
      if waitingForOperand {
        display := num;
        waitingForOperand := false;
      } else {
        display := if display == "0" then num else display + num;
      }
    }

    /** The `.` button. */
    method InputDecimal()
      modifies this
      ensures View() == CalculatorState.InputDecimal(old(View()))
      ensures '.' in display && !waitingForOperand
      ensures old(Valid()) ==> Valid()
    {
      if waitingForOperand {
        display := "0.";
        waitingForOperand := false;
      } else if '.' !in display {
        display := display + ".";
      }
    }

    /** The AC button: back to the state on mount, from any state. */
    method Clear()
      modifies this
      ensures View() == Initial && Valid()
    {
      display := "0";
      previousValue := Null;
      operation := Null;
      waitingForOperand := false;
    }

    /** An operator button. */
    method PerformOperation(nextOperation: string)
      modifies this
      ensures View() == CalculatorState.PerformOperation(old(View()), nextOperation, conv)
      ensures waitingForOperand && operation == NonNull(nextOperation) && previousValue.NonNull?
      ensures Valid()
    {
      var inputValue := conv.parseFloat(display);
      if previousValue.Null? {
        previousValue := NonNull(inputValue);
      } else if operation.NonNull? && operation.value != "" {
        var currentValue := OrZero(previousValue.value);
        var newValue := Calculate(currentValue, inputValue, operation.value);
        display := conv.toString(newValue);
        previousValue := NonNull(newValue);
      }
      waitingForOperand := true;
      operation := NonNull(nextOperation);
    }

    /** The `=` button. */
    method HandleEquals()
      modifies this
      ensures View() == CalculatorState.HandleEquals(old(View()), conv)
      ensures old(previousValue).Null? || !HasOperation(old(View())) ==> View() == old(View())
      ensures old(Valid()) ==> Valid()
    {
      var inputValue := conv.parseFloat(display);
      if previousValue.NonNull? && operation.NonNull? && operation.value != "" {
        var newValue := Calculate(previousValue.value, inputValue, operation.value);
        display := conv.toString(newValue);
        previousValue := Null;
        operation := Null;
        waitingForOperand := true;
      }
    }

    /** The `±` button. */
    method ToggleSign()
      modifies this
      ensures View() == CalculatorState.ToggleSign(old(View()))
      ensures old(display) == "0" ==> View() == old(View())
      ensures old(Valid()) ==> Valid()
    {
      if display != "0" {
        display := if |display| > 0 && display[0] == '-' then display[1..] else "-" + display;
      }
    }

    /** The `%` button. */
    method Percentage()
      modifies this
      ensures View() == CalculatorState.Percentage(old(View()), conv)
      ensures old(Valid()) ==> Valid()
    {
      var value := Div(conv.parseFloat(display), Finite(100.0));
      display := conv.toString(value);
    }
  }

  /** Clicking 9 × 9 × 2 = on a freshly mounted calculator: the second ×
      shows 81 and = shows 162, from the handlers' contracts alone. */
  method ClickNineTimesNineTimesTwo(conv: Conversions) returns (afterSecondTimes: string, afterEquals: string)
    requires conv.parseFloat("9") == Finite(9.0) && conv.parseFloat("2") == Finite(2.0)
    ensures afterSecondTimes == conv.toString(Finite(81.0))
    ensures afterEquals == conv.toString(Finite(162.0))
  {
    var calculator := new Calculator(conv);
    calculator.InputNumber("9");
    calculator.PerformOperation("×");
    calculator.InputNumber("9");
    calculator.PerformOperation("×");
    afterSecondTimes := calculator.display;
    calculator.InputNumber("2");
    calculator.HandleEquals();
    afterEquals := calculator.display;
  }
}
