/** What the calculator's handlers promise over one click and over
    sequences of clicks. */
module CalculatorProperties {
  import opened Numbers
  import opened CalculatorPure
  import opened CalculatorState

  // ---------------------------------------------------------------------
  // The pending-operation invariant

  /** Every handler keeps an operand stored exactly when an operator is. */
  lemma PressPreservesConsistent(s: State, b: Button, conv: Conversions)
    requires Consistent(s)
    ensures Consistent(Press(s, b, conv))
  {
  }

  lemma {:induction false} RunPreservesConsistent(s: State, clicks: seq<Button>, conv: Conversions)
    requires Consistent(s)
    ensures Consistent(Run(s, clicks, conv))
    decreases |clicks|
  {
    if clicks != [] {
      PressPreservesConsistent(s, clicks[0], conv);
      RunPreservesConsistent(Press(s, clicks[0], conv), clicks[1..], conv);
    }
  }

  /** Hence every state reachable from the initial one is consistent. */
  lemma ReachableIsConsistent(clicks: seq<Button>, conv: Conversions)
    ensures Consistent(Run(Initial, clicks, conv))
  {
    RunPreservesConsistent(Initial, clicks, conv);
  }

  /** The buttons as wired: an operator button passes one of the four
      arithmetic symbols. */
  predicate WiredButton(b: Button) {
    b.Operator? ==> b.symbol in ArithmeticOperators
  }

  /** The invariant, strengthened by what the wired buttons store: a
      pending operator is one of the four arithmetic symbols. */
  predicate PendingIsArithmetic(s: State) {
    Consistent(s) && (s.operation.NonNull? ==> s.operation.value in ArithmeticOperators)
  }

  lemma {:induction false} WiredRunKeepsPendingArithmetic(s: State, clicks: seq<Button>, conv: Conversions)
    requires PendingIsArithmetic(s)
    requires forall i :: 0 <= i < |clicks| ==> WiredButton(clicks[i])
    ensures PendingIsArithmetic(Run(s, clicks, conv))
    decreases |clicks|
  {
    if clicks != [] {
      assert WiredButton(clicks[0]);
      WiredRunKeepsPendingArithmetic(Press(s, clicks[0], conv), clicks[1..], conv);
    }
  }

  /** With the wired buttons, a stored operand always comes with a truthy
      operator, so the branch of an operator press that keeps the stored
      operand because the pending operator is falsy never runs: a press
      always computes, and `=` always fires. */
  lemma FalsyOperatorBranchIsDead(clicks: seq<Button>, next: string, conv: Conversions)
    requires forall i :: 0 <= i < |clicks| ==> WiredButton(clicks[i])
    ensures var s := Run(Initial, clicks, conv);
      s.previousValue.NonNull? ==>
        && HasOperation(s)
        && PerformOperation(s, next, conv).previousValue ==
             NonNull(Calculate(OrZero(s.previousValue.value), conv.parseFloat(s.display), s.operation.value))
        && HandleEquals(s, conv).previousValue.Null?
  {
    WiredRunKeepsPendingArithmetic(Initial, clicks, conv);
  }

  // ---------------------------------------------------------------------
  // Idempotent and self-inverse clicks

  /** Pressing `.` twice is pressing it once. */
  lemma InputDecimalIdempotent(s: State)
    ensures InputDecimal(InputDecimal(s)) == InputDecimal(s)
  {
  }

  /** A second `=` right after the first changes nothing. */
  lemma HandleEqualsIdempotent(s: State, conv: Conversions)
    ensures HandleEquals(HandleEquals(s, conv), conv) == HandleEquals(s, conv)
  {
  }

  /** Toggling the sign twice gives the display back, except for "-0"
      (the first toggle yields "0", which the second leaves alone) and a
      display with two leading minus signs (only one is restored). */
  lemma ToggleTwiceRestores(text: string)
    ensures ToggledSign(ToggledSign(text)) == text <==>
      !(text == "-0" || (|text| >= 2 && text[0] == '-' && text[1] == '-'))
  {
    var once := ToggledSign(text);
    if text == "0" {
    } else if StartsWithMinus(text) {
      assert once == text[1..];
      if |text| >= 2 && text[1] == '-' {
        assert |ToggledSign(once)| < |text|;
      } else if once == "0" {
        assert text == "-0";
      } else {
        assert "-" + once == text;
      }
    } else {
      assert once == "-" + text;
      assert once[1..] == text;
    }
  }

  // ---------------------------------------------------------------------
  // Typing digits

  /** The digits typed, with leading zeros suppressed. */
  function StripLeadingZeros(typed: string): (r: string)
    ensures |r| > 0 ==> r[0] != '0'
  {
    if |typed| > 0 && typed[0] == '0' then StripLeadingZeros(typed[1..]) else typed
  }

  /** What a display shows for the digits typed: "0" when only zeros. */
  function Entered(typed: string): string {
    var t := StripLeadingZeros(typed);
    if t == [] then "0" else t
  }

  /** One digit button per character. */
  function Digits(typed: string): (r: seq<Button>)
    ensures |r| == |typed|
  {
    if typed == [] then [] else [Digit([typed[0]])] + Digits(typed[1..])
  }

  lemma {:induction false} StripLeadingZerosSnoc(typed: string, c: char)
    ensures StripLeadingZeros(typed + [c]) ==
      if StripLeadingZeros(typed) == [] then (if c == '0' then [] else [c])
      else StripLeadingZeros(typed) + [c]
    decreases |typed|
  {
    if |typed| > 0 && typed[0] == '0' {
      assert (typed + [c])[1..] == typed[1..] + [c];
      StripLeadingZerosSnoc(typed[1..], c);
    } else if typed == [] {
      assert typed + [c] == [c];
      assert [c][1..] == [];
    }
  }

  /** One more digit on a display showing `Entered(typed)`. */
  lemma EnteredSnoc(typed: string, c: char)
    ensures Entered(typed + [c]) == if Entered(typed) == "0" then [c] else Entered(typed) + [c]
  {
    StripLeadingZerosSnoc(typed, c);
  }

  /** One digit on a display showing `Entered(typed)`. */
  lemma TypeOneDigit(s: State, typed: string, c: char, conv: Conversions)
    requires !s.waitingForOperand && s.display == Entered(typed)
    ensures Press(s, Digit([c]), conv) == s.(display := Entered(typed + [c]))
  {
    EnteredSnoc(typed, c);
  }

  /** Typing further digits on a display that shows digits already typed. */
  lemma {:induction false} TypingExtends(s: State, typed: string, more: string, conv: Conversions)
    requires !s.waitingForOperand && s.display == Entered(typed)
    ensures Run(s, Digits(more), conv) == s.(display := Entered(typed + more))
    decreases |more|
  {
    if more == [] {
      assert typed + more == typed;
    } else {
      var c := more[0];
      var rest := more[1..];
      var next := s.(display := Entered(typed + [c]));
      TypeOneDigit(s, typed, c, conv);
      DigitsTail(more);
      RunStep(s, Digits(more), conv);
      TypingExtends(next, typed + [c], rest, conv);
      assert typed + [c] + rest == typed + more;
    }
  }

  lemma DigitsTail(more: string)
    requires more != []
    ensures Digits(more) == [Digit([more[0]])] + Digits(more[1..])
  {
  }

  lemma RunStep(s: State, clicks: seq<Button>, conv: Conversions)
    requires clicks != []
    ensures Run(s, clicks, conv) == Run(Press(s, clicks[0], conv), clicks[1..], conv)
  {
  }

  /** Clicks compose: running two sequences one after the other is running
      their concatenation. */
  lemma {:induction false} RunAppend(s: State, a: seq<Button>, b: seq<Button>, conv: Conversions)
    ensures Run(s, a + b, conv) == Run(Run(s, a, conv), b, conv)
    decreases |a|
  {
    if a == [] {
      assert a + b == b;
    } else {
      assert (a + b)[0] == a[0] && (a + b)[1..] == a[1..] + b;
      RunAppend(Press(s, a[0], conv), a[1..], b, conv);
    }
  }

  /** After AC, the display shows exactly the digits typed, leading zeros
      suppressed, and nothing else is set. */
  lemma TypingAfterClear(s: State, typed: string, conv: Conversions)
    ensures Run(s, [AllClear] + Digits(typed), conv) == Initial.(display := Entered(typed))
  {
    RunAppend(s, [AllClear], Digits(typed), conv);
    assert Run(s, [AllClear], conv) == Initial;
    assert Initial.display == Entered([]);
    TypingExtends(Initial, [], typed, conv);
    assert [] + typed == typed;
  }

  /** After an operator or `=`, the first digit starts a fresh operand. */
  lemma TypingAfterOperator(s: State, typed: string, conv: Conversions)
    requires s.waitingForOperand && typed != []
    ensures Run(s, Digits(typed), conv) == s.(display := Entered(typed), waitingForOperand := false)
  {
    var c := typed[0];
    var next := Press(s, Digit([c]), conv);
    assert [c] == [] + [c];
    EnteredSnoc([], c);
    assert next.display == Entered([c]);
    assert Digits(typed)[1..] == Digits(typed[1..]);
    TypingExtends(next, [c], typed[1..], conv);
    assert [c] + typed[1..] == typed;
  }

  // ---------------------------------------------------------------------
  // Displays built by the editing buttons

  predicate IsDigit(c: char) { '0' <= c <= '9' }

  /** Digits with at most one decimal point. */
  predicate UnsignedText(text: string) {
    && |text| > 0
    && (forall i :: 0 <= i < |text| ==> IsDigit(text[i]) || text[i] == '.')
    && multiset(text)['.'] <= 1
  }

  /** A decimal literal as the editing buttons build it. */
  predicate NumericText(text: string) {
    UnsignedText(text) || (StartsWithMinus(text) && UnsignedText(text[1..]))
  }

  /** The buttons that edit the display text rather than compute. */
  predicate EditingButton(b: Button) {
    || (b.Digit? && |b.num| == 1 && IsDigit(b.num[0]))
    || b.DecimalPoint? || b.PlusMinus? || b.AllClear?
  }

  lemma AppendKeepsUnsigned(text: string, c: char)
    requires UnsignedText(text)
    requires IsDigit(c) || (c == '.' && '.' !in text)
    ensures UnsignedText(text + [c])
  {
  }

  lemma AppendKeepsNumeric(text: string, c: char)
    requires NumericText(text)
    requires IsDigit(c) || (c == '.' && '.' !in text)
    ensures NumericText(text + [c])
  {
    if UnsignedText(text) {
      AppendKeepsUnsigned(text, c);
    } else {
      assert '.' in text[1..] ==> '.' in text;
      AppendKeepsUnsigned(text[1..], c);
      assert (text + [c])[1..] == text[1..] + [c];
    }
  }

  /** The editing buttons keep a decimal literal a decimal literal; in
      particular they never produce a second decimal point. */
  lemma EditingKeepsNumericText(s: State, b: Button, conv: Conversions)
    requires NumericText(s.display) && EditingButton(b)
    ensures NumericText(Press(s, b, conv).display)
  {
    var d := s.display;
    match b
    case Digit(num) =>
      if !s.waitingForOperand && d != "0" {
        AppendKeepsNumeric(d, num[0]);
        assert d + num == d + [num[0]];
      }
    case DecimalPoint =>
      if s.waitingForOperand {
        assert UnsignedText("0.");
      } else if '.' !in d {
        AppendKeepsNumeric(d, '.');
      }
    case PlusMinus =>
      if d != "0" && !StartsWithMinus(d) {
        assert UnsignedText(d);
        assert ("-" + d)[1..] == d;
      }
    case AllClear =>
      assert UnsignedText("0");
  }

  lemma {:induction false} EditingRunKeepsNumericText(s: State, clicks: seq<Button>, conv: Conversions)
    requires NumericText(s.display)
    requires forall i :: 0 <= i < |clicks| ==> EditingButton(clicks[i])
    ensures NumericText(Run(s, clicks, conv).display)
    decreases |clicks|
  {
    if clicks != [] {
      EditingKeepsNumericText(s, clicks[0], conv);
      EditingRunKeepsNumericText(Press(s, clicks[0], conv), clicks[1..], conv);
    }
  }

  /** From AC, any sequence of digit, `.`, `±` and AC clicks leaves at
      most one decimal point on the display. */
  lemma EditingNeverDoublesDecimalPoint(s: State, clicks: seq<Button>, conv: Conversions)
    requires forall i :: 0 <= i < |clicks| ==> EditingButton(clicks[i])
    ensures multiset(Run(s, [AllClear] + clicks, conv).display)['.'] <= 1
  {
    assert ([AllClear] + clicks)[1..] == clicks;
    assert UnsignedText(Initial.display);
    EditingRunKeepsNumericText(Initial, clicks, conv);
    var d := Run(Initial, clicks, conv).display;
    if !UnsignedText(d) {
      assert d == [d[0]] + d[1..];
      assert multiset(d) == multiset{d[0]} + multiset(d[1..]);
    }
  }

  // ---------------------------------------------------------------------
  // Operators

  /** An operator pressed with an operand and an operator already stored
      recomputes, taking the shown display as the second operand, whether
      or not a digit was typed in between. */
  lemma RepeatedOperatorRecomputes(s: State, first: string, second: string, conv: Conversions)
    requires first != ""
    ensures var once := PerformOperation(s, first, conv);
      var twice := PerformOperation(once, second, conv);
      && once.waitingForOperand
      && twice.previousValue ==
           NonNull(Calculate(OrZero(once.previousValue.value), conv.parseFloat(once.display), first))
  {
  }

  /** The `|| 0` fallback on the stored operand makes an operator press and
      `=` compute the same value, except when the stored operand is NaN. */
  lemma OperatorAndEqualsAgree(s: State, next: string, conv: Conversions)
    requires s.previousValue.NonNull? && HasOperation(s)
    ensures !s.previousValue.value.NaN? ==>
      PerformOperation(s, next, conv).display == HandleEquals(s, conv).display
    ensures s.previousValue.value.NaN? ==>
      && PerformOperation(s, next, conv).display ==
           conv.toString(Calculate(Finite(0.0), conv.parseFloat(s.display), s.operation.value))
      && (s.operation.value in ArithmeticOperators ==> HandleEquals(s, conv).display == conv.toString(NaN))
  {
  }

  // ---------------------------------------------------------------------
  // Worked examples; the conversions are pinned only where they are used.

  /** 3 + 4 = shows 7. */
  lemma ThreePlusFour(conv: Conversions)
    requires conv.parseFloat("3") == Finite(3.0) && conv.parseFloat("4") == Finite(4.0)
    ensures Run(Initial, [Digit("3"), Operator("+"), Digit("4"), EqualsSign], conv).display
      == conv.toString(Finite(7.0))
  {
  }

  /** 5 ÷ 0 = shows Infinity. */
  lemma FiveDividedByZero(conv: Conversions)
    requires conv.parseFloat("5") == Finite(5.0) && conv.parseFloat("0") == Finite(0.0)
    ensures Run(Initial, [Digit("5"), Operator("÷"), Digit("0"), EqualsSign], conv).display
      == conv.toString(PosInfinity)
  {
  }

  /** 9 × 9 × shows 81, and 2 = then shows 162. */
  lemma NineTimesNineTimesTwo(conv: Conversions)
    requires conv.parseFloat("9") == Finite(9.0) && conv.parseFloat("2") == Finite(2.0)
    ensures Run(Initial, [Digit("9"), Operator("×"), Digit("9"), Operator("×")], conv).display
      == conv.toString(Finite(81.0))
    ensures Run(Initial, [Digit("9"), Operator("×"), Digit("9"), Operator("×"), Digit("2"), EqualsSign], conv).display
      == conv.toString(Finite(162.0))
  {
  }

  /** 3 + + shows 6: the repeated `+` adds the shown 3 to the stored 3. */
  lemma ThreePlusPlus(conv: Conversions)
    requires conv.parseFloat("3") == Finite(3.0)
    ensures var s := Run(Initial, [Digit("3"), Operator("+"), Operator("+")], conv);
      s.display == conv.toString(Finite(6.0)) && s.previousValue == NonNull(Finite(6.0))
  {
  }

  /** 50 % shows 0.5. */
  lemma FiftyPercent(s: State, conv: Conversions)
    requires s.display == "50" && conv.parseFloat("50") == Finite(50.0)
    ensures Percentage(s, conv).display == conv.toString(Finite(0.5))
  {
  }
}
