/**
 * Day 7: calibration equations. Each line has a target and operands; it is valid when inserting
 * +, * or decimal concatenation between the operands, evaluated strictly left to right, can
 * reach the target. The answer sums the targets of the valid lines.
 * Each line is given already parsed into its target and operands.
 */
module Day07 {

  // ---------------------------------------------------------------------------------------
  // Decimal text, for the concatenation operator
  // ---------------------------------------------------------------------------------------

  function Pow10(n: nat): (r: nat)
    ensures r >= 1
  {
    if n == 0 then 1 else 10 * Pow10(n - 1)
  }

  /** The number of decimal digits of n, as `%d` prints it: 0 has one digit. */
  function Digits(n: nat): (r: nat)
    ensures r >= 1
    ensures n < Pow10(r)
    ensures n >= 10 ==> Pow10(r - 1) <= n
  {
    if n < 10 then 1 else 1 + Digits(n / 10)
  }

  function DigitChar(d: nat): char
    requires d < 10
  {
    "0123456789"[d]
  }

  /** `%d` of a non-negative number: its decimal digits without leading zeros. */
  function Decimal(n: nat): (s: seq<char>)
    ensures |s| == Digits(n)
    ensures forall i :: 0 <= i < |s| ==> '0' <= s[i] <= '9'
  {
    if n < 10 then [DigitChar(n)] else Decimal(n / 10) + [DigitChar(n % 10)]
  }

  /** strconv.Atoi of a string of decimal digits. */
  function Value(s: seq<char>): nat
    requires forall i :: 0 <= i < |s| ==> '0' <= s[i] <= '9'
  {
    if s == [] then 0 else 10 * Value(s[..|s| - 1]) + (s[|s| - 1] - '0') as nat
  }

  lemma DigitCharValue(d: nat)
    requires d < 10
    ensures (DigitChar(d) - '0') as nat == d
  {
  }

  /** Reading back what `%d` printed gives the number. */
  lemma {:induction false} ValueOfDecimal(n: nat)
    ensures Value(Decimal(n)) == n
  {
    var s := Decimal(n);
    if n < 10 {
      DigitCharValue(n);
    } else {
      ValueOfDecimal(n / 10);
      DigitCharValue(n % 10);
      assert s[..|s| - 1] == Decimal(n / 10);
    }
  }

  /** The value of two digit strings written one after the other. */
  lemma {:induction false} ValueOfAppend(s: seq<char>, t: seq<char>)
    requires forall i :: 0 <= i < |s| ==> '0' <= s[i] <= '9'
    requires forall i :: 0 <= i < |t| ==> '0' <= t[i] <= '9'
    ensures Value(s + t) == Value(s) * Pow10(|t|) + Value(t)
    decreases |t|
  {
    if t == [] {
      assert s + t == s;
    } else {
      var t' := t[..|t| - 1];
      var d := (t[|t| - 1] - '0') as nat;
      assert (s + t)[..|s + t| - 1] == s + t';
      assert (s + t)[|s + t| - 1] == t[|t| - 1];
      ValueOfAppend(s, t');
      assert Value(s + t) == 10 * Value(s + t') + d;
      assert Value(t) == 10 * Value(t') + d;
      ShiftDigit(Value(s), Pow10(|t'|), Value(t'), d);
    }
  }

  lemma ShiftDigit(v: int, p: int, w: int, d: int)
    ensures 10 * (v * p + w) + d == v * (10 * p) + (10 * w + d)
  {
  }

  /**
   * The concatenation operator: Atoi(Sprintf("%d%d", a, b)). A negative b puts a '-' in the
   * middle of the text, so Atoi fails and its ignored result is 0.
   */
  function Concat(a: int, b: int): int
  {
    if b < 0 then 0
    else if a >= 0 then a * Pow10(Digits(b)) + b
    else -((-a) * Pow10(Digits(b)) + b)
  }

  /** For non-negative values, Concat is the number whose text is the two texts written together. */
  lemma ConcatIsTextual(a: nat, b: nat)
    ensures Concat(a, b) == Value(Decimal(a) + Decimal(b))
  {
    ValueOfAppend(Decimal(a), Decimal(b));
    ValueOfDecimal(a);
    ValueOfDecimal(b);
  }

  // ---------------------------------------------------------------------------------------
  // The operator search
  // ---------------------------------------------------------------------------------------

  datatype Op = Add | Mul | Cat

  function Apply(op: Op, a: int, b: int): int
  {
    match op
    case Add => a + b
    case Mul => a * b
    case Cat => Concat(a, b)
  }

  /** Left-to-right evaluation: start from acc and combine it with each operand in turn. */
  function Eval(acc: int, operands: seq<int>, ops: seq<Op>): int
    requires |ops| == |operands|
    decreases |operands|
  {
    if operands == [] then acc else Eval(Apply(ops[0], acc, operands[0]), operands[1..], ops[1..])
  }

  /** searchValidEquation: try +, then *, then concatenation for the operand at idx. */
  function Search(target: int, operands: seq<int>, current: int, idx: nat): bool
    requires idx <= |operands|
    decreases |operands| - idx
  {
    if idx == |operands| then target == current
    else
      Search(target, operands, current + operands[idx], idx + 1) ||
      Search(target, operands, current * operands[idx], idx + 1) ||
      Search(target, operands, Concat(current, operands[idx]), idx + 1)
  }

  /** The search succeeds exactly when some choice of operators for operands[idx..] reaches target. */
  lemma SearchMeans(target: int, operands: seq<int>, current: int, idx: nat)
    requires idx <= |operands|
    ensures Search(target, operands, current, idx)
        <==> exists ops :: |ops| == |operands| - idx && Eval(current, operands[idx..], ops) == target
  {
    if Search(target, operands, current, idx) {
      var ops := SearchWitness(target, operands, current, idx);
    }
    if exists ops :: |ops| == |operands| - idx && Eval(current, operands[idx..], ops) == target {
      var ops :| |ops| == |operands| - idx && Eval(current, operands[idx..], ops) == target;
      WitnessSearch(target, operands, current, idx, ops);
    }
  }

  /** A successful search names the operators that reach the target. */
  lemma {:induction false} SearchWitness(target: int, operands: seq<int>, current: int, idx: nat) returns (ops: seq<Op>)
    requires idx <= |operands| && Search(target, operands, current, idx)
    ensures |ops| == |operands| - idx && Eval(current, operands[idx..], ops) == target
    decreases |operands| - idx
  {
    if idx == |operands| {
      ops := [];
    } else {
      var op := if Search(target, operands, current + operands[idx], idx + 1) then Add
        else if Search(target, operands, current * operands[idx], idx + 1) then Mul
        else Cat;
      var rest := SearchWitness(target, operands, Apply(op, current, operands[idx]), idx + 1);
      ops := [op] + rest;
      assert operands[idx..][1..] == operands[idx + 1..];
    }
  }

  /** Operators that reach the target make the search succeed. */
  lemma {:induction false} WitnessSearch(target: int, operands: seq<int>, current: int, idx: nat, ops: seq<Op>)
    requires idx <= |operands| && |ops| == |operands| - idx && Eval(current, operands[idx..], ops) == target
    ensures Search(target, operands, current, idx)
    decreases |operands| - idx
  {
    if idx < |operands| {
      assert operands[idx..][1..] == operands[idx + 1..];
      WitnessSearch(target, operands, Apply(ops[0], current, operands[idx]), idx + 1, ops[1..]);
    }
  }

  datatype Equation = Equation(target: int, operands: seq<int>)

  /** The line is valid: the search from the first operand succeeds. */
  predicate Valid(e: Equation)
    requires |e.operands| >= 1
  {
    Search(e.target, e.operands, e.operands[0], 1)
  }

  /** A line with a single operand is valid exactly when that operand is the target. */
  lemma SingleOperand(target: int, x: int)
    ensures Valid(Equation(target, [x])) <==> x == target
  {
  }

  /** The sum of the targets of the valid lines. */
  function ValidSum(eqs: seq<Equation>): int
    requires forall i :: 0 <= i < |eqs| ==> |eqs[i].operands| >= 1
  {
    if eqs == [] then 0
    else ValidSum(eqs[..|eqs| - 1]) + (if Valid(eqs[|eqs| - 1]) then eqs[|eqs| - 1].target else 0)
  }

  /** With non-negative targets, the answer is between 0 and the sum of all targets. */
  lemma {:induction false} ValidSumBounds(eqs: seq<Equation>)
    requires forall i :: 0 <= i < |eqs| ==> |eqs[i].operands| >= 1 && eqs[i].target >= 0
    ensures 0 <= ValidSum(eqs) <= TargetSum(eqs)
  {
    if eqs != [] {
      ValidSumBounds(eqs[..|eqs| - 1]);
    }
  }

  function TargetSum(eqs: seq<Equation>): int
  {
    if eqs == [] then 0 else TargetSum(eqs[..|eqs| - 1]) + eqs[|eqs| - 1].target
  }

  /** findValidEquations: every line needs an operand, since the search starts from operands[0]. */
  method FindValidEquations(eqs: seq<Equation>) returns (sum: int)
    requires forall i :: 0 <= i < |eqs| ==> |eqs[i].operands| >= 1
    ensures sum == ValidSum(eqs)
  {
    sum := 0;
    for i := 0 to |eqs|
      invariant sum == ValidSum(eqs[..i])
    {
      assert eqs[..i + 1][..i] == eqs[..i];
      var e := eqs[i];
      if Search(e.target, e.operands, e.operands[0], 1) {
        sum := sum + e.target;
      }
    }
    assert eqs[..|eqs|] == eqs;
  }
}
