/**
 * Day 17: a small CPU with three registers and a program of numbers read in pairs of opcode
 * and operand. runCPUToHalt runs it until the program counter leaves the program and returns
 * what the `out` instruction wrote. The registers and program are given already parsed, as
 * non-negative numbers, as the puzzle input has them.
 */
module Day17 {
  import opened Common

  // ---------------------------------------------------------------------------------------
  // Arithmetic the instructions use
  // ---------------------------------------------------------------------------------------

  /**
   * io.PowInt(2, k). Its library source is not part of this model; for the non-negative
   * exponents that arise here it is the power of two.
   */
  function Pow2(k: nat): (r: nat)
    ensures r >= 1
  {
    if k == 0 then 1 else 2 * Pow2(k - 1)
  }

  /** Go's `^` on non-negative integers: bitwise exclusive or, one binary digit at a time. */
  function Xor(x: nat, y: nat): nat
    decreases x + y
  {
    if x == 0 && y == 0 then 0
    else 2 * Xor(x / 2, y / 2) + (x % 2 + y % 2) % 2
  }

  /** x ^ 0 == x. */
  lemma {:induction false} XorZero(x: nat)
    ensures Xor(x, 0) == x
    decreases x
  {
    if x != 0 {
      XorZero(x / 2);
    }
  }

  /** x ^ x == 0. */
  lemma {:induction false} XorSelf(x: nat)
    ensures Xor(x, x) == 0
    decreases x
  {
    if x != 0 {
      XorSelf(x / 2);
    }
  }

  /** The low bit of x ^ y and the rest of it. */
  lemma XorHalves(x: nat, y: nat)
    ensures Xor(x, y) / 2 == Xor(x / 2, y / 2) && Xor(x, y) % 2 == (x % 2 + y % 2) % 2
  {
    ModUnique(Xor(x, y), 2, Xor(x / 2, y / 2), (x % 2 + y % 2) % 2);
  }

  /** (x ^ y) ^ y == x: applying bxl twice with the same literal restores b. */
  lemma {:induction false} XorUndo(x: nat, y: nat)
    ensures Xor(Xor(x, y), y) == x
    decreases x + y
  {
    var w := Xor(x, y);
    if y == 0 {
      XorZero(x);
      XorZero(w);
    } else {
      XorUndo(x / 2, y / 2);
      XorHalves(x, y);
      XorHalves(w, y);
      var u := Xor(w, y);
      assert u / 2 == x / 2;
      BitUndo(x % 2, y % 2);
      assert u % 2 == x % 2;
      assert u == 2 * (u / 2) + u % 2;
      assert x == 2 * (x / 2) + x % 2;
    }
  }

  lemma BitUndo(p: int, q: int)
    requires 0 <= p < 2 && 0 <= q < 2
    ensures ((p + q) % 2 + q) % 2 == p
  {
  }

  /** Bits below the eighth stay below: the exclusive or of two values in 0..7 is in 0..7. */
  lemma {:induction false} XorBelow8(x: nat, y: nat)
    requires x < 8 && y < 8
    ensures Xor(x, y) < 8
  {
    XorBelow(x, y, 3);
  }

  lemma {:induction false} XorBelow(x: nat, y: nat, k: nat)
    requires x < Pow2(k) && y < Pow2(k)
    ensures Xor(x, y) < Pow2(k)
    decreases k
  {
    if k > 0 && (x != 0 || y != 0) {
      XorBelow(x / 2, y / 2, k - 1);
    }
  }

  /** Dividing by 2^j and then by 2^k divides by 2^(j + k): two adv instructions compose. */
  lemma ShiftCompose(a: nat, j: nat, k: nat)
    ensures a / Pow2(j) / Pow2(k) == a / Pow2(j + k)
  {
    Pow2Add(j, k);
    DivDiv(a, Pow2(j), Pow2(k));
  }

  lemma {:induction false} Pow2Add(j: nat, k: nat)
    ensures Pow2(j + k) == Pow2(j) * Pow2(k)
    decreases j
  {
    if j > 0 {
      Pow2Add(j - 1, k);
      assert Pow2(j + k) == 2 * Pow2(j - 1 + k);
    }
  }

  /** Dividing by m and then by n is dividing by m n. */
  lemma DivDiv(a: nat, m: nat, n: nat)
    requires m >= 1 && n >= 1
    ensures a / m / n == a / (m * n)
  {
    var q1, r1 := a / m, a % m;
    var q2, r2 := q1 / n, q1 % n;
    assert a == m * q1 + r1;
    assert q1 == n * q2 + r2;
    Regroup(m, n, q2, r2, r1);
    ModUnique(a, m * n, q2, m * r2 + r1);
  }

  /** m (n q + r) + s == (m n) q + (m r + s), and the remainder part stays below m n. */
  lemma Regroup(m: nat, n: nat, q: int, r: nat, s: nat)
    requires r < n && s < m
    ensures m * (n * q + r) + s == (m * n) * q + (m * r + s)
    ensures m * r + s < m * n
  {
    assert m * r <= m * (n - 1) by {
      MulMono(m, r, n - 1);
    }
  }

  lemma MulMono(m: nat, x: int, y: int)
    requires x <= y
    ensures m * x <= m * y
  {
    assert m * y - m * x == m * (y - x);
  }

  // ---------------------------------------------------------------------------------------
  // The instructions, as a function of the register state
  // ---------------------------------------------------------------------------------------

  /** The CPU's registers and program counter. */
  datatype State = State(a: nat, b: nat, c: nat, pc: int)

  /** comboOperand (lines 166-178): operands 4, 5 and 6 name a register; any other is itself. */
  function ComboOperand(s: State, opval: nat): (r: nat)
    ensures opval == 4 ==> r == s.a
    ensures opval == 5 ==> r == s.b
    ensures opval == 6 ==> r == s.c
    ensures opval != 4 && opval != 5 && opval != 6 ==> r == opval
  {
    if opval == 4 then s.a
    else if opval == 5 then s.b
    else if opval == 6 then s.c
    else opval
  }

  /** dv (lines 161-164): register a divided by two to the combo operand. */
  function DvValue(s: State, operand: nat): nat
  {
    var denom := Pow2(ComboOperand(s, operand));
    DivNat(s.a, denom);
    s.a / denom
  }

  /** The quotient of a natural number by a positive one is natural. */
  lemma DivNat(a: nat, d: int)
    requires d >= 1
    ensures a / d >= 0
  {
  }

  /**
   * One pass of the loop body of lines 131-155 at a program counter whose operand is in range:
   * the new state and what `out` wrote (nothing for every other opcode). Unknown opcodes do
   * nothing but advance.
   */
  function Exec(program: seq<nat>, s: State): (State, seq<nat>)
    requires 0 <= s.pc && s.pc + 1 < |program|
  {
    var opcode, operand := program[s.pc], program[s.pc + 1];
    var next := s.pc + 2;
    if opcode == 0 then (s.(a := DvValue(s, operand), pc := next), [])
    else if opcode == 1 then (s.(b := Xor(s.b, operand), pc := next), [])
    else if opcode == 2 then (s.(b := ComboOperand(s, operand) % 8, pc := next), [])
    else if opcode == 3 then (s.(pc := if s.a != 0 then operand else next), [])
    else if opcode == 4 then (s.(b := Xor(s.b, s.c), pc := next), [])
    else if opcode == 5 then (s.(pc := next), [ComboOperand(s, operand) % 8])
    else if opcode == 6 then (s.(b := DvValue(s, operand), pc := next), [])
    else if opcode == 7 then (s.(c := DvValue(s, operand), pc := next), [])
    else (s.(pc := next), [])
  }

  /**
   * What each instruction may change: a only by adv; b only by bxl, bst, bxc and bdv; c only
   * by cdv; the program counter moves on by 2 except for a jnz taken with a != 0, which jumps
   * to its operand; exactly the `out` instruction writes, one value in 0..7; and the
   * dv instructions all write a / 2^combo.
   */
  lemma ExecFrame(program: seq<nat>, s: State)
    requires 0 <= s.pc && s.pc + 1 < |program|
    ensures var (t, out) := Exec(program, s); var opcode, operand := program[s.pc], program[s.pc + 1];
      (t.a != s.a ==> opcode == 0)
      && (t.b != s.b ==> opcode == 1 || opcode == 2 || opcode == 4 || opcode == 6)
      && (t.c != s.c ==> opcode == 7)
      && (opcode == 0 ==> t.a == s.a / Pow2(ComboOperand(s, operand)))
      && (opcode == 6 ==> t.b == s.a / Pow2(ComboOperand(s, operand)))
      && (opcode == 7 ==> t.c == s.a / Pow2(ComboOperand(s, operand)))
      && t.pc == (if opcode == 3 && s.a != 0 then operand else s.pc + 2)
      && |out| == (if opcode == 5 then 1 else 0)
      && forall v :: v in out ==> v < 8
  {
  }

  // ---------------------------------------------------------------------------------------
  // Running to halt
  // ---------------------------------------------------------------------------------------

  /** How a run ends: the counter left the program; an opcode had no operand (Go's index panic); or the fuel ran out. */
  datatype Status = Halted | Crashed | OutOfFuel

  datatype Outcome = Outcome(status: Status, output: seq<nat>, final: State)

  /** The loop of lines 130-156 for at most `fuel` instructions. */
  function Run(program: seq<nat>, s: State, fuel: nat): Outcome
    decreases fuel
  {
    if s.pc >= |program| then Outcome(Halted, [], s)
    else if s.pc < 0 || s.pc + 1 >= |program| then Outcome(Crashed, [], s)
    else if fuel == 0 then Outcome(OutOfFuel, [], s)
    else
      var (t, out) := Exec(program, s);
      Prefixed(out, Run(program, t, fuel - 1))
  }

  /** An outcome with output written before it. */
  function Prefixed(out: seq<nat>, o: Outcome): Outcome
  {
    o.(output := out + o.output)
  }

  /**
   * A run halts exactly when the counter is at or past the end, crashes exactly at the last
   * element, and writes at most one value per instruction, each in 0..7.
   */
  lemma {:induction false} RunEnds(program: seq<nat>, s: State, fuel: nat)
    ensures var o := Run(program, s, fuel);
      (o.status == Halted ==> o.final.pc >= |program|)
      && (o.status == Crashed ==> o.final.pc < 0 || o.final.pc == |program| - 1)
      && (o.status == OutOfFuel ==> 0 <= o.final.pc && o.final.pc + 1 < |program|)
      && |o.output| <= fuel
      && forall v :: v in o.output ==> v < 8
    decreases fuel
  {
    if 0 <= s.pc && s.pc + 1 < |program| && fuel > 0 {
      ExecFrame(program, s);
      RunEnds(program, Exec(program, s).0, fuel - 1);
    }
  }

  /** More fuel does not change a run that ended without running out. */
  lemma {:induction false} RunFuelMonotone(program: seq<nat>, s: State, fuel: nat, more: nat)
    requires fuel <= more && Run(program, s, fuel).status != OutOfFuel
    ensures Run(program, s, more) == Run(program, s, fuel)
    decreases fuel
  {
    if 0 <= s.pc && s.pc + 1 < |program| {
      RunFuelMonotone(program, Exec(program, s).0, fuel - 1, more - 1);
    }
  }

  /** No instruction is jnz. */
  predicate NoJumps(program: seq<nat>)
  {
    forall i :: 0 <= i < |program| ==> program[i] != 3
  }

  /** Without jnz the counter only moves forward by 2, so half the program's length in fuel suffices. */
  lemma {:induction false} NoJumpsEnd(program: seq<nat>, s: State, fuel: nat)
    requires NoJumps(program) && 2 * fuel >= |program| - s.pc
    ensures Run(program, s, fuel).status != OutOfFuel
    decreases fuel
  {
    if 0 <= s.pc && s.pc + 1 < |program| {
      ExecFrame(program, s);
      NoJumpsEnd(program, Exec(program, s).0, fuel - 1);
    }
  }

  // ---------------------------------------------------------------------------------------
  // The CPU object and runCPUToHalt
  // ---------------------------------------------------------------------------------------

  datatype Register = A | B | C

  /** The state after dv writes into dest; the other registers and the counter stay. */
  function DvInto(s: State, operand: nat, dest: Register): State
  {
    match dest
    case A => s.(a := DvValue(s, operand))
    case B => s.(b := DvValue(s, operand))
    case C => s.(c := DvValue(s, operand))
  }

  /** CPU (lines 13-17), updated in place by reference. */
  class CPU {
    var a: nat
    var b: nat
    var c: nat
    var program: seq<nat>
    var pc: int

    /** The CPU parseCPU builds (lines 118-124): given registers and program, counter 0. */
    constructor (a: nat, b: nat, c: nat, program: seq<nat>)
      ensures this.a == a && this.b == b && this.c == c && this.program == program && pc == 0
    {
      this.a, this.b, this.c, this.program, this.pc := a, b, c, program, 0;
    }

    function Regs(): State
      reads this
    {
      State(a, b, c, pc)
    }

    /** dv (lines 161-164): writes a / 2^combo into the register dest points at. */
    method Dv(operand: nat, dest: Register)
      modifies this
      ensures program == old(program)
      ensures Regs() == DvInto(old(Regs()), operand, dest)
    {
      var v := DvValue(Regs(), operand);
      match dest {
        case A => a := v;
        case B => b := v;
        case C => c := v;
      }
    }
  }

  /**
   * One pass of the loop body of lines 131-155: decodes the instruction at the counter,
   * updates the CPU in place and returns what `out` wrote, as Exec says.
   */
  method Step(cpu: CPU) returns (written: seq<nat>)
    requires 0 <= cpu.pc && cpu.pc + 1 < |cpu.program|
    modifies cpu
    ensures cpu.program == old(cpu.program)
    ensures (cpu.Regs(), written) == Exec(cpu.program, old(cpu.Regs()))
  {
    var opcode, operand := cpu.program[cpu.pc], cpu.program[cpu.pc + 1];
    written := [];
    if opcode == 0 {
      cpu.Dv(operand, A);
    } else if opcode == 1 {
      cpu.b := Xor(cpu.b, operand);
    } else if opcode == 2 {
      cpu.b := ComboOperand(cpu.Regs(), operand) % 8;
    } else if opcode == 3 {
      if cpu.a != 0 {
        cpu.pc := operand as int - 2;
      }
    } else if opcode == 4 {
      cpu.b := Xor(cpu.b, cpu.c);
    } else if opcode == 5 {
      var value := ComboOperand(cpu.Regs(), operand) % 8;
      written := [value];
    } else if opcode == 6 {
      cpu.Dv(operand, B);
    } else if opcode == 7 {
      cpu.Dv(operand, C);
    }
    cpu.pc := cpu.pc + 2;
  }

  /** A run that executes one more instruction writes that instruction's output first. */
  lemma RunStep(program: seq<nat>, s: State, fuel: nat, out: seq<nat>, t: State, written: seq<nat>)
    requires 0 <= s.pc && s.pc + 1 < |program| && fuel > 0 && (t, written) == Exec(program, s)
    ensures Prefixed(out, Run(program, s, fuel)) == Prefixed(out + written, Run(program, t, fuel - 1))
  {
  }

  /**
   * runCPUToHalt (lines 127-159) with at most `fuel` instructions: the output and status of
   * Run from the CPU's state, which is left in Run's final state.
   */
  method RunCPUToHalt(cpu: CPU, fuel: nat) returns (output: seq<nat>, status: Status)
    modifies cpu
    ensures cpu.program == old(cpu.program)
    ensures Run(cpu.program, old(cpu.Regs()), fuel) == Outcome(status, output, cpu.Regs())
  {
    output := [];
    var steps := 0;
    while cpu.pc < |cpu.program|
      invariant steps <= fuel && cpu.program == old(cpu.program)
      invariant Run(cpu.program, old(cpu.Regs()), fuel) == Prefixed(output, Run(cpu.program, cpu.Regs(), fuel - steps))
      decreases fuel - steps
    {
      if cpu.pc < 0 || cpu.pc + 1 >= |cpu.program| {
        return output, Crashed;
      }
      if steps == fuel {
        return output, OutOfFuel;
      }
      ghost var before := cpu.Regs();
      var written := Step(cpu);
      RunStep(cpu.program, before, fuel - steps, output, cpu.Regs(), written);
      output := output + written;
      steps := steps + 1;
    }
    status := Halted;
  }
}
