/**
 * The CPU of the oldest engine, cvemu.c, as values. Unlike the later engines its two
 * stacks do not live in memory: both are kept in one array of STACK `int`s. The data
 * stack is circular: `data` indexes its top and moves modulo STACK, so the first word
 * pushed after a reset lands in cell 0. The call stack is a chain of frames growing
 * downwards from cell STACK - 1: the cell a frame starts at (`call`) holds the start of
 * the previous frame, the cell below it the return address, the next one the number of
 * locals, and the locals follow below that.
 *
 * Every cell ever written is a 24-bit word (the data stack masks what it stores, frame
 * pointers are indices that were just checked, counts and locals are popped words), so
 * the array is modelled as a sequence of words. An index outside the array is undefined
 * behaviour in C; here it is the fault StackIndexOutOfRange.
 */
module LegacySpec {
  import opened Words
  import opened Memory
  import Opcodes

  /** Size of the stack array in words. */
  const STACK: int := 2048

  type Index = i: int | 0 <= i < 2048

  type Stack = s: seq<Word> | |s| == 2048 witness seq(2048, _ => 0)

  /** The opcodes the `switch` of `cpu_execute` has a case for. The `opcodes.h` this
      engine includes is not part of this model, so their numbering is a parameter
      (`decode`). */
  datatype Op =
    | PUSH | ADD | SUB | MUL | DIV | MOD | RAND | AND | OR | XOR | NOT
    | GT | LT | AGT | ALT | LSHIFT | RSHIFT | ARSHIFT
    | POP | DUP | DUP2 | SWAP | PICK | HEIGHT
    | JMP | JMPR | CALL | RET | BRZ | HLT
    | LOAD | LOAD16 | LOAD24 | STORE | STORE16 | STORE24
    | INTON | INTOFF | SETIV | FRAME | LOCAL | SETLOCAL

  /** The fields of `struct Cpu` this engine uses. `data` always stays inside the array:
      it only ever moves modulo STACK. */
  datatype State = State(
    mem: Mem,
    stack: Stack,
    intEnabled: bool,
    intVector: int,
    pc: int,
    call: int,
    data: Index,
    halted: bool,
    nextPc: int)

  /** What a `cpu_execute` or a cycle produced: Ok and the new state, or the fault that
      stopped it and the state at that point (pc not committed). */
  datatype Outcome = Outcome(status: Status, state: State)

  function Continue(s: State): Outcome
  {
    Outcome(Ok, s)
  }

  function Stop(s: State): Outcome
  {
    Outcome(Failed(StackIndexOutOfRange), s)
  }

  /** An index of the stack array. */
  predicate Cell(i: int)
  {
    0 <= i < STACK
  }

  // ---------------------------------------------------------------------------------
  // Construction and reset

  /** `cpu_reset`: execution at 256, both stacks at the last cell, which becomes the first
      frame and points at itself; memory, the other cells and the interrupt fields are
      left alone. */
  function Reset(s: State): State
  {
    s.(pc := 256, call := STACK - 1, data := STACK - 1, halted := false, nextPc := -1,
       stack := s.stack[STACK - 1 := STACK - 1])
  }

  /** `newCpu`: a zeroed stack array, memory filled by the caller (the source uses
      `rand()`), interrupts off with vector 0, then `cpu_reset`. */
  function New(fill: Mem): State
  {
    Reset(State(fill, seq(STACK, _ => 0), false, 0, 0, 0, 0, false, 0))
  }

  // ---------------------------------------------------------------------------------
  // The data stack

  /** The cell after i, round the array. */
  function Next(i: Index): Index
  {
    if i == STACK - 1 then 0 else i + 1
  }

  /** The cell before i, round the array. */
  function Prev(i: Index): Index
  {
    if i == 0 then STACK - 1 else i - 1
  }

  /** Next and Prev are the source's `(i + 1) % STACK` and `(i - 1 + STACK) % STACK`. */
  lemma NextPrevModulo(i: Index)
    ensures Next(i) == (i + 1) % STACK && Prev(i) == (i - 1 + STACK) % STACK
  {
  }

  /** `cpu_push_data`: the word is masked to 24 bits, `data` moves up modulo STACK and the
      word is stored there. */
  function PushData(s: State, w: int): State
  {
    var d := Next(s.data);
    s.(data := d, stack := s.stack[d := Mask24(w)])
  }

  /** `cpu_pop_data`: the word at `data`, which moves down modulo STACK. */
  function PopData(s: State): (Word, State)
  {
    (s.stack[s.data], s.(data := Prev(s.data)))
  }

  /** The words pushed one after the other, first to last. */
  function PushAll(s: State, ws: seq<int>): State
  {
    if |ws| == 0 then s else PushData(PushAll(s, ws[..|ws| - 1]), ws[|ws| - 1])
  }

  // ---------------------------------------------------------------------------------
  // The call stack

  /** `cpu_push_call(addr)`: the new frame starts `locals + 3` cells below the current
      one, where locals is the count in the current frame; its three header cells get the
      old frame pointer, the masked return address and a count of 0, in that order. A
      header cell outside the array stops it there. */
  function PushCall(s: State, addr: int): Outcome
  {
    if !Cell(s.call - 2) then Stop(s)
    else
      var size := s.stack[s.call - 2] as int + 3;
      var c := s.call - size;
      var s1 := s.(call := c);
      if !Cell(c) then Stop(s1)
      else
        var s2 := s1.(stack := s1.stack[c := s.call]);
        if !Cell(c - 1) then Stop(s2)
        else
          var s3 := s2.(stack := s2.stack[c - 1 := Mask24(addr)]);
          if !Cell(c - 2) then Stop(s3)
          else Continue(s3.(stack := s3.stack[c - 2 := 0]))
  }

  /** The two header cells `cpu_pop_call` reads are in the array. */
  predicate CanPopCall(s: State)
  {
    Cell(s.call) && Cell(s.call - 1)
  }

  /** `cpu_pop_call`: the return address of the current frame; `call` goes back to the
      frame it points to. */
  function PopCall(s: State): (Word, State)
    requires CanPopCall(s)
  {
    (s.stack[s.call - 1], s.(call := s.stack[s.call]))
  }

  // ---------------------------------------------------------------------------------
  // The instruction cycle

  /** `cpu_fetch`: the byte at pc; its low two bits count the literal bytes that follow,
      which are pushed as one word when there are any; next_pc is set to the following
      instruction unless the opcode is HLT. Returns the opcode field. */
  function Fetch(decode: int -> Option<Op>, s: State): (int, State)
  {
    var instruction := Read(s.mem, s.pc);
    var len := Opcodes.LengthField(instruction);
    var code := Opcodes.OpcodeField(instruction);
    var s1 := if len > 0 then PushData(s, Literal(s.mem, s.pc, len)) else s;
    (code, if decode(code) != Some(HLT) then s1.(nextPc := s.pc + len + 1) else s1)
  }

  /** The end of `cpu_execute`: `pc = next_pc`. */
  function Commit(s: State): State
  {
    s.(pc := s.nextPc)
  }

  /** `a > b ? 1 : 0` and the like. */
  function Flag(b: bool): int
  {
    if b then 1 else 0
  }

  /** The cases of the `switch` in `cpu_execute`, grouped by what they do: two-operand
      arithmetic, shifts, NOT and the data-stack shuffles, the cases that choose next_pc
      or halt, loads and stores, the interrupt fields, the frame cases, and the cases that
      change nothing (PUSH, done by the fetch, and RAND, unimplemented). */
  datatype Group = BinaryGroup | ShiftGroup | ShuffleGroup | ControlGroup | AccessGroup
                 | InterruptGroup | FrameGroup | NoEffect

  function GroupOf(op: Op): Group
  {
    match op
    case ADD | SUB | MUL | DIV | MOD | AND | OR | XOR | GT | LT | AGT | ALT => BinaryGroup
    case LSHIFT | RSHIFT | ARSHIFT => ShiftGroup
    case NOT | POP | DUP | DUP2 | SWAP | PICK | HEIGHT => ShuffleGroup
    case JMP | JMPR | CALL | RET | BRZ | HLT => ControlGroup
    case LOAD | LOAD16 | LOAD24 | STORE | STORE16 | STORE24 => AccessGroup
    case INTON | INTOFF | SETIV => InterruptGroup
    case FRAME | LOCAL | SETLOCAL => FrameGroup
    case PUSH | RAND => NoEffect
  }

  predicate Binary(op: Op) { GroupOf(op) == BinaryGroup }
  predicate Shift(op: Op) { GroupOf(op) == ShiftGroup }
  predicate Shuffle(op: Op) { GroupOf(op) == ShuffleGroup }
  predicate Control(op: Op) { GroupOf(op) == ControlGroup }
  predicate Access(op: Op) { GroupOf(op) == AccessGroup }
  predicate Interrupts(op: Op) { GroupOf(op) == InterruptGroup }
  predicate Framing(op: Op) { GroupOf(op) == FrameGroup }

  /** DIV and MOD by zero are undefined in C. */
  predicate DividesByZero(op: Op, b: Word)
  {
    (op == DIV || op == MOD) && b == 0
  }

  /** The word a two-operand case pushes (before the push masks it). Both operands are
      words, so `/` and `%` are the mathematical ones, and the overflow of `*` is taken to
      wrap, which the 24-bit mask then hides. */
  function Combine(op: Op, a: Word, b: Word): int
    requires Binary(op) && !DividesByZero(op, b)
  {
    if op == ADD then a + b
    else if op == SUB then a - b
    else if op == MUL then a * b
    else if op == DIV then a / b
    else if op == MOD then a % b
    else if op == AND then Words.And(a, b)
    else if op == OR then Words.Or(a, b)
    else if op == XOR then Words.Xor(a, b)
    else if op == GT then Flag(a > b)
    else if op == LT then Flag(a < b)
    else if op == AGT then Flag(ToSigned(a) > ToSigned(b))
    else Flag(ToSigned(a) < ToSigned(b))
  }

  /** Pop b, pop a, push the result; DIV and MOD by zero fault. */
  function BinaryOp(s: State, op: Op): Outcome
    requires Binary(op)
  {
    var (b, s1) := PopData(s); var (a, s2) := PopData(s1);
    if DividesByZero(op, b) then Outcome(Failed(DivideByZero), s2)
    else Continue(PushData(s2, Combine(op, a, b)))
  }

  /** LSHIFT and RSHIFT are undefined in C for a count of 32 or more; so is ARSHIFT on a
      word with bit 23 clear, while on a negative word it shifts one place at a time. */
  function ShiftOp(s: State, op: Op): Outcome
    requires Shift(op)
  {
    var (b, s1) := PopData(s); var (a, s2) := PopData(s1);
    if op == ARSHIFT && a >= SIGN then Continue(PushData(s2, ArShift(a, b)))
    else if b >= 32 then Outcome(Failed(ShiftTooWide), s2)
    else if op == LSHIFT then Continue(PushData(s2, Shl(a, b)))
    else Continue(PushData(s2, Shr(a, b)))
  }

  /** NOT: pop a, push 1 when a is 0 and 0 otherwise. */
  function Not(s: State): State
  {
    var (a, s1) := PopData(s);
    PushData(s1, Flag(a == 0))
  }

  /** DUP: push a copy of the cell at `data`. */
  function Dup(s: State): State
  {
    PushData(s, s.stack[s.data])
  }

  /** DUP2: twice, push a copy of the cell below `data`; the index is not reduced modulo
      STACK, so it leaves the array when the top is cell 0, and on the second push when
      it was cell STACK - 1. */
  function Dup2(s: State): Outcome
  {
    if !Cell(s.data - 1) then Stop(s)
    else
      var s1 := PushData(s, s.stack[s.data - 1]);
      if !Cell(s1.data - 1) then Stop(s1)
      else Continue(PushData(s1, s1.stack[s1.data - 1]))
  }

  function Swap(s: State): State
  {
    var (b, s1) := PopData(s); var (a, s2) := PopData(s1);
    PushData(PushData(s2, b), a)
  }

  /** PICK: pop b and push a copy of the cell b below `data`, an index which is not
      reduced modulo STACK either. */
  function Pick(s: State): Outcome
  {
    var (b, s1) := PopData(s);
    if !Cell(s1.data - b) then Stop(s1)
    else Continue(PushData(s1, s1.stack[s1.data - b]))
  }

  /** HEIGHT: push `data + 1`. */
  function Height(s: State): State
  {
    PushData(s, s.data + 1)
  }

  function ShuffleOp(s: State, op: Op): Outcome
    requires Shuffle(op)
  {
    if op == NOT then Continue(Not(s))
    else if op == POP then Continue(PopData(s).1)
    else if op == DUP then Continue(Dup(s))
    else if op == DUP2 then Dup2(s)
    else if op == SWAP then Continue(Swap(s))
    else if op == PICK then Pick(s)
    else Continue(Height(s))
  }

  function Jmp(s: State): State
  {
    var (t, s1) := PopData(s);
    s1.(nextPc := t)
  }

  /** JMPR: the popped word is added to pc as an unsigned number. */
  function Jmpr(s: State): State
  {
    var (d, s1) := PopData(s);
    s1.(nextPc := s.pc + d)
  }

  /** CALL: a frame returning to next_pc is pushed before the target is popped. */
  function Call(s: State): Outcome
  {
    var o := PushCall(s, s.nextPc);
    if !o.status.Ok? then o
    else
      var (t, s2) := PopData(o.state);
      Continue(s2.(nextPc := t))
  }

  function Ret(s: State): Outcome
  {
    if !CanPopCall(s) then Stop(s)
    else
      var (r, s1) := PopCall(s);
      Continue(s1.(nextPc := r))
  }

  /** BRZ: pop an unsigned offset, then the condition; branch to pc + offset when the
      condition is 0. */
  function Brz(s: State): State
  {
    var (d, s1) := PopData(s); var (c, s2) := PopData(s1);
    if c == 0 then s2.(nextPc := s.pc + d) else s2
  }

  function ControlOp(s: State, op: Op): Outcome
    requires Control(op)
  {
    if op == JMP then Continue(Jmp(s))
    else if op == JMPR then Continue(Jmpr(s))
    else if op == CALL then Call(s)
    else if op == RET then Ret(s)
    else if op == BRZ then Continue(Brz(s))
    else Continue(s.(halted := true))
  }

  /** Loads pop an address and push the 1, 2 or 3 little-endian bytes there (the bytes
      read occupy disjoint bits, so or-ing the shifted bytes is adding them); stores pop
      an address, then the value, and write its low 1, 2 or 3 bytes, lowest first. */
  function AccessOp(s: State, op: Op): State
    requires Access(op)
  {
    var (b, s1) := PopData(s);
    if op == LOAD then PushData(s1, Read(s1.mem, b))
    else if op == LOAD16 then PushData(s1, Read16(s1.mem, b))
    else if op == LOAD24 then PushData(s1, Read24(s1.mem, b))
    else
      var (a, s2) := PopData(s1);
      if op == STORE then s2.(mem := Write(s2.mem, b, a))
      else if op == STORE16 then s2.(mem := Write16(s2.mem, b, a))
      else s2.(mem := Write24(s2.mem, b, a))
  }

  function InterruptOp(s: State, op: Op): State
    requires Interrupts(op)
  {
    if op == INTON then s.(intEnabled := true)
    else if op == INTOFF then s.(intEnabled := false)
    else
      var (v, s1) := PopData(s);
      s1.(intVector := v)
  }

  /** FRAME: the popped word becomes the locals count of the current frame. */
  function Frame(s: State): Outcome
  {
    var (n, s1) := PopData(s);
    if !Cell(s1.call - 2) then Stop(s1)
    else Continue(s1.(stack := s1.stack[s1.call - 2 := n]))
  }

  /** LOCAL: pop b; push local b of the current frame when the frame has more than b
      locals, and 0 otherwise. */
  function Local(s: State): Outcome
  {
    var (b, s1) := PopData(s);
    if !Cell(s1.call - 2) then Stop(s1)
    else if s1.stack[s1.call - 2] > b then
      if !Cell(s1.call - 3 - b) then Stop(s1)
      else Continue(PushData(s1, s1.stack[s1.call - 3 - b]))
    else Continue(PushData(s1, 0))
  }

  /** SETLOCAL: pop b, then a; a becomes local b of the current frame when the frame has
      more than b locals, and is dropped otherwise. */
  function SetLocal(s: State): Outcome
  {
    var (b, s1) := PopData(s); var (a, s2) := PopData(s1);
    if !Cell(s2.call - 2) then Stop(s2)
    else if s2.stack[s2.call - 2] > b then
      if !Cell(s2.call - 3 - b) then Stop(s2)
      else Continue(s2.(stack := s2.stack[s2.call - 3 - b := a]))
    else Continue(s2)
  }

  function FrameOp(s: State, op: Op): Outcome
    requires Framing(op)
  {
    if op == FRAME then Frame(s) else if op == LOCAL then Local(s) else SetLocal(s)
  }

  /** The body of the `switch` in `cpu_execute`, before pc is committed. Where one C
      expression pops twice the operator is commutative, so either order of the pops
      gives the same word. */
  function Dispatch(s: State, op: Op): Outcome
  {
    match GroupOf(op)
    case BinaryGroup => BinaryOp(s, op)
    case ShiftGroup => ShiftOp(s, op)
    case ShuffleGroup => ShuffleOp(s, op)
    case ControlGroup => ControlOp(s, op)
    case AccessGroup => Continue(AccessOp(s, op))
    case InterruptGroup => Continue(InterruptOp(s, op))
    case FrameGroup => FrameOp(s, op)
    case NoEffect => Continue(s)
  }

  /** `cpu_execute(instruction)`: the switch, then `pc = next_pc`. An opcode field with no
      case only commits pc. */
  function Execute(decode: int -> Option<Op>, s: State, code: int): Outcome
  {
    match decode(code)
    case None => Continue(Commit(s))
    case Some(op) =>
      var o := Dispatch(s, op);
      if o.status.Ok? then Continue(Commit(o.state)) else o
  }

  /** One turn of the loop in `cpu_run`: fetch, then execute. */
  function Cycle(decode: int -> Option<Op>, s: State): Outcome
  {
    var (code, s1) := Fetch(decode, s);
    Execute(decode, s1, code)
  }

  /** `cpu_run`, for at most `fuel` turns of its loop: it stops when the CPU halts, on a
      fault, or when the fuel is spent. */
  function Run(decode: int -> Option<Op>, s: State, fuel: nat): Outcome
    decreases fuel, 2
  {
    if fuel == 0 then Continue(s) else Loop(decode, s, fuel)
  }

  /** The test of the loop in `cpu_run`, `while (!halted)`, with fuel left. */
  function Loop(decode: int -> Option<Op>, s: State, fuel: nat): Outcome
    requires fuel > 0
    decreases fuel, 1
  {
    if s.halted then Continue(s) else Turn(decode, s, fuel)
  }

  /** A turn of the loop on a running CPU: one cycle, then the rest of the run unless the
      cycle faulted. */
  function Turn(decode: int -> Option<Op>, s: State, fuel: nat): Outcome
    requires fuel > 0
    decreases fuel, 0
  {
    var o := Cycle(decode, s);
    if o.status.Ok? then Run(decode, o.state, fuel - 1) else o
  }

  /** One turn of the run loop: when the cycle from `s` ends in `t` with `status`, the run
      from `s` is that outcome on a fault and otherwise the run of the remaining fuel from `t`. */
  lemma RunCycle(decode: int -> Option<Op>, s: State, t: State, status: Status, fuel: nat)
    requires !s.halted && fuel > 0
    requires Outcome(status, t) == Cycle(decode, s)
    ensures status.Ok? ==> Run(decode, s, fuel) == Run(decode, t, fuel - 1)
    ensures !status.Ok? ==> Run(decode, s, fuel) == Outcome(status, t)
  {
    assert Run(decode, s, fuel) == Loop(decode, s, fuel) == Turn(decode, s, fuel);
  }
}
