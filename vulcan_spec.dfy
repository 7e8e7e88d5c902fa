/**
 * The register file and instruction cycle of the C++ `Vulcan` class (wasm/Vulcan.cpp) as
 * values: a `State` holds every field of the class, and each member function that
 * changes the machine is a function from the old state to the new one. The class in
 * module VulcanCpu is proved to compute exactly these functions.
 */
module VulcanSpec {
  import opened Words
  import opened Memory
  import opened Opcodes

  /** The fields of `class Vulcan`, `wasm/Vulcan.h`. `dp` is the address one past the top
      word of the data stack (which grows upwards); `sp` is the address of the top word of
      the return stack (which grows downwards); `bottomDp` and `topSp` mark where
      each stack was last set to start. */
  datatype State = State(
    mem: Mem,
    intEnabled: bool,
    intVector: int,
    pc: int,
    dp: int,
    sp: int,
    bottomDp: int,
    topSp: int,
    halted: bool,
    nextPc: int)

  /** What one `execute` or `tick` produced: Ok and the new state, or the fault that
      stopped the instruction and the state at that point (pc not committed). */
  datatype Outcome = Outcome(status: Status, state: State)

  /** `init`: memory filled by the caller (the source uses `rand()`), both stack registers
      and the interrupt fields cleared. The remaining fields are left indeterminate by the
      source; here they start at 0 and false. */
  function Initial(fill: Mem): State
  {
    State(fill, false, 0, 0, 0, 0, 0, 0, false, 0)
  }

  /** `reset`: both stacks emptied at their standard places, execution at 1024. */
  function Reset(s: State): State
  {
    s.(dp := 256, bottomDp := 256, topSp := 1024, sp := 1024, pc := 1024,
       halted := false, nextPc := -1)
  }

  /** `loadROM(start, rom, length)`: a raw copy into memory, without address masking;
      the caller keeps it inside memory. */
  function LoadRom(s: State, start: int, rom: seq<Byte>): State
    requires 0 <= start && start + |rom| <= MEM
  {
    s.(mem := s.mem[..start] + rom + s.mem[start + |rom|..])
  }

  /** `push_data`: the word, masked to 24 bits, is stored at dp and dp moves up. */
  function PushData(s: State, w: int): State
  {
    s.(mem := Write24(s.mem, s.dp, Mask24(w)), dp := s.dp + 3)
  }

  /** `pop_data`: dp moves down and the word there is the result. */
  function PopData(s: State): (Word, State)
  {
    (Read24(s.mem, s.dp - 3), s.(dp := s.dp - 3))
  }

  /** `push_call`: sp moves down and the masked value is stored there. */
  function PushCall(s: State, v: int): State
  {
    s.(sp := s.sp - 3, mem := Write24(s.mem, s.sp - 3, Mask24(v)))
  }

  /** `pop_call`: the word at sp is the result and sp moves up. */
  function PopCall(s: State): (Word, State)
  {
    (Read24(s.mem, s.sp), s.(sp := s.sp + 3))
  }

  /** `push_data(peek24(dp - depth))`: a copy of the word that lies depth bytes below the
      top of the data stack, as DUP, DUP2 and PICK push it. */
  function Copy(s: State, depth: int): State
  {
    PushData(s, Read24(s.mem, s.dp - depth))
  }

  /** `stackSize`: words between bottomDp and dp (C division truncates). */
  function StackSize(s: State): int
  {
    TruncDiv(s.dp - s.bottomDp, 3)
  }

  /** `getStack(index)`: the word index places below the top of the data stack. */
  function GetStack(s: State, index: int): Word
  {
    Read24(s.mem, s.dp - 3 - index * 3)
  }

  /** `returnSize`: words between sp and topSp. */
  function ReturnSize(s: State): int
  {
    TruncDiv(s.topSp - s.sp, 3)
  }

  /** `getReturn(index)`: the word index places below the top of the return stack. */
  function GetReturn(s: State, index: int): Word
  {
    Read24(s.mem, s.sp + index * 3)
  }

  /** `fetch`: decode the byte at pc, push its literal if it has one, and set next_pc to
      the following instruction unless the opcode is HLT. Returns the opcode field. */
  function Fetch(s: State): (int, State)
  {
    var instruction := Read(s.mem, s.pc);
    var len := LengthField(instruction);
    var code := OpcodeField(instruction);
    var s1 := if len > 0 then PushData(s, Literal(s.mem, s.pc, len)) else s;
    var s2 := if code != Encode(HLT) then s1.(nextPc := s.pc + len + 1) else s1;
    (code, s2)
  }

  /** The end of `execute`: `pc = next_pc`. */
  function Commit(s: State): State
  {
    s.(pc := s.nextPc)
  }

  function Continue(s: State): Outcome
  {
    Outcome(Ok, s)
  }

  function Stop(f: Fault, s: State): Outcome
  {
    Outcome(Failed(f), s)
  }

  /** `a > b ? 1 : 0` and `a < b ? 1 : 0`. */
  function Flag(b: bool): int
  {
    if b then 1 else 0
  }

  /** The cases of the `switch` in `execute`, grouped by the shape of what they do:
      two-operand arithmetic (pop b, pop a, push one word), shifts, NOT and the data-stack
      shuffles, the cases that choose next_pc or halt, loads and stores, the interrupt and
      stack-register cases, and the enumerators that change nothing (PUSH, done by the
      fetch; RAND, unimplemented; DEBUG, which has no case). */
  datatype Group = BinaryGroup | ShiftGroup | ShuffleGroup | ControlGroup | AccessGroup
                 | RegistersGroup | NoEffect

  function GroupOf(op: Opcode): Group
  {
    match op
    case ADD | SUB | MUL | DIV | MOD | AND | OR | XOR | GT | LT | AGT | ALT => BinaryGroup
    case LSHIFT | RSHIFT | ARSHIFT => ShiftGroup
    case NOT | POP | DUP | DUP2 | SWAP | PICK => ShuffleGroup
    case JMP | JMPR | CALL | RET | BRZ | BRNZ | HLT => ControlGroup
    case LOAD | LOAD16 | LOAD24 | STORE | STORE16 | STORE24 => AccessGroup
    case INTON | INTOFF | SETIV | SP | DP | SETSDP | INCSP | DECSP => RegistersGroup
    case PUSH | RAND | DEBUG => NoEffect
  }

  predicate Binary(op: Opcode) { GroupOf(op) == BinaryGroup }
  predicate Shift(op: Opcode) { GroupOf(op) == ShiftGroup }
  predicate Shuffle(op: Opcode) { GroupOf(op) == ShuffleGroup }
  predicate Control(op: Opcode) { GroupOf(op) == ControlGroup }
  predicate Access(op: Opcode) { GroupOf(op) == AccessGroup }
  predicate Registers(op: Opcode) { GroupOf(op) == RegistersGroup }

  /** DIV and MOD by zero are undefined in C. */
  predicate DividesByZero(op: Opcode, b: Word)
  {
    (op == DIV || op == MOD) && b == 0
  }

  /** The word a two-operand case pushes (before the push masks it). Both operands are
      unsigned 24-bit values, so the unsigned C operators are the mathematical ones, and
      the 32-bit wrap of `*` disappears under the 24-bit mask. */
  function Combine(op: Opcode, a: Word, b: Word): int
    requires Binary(op) && !DividesByZero(op, b)
  {
    if op == ADD then a + b
    else if op == SUB then a - b
    else if op == MUL then a * b
    else if op == DIV then a / b
    else if op == MOD then a % b
    else if op == AND then Words.And(a, b)
    else if op == OR then Words.Or(a, b)
    else if op == XOR then Words.Xor(a, b)
    else if op == GT then Flag(a > b)
    else if op == LT then Flag(a < b)
    else if op == AGT then Flag(ToSigned(a) > ToSigned(b))
    else Flag(ToSigned(a) < ToSigned(b))
  }

  function BinaryOp(s: State, op: Opcode): Outcome
    requires Binary(op)
  {
    var (b, s1) := PopData(s); var (a, s2) := PopData(s1);
    if DividesByZero(op, b) then Stop(DivideByZero, s2)
    else Continue(PushData(s2, Combine(op, a, b)))
  }

  /** LSHIFT and RSHIFT are undefined in C for a count of 32 or more; ARSHIFT only on a
      word with bit 23 clear, since on a negative word it shifts one place at a time. */
  function ShiftOp(s: State, op: Opcode): Outcome
    requires Shift(op)
  {
    var (b, s1) := PopData(s); var (a, s2) := PopData(s1);
    if op == ARSHIFT && a >= SIGN then Continue(PushData(s2, ArShift(a, b)))
    else if b >= 32 then Stop(ShiftTooWide, s2)
    else if op == LSHIFT then Continue(PushData(s2, Shl(a, b)))
    else Continue(PushData(s2, Shr(a, b)))
  }

  /** NOT: pop a, push 1 when a is 0 and 0 otherwise. */
  function Not(s: State): State
  {
    var (a, s1) := PopData(s);
    PushData(s1, Flag(a == 0))
  }

  function Pop(s: State): State
  {
    PopData(s).1
  }

  function Dup(s: State): State
  {
    Copy(s, 3)
  }

  /** DUP2: the second word is copied twice; the second copy is read after the first push,
      where the old top now lies 6 bytes below dp. */
  function Dup2(s: State): State
  {
    Copy(Copy(s, 6), 6)
  }

  function Swap(s: State): State
  {
    var (b, s1) := PopData(s); var (a, s2) := PopData(s1);
    PushData(PushData(s2, b), a)
  }

  /** PICK: pop an index b and copy the word b places below the new top. */
  function Pick(s: State): State
  {
    var (b, s1) := PopData(s);
    Copy(s1, (b + 1) * 3)
  }

  function ShuffleOp(s: State, op: Opcode): State
    requires Shuffle(op)
  {
    if op == NOT then Not(s)
    else if op == POP then Pop(s)
    else if op == DUP then Dup(s)
    else if op == DUP2 then Dup2(s)
    else if op == SWAP then Swap(s)
    else Pick(s)
  }

  function Jmp(s: State): State
  {
    var (t, s1) := PopData(s);
    s1.(nextPc := t)
  }

  /** JMPR: the popped word is added to pc as an unsigned number. */
  function Jmpr(s: State): State
  {
    var (d, s1) := PopData(s);
    s1.(nextPc := s.pc + d)
  }

  /** CALL: next_pc goes on the call stack before the target is popped. */
  function Call(s: State): State
  {
    var s1 := PushCall(s, s.nextPc);
    var (t, s2) := PopData(s1);
    s2.(nextPc := t)
  }

  function Ret(s: State): State
  {
    var (r, s1) := PopCall(s);
    s1.(nextPc := r)
  }

  /** BRZ and BRNZ pop a signed offset, then the condition. */
  function Branch(s: State, op: Opcode): State
    requires op == BRZ || op == BRNZ
  {
    var (d, s1) := PopData(s); var (c, s2) := PopData(s1);
    var taken := if op == BRZ then c == 0 else c != 0;
    if taken then s2.(nextPc := s.pc + ToSigned(d)) else s2
  }

  function ControlOp(s: State, op: Opcode): State
    requires Control(op)
  {
    if op == JMP then Jmp(s)
    else if op == JMPR then Jmpr(s)
    else if op == CALL then Call(s)
    else if op == RET then Ret(s)
    else if op == BRZ || op == BRNZ then Branch(s, op)
    else s.(halted := true)
  }

  /** Loads pop an address; stores pop an address, then the value. */
  function AccessOp(s: State, op: Opcode): Outcome
    requires Access(op)
  {
    var (b, s1) := PopData(s);
    if op == LOAD then Continue(PushData(s1, Read(s1.mem, b)))
    else if op == LOAD16 then Continue(PushData(s1, Read16(s1.mem, b)))
    else if op == LOAD24 then Continue(PushData(s1, Read24(s1.mem, b)))
    else
      var (a, s2) := PopData(s1);
      if op == STORE then Continue(s2.(mem := Write(s2.mem, b, a)))
      else if op == STORE16 then Continue(s2.(mem := Write16(s2.mem, b, a)))
      else Continue(s2.(mem := Write24(s2.mem, b, a)))
  }

  function SetIv(s: State): State
  {
    var (v, s1) := PopData(s);
    s1.(intVector := v)
  }

  /** SP: pop d and push sp + d. */
  function PushSp(s: State): State
  {
    var (d, s1) := PopData(s);
    PushData(s1, s1.sp + d)
  }

  /** DP: the source pushes sp here, not dp. */
  function PushDp(s: State): State
  {
    PushData(s, s.sp)
  }

  /** SETSDP: the first word popped becomes dp and the bottom of the data stack, the second
      sp and the top of the call stack. */
  function SetSdp(s: State): State
  {
    var (d, s1) := PopData(s); var (p, s2) := PopData(s1);
    s2.(dp := d, sp := p, bottomDp := d, topSp := p)
  }

  function IncSp(s: State): State
  {
    var (d, s1) := PopData(s);
    s1.(sp := s1.sp + d)
  }

  /** DECSP: pop d, lower sp by d and push the new sp. */
  function DecSp(s: State): State
  {
    var (d, s1) := PopData(s);
    var s2 := s1.(sp := s1.sp - d);
    PushData(s2, s2.sp)
  }

  function RegistersOp(s: State, op: Opcode): State
    requires Registers(op)
  {
    if op == INTON then s.(intEnabled := true)
    else if op == INTOFF then s.(intEnabled := false)
    else if op == SETIV then SetIv(s)
    else if op == SP then PushSp(s)
    else if op == DP then PushDp(s)
    else if op == SETSDP then SetSdp(s)
    else if op == INCSP then IncSp(s)
    else DecSp(s)
  }

  /** The body of the `switch` in `execute`, before pc is committed. Pops are taken in
      the order the source sequences them; where one C expression pops twice the operator
      is commutative, so either order gives the same word. */
  function Dispatch(s: State, op: Opcode): Outcome
  {
    match GroupOf(op)
    case BinaryGroup => BinaryOp(s, op)
    case ShiftGroup => ShiftOp(s, op)
    case ShuffleGroup => Continue(ShuffleOp(s, op))
    case ControlGroup => Continue(ControlOp(s, op))
    case AccessGroup => AccessOp(s, op)
    case RegistersGroup => Continue(RegistersOp(s, op))
    case NoEffect => Continue(s)
  }

  /** SETSDP exactly as `dp = pop_data(); sp = pop_data();` behaves: the second pop reads
      below the dp the first assignment installed. */
  function SetSdpAsWritten(s: State): State
  {
    var (d, s1) := PopData(s);
    var s2 := s1.(dp := d);
    var (p, s3) := PopData(s2);
    s3.(sp := p, bottomDp := s3.dp, topSp := p)
  }

  /** `execute(instruction)`: the switch, then `pc = next_pc`. A field value with no
      `case` (DEBUG, and 45 to 63) only commits pc. */
  function Execute(s: State, code: int): Outcome
  {
    match Decode(code)
    case None => Continue(Commit(s))
    case Some(op) =>
      var o := Dispatch(s, op);
      if o.status.Ok? then Continue(Commit(o.state)) else o
  }

  /** `tick`: nothing when halted, else one fetch and one execute. */
  function Tick(s: State): Outcome
  {
    if s.halted then Continue(s)
    else
      var (code, s1) := Fetch(s);
      Execute(s1, code)
  }
}
