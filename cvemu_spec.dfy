/**
 * The CPU of cvemu/cvemu.c as values. A `State` holds the fields of the C `Cpu` struct
 * (cvemu/cvemu.h) together with the record of the device hooks called so far, and each
 * `cpu_*` function that changes the CPU is a function from the old state to the new one.
 * The class in module CvEmuCpu is proved to compute exactly these functions.
 *
 * Device hooks are Lua functions the model cannot see. Each call of one is recorded as an
 * `Event`; what a peek hook answers is given by the environment as a function of the
 * calls made before it, so devices whose answers depend on earlier pokes and ticks are
 * covered. Hooks that change the CPU themselves are not modelled.
 */
module CvEmuSpec {
  import opened Words
  import opened Memory
  import Opcodes

  /** Capacity of the device table, and number of uservalue slots of the Lua userdata
      that hold hook functions. */
  const MAX_DEVICES: int := 100
  const MAX_HOOKS: int := 256

  /** Number of values of a C `unsigned int`. */
  const UINT: int := 0x1_0000_0000

  /** The opcodes `cpu_execute` has a case for. Several of them (ROT, LOADW, STOREW, SDP,
      PUSHR, POPR, PEEKR) have no value in util/opcodes.h, so their numbering is a
      parameter of the model (`Env.decode`). */
  datatype Op =
    | PUSH | ADD | SUB | MUL | DIV | MOD | RAND | AND | OR | XOR | NOT
    | GT | LT | AGT | ALT | LSHIFT | RSHIFT | ARSHIFT | POP | DUP | SWAP | PICK | ROT
    | JMP | JMPR | CALL | RET | BRZ | BRNZ | HLT | LOAD | LOADW | STORE | STOREW
    | INTON | INTOFF | SETIV | SDP | SETSDP | PUSHR | POPR | PEEKR | DEBUG

  /** The four hooks a device may have. */
  datatype Hook = ResetHook | PeekHook | PokeHook | TickHook

  /** One row of the device table: the address range and, for each hook, the uservalue
      slot that holds it, 0 when the device has no such hook. */
  datatype Device = Device(start: int, end: int, reset: nat, peek: nat, poke: nat, tick: nat)

  function Slot(d: Device, h: Hook): nat
  {
    match h
    case ResetHook => d.reset
    case PeekHook => d.peek
    case PokeHook => d.poke
    case TickHook => d.tick
  }

  /** A call of the hook in uservalue `slot` with the given integer arguments: none for
      reset and tick, the offset for peek, the offset and the byte for poke. */
  datatype Event = Event(hook: Hook, slot: nat, args: seq<int>)

  /** What the model does not see: the opcode an opcode field selects (None when
      `cpu_execute` has no case for it), and the integer a peek hook returns, given the
      hook calls made before, the hook's slot and the offset it is passed. */
  datatype Env = Env(decode: int -> Option<Op>, answer: (seq<Event>, nat, int) -> int)

  /** The fields of `struct Cpu`; `devices` is the used part of the device table
      (`num_devices` is its length), `trace` the hook calls made so far. `dp` is the
      address one past the top word of the data stack, which grows upwards; `sp` is the
      address of the top word of the return stack, which grows downwards. */
  datatype State = State(
    mem: Mem,
    devices: seq<Device>,
    numHooks: int,
    intEnabled: bool,
    intVector: int,
    pc: int,
    dp: int,
    bottomDp: int,
    sp: int,
    halted: bool,
    nextPc: int,
    trace: seq<Event>)

  /** What one `cpu_execute` or cycle produced: Ok and the new state, or the fault that
      stopped the instruction and the state at that point (pc not committed). */
  datatype Outcome = Outcome(status: Status, state: State)

  function Continue(s: State): Outcome
  {
    Outcome(Ok, s)
  }

  function Stop(f: Fault, s: State): Outcome
  {
    Outcome(Failed(f), s)
  }

  // ---------------------------------------------------------------------------------
  // Construction, reset and the device table

  /** `cpu_reset`: both stacks at their standard places, execution at 1024, interrupts
      off and their vector cleared. */
  function CpuReset(s: State): State
  {
    s.(dp := 256, bottomDp := 256, sp := 1024, pc := 1024, halted := false,
       intEnabled := false, intVector := 0, nextPc := -1)
  }

  /** `newCpu`: memory filled by the caller (the source uses `rand()`), an empty device
      table and no hooks, then `cpu_reset`, which sets every register. */
  function New(fill: Mem): State
  {
    CpuReset(State(fill, [], 0, false, 0, 0, 0, 0, 0, false, 0, []))
  }

  /** The calls a scan of the table in order makes to hook h, which takes no arguments:
      one for each device that has the hook. */
  function HookCalls(devices: seq<Device>, h: Hook): seq<Event>
  {
    if |devices| == 0 then []
    else
      var d := devices[|devices| - 1];
      HookCalls(devices[..|devices| - 1], h) + (if Slot(d, h) == 0 then [] else [Event(h, Slot(d, h), [])])
  }

  /** `cvemu_reset`: `cpu_reset`, then the reset hook of every device that has one, in
      table order. */
  function Reset(s: State): State
  {
    CpuReset(s).(trace := s.trace + HookCalls(s.devices, ResetHook))
  }

  /** `cpu_tick_devices`: the tick hook of every device that has one, in table order. */
  function TickDevices(s: State): State
  {
    s.(trace := s.trace + HookCalls(s.devices, TickHook))
  }

  /** Result of `cvemu_install_device`. */
  datatype Installed = Installed | TableFull | OutOfHooks

  /** `store_hook`: a missing hook gets slot 0; a present one increments the hook count
      and takes the new count as its slot, which must be one of the MAX_HOOKS uservalues.
      Returns the new count, the slot and whether it fitted. */
  function StoreHook(count: int, present: bool): (int, nat, bool)
  {
    if !present then (count, 0, true)
    else if 0 <= count < MAX_HOOKS then (count + 1, count + 1, true)
    else (count + 1, 0, false)
  }

  /** `cvemu_install_device(start, end, hooks)`, where the flags say which of reset,
      peek, poke and tick the hook table holds. A full device table is refused before
      anything changes. Running out of slots raises a Lua error part way through: the
      hook count has already moved and the device is not added. */
  function InstallDevice(s: State, start: int, end: int, reset: bool, peek: bool, poke: bool, tick: bool): (Installed, State)
  {
    if |s.devices| == MAX_DEVICES then (TableFull, s)
    else
      var (c1, r, ok1) := StoreHook(s.numHooks, reset);
      var (c2, p, ok2) := StoreHook(c1, peek);
      var (c3, q, ok3) := StoreHook(c2, poke);
      var (c4, t, ok4) := StoreHook(c3, tick);
      if !ok1 then (OutOfHooks, s.(numHooks := c1))
      else if !ok2 then (OutOfHooks, s.(numHooks := c2))
      else if !ok3 then (OutOfHooks, s.(numHooks := c3))
      else if !ok4 then (OutOfHooks, s.(numHooks := c4))
      else (Installed, s.(devices := s.devices + [Device(start, end, r, p, q, t)], numHooks := c4))
  }

  // ---------------------------------------------------------------------------------
  // Memory access with device dispatch

  /** `devices[n].hook && addr >= devices[n].start && addr <= devices[n].end`, where addr
      is an `unsigned int`, so the `int` bounds are compared as unsigned numbers. */
  predicate Claims(d: Device, h: Hook, addr: int)
  {
    Slot(d, h) != 0 && d.start % UINT <= addr <= d.end % UINT
  }

  /** The index of the first device from `from` on that claims addr for hook h, or
      |devices| when none does. */
  function FirstClaimant(devices: seq<Device>, h: Hook, addr: int, from: nat): (n: nat)
    requires from <= |devices|
    ensures from <= n <= |devices|
    ensures n < |devices| ==> Claims(devices[n], h, addr)
    ensures forall k :: from <= k < n ==> !Claims(devices[k], h, addr)
    decreases |devices| - from
  {
    if from == |devices| then from
    else if Claims(devices[from], h, addr) then from
    else FirstClaimant(devices, h, addr, from + 1)
  }

  /** `cpu_peek(cpu, addr, L)`, where `lua` says whether L is given. With L, the first
      device claiming the masked address answers, its integer converted to `unsigned
      char`; otherwise the byte in memory. */
  function Peek(env: Env, s: State, addr: int, lua: bool): (Byte, State)
  {
    var a := Addr(addr);
    var n := if lua then FirstClaimant(s.devices, PeekHook, a, 0) else |s.devices|;
    if n < |s.devices| then
      var d := s.devices[n];
      var offset := a - d.start % UINT;
      (env.answer(s.trace, d.peek, offset) % 256, s.(trace := s.trace + [Event(PeekHook, d.peek, [offset])]))
    else
      (Read(s.mem, addr), s)
  }

  /** A peek changes nothing but the record of hook calls. */
  lemma PeekFrame(env: Env, s: State, addr: int, lua: bool)
    ensures Peek(env, s, addr, lua).1 == s.(trace := Peek(env, s, addr, lua).1.trace)
  {
  }

  /** `cpu_poke(cpu, addr, value, L)`: the value is converted to `unsigned char`; with L,
      the first device claiming the masked address receives it, otherwise it is stored. */
  function Poke(s: State, addr: int, v: int, lua: bool): (r: State)
    ensures r == s.(mem := r.mem, trace := r.trace)
  {
    var a := Addr(addr);
    var n := if lua then FirstClaimant(s.devices, PokeHook, a, 0) else |s.devices|;
    if n < |s.devices| then
      var d := s.devices[n];
      s.(trace := s.trace + [Event(PokeHook, d.poke, [a - d.start % UINT, v % 256])])
    else
      s.(mem := Write(s.mem, addr, v))
  }

  /** `cpu_peek24`: three byte reads, least significant first. */
  function Peek24(env: Env, s: State, addr: int, lua: bool): (Word, State)
  {
    var (b0, s1) := Peek(env, s, addr, lua);
    var (b1, s2) := Peek(env, s1, addr + 1, lua);
    var (b2, s3) := Peek(env, s2, addr + 2, lua);
    (b0 + 256 * b1 + 65536 * b2, s3)
  }

  /** `cpu_poke24`: the low three bytes of the value, least significant first. The
      source shifts the `unsigned` value and masks with 0xff; the conversion to `unsigned
      char` in Poke does the masking. */
  function Poke24(s: State, addr: int, v: int, lua: bool): State
  {
    Poke(Poke(Poke(s, addr, v, lua), addr + 1, v / 256, lua), addr + 2, v / 65536, lua)
  }

  /** Without L neither access reaches a device: `cpu_poke24` stores the three bytes in
      memory and `cpu_peek24` reads them back from there. */
  lemma MemoryOnly(env: Env, s: State, addr: int, v: int)
    ensures Poke24(s, addr, v, false) == s.(mem := Write24(s.mem, addr, v))
    ensures Peek24(env, s, addr, false) == (Read24(s.mem, addr), s)
  {
    Write24Bytes(s.mem, addr, v);
  }

  // ---------------------------------------------------------------------------------
  // The stacks; the source passes L = 0, so these go to memory only

  /** `cpu_push_data`: the word, masked to 24 bits, is stored at dp and dp moves up. */
  function PushData(s: State, w: int): State
  {
    s.(mem := Write24(s.mem, s.dp, Mask24(w)), dp := s.dp + 3)
  }

  /** `cpu_pop_data`: dp moves down and the word there is the result. */
  function PopData(s: State): (Word, State)
  {
    (Read24(s.mem, s.dp - 3), s.(dp := s.dp - 3))
  }

  /** `cpu_push_call`: sp moves down and the masked value is stored there. */
  function PushCall(s: State, v: int): State
  {
    s.(sp := s.sp - 3, mem := Write24(s.mem, s.sp - 3, Mask24(v)))
  }

  /** `cpu_pop_call`: the word at sp is the result and sp moves up. */
  function PopCall(s: State): (Word, State)
  {
    (Read24(s.mem, s.sp), s.(sp := s.sp + 3))
  }

  /** `cpu_peek_call`: the word at sp. */
  function PeekCall(s: State): Word
  {
    Read24(s.mem, s.sp)
  }

  /** Result of `cvemu_fetch_stack`. */
  datatype Listing = Underflow | Listed(words: seq<Word>)

  /** `cvemu_fetch_stack`: an error when dp is below bottom_dp, else the words from
      bottom_dp up to dp, bottom first. */
  function FetchStack(s: State): Listing
  {
    if s.dp < s.bottomDp then Underflow else Listed(StackWords(s.mem, s.bottomDp, s.dp))
  }

  /** `cvemu_interrupt(args)`: ignored while interrupts are off; otherwise interrupts go
      off, the CPU wakes, pc goes on the call stack, each argument is pushed on the data
      stack in order, and execution continues at the interrupt vector. */
  function Interrupt(s: State, args: seq<int>): State
  {
    if !s.intEnabled then s
    else PushAll(PushCall(s.(intEnabled := false, halted := false), s.pc), args).(pc := s.intVector)
  }

  /** The words pushed one after the other, first to last. */
  function PushAll(s: State, ws: seq<int>): State
  {
    if |ws| == 0 then s else PushData(PushAll(s, ws[..|ws| - 1]), ws[|ws| - 1])
  }

  /** The pushes change memory and move dp up by a word each, and nothing else. */
  lemma {:induction false} PushAllFrame(s: State, ws: seq<int>)
    ensures var r := PushAll(s, ws); r == s.(mem := r.mem, dp := s.dp + 3 * |ws|)
    decreases |ws|
  {
    if |ws| > 0 {
      PushAllFrame(s, ws[..|ws| - 1]);
    }
  }

  // ---------------------------------------------------------------------------------
  // The instruction cycle

  /** The literal-assembly loop of `cpu_fetch` from its turn `n` on: byte n of the
      instruction at pc, read through the device table, is added as `b << (8 * (n - 1))`
      to the literal assembled so far, for n up to k; `place` is that `1 << (8 * (n - 1))`. */
  function FetchLiteral(env: Env, s: State, pc: int, n: nat, k: nat, arg: int, place: int): (r: (int, State))
    requires 1 <= n && k <= 3
    decreases k + 1 - n
  {
    if n > k then (arg, s)
    else
      var (b, s1) := Peek(env, s, pc + n, true);
      FetchLiteral(env, s1, pc, n + 1, k, arg + b * place, place * 256)
  }

  /** The literal loop changes nothing but the record of hook calls. */
  lemma {:induction false} FetchLiteralFrame(env: Env, s: State, pc: int, n: nat, k: nat, arg: int, place: int)
    requires 1 <= n && k <= 3
    ensures FetchLiteral(env, s, pc, n, k, arg, place).1 == s.(trace := FetchLiteral(env, s, pc, n, k, arg, place).1.trace)
    decreases k + 1 - n
  {
    if n <= k {
      var (b, s1) := Peek(env, s, pc + n, true);
      PeekFrame(env, s, pc + n, true);
      var arg', place' := arg + b * place, place * 256;
      FetchLiteralFrame(env, s1, pc, n + 1, k, arg', place');
      assert FetchLiteral(env, s, pc, n, k, arg, place) == FetchLiteral(env, s1, pc, n + 1, k, arg', place');
    }
  }

  /** The literal of an instruction at pc with len argument bytes, pushed as one word
      when there is one. */
  function FetchArgs(env: Env, s: State, pc: int, len: nat): (r: State)
    requires len <= 3
    ensures r == s.(mem := r.mem, dp := r.dp, trace := r.trace)
  {
    if len > 0 then
      FetchLiteralFrame(env, s, pc, 1, len, 0, 1);
      var (arg, s1) := FetchLiteral(env, s, pc, 1, len, 0, 1);
      PushData(s1, arg)
    else s
  }

  /** `cpu_fetch`: the byte at pc is read through the device table; its low two bits
      count the literal bytes that follow, which are pushed as one word when there are
      any; next_pc is set to the following instruction unless the opcode is HLT.
      Returns the opcode field. */
  function Fetch(env: Env, s: State): (int, State)
  {
    var (instruction, s1) := Peek(env, s, s.pc, true);
    var len := Opcodes.LengthField(instruction);
    var code := Opcodes.OpcodeField(instruction);
    var s2 := FetchArgs(env, s1, s.pc, len);
    var s3 := if env.decode(code) != Some(HLT) then s2.(nextPc := s.pc + len + 1) else s2;
    (code, s3)
  }

  /** The end of `cpu_execute`: `pc = next_pc`. */
  function Commit(s: State): State
  {
    s.(pc := s.nextPc)
  }

  /** `a > b ? 1 : 0` and the like. */
  function Flag(b: bool): int
  {
    if b then 1 else 0
  }

  /** The cases of the `switch` in `cpu_execute`, grouped by what they do: two-operand
      arithmetic, shifts, NOT and the data-stack shuffles, the cases that choose next_pc
      or halt, loads and stores (which go through the device table), the interrupt and
      stack-register cases, and the cases that change nothing (PUSH, done by the fetch;
      RAND, unimplemented; DEBUG, which only prints). */
  datatype Group = BinaryGroup | ShiftGroup | ShuffleGroup | ControlGroup | AccessGroup
                 | RegistersGroup | NoEffect

  function GroupOf(op: Op): Group
  {
    match op
    case ADD | SUB | MUL | DIV | MOD | AND | OR | XOR | GT | LT | AGT | ALT => BinaryGroup
    case LSHIFT | RSHIFT | ARSHIFT => ShiftGroup
    case NOT | POP | DUP | SWAP | PICK | ROT => ShuffleGroup
    case JMP | JMPR | CALL | RET | BRZ | BRNZ | HLT => ControlGroup
    case LOAD | LOADW | STORE | STOREW => AccessGroup
    case INTON | INTOFF | SETIV | SDP | SETSDP | PUSHR | POPR | PEEKR => RegistersGroup
    case PUSH | RAND | DEBUG => NoEffect
  }

  predicate Binary(op: Op) { GroupOf(op) == BinaryGroup }
  predicate Shift(op: Op) { GroupOf(op) == ShiftGroup }
  predicate Shuffle(op: Op) { GroupOf(op) == ShuffleGroup }
  predicate Control(op: Op) { GroupOf(op) == ControlGroup }
  predicate Access(op: Op) { GroupOf(op) == AccessGroup }
  predicate Registers(op: Op) { GroupOf(op) == RegistersGroup }

  /** DIV and MOD by zero are undefined in C. */
  predicate DividesByZero(op: Op, b: Word)
  {
    (op == DIV || op == MOD) && b == 0
  }

  /** The word a two-operand case pushes (before the push masks it). Both operands are
      non-negative `int`s below 2^24, so `/` and `%` are the mathematical ones, and the
      overflow of `*` is taken to wrap, which the 24-bit mask then hides. */
  function Combine(op: Op, a: Word, b: Word): int
    requires Binary(op) && !DividesByZero(op, b)
  {
    if op == ADD then a + b
    else if op == SUB then a - b
    else if op == MUL then a * b
    else if op == DIV then a / b
    else if op == MOD then a % b
    else if op == AND then Words.And(a, b)
    else if op == OR then Words.Or(a, b)
    else if op == XOR then Words.Xor(a, b)
    else if op == GT then Flag(a > b)
    else if op == LT then Flag(a < b)
    else if op == AGT then Flag(ToSigned(a) > ToSigned(b))
    else Flag(ToSigned(a) < ToSigned(b))
  }

  /** Pop b, pop a, push the result; DIV and MOD by zero fault. */
  function BinaryOp(s: State, op: Op): Outcome
    requires Binary(op)
  {
    var (b, s1) := PopData(s); var (a, s2) := PopData(s1);
    if DividesByZero(op, b) then Stop(DivideByZero, s2)
    else Continue(PushData(s2, Combine(op, a, b)))
  }

  /** LSHIFT and RSHIFT are undefined in C for a count of 32 or more; so is ARSHIFT on a
      word with bit 23 clear, while on a negative word it shifts one place at a time. */
  function ShiftOp(s: State, op: Op): Outcome
    requires Shift(op)
  {
    var (b, s1) := PopData(s); var (a, s2) := PopData(s1);
    if op == ARSHIFT && a >= SIGN then Continue(PushData(s2, ArShift(a, b)))
    else if b >= 32 then Stop(ShiftTooWide, s2)
    else if op == LSHIFT then Continue(PushData(s2, Shl(a, b)))
    else Continue(PushData(s2, Shr(a, b)))
  }

  /** NOT: pop a, push 1 when a is 0 and 0 otherwise. */
  function Not(s: State): State
  {
    var (a, s1) := PopData(s);
    PushData(s1, Flag(a == 0))
  }

  /** DUP: push a copy of the word at dp - 3. */
  function Dup(s: State): State
  {
    PushData(s, Read24(s.mem, s.dp - 3))
  }

  function Swap(s: State): State
  {
    var (b, s1) := PopData(s); var (a, s2) := PopData(s1);
    PushData(PushData(s2, b), a)
  }

  /** PICK: pop b and push a copy of the word at `dp - (b + 1) * 3`. */
  function Pick(s: State): State
  {
    var (b, s1) := PopData(s);
    PushData(s1, Read24(s1.mem, s1.dp - (b + 1) * 3))
  }

  /** ROT: pop c, b, a and push b, c, a. */
  function Rot(s: State): State
  {
    var (c, s1) := PopData(s); var (b, s2) := PopData(s1); var (a, s3) := PopData(s2);
    PushData(PushData(PushData(s3, b), c), a)
  }

  function ShuffleOp(s: State, op: Op): State
    requires Shuffle(op)
  {
    if op == NOT then Not(s)
    else if op == POP then PopData(s).1
    else if op == DUP then Dup(s)
    else if op == SWAP then Swap(s)
    else if op == PICK then Pick(s)
    else Rot(s)
  }

  function Jmp(s: State): State
  {
    var (t, s1) := PopData(s);
    s1.(nextPc := t)
  }

  /** JMPR: the popped word is added to pc as an unsigned number. */
  function Jmpr(s: State): State
  {
    var (d, s1) := PopData(s);
    s1.(nextPc := s.pc + d)
  }

  /** CALL: next_pc goes on the call stack before the target is popped. */
  function Call(s: State): State
  {
    var s1 := PushCall(s, s.nextPc);
    var (t, s2) := PopData(s1);
    s2.(nextPc := t)
  }

  function Ret(s: State): State
  {
    var (r, s1) := PopCall(s);
    s1.(nextPc := r)
  }

  /** BRZ and BRNZ pop a signed offset, then the condition. */
  function Branch(s: State, op: Op): State
    requires op == BRZ || op == BRNZ
  {
    var (d, s1) := PopData(s); var (c, s2) := PopData(s1);
    var taken := if op == BRZ then c == 0 else c != 0;
    if taken then s2.(nextPc := s.pc + ToSigned(d)) else s2
  }

  function ControlOp(s: State, op: Op): State
    requires Control(op)
  {
    if op == JMP then Jmp(s)
    else if op == JMPR then Jmpr(s)
    else if op == CALL then Call(s)
    else if op == RET then Ret(s)
    else if op == BRZ || op == BRNZ then Branch(s, op)
    else s.(halted := true)
  }

  /** Loads pop an address, stores an address and then the value; all four reach the
      devices. LOADW's three reads are taken in address order. */
  function AccessOp(env: Env, s: State, op: Op): State
    requires Access(op)
  {
    var (b, s1) := PopData(s);
    if op == LOAD then
      var (v, s2) := Peek(env, s1, b, true);
      PushData(s2, v)
    else if op == LOADW then
      var (v, s2) := Peek24(env, s1, b, true);
      PushData(s2, v)
    else
      var (a, s2) := PopData(s1);
      if op == STORE then Poke(s2, b, a, true) else Poke24(s2, b, a, true)
  }

  function SetIv(s: State): State
  {
    var (v, s1) := PopData(s);
    s1.(intVector := v)
  }

  /** SDP: push sp, then push the dp that results from both pushes. */
  function Sdp(s: State): State
  {
    var s1 := PushData(s, s.sp);
    PushData(s1, s1.dp + 3)
  }

  /** SETSDP: the first word popped becomes dp, the second sp; bottom_dp is left as it
      is. */
  function SetSdp(s: State): State
  {
    var (d, s1) := PopData(s); var (p, s2) := PopData(s1);
    s2.(dp := d, sp := p)
  }

  /** PUSHR: move the top of the data stack to the call stack. */
  function PushR(s: State): State
  {
    var (v, s1) := PopData(s);
    PushCall(s1, v)
  }

  /** POPR: move the top of the call stack to the data stack. */
  function PopR(s: State): State
  {
    var (v, s1) := PopCall(s);
    PushData(s1, v)
  }

  /** PEEKR: copy the top of the call stack to the data stack. */
  function PeekR(s: State): State
  {
    PushData(s, PeekCall(s))
  }

  function RegistersOp(s: State, op: Op): State
    requires Registers(op)
  {
    if op == INTON then s.(intEnabled := true)
    else if op == INTOFF then s.(intEnabled := false)
    else if op == SETIV then SetIv(s)
    else if op == SDP then Sdp(s)
    else if op == SETSDP then SetSdp(s)
    else if op == PUSHR then PushR(s)
    else if op == POPR then PopR(s)
    else PeekR(s)
  }

  /** The body of the `switch` in `cpu_execute`, before pc is committed. Where one C
      expression pops twice the operator is commutative, so either order of the pops
      gives the same word. */
  function Dispatch(env: Env, s: State, op: Op): Outcome
  {
    match GroupOf(op)
    case BinaryGroup => BinaryOp(s, op)
    case ShiftGroup => ShiftOp(s, op)
    case ShuffleGroup => Continue(ShuffleOp(s, op))
    case ControlGroup => Continue(ControlOp(s, op))
    case AccessGroup => Continue(AccessOp(env, s, op))
    case RegistersGroup => Continue(RegistersOp(s, op))
    case NoEffect => Continue(s)
  }

  /** `cpu_execute(instruction)`: the switch, then `pc = next_pc`. An opcode field with no
      case only commits pc. */
  function Execute(env: Env, s: State, code: int): Outcome
  {
    match env.decode(code)
    case None => Continue(Commit(s))
    case Some(op) =>
      var o := Dispatch(env, s, op);
      if o.status.Ok? then Continue(Commit(o.state)) else o
  }

  /** One turn of the loop in `cpu_run`: fetch, execute, tick the devices. */
  function Cycle(env: Env, s: State): Outcome
  {
    var (code, s1) := Fetch(env, s);
    var o := Execute(env, s1, code);
    if o.status.Ok? then Continue(TickDevices(o.state)) else o
  }

  /** `cpu_run`, for at most `fuel` turns of its loop: it stops when the CPU halts, on a
      fault, or when the fuel is spent. */
  function Run(env: Env, s: State, fuel: nat): Outcome
    decreases fuel, 2
  {
    if fuel == 0 then Continue(s) else Loop(env, s, fuel)
  }

  /** The test of the loop in `cpu_run`, `while (!halted)`, with fuel left. */
  function Loop(env: Env, s: State, fuel: nat): Outcome
    requires fuel > 0
    decreases fuel, 1
  {
    if s.halted then Continue(s) else Turn(env, s, fuel)
  }

  /** A turn of the loop in `cpu_run` on a running CPU: one cycle, then the rest of the run
      unless the cycle faulted. */
  function Turn(env: Env, s: State, fuel: nat): Outcome
    requires fuel > 0
    decreases fuel, 0
  {
    var o := Cycle(env, s);
    if o.status.Ok? then Run(env, o.state, fuel - 1) else o
  }

  /** One turn of the run loop: when the cycle from `s` ends in `t` with `status`, the run
      from `s` is that outcome on a fault and otherwise the run of the remaining fuel from `t`. */
  lemma RunCycle(env: Env, s: State, t: State, status: Status, fuel: nat)
    requires !s.halted && fuel > 0
    requires Outcome(status, t) == Cycle(env, s)
    ensures status.Ok? ==> Run(env, s, fuel) == Run(env, t, fuel - 1)
    ensures !status.Ok? ==> Run(env, s, fuel) == Outcome(status, t)
  {
    assert Run(env, s, fuel) == Loop(env, s, fuel) == Turn(env, s, fuel);
  }
}
