/**
 * The `Cpu` of cvemu.c: memory and the stack array are arrays updated in place, the
 * registers are fields. Every `cpu_*` function is proved to leave the object in the state
 * the functions of LegacySpec describe.
 */
module LegacyCpu {
  import opened Words
  import opened Memory
  import Opcodes
  import S = LegacySpec

  class Cpu {
    /** The opcode each opcode field selects, None when `cpu_execute` has no case for it. */
    const decode: int -> Option<S.Op>
    const mem: array<Byte>
    const stack: array<Word>
    var intEnabled: bool
    var intVector: int
    var pc: int
    var call: int
    var data: S.Index
    var halted: bool
    var nextPc: int

    /** The buffers have the machine's sizes. */
    ghost predicate Valid()
      reads this
    {
      mem.Length == MEM && stack.Length == S.STACK
    }

    /** The object as a value. */
    function Snapshot(): S.State
      reads this, mem, stack
      requires Valid()
    {
      S.State(mem[..], stack[..], intEnabled, intVector, pc, call, data, halted, nextPc)
    }

    /** `newCpu`: the stack array is zeroed and memory filled byte by byte from `fill`,
        which stands for the source's `rand() % 256` values; interrupts are off with
        vector 0, and `cpu_reset` sets the rest. */
    constructor (fill: Mem, decode: int -> Option<S.Op>)
      ensures Valid() && fresh(mem) && fresh(stack) && this.decode == decode
      ensures Snapshot() == S.New(fill)
    {
      this.decode := decode;
      var cells := new Word[S.STACK];
      var n := 0;
      while n < S.STACK
        invariant 0 <= n <= S.STACK
        invariant cells[..n] == seq(n, _ => 0)
      {
        cells[n] := 0;
        n := n + 1;
      }
      assert cells[..] == cells[..S.STACK];
      var buffer := new Byte[MEM];
      n := 0;
      while n < MEM
        invariant 0 <= n <= MEM
        invariant buffer[..n] == fill[..n]
        invariant cells[..] == seq(S.STACK, _ => 0)
      {
        buffer[n] := fill[n];
        n := n + 1;
      }
      stack, mem := cells, buffer;
      intEnabled, intVector := false, 0;
      pc, call, data, halted, nextPc := 0, 0, 0, false, 0;
      new;
      Reset();
    }

    /** `cpu_reset`. */
    method Reset()
      requires Valid()
      modifies this, stack
      ensures Valid()
      ensures Snapshot() == S.Reset(old(Snapshot()))
    {
      pc := 256;
      call := S.STACK - 1;
      data := S.STACK - 1;
      halted := false;
      nextPc := -1;
      stack[S.STACK - 1] := S.STACK - 1;
    }

    /** `cpu_push_data(word)`. */
    method PushData(word: int)
      requires Valid()
      modifies this, stack
      ensures Valid()
      ensures Snapshot() == S.PushData(old(Snapshot()), word)
    {
      var w := Mask24(word);
      S.NextPrevModulo(data);
      data := (data + 1) % S.STACK;
      stack[data] := w;
    }

    /** `cpu_pop_data()`. */
    method PopData() returns (word: Word)
      requires Valid()
      modifies this
      ensures Valid()
      ensures (word, Snapshot()) == S.PopData(old(Snapshot()))
    {
      word := stack[data];
      S.NextPrevModulo(data);
      data := (data - 1 + S.STACK) % S.STACK;
    }

    /** `cpu_push_call(addr)`; the status says whether every cell it touched was in the
        array. */
    method PushCall(addr: int) returns (status: Status)
      requires Valid()
      modifies this, stack
      ensures Valid()
      ensures S.Outcome(status, Snapshot()) == S.PushCall(old(Snapshot()), addr)
    {
      status := Failed(StackIndexOutOfRange);
      if !(0 <= call - 2 < S.STACK) {
        return;
      }
      var oldcall := call;
      var size := stack[call - 2] as int + 3;
      call := call - size;
      if call < 0 {
        return;
      }
      stack[call] := oldcall;
      if call - 1 < 0 {
        return;
      }
      stack[call - 1] := Mask24(addr);
      if call - 2 < 0 {
        return;
      }
      stack[call - 2] := 0;
      status := Ok;
    }

    /** `cpu_pop_call()`. */
    method PopCall() returns (ret: Word)
      requires Valid() && S.CanPopCall(Snapshot())
      modifies this
      ensures Valid()
      ensures (ret, Snapshot()) == S.PopCall(old(Snapshot()))
    {
      var prev := stack[call];
      ret := stack[call - 1];
      call := prev;
    }

    /** `cpu_poke(addr, value)`: the address is masked to 17 bits and the value converted
        to `unsigned char`. */
    method Poke(addr: int, value: int)
      requires Valid()
      modifies mem
      ensures Valid()
      ensures Snapshot() == old(Snapshot()).(mem := Write(old(mem[..]), addr, value))
    {
      mem[Addr(addr)] := value % 256;
    }

    /** `cpu_peek(addr)`. */
    method Peek(addr: int) returns (value: Byte)
      requires Valid()
      ensures value == Read(mem[..], addr)
    {
      value := mem[Addr(addr)];
    }

    /** The literal-assembly loop of `cpu_fetch`: `arg += peek(pc + n) << (8 * (n - 1))`
        for n = 1..argLength. */
    method FetchLiteral(argLength: nat) returns (arg: int)
      requires Valid() && argLength <= 3
      ensures arg == Literal(mem[..], pc, argLength)
    {
      arg := 0;
      var n, place := 1, 1;
      while n <= argLength
        invariant 1 <= n <= argLength + 1
        invariant LoopLiteral(mem[..], pc, n, argLength, arg, place) == LoopLiteral(mem[..], pc, 1, argLength, 0, 1)
        decreases argLength + 1 - n
      {
        var b: int := Peek(pc + n);
        arg := arg + b * place;
        n, place := n + 1, place * 256;
      }
      LoopLiteralValue(mem[..], pc, argLength);
    }

    /** `cpu_fetch()`: returns the opcode field of the byte at pc. */
    method Fetch() returns (code: int)
      requires Valid()
      modifies this, stack
      ensures Valid()
      ensures (code, Snapshot()) == S.Fetch(decode, old(Snapshot()))
    {
      ghost var s := Snapshot();
      var instruction := Peek(pc);
      var argLength := Opcodes.LengthField(instruction);
      code := Opcodes.OpcodeField(instruction);
      if argLength > 0 {
        var arg := FetchLiteral(argLength);
        PushData(arg);
        assert Snapshot() == S.PushData(s, Literal(s.mem, s.pc, argLength));
      }
      ghost var s1 := Snapshot();
      assert s1 == if argLength > 0 then S.PushData(s, Literal(s.mem, s.pc, argLength)) else s;
      if decode(code) != Some(S.HLT) {
        nextPc := pc + argLength + 1;
      }
    }

    /** The two-operand cases of `cpu_execute`. */
    method ExecuteBinary(op: S.Op) returns (status: Status)
      requires Valid() && S.Binary(op)
      modifies this, stack
      ensures Valid()
      ensures S.Outcome(status, Snapshot()) == S.BinaryOp(old(Snapshot()), op)
    {
      ghost var s := Snapshot();
      status := Ok;
      var b := PopData();
      var a := PopData();
      if S.DividesByZero(op, b) {
        status := Failed(DivideByZero);
      } else {
        PushData(S.Combine(op, a, b));
      }
      assert S.Outcome(status, Snapshot()) == S.BinaryOp(s, op);
    }

    /** The three shift cases; ARSHIFT on a negative word runs the source's loop. */
    method ExecuteShift(op: S.Op) returns (status: Status)
      requires Valid() && S.Shift(op)
      modifies this, stack
      ensures Valid()
      ensures S.Outcome(status, Snapshot()) == S.ShiftOp(old(Snapshot()), op)
    {
      ghost var s := Snapshot();
      status := Ok;
      var b := PopData();
      var a := PopData();
      if op == S.ARSHIFT && a >= SIGN {
        var r := ArShiftLoop(a, b);
        PushData(r);
      } else if b >= 32 {
        status := Failed(ShiftTooWide);
      } else if op == S.LSHIFT {
        PushData(Shl(a, b));
      } else {
        PushData(Shr(a, b));
      }
      assert S.Outcome(status, Snapshot()) == S.ShiftOp(s, op);
    }

    /** The DUP2 case. */
    method Dup2() returns (status: Status)
      requires Valid()
      modifies this, stack
      ensures Valid()
      ensures S.Outcome(status, Snapshot()) == S.Dup2(old(Snapshot()))
    {
      status := Failed(StackIndexOutOfRange);
      if data - 1 < 0 {
        return;
      }
      PushData(stack[data - 1]);
      if data - 1 < 0 {
        return;
      }
      PushData(stack[data - 1]);
      status := Ok;
    }

    /** The SWAP case. */
    method Swap()
      requires Valid()
      modifies this, stack
      ensures Valid()
      ensures Snapshot() == S.Swap(old(Snapshot()))
    {
      var b := PopData();
      var a := PopData();
      PushData(b);
      PushData(a);
    }

    /** The PICK case. */
    method Pick() returns (status: Status)
      requires Valid()
      modifies this, stack
      ensures Valid()
      ensures S.Outcome(status, Snapshot()) == S.Pick(old(Snapshot()))
    {
      var b := PopData();
      if data - b < 0 {
        return Failed(StackIndexOutOfRange);
      }
      PushData(stack[data - b]);
      status := Ok;
    }

    /** NOT and the data-stack cases. */
    method ExecuteShuffle(op: S.Op) returns (status: Status)
      requires Valid() && S.Shuffle(op)
      modifies this, stack
      ensures Valid()
      ensures S.Outcome(status, Snapshot()) == S.ShuffleOp(old(Snapshot()), op)
    {
      status := Ok;
      if op == S.NOT {
        Not();
      } else if op == S.POP {
        var _ := PopData();
      } else if op == S.DUP {
        Dup();
      } else if op == S.DUP2 {
        status := Dup2();
      } else if op == S.SWAP {
        Swap();
      } else if op == S.PICK {
        status := Pick();
      } else {
        Height();
      }
    }

    /** The NOT case. */
    method Not()
      requires Valid()
      modifies this, stack
      ensures Valid()
      ensures Snapshot() == S.Not(old(Snapshot()))
    {
      var a := PopData();
      PushData(S.Flag(a == 0));
    }

    /** The DUP case. */
    method Dup()
      requires Valid()
      modifies this, stack
      ensures Valid()
      ensures Snapshot() == S.Dup(old(Snapshot()))
    {
      PushData(stack[data]);
    }

    /** The HEIGHT case. */
    method Height()
      requires Valid()
      modifies this, stack
      ensures Valid()
      ensures Snapshot() == S.Height(old(Snapshot()))
    {
      PushData(data + 1);
    }

    /** The CALL case. */
    method Call() returns (status: Status)
      requires Valid()
      modifies this, stack
      ensures Valid()
      ensures S.Outcome(status, Snapshot()) == S.Call(old(Snapshot()))
    {
      status := PushCall(nextPc);
      if status.Ok? {
        nextPc := PopData();
      }
    }

    /** The RET case. */
    method Ret() returns (status: Status)
      requires Valid()
      modifies this
      ensures Valid()
      ensures S.Outcome(status, Snapshot()) == S.Ret(old(Snapshot()))
    {
      if !(0 <= call - 1 && call < S.STACK) {
        return Failed(StackIndexOutOfRange);
      }
      nextPc := PopCall();
      status := Ok;
    }

    /** The BRZ case. */
    method Brz()
      requires Valid()
      modifies this
      ensures Valid()
      ensures Snapshot() == S.Brz(old(Snapshot()))
    {
      var b := PopData();
      var c := PopData();
      if c == 0 {
        nextPc := pc + b;
      }
    }

    /** The cases that choose next_pc or halt. */
    method ExecuteControl(op: S.Op) returns (status: Status)
      requires Valid() && S.Control(op)
      modifies this, stack
      ensures Valid()
      ensures S.Outcome(status, Snapshot()) == S.ControlOp(old(Snapshot()), op)
    {
      status := Ok;
      if op == S.JMP {
        Jmp();
      } else if op == S.JMPR {
        Jmpr();
      } else if op == S.CALL {
        status := Call();
      } else if op == S.RET {
        status := Ret();
      } else if op == S.BRZ {
        Brz();
      } else {
        halted := true;
      }
    }

    /** The JMP case. */
    method Jmp()
      requires Valid()
      modifies this
      ensures Valid()
      ensures Snapshot() == S.Jmp(old(Snapshot()))
    {
      nextPc := PopData();
    }

    /** The JMPR case. */
    method Jmpr()
      requires Valid()
      modifies this
      ensures Valid()
      ensures Snapshot() == S.Jmpr(old(Snapshot()))
    {
      var d := PopData();
      nextPc := pc + d;
    }

    /** The value the load cases read at b: `peek(b)`, `peek(b) | peek(b+1) << 8` or
        `peek(b) | peek(b+1) << 8 | peek(b+2) << 16`. */
    method LoadValue(op: S.Op, b: int) returns (v: int)
      requires Valid() && (op == S.LOAD || op == S.LOAD16 || op == S.LOAD24)
      ensures v == if op == S.LOAD then Read(mem[..], b)
        else if op == S.LOAD16 then Read16(mem[..], b)
        else Read24(mem[..], b)
    {
      var v0: int := Peek(b);
      v := v0;
      if op != S.LOAD {
        var v1: int := Peek(b + 1);
        v := v + 256 * v1;
        if op == S.LOAD24 {
          var v2: int := Peek(b + 2);
          v := v + 65536 * v2;
        }
      }
    }

    /** The store cases, once the address and the value are popped: the low byte first,
        then `a >> 8` and `a >> 16`. */
    method Store(op: S.Op, b: int, a: Word)
      requires Valid() && (op == S.STORE || op == S.STORE16 || op == S.STORE24)
      modifies mem
      ensures Valid()
      ensures Snapshot() == old(Snapshot()).(mem :=
        if op == S.STORE then Write(old(mem[..]), b, a)
        else if op == S.STORE16 then Write16(old(mem[..]), b, a)
        else Write24(old(mem[..]), b, a))
    {
      ghost var m := mem[..];
      Poke(b, a);
      if op == S.STORE16 {
        Poke(b + 1, a / 256);
        Write16Bytes(m, b, a);
      } else if op == S.STORE24 {
        Poke(b + 1, a / 256);
        Poke(b + 2, a / 65536);
        Write24Bytes(m, b, a);
      }
    }

    /** The load and store cases. */
    method ExecuteAccess(op: S.Op)
      requires Valid() && S.Access(op)
      modifies this, stack, mem
      ensures Valid()
      ensures Snapshot() == S.AccessOp(old(Snapshot()), op)
    {
      if op == S.LOAD || op == S.LOAD16 || op == S.LOAD24 {
        ExecuteLoad(op);
      } else {
        ExecuteStore(op);
      }
    }

    /** LOAD, LOAD16 and LOAD24: pop the address, push what is read there. */
    method ExecuteLoad(op: S.Op)
      requires Valid() && (op == S.LOAD || op == S.LOAD16 || op == S.LOAD24)
      modifies this, stack
      ensures Valid()
      ensures Snapshot() == S.AccessOp(old(Snapshot()), op)
    {
      ghost var s := Snapshot();
      var b: int := PopData();
      ghost var s1 := Snapshot();
      assert (b, s1) == S.PopData(s);
      var v := LoadValue(op, b);
      PushData(v);
    }

    /** STORE, STORE16 and STORE24: pop the address, then the value, and write it. */
    method ExecuteStore(op: S.Op)
      requires Valid() && (op == S.STORE || op == S.STORE16 || op == S.STORE24)
      modifies this, mem
      ensures Valid()
      ensures Snapshot() == S.AccessOp(old(Snapshot()), op)
    {
      ghost var s := Snapshot();
      var b: int := PopData();
      ghost var s1 := Snapshot();
      assert (b, s1) == S.PopData(s);
      var a := PopData();
      ghost var s2 := Snapshot();
      assert (a, s2) == S.PopData(s1);
      Store(op, b, a);
    }

    /** The interrupt-flag and interrupt-vector cases. */
    method ExecuteInterrupts(op: S.Op)
      requires Valid() && S.Interrupts(op)
      modifies this
      ensures Valid()
      ensures Snapshot() == S.InterruptOp(old(Snapshot()), op)
    {
      if op == S.INTON {
        intEnabled := true;
      } else if op == S.INTOFF {
        intEnabled := false;
      } else {
        intVector := PopData();
      }
    }

    /** The FRAME case. */
    method Frame() returns (status: Status)
      requires Valid()
      modifies this, stack
      ensures Valid()
      ensures S.Outcome(status, Snapshot()) == S.Frame(old(Snapshot()))
    {
      var n := PopData();
      if !(0 <= call - 2 < S.STACK) {
        return Failed(StackIndexOutOfRange);
      }
      stack[call - 2] := n;
      status := Ok;
    }

    /** The LOCAL case. */
    method Local() returns (status: Status)
      requires Valid()
      modifies this, stack
      ensures Valid()
      ensures S.Outcome(status, Snapshot()) == S.Local(old(Snapshot()))
    {
      status := Failed(StackIndexOutOfRange);
      var b := PopData();
      if !(0 <= call - 2 < S.STACK) {
        return;
      }
      if stack[call - 2] > b {
        if !(0 <= call - 3 - b < S.STACK) {
          return;
        }
        PushData(stack[call - 3 - b]);
      } else {
        PushData(0);
      }
      status := Ok;
    }

    /** The SETLOCAL case. */
    method SetLocal() returns (status: Status)
      requires Valid()
      modifies this, stack
      ensures Valid()
      ensures S.Outcome(status, Snapshot()) == S.SetLocal(old(Snapshot()))
    {
      status := Failed(StackIndexOutOfRange);
      var b := PopData();
      var a := PopData();
      if !(0 <= call - 2 < S.STACK) {
        return;
      }
      if stack[call - 2] > b {
        if !(0 <= call - 3 - b < S.STACK) {
          return;
        }
        stack[call - 3 - b] := a;
      }
      status := Ok;
    }

    /** The frame cases. */
    method ExecuteFrame(op: S.Op) returns (status: Status)
      requires Valid() && S.Framing(op)
      modifies this, stack
      ensures Valid()
      ensures S.Outcome(status, Snapshot()) == S.FrameOp(old(Snapshot()), op)
    {
      if op == S.FRAME {
        status := Frame();
      } else if op == S.LOCAL {
        status := Local();
      } else {
        status := SetLocal();
      }
    }

    /** `cpu_execute(instruction)`: the switch, then `pc = next_pc`. */
    method Execute(code: int) returns (status: Status)
      requires Valid()
      modifies this, stack, mem
      ensures Valid()
      ensures S.Outcome(status, Snapshot()) == S.Execute(decode, old(Snapshot()), code)
    {
      ghost var s := Snapshot();
      status := Ok;
      var decoded := decode(code);
      if decoded.Some? {
        var op := decoded.value;
        if S.Binary(op) {
          status := ExecuteBinary(op);
        } else if S.Shift(op) {
          status := ExecuteShift(op);
        } else if S.Shuffle(op) {
          status := ExecuteShuffle(op);
        } else if S.Control(op) {
          status := ExecuteControl(op);
        } else if S.Access(op) {
          ExecuteAccess(op);
        } else if S.Interrupts(op) {
          ExecuteInterrupts(op);
        } else if S.Framing(op) {
          status := ExecuteFrame(op);
        } else {
          // PUSH (done by the fetch) and RAND (unimplemented).
          assert S.Dispatch(s, op) == S.Continue(s);
        }
      }
      if status.Ok? {
        pc := nextPc;
      }
      assert S.Outcome(status, Snapshot()) == S.Execute(decode, s, code);
    }

    /** The body of the loop in `cpu_run`: `cpu_execute(cpu, cpu_fetch(cpu))`. */
    method Cycle() returns (status: Status)
      requires Valid()
      modifies this, stack, mem
      ensures Valid()
      ensures S.Outcome(status, Snapshot()) == S.Cycle(decode, old(Snapshot()))
    {
      var code := Fetch();
      status := Execute(code);
    }

    /** One turn of the loop in `cpu_run()` on a running CPU, stated against the run it
        belongs to. */
    method Turn(ghost fuel: nat) returns (status: Status)
      requires Valid() && !halted && fuel > 0
      modifies this, stack, mem
      ensures Valid()
      ensures status.Ok? ==> S.Run(decode, old(Snapshot()), fuel) == S.Run(decode, Snapshot(), fuel - 1)
      ensures !status.Ok? ==> S.Run(decode, old(Snapshot()), fuel) == S.Outcome(status, Snapshot())
    {
      ghost var s := Snapshot();
      status := Cycle();
      S.RunCycle(decode, s, Snapshot(), status, fuel);
    }

    /** `cpu_run()` for at most `fuel` turns of its loop. */
    method Run(fuel: nat) returns (status: Status)
      requires Valid()
      modifies this, stack, mem
      ensures Valid()
      ensures S.Outcome(status, Snapshot()) == S.Run(decode, old(Snapshot()), fuel)
    {
      ghost var goal := S.Run(decode, Snapshot(), fuel);
      status := Ok;
      var left := fuel;
      while !halted && left > 0
        invariant Valid() && status == Ok
        invariant S.Run(decode, Snapshot(), left) == goal
        decreases left
      {
        status := Turn(left);
        if !status.Ok? {
          return;
        }
        left := left - 1;
      }
    }
  }
}
