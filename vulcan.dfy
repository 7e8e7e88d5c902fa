/**
 * `class Vulcan` of wasm/Vulcan.cpp: the memory buffer is an array updated in place and
 * the registers are fields. Every member function is proved to leave the object in the
 * state the functions of VulcanSpec describe.
 */
module VulcanCpu {
  import opened Words
  import opened Memory
  import opened Opcodes
  import S = VulcanSpec

  class Vulcan {
    const mem: array<Byte>
    var intEnabled: bool
    var intVector: int
    var pc: int
    var dp: int
    var sp: int
    var bottomDp: int
    var topSp: int
    var halted: bool
    var nextPc: int

    /** The buffer has the machine's memory size. */
    ghost predicate Valid()
      reads this
    {
      mem.Length == MEM
    }

    /** The object as a value. */
    function Snapshot(): S.State
      reads this, mem
      requires Valid()
    {
      S.State(mem[..], intEnabled, intVector, pc, dp, sp, bottomDp, topSp, halted, nextPc)
    }

    /** `Vulcan()` / `Vulcan(seed)` followed by `init`: the buffer is filled byte by byte
        from `fill`, which stands for the source's `rand() % 256` values. */
    constructor (fill: Mem)
      ensures Valid() && fresh(mem)
      ensures Snapshot() == S.Initial(fill)
    {
      var buffer := new Byte[MEM];
      var n := 0;
      while n < MEM
        invariant 0 <= n <= MEM
        invariant buffer[..n] == fill[..n]
      {
        buffer[n] := fill[n];
        n := n + 1;
      }
      mem := buffer;
      sp, dp := 0, 0;
      intEnabled, intVector := false, 0;
      pc, bottomDp, topSp, halted, nextPc := 0, 0, 0, false, 0;
    }

    /** `peek(addr)`. */
    method Peek(addr: int) returns (value: Byte)
      requires Valid()
      ensures value == Read(Snapshot().mem, addr)
    {
      value := mem[Addr(addr)];
    }

    /** `poke(addr, value)`; the conversion of the argument to `unsigned char` is done
        here rather than at each call. */
    method Poke(addr: int, value: int)
      requires Valid()
      modifies mem
      ensures Valid()
      ensures Snapshot() == old(Snapshot()).(mem := Write(old(Snapshot()).mem, addr, value))
    {
      mem[Addr(addr)] := value % 256;
    }

    /** The two reads of LOAD16, `peek(b) | peek(b+1) << 8`. */
    method Peek16(addr: int) returns (value: int)
      requires Valid()
      ensures value == Read16(Snapshot().mem, addr)
    {
      var b0 := Peek(addr);
      var b1 := Peek(addr + 1);
      value := b0 as int + 256 * (b1 as int);
    }

    /** The two writes of STORE16, `poke(b, a); poke(b+1, a >> 8)`. */
    method Poke16(addr: int, value: int)
      requires Valid()
      modifies mem
      ensures Valid()
      ensures Snapshot() == old(Snapshot()).(mem := Write16(old(Snapshot()).mem, addr, value))
    {
      Write16Bytes(mem[..], addr, value);
      Poke(addr, value);
      Poke(addr + 1, value / 256);
    }

    /** `peek24(addr)`. */
    method Peek24(addr: int) returns (value: Word)
      requires Valid()
      ensures value == Read24(Snapshot().mem, addr)
    {
      var b0: int, b1: int, b2: int;
      b0 := Peek(addr);
      b1 := Peek(addr + 1);
      b2 := Peek(addr + 2);
      // The shifted bytes occupy disjoint bits, so or-ing them is adding them.
      value := b0 + b1 * 256 + b2 * 65536;
    }

    /** `poke24(addr, value)`. */
    method Poke24(addr: int, value: int)
      requires Valid()
      modifies mem
      ensures Valid()
      ensures Snapshot() == old(Snapshot()).(mem := Write24(old(Snapshot()).mem, addr, value))
    {
      Write24Bytes(mem[..], addr, value);
      Poke(addr, value);
      Poke(addr + 1, value / 256);
      Poke(addr + 2, value / 65536);
    }

    /** `push_data(word)`. */
    method PushData(word: int)
      requires Valid()
      modifies this, mem
      ensures Valid()
      ensures Snapshot() == S.PushData(old(Snapshot()), word)
    {
      var w := Mask24(word);
      Poke24(dp, w);
      dp := dp + 3;
    }

    /** `pop_data()`. */
    method PopData() returns (word: Word)
      requires Valid()
      modifies this
      ensures Valid()
      ensures (word, Snapshot()) == S.PopData(old(Snapshot()))
    {
      dp := dp - 3;
      word := Peek24(dp);
    }

    /** `push_call(val)`. */
    method PushCall(val: int)
      requires Valid()
      modifies this, mem
      ensures Valid()
      ensures Snapshot() == S.PushCall(old(Snapshot()), val)
    {
      sp := sp - 3;
      Poke24(sp, Mask24(val));
    }

    /** `pop_call()`. */
    method PopCall() returns (word: Word)
      requires Valid()
      modifies this
      ensures Valid()
      ensures (word, Snapshot()) == S.PopCall(old(Snapshot()))
    {
      word := Peek24(sp);
      sp := sp + 3;
    }

    /** `loadROM(start, rom, length)`, length being `|rom|`: `memcpy` into the buffer with
        no masking, so the caller must keep the range inside memory. */
    method LoadRom(start: int, rom: seq<Byte>)
      requires Valid() && 0 <= start && start + |rom| <= MEM
      modifies mem
      ensures Valid()
      ensures Snapshot() == S.LoadRom(old(Snapshot()), start, rom)
    {
      var i := 0;
      while i < |rom|
        invariant 0 <= i <= |rom|
        invariant forall j :: 0 <= j < MEM ==>
          mem[j] == if start <= j < start + i then rom[j - start] else old(mem[j])
      {
        mem[start + i] := rom[i];
        i := i + 1;
      }
      ghost var m := old(mem[..]);
      assert mem[..] == m[..start] + rom + m[start + |rom|..];
    }

    /** `reset()`. */
    method Reset()
      requires Valid()
      modifies this
      ensures Valid()
      ensures Snapshot() == S.Reset(old(Snapshot()))
    {
      dp := 256;
      bottomDp := 256;
      topSp := 1024;
      sp := 1024;
      pc := 1024;
      halted := false;
      nextPc := -1;
    }

    /** The literal-assembly loop of `fetch`: `arg += peek(pc + n) << (8 * (n - 1))` for
        n = 1..argLength, which reads memory and changes nothing. */
    method ReadLiteral(argLength: nat) returns (arg: int)
      requires Valid() && argLength <= 3
      ensures arg == Literal(Snapshot().mem, pc, argLength)
    {
      arg := 0;
      var n := 1;
      while n <= argLength
        invariant 1 <= n <= argLength + 1
        invariant arg == Literal(mem[..], pc, n - 1)
      {
        var b: int := Peek(pc + n);
        b := b * Pow2(8 * (n - 1));
        arg := arg + b;
        n := n + 1;
      }
    }

    /** `fetch()`: returns the opcode field of the byte at pc. */
    method Fetch() returns (code: int)
      requires Valid()
      modifies this, mem
      ensures Valid()
      ensures (code, Snapshot()) == S.Fetch(old(Snapshot()))
    {
      var instruction := Peek(pc);
      var argLength := LengthField(instruction);
      code := OpcodeField(instruction);
      if argLength > 0 {
        var arg := ReadLiteral(argLength);
        PushData(arg);
      }
      if code != Encode(HLT) {
        nextPc := pc + argLength + 1;
      }
    }

    /** The two-operand cases of `execute`. */
    method ExecuteBinary(op: Opcode) returns (status: Status)
      requires Valid() && S.Binary(op)
      modifies this, mem
      ensures Valid()
      ensures S.Outcome(status, Snapshot()) == S.BinaryOp(old(Snapshot()), op)
    {
      ghost var s := Snapshot();
      status := Ok;
      var b := PopData();
      var a := PopData();
      if S.DividesByZero(op, b) {
        status := Failed(DivideByZero);
      } else {
        PushData(S.Combine(op, a, b));
      }
      assert S.Outcome(status, Snapshot()) == S.BinaryOp(s, op);
    }

    /** The three shift cases; ARSHIFT on a negative word runs the source's loop. */
    method ExecuteShift(op: Opcode) returns (status: Status)
      requires Valid() && S.Shift(op)
      modifies this, mem
      ensures Valid()
      ensures S.Outcome(status, Snapshot()) == S.ShiftOp(old(Snapshot()), op)
    {
      ghost var s := Snapshot();
      status := Ok;
      var b := PopData();
      var a := PopData();
      if op == ARSHIFT && a >= SIGN {
        var r := ArShiftLoop(a, b);
        PushData(r);
      } else if b >= 32 {
        status := Failed(ShiftTooWide);
      } else if op == LSHIFT {
        PushData(Shl(a, b));
      } else {
        PushData(Shr(a, b));
      }
      assert S.Outcome(status, Snapshot()) == S.ShiftOp(s, op);
    }

    /** `push_data(peek24(dp - depth))`. */
    method Copy(depth: int)
      requires Valid()
      modifies this, mem
      ensures Valid()
      ensures Snapshot() == S.Copy(old(Snapshot()), depth)
    {
      var w := Peek24(dp - depth);
      PushData(w);
    }

    /** The NOT case. */
    method Not()
      requires Valid()
      modifies this, mem
      ensures Valid()
      ensures Snapshot() == S.Not(old(Snapshot()))
    {
      var a := PopData();
      PushData(S.Flag(a == 0));
    }

    /** The DUP2 case. */
    method Dup2()
      requires Valid()
      modifies this, mem
      ensures Valid()
      ensures Snapshot() == S.Dup2(old(Snapshot()))
    {
      Copy(6);
      Copy(6);
    }

    /** The SWAP case. */
    method Swap()
      requires Valid()
      modifies this, mem
      ensures Valid()
      ensures Snapshot() == S.Swap(old(Snapshot()))
    {
      var b := PopData();
      var a := PopData();
      PushData(b);
      PushData(a);
    }

    /** The PICK case. */
    method Pick()
      requires Valid()
      modifies this, mem
      ensures Valid()
      ensures Snapshot() == S.Pick(old(Snapshot()))
    {
      var b: int := PopData();
      Copy((b + 1) * 3);
    }

    /** NOT and the stack-shuffling cases. */
    method ExecuteShuffle(op: Opcode)
      requires Valid() && S.Shuffle(op)
      modifies this, mem
      ensures Valid()
      ensures Snapshot() == S.ShuffleOp(old(Snapshot()), op)
    {
      if op == NOT {
        Not();
      } else if op == POP {
        var _ := PopData();
      } else if op == DUP {
        Copy(3);
      } else if op == DUP2 {
        Dup2();
      } else if op == SWAP {
        Swap();
      } else {
        Pick();
      }
    }

    /** The JMPR case. */
    method Jmpr()
      requires Valid()
      modifies this
      ensures Valid()
      ensures Snapshot() == S.Jmpr(old(Snapshot()))
    {
      var d := PopData();
      nextPc := pc + d;
    }

    /** The CALL case. */
    method Call()
      requires Valid()
      modifies this, mem
      ensures Valid()
      ensures Snapshot() == S.Call(old(Snapshot()))
    {
      PushCall(nextPc);
      nextPc := PopData();
    }

    /** The BRZ and BRNZ cases. */
    method Branch(op: Opcode)
      requires Valid() && (op == BRZ || op == BRNZ)
      modifies this
      ensures Valid()
      ensures Snapshot() == S.Branch(old(Snapshot()), op)
    {
      var d := PopData();
      var c := PopData();
      if (op == BRZ && c == 0) || (op == BRNZ && c != 0) {
        nextPc := pc + ToSigned(d);
      }
    }

    /** The cases that choose next_pc or halt. */
    method ExecuteControl(op: Opcode)
      requires Valid() && S.Control(op)
      modifies this, mem
      ensures Valid()
      ensures Snapshot() == S.ControlOp(old(Snapshot()), op)
    {
      ghost var s := Snapshot();
      if op == JMP {
        nextPc := PopData();
        assert Snapshot() == S.Jmp(s);
      } else if op == JMPR {
        Jmpr();
      } else if op == CALL {
        Call();
      } else if op == RET {
        nextPc := PopCall();
        assert Snapshot() == S.Ret(s);
      } else if op == BRZ || op == BRNZ {
        Branch(op);
      } else {
        halted := true;
      }
    }

    /** The load and store cases. */
    method ExecuteAccess(op: Opcode) returns (status: Status)
      requires Valid() && S.Access(op)
      modifies this, mem
      ensures Valid()
      ensures S.Outcome(status, Snapshot()) == S.AccessOp(old(Snapshot()), op)
    {
      ghost var s := Snapshot();
      status := Ok;
      var b: int := PopData();
      if op == LOAD {
        var v := Peek(b);
        PushData(v);
        assert S.Outcome(status, Snapshot()) == S.AccessOp(s, op);
      } else if op == LOAD16 {
        var v := Peek16(b);
        PushData(v);
        assert S.Outcome(status, Snapshot()) == S.AccessOp(s, op);
      } else if op == LOAD24 {
        var v := Peek24(b);
        PushData(v);
        assert S.Outcome(status, Snapshot()) == S.AccessOp(s, op);
      } else {
        var a: int := PopData();
        if op == STORE {
          Poke(b, a);
        } else if op == STORE16 {
          Poke16(b, a);
        } else {
          Poke24(b, a);
        }
        assert S.Outcome(status, Snapshot()) == S.AccessOp(s, op);
      }
    }

    /** The SP case. */
    method PushSp()
      requires Valid()
      modifies this, mem
      ensures Valid()
      ensures Snapshot() == S.PushSp(old(Snapshot()))
    {
      var d: int := PopData();
      PushData(sp + d);
    }

    /** The SETSDP case as evidently intended: both words are popped before either register
        is set. `execute` uses this version; `SetSdpAsWritten` is the source's order. */
    method SetSdp()
      requires Valid()
      modifies this
      ensures Valid()
      ensures Snapshot() == S.SetSdp(old(Snapshot()))
    {
      var d := PopData();
      var p := PopData();
      dp, sp := d, p;
      bottomDp, topSp := d, p;
    }

    /** The SETSDP case in the source's own order, `dp = pop_data(); sp = pop_data();`:
        the second pop reads below the dp the first assignment installed. */
    method SetSdpAsWritten()
      requires Valid()
      modifies this
      ensures Valid()
      ensures Snapshot() == S.SetSdpAsWritten(old(Snapshot()))
    {
      dp := PopData();
      sp := PopData();
      bottomDp := dp;
      topSp := sp;
    }

    /** The INCSP case. */
    method IncSp()
      requires Valid()
      modifies this
      ensures Valid()
      ensures Snapshot() == S.IncSp(old(Snapshot()))
    {
      var d := PopData();
      sp := sp + d;
    }

    /** The DECSP case. */
    method DecSp()
      requires Valid()
      modifies this, mem
      ensures Valid()
      ensures Snapshot() == S.DecSp(old(Snapshot()))
    {
      var d := PopData();
      sp := sp - d;
      PushData(sp);
    }

    /** The interrupt-flag, interrupt-vector and stack-register cases. */
    method ExecuteRegisters(op: Opcode)
      requires Valid() && S.Registers(op)
      modifies this, mem
      ensures Valid()
      ensures Snapshot() == S.RegistersOp(old(Snapshot()), op)
    {
      ghost var s := Snapshot();
      if op == INTON {
        intEnabled := true;
      } else if op == INTOFF {
        intEnabled := false;
      } else if op == SETIV {
        intVector := PopData();
        assert Snapshot() == S.SetIv(s);
      } else if op == SP {
        PushSp();
      } else if op == DP {
        PushData(sp);
        assert Snapshot() == S.PushDp(s);
      } else if op == SETSDP {
        SetSdp();
      } else if op == INCSP {
        IncSp();
      } else {
        DecSp();
      }
    }

    /** `execute(instruction)`: the switch, then `pc = next_pc`. */
    method Execute(code: int) returns (status: Status)
      requires Valid()
      modifies this, mem
      ensures Valid()
      ensures S.Outcome(status, Snapshot()) == S.Execute(old(Snapshot()), code)
    {
      ghost var s := Snapshot();
      status := Ok;
      var decoded := Decode(code);
      if decoded.Some? {
        var op := decoded.value;
        if S.Binary(op) {
          status := ExecuteBinary(op);
        } else if S.Shift(op) {
          status := ExecuteShift(op);
        } else if S.Shuffle(op) {
          ExecuteShuffle(op);
        } else if S.Control(op) {
          ExecuteControl(op);
        } else if S.Access(op) {
          status := ExecuteAccess(op);
        } else if S.Registers(op) {
          ExecuteRegisters(op);
        } else {
          // PUSH (done by fetch), RAND (unimplemented) and DEBUG (no case) do nothing.
          assert S.Dispatch(s, op) == S.Continue(s);
        }
      }
      if status.Ok? {
        pc := nextPc;
      }
      assert S.Outcome(status, Snapshot()) == S.Execute(s, code);
    }

    /** `tick()`: one fetch-execute cycle unless halted. */
    method Tick() returns (status: Status)
      requires Valid()
      modifies this, mem
      ensures Valid()
      ensures S.Outcome(status, Snapshot()) == S.Tick(old(Snapshot()))
    {
      status := Ok;
      if !halted {
        var code := Fetch();
        status := Execute(code);
      }
    }

    /** `stackSize()`. */
    method StackSize() returns (n: int)
      requires Valid()
      ensures n == S.StackSize(Snapshot())
    {
      n := TruncDiv(dp - bottomDp, 3);
    }

    /** `getStack(index)`. */
    method GetStack(index: int) returns (w: Word)
      requires Valid()
      ensures w == S.GetStack(Snapshot(), index)
    {
      w := Peek24(dp - 3 - index * 3);
    }

    /** `returnSize()`. */
    method ReturnSize() returns (n: int)
      requires Valid()
      ensures n == S.ReturnSize(Snapshot())
    {
      n := TruncDiv(topSp - sp, 3);
    }

    /** `getReturn(index)`. */
    method GetReturn(index: int) returns (w: Word)
      requires Valid()
      ensures w == S.GetReturn(Snapshot(), index)
    {
      w := Peek24(sp + index * 3);
    }
  }
}
