/**
 * The `Cpu` of cvemu/cvemu.c: memory is an array updated in place, the registers, the
 * device table and the hook count are fields, and `trace` records the hook calls made.
 * Every `cpu_*` function, and the CPU-side logic of the Lua methods that reset, install
 * devices, list the stack and interrupt, is proved to leave the object in the state the
 * functions of CvEmuSpec describe.
 */
module CvEmuCpu {
  import opened Words
  import opened Memory
  import Opcodes
  import S = CvEmuSpec

  class Cpu {
    /** The opcode numbering and the answers of the peek hooks. */
    const env: S.Env
    const mem: array<Byte>
    var devices: seq<S.Device>
    var numHooks: int
    var intEnabled: bool
    var intVector: int
    var pc: int
    var dp: int
    var bottomDp: int
    var sp: int
    var halted: bool
    var nextPc: int
    var trace: seq<S.Event>

    /** The buffer has the machine's memory size. */
    ghost predicate Valid()
      reads this
    {
      mem.Length == MEM
    }

    /** The object as a value. */
    function Snapshot(): S.State
      reads this, mem
      requires Valid()
    {
      S.State(mem[..], devices, numHooks, intEnabled, intVector, pc, dp, bottomDp, sp,
              halted, nextPc, trace)
    }

    /** `newCpu`: the buffer is filled byte by byte from `fill`, which stands for the
        source's `rand() % 256` values, and `cpu_reset` sets the registers. */
    constructor (fill: Mem, env: S.Env)
      ensures Valid() && fresh(mem) && this.env == env
      ensures Snapshot() == S.New(fill)
    {
      this.env := env;
      var buffer := new Byte[MEM];
      var n := 0;
      while n < MEM
        invariant 0 <= n <= MEM
        invariant buffer[..n] == fill[..n]
      {
        buffer[n] := fill[n];
        n := n + 1;
      }
      mem := buffer;
      sp, dp := 0, 0;
      intEnabled, intVector := false, 0;
      devices, numHooks := [], 0;
      pc, bottomDp, halted, nextPc := 0, 0, false, 0;
      trace := [];
      new;
      CpuReset();
    }

    /** `cpu_reset`. */
    method CpuReset()
      requires Valid()
      modifies this
      ensures Valid()
      ensures Snapshot() == S.CpuReset(old(Snapshot()))
    {
      dp := 256;
      bottomDp := 256;
      sp := 1024;
      pc := 1024;
      halted := false;
      intEnabled := false;
      intVector := 0;
      nextPc := -1;
    }

    /** The hook calls of a scan of the table for a hook that takes no arguments. */
    method CallHooks(h: S.Hook)
      requires Valid()
      modifies this
      ensures Valid()
      ensures Snapshot() == old(Snapshot()).(trace := old(trace) + S.HookCalls(devices, h))
    {
      var calls := [];
      var n := 0;
      while n < |devices|
        invariant 0 <= n <= |devices|
        invariant calls == S.HookCalls(devices[..n], h)
      {
        var slot := S.Slot(devices[n], h);
        if slot != 0 {
          calls := calls + [S.Event(h, slot, [])];
        }
        assert devices[..n + 1][..n] == devices[..n];
        n := n + 1;
      }
      assert devices[..n] == devices;
      trace := trace + calls;
    }

    /** `cvemu_reset`: `cpu_reset`, then every reset hook in table order. */
    method Reset()
      requires Valid()
      modifies this
      ensures Valid()
      ensures Snapshot() == S.Reset(old(Snapshot()))
    {
      CpuReset();
      CallHooks(S.ResetHook);
    }

    /** `cpu_tick_devices`. */
    method TickDevices()
      requires Valid()
      modifies this
      ensures Valid()
      ensures Snapshot() == S.TickDevices(old(Snapshot()))
    {
      if |devices| > 0 {
        CallHooks(S.TickHook);
      }
    }

    /** `store_hook`: returns the slot (0 for a missing hook) and whether it fitted. */
    method StoreHook(present: bool) returns (slot: nat, ok: bool)
      requires Valid()
      modifies this
      ensures Valid()
      ensures (numHooks, slot, ok) == S.StoreHook(old(numHooks), present)
      ensures Snapshot() == old(Snapshot()).(numHooks := numHooks)
    {
      if !present {
        return 0, true;
      }
      numHooks := numHooks + 1;
      if 1 <= numHooks <= S.MAX_HOOKS {
        return numHooks, true;
      }
      return 0, false;
    }

    /** `cvemu_install_device(start, end, hooks)`. */
    method InstallDevice(start: int, end: int, reset: bool, peek: bool, poke: bool, tick: bool)
      returns (result: S.Installed)
      requires Valid()
      modifies this
      ensures Valid()
      ensures (result, Snapshot()) == S.InstallDevice(old(Snapshot()), start, end, reset, peek, poke, tick)
    {
      if |devices| == S.MAX_DEVICES {
        return S.TableFull;
      }
      var r, p, q, t: nat;
      var ok: bool;
      r, ok := StoreHook(reset);
      if !ok {
        return S.OutOfHooks;
      }
      p, ok := StoreHook(peek);
      if !ok {
        return S.OutOfHooks;
      }
      q, ok := StoreHook(poke);
      if !ok {
        return S.OutOfHooks;
      }
      t, ok := StoreHook(tick);
      if !ok {
        return S.OutOfHooks;
      }
      devices := devices + [S.Device(start, end, r, p, q, t)];
      result := S.Installed;
    }

    /** `cpu_peek(addr, L)`, `lua` saying whether L is given: the scan of the device
        table stops at the first device whose peek hook claims the address. */
    method Peek(addr: int, lua: bool) returns (value: Byte)
      requires Valid()
      modifies this
      ensures Valid()
      ensures (value, Snapshot()) == S.Peek(env, old(Snapshot()), addr, lua)
    {
      var a := Addr(addr);
      if lua {
        var n := 0;
        while n < |devices|
          invariant 0 <= n <= |devices|
          invariant S.FirstClaimant(devices, S.PeekHook, a, n) == S.FirstClaimant(devices, S.PeekHook, a, 0)
        {
          var d := devices[n];
          if d.peek != 0 && d.start % S.UINT <= a <= d.end % S.UINT {
            var offset := a - d.start % S.UINT;
            var answer := env.answer(trace, d.peek, offset);
            trace := trace + [S.Event(S.PeekHook, d.peek, [offset])];
            return answer % 256;
          }
          n := n + 1;
        }
      }
      value := mem[a];
    }

    /** `cpu_poke(addr, value, L)`: the value is converted to `unsigned char`; the first
        device whose poke hook claims the address receives it instead of memory. */
    method Poke(addr: int, value: int, lua: bool)
      requires Valid()
      modifies this, mem
      ensures Valid()
      ensures Snapshot() == S.Poke(old(Snapshot()), addr, value, lua)
    {
      var a := Addr(addr);
      var v := value % 256;
      if lua {
        var n := 0;
        while n < |devices|
          invariant 0 <= n <= |devices|
          invariant S.FirstClaimant(devices, S.PokeHook, a, n) == S.FirstClaimant(devices, S.PokeHook, a, 0)
        {
          var d := devices[n];
          if d.poke != 0 && d.start % S.UINT <= a <= d.end % S.UINT {
            trace := trace + [S.Event(S.PokeHook, d.poke, [a - d.start % S.UINT, v])];
            return;
          }
          n := n + 1;
        }
      }
      mem[a] := v;
    }

    /** `cpu_peek24(addr, L)`. */
    method Peek24(addr: int, lua: bool) returns (value: Word)
      requires Valid()
      modifies this
      ensures Valid()
      ensures (value, Snapshot()) == S.Peek24(env, old(Snapshot()), addr, lua)
    {
      var b0: int, b1: int, b2: int;
      ghost var s0 := Snapshot();
      b0 := Peek(addr, lua);
      ghost var s1 := Snapshot();
      assert (b0, s1) == S.Peek(env, s0, addr, lua);
      b1 := Peek(addr + 1, lua);
      ghost var s2 := Snapshot();
      assert (b1, s2) == S.Peek(env, s1, addr + 1, lua);
      b2 := Peek(addr + 2, lua);
      assert (b2, Snapshot()) == S.Peek(env, s2, addr + 2, lua);
      // The shifted bytes occupy disjoint bits, so or-ing them is adding them.
      value := b0 + 256 * b1 + 65536 * b2;
    }

    /** `cpu_poke24(addr, value, L)`. */
    method Poke24(addr: int, value: int, lua: bool)
      requires Valid()
      modifies this, mem
      ensures Valid()
      ensures Snapshot() == S.Poke24(old(Snapshot()), addr, value, lua)
    {
      Poke(addr, value, lua);
      Poke(addr + 1, value / 256, lua);
      Poke(addr + 2, value / 65536, lua);
    }

    /** `cpu_push_data(word)`. */
    method PushData(word: int)
      requires Valid()
      modifies this, mem
      ensures Valid()
      ensures Snapshot() == S.PushData(old(Snapshot()), word)
    {
      var w := Mask24(word);
      S.MemoryOnly(env, Snapshot(), dp, w);
      Poke24(dp, w, false);
      dp := dp + 3;
    }

    /** `cpu_pop_data()`. */
    method PopData() returns (word: Word)
      requires Valid()
      modifies this
      ensures Valid()
      ensures (word, Snapshot()) == S.PopData(old(Snapshot()))
    {
      dp := dp - 3;
      S.MemoryOnly(env, Snapshot(), dp, 0);
      word := Peek24(dp, false);
    }

    /** `cpu_push_call(val)`. */
    method PushCall(val: int)
      requires Valid()
      modifies this, mem
      ensures Valid()
      ensures Snapshot() == S.PushCall(old(Snapshot()), val)
    {
      sp := sp - 3;
      S.MemoryOnly(env, Snapshot(), sp, Mask24(val));
      Poke24(sp, Mask24(val), false);
    }

    /** `cpu_pop_call()`. */
    method PopCall() returns (word: Word)
      requires Valid()
      modifies this
      ensures Valid()
      ensures (word, Snapshot()) == S.PopCall(old(Snapshot()))
    {
      S.MemoryOnly(env, Snapshot(), sp, 0);
      word := Peek24(sp, false);
      sp := sp + 3;
    }

    /** `cpu_peek_call()`. */
    method PeekCall() returns (word: Word)
      requires Valid()
      modifies this
      ensures Valid()
      ensures word == S.PeekCall(old(Snapshot())) && Snapshot() == old(Snapshot())
    {
      S.MemoryOnly(env, Snapshot(), sp, 0);
      word := Peek24(sp, false);
    }

    /** The CPU side of `cvemu_fetch_stack`: the words from bottom_dp up to dp. */
    method FetchStack() returns (listing: S.Listing)
      requires Valid()
      modifies this
      ensures Valid()
      ensures listing == S.FetchStack(old(Snapshot())) && Snapshot() == old(Snapshot())
    {
      if dp < bottomDp {
        return S.Underflow;
      }
      var words: seq<Word> := [];
      var i := bottomDp;
      while i < dp
        invariant Valid() && Snapshot() == old(Snapshot())
        invariant StackWords(mem[..], bottomDp, dp) == words + StackWords(mem[..], i, dp)
        decreases dp - i
      {
        S.MemoryOnly(env, Snapshot(), i, 0);
        var w := Peek24(i, false);
        words := words + [w];
        i := i + 3;
      }
      listing := S.Listed(words);
    }

    /** The CPU side of `cvemu_interrupt(args)`. */
    method Interrupt(args: seq<int>)
      requires Valid()
      modifies this, mem
      ensures Valid()
      ensures Snapshot() == S.Interrupt(old(Snapshot()), args)
    {
      if intEnabled {
        intEnabled := false;
        halted := false;
        PushCall(pc);
        ghost var s1 := Snapshot();
        var n := 0;
        while n < |args|
          invariant 0 <= n <= |args|
          invariant Valid() && intVector == old(intVector)
          invariant Snapshot() == S.PushAll(s1, args[..n])
        {
          assert args[..n + 1][..n] == args[..n];
          PushData(args[n]);
          n := n + 1;
        }
        assert args[..n] == args;
        pc := intVector;
      }
    }

    /** The literal-assembly loop of `cpu_fetch`: `arg += peek(pc + n, L) << (8 * (n - 1))`
        for n = 1..argLength. */
    method FetchLiteral(argLength: nat) returns (arg: int)
      requires Valid() && argLength <= 3
      modifies this
      ensures Valid()
      ensures (arg, Snapshot()) == S.FetchLiteral(env, old(Snapshot()), old(pc), 1, argLength, 0, 1)
    {
      ghost var goal := S.FetchLiteral(env, Snapshot(), pc, 1, argLength, 0, 1);
      arg := 0;
      var n, place := 1, 1;
      while n <= argLength
        invariant 1 <= n <= argLength + 1
        invariant Valid() && pc == old(pc)
        invariant S.FetchLiteral(env, Snapshot(), pc, n, argLength, arg, place) == goal
        decreases argLength + 1 - n
      {
        var b: int := Peek(pc + n, true);
        arg := arg + b * place;
        n, place := n + 1, place * 256;
      }
    }

    /** `cpu_fetch()`: returns the opcode field of the byte at pc. */
    method Fetch() returns (code: int)
      requires Valid()
      modifies this, mem
      ensures Valid()
      ensures (code, Snapshot()) == S.Fetch(env, old(Snapshot()))
    {
      ghost var s := Snapshot();
      var instruction := Peek(pc, true);
      ghost var s1 := Snapshot();
      assert (instruction, s1) == S.Peek(env, s, s.pc, true);
      var argLength := Opcodes.LengthField(instruction);
      code := Opcodes.OpcodeField(instruction);
      if argLength > 0 {
        var arg := FetchLiteral(argLength);
        ghost var s2 := Snapshot();
        assert (arg, s2) == S.FetchLiteral(env, s1, s.pc, 1, argLength, 0, 1);
        PushData(arg);
        assert Snapshot() == S.PushData(s2, arg);
      }
      ghost var s2 := Snapshot();
      assert s2 == S.FetchArgs(env, s1, s.pc, argLength);
      assert pc == s.pc;
      assert S.Fetch(env, s) == (code, if env.decode(code) != Some(S.HLT) then s2.(nextPc := s.pc + argLength + 1) else s2);
      if env.decode(code) != Some(S.HLT) {
        nextPc := pc + argLength + 1;
      }
    }

    /** The two-operand cases of `cpu_execute`. */
    method ExecuteBinary(op: S.Op) returns (status: Status)
      requires Valid() && S.Binary(op)
      modifies this, mem
      ensures Valid()
      ensures S.Outcome(status, Snapshot()) == S.BinaryOp(old(Snapshot()), op)
    {
      ghost var s := Snapshot();
      status := Ok;
      var b := PopData();
      var a := PopData();
      if S.DividesByZero(op, b) {
        status := Failed(DivideByZero);
      } else {
        PushData(S.Combine(op, a, b));
      }
      assert S.Outcome(status, Snapshot()) == S.BinaryOp(s, op);
    }

    /** The three shift cases; ARSHIFT on a negative word runs the source's loop. */
    method ExecuteShift(op: S.Op) returns (status: Status)
      requires Valid() && S.Shift(op)
      modifies this, mem
      ensures Valid()
      ensures S.Outcome(status, Snapshot()) == S.ShiftOp(old(Snapshot()), op)
    {
      ghost var s := Snapshot();
      status := Ok;
      var b := PopData();
      var a := PopData();
      if op == S.ARSHIFT && a >= SIGN {
        var r := ArShiftLoop(a, b);
        PushData(r);
      } else if b >= 32 {
        status := Failed(ShiftTooWide);
      } else if op == S.LSHIFT {
        PushData(Shl(a, b));
      } else {
        PushData(Shr(a, b));
      }
      assert S.Outcome(status, Snapshot()) == S.ShiftOp(s, op);
    }

    /** The NOT case. */
    method Not()
      requires Valid()
      modifies this, mem
      ensures Valid()
      ensures Snapshot() == S.Not(old(Snapshot()))
    {
      var a := PopData();
      PushData(S.Flag(a == 0));
    }

    /** The DUP case, `push_data(peek24(dp - 3, 0))`. */
    method Dup()
      requires Valid()
      modifies this, mem
      ensures Valid()
      ensures Snapshot() == S.Dup(old(Snapshot()))
    {
      S.MemoryOnly(env, Snapshot(), dp - 3, 0);
      var w := Peek24(dp - 3, false);
      PushData(w);
    }

    /** The SWAP case. */
    method Swap()
      requires Valid()
      modifies this, mem
      ensures Valid()
      ensures Snapshot() == S.Swap(old(Snapshot()))
    {
      var b := PopData();
      var a := PopData();
      PushData(b);
      PushData(a);
    }

    /** The PICK case. */
    method Pick()
      requires Valid()
      modifies this, mem
      ensures Valid()
      ensures Snapshot() == S.Pick(old(Snapshot()))
    {
      ghost var s := Snapshot();
      var b: int := PopData();
      ghost var s1 := Snapshot();
      assert (b, s1) == S.PopData(s);
      S.MemoryOnly(env, s1, dp - (b + 1) * 3, 0);
      var w := Peek24(dp - (b + 1) * 3, false);
      assert w == Read24(s1.mem, s1.dp - (b + 1) * 3) && Snapshot() == s1;
      assert S.Pick(s) == S.PushData(s1, w);
      PushData(w);
    }

    /** The ROT case. */
    method Rot()
      requires Valid()
      modifies this, mem
      ensures Valid()
      ensures Snapshot() == S.Rot(old(Snapshot()))
    {
      var c := PopData();
      var b := PopData();
      var a := PopData();
      PushData(b);
      PushData(c);
      PushData(a);
    }

    /** NOT and the stack-shuffling cases. */
    method ExecuteShuffle(op: S.Op)
      requires Valid() && S.Shuffle(op)
      modifies this, mem
      ensures Valid()
      ensures Snapshot() == S.ShuffleOp(old(Snapshot()), op)
    {
      if op == S.NOT {
        Not();
      } else if op == S.POP {
        var _ := PopData();
      } else if op == S.DUP {
        Dup();
      } else if op == S.SWAP {
        Swap();
      } else if op == S.PICK {
        Pick();
      } else {
        Rot();
      }
    }

    /** The JMPR case. */
    method Jmpr()
      requires Valid()
      modifies this
      ensures Valid()
      ensures Snapshot() == S.Jmpr(old(Snapshot()))
    {
      var d := PopData();
      nextPc := pc + d;
    }

    /** The CALL case. */
    method Call()
      requires Valid()
      modifies this, mem
      ensures Valid()
      ensures Snapshot() == S.Call(old(Snapshot()))
    {
      PushCall(nextPc);
      nextPc := PopData();
    }

    /** The BRZ and BRNZ cases. */
    method Branch(op: S.Op)
      requires Valid() && (op == S.BRZ || op == S.BRNZ)
      modifies this
      ensures Valid()
      ensures Snapshot() == S.Branch(old(Snapshot()), op)
    {
      var d := PopData();
      var c := PopData();
      if (op == S.BRZ && c == 0) || (op == S.BRNZ && c != 0) {
        nextPc := pc + ToSigned(d);
      }
    }

    /** The cases that choose next_pc or halt. */
    method ExecuteControl(op: S.Op)
      requires Valid() && S.Control(op)
      modifies this, mem
      ensures Valid()
      ensures Snapshot() == S.ControlOp(old(Snapshot()), op)
    {
      ghost var s := Snapshot();
      if op == S.JMP {
        nextPc := PopData();
        assert Snapshot() == S.Jmp(s);
      } else if op == S.JMPR {
        Jmpr();
      } else if op == S.CALL {
        Call();
      } else if op == S.RET {
        nextPc := PopCall();
        assert Snapshot() == S.Ret(s);
      } else if op == S.BRZ || op == S.BRNZ {
        Branch(op);
      } else {
        halted := true;
      }
    }

    /** The load and store cases, which go through the device table. */
    method ExecuteAccess(op: S.Op)
      requires Valid() && S.Access(op)
      modifies this, mem
      ensures Valid()
      ensures Snapshot() == S.AccessOp(env, old(Snapshot()), op)
    {
      ghost var s := Snapshot();
      var b: int := PopData();
      if op == S.LOAD {
        var v := Peek(b, true);
        PushData(v);
        assert Snapshot() == S.AccessOp(env, s, op);
      } else if op == S.LOADW {
        var v := Peek24(b, true);
        PushData(v);
        assert Snapshot() == S.AccessOp(env, s, op);
      } else {
        var a: int := PopData();
        if op == S.STORE {
          Poke(b, a, true);
        } else {
          Poke24(b, a, true);
        }
        assert Snapshot() == S.AccessOp(env, s, op);
      }
    }

    /** The SDP case. */
    method Sdp()
      requires Valid()
      modifies this, mem
      ensures Valid()
      ensures Snapshot() == S.Sdp(old(Snapshot()))
    {
      PushData(sp);
      PushData(dp + 3);
    }

    /** The SETSDP case. */
    method SetSdp()
      requires Valid()
      modifies this
      ensures Valid()
      ensures Snapshot() == S.SetSdp(old(Snapshot()))
    {
      var b := PopData();
      var a := PopData();
      dp := b;
      sp := a;
    }

    /** The PUSHR case. */
    method PushR()
      requires Valid()
      modifies this, mem
      ensures Valid()
      ensures Snapshot() == S.PushR(old(Snapshot()))
    {
      var v := PopData();
      PushCall(v);
    }

    /** The POPR case. */
    method PopR()
      requires Valid()
      modifies this, mem
      ensures Valid()
      ensures Snapshot() == S.PopR(old(Snapshot()))
    {
      var v := PopCall();
      PushData(v);
    }

    /** The PEEKR case. */
    method PeekR()
      requires Valid()
      modifies this, mem
      ensures Valid()
      ensures Snapshot() == S.PeekR(old(Snapshot()))
    {
      var v := PeekCall();
      PushData(v);
    }

    /** The interrupt-flag, interrupt-vector and stack-register cases. */
    method ExecuteRegisters(op: S.Op)
      requires Valid() && S.Registers(op)
      modifies this, mem
      ensures Valid()
      ensures Snapshot() == S.RegistersOp(old(Snapshot()), op)
    {
      ghost var s := Snapshot();
      if op == S.INTON {
        intEnabled := true;
      } else if op == S.INTOFF {
        intEnabled := false;
      } else if op == S.SETIV {
        intVector := PopData();
        assert Snapshot() == S.SetIv(s);
      } else if op == S.SDP {
        Sdp();
      } else if op == S.SETSDP {
        SetSdp();
      } else if op == S.PUSHR {
        PushR();
      } else if op == S.POPR {
        PopR();
      } else {
        PeekR();
      }
    }

    /** `cpu_execute(instruction)`: the switch, then `pc = next_pc`. */
    method Execute(code: int) returns (status: Status)
      requires Valid()
      modifies this, mem
      ensures Valid()
      ensures S.Outcome(status, Snapshot()) == S.Execute(env, old(Snapshot()), code)
    {
      ghost var s := Snapshot();
      status := Ok;
      var decoded := env.decode(code);
      if decoded.Some? {
        var op := decoded.value;
        if S.Binary(op) {
          status := ExecuteBinary(op);
        } else if S.Shift(op) {
          status := ExecuteShift(op);
        } else if S.Shuffle(op) {
          ExecuteShuffle(op);
        } else if S.Control(op) {
          ExecuteControl(op);
        } else if S.Access(op) {
          ExecuteAccess(op);
        } else if S.Registers(op) {
          ExecuteRegisters(op);
        } else {
          // PUSH (done by the fetch), RAND (unimplemented) and DEBUG (printing only).
          assert S.Dispatch(env, s, op) == S.Continue(s);
        }
      }
      if status.Ok? {
        pc := nextPc;
      }
      assert S.Outcome(status, Snapshot()) == S.Execute(env, s, code);
    }

    /** The body of the loop in `cpu_run`: fetch, execute, tick the devices. */
    method Cycle() returns (status: Status)
      requires Valid()
      modifies this, mem
      ensures Valid()
      ensures S.Outcome(status, Snapshot()) == S.Cycle(env, old(Snapshot()))
    {
      var code := Fetch();
      status := Execute(code);
      if status.Ok? {
        TickDevices();
      }
    }

    /** One turn of the loop in `cpu_run()` on a running CPU, stated against the run it
        belongs to. */
    method Turn(ghost fuel: nat) returns (status: Status)
      requires Valid() && !halted && fuel > 0
      modifies this, mem
      ensures Valid()
      ensures status.Ok? ==> S.Run(env, old(Snapshot()), fuel) == S.Run(env, Snapshot(), fuel - 1)
      ensures !status.Ok? ==> S.Run(env, old(Snapshot()), fuel) == S.Outcome(status, Snapshot())
    {
      ghost var s := Snapshot();
      status := Cycle();
      S.RunCycle(env, s, Snapshot(), status, fuel);
    }

    /** `cpu_run()` for at most `fuel` turns of its loop. */
    method Run(fuel: nat) returns (status: Status)
      requires Valid()
      modifies this, mem
      ensures Valid()
      ensures S.Outcome(status, Snapshot()) == S.Run(env, old(Snapshot()), fuel)
    {
      ghost var goal := S.Run(env, Snapshot(), fuel);
      status := Ok;
      var left := fuel;
      while !halted && left > 0
        invariant Valid() && status == Ok
        invariant S.Run(env, Snapshot(), left) == goal
        decreases left
      {
        status := Turn(left);
        if !status.Ok? {
          return;
        }
        left := left - 1;
      }
    }
  }
}
