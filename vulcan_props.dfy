/**
 * Properties of the instruction cycle of wasm/Vulcan.cpp, stated on the functions of
 * VulcanSpec (which the class in VulcanCpu is proved to compute). The two stacks are
 * viewed as sequences of words read out of memory: the data stack bottom first, from
 * bottom_dp up to dp, and the call stack top first, from sp up to top_sp.
 */
module VulcanProps {
  import opened Words
  import opened Memory
  import opened Opcodes
  import opened VulcanSpec

  /** The data stack, bottom first. */
  function Data(s: State): seq<Word>
  {
    StackWords(s.mem, s.bottomDp, s.dp)
  }

  /** The call stack, top first. */
  function Returns(s: State): seq<Word>
  {
    StackWords(s.mem, s.sp, s.topSp)
  }

  /** The data stack is a whole number of words above bottom_dp, with room for `room`
      more pushes before it would wrap round memory onto its own bottom. */
  predicate DataRoom(s: State, room: nat)
  {
    s.bottomDp <= s.dp && (s.dp - s.bottomDp) % 3 == 0 && s.dp - s.bottomDp + 3 * room <= MEM
  }

  /** The same for the call stack below top_sp. */
  predicate ReturnRoom(s: State, room: nat)
  {
    s.sp <= s.topSp && (s.topSp - s.sp) % 3 == 0 && s.topSp - s.sp + 3 * room <= MEM
  }

  // ---------------------------------------------------------------------------------
  // The four stack primitives

  /** `push_data(w)` puts `w & 0xffffff` on top of the data stack and changes nothing
      below it. */
  lemma PushDataView(s: State, w: int, room: nat)
    requires DataRoom(s, room + 1)
    ensures DataRoom(PushData(s, w), room)
    ensures Data(PushData(s, w)) == Data(s) + [Mask24(w)]
  {
    var n := (s.dp - s.bottomDp) / 3;
    assert s.dp == s.bottomDp + 3 * n;
    StackWordsPushAbove(s.mem, s.bottomDp, n, Mask24(w));
  }

  /** `pop_data()` returns the top of a non-empty data stack and removes it. */
  lemma PopDataView(s: State, room: nat)
    requires DataRoom(s, room) && s.dp > s.bottomDp
    ensures |Data(s)| > 0
    ensures DataRoom(PopData(s).1, room + 1)
    ensures PopData(s).0 == Data(s)[|Data(s)| - 1]
    ensures Data(PopData(s).1) == Data(s)[..|Data(s)| - 1]
  {
    var n := (s.dp - s.bottomDp) / 3;
    assert s.dp == s.bottomDp + 3 * (n - 1 + 1);
    StackWordsAppend(s.mem, s.bottomDp, n - 1);
    StackWordsLength(s.mem, s.bottomDp, n - 1);
  }

  /** Push then pop gives back the masked word and the original dp, and the rest of the
      machine is as before apart from the three bytes written above the stack. */
  lemma PushPopData(s: State, w: int)
    ensures PopData(PushData(s, w)).0 == Mask24(w)
    ensures PopData(PushData(s, w)).1 == s.(mem := Write24(s.mem, s.dp, Mask24(w)))
  {
    Read24Write24(s.mem, s.dp, Mask24(w));
  }

  /** `push_call(v)` puts `v & 0xffffff` on top of the call stack. */
  lemma PushCallView(s: State, v: int, room: nat)
    requires ReturnRoom(s, room + 1)
    ensures ReturnRoom(PushCall(s, v), room)
    ensures Returns(PushCall(s, v)) == [Mask24(v)] + Returns(s)
  {
    var n := (s.topSp - s.sp) / 3;
    assert s.topSp == s.sp + 3 * n;
    StackWordsPushBelow(s.mem, s.sp, n, Mask24(v));
  }

  /** `pop_call()` returns the top of a non-empty call stack and removes it. */
  lemma PopCallView(s: State, room: nat)
    requires ReturnRoom(s, room) && s.sp < s.topSp
    ensures |Returns(s)| > 0
    ensures ReturnRoom(PopCall(s).1, room + 1)
    ensures PopCall(s).0 == Returns(s)[0]
    ensures Returns(PopCall(s).1) == Returns(s)[1..]
  {
  }

  /** Push then pop on the call stack gives back the masked word and the original sp. */
  lemma PushPopCall(s: State, v: int)
    ensures PopCall(PushCall(s, v)).0 == Mask24(v)
    ensures PopCall(PushCall(s, v)).1 == s.(mem := Write24(s.mem, s.sp - 3, Mask24(v)))
  {
    Read24Write24(s.mem, s.sp - 3, Mask24(v));
  }

  // ---------------------------------------------------------------------------------
  // The depth accessors, reset and SETSDP

  /** `stackSize()` is the depth of the data stack and `getStack(i)` is the word i places
      below its top. */
  lemma DataAccessors(s: State, i: int)
    requires DataRoom(s, 0)
    ensures StackSize(s) == |Data(s)|
    ensures 0 <= i < |Data(s)| ==> GetStack(s, i) == Data(s)[|Data(s)| - 1 - i]
  {
    var n := (s.dp - s.bottomDp) / 3;
    assert s.dp == s.bottomDp + 3 * n;
    StackWordsLength(s.mem, s.bottomDp, n);
    if 0 <= i < n {
      StackWordsAt(s.mem, s.bottomDp, n, n - 1 - i);
      assert s.bottomDp + 3 * (n - 1 - i) == s.dp - 3 - i * 3;
    }
  }

  /** `returnSize()` is the depth of the call stack and `getReturn(i)` is the word i
      places below its top. */
  lemma ReturnAccessors(s: State, i: int)
    requires ReturnRoom(s, 0)
    ensures ReturnSize(s) == |Returns(s)|
    ensures 0 <= i < |Returns(s)| ==> GetReturn(s, i) == Returns(s)[i]
  {
    var n := (s.topSp - s.sp) / 3;
    assert s.topSp == s.sp + 3 * n;
    StackWordsLength(s.mem, s.sp, n);
    if 0 <= i < n {
      StackWordsAt(s.mem, s.sp, n, i);
    }
  }

  /** `loadROM(start, rom, n)` copies the ROM into the cells from start on and leaves
      every other cell and every register as it was. */
  lemma LoadRomView(s: State, start: int, rom: seq<Byte>)
    requires 0 <= start && start + |rom| <= MEM
    ensures var r := LoadRom(s, start, rom);
      r.mem[start..start + |rom|] == rom &&
      (forall i :: 0 <= i < MEM && !(start <= i < start + |rom|) ==> r.mem[i] == s.mem[i]) &&
      r.(mem := s.mem) == s
  {
    var r := LoadRom(s, start, rom);
    forall i | 0 <= i < MEM && !(start <= i < start + |rom|)
      ensures r.mem[i] == s.mem[i]
    {
      if i < start {
        assert r.mem[i] == s.mem[..start][i];
      } else {
        assert r.mem[i] == s.mem[start + |rom|..][i - start - |rom|];
      }
    }
  }

  /** After `reset` both stacks are empty, and memory and the interrupt fields are as
      before. */
  lemma ResetEmpties(s: State)
    ensures Data(Reset(s)) == [] && Returns(Reset(s)) == []
    ensures StackSize(Reset(s)) == 0 && ReturnSize(Reset(s)) == 0
    ensures Reset(s).mem == s.mem
    ensures Reset(s).intEnabled == s.intEnabled && Reset(s).intVector == s.intVector
  {
  }

  /** SETSDP takes dp from the top word and sp from the word below it, and leaves both
      stacks empty. */
  lemma SetSdpView(s: State)
    requires DataRoom(s, 0) && s.dp - s.bottomDp >= 6
    ensures var d := Data(s);
      |d| >= 2 &&
      SetSdp(s).dp == d[|d| - 1] && SetSdp(s).sp == d[|d| - 2]
    ensures Data(SetSdp(s)) == [] && Returns(SetSdp(s)) == []
    ensures StackSize(SetSdp(s)) == 0 && ReturnSize(SetSdp(s)) == 0
  {
    PopDataView(s, 0);
    PopDataView(PopData(s).1, 1);
  }

  /** As written, SETSDP assigns dp before the second pop, which then reads the word
      just below the new dp and leaves dp three bytes lower than the word popped. */
  lemma SetSdpAsWrittenMisplacesDp(s: State)
    ensures SetSdpAsWritten(s).dp == SetSdp(s).dp - 3
    ensures SetSdpAsWritten(s).sp == Read24(s.mem, SetSdp(s).dp - 3)
    ensures SetSdpAsWritten(s).dp != SetSdp(s).dp
  {
  }

  // ---------------------------------------------------------------------------------
  // The cases of execute, on the stack views

  /** The two-operand cases pop b, then a, and push the masked result, failing only on a
      division or remainder by zero. */
  lemma BinaryView(s: State, op: Opcode)
    requires Binary(op) && DataRoom(s, 0) && s.dp - s.bottomDp >= 6
    ensures var d := Data(s);
      |d| >= 2 &&
      (var b, a := d[|d| - 1], d[|d| - 2];
       (BinaryOp(s, op).status.Ok? <==> !DividesByZero(op, b)) &&
       (!DividesByZero(op, b) ==>
          Data(BinaryOp(s, op).state) == d[..|d| - 2] + [Mask24(Combine(op, a, b))]))
  {
    var (b, s1) := PopData(s);
    var (a, s2) := PopData(s1);
    PopDataView(s, 0);
    PopDataView(s1, 1);
    TwoPopped(Data(s), Data(s1), Data(s2), a, b);
    if !DividesByZero(op, b) {
      PushDataView(s2, Combine(op, a, b), 1);
    }
  }

  /** GT and LT compare the raw words, AGT and ALT their signed readings: they agree on
      words with bit 23 clear and disagree when exactly one has it set. */
  lemma SignedComparison(a: Word, b: Word)
    ensures a < SIGN && b < SIGN ==> Combine(AGT, a, b) == Combine(GT, a, b)
    ensures a < SIGN && b < SIGN ==> Combine(ALT, a, b) == Combine(LT, a, b)
    ensures a >= SIGN && b < SIGN ==> Combine(GT, a, b) == 1 && Combine(AGT, a, b) == 0
    ensures a >= SIGN && b < SIGN ==> Combine(LT, a, b) == 0 && Combine(ALT, a, b) == 1
  {
  }

  /** A shift case fails exactly when C leaves the shift undefined: a count b of 32 or
      more, except for ARSHIFT on a negative a, which the source computes bit by bit. */
  lemma ShiftStatusView(s: State, op: Opcode)
    requires Shift(op) && DataRoom(s, 0) && s.dp - s.bottomDp >= 6
    ensures var d := Data(s);
      |d| >= 2 &&
      (var b, a := d[|d| - 1], d[|d| - 2];
       ShiftOp(s, op).status.Ok? <==> b < 32 || (op == ARSHIFT && a >= SIGN))
  {
    TwoPopsView(s);
  }

  /** LSHIFT with a count below 32 replaces a, b by the masked a << b. */
  lemma ShiftLeftView(s: State)
    requires DataRoom(s, 0) && s.dp - s.bottomDp >= 6
    ensures var d := Data(s);
      |d| >= 2 &&
      (d[|d| - 1] < 32 ==> Data(ShiftOp(s, LSHIFT).state) == d[..|d| - 2] + [Shl(d[|d| - 2], d[|d| - 1])])
  {
    var (b, s1) := PopData(s);
    var (a, s2) := PopData(s1);
    TwoPopsView(s);
    if b >= 32 {
      return;
    }
    ReplaceTwoView(s, Shl(a, b));
    MaskWord(Shl(a, b));
  }

  /** RSHIFT with a count below 32 replaces a, b by a >> b. */
  lemma ShiftRightView(s: State)
    requires DataRoom(s, 0) && s.dp - s.bottomDp >= 6
    ensures var d := Data(s);
      |d| >= 2 &&
      (d[|d| - 1] < 32 ==> Data(ShiftOp(s, RSHIFT).state) == d[..|d| - 2] + [Shr(d[|d| - 2], d[|d| - 1])])
  {
    var (b, s1) := PopData(s);
    var (a, s2) := PopData(s1);
    TwoPopsView(s);
    if b >= 32 {
      return;
    }
    ReplaceTwoView(s, Shr(a, b));
    MaskWord(Shr(a, b));
  }

  /** ARSHIFT, whenever it completes, replaces a, b by the signed a divided by 2^b: the
      bit loop for a negative a and `a >> b` for a non-negative one agree with it. */
  lemma ArShiftView(s: State)
    requires DataRoom(s, 0) && s.dp - s.bottomDp >= 6
    ensures var d := Data(s);
      |d| >= 2 &&
      (ShiftOp(s, ARSHIFT).status.Ok? ==>
         Data(ShiftOp(s, ARSHIFT).state) == d[..|d| - 2] + [ArShift(d[|d| - 2], d[|d| - 1])])
  {
    var (b, s1) := PopData(s);
    var (a, s2) := PopData(s1);
    TwoPopsView(s);
    if a >= SIGN {
      ReplaceTwoView(s, ArShift(a, b));
      MaskWord(ArShift(a, b));
    } else if b < 32 {
      ReplaceTwoView(s, Shr(a, b));
      MaskWord(Shr(a, b));
      ArShiftNonNegative(a, b);
    }
  }

  /** Popping two words and pushing r replaces the top two words by r. */
  lemma ReplaceTwoView(s: State, r: int)
    requires DataRoom(s, 0) && s.dp - s.bottomDp >= 6
    ensures var d := Data(s);
      |d| >= 2 &&
      Data(PushData(PopData(PopData(s).1).1, r)) == d[..|d| - 2] + [Mask24(r)]
  {
    var (b, s1) := PopData(s);
    var (a, s2) := PopData(s1);
    PopDataView(s, 0);
    PopDataView(s1, 1);
    TwoPopped(Data(s), Data(s1), Data(s2), a, b);
    PushDataView(s2, r, 1);
  }

  /** The two pops of a two-operand case take b from the top and a from below it. */
  lemma TwoPopsView(s: State)
    requires DataRoom(s, 0) && s.dp - s.bottomDp >= 6
    ensures var d := Data(s);
      |d| >= 2 &&
      PopData(s).0 == d[|d| - 1] && PopData(PopData(s).1).0 == d[|d| - 2] &&
      PopData(PopData(s).1).1 == s.(dp := s.dp - 6)
  {
    var (b, s1) := PopData(s);
    var (a, s2) := PopData(s1);
    PopDataView(s, 0);
    PopDataView(s1, 1);
    TwoPopped(Data(s), Data(s1), Data(s2), a, b);
  }

  /** NOT replaces the top word by 1 when it is 0 and by 0 otherwise. */
  lemma NotView(s: State)
    requires DataRoom(s, 0) && s.dp > s.bottomDp
    ensures var d := Data(s); |d| >= 1 && Data(Not(s)) == d[..|d| - 1] + [Flag(d[|d| - 1] == 0)]
  {
    var (b, s1) := PopData(s);
    PopDataView(s, 0);
    PushDataView(s1, Flag(b == 0), 0);
  }

  /** DUP copies the top word. */
  lemma DupView(s: State)
    requires DataRoom(s, 1) && s.dp > s.bottomDp
    ensures var d := Data(s); |d| >= 1 && Data(Dup(s)) == d + [d[|d| - 1]]
  {
    CopyView(s, 0);
  }

  /** Copy(s, 3 * (i + 1)) pushes the word i places below the top. */
  lemma CopyView(s: State, i: nat)
    requires DataRoom(s, 1) && i < (s.dp - s.bottomDp) / 3
    ensures var d := Data(s); i < |d| && Data(Copy(s, 3 * (i + 1))) == d + [d[|d| - 1 - i]]
  {
    DataAccessors(s, i);
    var w := GetStack(s, i);
    assert s.dp - 3 * (i + 1) == s.dp - 3 - i * 3;
    PushDataView(s, w, 0);
    MaskWord(w);
  }

  /** DUP2 turns [.., a, b] into [.., a, b, a, b]. */
  lemma Dup2View(s: State)
    requires DataRoom(s, 2) && s.dp - s.bottomDp >= 6
    ensures var d := Data(s); |d| >= 2 && Data(Dup2(s)) == d + d[|d| - 2..]
  {
    var s1 := Copy(s, 6);
    CopyView(s, 1);
    PushDataView(s, Read24(s.mem, s.dp - 6), 1);
    CopyView(s1, 1);
    Dup2Words(Data(s), Data(s1), Data(Copy(s1, 6)));
  }

  lemma Dup2Words(d: seq<Word>, d1: seq<Word>, d2: seq<Word>)
    requires |d| >= 2 && d1 == d + [d[|d| - 2]] && d2 == d1 + [d1[|d1| - 2]]
    ensures d2 == d + d[|d| - 2..]
  {
  }

  /** SWAP exchanges the top two words. */
  lemma SwapView(s: State)
    requires DataRoom(s, 0) && s.dp - s.bottomDp >= 6
    ensures var d := Data(s);
      |d| >= 2 &&
      Data(Swap(s)) == d[..|d| - 2] + [d[|d| - 1], d[|d| - 2]]
  {
    var (b, s1) := PopData(s);
    var (a, s2) := PopData(s1);
    var s3 := PushData(s2, b);
    PopDataView(s, 0);
    PopDataView(s1, 1);
    PushDataView(s2, b, 1);
    PushDataView(s3, a, 0);
    TwoPopped(Data(s), Data(s1), Data(s2), a, b);
    SwapWords(Data(s), Data(s2), Data(s3), Data(PushData(s3, a)), a, b);
  }


  /** PICK pops an index b and pushes a copy of the word b places below the new top. */
  lemma PickView(s: State)
    requires DataRoom(s, 0) && s.dp > s.bottomDp
    requires Read24(s.mem, s.dp - 3) < (s.dp - s.bottomDp) / 3 - 1
    ensures var d := Data(s);
      |d| >= 1 &&
      (var b := d[|d| - 1]; b < |d| - 1 && Data(Pick(s)) == d[..|d| - 1] + [d[|d| - 2 - b]])
  {
    var (b, s1) := PopData(s);
    PopDataView(s, 0);
    CopyView(s1, b);
    assert (b + 1) * 3 == 3 * (b + 1);
    PickWords(Data(s), Data(s1), Data(Pick(s)), b);
  }


  /** `PUSH 0; PICK` has exactly the effect of DUP, on every machine state. */
  lemma PickZeroIsDup(s: State)
    ensures Pick(PushData(s, 0)) == Dup(s)
  {
    Read24Write24(s.mem, s.dp, 0);
    var m0 := Write24(s.mem, s.dp, 0);
    assert Apart(s.dp, s.dp - 3);
    Read24Write24Apart(s.mem, s.dp, s.dp - 3, 0);
    Write24Overwrite(s.mem, s.dp, 0, Mask24(Read24(s.mem, s.dp - 3)));
  }

  /** BRZ and BRNZ pop a signed offset d, then a condition c, and move next_pc to pc + d
      exactly when c is zero (BRZ) or non-zero (BRNZ); nothing else changes. */
  lemma BranchView(s: State, op: Opcode)
    requires (op == BRZ || op == BRNZ) && DataRoom(s, 0) && s.dp - s.bottomDp >= 6
    ensures var d := Data(s);
      |d| >= 2 &&
      var offset, c := d[|d| - 1], d[|d| - 2];
      Data(Branch(s, op)) == d[..|d| - 2] &&
      Branch(s, op).nextPc == (if (op == BRZ) == (c == 0) then s.pc + ToSigned(offset) else s.nextPc) &&
      Branch(s, op).(nextPc := s.nextPc) == s.(dp := s.dp - 6)
  {
    var (offset, s1) := PopData(s);
    var (c, s2) := PopData(s1);
    PopDataView(s, 0);
    PopDataView(s1, 1);
    var d := Data(s);
    assert Data(s1) == d[..|d| - 1] && c == d[|d| - 2] && Data(s2) == d[..|d| - 2];
    assert s2 == s.(dp := s.dp - 6);
    var taken := if op == BRZ then c == 0 else c != 0;
    assert Branch(s, op) == if taken then s2.(nextPc := s.pc + ToSigned(offset)) else s2;
  }

  /** CALL saves next_pc on the call stack and RET brings it back: a RET right after a
      CALL resumes at the CALL's fall-through address with sp as it was. */
  lemma CallThenRet(s: State)
    ensures Ret(Call(s)).nextPc == Mask24(s.nextPc)
    ensures Ret(Call(s)).sp == s.sp
  {
    Read24Write24(s.mem, s.sp - 3, Mask24(s.nextPc));
  }

  /** CALL pushes next_pc on the call stack and jumps to the popped target. */
  lemma CallView(s: State)
    requires ReturnRoom(s, 1)
    ensures Returns(Call(s)) == [Mask24(s.nextPc)] + Returns(s)
    ensures Call(s).nextPc == Read24(PushCall(s, s.nextPc).mem, s.dp - 3)
  {
    PushCallView(s, s.nextPc, 0);
  }

  /** STORE pops an address b, then a value a, and leaves a's low byte at b. */
  lemma StoreView(s: State)
    requires DataRoom(s, 0) && s.dp - s.bottomDp >= 6
    ensures var d := Data(s);
      |d| >= 2 &&
      AccessOp(s, STORE).status.Ok? && AccessOp(s, STORE).state.dp == s.dp - 6 &&
      Read(AccessOp(s, STORE).state.mem, d[|d| - 1]) == d[|d| - 2] % 256
  {
    var (b, s1) := PopData(s);
    var (a, s2) := PopData(s1);
    TwoPopsView(s);
    assert AccessOp(s, STORE) == Continue(s2.(mem := Write(s2.mem, b, a)));
  }

  /** STORE16 leaves a's low 16 bits at b, b + 1, for LOAD16 to read back. */
  lemma Store16View(s: State)
    requires DataRoom(s, 0) && s.dp - s.bottomDp >= 6
    ensures var d := Data(s);
      |d| >= 2 &&
      AccessOp(s, STORE16).status.Ok? && AccessOp(s, STORE16).state.dp == s.dp - 6 &&
      Read16(AccessOp(s, STORE16).state.mem, d[|d| - 1]) == d[|d| - 2] % 65536
  {
    var (b, s1) := PopData(s);
    var (a, s2) := PopData(s1);
    TwoPopsView(s);
    assert AccessOp(s, STORE16) == Continue(s2.(mem := Write16(s2.mem, b, a)));
    Read16Write16(s2.mem, b, a);
  }

  /** STORE24 leaves the whole word a at b, b + 1, b + 2, for LOAD24 to read back. */
  lemma Store24View(s: State)
    requires DataRoom(s, 0) && s.dp - s.bottomDp >= 6
    ensures var d := Data(s);
      |d| >= 2 &&
      AccessOp(s, STORE24).status.Ok? && AccessOp(s, STORE24).state.dp == s.dp - 6 &&
      Read24(AccessOp(s, STORE24).state.mem, d[|d| - 1]) == d[|d| - 2]
  {
    var (b, s1) := PopData(s);
    var (a, s2) := PopData(s1);
    TwoPopsView(s);
    assert AccessOp(s, STORE24) == Continue(s2.(mem := Write24(s2.mem, b, a)));
    Read24Write24(s2.mem, b, a);
    MaskWord(a);
  }

  /** The fields outside the stacks and the program counters: the stack marks, the
      interrupt fields and the halt flag. */
  predicate SameFrame(s: State, r: State)
  {
    r.bottomDp == s.bottomDp && r.topSp == s.topSp && r.intEnabled == s.intEnabled &&
    r.intVector == s.intVector && r.halted == s.halted
  }

  /** Only SETSDP moves the stack marks, only INTON and INTOFF change the interrupt flag,
      only SETIV the vector and only HLT halts. */
  lemma DispatchFrame(s: State, op: Opcode)
    ensures var r := Dispatch(s, op).state;
      (op != SETSDP ==> r.bottomDp == s.bottomDp && r.topSp == s.topSp) &&
      (op != INTON && op != INTOFF ==> r.intEnabled == s.intEnabled) &&
      (op != SETIV ==> r.intVector == s.intVector) &&
      (op != HLT ==> r.halted == s.halted)
  {
    match GroupOf(op)
    case BinaryGroup =>
      BinaryFrame(s, op);
    case ShiftGroup =>
      ShiftFrame(s, op);
    case ShuffleGroup =>
      ShuffleFrame(s, op);
    case ControlGroup =>
      ControlFrame(s, op);
    case AccessGroup =>
      AccessFrame(s, op);
    case RegistersGroup =>
      RegistersFrame(s, op);
    case NoEffect =>
  }

  lemma BinaryFrame(s: State, op: Opcode)
    requires Binary(op)
    ensures SameFrame(s, BinaryOp(s, op).state)
  {
  }

  lemma ShiftFrame(s: State, op: Opcode)
    requires Shift(op)
    ensures SameFrame(s, ShiftOp(s, op).state)
  {
  }

  lemma AccessFrame(s: State, op: Opcode)
    requires Access(op)
    ensures SameFrame(s, AccessOp(s, op).state)
  {
  }

  lemma ShuffleFrame(s: State, op: Opcode)
    requires Shuffle(op)
    ensures SameFrame(s, ShuffleOp(s, op))
  {
  }

  lemma ControlFrame(s: State, op: Opcode)
    requires Control(op)
    ensures op != HLT ==> SameFrame(s, ControlOp(s, op))
    ensures ControlOp(s, op).(halted := s.halted, nextPc := s.nextPc, dp := s.dp, sp := s.sp, mem := s.mem) == s
  {
  }

  lemma RegistersFrame(s: State, op: Opcode)
    requires Registers(op)
    ensures var r := RegistersOp(s, op);
      (op != SETSDP ==> r.bottomDp == s.bottomDp && r.topSp == s.topSp) &&
      (op != INTON && op != INTOFF ==> r.intEnabled == s.intEnabled) &&
      (op != SETIV ==> r.intVector == s.intVector) &&
      r.halted == s.halted
  {
  }

  // ---------------------------------------------------------------------------------
  // Whole cycles

  /** Opcode fields with no case in the switch (DEBUG = 44 and the unused values 45 to
      63), and PUSH = 0, only commit pc. */
  lemma ExecuteNoCase(s: State, code: int)
    requires code == 0 || 44 <= code < 64
    ensures Execute(s, code) == Continue(Commit(s))
  {
    DecodeDefined(code);
    if code == 0 {
      assert Decode(0) == Some(PUSH);
    } else if code == 44 {
      assert Decode(44) == Some(DEBUG);
    }
  }

  /** A cycle that completes leaves pc equal to next_pc. */
  lemma ExecuteCommits(s: State, code: int)
    ensures Execute(s, code).status.Ok? ==> Execute(s, code).state.pc == Execute(s, code).state.nextPc
  {
  }

  /** A halted machine does nothing on a tick. */
  lemma TickHalted(s: State)
    requires s.halted
    ensures Tick(s) == Continue(s)
  {
  }

  /** What fetch does: the opcode is the high six bits of the byte at pc, a non-zero
      length field pushes the literal of that many following bytes, and next_pc moves
      past the instruction unless the opcode is HLT. */
  lemma FetchView(s: State)
    requires DataRoom(s, 1)
    ensures var instruction := Read(s.mem, s.pc); var len := LengthField(instruction);
      var (code, f) := Fetch(s);
      code == OpcodeField(instruction) &&
      Data(f) == (if len == 0 then Data(s) else Data(s) + [Literal(s.mem, s.pc, len)]) &&
      f.nextPc == (if code == Encode(HLT) then s.nextPc else s.pc + len + 1) &&
      f.pc == s.pc
  {
    var len := LengthField(Read(s.mem, s.pc));
    if len > 0 {
      LiteralIsWord(s.mem, s.pc, len);
      PushDataView(s, Literal(s.mem, s.pc, len), 0);
      MaskWord(Literal(s.mem, s.pc, len));
    }
  }

  /** The bytes 0x00 to 0x03 are PUSH with 0 to 3 literal bytes: one cycle pushes the
      little-endian literal (nothing for 0x00) and moves pc past it. */
  lemma TickPush(s: State)
    requires !s.halted && Read(s.mem, s.pc) < 4 && DataRoom(s, 1)
    ensures var len := Read(s.mem, s.pc);
      Tick(s).status.Ok? &&
      Tick(s).state.pc == s.pc + len + 1 &&
      Data(Tick(s).state) == (if len == 0 then Data(s) else Data(s) + [Literal(s.mem, s.pc, len)])
  {
    FetchView(s);
    var (code, f) := Fetch(s);
    assert code == 0;
    ExecuteNoCase(f, code);
  }

  /** The bytes 0x74 to 0x77 are HLT. Fetch leaves next_pc alone for them, so the cycle
      halts and commits pc to the next_pc left by the previous cycle. */
  lemma TickHalt(s: State)
    requires !s.halted && OpcodeField(Read(s.mem, s.pc)) == Encode(HLT)
    ensures Tick(s).status.Ok? && Tick(s).state.halted
    ensures Tick(s).state.pc == s.nextPc
    ensures Tick(Tick(s).state) == Tick(s)
  {
    var (code, f) := Fetch(s);
    assert Decode(code) == Some(HLT);
    assert f.nextPc == s.nextPc;
  }
}
