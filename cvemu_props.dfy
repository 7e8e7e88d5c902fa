/**
 * Properties of the CPU of cvemu/cvemu.c, stated on the functions of CvEmuSpec (which the
 * class in CvEmuCpu is proved to compute): the data stack as a sequence of words, the
 * device dispatch of single-byte and word accesses, the device table, the hook calls of
 * reset and tick, interrupts, and the instruction cycle.
 */
module CvEmuProps {
  import opened Words
  import opened Memory
  import Opcodes
  import opened CvEmuSpec

  /** The data stack, bottom first, as `cvemu_fetch_stack` lists it. */
  function Data(s: State): seq<Word>
  {
    StackWords(s.mem, s.bottomDp, s.dp)
  }

  /** The data stack is a whole number of words above bottom_dp, with room for `room`
      more pushes before it would wrap round memory onto its own bottom. */
  predicate DataRoom(s: State, room: nat)
  {
    s.bottomDp <= s.dp && (s.dp - s.bottomDp) % 3 == 0 && s.dp - s.bottomDp + 3 * room <= MEM
  }

  // ---------------------------------------------------------------------------------
  // The stack primitives

  /** `cpu_push_data(w)` puts `w & 0xffffff` on top of the data stack and changes nothing
      below it. */
  lemma PushDataView(s: State, w: int, room: nat)
    requires DataRoom(s, room + 1)
    ensures DataRoom(PushData(s, w), room)
    ensures Data(PushData(s, w)) == Data(s) + [Mask24(w)]
  {
    var n := (s.dp - s.bottomDp) / 3;
    assert s.dp == s.bottomDp + 3 * n;
    StackWordsPushAbove(s.mem, s.bottomDp, n, Mask24(w));
  }

  /** `cpu_pop_data()` returns the top of a non-empty data stack and removes it. */
  lemma PopDataView(s: State, room: nat)
    requires DataRoom(s, room) && s.dp > s.bottomDp
    ensures |Data(s)| > 0
    ensures DataRoom(PopData(s).1, room + 1)
    ensures PopData(s).0 == Data(s)[|Data(s)| - 1]
    ensures Data(PopData(s).1) == Data(s)[..|Data(s)| - 1]
  {
    var lo, n := s.bottomDp, (s.dp - s.bottomDp) / 3 - 1;
    assert s.dp == lo + 3 * (n + 1) && s.dp - 3 == lo + 3 * n;
    StackWordsAppend(s.mem, lo, n);
    StackWordsLength(s.mem, lo, n);
    assert Data(s) == StackWords(s.mem, lo, lo + 3 * n) + [Read24(s.mem, lo + 3 * n)];
    assert Data(PopData(s).1) == StackWords(s.mem, lo, lo + 3 * n);
  }

  /** Push then pop gives back the masked word and the original dp; only the three bytes
      written above the stack differ. */
  lemma PushPopData(s: State, w: int)
    ensures PopData(PushData(s, w)).0 == Mask24(w)
    ensures PopData(PushData(s, w)).1 == s.(mem := Write24(s.mem, s.dp, Mask24(w)))
  {
    Read24Write24(s.mem, s.dp, Mask24(w));
  }

  /** On the call stack, pop after push gives back the masked value and the original sp,
      and `cpu_peek_call` sees the same word without moving sp. */
  lemma PushPopCall(s: State, v: int)
    ensures PopCall(PushCall(s, v)).0 == Mask24(v)
    ensures PopCall(PushCall(s, v)).1 == s.(mem := Write24(s.mem, s.sp - 3, Mask24(v)))
    ensures PeekCall(PushCall(s, v)) == Mask24(v)
  {
    Read24Write24(s.mem, s.sp - 3, Mask24(v));
  }

  /** `cvemu_fetch_stack` lists the data stack, bottom first: pushing a word adds it at
      the end of the listing, and it fails only when dp is below bottom_dp. */
  lemma FetchStackPush(s: State, w: int)
    requires DataRoom(s, 1)
    ensures FetchStack(s) == Listed(Data(s))
    ensures FetchStack(PushData(s, w)) == Listed(FetchStack(s).words + [Mask24(w)])
  {
    PushDataView(s, w, 0);
  }

  /** A listing of a stack of n whole words has n entries, entry k being the word at
      bottom_dp + 3k. */
  lemma FetchStackEntries(s: State, k: int)
    requires DataRoom(s, 0)
    ensures FetchStack(s).Listed?
    ensures |FetchStack(s).words| == (s.dp - s.bottomDp) / 3
    ensures 0 <= k < (s.dp - s.bottomDp) / 3 ==> FetchStack(s).words[k] == Read24(s.mem, s.bottomDp + 3 * k)
  {
    var n := (s.dp - s.bottomDp) / 3;
    assert s.dp == s.bottomDp + 3 * n;
    StackWordsLength(s.mem, s.bottomDp, n);
    if 0 <= k < n {
      StackWordsAt(s.mem, s.bottomDp, n, k);
    }
  }

  // ---------------------------------------------------------------------------------
  // Device dispatch

  /** No device has hook h over the cell addr denotes. */
  predicate Unclaimed(s: State, h: Hook, addr: int)
  {
    forall k :: 0 <= k < |s.devices| ==> !Claims(s.devices[k], h, Addr(addr))
  }

  /** Device k is the first in table order with hook h over the cell addr denotes. */
  predicate FirstToClaim(s: State, h: Hook, addr: int, k: int)
  {
    0 <= k < |s.devices| && Claims(s.devices[k], h, Addr(addr)) &&
    forall j :: 0 <= j < k ==> !Claims(s.devices[j], h, Addr(addr))
  }

  /** The scan of the device table stops at the first claimant, and at the end of the
      table when there is none. */
  lemma ScanFinds(s: State, h: Hook, addr: int, k: int)
    ensures Unclaimed(s, h, addr) ==> FirstClaimant(s.devices, h, Addr(addr), 0) == |s.devices|
    ensures FirstToClaim(s, h, addr, k) ==> FirstClaimant(s.devices, h, Addr(addr), 0) == k
  {
    var n := FirstClaimant(s.devices, h, Addr(addr), 0);
  }

  /** `cpu_poke` with L stores the byte in memory when no device has a poke hook over the
      address; without L it always does. */
  lemma PokeUnclaimed(s: State, addr: int, v: int)
    ensures Poke(s, addr, v, false) == s.(mem := Write(s.mem, addr, v))
    ensures Unclaimed(s, PokeHook, addr) ==> Poke(s, addr, v, true) == s.(mem := Write(s.mem, addr, v))
  {
    ScanFinds(s, PokeHook, addr, 0);
  }

  /** `cpu_poke` with L hands the byte to the first device in table order whose poke hook
      covers the address, together with the offset into the device's range: memory is
      left as it is, and devices without a poke hook are passed over. */
  lemma PokeClaimed(s: State, addr: int, v: int, k: int)
    requires FirstToClaim(s, PokeHook, addr, k)
    ensures var d := s.devices[k]; var offset := Addr(addr) - d.start % UINT;
      0 <= offset <= d.end % UINT - d.start % UINT &&
      Poke(s, addr, v, true) == s.(trace := s.trace + [Event(PokeHook, d.poke, [offset, v % 256])])
  {
    ScanFinds(s, PokeHook, addr, k);
  }

  /** `cpu_peek` with L reads memory when no device has a peek hook over the address;
      without L it always does. */
  lemma PeekUnclaimed(env: Env, s: State, addr: int)
    ensures Peek(env, s, addr, false) == (Read(s.mem, addr), s)
    ensures Unclaimed(s, PeekHook, addr) ==> Peek(env, s, addr, true) == (Read(s.mem, addr), s)
  {
    ScanFinds(s, PeekHook, addr, 0);
  }

  /** `cpu_peek` with L asks the first device in table order whose peek hook covers the
      address, passing the offset into its range, and returns its answer as a byte;
      memory is not read. */
  lemma PeekClaimed(env: Env, s: State, addr: int, k: int)
    requires FirstToClaim(s, PeekHook, addr, k)
    ensures var d := s.devices[k]; var offset := Addr(addr) - d.start % UINT;
      0 <= offset <= d.end % UINT - d.start % UINT &&
      Peek(env, s, addr, true) ==
        (env.answer(s.trace, d.peek, offset) % 256, s.(trace := s.trace + [Event(PeekHook, d.peek, [offset])]))
  {
    ScanFinds(s, PeekHook, addr, k);
  }

  /** None of the three cells of the word at addr is claimed by a hook of kind h. */
  predicate WordUnclaimed(s: State, h: Hook, addr: int)
  {
    Unclaimed(s, h, addr) && Unclaimed(s, h, addr + 1) && Unclaimed(s, h, addr + 2)
  }

  /** Over cells no poke hook claims, `cpu_poke24` with L stores the word in memory. */
  lemma Poke24Unclaimed(s: State, addr: int, v: int)
    requires WordUnclaimed(s, PokeHook, addr)
    ensures Poke24(s, addr, v, true) == s.(mem := Write24(s.mem, addr, v))
  {
    var s1 := Poke(s, addr, v, true);
    var s2 := Poke(s1, addr + 1, v / 256, true);
    PokeUnclaimed(s, addr, v);
    PokeUnclaimed(s1, addr + 1, v / 256);
    PokeUnclaimed(s2, addr + 2, v / 65536);
    Write24Bytes(s.mem, addr, v);
  }

  /** Over cells no peek hook claims, `cpu_peek24` with L reads the word from memory. */
  lemma Peek24Unclaimed(env: Env, s: State, addr: int)
    requires WordUnclaimed(s, PeekHook, addr)
    ensures Peek24(env, s, addr, true) == (Read24(s.mem, addr), s)
  {
    PeekUnclaimed(env, s, addr);
    PeekUnclaimed(env, s, addr + 1);
    PeekUnclaimed(env, s, addr + 2);
  }

  /** Over cells no device claims, `cpu_peek24` reads back what `cpu_poke24` stored: the
      low 24 bits of the value. */
  lemma Poke24Peek24(env: Env, s: State, addr: int, v: int)
    requires WordUnclaimed(s, PokeHook, addr) && WordUnclaimed(s, PeekHook, addr)
    ensures Peek24(env, Poke24(s, addr, v, true), addr, true) == (Mask24(v), Poke24(s, addr, v, true))
  {
    Poke24Unclaimed(s, addr, v);
    var t := s.(mem := Write24(s.mem, addr, v));
    assert WordUnclaimed(t, PeekHook, addr);
    Peek24Unclaimed(env, t, addr);
    Read24Write24(s.mem, addr, v);
  }

  // ---------------------------------------------------------------------------------
  // The Lua method poke24

  /** `cvemu_poke24` as written: the value is masked to its low byte before
      `cpu_poke24`, so the two upper bytes are always stored as 0. */
  function LuaPoke24AsWritten(s: State, addr: int, v: int): State
  {
    Poke24(s, addr, v % 256, true)
  }

  /** As written, poking 0x123456 and peeking the word back gives 0x56. */
  lemma LuaPoke24AsWrittenLosesUpperBytes(env: Env, s: State, addr: int)
    requires WordUnclaimed(s, PokeHook, addr) && WordUnclaimed(s, PeekHook, addr)
    ensures Peek24(env, LuaPoke24AsWritten(s, addr, 0x123456), addr, true).0 == 0x56
  {
    assert 0x123456 % 256 == 0x56;
    Poke24Peek24(env, s, addr, 0x56);
    MaskWord(0x56);
  }

  /** `cvemu_poke24` as intended: the whole value goes to `cpu_poke24`, whose byte
      conversions keep its low 24 bits. */
  function LuaPoke24(s: State, addr: int, v: int): State
  {
    Poke24(s, addr, v, true)
  }

  /** With the corrected method, `peek24` reads back the low 24 bits of what `poke24` was
      given, wherever no device claims the three cells. */
  lemma LuaPoke24RoundTrip(env: Env, s: State, addr: int, v: int)
    requires WordUnclaimed(s, PokeHook, addr) && WordUnclaimed(s, PeekHook, addr)
    ensures Peek24(env, LuaPoke24(s, addr, v), addr, true).0 == Mask24(v)
  {
    Poke24Peek24(env, s, addr, v);
  }
  // ---------------------------------------------------------------------------------
  // The cases of cpu_execute, on the data-stack view

  /** The word i places below the top of the data stack is the one at dp - (i + 1) * 3,
      which DUP (i = 0) and PICK read. */
  lemma DataAt(s: State, i: int)
    requires DataRoom(s, 0) && 0 <= i < (s.dp - s.bottomDp) / 3
    ensures |Data(s)| == (s.dp - s.bottomDp) / 3
    ensures Data(s)[|Data(s)| - 1 - i] == Read24(s.mem, s.dp - (i + 1) * 3)
  {
    var n := (s.dp - s.bottomDp) / 3;
    assert s.dp == s.bottomDp + 3 * n;
    StackWordsAt(s.mem, s.bottomDp, n, n - 1 - i);
    assert s.bottomDp + 3 * (n - 1 - i) == s.dp - (i + 1) * 3;
  }

  /** The two pops of a two-operand case take b from the top and a from below it. */
  lemma TwoPopsView(s: State)
    requires DataRoom(s, 0) && s.dp - s.bottomDp >= 6
    ensures var d := Data(s);
      |d| >= 2 &&
      PopData(s).0 == d[|d| - 1] && PopData(PopData(s).1).0 == d[|d| - 2] &&
      PopData(PopData(s).1).1 == s.(dp := s.dp - 6)
  {
    var (b, s1) := PopData(s);
    var (a, s2) := PopData(s1);
    PopDataView(s, 0);
    PopDataView(s1, 1);
    TwoPopped(Data(s), Data(s1), Data(s2), a, b);
  }

  /** Popping two words and pushing r replaces the top two words by r. */
  lemma ReplaceTwoView(s: State, r: int)
    requires DataRoom(s, 0) && s.dp - s.bottomDp >= 6
    ensures var d := Data(s);
      |d| >= 2 &&
      Data(PushData(PopData(PopData(s).1).1, r)) == d[..|d| - 2] + [Mask24(r)]
  {
    var (b, s1) := PopData(s);
    var (a, s2) := PopData(s1);
    PopDataView(s, 0);
    PopDataView(s1, 1);
    TwoPopped(Data(s), Data(s1), Data(s2), a, b);
    PushDataView(s2, r, 1);
  }

  /** The two-operand cases pop b, then a, and push the masked result, failing only on a
      division or remainder by zero. */
  lemma BinaryView(s: State, op: Op)
    requires Binary(op) && DataRoom(s, 0) && s.dp - s.bottomDp >= 6
    ensures var d := Data(s);
      |d| >= 2 &&
      (var b, a := d[|d| - 1], d[|d| - 2];
       (BinaryOp(s, op).status.Ok? <==> !DividesByZero(op, b)) &&
       (!DividesByZero(op, b) ==>
          Data(BinaryOp(s, op).state) == d[..|d| - 2] + [Mask24(Combine(op, a, b))]))
  {
    var (b, s1) := PopData(s);
    var (a, s2) := PopData(s1);
    TwoPopsView(s);
    if !DividesByZero(op, b) {
      ReplaceTwoView(s, Combine(op, a, b));
    }
  }

  /** GT and LT compare the raw words, AGT and ALT their signed readings: they agree on
      words with bit 23 clear and disagree when exactly one has it set. */
  lemma SignedComparison(a: Word, b: Word)
    ensures a < SIGN && b < SIGN ==> Combine(AGT, a, b) == Combine(GT, a, b)
    ensures a < SIGN && b < SIGN ==> Combine(ALT, a, b) == Combine(LT, a, b)
    ensures a >= SIGN && b < SIGN ==> Combine(GT, a, b) == 1 && Combine(AGT, a, b) == 0
    ensures a >= SIGN && b < SIGN ==> Combine(LT, a, b) == 0 && Combine(ALT, a, b) == 1
  {
  }

  /** A shift case fails exactly when C leaves the shift undefined: a count b of 32 or
      more, except for ARSHIFT on a negative a, which the source computes bit by bit. */
  lemma ShiftStatusView(s: State, op: Op)
    requires Shift(op) && DataRoom(s, 0) && s.dp - s.bottomDp >= 6
    ensures var d := Data(s);
      |d| >= 2 &&
      (var b, a := d[|d| - 1], d[|d| - 2];
       ShiftOp(s, op).status.Ok? <==> b < 32 || (op == ARSHIFT && a >= SIGN))
  {
    TwoPopsView(s);
  }

  /** LSHIFT with a count below 32 replaces a, b by the masked a << b. */
  lemma ShiftLeftView(s: State)
    requires DataRoom(s, 0) && s.dp - s.bottomDp >= 6
    ensures var d := Data(s);
      |d| >= 2 &&
      (d[|d| - 1] < 32 ==> Data(ShiftOp(s, LSHIFT).state) == d[..|d| - 2] + [Shl(d[|d| - 2], d[|d| - 1])])
  {
    var (b, s1) := PopData(s);
    var (a, s2) := PopData(s1);
    TwoPopsView(s);
    if b >= 32 {
      return;
    }
    ReplaceTwoView(s, Shl(a, b));
    MaskWord(Shl(a, b));
  }

  /** RSHIFT with a count below 32 replaces a, b by a >> b. */
  lemma ShiftRightView(s: State)
    requires DataRoom(s, 0) && s.dp - s.bottomDp >= 6
    ensures var d := Data(s);
      |d| >= 2 &&
      (d[|d| - 1] < 32 ==> Data(ShiftOp(s, RSHIFT).state) == d[..|d| - 2] + [Shr(d[|d| - 2], d[|d| - 1])])
  {
    var (b, s1) := PopData(s);
    var (a, s2) := PopData(s1);
    TwoPopsView(s);
    if b >= 32 {
      return;
    }
    ReplaceTwoView(s, Shr(a, b));
    MaskWord(Shr(a, b));
  }

  /** ARSHIFT, whenever it completes, replaces a, b by the signed a divided by 2^b: the
      bit loop for a negative a and `a >> b` for a non-negative one agree with it. */
  lemma ArShiftView(s: State)
    requires DataRoom(s, 0) && s.dp - s.bottomDp >= 6
    ensures var d := Data(s);
      |d| >= 2 &&
      (ShiftOp(s, ARSHIFT).status.Ok? ==>
         Data(ShiftOp(s, ARSHIFT).state) == d[..|d| - 2] + [ArShift(d[|d| - 2], d[|d| - 1])])
  {
    var (b, s1) := PopData(s);
    var (a, s2) := PopData(s1);
    TwoPopsView(s);
    if a >= SIGN {
      ReplaceTwoView(s, ArShift(a, b));
      MaskWord(ArShift(a, b));
    } else if b < 32 {
      ReplaceTwoView(s, Shr(a, b));
      MaskWord(Shr(a, b));
      ArShiftNonNegative(a, b);
    }
  }

  /** NOT replaces the top word by 1 when it is 0 and by 0 otherwise. */
  lemma NotView(s: State)
    requires DataRoom(s, 0) && s.dp > s.bottomDp
    ensures var d := Data(s); |d| >= 1 && Data(Not(s)) == d[..|d| - 1] + [Flag(d[|d| - 1] == 0)]
  {
    var (b, s1) := PopData(s);
    PopDataView(s, 0);
    PushDataView(s1, Flag(b == 0), 0);
  }

  /** DUP copies the top word. */
  lemma DupView(s: State)
    requires DataRoom(s, 1) && s.dp > s.bottomDp
    ensures var d := Data(s); |d| >= 1 && Data(Dup(s)) == d + [d[|d| - 1]]
  {
    var w := Read24(s.mem, s.dp - 3);
    DataAt(s, 0);
    PushDataView(s, w, 0);
    MaskWord(w);
  }

  /** SWAP exchanges the top two words. */
  lemma SwapView(s: State)
    requires DataRoom(s, 0) && s.dp - s.bottomDp >= 6
    ensures var d := Data(s);
      |d| >= 2 &&
      Data(Swap(s)) == d[..|d| - 2] + [d[|d| - 1], d[|d| - 2]]
  {
    var (b, s1) := PopData(s);
    var (a, s2) := PopData(s1);
    var s3 := PushData(s2, b);
    PopDataView(s, 0);
    PopDataView(s1, 1);
    PushDataView(s2, b, 1);
    PushDataView(s3, a, 0);
    TwoPopped(Data(s), Data(s1), Data(s2), a, b);
    SwapWords(Data(s), Data(s2), Data(s3), Data(PushData(s3, a)), a, b);
  }

  /** PICK pops an index b and pushes a copy of the word b places below the new top. */
  lemma PickView(s: State)
    requires DataRoom(s, 0) && s.dp > s.bottomDp
    requires Read24(s.mem, s.dp - 3) < (s.dp - s.bottomDp) / 3 - 1
    ensures var d := Data(s);
      |d| >= 1 &&
      (var b := d[|d| - 1]; b < |d| - 1 && Data(Pick(s)) == d[..|d| - 1] + [d[|d| - 2 - b]])
  {
    var (b, s1) := PopData(s);
    PopDataView(s, 0);
    PushCopy(s1, b);
    PickWords(Data(s), Data(s1), Data(Pick(s)), b);
  }

  /** Pushing the word b places below the top copies that entry of the data stack. */
  lemma PushCopy(s: State, b: nat)
    requires DataRoom(s, 1) && b < (s.dp - s.bottomDp) / 3
    ensures var d := Data(s);
      |d| == (s.dp - s.bottomDp) / 3 &&
      Data(PushData(s, Read24(s.mem, s.dp - (b + 1) * 3))) == d + [d[|d| - 1 - b]]
  {
    var w := Read24(s.mem, s.dp - (b + 1) * 3);
    DataAt(s, b);
    PushDataView(s, w, 0);
    MaskWord(w);
  }

  /** PUSH 0 followed by PICK has exactly the effect of DUP, on every CPU state. */
  lemma PickZeroIsDup(s: State)
    ensures Pick(PushData(s, 0)) == Dup(s)
  {
    Read24Write24(s.mem, s.dp, 0);
    assert Apart(s.dp, s.dp - 3);
    Read24Write24Apart(s.mem, s.dp, s.dp - 3, 0);
    Write24Overwrite(s.mem, s.dp, 0, Mask24(Read24(s.mem, s.dp - 3)));
  }

  /** Popping c, b and a off d leaves d without its top three words. */
  lemma ThreePopped(d: seq<Word>, d1: seq<Word>, d2: seq<Word>, d3: seq<Word>, a: Word, b: Word, c: Word)
    requires |d| > 0 && c == d[|d| - 1] && d1 == d[..|d| - 1]
    requires |d1| > 0 && b == d1[|d1| - 1] && d2 == d1[..|d1| - 1]
    requires |d2| > 0 && a == d2[|d2| - 1] && d3 == d2[..|d2| - 1]
    ensures |d| >= 3 && a == d[|d| - 3] && b == d[|d| - 2] && c == d[|d| - 1] && d3 == d[..|d| - 3]
  {
  }

  /** ROT turns [.., a, b, c] into [.., b, c, a]. */
  lemma RotView(s: State)
    requires DataRoom(s, 0) && s.dp - s.bottomDp >= 9
    ensures var d := Data(s);
      |d| >= 3 &&
      Data(Rot(s)) == d[..|d| - 3] + [d[|d| - 2], d[|d| - 1], d[|d| - 3]]
  {
    var (c, s1) := PopData(s);
    var (b, s2) := PopData(s1);
    var (a, s3) := PopData(s2);
    PopDataView(s, 0);
    PopDataView(s1, 1);
    PopDataView(s2, 2);
    ThreePopped(Data(s), Data(s1), Data(s2), Data(s3), a, b, c);
    var s4 := PushData(s3, b);
    var s5 := PushData(s4, c);
    PushDataView(s3, b, 2);
    PushDataView(s4, c, 1);
    PushDataView(s5, a, 0);
    MaskWord(a);
    MaskWord(b);
    MaskWord(c);
    assert Data(Rot(s)) == Data(s3) + [b] + [c] + [a];
  }

  /** BRZ and BRNZ pop a signed offset d, then a condition c, and move next_pc to pc + d
      exactly when c is zero (BRZ) or non-zero (BRNZ); nothing else changes. */
  lemma BranchView(s: State, op: Op)
    requires (op == BRZ || op == BRNZ) && DataRoom(s, 0) && s.dp - s.bottomDp >= 6
    ensures var d := Data(s);
      |d| >= 2 &&
      var offset, c := d[|d| - 1], d[|d| - 2];
      Data(Branch(s, op)) == d[..|d| - 2] &&
      Branch(s, op).nextPc == (if (op == BRZ) == (c == 0) then s.pc + ToSigned(offset) else s.nextPc) &&
      Branch(s, op).(nextPc := s.nextPc) == s.(dp := s.dp - 6)
  {
    var (offset, s1) := PopData(s);
    var (c, s2) := PopData(s1);
    PopDataView(s, 0);
    PopDataView(s1, 1);
    var d := Data(s);
    assert Data(s1) == d[..|d| - 1] && c == d[|d| - 2] && Data(s2) == d[..|d| - 2];
    assert s2 == s.(dp := s.dp - 6);
    var taken := if op == BRZ then c == 0 else c != 0;
    assert Branch(s, op) == if taken then s2.(nextPc := s.pc + ToSigned(offset)) else s2;
  }

  /** JMPR pops the top word and adds it to pc as it stands, without sign extension. */
  lemma JmprView(s: State)
    requires DataRoom(s, 0) && s.dp > s.bottomDp
    ensures var d := Data(s);
      |d| >= 1 &&
      Data(Jmpr(s)) == d[..|d| - 1] && Jmpr(s).nextPc == s.pc + d[|d| - 1]
  {
    PopDataView(s, 0);
  }

  /** CALL saves next_pc on the call stack and RET brings it back: a RET right after a
      CALL resumes at the CALL's fall-through address with sp as it was. */
  lemma CallThenRet(s: State)
    ensures Ret(Call(s)).nextPc == Mask24(s.nextPc)
    ensures Ret(Call(s)).sp == s.sp
  {
    Read24Write24(s.mem, s.sp - 3, Mask24(s.nextPc));
  }

  /** SDP pushes sp and then the dp that holds once both words are on the stack. */
  lemma SdpView(s: State)
    requires DataRoom(s, 2)
    ensures Data(Sdp(s)) == Data(s) + [Mask24(s.sp), Mask24(s.dp + 6)]
    ensures Sdp(s) == s.(mem := Sdp(s).mem, dp := s.dp + 6)
  {
    var s1 := PushData(s, s.sp);
    PushDataView(s, s.sp, 1);
    PushDataView(s1, s1.dp + 3, 0);
  }

  /** SETSDP takes dp from the top word and sp from the word below it; nothing else
      changes, bottom_dp included. */
  lemma SetSdpView(s: State)
    requires DataRoom(s, 0) && s.dp - s.bottomDp >= 6
    ensures var d := Data(s);
      |d| >= 2 &&
      SetSdp(s).dp == d[|d| - 1] && SetSdp(s).sp == d[|d| - 2]
    ensures SetSdp(s) == s.(dp := SetSdp(s).dp, sp := SetSdp(s).sp)
  {
    TwoPopsView(s);
  }

  /** SETSDP right after SDP changes nothing: the two words SDP leaves are the sp and
      dp that SETSDP installs, when both registers hold words. */
  lemma SdpThenSetSdp(s: State)
    requires 0 <= s.sp < WORD && 0 <= s.dp + 6 < WORD
    ensures SetSdp(Sdp(s)) == Sdp(s)
  {
    var s2 := Sdp(s);
    SdpWords(s);
    assert PopData(s2) == (s.dp + 6, s2.(dp := s.dp + 3));
    assert PopData(s2.(dp := s.dp + 3)) == (s.sp, s2.(dp := s.dp));
  }

  /** The two words SDP writes: sp at the old dp and the new dp just above it. */
  lemma SdpWords(s: State)
    requires 0 <= s.sp < WORD && 0 <= s.dp + 6 < WORD
    ensures var r := Sdp(s);
      r == s.(mem := r.mem, dp := s.dp + 6) &&
      Read24(r.mem, s.dp + 3) == s.dp + 6 && Read24(r.mem, s.dp) == s.sp
  {
    MaskWord(s.dp + 6);
    MaskWord(s.sp);
    var m1 := Write24(s.mem, s.dp, s.sp);
    var m2 := Write24(m1, s.dp + 3, s.dp + 6);
    assert Sdp(s).mem == m2;
    Read24Write24(m1, s.dp + 3, s.dp + 6);
    Read24Write24Near(m1, s.dp + 3, s.dp, s.dp + 6);
    Read24Write24(s.mem, s.dp, s.sp);
  }

  /** PUSHR moves the top data word onto the call stack, when the call stack lies above
      the data stack within one turn of memory. */
  lemma PushRView(s: State)
    requires DataRoom(s, 0) && s.dp > s.bottomDp
    requires s.dp <= s.sp - 3 && s.sp - s.bottomDp <= MEM
    ensures var d := Data(s);
      |d| >= 1 &&
      DataRoom(PushR(s), 1) && Data(PushR(s)) == d[..|d| - 1] &&
      PeekCall(PushR(s)) == d[|d| - 1] && PushR(s).sp == s.sp - 3
  {
    var (v, s1) := PopData(s);
    PopDataView(s, 0);
    PushCallAbove(s1, v);
    MaskWord(v);
  }

  /** POPR moves the top call-stack word onto the data stack. */
  lemma PopRView(s: State)
    requires DataRoom(s, 1)
    ensures DataRoom(PopR(s), 0) && Data(PopR(s)) == Data(s) + [PeekCall(s)]
    ensures PopR(s).sp == s.sp + 3
  {
    PushDataView(s.(sp := s.sp + 3), PeekCall(s), 0);
    MaskWord(PeekCall(s));
  }

  /** PEEKR copies the top call-stack word onto the data stack and leaves sp alone. */
  lemma PeekRView(s: State)
    requires DataRoom(s, 1)
    ensures DataRoom(PeekR(s), 0) && Data(PeekR(s)) == Data(s) + [PeekCall(s)]
    ensures PeekR(s).sp == s.sp
  {
    PushDataView(s, PeekCall(s), 0);
    MaskWord(PeekCall(s));
  }

  /** POPR undoes PUSHR: the data stack and sp are as before. */
  lemma PushRThenPopR(s: State)
    requires DataRoom(s, 0) && s.dp > s.bottomDp
    requires s.dp <= s.sp - 3 && s.sp - s.bottomDp <= MEM
    ensures Data(PopR(PushR(s))) == Data(s) && PopR(PushR(s)).sp == s.sp
  {
    PushRView(s);
    PopRView(PushR(s));
  }
  // ---------------------------------------------------------------------------------
  // Interrupts

  /** Pushing the values one after the other puts their masked words on the data stack
      in order. */
  lemma {:induction false} PushAllView(s: State, ws: seq<int>, room: nat)
    requires DataRoom(s, |ws| + room)
    ensures DataRoom(PushAll(s, ws), room)
    ensures Data(PushAll(s, ws)) == Data(s) + Masked(ws)
    decreases |ws|
  {
    if |ws| > 0 {
      var init := ws[..|ws| - 1];
      PushAllView(s, init, room + 1);
      PushDataView(PushAll(s, init), ws[|ws| - 1], room);
    }
  }

  /** The pushes leave a word above the data they write, and within one turn of memory
      of its start, as it was. */
  lemma {:induction false} PushAllKeeps(s: State, ws: seq<int>, a: int)
    requires s.dp + 3 * |ws| <= a && a - s.dp <= MEM - 3
    ensures Read24(PushAll(s, ws).mem, a) == Read24(s.mem, a)
    decreases |ws|
  {
    if |ws| > 0 {
      var init := ws[..|ws| - 1];
      PushAllKeeps(s, init, a);
      PushAllFrame(s, init);
      var t := PushAll(s, init);
      Read24Write24Near(t.mem, t.dp, a, Mask24(ws[|ws| - 1]));
    }
  }

  /** A push on the call stack, when it lies above the data stack and within one turn of
      memory of its bottom, leaves the data stack as it was. */
  lemma PushCallAbove(s: State, v: int)
    requires DataRoom(s, 0) && s.dp <= s.sp - 3 && s.sp - s.bottomDp <= MEM
    ensures Data(PushCall(s, v)) == Data(s)
    ensures PeekCall(PushCall(s, v)) == Mask24(v)
  {
    var lo, n := s.bottomDp, (s.dp - s.bottomDp) / 3;
    assert s.dp == lo + 3 * n;
    var m := Write24(s.mem, s.sp - 3, Mask24(v));
    assert PushCall(s, v).mem == m;
    StackWordsWriteAbove(s.mem, lo, n, s.sp - 3, Mask24(v));
    assert Data(PushCall(s, v)) == StackWords(m, lo, lo + 3 * n);
    Read24Write24(s.mem, s.sp - 3, Mask24(v));
    MaskWord(Mask24(v));
  }

  /** Pushes on the data stack that stay below sp put their words on it in order and leave
      the top of the call stack as it was. */
  lemma PushAllBelow(s: State, ws: seq<int>)
    requires DataRoom(s, |ws|) && s.dp + 3 * |ws| <= s.sp && s.sp - s.dp <= MEM - 3
    ensures Data(PushAll(s, ws)) == Data(s) + Masked(ws)
    ensures PeekCall(PushAll(s, ws)) == PeekCall(s)
  {
    PushAllView(s, ws, 0);
    PushAllKeeps(s, ws, s.sp);
    PushAllFrame(s, ws);
  }

  /** Room on the data stack depends on dp and bottom_dp only. */
  lemma DataRoomSame(s: State, t: State, room: nat)
    requires DataRoom(s, room) && t.dp == s.dp && t.bottomDp == s.bottomDp
    ensures DataRoom(t, room)
  {
  }

  /** `cvemu_interrupt` does nothing while interrupts are off. Otherwise it turns them
      off, wakes the CPU, saves pc on the call stack, pushes the arguments in order and
      continues at the vector. The saved pc survives the pushes when the call stack lies
      above the data stack and the arguments fit between them. */
  lemma InterruptView(s: State, args: seq<int>)
    requires DataRoom(s, |args|)
    requires s.dp + 3 * |args| <= s.sp - 3 && s.sp - s.bottomDp <= MEM
    ensures !s.intEnabled ==> Interrupt(s, args) == s
    ensures s.intEnabled ==>
      var r := Interrupt(s, args);
      r.pc == s.intVector && !r.intEnabled && !r.halted && r.sp == s.sp - 3 &&
      PeekCall(r) == Mask24(s.pc) && Data(r) == Data(s) + Masked(args) &&
      r == s.(mem := r.mem, dp := s.dp + 3 * |args|, sp := s.sp - 3, pc := s.intVector,
              intEnabled := false, halted := false)
  {
    if s.intEnabled {
      InterruptAccepted(s, args);
    }
  }

  /** An accepted interrupt: the pushes that follow the saved pc. */
  lemma InterruptAccepted(s: State, args: seq<int>)
    requires s.intEnabled && DataRoom(s, |args|)
    requires s.dp + 3 * |args| <= s.sp - 3 && s.sp - s.bottomDp <= MEM
    ensures var r := Interrupt(s, args);
      PeekCall(r) == Mask24(s.pc) && Data(r) == Data(s) + Masked(args) &&
      r == s.(mem := r.mem, dp := s.dp + 3 * |args|, sp := s.sp - 3, pc := s.intVector,
              intEnabled := false, halted := false)
  {
    var s1 := PushCall(s.(intEnabled := false, halted := false), s.pc);
    InterruptSavesPc(s, |args|);
    PushAllBelow(s1, args);
    PushAllFrame(s1, args);
    var s2 := PushAll(s1, args);
    assert Interrupt(s, args) == s2.(pc := s.intVector);
  }

  /** The first step of an accepted interrupt: pc goes on the call stack, above the data
      stack, which keeps its words and its room. */
  lemma InterruptSavesPc(s: State, room: nat)
    requires DataRoom(s, room)
    requires s.dp + 3 * room <= s.sp - 3 && s.sp - s.bottomDp <= MEM
    ensures var s1 := PushCall(s.(intEnabled := false, halted := false), s.pc);
      s1 == s.(mem := s1.mem, sp := s.sp - 3, intEnabled := false, halted := false) &&
      Data(s1) == Data(s) && PeekCall(s1) == Mask24(s.pc) && DataRoom(s1, room)
  {
    var s0 := s.(intEnabled := false, halted := false);
    PushCallAbove(s0, s.pc);
    DataRoomSame(s, PushCall(s0, s.pc), room);
  }
  // ---------------------------------------------------------------------------------
  // The device table and the hook calls

  /** The bookkeeping `store_hook` keeps: the hook count is not negative, the table holds
      at most MAX_DEVICES devices, every present hook's slot is one of the uservalues
      numbered up to the hook count and MAX_HOOKS, and no two hooks share a slot, so the
      function `lua_getiuservalue` fetches for a hook is the one installed for it. */
  predicate HooksWellFormed(s: State)
  {
    0 <= s.numHooks && |s.devices| <= MAX_DEVICES &&
    (forall k, h :: 0 <= k < |s.devices| ==>
       Slot(s.devices[k], h) <= s.numHooks && Slot(s.devices[k], h) <= MAX_HOOKS) &&
    (forall k1, h1, k2, h2 ::
       (0 <= k1 < |s.devices| && 0 <= k2 < |s.devices| && (k1 != k2 || h1 != h2) &&
        Slot(s.devices[k1], h1) != 0) ==> Slot(s.devices[k1], h1) != Slot(s.devices[k2], h2))
  }

  /** A new CPU has no devices and no hooks. */
  lemma NewWellFormed(fill: Mem)
    ensures HooksWellFormed(New(fill))
    ensures New(fill).devices == [] && New(fill).numHooks == 0 && New(fill).trace == []
    ensures Data(New(fill)) == [] && New(fill).mem == fill
  {
  }

  /** The number of hooks a device brings. */
  function Present(reset: bool, peek: bool, poke: bool, tick: bool): nat
  {
    Flag(reset) + Flag(peek) + Flag(poke) + Flag(tick)
  }

  /** `cvemu_install_device` refuses a full table and changes nothing; otherwise it adds
      the device exactly when it has no hooks or they fit in the uservalues left,
      numbering the present hooks on from the hook count in the order reset, peek, poke,
      tick (absent ones get 0). When they do not fit, the count has moved past MAX_HOOKS
      and the table is as it was. */
  lemma InstallDeviceView(s: State, start: int, end: int, reset: bool, peek: bool, poke: bool, tick: bool)
    requires 0 <= s.numHooks
    ensures var (res, r) := InstallDevice(s, start, end, reset, peek, poke, tick);
      var n := Present(reset, peek, poke, tick);
      (res == TableFull <==> |s.devices| == MAX_DEVICES) &&
      (res == Installed <==> |s.devices| != MAX_DEVICES && (n == 0 || s.numHooks + n <= MAX_HOOKS)) &&
      (res == TableFull ==> r == s) &&
      (res == OutOfHooks ==>
         r == s.(numHooks := r.numHooks) &&
         r.numHooks == (if s.numHooks < MAX_HOOKS then MAX_HOOKS else s.numHooks) + 1) &&
      (res == Installed ==>
         r == s.(devices := r.devices, numHooks := s.numHooks + n) &&
         |r.devices| == |s.devices| + 1 && r.devices[..|s.devices|] == s.devices &&
         var d := r.devices[|s.devices|];
         d.start == start && d.end == end &&
         d.reset == (if reset then s.numHooks + 1 else 0) &&
         d.peek == (if peek then s.numHooks + Flag(reset) + 1 else 0) &&
         d.poke == (if poke then s.numHooks + Flag(reset) + Flag(peek) + 1 else 0) &&
         d.tick == (if tick then s.numHooks + Flag(reset) + Flag(peek) + Flag(poke) + 1 else 0))
  {
    var (c1, r1, ok1) := StoreHook(s.numHooks, reset);
    var (c2, r2, ok2) := StoreHook(c1, peek);
    var (c3, r3, ok3) := StoreHook(c2, poke);
    var (c4, r4, ok4) := StoreHook(c3, tick);
    StoreHookStep(s.numHooks, reset);
    StoreHookStep(c1, peek);
    StoreHookStep(c2, poke);
    StoreHookStep(c3, tick);
    var (res, r) := InstallDevice(s, start, end, reset, peek, poke, tick);
    if res == Installed {
      assert r.devices == s.devices + [Device(start, end, r1, r2, r3, r4)];
      assert (s.devices + [r.devices[|s.devices|]])[..|s.devices|] == s.devices;
    }
  }

  /** One `store_hook` on a count that is not negative: an absent hook changes nothing
      and gets slot 0; a present one moves the count up by one and fits when the new
      count is at most MAX_HOOKS, taking it as its slot. */
  lemma StoreHookStep(count: int, present: bool)
    requires 0 <= count
    ensures var (c, slot, ok) := StoreHook(count, present);
      c == count + Flag(present) &&
      (ok <==> !present || c <= MAX_HOOKS) &&
      slot == (if present && ok then c else 0)
  {
  }

  /** Installing a device keeps the hook bookkeeping sound, whatever the outcome. */
  lemma InstallKeepsWellFormed(s: State, start: int, end: int, reset: bool, peek: bool, poke: bool, tick: bool)
    requires HooksWellFormed(s)
    ensures HooksWellFormed(InstallDevice(s, start, end, reset, peek, poke, tick).1)
  {
    InstallDeviceView(s, start, end, reset, peek, poke, tick);
    var (res, r) := InstallDevice(s, start, end, reset, peek, poke, tick);
    if res == Installed {
      var d := r.devices[|s.devices|];
      assert r.devices == s.devices + [d];
      AddDeviceWellFormed(s, d, r.numHooks);
    }
  }

  /** Adding a device whose present hooks have distinct slots above the old hook count,
      and no higher than the new count or MAX_HOOKS, keeps the bookkeeping sound. */
  lemma AddDeviceWellFormed(s: State, d: Device, count: int)
    requires HooksWellFormed(s) && |s.devices| < MAX_DEVICES && s.numHooks <= count
    requires forall h :: Slot(d, h) == 0 || s.numHooks < Slot(d, h) <= count
    requires forall h :: Slot(d, h) <= MAX_HOOKS
    requires forall h1, h2 :: (h1 != h2 && Slot(d, h1) != 0) ==> Slot(d, h1) != Slot(d, h2)
    ensures HooksWellFormed(s.(devices := s.devices + [d], numHooks := count))
  {
    var t := s.(devices := s.devices + [d], numHooks := count);
    var m := |s.devices|;
    assert forall k :: 0 <= k < m ==> t.devices[k] == s.devices[k];
    assert t.devices[m] == d;
    forall k1, h1, k2, h2 |
      0 <= k1 < |t.devices| && 0 <= k2 < |t.devices| && (k1 != k2 || h1 != h2) &&
      Slot(t.devices[k1], h1) != 0
      ensures Slot(t.devices[k1], h1) != Slot(t.devices[k2], h2)
    {
      if k1 < m && k2 < m {
      } else if k1 < m {
        assert Slot(t.devices[k1], h1) <= s.numHooks;
      } else if k2 < m {
        assert Slot(t.devices[k2], h2) <= s.numHooks;
      }
    }
  }

  /** The calls a scan makes over two tables one after the other are the calls over the
      first followed by those over the second. */
  lemma {:induction false} HookCallsConcat(a: seq<Device>, b: seq<Device>, h: Hook)
    ensures HookCalls(a + b, h) == HookCalls(a, h) + HookCalls(b, h)
    decreases |b|
  {
    if |b| > 0 {
      var b0 := b[..|b| - 1];
      assert (a + b)[..|a + b| - 1] == a + b0;
      HookCallsConcat(a, b0, h);
    } else {
      assert a + b == a;
    }
  }

  /** Over a table of one device the scan calls its hook when it has one. */
  lemma HookCallsOne(d: Device, h: Hook)
    ensures HookCalls([d], h) == if Slot(d, h) == 0 then [] else [Event(h, Slot(d, h), [])]
  {
  }

  /** Every call the scan makes is to hook h, with no arguments, through the slot of a
      device of the table that has the hook; there is at most one per device. */
  lemma {:induction false} HookCallsEvents(devices: seq<Device>, h: Hook)
    ensures |HookCalls(devices, h)| <= |devices|
    ensures forall i :: 0 <= i < |HookCalls(devices, h)| ==>
      var e := HookCalls(devices, h)[i];
      e.hook == h && e.args == [] && e.slot != 0 &&
      exists k :: 0 <= k < |devices| && e.slot == Slot(devices[k], h)
    decreases |devices|
  {
    if |devices| > 0 {
      var init := devices[..|devices| - 1];
      HookCallsEvents(init, h);
      forall i | 0 <= i < |HookCalls(devices, h)|
        ensures var e := HookCalls(devices, h)[i];
          e.hook == h && e.args == [] && e.slot != 0 &&
          exists k :: 0 <= k < |devices| && e.slot == Slot(devices[k], h)
      {
        if i < |HookCalls(init, h)| {
          var e := HookCalls(init, h)[i];
          var k :| 0 <= k < |init| && e.slot == Slot(init[k], h);
          assert devices[k] == init[k];
        } else {
          assert Slot(devices[|devices| - 1], h) != 0;
        }
      }
    }
  }

  /** `cvemu_reset` empties the data stack, leaves memory and the device table alone and
      calls the reset hook of each device that has one, in table order. */
  lemma ResetView(s: State)
    ensures var r := Reset(s);
      Data(r) == [] && FetchStack(r) == Listed([]) &&
      r.mem == s.mem && r.devices == s.devices && r.numHooks == s.numHooks &&
      r.pc == 1024 && r.sp == 1024 && !r.halted && !r.intEnabled && r.intVector == 0 &&
      r.trace == s.trace + HookCalls(s.devices, ResetHook)
    ensures HooksWellFormed(s) ==> HooksWellFormed(Reset(s))
  {
  }

  /** A device installed last has its reset hook called last. */
  lemma ResetAfterInstall(s: State, start: int, end: int, peek: bool, poke: bool, tick: bool)
    requires 0 <= s.numHooks < MAX_HOOKS - 3 && |s.devices| < MAX_DEVICES
    ensures var (res, r) := InstallDevice(s, start, end, true, peek, poke, tick);
      res == Installed &&
      Reset(r).trace == s.trace + HookCalls(s.devices, ResetHook) + [Event(ResetHook, s.numHooks + 1, [])]
  {
    InstallDeviceView(s, start, end, true, peek, poke, tick);
    var (res, r) := InstallDevice(s, start, end, true, peek, poke, tick);
    var d := r.devices[|s.devices|];
    assert r.devices == s.devices + [d];
    HookCallsConcat(s.devices, [d], ResetHook);
    HookCallsOne(d, ResetHook);
  }
  // ---------------------------------------------------------------------------------
  // Fetch and run

  /** No peek hook claims the instruction byte at pc or the three bytes after it. */
  predicate CodeUnclaimed(s: State)
  {
    Unclaimed(s, PeekHook, s.pc) && Unclaimed(s, PeekHook, s.pc + 1) &&
    Unclaimed(s, PeekHook, s.pc + 2) && Unclaimed(s, PeekHook, s.pc + 3)
  }

  /** `cpu_peek` with L at addr reads memory and calls no hook. */
  predicate PeeksMemory(env: Env, s: State, addr: int)
  {
    Peek(env, s, addr, true) == (Read(s.mem, addr), s)
  }

  /** When the bytes after pc come from memory, the literal loop of `cpu_fetch` from
      turn n on reads them there and leaves the CPU alone. */
  lemma {:induction false} FetchLiteralFromMemory(env: Env, s: State, n: nat, k: nat, arg: int, place: int)
    requires 1 <= n && k <= 3
    requires PeeksMemory(env, s, s.pc + 1) && PeeksMemory(env, s, s.pc + 2) && PeeksMemory(env, s, s.pc + 3)
    ensures FetchLiteral(env, s, s.pc, n, k, arg, place) == (LoopLiteral(s.mem, s.pc, n, k, arg, place), s)
    decreases k + 1 - n
  {
    if n <= k {
      var arg', place' := arg + Read(s.mem, s.pc + n) * place, place * 256;
      FetchLiteralStep(env, s, n, k, arg, place, arg', place');
      FetchLiteralFromMemory(env, s, n + 1, k, arg', place');
      assert LoopLiteral(s.mem, s.pc, n, k, arg, place) == LoopLiteral(s.mem, s.pc, n + 1, k, arg', place');
    }
  }

  /** A turn of the literal loop over a byte that comes from memory. */
  lemma FetchLiteralStep(env: Env, s: State, n: nat, k: nat, arg: int, place: int, arg': int, place': int)
    requires 1 <= n <= k && k <= 3
    requires PeeksMemory(env, s, s.pc + 1) && PeeksMemory(env, s, s.pc + 2) && PeeksMemory(env, s, s.pc + 3)
    requires arg' == arg + Read(s.mem, s.pc + n) * place && place' == place * 256
    ensures FetchLiteral(env, s, s.pc, n, k, arg, place) == FetchLiteral(env, s, s.pc, n + 1, k, arg', place')
  {
    assert PeeksMemory(env, s, s.pc + n) by {
      if n == 1 {} else if n == 2 {} else {}
    }
  }

  /** What `cpu_fetch` does when no device answers for the code: the opcode is the high
      six bits of the byte at pc, a non-zero length field pushes the literal of that many
      following bytes, and next_pc moves past the instruction unless the opcode is HLT.
      No hook is called. */
  lemma FetchView(env: Env, s: State)
    requires DataRoom(s, 1) && CodeUnclaimed(s)
    ensures var instruction := Read(s.mem, s.pc); var len := Opcodes.LengthField(instruction);
      var (code, f) := Fetch(env, s);
      code == Opcodes.OpcodeField(instruction) &&
      Data(f) == (if len == 0 then Data(s) else Data(s) + [Literal(s.mem, s.pc, len)]) &&
      f.nextPc == (if env.decode(code) == Some(HLT) then s.nextPc else s.pc + len + 1) &&
      f == s.(mem := f.mem, dp := f.dp, nextPc := f.nextPc)
  {
    var len := Opcodes.LengthField(Read(s.mem, s.pc));
    PeekUnclaimed(env, s, s.pc);
    PeekUnclaimed(env, s, s.pc + 1);
    PeekUnclaimed(env, s, s.pc + 2);
    PeekUnclaimed(env, s, s.pc + 3);
    if len > 0 {
      FetchLiteralFromMemory(env, s, 1, len, 0, 1);
      LoopLiteralValue(s.mem, s.pc, len);
      LiteralIsWord(s.mem, s.pc, len);
      PushDataView(s, Literal(s.mem, s.pc, len), 0);
      MaskWord(Literal(s.mem, s.pc, len));
    }
  }

  /** A halted CPU runs no cycle. */
  lemma RunHalted(env: Env, s: State, fuel: nat)
    requires s.halted
    ensures Run(env, s, fuel) == Continue(s)
  {
    if fuel > 0 {
      assert Run(env, s, fuel) == Loop(env, s, fuel);
    }
  }

  /** A run with fuel m + n is a run with fuel m followed, if that one did not fault, by a
      run with fuel n from where it stopped. */
  lemma {:induction false} RunAdd(env: Env, s: State, m: nat, n: nat)
    ensures Run(env, s, m + n) ==
      (var o := Run(env, s, m); if o.status.Ok? then Run(env, o.state, n) else o)
    decreases m
  {
    if m == 0 {
    } else if s.halted {
      RunHalted(env, s, m + n);
      RunHalted(env, s, m);
      RunHalted(env, s, n);
    } else {
      var o := Cycle(env, s);
      RunCycle(env, s, o.state, o.status, m + n);
      RunCycle(env, s, o.state, o.status, m);
      if o.status.Ok? {
        RunAdd(env, o.state, m - 1, n);
        assert m - 1 + n == m + n - 1;
      }
    }
  }
}
