/**
 * Properties of the CPU of cvemu.c, stated on the functions of LegacySpec (which the
 * class in LegacyCpu is proved to compute): the circular data stack as a sequence of
 * words, the layout a reset leaves, call frames and their locals, the stack-shuffling
 * cases, memory round trips and the instruction cycle.
 */
module LegacyProps {
  import opened Words
  import opened Memory
  import Opcodes
  import opened LegacySpec

  /** The n words on top of the circular data stack, deepest first: the cell at `data`
      and the n - 1 cells before it, counted modulo STACK. */
  function Window(s: State, n: nat): seq<Word>
    requires n <= STACK
  {
    seq(n, i requires 0 <= i < n => s.stack[Around(s.data + 1 + i - n)])
  }

  /** The cell an offset from the start of the array denotes, for offsets within one turn
      of it either way. */
  function Around(x: int): Index
    requires -STACK <= x < STACK
  {
    if x < 0 then x + STACK else x
  }

  /** The word on top of the data stack. */
  function Top(s: State): Word
  {
    s.stack[s.data]
  }

  // ---------------------------------------------------------------------------------
  // The data stack

  /** `cpu_push_data(w)` puts `w & 0xffffff` on top; the n words below it, for any n
      short of the whole array, stay as they were. */
  lemma PushWindow(s: State, w: int, n: nat)
    requires n < STACK
    ensures Window(PushData(s, w), n + 1) == Window(s, n) + [Mask24(w)]
    ensures PushData(s, w) == s.(data := PushData(s, w).data, stack := PushData(s, w).stack)
  {
    var r := PushData(s, w);
    forall i | 0 <= i < n
      ensures Window(r, n + 1)[i] == Window(s, n)[i]
    {
      assert Around(r.data + 1 + i - (n + 1)) == Around(s.data + 1 + i - n);
    }
    assert r.stack[r.data] == Mask24(w);
    assert Around(r.data + 1 + n - (n + 1)) == r.data;
    assert Window(r, n + 1)[n] == r.stack[r.data];
  }

  /** `cpu_pop_data()` returns the top word and leaves the words below it on top. */
  lemma PopWindow(s: State, n: nat)
    requires n < STACK
    ensures PopData(s).0 == Top(s)
    ensures Window(s, n + 1) == Window(PopData(s).1, n) + [PopData(s).0]
    ensures PopData(s).1 == s.(data := PopData(s).1.data)
  {
    var t := PopData(s).1;
    forall i | 0 <= i < n
      ensures Window(t, n)[i] == Window(s, n + 1)[i]
    {
      assert Around(t.data + 1 + i - n) == Around(s.data + 1 + i - (n + 1));
    }
    assert Around(s.data + 1 + n - (n + 1)) == s.data;
    assert Window(s, n + 1)[n] == s.stack[s.data];
  }

  /** Push then pop gives back the masked word and the original `data`; only the cell
      written above the top differs. */
  lemma PushPopData(s: State, w: int)
    ensures PopData(PushData(s, w)) == (Mask24(w), s.(stack := PushData(s, w).stack))
  {
  }

  /** From the position a reset leaves (`data` at the last cell) k pushes, for k up to
      STACK, leave `data` at cell k - 1, or at the last cell again for k = 0. */
  lemma {:induction false} PushAllData(s: State, ws: seq<int>)
    requires s.data == STACK - 1 && |ws| <= STACK
    ensures PushAll(s, ws).data == if |ws| == 0 then STACK - 1 else |ws| - 1
    decreases |ws|
  {
    if |ws| > 0 {
      PushAllData(s, ws[..|ws| - 1]);
    }
  }

  /** From the position a reset leaves (`data` at the last cell) the pushed words fill
      the cells from 0 up, masked, and every cell above them keeps its word. */
  lemma {:induction false} PushAllFromBottom(s: State, ws: seq<int>)
    requires s.data == STACK - 1 && |ws| <= STACK
    ensures PushAll(s, ws).data == if |ws| == 0 then STACK - 1 else |ws| - 1
    ensures forall i :: 0 <= i < |ws| ==> PushAll(s, ws).stack[i] == Mask24(ws[i])
    ensures forall i :: |ws| <= i < STACK ==> PushAll(s, ws).stack[i] == s.stack[i]
    ensures PushAll(s, ws) == s.(data := PushAll(s, ws).data, stack := PushAll(s, ws).stack)
    decreases |ws|
  {
    if |ws| > 0 {
      var init := ws[..|ws| - 1];
      PushAllFromBottom(s, init);
      var t := PushAll(s, init);
      forall i | 0 <= i < |ws| - 1
        ensures ws[i] == init[i]
      {
      }
    }
  }

  /** After a reset and k pushes, for k up to STACK - 3, the data stack holds the k masked
      words in cells 0 to k - 1 and the first frame is untouched: `call` is still the last
      cell, which points at itself. Execution starts at 256 and memory is as it was. */
  lemma ResetLayout(s: State, ws: seq<int>)
    requires |ws| <= STACK - 3
    ensures var r := PushAll(Reset(s), ws);
      Window(r, |ws|) == Masked(ws) &&
      r.call == STACK - 1 && r.stack[STACK - 1] == STACK - 1 &&
      r.stack[STACK - 2] == s.stack[STACK - 2] && r.stack[STACK - 3] == s.stack[STACK - 3] &&
      r.pc == 256 && !r.halted && r.nextPc == -1 && r.mem == s.mem &&
      r.intEnabled == s.intEnabled && r.intVector == s.intVector
  {
    var r0 := Reset(s);
    var r := PushAll(r0, ws);
    PushAllFromBottom(r0, ws);
    WindowFromBottom(r, ws);
    assert r.stack[STACK - 1] == r0.stack[STACK - 1];
    assert r.stack[STACK - 2] == r0.stack[STACK - 2];
    assert r.stack[STACK - 3] == r0.stack[STACK - 3];
  }

  /** Words masked into cells 0 up to k - 1, with `data` at k - 1, are the top k words. */
  lemma WindowFromBottom(r: State, ws: seq<int>)
    requires |ws| <= STACK
    requires |ws| > 0 ==> r.data == |ws| - 1
    requires forall i :: 0 <= i < |ws| ==> r.stack[i] == Mask24(ws[i])
    ensures Window(r, |ws|) == Masked(ws)
  {
    forall i | 0 <= i < |ws|
      ensures Window(r, |ws|)[i] == Masked(ws)[i]
    {
      assert Around(r.data + 1 + i - |ws|) == i;
    }
  }

  /** HEIGHT pushes `data + 1`: after a reset and k pushes, that is k for 1 <= k <= STACK,
      and STACK (not 0) on the empty stack. */
  lemma HeightAfterPushes(s: State, ws: seq<int>)
    requires |ws| <= STACK
    ensures Top(Height(PushAll(Reset(s), ws))) == if |ws| == 0 then STACK else |ws|
  {
    PushAllData(Reset(s), ws);
    HeightTop(PushAll(Reset(s), ws));
  }

  /** HEIGHT pushes one more than the index of the top cell. */
  lemma HeightTop(r: State)
    ensures Top(Height(r)) == r.data + 1
  {
    MaskWord(r.data + 1);
  }

  /** `newCpu` leaves a zeroed array apart from the first frame's pointer to itself, so
      that frame has no locals and returns to 0. */
  lemma NewLayout(fill: Mem)
    ensures New(fill).stack == seq(STACK, i => if i == STACK - 1 then STACK - 1 else 0)
    ensures New(fill).mem == fill && New(fill).pc == 256
    ensures New(fill).call == STACK - 1 && New(fill).data == STACK - 1
  {
  }

  // ---------------------------------------------------------------------------------
  // Call frames

  /** The locals count of the current frame. */
  function Locals(s: State): Word
    requires Cell(s.call - 2)
  {
    s.stack[s.call - 2]
  }

  /** `cpu_push_call(addr)` succeeds exactly when the current frame's count cell and the
      three header cells of the new frame are in the array. The new frame starts locals + 3
      cells below the current one, points back to it, returns to `addr & 0xffffff` and has
      no locals; nothing else changes, in particular the current frame and its locals. */
  lemma PushCallView(s: State, addr: int)
    ensures var o := PushCall(s, addr);
      (o.status.Ok? <==> Cell(s.call - 2) && Cell(s.call - (Locals(s) + 3) - 2)) &&
      (!o.status.Ok? ==> o.status == Failed(StackIndexOutOfRange))
    ensures var o := PushCall(s, addr);
      o.status.Ok? ==>
        var c := o.state.call;
        c + Locals(s) + 3 == s.call &&
        o.state == s.(call := c, stack := o.state.stack) &&
        o.state.stack[c] == s.call && o.state.stack[c - 1] == Mask24(addr) && o.state.stack[c - 2] == 0 &&
        forall i :: 0 <= i < STACK && (i < c - 2 || c < i) ==> o.state.stack[i] == s.stack[i]
  {
  }

  /** Pop after a successful push on the call stack gives back the masked address and the
      original frame. */
  lemma PushPopCall(s: State, addr: int)
    ensures var o := PushCall(s, addr);
      o.status.Ok? ==> CanPopCall(o.state) && PopCall(o.state) == (Mask24(addr), o.state.(call := s.call))
  {
    PushCallView(s, addr);
  }

  /** Returning from the first frame a reset makes stays in it. */
  lemma ReturnFromFirstFrame(s: State)
    ensures CanPopCall(Reset(s)) && PopCall(Reset(s)).1.call == STACK - 1
  {
  }

  /** CALL then RET: the return resumes at the (masked) instruction after the CALL, in the
      caller's frame. */
  lemma CallThenRet(s: State)
    ensures var o := Call(s);
      o.status.Ok? ==> Ret(o.state) == Continue(o.state.(call := s.call, nextPc := Mask24(s.nextPc)))
  {
    PushCallView(s, s.nextPc);
  }

  /** FRAME n sets the current frame's locals count to the popped n and changes no other
      cell; it faults only when the count cell is outside the array. */
  lemma FrameView(s: State)
    ensures var (n, t) := PopData(s); var o := Frame(s);
      (o.status.Ok? <==> Cell(s.call - 2)) &&
      (o.status.Ok? ==>
         o.state == t.(stack := o.state.stack) && Locals(o.state) == n &&
         forall i :: 0 <= i < STACK && i != s.call - 2 ==> o.state.stack[i] == s.stack[i])
  {
  }

  /** LOCAL b pushes local b of the current frame, the cell `call - 3 - b`, when the frame
      has more than b locals, and 0 otherwise. It faults when a cell it reads is outside
      the array. */
  lemma LocalView(s: State)
    ensures var (b, t) := PopData(s); var o := Local(s);
      (o.status.Ok? <==> Cell(s.call - 2) && (Locals(s) > b ==> Cell(s.call - 3 - b))) &&
      (o.status.Ok? ==> o.state == PushData(t, if Locals(s) > b then s.stack[s.call - 3 - b] else 0))
  {
  }

  /** SETLOCAL with a frame of at most b locals drops both operands and writes nothing. */
  lemma SetLocalBeyondFrame(s: State)
    requires Cell(s.call - 2)
    ensures var (b, t) := PopData(s); var (a, t2) := PopData(t);
      Locals(s) <= b ==> SetLocal(s) == Continue(t2)
  {
  }

  /** SETLOCAL with more than b locals writes a to local b and changes no other cell. */
  lemma SetLocalInFrame(s: State)
    requires Cell(s.call - 2)
    ensures var (b, t) := PopData(s); var (a, t2) := PopData(t); var o := SetLocal(s);
      Locals(s) > b ==>
        (o.status.Ok? <==> Cell(s.call - 3 - b)) &&
        (o.status.Ok? ==>
           o.state == t2.(stack := o.state.stack) && o.state.stack[s.call - 3 - b] == a &&
           forall i :: 0 <= i < STACK && i != s.call - 3 - b ==> o.state.stack[i] == s.stack[i])
  {
  }

  /** The two cells pushes above the top of s would write. */
  predicate PushCellsAvoid(s: State, cell: int)
  {
    Next(s.data) != cell && Next(Next(s.data)) != cell
  }

  /** SETLOCAL of a as local b, then LOCAL b, reads a back (masked), provided the frame has
      more than b locals and the operands pushed for the two cases do not land on the
      frame's count cell or on local b. */
  lemma SetLocalThenLocal(s: State, a: int, b: Word)
    requires Cell(s.call - 2) && Locals(s) > b && Cell(s.call - 3 - b)
    requires PushCellsAvoid(s, s.call - 2) && PushCellsAvoid(s, s.call - 3 - b)
    ensures var o := SetLocal(PushData(PushData(s, a), b));
      o.status.Ok? && o.state.data == s.data &&
      var l := Local(PushData(o.state, b));
      l.status.Ok? && Top(l.state) == Mask24(a) && l.state.data == Next(s.data)
  {
    PopTwoPushed(s, a, b);
    var s2 := PushData(PushData(s, a), b);
    var t2 := PopData(PopData(s2).1).1;
    assert Locals(t2) == Locals(s);
    var o := SetLocal(s2);
    assert o.state == t2.(stack := t2.stack[s.call - 3 - b := Mask24(a)]);
    assert Locals(o.state) == Locals(s);
    LocalAfterPush(o.state, b);
  }

  /** LOCAL b right after b is pushed reads local b, when the frame has more than b
      locals and the push does not land on the count cell or on local b. */
  lemma LocalAfterPush(s: State, b: Word)
    requires Cell(s.call - 2) && Locals(s) > b && Cell(s.call - 3 - b)
    requires PushCellsAvoid(s, s.call - 2) && PushCellsAvoid(s, s.call - 3 - b)
    ensures var l := Local(PushData(s, b));
      l.status.Ok? && Top(l.state) == s.stack[s.call - 3 - b] && l.state.data == Next(s.data)
  {
    PopPushed(s, b);
    var u := PushData(s, b);
    assert Locals(u) == Locals(s) && u.stack[s.call - 3 - b] == s.stack[s.call - 3 - b];
    var v := s.(stack := u.stack);
    assert Local(u) == Continue(PushData(v, s.stack[s.call - 3 - b]));
  }

  /** A frame FRAME gave n locals has local b for b < n only; for b >= n LOCAL pushes 0. */
  lemma FrameThenLocal(s: State, n: Word, b: Word)
    requires Cell(s.call - 2) && PushCellsAvoid(s, s.call - 2)
    ensures var o := Frame(PushData(s, n));
      o.status.Ok? && Locals(o.state) == n &&
      (n <= b ==> var l := Local(PushData(o.state, b)); l.status.Ok? && Top(l.state) == 0)
  {
    var s1 := PushData(s, n);
    MaskWord(n);
    var o := Frame(s1);
    assert o.state.data == s.data;
    var u := PushData(o.state, b);
    MaskWord(b);
    assert Locals(u) == n;
  }

  /** FRAME n then a call: the new frame starts n + 3 cells below, right under the n
      locals of the current one. */
  lemma FrameSizesCall(s: State, n: Word, addr: int)
    requires Cell(s.call - 2) && PushCellsAvoid(s, s.call - 2)
    ensures var o := Frame(PushData(s, n));
      o.status.Ok? &&
      var p := PushCall(o.state, addr);
      p.status.Ok? ==> p.state.call == s.call - n - 3
  {
    MaskWord(n);
    var o := Frame(PushData(s, n));
    PushCallView(o.state, addr);
  }

  // ---------------------------------------------------------------------------------
  // The data-stack cases

  /** A two-operand case pops b (the top) and a (below it) and pushes `a op b`; only DIV
      and MOD by zero fault. */
  lemma BinaryView(s: State, op: Op, n: nat)
    requires Binary(op) && n + 2 <= STACK
    ensures var w := Window(s, n + 2); var a, b := w[n], w[n + 1]; var o := BinaryOp(s, op);
      (o.status.Ok? <==> !DividesByZero(op, b)) &&
      (!o.status.Ok? ==> o.status == Failed(DivideByZero)) &&
      (o.status.Ok? ==> Window(o.state, n + 1) == w[..n] + [Mask24(Combine(op, a, b))])
  {
    var (b, t) := PopData(s);
    var (a, t2) := PopData(t);
    PopWindow(s, n + 1);
    PopWindow(t, n);
    if !DividesByZero(op, b) {
      PushWindow(t2, Combine(op, a, b), n);
    }
  }

  /** SWAP exchanges the two top words. */
  lemma SwapView(s: State, n: nat)
    requires n + 2 <= STACK
    ensures var w := Window(s, n + 2); Window(Swap(s), n + 2) == w[..n] + [w[n + 1], w[n]]
  {
    var (b, t) := PopData(s);
    var (a, t2) := PopData(t);
    PopWindow(s, n + 1);
    PopWindow(t, n);
    PushWindow(t2, b, n);
    PushWindow(PushData(t2, b), a, n + 1);
  }

  /** DUP2 works exactly when the top is neither cell 0 nor cell STACK - 1 (its index
      below `data` is not reduced modulo STACK); then it duplicates the top pair. */
  lemma Dup2View(s: State, n: nat)
    requires 2 <= n && n + 2 <= STACK
    ensures Dup2(s).status.Ok? <==> 1 <= s.data <= STACK - 2
    ensures Dup2(s).status.Ok? ==> Window(Dup2(s).state, n + 2) == Window(s, n) + Window(s, 2)
  {
    if 1 <= s.data <= STACK - 2 {
      var x, y := s.stack[s.data - 1], s.stack[s.data];
      var s1 := PushData(s, x);
      assert s1.data == s.data + 1 && s1.stack[s1.data - 1] == y;
      PushWindow(s, x, n);
      PushWindow(s1, y, n + 1);
      MaskWord(x);
      MaskWord(y);
      assert Around(s.data + 1 + 0 - 2) == s.data - 1 && Around(s.data + 1 + 1 - 2) == s.data;
      assert Window(s, 2) == [x, y];
    }
  }

  /** PICK b pushes the word b places below the top (after b is popped). The index is not
      reduced modulo STACK, so it faults when that word lies across the wrap of the array. */
  lemma PickView(s: State)
    ensures var (b, t) := PopData(s); var o := Pick(s);
      (o.status.Ok? <==> b <= t.data) &&
      (o.status.Ok? ==> b < STACK && o.state == PushData(t, Window(t, b + 1)[0]))
  {
    var (b, t) := PopData(s);
    if b <= t.data {
      assert Around(t.data + 1 + 0 - (b + 1)) == t.data - b;
    }
  }

  /** PICK with 0 on top is DUP of what is below it. */
  lemma PickZeroIsDup(s: State)
    ensures Pick(PushData(s, 0)) == Continue(Dup(s))
  {
    var s1 := PushData(s, 0);
    var (b, t) := PopData(s1);
    assert b == 0 && t.data == s.data;
    assert t.stack[t.data] == s.stack[s.data];
    assert PushData(t, s.stack[s.data]).stack == Dup(s).stack;
  }

  /** DUP pushes a copy of the top word. */
  lemma DupView(s: State, n: nat)
    requires 1 <= n && n + 1 <= STACK
    ensures Window(Dup(s), n + 1) == Window(s, n) + [Top(s)]
  {
    PushWindow(s, Top(s), n);
    MaskWord(Top(s));
  }

  // ---------------------------------------------------------------------------------
  // Control

  /** BRZ pops an unsigned offset d, then a condition c, and sets next_pc to pc + d only
      when c is 0; nothing else changes apart from the two pops. */
  lemma BrzView(s: State, n: nat)
    requires n + 2 <= STACK
    ensures var w := Window(s, n + 2); var c, d := w[n], w[n + 1]; var r := Brz(s);
      Window(r, n) == w[..n] &&
      r.nextPc == (if c == 0 then s.pc + d else s.nextPc) &&
      r == s.(data := r.data, nextPc := r.nextPc)
  {
    var (d, t) := PopData(s);
    PopWindow(s, n + 1);
    PopWindow(t, n);
  }

  /** JMPR adds the popped word to pc as an unsigned offset. */
  lemma JmprView(s: State, n: nat)
    requires n + 1 <= STACK
    ensures var r := Jmpr(s);
      Window(r, n) == Window(s, n + 1)[..n] && r.nextPc == s.pc + Top(s) &&
      r == s.(data := r.data, nextPc := r.nextPc)
  {
    PopWindow(s, n);
  }

  /** A code whose opcode field has no case only commits next_pc. */
  lemma ExecuteNoCase(decode: int -> Option<Op>, s: State, code: int)
    requires decode(code) == None
    ensures Execute(decode, s, code) == Continue(s.(pc := s.nextPc))
  {
  }

  /** HLT halts and commits the next_pc left by the previous instruction, since the fetch
      of HLT does not set it; the run then stops. */
  lemma HaltView(decode: int -> Option<Op>, s: State, fuel: nat)
    requires decode(Opcodes.OpcodeField(Read(s.mem, s.pc))) == Some(HLT)
    requires Opcodes.LengthField(Read(s.mem, s.pc)) == 0
    ensures Cycle(decode, s) == Continue(s.(halted := true, pc := s.nextPc))
    ensures Run(decode, Cycle(decode, s).state, fuel) == Cycle(decode, s)
  {
    RunHalted(decode, Cycle(decode, s).state, fuel);
  }

  // ---------------------------------------------------------------------------------
  // Memory

  /** Popping twice after pushing a and then b gives back b, then a masked, and the
      original `data` and memory. */
  lemma PopTwoPushed(s: State, a: int, b: Word)
    ensures var (b', t) := PopData(PushData(PushData(s, a), b)); var (a', t2) := PopData(t);
      b' == b && a' == Mask24(a) && t2 == s.(stack := t2.stack)
  {
    MaskWord(b);
  }

  /** Pushing b and then popping it gives back b and the original state. */
  lemma PopPushed(s: State, b: Word)
    ensures PopData(PushData(s, b)) == (b, s.(stack := PushData(s, b).stack))
  {
    MaskWord(b);
  }

  /** STORE of a at address b, then LOAD at b, pushes the low byte of a; the store leaves
      `data` where it was before the operands were pushed. */
  lemma StoreThenLoad(s: State, a: int, b: Word)
    ensures var r := AccessOp(PushData(PushData(s, a), b), STORE);
      r.data == s.data &&
      var l := AccessOp(PushData(r, b), LOAD);
      Top(l) == Mask24(a) % 256 && l.data == Next(s.data)
  {
    PopTwoPushed(s, a, b);
    var r := AccessOp(PushData(PushData(s, a), b), STORE);
    assert r.mem == Write(s.mem, b, Mask24(a));
    PopPushed(r, b);
    ReadAfterWrite(s.mem, b, b, Mask24(a));
    MaskWord(Mask24(a) % 256);
  }

  /** STORE16 then LOAD16 at the same address pushes the low 16 bits, little-endian. */
  lemma Store16ThenLoad16(s: State, a: int, b: Word)
    ensures var r := AccessOp(PushData(PushData(s, a), b), STORE16);
      r.data == s.data &&
      var l := AccessOp(PushData(r, b), LOAD16);
      Top(l) == Mask24(a) % 65536 && l.data == Next(s.data)
  {
    PopTwoPushed(s, a, b);
    var r := AccessOp(PushData(PushData(s, a), b), STORE16);
    assert r.mem == Write16(s.mem, b, Mask24(a));
    PopPushed(r, b);
    Read16Write16(s.mem, b, Mask24(a));
    MaskWord(Mask24(a) % 65536);
  }

  /** STORE24 then LOAD24 at the same address pushes the whole masked word. */
  lemma Store24ThenLoad24(s: State, a: int, b: Word)
    ensures var r := AccessOp(PushData(PushData(s, a), b), STORE24);
      r.data == s.data &&
      var l := AccessOp(PushData(r, b), LOAD24);
      Top(l) == Mask24(a) && l.data == Next(s.data)
  {
    PopTwoPushed(s, a, b);
    var r := AccessOp(PushData(PushData(s, a), b), STORE24);
    assert r.mem == Write24(s.mem, b, Mask24(a));
    PopPushed(r, b);
    Read24Write24(s.mem, b, Mask24(a));
    MaskWord(Mask24(a));
  }

  // ---------------------------------------------------------------------------------
  // Fetch and run

  /** The word the fetch pushes for an instruction with len > 0 literal bytes after pc:
      the next byte, the next two or the next three, little-endian. */
  function LiteralWord(m: Mem, pc: int, len: nat): int
  {
    if len == 1 then Read(m, pc + 1) else if len == 2 then Read16(m, pc + 1) else Read24(m, pc + 1)
  }

  /** What `cpu_fetch` does: the opcode is the high six bits of the byte at pc, a non-zero
      length field pushes the literal of that many following bytes, and next_pc moves
      past the instruction unless the opcode is HLT. */
  lemma FetchView(decode: int -> Option<Op>, s: State, n: nat)
    requires n < STACK
    ensures var instruction := Read(s.mem, s.pc); var len := Opcodes.LengthField(instruction);
      var (code, f) := Fetch(decode, s);
      code == Opcodes.OpcodeField(instruction) &&
      f.nextPc == (if decode(code) == Some(HLT) then s.nextPc else s.pc + len + 1) &&
      (len == 0 ==> f == s.(nextPc := f.nextPc)) &&
      (len > 0 ==> Window(f, n + 1) == Window(s, n) + [LiteralWord(s.mem, s.pc, len)] &&
                   f == s.(data := f.data, stack := f.stack, nextPc := f.nextPc))
  {
    var len := Opcodes.LengthField(Read(s.mem, s.pc));
    if len > 0 {
      LiteralValue(s.mem, s.pc);
      LiteralIsWord(s.mem, s.pc, len);
      PushWindow(s, Literal(s.mem, s.pc, len), n);
      MaskWord(Literal(s.mem, s.pc, len));
    }
  }

  /** A halted CPU runs no cycle. */
  lemma RunHalted(decode: int -> Option<Op>, s: State, fuel: nat)
    requires s.halted
    ensures Run(decode, s, fuel) == Continue(s)
  {
    if fuel > 0 {
      assert Run(decode, s, fuel) == Loop(decode, s, fuel);
    }
  }

  /** A run with fuel m + n is a run with fuel m followed, if that one did not fault, by a
      run with fuel n from where it stopped. */
  lemma {:induction false} RunAdd(decode: int -> Option<Op>, s: State, m: nat, n: nat)
    ensures Run(decode, s, m + n) ==
      (var o := Run(decode, s, m); if o.status.Ok? then Run(decode, o.state, n) else o)
    decreases m, 1
  {
    if m == 0 {
    } else if s.halted {
      RunHalted(decode, s, m + n);
      RunHalted(decode, s, m);
      RunHalted(decode, s, n);
    } else {
      var o := Cycle(decode, s);
      RunAddTurn(decode, s, o.state, o.status, m, n);
    }
  }

  /** RunAdd for a running CPU whose first cycle ends in `t` with `status`. */
  lemma {:induction false} RunAddTurn(decode: int -> Option<Op>, s: State, t: State, status: Status, m: nat, n: nat)
    requires !s.halted && m > 0
    requires Outcome(status, t) == Cycle(decode, s)
    ensures Run(decode, s, m + n) ==
      (var o := Run(decode, s, m); if o.status.Ok? then Run(decode, o.state, n) else o)
    decreases m, 0
  {
    RunCycle(decode, s, t, status, m + n);
    RunCycle(decode, s, t, status, m);
    if status.Ok? {
      RunAdd(decode, t, m - 1, n);
      assert m - 1 + n == m + n - 1;
    }
  }
}
