/**
 * The 128 KiB byte memory shared by the three engines, as a value: every address is
 * masked to 17 bits, words are stored little-endian over three consecutive (masked)
 * addresses, and a byte-addressed stack is a run of such words.
 */
module Memory {
  import opened Words

  /** Size of main memory in bytes: `MEM` / `VULCAN_MEM`, 128 * 1024. */
  const MEM: int := 0x2_0000

  type Mem = m: seq<Byte> | |m| == 0x2_0000 witness seq(0x2_0000, _ => 0)

  /** `addr & 0x01ffff` applied to a C address: the cell an address denotes. The C code
      converts a signed `int` to `unsigned` first; since 2^17 divides 2^32 both steps
      together are reduction modulo 2^17. */
  function Addr(a: int): (r: int)
    ensures 0 <= r < MEM
  {
    a % MEM
  }

  /** One byte read, `mem[addr & 0x1ffff]`. */
  function Read(m: Mem, a: int): Byte
  {
    m[Addr(a)]
  }

  /** One byte written; the value is converted to `unsigned char` first. */
  function Write(m: Mem, a: int, v: int): Mem
  {
    m[Addr(a) := v % 256]
  }

  /** Reading back a written byte yields the value modulo 256; every other cell keeps
      its byte. */
  lemma ReadAfterWrite(m: Mem, a: int, b: int, v: int)
    ensures Read(Write(m, a, v), b) == if Addr(a) == Addr(b) then v % 256 else Read(m, b)
  {
  }

  /** Addresses that differ by a multiple of 0x20000 name the same cell. */
  lemma {:induction false} AddrAlias(a: int, k: int)
    ensures Addr(a + k * MEM) == Addr(a)
  {
    var q := a / MEM;
    assert a == q * MEM + Addr(a);
    assert a + k * MEM == (q + k) * MEM + Addr(a);
    DivUnique(a + k * MEM, MEM, q + k, Addr(a));
  }

  /** Two little-endian bytes at a, a + 1. */
  function Read16(m: Mem, a: int): int
  {
    Read(m, a) + 256 * Read(m, a + 1)
  }

  /** The low 8k bits of v stored little-endian in the k cells from a on: one byte, then
      the rest of the value shifted right by eight from the next address on. The source
      shifts right and masks with 0xff; on a two's-complement value that is floor division
      followed by reduction modulo 256, which Write performs. */
  function WriteBytes(m: Mem, a: int, v: int, k: nat): Mem
    decreases k
  {
    if k == 0 then m else WriteBytes(Write(m, a, v), a + 1, v / 256, k - 1)
  }

  /** The low 16 bits of v stored little-endian at a, a + 1 (`poke(b, a); poke(b+1, a >> 8)`). */
  function Write16(m: Mem, a: int, v: int): Mem
  {
    WriteBytes(m, a, v, 2)
  }

  lemma Write16Bytes(m: Mem, a: int, v: int)
    ensures Write16(m, a, v) == Write(Write(m, a, v), a + 1, v / 256)
  {
    var m1 := Write(m, a, v);
    assert WriteBytes(m, a, v, 2) == WriteBytes(m1, a + 1, v / 256, 1);
    assert WriteBytes(m1, a + 1, v / 256, 1) == WriteBytes(Write(m1, a + 1, v / 256), a + 2, v / 256 / 256, 0);
  }

  /** Three little-endian bytes at a, a + 1, a + 2 (`peek24`). */
  function Read24(m: Mem, a: int): Word
  {
    Read(m, a) + 256 * Read(m, a + 1) + 65536 * Read(m, a + 2)
  }

  /** The low 24 bits of v stored little-endian at a, a + 1, a + 2 (`poke24`). */
  function Write24(m: Mem, a: int, v: int): Mem
  {
    WriteBytes(m, a, v, 3)
  }

  lemma Write24Bytes(m: Mem, a: int, v: int)
    ensures Write24(m, a, v) == Write(Write(Write(m, a, v), a + 1, v / 256), a + 2, v / 65536)
  {
    var m1 := Write(m, a, v);
    var m2 := Write(m1, a + 1, v / 256);
    assert v / 256 / 256 == v / 65536 by {
      var q := v / 256 / 256;
      assert v == q * 65536 + ((v / 256) % 256) * 256 + v % 256;
      DivUnique(v, 65536, q, ((v / 256) % 256) * 256 + v % 256);
    }
    assert WriteBytes(m, a, v, 3) == WriteBytes(m1, a + 1, v / 256, 2);
    assert WriteBytes(m1, a + 1, v / 256, 2) == WriteBytes(m2, a + 2, v / 256 / 256, 1);
    assert WriteBytes(m2, a + 2, v / 256 / 256, 1) == WriteBytes(Write(m2, a + 2, v / 256 / 256), a + 3, v / 256 / 256 / 256, 0);
  }

  lemma AdjacentCellsDiffer(a: int)
    ensures Addr(a) != Addr(a + 1) && Addr(a + 1) != Addr(a + 2) && Addr(a) != Addr(a + 2)
  {
  }

  /** A word splits into three bytes whose little-endian sum is the word. */
  lemma ByteSplit(v: int)
    ensures v % 256 + 256 * ((v / 256) % 256) + 65536 * ((v / 65536) % 256) == v % WORD
  {
    var b0, q0 := v % 256, v / 256;
    var b1, q1 := q0 % 256, q0 / 256;
    var b2 := q1 % 256;
    assert v / 65536 == q1 by {
      assert v == q1 * 65536 + (b1 * 256 + b0);
      DivUnique(v, 65536, q1, b1 * 256 + b0);
    }
    var q2 := q1 / 256;
    assert v == q2 * WORD + (b2 * 65536 + b1 * 256 + b0);
    DivUnique(v, WORD, q2, b2 * 65536 + b1 * 256 + b0);
  }

  /** 16-bit round trip: what STORE16 writes, LOAD16 reads back, up to the low 16 bits. */
  lemma Read16Write16(m: Mem, a: int, v: int)
    ensures Read16(Write16(m, a, v), a) == v % 65536
  {
    Write16Bytes(m, a, v);
    AdjacentCellsDiffer(a);
    var b0, q0 := v % 256, v / 256;
    var b1 := q0 % 256;
    assert v == (q0 / 256) * 65536 + (b1 * 256 + b0);
    DivUnique(v, 65536, q0 / 256, b1 * 256 + b0);
  }

  /** 24-bit round trip: `poke24(a, x)` then `peek24(a)` gives `x & 0xffffff`. */
  lemma Read24Write24(m: Mem, a: int, v: int)
    ensures Read24(Write24(m, a, v), a) == Mask24(v)
  {
    Write24Bytes(m, a, v);
    AdjacentCellsDiffer(a);
    var m' := Write24(m, a, v);
    assert Read(m', a) == v % 256;
    assert Read(m', a + 1) == (v / 256) % 256;
    assert Read(m', a + 2) == (v / 65536) % 256;
    ByteSplit(v);
  }

  /** `poke24` changes exactly the three cells a, a + 1, a + 2. */
  lemma Write24Frame(m: Mem, a: int, v: int, i: int)
    requires 0 <= i < MEM && i != Addr(a) && i != Addr(a + 1) && i != Addr(a + 2)
    ensures Write24(m, a, v)[i] == m[i]
  {
    Write24Bytes(m, a, v);
  }

  /** The 3-byte windows at a and b do not share a cell: b lies at least one word after a
      and at least one word before a + 0x20000. */
  predicate Apart(a: int, b: int)
  {
    3 <= (b - a) % MEM <= MEM - 3
  }

  lemma ApartSymmetric(a: int, b: int)
    requires Apart(a, b)
    ensures Apart(b, a)
  {
    var d := (b - a) % MEM;
    assert (a - b) % MEM == MEM - d by {
      var q := (b - a) / MEM;
      assert a - b == (-q - 1) * MEM + (MEM - d);
      DivUnique(a - b, MEM, -q - 1, MEM - d);
    }
  }

  lemma {:induction false} ApartCells(a: int, b: int, i: int, j: int)
    requires Apart(a, b) && 0 <= i < 3 && 0 <= j < 3
    ensures Addr(a + i) != Addr(b + j)
  {
    var d := (b - a) % MEM;
    var q := (b - a) / MEM;
    assert (b + j) - (a + i) == q * MEM + (d + j - i);
    // so (b + j) - (a + i) leaves remainder d + j - i, which is not 0
    DivUnique((b + j) - (a + i), MEM, q, d + j - i);
    DifferentCell(b + j, a + i);
  }

  lemma DifferentCell(x: int, y: int)
    requires (x - y) % MEM != 0
    ensures Addr(x) != Addr(y)
  {
  }

  /** A word written at a does not disturb the word stored at a separate address b. */
  lemma Read24Write24Apart(m: Mem, a: int, b: int, v: int)
    requires Apart(a, b)
    ensures Read24(Write24(m, a, v), b) == Read24(m, b)
  {
    Write24Bytes(m, a, v);
    ApartCells(a, b, 0, 0); ApartCells(a, b, 1, 0); ApartCells(a, b, 2, 0);
    ApartCells(a, b, 0, 1); ApartCells(a, b, 1, 1); ApartCells(a, b, 2, 1);
    ApartCells(a, b, 0, 2); ApartCells(a, b, 1, 2); ApartCells(a, b, 2, 2);
  }

  /** The word at b is unaffected by a single byte written at a cell outside b's window. */
  lemma Read24WriteOutside(m: Mem, a: int, b: int, v: int)
    requires Addr(a) != Addr(b) && Addr(a) != Addr(b + 1) && Addr(a) != Addr(b + 2)
    ensures Read24(Write(m, a, v), b) == Read24(m, b)
  {
  }

  lemma ApartNear(a: int, b: int)
    requires 3 <= b - a <= MEM - 3
    ensures Apart(a, b)
  {
  }

  /** Two addresses at least a word apart, and at least a word short of wrapping round,
      hold words that a write to one does not disturb at the other. */
  lemma Read24Write24Near(m: Mem, a: int, b: int, v: int)
    requires 3 <= b - a <= MEM - 3 || 3 <= a - b <= MEM - 3
    ensures Read24(Write24(m, a, v), b) == Read24(m, b)
  {
    if 3 <= b - a {
      ApartNear(a, b);
    } else {
      ApartNear(b, a);
      ApartSymmetric(b, a);
    }
    Read24Write24Apart(m, a, b, v);
  }

  /** The literal of an instruction at pc with k argument bytes, assembled as the fetch
      loop does: `arg += peek(pc + n) << (8 * (n - 1))` for n = 1..k. */
  function Literal(m: Mem, pc: int, k: nat): int
    requires k <= 3
  {
    if k == 0 then 0 else Literal(m, pc, k - 1) + Read(m, pc + k) * Pow2(8 * (k - 1))
  }

  /** A literal of k bytes is the little-endian number in the k bytes after the opcode
      byte: one byte, LOAD16's two bytes, LOAD24's three bytes. So it is a word, and
      pushing it loses nothing. */
  lemma LiteralValue(m: Mem, pc: int)
    ensures Literal(m, pc, 0) == 0
    ensures Literal(m, pc, 1) == Read(m, pc + 1)
    ensures Literal(m, pc, 2) == Read16(m, pc + 1)
    ensures Literal(m, pc, 3) == Read24(m, pc + 1)
  {
    assert Pow2(8) == 256;
    assert Pow2(16) == 65536 by { Pow2Add(8, 8); }
    assert Literal(m, pc, 1) == Read(m, pc + 1);
    assert Literal(m, pc, 2) == Read(m, pc + 1) + Read(m, pc + 2) * 256;
  }

  lemma LiteralIsWord(m: Mem, pc: int, k: nat)
    requires k <= 3
    ensures 0 <= Literal(m, pc, k) < WORD
  {
    LiteralValue(m, pc);
    assert k == 0 || k == 1 || k == 2 || k == 3;
  }

  /** The literal-assembly loop of a fetch from its turn n on, reading the bytes from memory:
      `arg` is the literal so far and `place` the weight `1 << (8 * (n - 1))` of byte n. */
  function LoopLiteral(m: Mem, pc: int, n: nat, k: nat, arg: int, place: int): int
    decreases k + 1 - n
  {
    if n > k then arg else LoopLiteral(m, pc, n + 1, k, arg + Read(m, pc + n) * place, place * 256)
  }

  /** The loop assembles the little-endian literal of the k bytes after pc. */
  lemma LoopLiteralValue(m: Mem, pc: int, k: nat)
    requires k <= 3
    ensures LoopLiteral(m, pc, 1, k, 0, 1) == Literal(m, pc, k)
  {
    var b1: int, b2: int, b3: int := Read(m, pc + 1), Read(m, pc + 2), Read(m, pc + 3);
    assert Pow2(8) == 256;
    assert Pow2(16) == 65536 by { Pow2Add(8, 8); }
    assert Literal(m, pc, 1) == b1;
    assert Literal(m, pc, 2) == b1 + b2 * 256;
    assert Literal(m, pc, 3) == b1 + b2 * 256 + b3 * 65536;
    if k >= 1 {
      assert LoopLiteral(m, pc, 1, k, 0, 1) == LoopLiteral(m, pc, 2, k, b1, 256);
      if k >= 2 {
        assert LoopLiteral(m, pc, 2, k, b1, 256) == LoopLiteral(m, pc, 3, k, b1 + b2 * 256, 65536);
        if k == 3 {
          assert LoopLiteral(m, pc, 3, k, b1 + b2 * 256, 65536) ==
            LoopLiteral(m, pc, 4, k, b1 + b2 * 256 + b3 * 65536, 16777216);
        }
      }
    }
  }

  /** The words of a byte-addressed stack that starts at lo and whose next free byte is hi,
      bottom first, as `cvemu_fetch_stack` lists them (`for (i = bottom_dp; i < dp; i += 3)`). */
  function StackWords(m: Mem, lo: int, hi: int): seq<Word>
    decreases hi - lo
  {
    if lo >= hi then [] else [Read24(m, lo)] + StackWords(m, lo + 3, hi)
  }

  /** A listing of n > 0 words is its bottom word followed by the listing of the rest. */
  lemma StackWordsCons(m: Mem, lo: int, n: nat)
    requires n > 0
    ensures StackWords(m, lo, lo + 3 * n) == [Read24(m, lo)] + StackWords(m, lo + 3, lo + 3 + 3 * (n - 1))
  {
    assert lo + 3 + 3 * (n - 1) == lo + 3 * n;
  }

  /** On a stack of n whole words, the listing has n entries and entry k is the word at
      lo + 3k. */
  lemma {:induction false} StackWordsAt(m: Mem, lo: int, n: nat, k: int)
    requires 0 <= k < n
    ensures |StackWords(m, lo, lo + 3 * n)| == n
    ensures StackWords(m, lo, lo + 3 * n)[k] == Read24(m, lo + 3 * k)
    decreases n
  {
    assert lo + 3 + 3 * (n - 1) == lo + 3 * n;
    if k > 0 {
      StackWordsAt(m, lo + 3, n - 1, k - 1);
    } else if n > 1 {
      StackWordsAt(m, lo + 3, n - 1, 0);
    }
  }

  lemma {:induction false} StackWordsLength(m: Mem, lo: int, n: nat)
    ensures |StackWords(m, lo, lo + 3 * n)| == n
    decreases n
  {
    if n > 0 {
      assert lo + 3 + 3 * (n - 1) == lo + 3 * n;
      StackWordsLength(m, lo + 3, n - 1);
    }
  }

  /** One more word on top of a stack of n words extends its listing by that word. */
  lemma {:induction false} StackWordsAppend(m: Mem, lo: int, n: nat)
    ensures StackWords(m, lo, lo + 3 * (n + 1)) == StackWords(m, lo, lo + 3 * n) + [Read24(m, lo + 3 * n)]
    decreases n
  {
    if n > 0 {
      assert lo + 3 + 3 * n == lo + 3 * (n + 1);
      assert lo + 3 + 3 * (n - 1) == lo + 3 * n;
      StackWordsAppend(m, lo + 3, n - 1);
    }
  }

  /** A word written above a stack of n words, low enough not to wrap round onto its
      bottom, leaves the listing unchanged. */
  lemma {:induction false} StackWordsWriteAbove(m: Mem, lo: int, n: nat, a: int, v: int)
    requires lo + 3 * n <= a <= lo + MEM - 3
    ensures StackWords(Write24(m, a, v), lo, lo + 3 * n) == StackWords(m, lo, lo + 3 * n)
    decreases n
  {
    if n > 0 {
      Read24Write24Near(m, a, lo, v);
      StackWordsWriteAbove(m, lo + 3, n - 1, a, v);
      StackWordsCons(Write24(m, a, v), lo, n);
      StackWordsCons(m, lo, n);
    }
  }

  /** A word written below a stack of n words, high enough not to wrap round onto its
      top, leaves the listing unchanged. */
  lemma {:induction false} StackWordsWriteBelow(m: Mem, lo: int, n: nat, a: int, v: int)
    requires a + 3 <= lo && lo + 3 * n <= a + MEM
    ensures StackWords(Write24(m, a, v), lo, lo + 3 * n) == StackWords(m, lo, lo + 3 * n)
    decreases n
  {
    if n > 0 {
      Read24Write24Near(m, a, lo, v);
      StackWordsWriteBelow(m, lo + 3, n - 1, a, v);
      StackWordsCons(Write24(m, a, v), lo, n);
      StackWordsCons(m, lo, n);
    }
  }

  lemma StackWordsExtend(m: Mem, m': Mem, lo: int, n: nat, w: Word)
    requires StackWords(m', lo, lo + 3 * n) == StackWords(m, lo, lo + 3 * n)
    requires Read24(m', lo + 3 * n) == w
    ensures StackWords(m', lo, lo + 3 * (n + 1)) == StackWords(m, lo, lo + 3 * n) + [w]
  {
    StackWordsAppend(m', lo, n);
  }

  /** A word written just above a stack of n words (a push on a stack that grows up)
      extends its listing by that word. */
  lemma StackWordsPushAbove(m: Mem, lo: int, n: nat, w: Word)
    requires 3 * n + 3 <= MEM
    ensures StackWords(Write24(m, lo + 3 * n, w), lo, lo + 3 * (n + 1)) == StackWords(m, lo, lo + 3 * n) + [w]
  {
    StackWordsWriteAbove(m, lo, n, lo + 3 * n, w);
    Read24Write24(m, lo + 3 * n, w);
    MaskWord(w);
    StackWordsExtend(m, Write24(m, lo + 3 * n, w), lo, n, w);
  }

  /** A word written just below a stack of n words (a push on a stack that grows down)
      becomes the first entry of its listing. */
  lemma StackWordsPushBelow(m: Mem, lo: int, n: nat, w: Word)
    requires 3 * n + 3 <= MEM
    ensures StackWords(Write24(m, lo - 3, w), lo - 3, lo + 3 * n) == [w] + StackWords(m, lo, lo + 3 * n)
  {
    StackWordsWriteBelow(m, lo, n, lo - 3, w);
    Read24Write24(m, lo - 3, w);
    MaskWord(w);
  }

  // ---------------------------------------------------------------------------------
  // Sequence facts the stack views of the engines share

  /** Popping b and then a off d leaves d without its top two words, a being the second
      from the top. */
  lemma TwoPopped(d: seq<Word>, d1: seq<Word>, d2: seq<Word>, a: Word, b: Word)
    requires |d| > 0 && b == d[|d| - 1] && d1 == d[..|d| - 1]
    requires |d1| > 0 && a == d1[|d1| - 1] && d2 == d1[..|d1| - 1]
    ensures |d| >= 2 && a == d[|d| - 2] && d2 == d[..|d| - 2]
  {
  }

  /** Pushing b and then a back onto d without its top two words exchanges them. */
  lemma SwapWords(d: seq<Word>, d2: seq<Word>, d3: seq<Word>, d4: seq<Word>, a: Word, b: Word)
    requires |d| >= 2 && b == d[|d| - 1] && a == d[|d| - 2] && d2 == d[..|d| - 2]
    requires d3 == d2 + [Mask24(b)] && d4 == d3 + [Mask24(a)]
    ensures d4 == d[..|d| - 2] + [d[|d| - 1], d[|d| - 2]]
  {
  }

  /** Popping b and pushing the word b places below the new top. */
  lemma PickWords(d: seq<Word>, d1: seq<Word>, d2: seq<Word>, b: nat)
    requires |d| > 0 && b == d[|d| - 1] && d1 == d[..|d| - 1] && b < |d1|
    requires d2 == d1 + [d1[|d1| - 1 - b]]
    ensures d2 == d[..|d| - 1] + [d[|d| - 2 - b]]
  {
  }

  /** Writing a word twice at the same address leaves only the second. */
  lemma Write24Overwrite(m: Mem, a: int, v: int, w: int)
    ensures Write24(Write24(m, a, v), a, w) == Write24(m, a, w)
  {
    Write24Bytes(m, a, v);
    Write24Bytes(Write24(m, a, v), a, w);
    Write24Bytes(m, a, w);
    AdjacentCellsDiffer(a);
    assert forall i :: 0 <= i < MEM ==> Write24(Write24(m, a, v), a, w)[i] == Write24(m, a, w)[i];
  }
}
