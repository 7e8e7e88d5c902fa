/**
 * The numeric instruction set of `util/opcodes.h`, which `wasm/Vulcan.cpp` decodes: an
 * instruction byte holds a 6-bit opcode in its high bits and the number of literal bytes
 * that follow (0 to 3) in its low two bits.
 */
module Opcodes {
  import opened Words

  /** The `Opcode` enumeration, in declaration order. */
  datatype Opcode =
    | PUSH | ADD | SUB | MUL | DIV | MOD | RAND | AND
    | OR | XOR | NOT | GT | LT | AGT | ALT | LSHIFT
    | RSHIFT | ARSHIFT | POP | DUP | DUP2 | SWAP | PICK | JMP
    | JMPR | CALL | RET | BRZ | BRNZ | HLT | LOAD | LOAD16
    | LOAD24 | STORE | STORE16 | STORE24 | INTON | INTOFF | SETIV | SP
    | DP | SETSDP | INCSP | DECSP | DEBUG

  /** The value each enumerator is given in `util/opcodes.h`. */
  function Encode(op: Opcode): (n: nat)
    ensures n < 45
  {
    match op
    case PUSH => 0
    case ADD => 1
    case SUB => 2
    case MUL => 3
    case DIV => 4
    case MOD => 5
    case RAND => 6
    case AND => 7
    case OR => 8
    case XOR => 9
    case NOT => 10
    case GT => 11
    case LT => 12
    case AGT => 13
    case ALT => 14
    case LSHIFT => 15
    case RSHIFT => 16
    case ARSHIFT => 17
    case POP => 18
    case DUP => 19
    case DUP2 => 20
    case SWAP => 21
    case PICK => 22
    case JMP => 23
    case JMPR => 24
    case CALL => 25
    case RET => 26
    case BRZ => 27
    case BRNZ => 28
    case HLT => 29
    case LOAD => 30
    case LOAD16 => 31
    case LOAD24 => 32
    case STORE => 33
    case STORE16 => 34
    case STORE24 => 35
    case INTON => 36
    case INTOFF => 37
    case SETIV => 38
    case SP => 39
    case DP => 40
    case SETSDP => 41
    case INCSP => 42
    case DECSP => 43
    case DEBUG => 44
  }

  /** The enumerator a decoded opcode field denotes; None when no enumerator has that value. */
  function Decode(n: int): Option<Opcode>
  {
    if n < 0 || n >= 45 then None
    else if n < 15 then Some(DecodeFrom0(n))
    else if n < 30 then Some(DecodeFrom15(n))
    else Some(DecodeFrom30(n))
  }

  function DecodeFrom0(n: int): Opcode
    requires 0 <= n < 15
  {
    match n
    case 0 => PUSH
    case 1 => ADD
    case 2 => SUB
    case 3 => MUL
    case 4 => DIV
    case 5 => MOD
    case 6 => RAND
    case 7 => AND
    case 8 => OR
    case 9 => XOR
    case 10 => NOT
    case 11 => GT
    case 12 => LT
    case 13 => AGT
    case _ => ALT
  }

  function DecodeFrom15(n: int): Opcode
    requires 15 <= n < 30
  {
    match n
    case 15 => LSHIFT
    case 16 => RSHIFT
    case 17 => ARSHIFT
    case 18 => POP
    case 19 => DUP
    case 20 => DUP2
    case 21 => SWAP
    case 22 => PICK
    case 23 => JMP
    case 24 => JMPR
    case 25 => CALL
    case 26 => RET
    case 27 => BRZ
    case 28 => BRNZ
    case _ => HLT
  }

  function DecodeFrom30(n: int): Opcode
    requires 30 <= n < 45
  {
    match n
    case 30 => LOAD
    case 31 => LOAD16
    case 32 => LOAD24
    case 33 => STORE
    case 34 => STORE16
    case 35 => STORE24
    case 36 => INTON
    case 37 => INTOFF
    case 38 => SETIV
    case 39 => SP
    case 40 => DP
    case 41 => SETSDP
    case 42 => INCSP
    case 43 => DECSP
    case _ => DEBUG
  }

  /** Decoding recovers every enumerator from its value. */
  lemma DecodeEncode(op: Opcode)
    ensures Decode(Encode(op)) == Some(op)
  {
    match op
    case PUSH =>
    case ADD =>
    case SUB =>
    case MUL =>
    case DIV =>
    case MOD =>
    case RAND =>
    case AND =>
    case OR =>
    case XOR =>
    case NOT =>
    case GT =>
    case LT =>
    case AGT =>
    case ALT =>
    case LSHIFT =>
    case RSHIFT =>
    case ARSHIFT =>
    case POP =>
    case DUP =>
    case DUP2 =>
    case SWAP =>
    case PICK =>
    case JMP =>
    case JMPR =>
    case CALL =>
    case RET =>
    case BRZ =>
    case BRNZ =>
    case HLT =>
    case LOAD =>
    case LOAD16 =>
    case LOAD24 =>
    case STORE =>
    case STORE16 =>
    case STORE24 =>
    case INTON =>
    case INTOFF =>
    case SETIV =>
    case SP =>
    case DP =>
    case SETSDP =>
    case INCSP =>
    case DECSP =>
    case DEBUG =>
  }

  /** The values are exactly 0..44: a value outside that range is no enumerator. */
  lemma DecodeDefined(n: int)
    ensures Decode(n).Some? <==> 0 <= n < 45
  {
  }

  /** Each value 0..44 decodes to the enumerator that has that value. */
  lemma EncodeDecode(n: int)
    requires Decode(n).Some?
    ensures Encode(Decode(n).value) == n
  {
    DecodeDefined(n);
    if n < 15 {
      EncodeDecodeFrom0(n);
    } else if n < 30 {
      EncodeDecodeFrom15(n);
    } else {
      EncodeDecodeFrom30(n);
    }
  }

  lemma EncodeDecodeFrom0(n: int)
    requires 0 <= n < 15
    ensures Encode(DecodeFrom0(n)) == n
  {
    match n
    case 0 =>
    case 1 =>
    case 2 =>
    case 3 =>
    case 4 =>
    case 5 =>
    case 6 =>
    case 7 =>
    case 8 =>
    case 9 =>
    case 10 =>
    case 11 =>
    case 12 =>
    case 13 =>
    case _ =>
  }


  lemma EncodeDecodeFrom15(n: int)
    requires 15 <= n < 30
    ensures Encode(DecodeFrom15(n)) == n
  {
    match n
    case 15 =>
    case 16 =>
    case 17 =>
    case 18 =>
    case 19 =>
    case 20 =>
    case 21 =>
    case 22 =>
    case 23 =>
    case 24 =>
    case 25 =>
    case 26 =>
    case 27 =>
    case 28 =>
    case _ =>
  }


  lemma EncodeDecodeFrom30(n: int)
    requires 30 <= n < 45
    ensures Encode(DecodeFrom30(n)) == n
  {
    match n
    case 30 =>
    case 31 =>
    case 32 =>
    case 33 =>
    case 34 =>
    case 35 =>
    case 36 =>
    case 37 =>
    case 38 =>
    case 39 =>
    case 40 =>
    case 41 =>
    case 42 =>
    case 43 =>
    case _ =>
  }


  /** No two enumerators share a value. */
  lemma EncodeInjective(a: Opcode, b: Opcode)
    requires Encode(a) == Encode(b)
    ensures a == b
  {
    DecodeEncode(a);
    DecodeEncode(b);
  }

  /** Opcode field of an instruction byte, `instruction >> 2`: six bits, so every
      enumerator and the nineteen values 45..63 can occur. */
  function OpcodeField(instruction: Byte): (n: nat)
    ensures n < 64
    ensures n * 4 <= instruction < n * 4 + 4
  {
    instruction / 4
  }

  /** Literal length field of an instruction byte, `instruction & 3`. */
  function LengthField(instruction: Byte): (n: nat)
    ensures n < 4
    ensures instruction == OpcodeField(instruction) * 4 + n
  {
    instruction % 4
  }
}
