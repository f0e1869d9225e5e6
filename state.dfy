/** The machine state of the CHIP-8 interpreter as a value, with the integer
    widths of the C++ fields written out as subset types. */
module MachineState {

  /** `uint8_t`: 0 .. 255. */
  type uint8 = x: int | 0 <= x < 0x100
  /** `uint16_t`: 0 .. 65535. */
  type uint16 = x: int | 0 <= x < 0x1_0000

  const START_ADDRESS := 0x200
  const FONT_SIZE := 80
  const FONTSET_START_ADDRESS := 0x50
  /** The display constants as the source declares them: ten times the
      64 x 32 screen that the video buffer actually holds. */
  const VIDEO_HEIGHT := 320
  const VIDEO_WIDTH := 640

  const REGISTER_COUNT := 16
  const MEMORY_SIZE := 4096
  const STACK_SIZE := 16
  const KEY_COUNT := 16
  /** Size of `uint32_t video[64*32]`. */
  const VIDEO_CELLS := 64 * 32
  /** Index of the flag register VF. */
  const VF := 0xF
  /** A lit video cell: all 32 bits set. */
  const PIXEL_ON: bv32 := 0xFFFF_FFFF

  /** The 16 hex-digit glyphs, five rows each. */
  const Fontset: seq<uint8> := [
    0xF0, 0x90, 0x90, 0x90, 0xF0, // 0
    0x20, 0x60, 0x20, 0x20, 0x70, // 1
    0xF0, 0x10, 0xF0, 0x80, 0xF0, // 2
    0xF0, 0x10, 0xF0, 0x10, 0xF0, // 3
    0x90, 0x90, 0xF0, 0x10, 0x10, // 4
    0xF0, 0x80, 0xF0, 0x10, 0xF0, // 5
    0xF0, 0x80, 0xF0, 0x90, 0xF0, // 6
    0xF0, 0x10, 0x20, 0x40, 0x40, // 7
    0xF0, 0x90, 0xF0, 0x90, 0xF0, // 8
    0xF0, 0x90, 0xF0, 0x10, 0xF0, // 9
    0xF0, 0x90, 0xF0, 0x90, 0x90, // A
    0xE0, 0x90, 0xE0, 0x90, 0xE0, // B
    0xF0, 0x80, 0x80, 0x80, 0xF0, // C
    0xE0, 0x90, 0x90, 0x90, 0xE0, // D
    0xF0, 0x80, 0xF0, 0x80, 0xF0, // E
    0xF0, 0x80, 0xF0, 0x80, 0x80  // F
  ]

  datatype Option<T> = None | Some(value: T)

  /** Every field of the `Chip8` object except the random generator. */
  datatype State = State(
    registers: seq<uint8>,
    memory: seq<uint8>,
    index: uint16,
    programCounter: uint16,
    stack: seq<uint16>,
    stackPointer: uint8,
    delayTimer: uint8,
    soundTimer: uint8,
    keypad: seq<uint8>,
    video: seq<bv32>,
    opcode: uint16)

  /** The array sizes of the object, and a stack depth within the 16 slots
      (the preconditions of call and return keep it there). */
  predicate Wf(s: State) {
    |s.registers| == REGISTER_COUNT && |s.memory| == MEMORY_SIZE &&
    |s.stack| == STACK_SIZE && s.stackPointer <= STACK_SIZE &&
    |s.keypad| == KEY_COUNT && |s.video| == VIDEO_CELLS
  }

  // Operand fields of an instruction word. The source extracts them with a
  // mask and a shift, which on a 16-bit word are a division and a remainder.

  /** `(opcode & 0x0F00) >> 8`: the first register operand. */
  function X(op: uint16): (x: nat)
    ensures x < REGISTER_COUNT
  {
    op / 0x100 % 0x10
  }

  /** `(opcode & 0x00F0) >> 4`: the second register operand. */
  function Y(op: uint16): (y: nat)
    ensures y < REGISTER_COUNT
  {
    op / 0x10 % 0x10
  }

  /** `opcode & 0x000F`: the low nibble. */
  function N(op: uint16): (n: nat)
    ensures n < 0x10
  {
    op % 0x10
  }

  /** `opcode & 0x00FF`: the immediate byte, what is left of the word once
      everything above its low byte is taken away. */
  function KK(op: uint16): (k: uint8)
    ensures k <= op && (op - k) % 0x100 == 0
  {
    op % 0x100
  }

  /** `opcode & 0x0FFF`: the 12-bit address, what is left of the word once
      its top nibble is taken away. */
  function NNN(op: uint16): (a: uint16)
    ensures a < 0x1000 && a <= op && (op - a) % 0x1000 == 0
  {
    op % 0x1000
  }

  /** The operand fields partition the instruction word: the top nibble and
      x, y, n put back together give the word, and the byte and address
      fields are made of the nibbles below them. */
  lemma {:induction false} OperandFieldsReassemble(op: uint16)
    ensures op == op / 0x1000 * 0x1000 + X(op) * 0x100 + Y(op) * 0x10 + N(op)
    ensures KK(op) == Y(op) * 0x10 + N(op)
    ensures NNN(op) == X(op) * 0x100 + KK(op)
  {
    var high, low := op / 0x100, op % 0x100;
    assert op == high * 0x100 + low;
    assert high / 0x10 == op / 0x1000;
    assert high == op / 0x1000 * 0x10 + X(op);
    assert op / 0x10 == high * 0x10 + low / 0x10;
    assert Y(op) == low / 0x10 && N(op) == low % 0x10;
  }

  // Bitwise operators. The source applies `&`, `|`, `^` and `>>` to
  // unsigned bytes; here they are computed bit by bit, least significant bit
  // first, over the low `width` bits of their operands.

  /** 2 to the power n. */
  function Pow2(n: nat): (p: nat)
    ensures p >= 1
  {
    if n == 0 then 1 else 2 * Pow2(n - 1)
  }

  /** `a & b` on `width`-bit values: a result bit is set when both operand
      bits are. */
  function AndBits(a: nat, b: nat, width: nat): (r: nat)
    ensures r <= a
  {
    if width == 0 then 0
    else 2 * AndBits(a / 2, b / 2, width - 1) + (if a % 2 == 1 && b % 2 == 1 then 1 else 0)
  }

  /** `a | b` on `width`-bit values: a result bit is set when either
      operand bit is. */
  function OrBits(a: nat, b: nat, width: nat): (r: nat)
    ensures r < Pow2(width)
  {
    if width == 0 then 0
    else 2 * OrBits(a / 2, b / 2, width - 1) + (if a % 2 == 1 || b % 2 == 1 then 1 else 0)
  }

  /** `a ^ b` on `width`-bit values: a result bit is set when the operand
      bits differ. */
  function XorBits(a: nat, b: nat, width: nat): (r: nat)
    ensures r < Pow2(width)
  {
    if width == 0 then 0
    else 2 * XorBits(a / 2, b / 2, width - 1) + (if a % 2 != b % 2 then 1 else 0)
  }

  /** The low `width` bits of a. */
  function LowBits(a: nat, width: nat): (r: nat)
    ensures r < Pow2(width)
  {
    if width == 0 then 0 else 2 * LowBits(a / 2, width - 1) + a % 2
  }

  /** `v >> n` on an unsigned value: n halvings. */
  function ShiftRight(v: nat, n: nat): (r: nat)
    ensures r <= v
  {
    if n == 0 then v else ShiftRight(v / 2, n - 1)
  }

  /** Bit i of v. */
  predicate Bit(v: nat, i: nat) {
    if i == 0 then v % 2 == 1 else Bit(v / 2, i - 1)
  }

  /** `a & b` on bytes. */
  function BitAnd(a: uint8, b: uint8): uint8 {
    AndBits(a, b, 8)
  }

  /** `a | b` on bytes. */
  function BitOr(a: uint8, b: uint8): uint8 {
    OrBits(a, b, 8)
  }

  /** `a ^ b` on bytes. */
  function BitXor(a: uint8, b: uint8): uint8 {
    XorBits(a, b, 8)
  }

  /** A value below 2^width is its own low `width` bits. */
  lemma {:induction false} LowBitsOfSmall(a: nat, width: nat)
    requires a < Pow2(width)
    ensures LowBits(a, width) == a
  {
    if width > 0 {
      LowBitsOfSmall(a / 2, width - 1);
    }
  }

  /** Masking with 0 clears every bit. */
  lemma {:induction false} AndBitsZero(a: nat, width: nat)
    ensures AndBits(a, 0, width) == 0
  {
    if width > 0 {
      AndBitsZero(a / 2, width - 1);
    }
  }

  /** Masking with 1 keeps bit 0 alone: `a & 1 == a % 2`. */
  lemma {:induction false} AndBitsOne(a: nat, width: nat)
    requires width >= 1
    ensures AndBits(a, 1, width) == a % 2
  {
    AndBitsZero(a / 2, width - 1);
  }

  /** Masking with a single bit 2^k keeps bit k alone. */
  lemma {:induction false} AndBitsPow2(a: nat, k: nat, width: nat)
    requires k < width
    ensures AndBits(a, Pow2(k), width) == if Bit(a, k) then Pow2(k) else 0
  {
    if k == 0 {
      AndBitsOne(a, width);
    } else {
      assert Pow2(k) % 2 == 0 && Pow2(k) / 2 == Pow2(k - 1);
      AndBitsPow2(a / 2, k - 1, width - 1);
    }
  }

  /** Bit i of `a & b` is set exactly when bit i of both operands is. */
  lemma {:induction false} AndBitsBit(a: nat, b: nat, width: nat, i: nat)
    requires i < width
    ensures Bit(AndBits(a, b, width), i) <==> Bit(a, i) && Bit(b, i)
  {
    if i > 0 {
      AndBitsBit(a / 2, b / 2, width - 1, i - 1);
    }
  }

  /** Bit i of `a | b` is set exactly when bit i of either operand is. */
  lemma {:induction false} OrBitsBit(a: nat, b: nat, width: nat, i: nat)
    requires i < width
    ensures Bit(OrBits(a, b, width), i) <==> Bit(a, i) || Bit(b, i)
  {
    if i > 0 {
      OrBitsBit(a / 2, b / 2, width - 1, i - 1);
    }
  }

  /** Bit i of `a ^ b` is set exactly when bit i of the operands differs. */
  lemma {:induction false} XorBitsBit(a: nat, b: nat, width: nat, i: nat)
    requires i < width
    ensures Bit(XorBits(a, b, width), i) <==> Bit(a, i) != Bit(b, i)
  {
    if i > 0 {
      XorBitsBit(a / 2, b / 2, width - 1, i - 1);
    }
  }

  /** Shifting 2^k right by n places gives 2^(k - n). */
  lemma {:induction false} ShiftRightPow2(k: nat, n: nat)
    requires n <= k
    ensures ShiftRight(Pow2(k), n) == Pow2(k - n)
  {
    if n > 0 {
      assert Pow2(k) / 2 == Pow2(k - 1);
      ShiftRightPow2(k - 1, n - 1);
    }
  }

  /** A mask applied twice is applied once: `(a & b) & b == a & b`. */
  lemma {:induction false} AndBitsIdempotent(a: nat, b: nat, width: nat)
    ensures AndBits(AndBits(a, b, width), b, width) == AndBits(a, b, width)
  {
    if width > 0 {
      var t := AndBits(a, b, width);
      AndBitsIdempotent(a / 2, b / 2, width - 1);
      assert t / 2 == AndBits(a / 2, b / 2, width - 1);
    }
  }

  /** XOR with the same value twice gives back the original low bits. */
  lemma {:induction false} XorBitsInvolution(a: nat, b: nat, width: nat)
    ensures XorBits(XorBits(a, b, width), b, width) == LowBits(a, width)
  {
    if width > 0 {
      var t := XorBits(a, b, width);
      XorBitsInvolution(a / 2, b / 2, width - 1);
      assert t / 2 == XorBits(a / 2, b / 2, width - 1);
    }
  }

  /** `a & b` on bytes, bit by bit. */
  lemma BitAndBits(a: uint8, b: uint8)
    ensures forall i :: 0 <= i < 8 ==> (Bit(BitAnd(a, b), i) <==> Bit(a, i) && Bit(b, i))
  {
    forall i | 0 <= i < 8 {
      AndBitsBit(a, b, 8, i);
    }
  }

  /** `a | b` on bytes, bit by bit. */
  lemma BitOrBits(a: uint8, b: uint8)
    ensures forall i :: 0 <= i < 8 ==> (Bit(BitOr(a, b), i) <==> Bit(a, i) || Bit(b, i))
  {
    forall i | 0 <= i < 8 {
      OrBitsBit(a, b, 8, i);
    }
  }

  /** `a ^ b` on bytes, bit by bit. */
  lemma BitXorBits(a: uint8, b: uint8)
    ensures forall i :: 0 <= i < 8 ==> (Bit(BitXor(a, b), i) <==> Bit(a, i) != Bit(b, i))
  {
    forall i | 0 <= i < 8 {
      XorBitsBit(a, b, 8, i);
    }
  }

  /** `(a & b) & b == a & b` on bytes. */
  lemma BitAndIdempotent(a: uint8, b: uint8)
    ensures BitAnd(BitAnd(a, b), b) == BitAnd(a, b)
  {
    AndBitsIdempotent(a, b, 8);
  }

  /** `(a ^ b) ^ b == a` on bytes. */
  lemma BitXorInvolution(a: uint8, b: uint8)
    ensures BitXor(BitXor(a, b), b) == a
  {
    XorBitsInvolution(a, b, 8);
    LowBitsOfSmall(a, 8);
  }
}
