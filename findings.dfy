/** Three places where the code does something other than what its own
    comments and constants evidently mean. For each, the behaviour as written
    (modelled in the other modules) is shown failing on a concrete input,
    and a corrected definition is given with the intended property proved. */
module Findings {
  import opened MachineState
  import opened Sprites
  import opened Instructions
  import opened Dispatch

  // ---------------------------------------------------------------------
  // decode: the family is `(opcode & 0xF000) >> 16`, always 0.

  /** The canonical word of each instruction: its family, its selector
      nibble or byte, and zero operands. The null instruction is encoded by a
      family-0 word whose low nibble selects nothing. */
  function Encode(instr: Instr): uint16 {
    match instr
    case Cls => 0x00E0
    case Ret => 0x00EE
    case Jp => 0x1000
    case Call => 0x2000
    case SeByte => 0x3000
    case SneByte => 0x4000
    case SeReg => 0x5000
    case LdByte => 0x6000
    case AddByte => 0x7000
    case LdReg => 0x8000
    case Or => 0x8001
    case And => 0x8002
    case Xor => 0x8003
    case AddReg => 0x8004
    case Sub => 0x8005
    case Shr => 0x8006
    case Subn => 0x8007
    case Shl => 0x800E
    case SneReg => 0x9000
    case LdI => 0xA000
    case JpV0 => 0xB000
    case Rnd => 0xC000
    case Drw => 0xD000
    case Skp => 0xE09E
    case Sknp => 0xE0A1
    case LdVxDt => 0xF007
    case LdVxK => 0xF00A
    case LdDtVx => 0xF015
    case LdStVx => 0xF018
    case AddI => 0xF01E
    case LdF => 0xF029
    case LdB => 0xF033
    case StoreRegs => 0xF055
    case LoadRegs => 0xF065
    case Null => 0x0001
  }

  /** As written, `decode` reaches only CLS, RET and the null instruction:
      the jump 0x1228 runs the null instruction. */
  lemma DecodeMissesJump()
    ensures Decode(0x1228) == Null
    ensures Decode(Encode(Jp)) != Jp
  {
    DecodeAsWritten(0x1228);
    DecodeAsWritten(Encode(Jp));
  }

  /** Of all the handlers, the dispatch as written selects only three for
      their own words. */
  lemma {:induction false} DecodeAsWrittenReaches(instr: Instr)
    ensures Decode(Encode(instr)) == instr <==> instr == Cls || instr == Ret || instr == Null
  {
    DecodeAsWritten(Encode(instr));
  }

  /** The switch on the top nibble, `(opcode & 0xF000) >> 12`. */
  function DecodeIntended(op: uint16): Instr {
    Dispatch.Dispatch(op / 0x1000, op)
  }

  /** With the top nibble as the family, every handler is selected by its
      own word. */
  lemma DecodeIntendedReaches(instr: Instr)
    ensures DecodeIntended(Encode(instr)) == instr
  {
  }

  /** With the top nibble as the family, the operand fields never change the
      handler of the families that have no sub-switch. */
  lemma {:induction false} DecodeIntendedIgnoresOperands(op: uint16)
    requires op / 0x1000 in {0x1, 0x2, 0x3, 0x4, 0x5, 0x6, 0x7, 0x9, 0xA, 0xB, 0xC, 0xD}
    ensures DecodeIntended(op) == DecodeIntended(op / 0x1000 * 0x1000)
    ensures DecodeIntended(op) != Null
  {
  }

  // ---------------------------------------------------------------------
  // SHL: `registers[Vx] & 0x80u >> 7u` keeps bit 0, not the bit shifted out.

  /** As written, shifting 0x80 left loses its top bit without setting VF:
      twice the old Vx is not the new Vx plus 256 times the flag. */
  lemma ShlLosesCarry()
    ensures ShlFlag(0x80) == 0
    ensures 2 * 0x80 != 2 * 0x80 % 0x100 + 0x100 * ShlFlag(0x80)
  {
  }

  /** `(registers[Vx] & 0x80u) >> 7u`: the most significant bit. */
  function ShlFlagIntended(vx: uint8): uint8 {
    ShiftRight(BitAnd(vx, 0x80), 7)
  }

  /** Bit 7 of a byte is set exactly when the byte is at least 0x80. */
  lemma TopBit(v: uint8)
    ensures Bit(v, 7) <==> v >= 0x80
  {
    var v1 := v / 2;
    var v2 := v1 / 2;
    var v3 := v2 / 2;
    var v4 := v3 / 2;
    var v5 := v4 / 2;
    var v6 := v5 / 2;
    var v7 := v6 / 2;
    assert Bit(v, 7) == Bit(v1, 6) == Bit(v2, 5) == Bit(v3, 4) == Bit(v4, 3) == Bit(v5, 2) == Bit(v6, 1) == Bit(v7, 0);
    assert v7 <= 1 && (v7 == 1 <==> v >= 0x80);
  }

  /** The intended flag is the bit that the doubling shifts out: twice the
      old Vx is the truncated new Vx plus 256 times the flag. */
  lemma ShlIntendedKeepsCarry(vx: uint8)
    ensures ShlFlagIntended(vx) <= 1
    ensures 2 * vx == 2 * vx % 0x100 + 0x100 * ShlFlagIntended(vx)
  {
    assert Pow2(7) == 0x80;
    AndBitsPow2(vx, 7, 8);
    TopBit(vx);
    ShiftRightPow2(7, 7);
    if vx < 0x80 {
      assert ShiftRight(0, 7) == 0;
    }
  }

  // ---------------------------------------------------------------------
  // Dxyn: the row stride is VIDEO_WIDTH = 640 over a 64-cell-wide buffer.

  /** As written, a one-row sprite drawn at the top-left corner of screen
      row 4 already addresses a cell past the end of the buffer. */
  lemma StrideOverrunsBuffer()
    ensures !DrawInBounds(0, 4, 1)
    ensures Cell(0, 4, 0, 0) >= VIDEO_CELLS
  {
  }

  /** The screen the video buffer holds. */
  const SCREEN_WIDTH := 64
  const SCREEN_HEIGHT := 32

  /** The cell of sprite pixel (row, col) drawn at (x, y), with the width of
      the buffer as the row stride. */
  function CellIntended(x: nat, y: nat, row: nat, col: nat): nat {
    x + col + (y + row) * SCREEN_WIDTH
  }

  /** With the buffer's own width as the stride, every on-screen position
      has its own cell inside the buffer, from which its column and row are
      recovered. */
  lemma {:induction false} CellIntendedOnScreen(x: nat, y: nat, row: nat, col: nat)
    requires x + col < SCREEN_WIDTH && y + row < SCREEN_HEIGHT
    ensures CellIntended(x, y, row, col) < VIDEO_CELLS
    ensures CellIntended(x, y, row, col) % SCREEN_WIDTH == x + col
    ensures CellIntended(x, y, row, col) / SCREEN_WIDTH == y + row
  {
    var k := CellIntended(x, y, row, col);
    assert k == (y + row) * SCREEN_WIDTH + (x + col);
    assert (y + row) * SCREEN_WIDTH <= (SCREEN_HEIGHT - 1) * SCREEN_WIDTH;
  }

  /** Distinct on-screen positions get distinct cells. */
  lemma CellIntendedInjective(x: nat, y: nat, row: nat, col: nat, x': nat, y': nat, row': nat, col': nat)
    requires x + col < SCREEN_WIDTH && y + row < SCREEN_HEIGHT
    requires x' + col' < SCREEN_WIDTH && y' + row' < SCREEN_HEIGHT
    requires CellIntended(x, y, row, col) == CellIntended(x', y', row', col')
    ensures x + col == x' + col' && y + row == y' + row'
  {
    CellIntendedOnScreen(x, y, row, col);
    CellIntendedOnScreen(x', y', row', col');
  }
}
