/** Properties that relate several instructions: inverse pairs, round trips
    and complementary skips, plus the worked examples of the instruction
    set on concrete values. */
module Properties {
  import opened MachineState
  import opened Sprites
  import opened Instructions
  import opened Dispatch

  /** A CALL followed by a RET (whatever word the RET was fetched as) comes
      back to the saved program counter and the original stack depth; the
      only trace left is the return address in the slot the call used. */
  lemma CallThenReturn(s: State, retWord: uint16)
    requires Wf(s) && s.stackPointer < STACK_SIZE
    ensures Op00EE(Op2nnn(s).(opcode := retWord)) ==
      s.(stack := s.stack[s.stackPointer := s.programCounter], opcode := retWord)
  {
  }

  /** Fx55 followed by Fx65 with the same x and I loads back exactly the
      registers it stored: the state is the one after the store. */
  lemma {:induction false} StoreThenLoad(s: State)
    requires Wf(s) && s.index + X(s.opcode) < MEMORY_SIZE
    ensures OpFx65(OpFx55(s)) == OpFx55(s)
    ensures OpFx65(OpFx55(s)).registers == s.registers
  {
    var stored := OpFx55(s);
    var x := X(s.opcode);
    forall j | 0 <= j <= x
      ensures stored.memory[s.index + j] == s.registers[j]
    {
      assert stored.memory[s.index .. s.index + x + 1][j] == stored.memory[s.index + j];
    }
    assert OpFx65(stored).registers == s.registers;
  }

  /** Drawing the same sprite at the same place twice restores the video
      buffer, and the second drawing reports a collision exactly when the
      first one lit a cell that was 0. The origin registers must not be VF,
      which the first drawing overwrites. */
  lemma {:induction false} DrawTwice(s: State)
    requires Wf(s) && DrawPre(s) && X(s.opcode) != VF && Y(s.opcode) != VF
    ensures DrawPre(OpDxyn(s))
    ensures OpDxyn(OpDxyn(s)).video == s.video
    ensures OpDxyn(OpDxyn(s)).registers[VF] == 1 <==>
      exists k :: 0 <= k < VIDEO_CELLS && Covers(Sprite(s), ScreenX(s), ScreenY(s), k) && s.video[k] == 0
  {
    var once := OpDxyn(s);
    assert Sprite(once) == Sprite(s) && ScreenX(once) == ScreenX(s) && ScreenY(once) == ScreenY(s);
    DrawEffect(s);
    DrawEffect(once);
    DrawnTwice(s.video, Sprite(s), ScreenX(s), ScreenY(s));
    RedrawCollides(s.video, Sprite(s), ScreenX(s), ScreenY(s));
  }

  /** Drawing on a blank screen never collides. */
  lemma DrawOnBlankScreen(s: State)
    requires Wf(s) && DrawPre(s)
    requires forall k :: 0 <= k < VIDEO_CELLS ==> s.video[k] == 0
    ensures OpDxyn(s).registers[VF] == 0
  {
    DrawEffect(s);
  }

  /** XOR Vx, Vy twice restores Vx when x and y differ. */
  lemma {:induction false} XorTwice(s: State)
    requires Wf(s) && X(s.opcode) != Y(s.opcode)
    ensures Op8xy3(Op8xy3(s)).registers == s.registers
  {
    var x, y := X(s.opcode), Y(s.opcode);
    BitXorInvolution(s.registers[x], s.registers[y]);
    assert Op8xy3(Op8xy3(s)).registers[x] == s.registers[x];
  }

  /** ADD Vx, Vy followed by SUB Vx, Vy gives Vx back, modulo 256, for any
      operands other than VF. */
  lemma {:induction false} AddThenSub(s: State)
    requires Wf(s) && X(s.opcode) != VF && Y(s.opcode) != VF && X(s.opcode) != Y(s.opcode)
    ensures Op8xy5(Op8xy4(s)).registers[X(s.opcode)] == s.registers[X(s.opcode)]
  {
    var x, y := X(s.opcode), Y(s.opcode);
    var vx, vy: int := s.registers[x], s.registers[y];
    var added := Op8xy4(s);
    assert added.registers[x] == (vx + vy) % 0x100 && added.registers[y] == vy;
    assert ((vx + vy) % 0x100 - vy) % 0x100 == vx;
  }

  /** SE and SNE with the same operands: exactly one of them skips. */
  lemma {:induction false} SkipsComplementary(s: State)
    requires Wf(s)
    ensures (Op3xkk(s).programCounter == s.programCounter) != (Op4xkk(s).programCounter == s.programCounter)
    ensures (Op5xy0(s).programCounter == s.programCounter) != (Op9xy0(s).programCounter == s.programCounter)
  {
    assert SkipNext(s.programCounter) != s.programCounter;
  }

  /** SKP and SKNP on the same key: exactly one of them skips. */
  lemma {:induction false} KeySkipsComplementary(s: State)
    requires Wf(s) && s.registers[X(s.opcode)] < KEY_COUNT
    ensures (OpEx9E(s).programCounter == s.programCounter) != (OpExA1(s).programCounter == s.programCounter)
  {
    assert SkipNext(s.programCounter) != s.programCounter;
  }

  /** With no key pressed, Fx0A run right after its fetch puts the program
      counter back on itself, so the next cycle fetches it again; nothing
      else but the opcode has changed. */
  lemma WaitKeyRepeats(s: State)
    requires Wf(s) && s.programCounter + 1 < MEMORY_SIZE
    requires forall k :: 0 <= k < KEY_COUNT ==> s.keypad[k] == 0
    ensures OpFx0A(Fetch(s)) == s.(opcode := FetchedWord(s))
  {
  }

  /** With the font loaded by the constructor, Fx29 on a hex digit d points
      I at the five rows of the glyph of d. */
  lemma {:induction false} FontGlyph(op: uint16, d: uint8)
    requires d < 0x10
    ensures var s := Initial(op).(registers := Initial(op).registers[X(op) := d]);
      var i := OpFx29(s).index;
      s.memory[i .. i + 5] == Fontset[5 * d .. 5 * d + 5]
  {
    var initial := Initial(op);
    var s := initial.(registers := initial.registers[X(op) := d]);
    var i := OpFx29(s).index;
    assert i == FONTSET_START_ADDRESS + 5 * d;
    SliceOfSlice(initial.memory, FONTSET_START_ADDRESS, FONTSET_START_ADDRESS + FONT_SIZE, 5 * d, 5 * d + 5);
  }

  /** A slice of a slice is a slice of the whole. */
  lemma SliceOfSlice<T>(m: seq<T>, lo: nat, hi: nat, a: nat, b: nat)
    requires lo <= hi <= |m| && a <= b <= hi - lo
    ensures m[lo .. hi][a .. b] == m[lo + a .. lo + b]
  {
    forall i | 0 <= i < b - a
      ensures m[lo .. hi][a .. b][i] == m[lo + a .. lo + b][i]
    {
      assert m[lo .. hi][a .. b][i] == m[lo .. hi][a + i];
    }
  }

  /** Worked examples of the instruction set on concrete values. */

  /** 0x8014 with V0 = 0xFF and V1 = 0x01: V0 becomes 0 with a carry. */
  lemma AddCarryExample(s: State)
    requires Wf(s) && s.opcode == 0x8014 && s.registers[0] == 0xFF && s.registers[1] == 0x01
    ensures Op8xy4(s).registers[0] == 0x00 && Op8xy4(s).registers[VF] == 1
  {
  }

  /** 0x8015 with V0 = 0x01 and V1 = 0x02: V0 wraps to 0xFF with a borrow. */
  lemma SubBorrowExample(s: State)
    requires Wf(s) && s.opcode == 0x8015 && s.registers[0] == 0x01 && s.registers[1] == 0x02
    ensures Op8xy5(s).registers[0] == 0xFF && Op8xy5(s).registers[VF] == 0
  {
  }

  /** 0x6A3C then 0x7A05: VA holds 0x41 and VF is not touched. */
  lemma LoadAddExample(s: State)
    requires Wf(s) && s.opcode == 0x6A3C
    ensures var t := Op6xkk(s); var u := Op7xkk(t.(opcode := 0x7A05));
      u.registers[0xA] == 0x41 && u.registers[VF] == s.registers[VF]
  {
  }

  /** 0xF033 with V0 = 234 and I = 0x300 writes 2, 3, 4. */
  lemma BcdExample(s: State)
    requires Wf(s) && s.opcode == 0xF033 && s.registers[0] == 234 && s.index == 0x300
    ensures OpFx33(s).memory[0x300 .. 0x303] == [2, 3, 4]
  {
  }
}
