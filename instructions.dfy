/** The 34 instruction handlers and the null instruction, each as a function
    from the machine state (whose `opcode` field holds the instruction word
    being executed) to the next state. Mnemonics follow section 3.1 of
    Cowgod's Chip-8 Technical Reference. Every write to an 8- or 16-bit field
    truncates as the C++ assignment does; accesses the source leaves
    unchecked are preconditions. */
module Instructions {
  import opened MachineState
  import opened Sprites

  /** Program counter plus 2, wrapped to 16 bits (`programCounter += 2`). */
  function SkipNext(pc: uint16): (r: uint16)
    ensures r != pc
    ensures r == if pc < 0xFFFE then pc + 2 else pc + 2 - 0x1_0000
  {
    (pc + 2) % 0x1_0000
  }

  /** 00E0 CLS: clear the display. */
  function Op00E0(s: State): (r: State)
    requires Wf(s)
    ensures Wf(r)
    ensures forall k :: 0 <= k < |r.video| ==> r.video[k] == 0
    ensures r == s.(video := r.video)
  {
    s.(video := seq(VIDEO_CELLS, _ => 0))
  }

  /** 00EE RET: pop the return address into the program counter. */
  function Op00EE(s: State): (r: State)
    requires Wf(s) && s.stackPointer >= 1
    ensures Wf(r)
    ensures r.stackPointer + 1 == s.stackPointer
    ensures r.programCounter == s.stack[r.stackPointer]
    ensures r == s.(stackPointer := r.stackPointer, programCounter := r.programCounter)
  {
    var sp := s.stackPointer - 1;
    s.(stackPointer := sp, programCounter := s.stack[sp])
  }

  /** 1nnn JP addr. */
  function Op1nnn(s: State): (r: State)
    requires Wf(s)
    ensures Wf(r) && r.programCounter < 0x1000
    ensures r == s.(programCounter := NNN(s.opcode))
  {
    s.(programCounter := NNN(s.opcode))
  }

  /** 2nnn CALL addr: push the program counter, then jump. */
  function Op2nnn(s: State): (r: State)
    requires Wf(s) && s.stackPointer < STACK_SIZE
    ensures Wf(r)
    ensures r.stackPointer == s.stackPointer + 1
    ensures r.stack[s.stackPointer] == s.programCounter
    ensures forall i :: 0 <= i < STACK_SIZE && i != s.stackPointer ==> r.stack[i] == s.stack[i]
    ensures r.programCounter == NNN(s.opcode)
    ensures r == s.(stack := r.stack, stackPointer := r.stackPointer, programCounter := r.programCounter)
  {
    s.(stack := s.stack[s.stackPointer := s.programCounter],
       stackPointer := s.stackPointer + 1,
       programCounter := NNN(s.opcode))
  }

  /** 3xkk SE Vx, byte. */
  function Op3xkk(s: State): (r: State)
    requires Wf(s)
    ensures Wf(r)
    ensures r.programCounter == if s.registers[X(s.opcode)] == KK(s.opcode) then SkipNext(s.programCounter) else s.programCounter
    ensures r == s.(programCounter := r.programCounter)
  {
    if s.registers[X(s.opcode)] == KK(s.opcode) then s.(programCounter := SkipNext(s.programCounter)) else s
  }

  /** 4xkk SNE Vx, byte. */
  function Op4xkk(s: State): (r: State)
    requires Wf(s)
    ensures Wf(r)
    ensures r.programCounter == if s.registers[X(s.opcode)] != KK(s.opcode) then SkipNext(s.programCounter) else s.programCounter
    ensures r == s.(programCounter := r.programCounter)
  {
    if s.registers[X(s.opcode)] != KK(s.opcode) then s.(programCounter := SkipNext(s.programCounter)) else s
  }

  /** 5xy0 SE Vx, Vy (the low nibble is not checked). */
  function Op5xy0(s: State): (r: State)
    requires Wf(s)
    ensures Wf(r)
    ensures r.programCounter == if s.registers[X(s.opcode)] == s.registers[Y(s.opcode)] then SkipNext(s.programCounter) else s.programCounter
    ensures r == s.(programCounter := r.programCounter)
  {
    if s.registers[X(s.opcode)] == s.registers[Y(s.opcode)] then s.(programCounter := SkipNext(s.programCounter)) else s
  }

  /** 6xkk LD Vx, byte. */
  function Op6xkk(s: State): (r: State)
    requires Wf(s)
    ensures Wf(r) && r.registers[X(s.opcode)] == KK(s.opcode)
    ensures forall i :: 0 <= i < REGISTER_COUNT && i != X(s.opcode) ==> r.registers[i] == s.registers[i]
    ensures r == s.(registers := r.registers)
  {
    s.(registers := s.registers[X(s.opcode) := KK(s.opcode)])
  }

  /** 7xkk ADD Vx, byte: wraps to 8 bits and leaves VF alone. */
  function Op7xkk(s: State): (r: State)
    requires Wf(s)
    ensures Wf(r)
    ensures r.registers[X(s.opcode)] == (s.registers[X(s.opcode)] + KK(s.opcode)) % 0x100
    ensures forall i :: 0 <= i < REGISTER_COUNT && i != X(s.opcode) ==> r.registers[i] == s.registers[i]
    ensures r == s.(registers := r.registers)
  {
    var x := X(s.opcode);
    s.(registers := s.registers[x := (s.registers[x] + KK(s.opcode)) % 0x100])
  }

  /** 8xy0 LD Vx, Vy. */
  function Op8xy0(s: State): (r: State)
    requires Wf(s)
    ensures Wf(r) && r.registers[X(s.opcode)] == s.registers[Y(s.opcode)]
    ensures forall i :: 0 <= i < REGISTER_COUNT && i != X(s.opcode) ==> r.registers[i] == s.registers[i]
    ensures r == s.(registers := r.registers)
  {
    s.(registers := s.registers[X(s.opcode) := s.registers[Y(s.opcode)]])
  }

  /** 8xy1 OR Vx, Vy. */
  function Op8xy1(s: State): (r: State)
    requires Wf(s)
    ensures Wf(r)
    ensures forall i :: 0 <= i < 8 ==>
      (Bit(r.registers[X(s.opcode)], i) <==> Bit(s.registers[X(s.opcode)], i) || Bit(s.registers[Y(s.opcode)], i))
    ensures forall i :: 0 <= i < REGISTER_COUNT && i != X(s.opcode) ==> r.registers[i] == s.registers[i]
    ensures r == s.(registers := r.registers)
  {
    var x, y := X(s.opcode), Y(s.opcode);
    BitOrBits(s.registers[x], s.registers[y]);
    s.(registers := s.registers[x := BitOr(s.registers[x], s.registers[y])])
  }

  /** 8xy2 AND Vx, Vy. */
  function Op8xy2(s: State): (r: State)
    requires Wf(s)
    ensures Wf(r)
    ensures forall i :: 0 <= i < 8 ==>
      (Bit(r.registers[X(s.opcode)], i) <==> Bit(s.registers[X(s.opcode)], i) && Bit(s.registers[Y(s.opcode)], i))
    ensures forall i :: 0 <= i < REGISTER_COUNT && i != X(s.opcode) ==> r.registers[i] == s.registers[i]
    ensures r == s.(registers := r.registers)
  {
    var x, y := X(s.opcode), Y(s.opcode);
    BitAndBits(s.registers[x], s.registers[y]);
    s.(registers := s.registers[x := BitAnd(s.registers[x], s.registers[y])])
  }

  /** 8xy3 XOR Vx, Vy. */
  function Op8xy3(s: State): (r: State)
    requires Wf(s)
    ensures Wf(r)
    ensures forall i :: 0 <= i < 8 ==>
      (Bit(r.registers[X(s.opcode)], i) <==> Bit(s.registers[X(s.opcode)], i) != Bit(s.registers[Y(s.opcode)], i))
    ensures forall i :: 0 <= i < REGISTER_COUNT && i != X(s.opcode) ==> r.registers[i] == s.registers[i]
    ensures r == s.(registers := r.registers)
  {
    var x, y := X(s.opcode), Y(s.opcode);
    BitXorBits(s.registers[x], s.registers[y]);
    s.(registers := s.registers[x := BitXor(s.registers[x], s.registers[y])])
  }

  /** 8xy4 ADD Vx, Vy: the sum of the old values is taken first; VF is
      written next and Vx last, so with x = F the truncated sum wins. */
  function Op8xy4(s: State): (r: State)
    requires Wf(s)
    ensures Wf(r)
    ensures var vx: int, vy: int := s.registers[X(s.opcode)], s.registers[Y(s.opcode)];
      X(s.opcode) != VF ==>
        r.registers[X(s.opcode)] == (vx + vy) % 0x100 &&
        (r.registers[VF] == 1 <==> vx + vy > 0xFF) && r.registers[VF] <= 1
    ensures forall i :: 0 <= i < REGISTER_COUNT && i != X(s.opcode) && i != VF ==> r.registers[i] == s.registers[i]
    ensures r == s.(registers := r.registers)
  {
    var x, y := X(s.opcode), Y(s.opcode);
    var sum := s.registers[x] as int + s.registers[y];
    var flagged := s.registers[VF := if sum > 0xFF then 1 else 0];
    s.(registers := flagged[x := sum % 0x100])
  }

  /** 8xy5 SUB Vx, Vy: VF is written before Vx and Vy are read again. */
  function Op8xy5(s: State): (r: State)
    requires Wf(s)
    ensures Wf(r)
    ensures var vx: int, vy: int := s.registers[X(s.opcode)], s.registers[Y(s.opcode)];
      X(s.opcode) != VF && Y(s.opcode) != VF ==>
        r.registers[X(s.opcode)] == (vx - vy) % 0x100 &&
        (r.registers[VF] == 1 <==> vx > vy) && r.registers[VF] <= 1
    ensures forall i :: 0 <= i < REGISTER_COUNT && i != X(s.opcode) && i != VF ==> r.registers[i] == s.registers[i]
    ensures r == s.(registers := r.registers)
  {
    var x, y := X(s.opcode), Y(s.opcode);
    var flagged := s.registers[VF := if s.registers[x] > s.registers[y] then 1 else 0];
    s.(registers := flagged[x := (flagged[x] as int - flagged[y]) % 0x100])
  }

  /** 8xy6 SHR Vx: VF gets bit 0 of Vx, then Vx is halved. */
  function Op8xy6(s: State): (r: State)
    requires Wf(s)
    ensures Wf(r)
    ensures var vx: int := s.registers[X(s.opcode)];
      X(s.opcode) != VF ==>
        r.registers[VF] == vx % 2 && r.registers[X(s.opcode)] == vx / 2 &&
        vx == 2 * r.registers[X(s.opcode)] + r.registers[VF]
    ensures forall i :: 0 <= i < REGISTER_COUNT && i != X(s.opcode) && i != VF ==> r.registers[i] == s.registers[i]
    ensures r == s.(registers := r.registers)
  {
    var x := X(s.opcode);
    AndBitsOne(s.registers[x], 8);
    var flagged := s.registers[VF := BitAnd(s.registers[x], 0x1)];
    s.(registers := flagged[x := flagged[x] / 2])
  }

  /** 8xy7 SUBN Vx, Vy: Vx := Vy - Vx, VF written first. */
  function Op8xy7(s: State): (r: State)
    requires Wf(s)
    ensures Wf(r)
    ensures var vx: int, vy: int := s.registers[X(s.opcode)], s.registers[Y(s.opcode)];
      X(s.opcode) != VF && Y(s.opcode) != VF ==>
        r.registers[X(s.opcode)] == (vy - vx) % 0x100 &&
        (r.registers[VF] == 1 <==> vy > vx) && r.registers[VF] <= 1
    ensures forall i :: 0 <= i < REGISTER_COUNT && i != X(s.opcode) && i != VF ==> r.registers[i] == s.registers[i]
    ensures r == s.(registers := r.registers)
  {
    var x, y := X(s.opcode), Y(s.opcode);
    var flagged := s.registers[VF := if s.registers[y] > s.registers[x] then 1 else 0];
    s.(registers := flagged[x := (flagged[y] as int - flagged[x]) % 0x100])
  }

  /** `registers[Vx] & 0x80u >> 7u`: `>>` binds tighter than `&`, so the
      mask is `0x80 >> 7`, which is 1, and the flag is bit 0 of Vx. */
  function ShlFlag(vx: uint8): (f: uint8)
    ensures f == vx % 2
  {
    assert ShiftRight(0x80, 7) == 1;
    AndBitsOne(vx, 8);
    BitAnd(vx, ShiftRight(0x80, 7))
  }

  /** 8xyE SHL Vx: VF gets bit 0 of Vx (not bit 7), then Vx is doubled
      and truncated to 8 bits. */
  function Op8xyE(s: State): (r: State)
    requires Wf(s)
    ensures Wf(r)
    ensures var vx: int := s.registers[X(s.opcode)];
      X(s.opcode) != VF ==>
        r.registers[VF] == vx % 2 && r.registers[X(s.opcode)] == 2 * vx % 0x100
    ensures forall i :: 0 <= i < REGISTER_COUNT && i != X(s.opcode) && i != VF ==> r.registers[i] == s.registers[i]
    ensures r == s.(registers := r.registers)
  {
    var x := X(s.opcode);
    var flagged := s.registers[VF := ShlFlag(s.registers[x])];
    s.(registers := flagged[x := flagged[x] as int * 2 % 0x100])
  }

  /** 9xy0 SNE Vx, Vy. */
  function Op9xy0(s: State): (r: State)
    requires Wf(s)
    ensures Wf(r)
    ensures r.programCounter == if s.registers[X(s.opcode)] != s.registers[Y(s.opcode)] then SkipNext(s.programCounter) else s.programCounter
    ensures r == s.(programCounter := r.programCounter)
  {
    if s.registers[X(s.opcode)] != s.registers[Y(s.opcode)] then s.(programCounter := SkipNext(s.programCounter)) else s
  }

  /** Annn LD I, addr. */
  function OpAnnn(s: State): (r: State)
    requires Wf(s)
    ensures Wf(r) && r.index < 0x1000
    ensures r == s.(index := NNN(s.opcode))
  {
    s.(index := NNN(s.opcode))
  }

  /** Bnnn JP V0, addr: the 16-bit sum never wraps. */
  function OpBnnn(s: State): (r: State)
    requires Wf(s)
    ensures Wf(r) && r.programCounter == NNN(s.opcode) + s.registers[0]
    ensures r == s.(programCounter := r.programCounter)
  {
    s.(programCounter := (NNN(s.opcode) + s.registers[0]) % 0x1_0000)
  }

  /** Cxkk RND Vx, byte: `rand` is the byte drawn from the generator. */
  function OpCxkk(s: State, rand: uint8): (r: State)
    requires Wf(s)
    ensures Wf(r)
    ensures forall i :: 0 <= i < 8 ==>
      (Bit(r.registers[X(s.opcode)], i) <==> Bit(rand, i) && Bit(KK(s.opcode), i))
    ensures BitAnd(r.registers[X(s.opcode)], KK(s.opcode)) == r.registers[X(s.opcode)]
    ensures KK(s.opcode) == 0 ==> r.registers[X(s.opcode)] == 0
    ensures forall i :: 0 <= i < REGISTER_COUNT && i != X(s.opcode) ==> r.registers[i] == s.registers[i]
    ensures r == s.(registers := r.registers)
  {
    BitAndBits(rand, KK(s.opcode));
    BitAndIdempotent(rand, KK(s.opcode));
    AndBitsZero(rand, 8);
    s.(registers := s.registers[X(s.opcode) := BitAnd(rand, KK(s.opcode))])
  }

  /** Drawing origin: `registers[Vx] % VIDEO_WIDTH`. A register is a byte,
      below both 640 and 320, so the origin is the register itself. */
  function ScreenX(s: State): (x: nat)
    requires Wf(s)
    ensures x == s.registers[X(s.opcode)]
  {
    s.registers[X(s.opcode)] % VIDEO_WIDTH
  }

  /** Drawing origin: `registers[Vy] % VIDEO_HEIGHT`. */
  function ScreenY(s: State): (y: nat)
    requires Wf(s)
    ensures y == s.registers[Y(s.opcode)]
  {
    s.registers[Y(s.opcode)] % VIDEO_HEIGHT
  }

  /** The rows a sprite of `n` rows reads from memory: all of memory[I ..
      I + n) when n > 0, and nothing at all when n = 0, whatever I is. */
  predicate SpriteInMemory(s: State)
    requires Wf(s)
  {
    N(s.opcode) == 0 || s.index + N(s.opcode) <= MEMORY_SIZE
  }

  /** The `n` sprite rows `memory[index + row]`; none for n = 0. */
  function Sprite(s: State): (sprite: seq<uint8>)
    requires Wf(s) && SpriteInMemory(s)
    ensures |sprite| == N(s.opcode)
    ensures forall row :: 0 <= row < |sprite| ==> s.index + row < MEMORY_SIZE && sprite[row] == s.memory[s.index + row]
  {
    if N(s.opcode) == 0 then [] else s.memory[s.index .. s.index + N(s.opcode)]
  }

  /** What Dxyn demands: the sprite rows lie in memory and every cell the
      loop addresses lies in the video buffer. Dxy0 reads neither. */
  predicate DrawPre(s: State)
    requires Wf(s)
  {
    SpriteInMemory(s) && DrawInBounds(ScreenX(s), ScreenY(s), N(s.opcode))
  }

  /** Dxyn DRW Vx, Vy, nibble: VF cleared, then the row and column loops of
      `DrawLoop`. The origin is read before VF is cleared. */
  function OpDxyn(s: State): (r: State)
    requires Wf(s) && DrawPre(s)
    ensures Wf(r) && r.registers[VF] <= 1
    ensures r == s.(registers := r.registers, video := r.video)
  {
    var (video, hit) := DrawLoop(s.video, Sprite(s), ScreenX(s), ScreenY(s), N(s.opcode), 0);
    s.(registers := s.registers[VF := if hit then 1 else 0], video := video)
  }

  /** What a draw does: VF becomes 1 exactly when a set sprite bit lands on
      a lit cell, the covered cells are complemented, and every other cell
      and every register but VF keeps its value. */
  lemma DrawEffect(s: State)
    requires Wf(s) && DrawPre(s)
    ensures OpDxyn(s).registers[VF] == 1 <==> Collides(s.video, Sprite(s), ScreenX(s), ScreenY(s))
    ensures OpDxyn(s).video == Drawn(s.video, Sprite(s), ScreenX(s), ScreenY(s))
    ensures forall k :: 0 <= k < VIDEO_CELLS ==>
      OpDxyn(s).video[k] == if Covers(Sprite(s), ScreenX(s), ScreenY(s), k) then s.video[k] ^ PIXEL_ON else s.video[k]
    ensures forall i :: 0 <= i < REGISTER_COUNT && i != VF ==> OpDxyn(s).registers[i] == s.registers[i]
  {
    DrawLoopBuffer(s.video, Sprite(s), ScreenX(s), ScreenY(s), N(s.opcode), 0, 8 * N(s.opcode));
    DrawLoopFlag(s.video, Sprite(s), ScreenX(s), ScreenY(s), N(s.opcode), 0, 8 * N(s.opcode));
  }

  /** Dxy0 draws no row: it reads no memory, whatever I is, and only
      clears VF. */
  lemma DrawNoRows(s: State)
    requires Wf(s) && N(s.opcode) == 0
    ensures DrawPre(s)
    ensures OpDxyn(s) == s.(registers := s.registers[VF := 0])
  {
    assert DrawLoop(s.video, Sprite(s), ScreenX(s), ScreenY(s), 0, 0) == (s.video, false);
  }

  /** Ex9E SKP Vx: Vx indexes the keypad unchecked. */
  function OpEx9E(s: State): (r: State)
    requires Wf(s) && s.registers[X(s.opcode)] < KEY_COUNT
    ensures Wf(r)
    ensures r.programCounter == if s.keypad[s.registers[X(s.opcode)]] != 0 then SkipNext(s.programCounter) else s.programCounter
    ensures r == s.(programCounter := r.programCounter)
  {
    if s.keypad[s.registers[X(s.opcode)]] != 0 then s.(programCounter := SkipNext(s.programCounter)) else s
  }

  /** ExA1 SKNP Vx. */
  function OpExA1(s: State): (r: State)
    requires Wf(s) && s.registers[X(s.opcode)] < KEY_COUNT
    ensures Wf(r)
    ensures r.programCounter == if s.keypad[s.registers[X(s.opcode)]] == 0 then SkipNext(s.programCounter) else s.programCounter
    ensures r == s.(programCounter := r.programCounter)
  {
    if s.keypad[s.registers[X(s.opcode)]] == 0 then s.(programCounter := SkipNext(s.programCounter)) else s
  }

  /** Fx07 LD Vx, DT. */
  function OpFx07(s: State): (r: State)
    requires Wf(s)
    ensures Wf(r) && r.registers[X(s.opcode)] == s.delayTimer
    ensures forall i :: 0 <= i < REGISTER_COUNT && i != X(s.opcode) ==> r.registers[i] == s.registers[i]
    ensures r == s.(registers := r.registers)
  {
    s.(registers := s.registers[X(s.opcode) := s.delayTimer])
  }

  /** The lowest-numbered pressed key at or after `from`, if any: the order
      in which the chain of tests in Fx0A looks at the keys. */
  function FirstPressed(keys: seq<uint8>, from: nat): (r: Option<nat>)
    requires from <= |keys|
    ensures r.Some? ==>
      from <= r.value < |keys| && keys[r.value] != 0 &&
      forall j :: from <= j < r.value ==> keys[j] == 0
    ensures r.None? ==> forall j :: from <= j < |keys| ==> keys[j] == 0
    decreases |keys| - from
  {
    if from == |keys| then None
    else if keys[from] != 0 then Some(from)
    else FirstPressed(keys, from + 1)
  }

  /** Fx0A LD Vx, K: store the lowest pressed key in Vx, or step the program
      counter back by 2 (16-bit wrap) so that the instruction runs again. */
  function OpFx0A(s: State): (r: State)
    requires Wf(s)
    ensures Wf(r)
    ensures (forall k :: 0 <= k < KEY_COUNT ==> s.keypad[k] == 0) ==>
      r == s.(programCounter := (s.programCounter - 2) % 0x1_0000)
    ensures forall k :: 0 <= k < KEY_COUNT && s.keypad[k] != 0 && (forall j :: 0 <= j < k ==> s.keypad[j] == 0) ==>
      r == s.(registers := s.registers[X(s.opcode) := k])
  {
    match FirstPressed(s.keypad, 0)
    case Some(k) => s.(registers := s.registers[X(s.opcode) := k])
    case None => s.(programCounter := (s.programCounter - 2) % 0x1_0000)
  }

  /** Fx15 LD DT, Vx. */
  function OpFx15(s: State): (r: State)
    requires Wf(s)
    ensures Wf(r)
    ensures r == s.(delayTimer := s.registers[X(s.opcode)])
  {
    s.(delayTimer := s.registers[X(s.opcode)])
  }

  /** Fx18 LD ST, Vx. */
  function OpFx18(s: State): (r: State)
    requires Wf(s)
    ensures Wf(r)
    ensures r == s.(soundTimer := s.registers[X(s.opcode)])
  {
    s.(soundTimer := s.registers[X(s.opcode)])
  }

  /** Fx1E ADD I, Vx: 16-bit wrap-around, VF untouched. */
  function OpFx1E(s: State): (r: State)
    requires Wf(s)
    ensures Wf(r)
    ensures r.index == (s.index + s.registers[X(s.opcode)]) % 0x1_0000
    ensures s.index + s.registers[X(s.opcode)] < 0x1_0000 ==> r.index == s.index + s.registers[X(s.opcode)]
    ensures r == s.(index := r.index)
  {
    s.(index := (s.index + s.registers[X(s.opcode)]) % 0x1_0000)
  }

  /** Fx29 LD F, Vx: I := FONTSET_START_ADDRESS + 5 * Vx. For a hex digit
      this is the first of the five rows of its glyph. */
  function OpFx29(s: State): (r: State)
    requires Wf(s)
    ensures Wf(r) && r.index == FONTSET_START_ADDRESS + 5 * (s.registers[X(s.opcode)] as int)
    ensures s.registers[X(s.opcode)] < 0x10 ==>
      FONTSET_START_ADDRESS <= r.index && r.index + 5 <= FONTSET_START_ADDRESS + FONT_SIZE
    ensures r == s.(index := r.index)
  {
    s.(index := (FONTSET_START_ADDRESS + 5 * (s.registers[X(s.opcode)] as int)) % 0x1_0000)
  }

  /** Fx33 LD B, Vx: ones digit at I+2, tens at I+1, hundreds at I. */
  function OpFx33(s: State): (r: State)
    requires Wf(s) && s.index + 2 < MEMORY_SIZE
    ensures Wf(r)
    ensures var i := s.index;
      r.memory[i] <= 9 && r.memory[i + 1] <= 9 && r.memory[i + 2] <= 9 &&
      100 * (r.memory[i] as int) + 10 * (r.memory[i + 1] as int) + r.memory[i + 2] == s.registers[X(s.opcode)]
    ensures forall a :: 0 <= a < MEMORY_SIZE && !(s.index <= a <= s.index + 2) ==> r.memory[a] == s.memory[a]
    ensures r == s.(memory := r.memory)
  {
    var value := s.registers[X(s.opcode)];
    var m := s.memory[s.index + 2 := value % 10];
    var m := m[s.index + 1 := value / 10 % 10];
    var m := m[s.index := value / 10 / 10 % 10];
    s.(memory := m)
  }

  /** Fx55 LD [I], Vx: V0 .. Vx inclusive to memory[I ..]; I unchanged. */
  function OpFx55(s: State): (r: State)
    requires Wf(s) && s.index + X(s.opcode) < MEMORY_SIZE
    ensures Wf(r)
    ensures r.memory[s.index .. s.index + X(s.opcode) + 1] == s.registers[.. X(s.opcode) + 1]
    ensures r.memory[.. s.index] == s.memory[.. s.index]
    ensures r.memory[s.index + X(s.opcode) + 1 ..] == s.memory[s.index + X(s.opcode) + 1 ..]
    ensures r == s.(memory := r.memory)
  {
    var i, x := s.index, X(s.opcode);
    s.(memory := seq(MEMORY_SIZE, a requires 0 <= a < MEMORY_SIZE =>
         if i <= a <= i + x then s.registers[a - i] else s.memory[a]))
  }

  /** Fx65 LD Vx, [I]: memory[I ..] to V0 .. Vx inclusive; I unchanged. */
  function OpFx65(s: State): (r: State)
    requires Wf(s) && s.index + X(s.opcode) < MEMORY_SIZE
    ensures Wf(r)
    ensures r.registers[.. X(s.opcode) + 1] == s.memory[s.index .. s.index + X(s.opcode) + 1]
    ensures r.registers[X(s.opcode) + 1 ..] == s.registers[X(s.opcode) + 1 ..]
    ensures r == s.(registers := r.registers)
  {
    var i, x := s.index, X(s.opcode);
    s.(registers := seq(REGISTER_COUNT, j requires 0 <= j < REGISTER_COUNT =>
         if j <= x then s.memory[i + j] else s.registers[j]))
  }
}
