/** The `Chip8` class: the machine state as fixed-size arrays and counters
    that every handler updates in place, reading the instruction word from
    the `opcode` field. Each handler method and `LoadRom`, `Fetch`, `Tick`
    and `Cycle` are proved to move the state exactly as the function of the
    same name in `Instructions` or `Dispatch` says; the constructor is
    proved against `Dispatch.Initial`, `Execute` and `Decode` against
    `Dispatch.Exec`, and the loop bodies `LoadFont`, `DrawRow` and
    `DrawPixel` against the font image and the steps of `Sprites.DrawLoop`;
    `OpNull` changes nothing. */
module Emulator {
  import opened MachineState
  import opened Sprites
  import Instructions
  import Dispatch

  class Chip8 {
    const registers: array<uint8>
    const memory: array<uint8>
    var index: uint16
    var programCounter: uint16
    const stack: array<uint16>
    var stackPointer: uint8
    var delayTimer: uint8
    var soundTimer: uint8
    const keypad: array<uint8>
    const video: array<bv32>
    var opcode: uint16

    /** The array sizes of the C++ declaration, distinct arrays, and a stack
        depth within the 16 slots. */
    ghost predicate Valid()
      reads this
    {
      registers.Length == REGISTER_COUNT && memory.Length == MEMORY_SIZE &&
      stack.Length == STACK_SIZE && keypad.Length == KEY_COUNT &&
      video.Length == VIDEO_CELLS && stackPointer <= STACK_SIZE &&
      registers != memory && registers != keypad && memory != keypad
    }

    /** The object's fields as a machine-state value. */
    ghost function Abs(): (s: State)
      reads this, registers, memory, stack, keypad, video
      ensures Valid() ==> Wf(s)
    {
      State(registers[..], memory[..], index, programCounter, stack[..], stackPointer,
            delayTimer, soundTimer, keypad[..], video[..], opcode)
    }

    /** `Chip8()`: program counter at 0x200 and the font copied to 0x50;
        the random generator is not part of the model. */
    constructor ()
      ensures Valid() && fresh(registers) && fresh(memory) && fresh(stack) && fresh(keypad) && fresh(video)
      ensures Abs() == Dispatch.Initial(opcode)
    {
      registers := new uint8[REGISTER_COUNT](_ => 0);
      memory := new uint8[MEMORY_SIZE](_ => 0);
      stack := new uint16[STACK_SIZE](_ => 0);
      keypad := new uint8[KEY_COUNT](_ => 0);
      video := new bv32[VIDEO_CELLS](_ => 0);
      index, programCounter, stackPointer := 0, START_ADDRESS, 0;
      delayTimer, soundTimer := 0, 0;
      new;
      LoadFont();
      ghost var initial := Dispatch.Initial(opcode);
      assert video[..] == initial.video;
      assert registers[..] == initial.registers && stack[..] == initial.stack && keypad[..] == initial.keypad;
    }

    /** The font copy loop of the constructor: the 80 glyph bytes go to
        0x50 onwards in memory, which was all zero. */
    method LoadFont()
      requires Valid() && forall a :: 0 <= a < MEMORY_SIZE ==> memory[a] == 0
      modifies memory
      ensures memory[..] == Dispatch.Initial(opcode).memory
    {
      for i := 0 to FONT_SIZE
        invariant memory[FONTSET_START_ADDRESS .. FONTSET_START_ADDRESS + i] == Fontset[..i]
        invariant forall a :: 0 <= a < MEMORY_SIZE && !(FONTSET_START_ADDRESS <= a < FONTSET_START_ADDRESS + i) ==> memory[a] == 0
      {
        memory[FONTSET_START_ADDRESS + i] := Fontset[i];
      }
      assert memory[..] == Dispatch.Initial(opcode).memory;
    }

    /** The copy loop of `load_ROM`, given the bytes the file held. */
    method LoadRom(rom: seq<uint8>)
      requires Valid() && |rom| <= MEMORY_SIZE - START_ADDRESS
      modifies memory
      ensures Valid() && Abs() == Dispatch.LoadRom(old(Abs()), rom)
    {
      for i := 0 to |rom|
        invariant forall a :: 0 <= a < MEMORY_SIZE ==>
          memory[a] == if START_ADDRESS <= a < START_ADDRESS + i then rom[a - START_ADDRESS] else old(memory[a])
      {
        memory[START_ADDRESS + i] := rom[i];
      }
      assert memory[..] == Dispatch.LoadRom(old(Abs()), rom).memory;
    }

    /** 00E0 CLS: the memset of the video buffer. */
    method Op00E0()
      requires Valid()
      modifies video
      ensures Valid() && Abs() == Instructions.Op00E0(old(Abs()))
    {
      forall k | 0 <= k < VIDEO_CELLS {
        video[k] := 0;
      }
      assert video[..] == Instructions.Op00E0(old(Abs())).video;
    }

    /** 00EE RET. */
    method Op00EE()
      requires Valid() && stackPointer >= 1
      modifies this
      ensures Valid() && Abs() == Instructions.Op00EE(old(Abs()))
    {
      stackPointer := stackPointer - 1;
      programCounter := stack[stackPointer];
    }

    /** 1nnn JP addr. */
    method Op1nnn()
      requires Valid()
      modifies this
      ensures Valid() && Abs() == Instructions.Op1nnn(old(Abs()))
    {
      var address := NNN(opcode);
      programCounter := address;
    }

    /** 2nnn CALL addr. */
    method Op2nnn()
      requires Valid() && stackPointer < STACK_SIZE
      modifies this, stack
      ensures Valid() && Abs() == Instructions.Op2nnn(old(Abs()))
    {
      var address := NNN(opcode);
      stack[stackPointer] := programCounter;
      stackPointer := stackPointer + 1;
      programCounter := address;
    }

    /** 3xkk SE Vx, byte. */
    method Op3xkk()
      requires Valid()
      modifies this
      ensures Valid() && Abs() == Instructions.Op3xkk(old(Abs()))
    {
      var x, kk := X(opcode), KK(opcode);
      if registers[x] == kk {
        programCounter := (programCounter + 2) % 0x1_0000;
      }
    }

    /** 4xkk SNE Vx, byte. */
    method Op4xkk()
      requires Valid()
      modifies this
      ensures Valid() && Abs() == Instructions.Op4xkk(old(Abs()))
    {
      var x, kk := X(opcode), KK(opcode);
      if registers[x] != kk {
        programCounter := (programCounter + 2) % 0x1_0000;
      }
    }

    /** 5xy0 SE Vx, Vy. */
    method Op5xy0()
      requires Valid()
      modifies this
      ensures Valid() && Abs() == Instructions.Op5xy0(old(Abs()))
    {
      var x, y := X(opcode), Y(opcode);
      if registers[x] == registers[y] {
        programCounter := (programCounter + 2) % 0x1_0000;
      }
    }

    /** 6xkk LD Vx, byte. */
    method Op6xkk()
      requires Valid()
      modifies registers
      ensures Valid() && Abs() == Instructions.Op6xkk(old(Abs()))
    {
      var x, kk := X(opcode), KK(opcode);
      registers[x] := kk;
    }

    /** 7xkk ADD Vx, byte. */
    method Op7xkk()
      requires Valid()
      modifies registers
      ensures Valid() && Abs() == Instructions.Op7xkk(old(Abs()))
    {
      var x, kk := X(opcode), KK(opcode);
      registers[x] := (registers[x] as int + kk) % 0x100;
    }

    /** 8xy0 LD Vx, Vy. */
    method Op8xy0()
      requires Valid()
      modifies registers
      ensures Valid() && Abs() == Instructions.Op8xy0(old(Abs()))
    {
      var x, y := X(opcode), Y(opcode);
      registers[x] := registers[y];
    }

    /** 8xy1 OR Vx, Vy. */
    method Op8xy1()
      requires Valid()
      modifies registers
      ensures Valid() && Abs() == Instructions.Op8xy1(old(Abs()))
    {
      var x, y := X(opcode), Y(opcode);
      registers[x] := BitOr(registers[x], registers[y]);
    }

    /** 8xy2 AND Vx, Vy. */
    method Op8xy2()
      requires Valid()
      modifies registers
      ensures Valid() && Abs() == Instructions.Op8xy2(old(Abs()))
    {
      var x, y := X(opcode), Y(opcode);
      registers[x] := BitAnd(registers[x], registers[y]);
    }

    /** 8xy3 XOR Vx, Vy. */
    method Op8xy3()
      requires Valid()
      modifies registers
      ensures Valid() && Abs() == Instructions.Op8xy3(old(Abs()))
    {
      var x, y := X(opcode), Y(opcode);
      registers[x] := BitXor(registers[x], registers[y]);
    }

    /** 8xy4 ADD Vx, Vy. */
    method Op8xy4()
      requires Valid()
      modifies registers
      ensures Valid() && Abs() == Instructions.Op8xy4(old(Abs()))
    {
      var x, y := X(opcode), Y(opcode);
      var sum := registers[x] as int + registers[y];
      if sum > 0xFF { registers[VF] := 1; } else { registers[VF] := 0; }
      registers[x] := sum % 0x100;
    }

    /** 8xy5 SUB Vx, Vy. */
    method Op8xy5()
      requires Valid()
      modifies registers
      ensures Valid() && Abs() == Instructions.Op8xy5(old(Abs()))
    {
      var x, y := X(opcode), Y(opcode);
      if registers[x] > registers[y] { registers[VF] := 1; } else { registers[VF] := 0; }
      registers[x] := (registers[x] as int - registers[y]) % 0x100;
    }

    /** 8xy6 SHR Vx. */
    method Op8xy6()
      requires Valid()
      modifies registers
      ensures Valid() && Abs() == Instructions.Op8xy6(old(Abs()))
    {
      var x := X(opcode);
      registers[VF] := BitAnd(registers[x], 0x1);
      registers[x] := registers[x] / 2;
    }

    /** 8xy7 SUBN Vx, Vy. */
    method Op8xy7()
      requires Valid()
      modifies registers
      ensures Valid() && Abs() == Instructions.Op8xy7(old(Abs()))
    {
      var x, y := X(opcode), Y(opcode);
      if registers[y] > registers[x] { registers[VF] := 1; } else { registers[VF] := 0; }
      registers[x] := (registers[y] as int - registers[x]) % 0x100;
    }

    /** 8xyE SHL Vx. */
    method Op8xyE()
      requires Valid()
      modifies registers
      ensures Valid() && Abs() == Instructions.Op8xyE(old(Abs()))
    {
      var x := X(opcode);
      registers[VF] := Instructions.ShlFlag(registers[x]);
      registers[x] := registers[x] as int * 2 % 0x100;
    }

    /** 9xy0 SNE Vx, Vy. */
    method Op9xy0()
      requires Valid()
      modifies this
      ensures Valid() && Abs() == Instructions.Op9xy0(old(Abs()))
    {
      var x, y := X(opcode), Y(opcode);
      if registers[x] != registers[y] {
        programCounter := (programCounter + 2) % 0x1_0000;
      }
    }

    /** Annn LD I, addr. */
    method OpAnnn()
      requires Valid()
      modifies this
      ensures Valid() && Abs() == Instructions.OpAnnn(old(Abs()))
    {
      var address := NNN(opcode);
      index := address;
    }

    /** Bnnn JP V0, addr. */
    method OpBnnn()
      requires Valid()
      modifies this
      ensures Valid() && Abs() == Instructions.OpBnnn(old(Abs()))
    {
      var address := NNN(opcode);
      programCounter := (address + registers[0]) % 0x1_0000;
    }

    /** Cxkk RND Vx, byte, with the generator's byte as `rand`. */
    method OpCxkk(rand: uint8)
      requires Valid()
      modifies registers
      ensures Valid() && Abs() == Instructions.OpCxkk(old(Abs()), rand)
    {
      var x, kk := X(opcode), KK(opcode);
      registers[x] := BitAnd(rand, kk);
    }

    /** Dxyn DRW Vx, Vy, nibble: VF cleared, then the row loop of the
        source; `DrawRow` is the body of that loop. */
    method OpDxyn()
      requires Valid() && Instructions.DrawPre(Abs())
      modifies registers, video
      ensures Valid() && Abs() == Instructions.OpDxyn(old(Abs()))
    {
      ghost var s0 := Abs();
      var x, y, height := X(opcode), Y(opcode), N(opcode);
      var screenX: nat := registers[x] % VIDEO_WIDTH;
      var screenY: nat := registers[y] % VIDEO_HEIGHT;
      ghost var sprite := Instructions.Sprite(s0);
      assert screenX == Instructions.ScreenX(s0) && screenY == Instructions.ScreenY(s0);
      registers[VF] := 0;
      for row := 0 to height
        invariant video[..] == DrawLoop(s0.video, sprite, screenX, screenY, row, 0).0
        invariant registers[..] == s0.registers[VF := if DrawLoop(s0.video, sprite, screenX, screenY, row, 0).1 then 1 else 0]
      {
        assert memory[index + row] == sprite[row];
        DrawRow(row, screenX, screenY, s0.video, sprite);
      }
      assert Abs() == s0.(registers := registers[..], video := video[..]);
    }

    /** The body of the row loop of Dxyn: the column loop over the eight
        bits of sprite row `row`, drawn at (screenX, screenY). */
    method DrawRow(row: nat, screenX: nat, screenY: nat, ghost video0: seq<bv32>, ghost sprite: seq<uint8>)
      requires Valid() && |video0| == VIDEO_CELLS && DrawInBounds(screenX, screenY, |sprite|)
      requires row < |sprite| && index + row < MEMORY_SIZE && memory[index + row] == sprite[row]
      requires video[..] == DrawLoop(video0, sprite, screenX, screenY, row, 0).0
      requires registers[VF] == if DrawLoop(video0, sprite, screenX, screenY, row, 0).1 then 1 else 0
      modifies registers, video
      ensures video[..] == DrawLoop(video0, sprite, screenX, screenY, row + 1, 0).0
      ensures registers[..] == old(registers[..])[VF := if DrawLoop(video0, sprite, screenX, screenY, row + 1, 0).1 then 1 else 0]
    {
      ghost var registers0 := registers[..];
      var spriteByte := memory[index + row];
      for column := 0 to 8
        invariant video[..] == DrawLoop(video0, sprite, screenX, screenY, row, column).0
        invariant registers[..] == registers0[VF := if DrawLoop(video0, sprite, screenX, screenY, row, column).1 then 1 else 0]
      {
        DrawLoopStep(video0, sprite, screenX, screenY, row, column);
        DrawPixel(spriteByte, row, column, screenX, screenY, sprite,
          DrawLoop(video0, sprite, screenX, screenY, row, column).0, DrawLoop(video0, sprite, screenX, screenY, row, column).1);
      }
      DrawLoopNextRow(video0, sprite, screenX, screenY, row);
    }

    /** The body of the column loop of Dxyn: when bit `column` of the
        sprite byte is set, its cell is complemented, and VF becomes 1 if
        the cell was lit. */
    method DrawPixel(spriteByte: uint8, row: nat, column: nat, screenX: nat, screenY: nat,
                     ghost sprite: seq<uint8>, ghost current: seq<bv32>, ghost hit: bool)
      requires Valid() && row < |sprite| && column < 8 && sprite[row] == spriteByte
      requires Cell(screenX, screenY, row, column) < VIDEO_CELLS
      requires video[..] == current && registers[VF] == if hit then 1 else 0
      modifies registers, video
      ensures video[..] == DrawStep(current, hit, sprite, screenX, screenY, row, column).0
      ensures registers[..] == old(registers[..])[VF := if DrawStep(current, hit, sprite, screenX, screenY, row, column).1 then 1 else 0]
    {
      var cell := Cell(screenX, screenY, row, column);
      var spritePixel := BitAnd(spriteByte, ShiftRight(0x80, column));
      PixelOnAsWritten(spriteByte, column);
      if spritePixel != 0 {
        if video[cell] == PIXEL_ON {
          registers[VF] := 1;
        }
        video[cell] := video[cell] ^ PIXEL_ON;
      }
    }

    /** Ex9E SKP Vx. */
    method OpEx9E()
      requires Valid() && registers[X(opcode)] < KEY_COUNT
      modifies this
      ensures Valid() && Abs() == Instructions.OpEx9E(old(Abs()))
    {
      var x := X(opcode);
      var key := registers[x];
      if keypad[key] != 0 {
        programCounter := (programCounter + 2) % 0x1_0000;
      }
    }

    /** ExA1 SKNP Vx. */
    method OpExA1()
      requires Valid() && registers[X(opcode)] < KEY_COUNT
      modifies this
      ensures Valid() && Abs() == Instructions.OpExA1(old(Abs()))
    {
      var x := X(opcode);
      var key := registers[x];
      if keypad[key] == 0 {
        programCounter := (programCounter + 2) % 0x1_0000;
      }
    }

    /** Fx07 LD Vx, DT. */
    method OpFx07()
      requires Valid()
      modifies registers
      ensures Valid() && Abs() == Instructions.OpFx07(old(Abs()))
    {
      var x := X(opcode);
      registers[x] := delayTimer;
    }

    /** Fx0A LD Vx, K: the chain of tests keypad[0], keypad[1], ...,
        keypad[15], as a scan in the same order; the first pressed key goes
        to Vx, and with none pressed the program counter steps back by 2. */
    method OpFx0A()
      requires Valid()
      modifies this, registers
      ensures Valid() && Abs() == Instructions.OpFx0A(old(Abs()))
    {
      var x := X(opcode);
      var key := 0;
      while key < KEY_COUNT && keypad[key] == 0
        invariant 0 <= key <= KEY_COUNT
        invariant Instructions.FirstPressed(keypad[..], key) == Instructions.FirstPressed(keypad[..], 0)
      {
        key := key + 1;
      }
      if key < KEY_COUNT {
        registers[x] := key;
      } else {
        programCounter := (programCounter - 2) % 0x1_0000;
      }
    }

    /** Fx15 LD DT, Vx. */
    method OpFx15()
      requires Valid()
      modifies this
      ensures Valid() && Abs() == Instructions.OpFx15(old(Abs()))
    {
      var x := X(opcode);
      delayTimer := registers[x];
    }

    /** Fx18 LD ST, Vx. */
    method OpFx18()
      requires Valid()
      modifies this
      ensures Valid() && Abs() == Instructions.OpFx18(old(Abs()))
    {
      var x := X(opcode);
      soundTimer := registers[x];
    }

    /** Fx1E ADD I, Vx. */
    method OpFx1E()
      requires Valid()
      modifies this
      ensures Valid() && Abs() == Instructions.OpFx1E(old(Abs()))
    {
      var x := X(opcode);
      index := (index + registers[x]) % 0x1_0000;
    }

    /** Fx29 LD F, Vx. */
    method OpFx29()
      requires Valid()
      modifies this
      ensures Valid() && Abs() == Instructions.OpFx29(old(Abs()))
    {
      var x := X(opcode);
      var location := registers[x];
      index := (FONTSET_START_ADDRESS + 5 * (location as int)) % 0x1_0000;
    }

    /** Fx33 LD B, Vx: ones, then tens, then hundreds. */
    method OpFx33()
      requires Valid() && index + 2 < MEMORY_SIZE
      modifies memory
      ensures Valid() && Abs() == Instructions.OpFx33(old(Abs()))
    {
      var x := X(opcode);
      var value := registers[x];
      memory[index + 2] := value % 10;
      value := value / 10;
      memory[index + 1] := value % 10;
      value := value / 10;
      memory[index] := value % 10;
    }

    /** Fx55 LD [I], Vx. */
    method OpFx55()
      requires Valid() && index + X(opcode) < MEMORY_SIZE
      modifies memory
      ensures Valid() && Abs() == Instructions.OpFx55(old(Abs()))
    {
      var x := X(opcode);
      for i := 0 to x + 1
        invariant forall a :: 0 <= a < MEMORY_SIZE ==>
          memory[a] == if index <= a < index + i then registers[a - index] else old(memory[a])
      {
        memory[index + i] := registers[i];
      }
      assert memory[..] == Instructions.OpFx55(old(Abs())).memory;
    }

    /** Fx65 LD Vx, [I]. */
    method OpFx65()
      requires Valid() && index + X(opcode) < MEMORY_SIZE
      modifies registers
      ensures Valid() && Abs() == Instructions.OpFx65(old(Abs()))
    {
      var x := X(opcode);
      for i := 0 to x + 1
        invariant forall j :: 0 <= j < REGISTER_COUNT ==>
          registers[j] == if j < i then memory[index + j] else old(registers[j])
      {
        registers[i] := memory[index + i];
      }
      assert registers[..] == Instructions.OpFx65(old(Abs())).registers;
    }

    /** The null instruction. */
    method OpNull()
      requires Valid()
      ensures Valid() && Abs() == old(Abs())
    {
    }

    /** The handler calls of the switch in `decode`. */
    method Execute(instr: Dispatch.Instr, rand: uint8)
      requires Valid() && Dispatch.ExecPre(Abs(), instr)
      modifies this, registers, memory, stack, video
      ensures Valid() && Abs() == Dispatch.Exec(old(Abs()), instr, rand)
    {
      match instr
      case Cls => Op00E0();
      case Ret => Op00EE();
      case Jp => Op1nnn();
      case Call => Op2nnn();
      case SeByte => Op3xkk();
      case SneByte => Op4xkk();
      case SeReg => Op5xy0();
      case LdByte => Op6xkk();
      case AddByte => Op7xkk();
      case LdReg => Op8xy0();
      case Or => Op8xy1();
      case And => Op8xy2();
      case Xor => Op8xy3();
      case AddReg => Op8xy4();
      case Sub => Op8xy5();
      case Shr => Op8xy6();
      case Subn => Op8xy7();
      case Shl => Op8xyE();
      case SneReg => Op9xy0();
      case LdI => OpAnnn();
      case JpV0 => OpBnnn();
      case Rnd => OpCxkk(rand);
      case Drw => OpDxyn();
      case Skp => OpEx9E();
      case Sknp => OpExA1();
      case LdVxDt => OpFx07();
      case LdVxK => OpFx0A();
      case LdDtVx => OpFx15();
      case LdStVx => OpFx18();
      case AddI => OpFx1E();
      case LdF => OpFx29();
      case LdB => OpFx33();
      case StoreRegs => OpFx55();
      case LoadRegs => OpFx65();
      case Null => OpNull();
    }

    /** `decode`: select the handler for the current opcode and run it. */
    method Decode(rand: uint8)
      requires Valid() && Dispatch.ExecPre(Abs(), Dispatch.Decode(opcode))
      modifies this, registers, memory, stack, video
      ensures Valid() && Abs() == Dispatch.Exec(old(Abs()), Dispatch.Decode(old(opcode)), rand)
    {
      Execute(Dispatch.Decode(opcode), rand);
    }

    /** `cycle`: fetch the word at the program counter, advance it by 2,
        decode and execute, then count the timers down. */
    method Cycle(rand: uint8)
      requires Valid() && Dispatch.CyclePre(Abs())
      modifies this, registers, memory, stack, video
      ensures Valid() && Abs() == Dispatch.Cycle(old(Abs()), rand)
    {
      Fetch();
      ghost var fetched := Abs();
      Decode(rand);
      assert Abs() == Dispatch.Exec(fetched, Dispatch.Decode(fetched.opcode), rand);
      Tick();
    }

    /** The fetch at the head of `cycle`: the big-endian word at the program
        counter becomes the opcode, and the program counter moves past it. */
    method Fetch()
      requires Valid() && programCounter + 1 < MEMORY_SIZE
      modifies this
      ensures Valid() && Abs() == Dispatch.Fetch(old(Abs()))
    {
      opcode := memory[programCounter] as int * 0x100 + memory[programCounter + 1];
      programCounter := (programCounter + 2) % 0x1_0000;
    }

    /** The timer countdown at the end of `cycle`. */
    method Tick()
      requires Valid()
      modifies this
      ensures Valid() && Abs() == Dispatch.Tick(old(Abs()))
    {
      if delayTimer > 0 {
        delayTimer := delayTimer - 1;
      }
      if soundTimer > 0 {
        soundTimer := soundTimer - 1;
      }
    }
  }
}
