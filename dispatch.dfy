/** The dispatch switch of `decode`, one fetch-execute `cycle`, the machine
    as the constructor leaves it, and the ROM copy loop, as functions on the
    machine state. */
module Dispatch {
  import opened MachineState
  import opened Sprites
  import opened Instructions

  /** The 35 handlers, named by their mnemonics. */
  datatype Instr =
    | Cls | Ret | Jp | Call | SeByte | SneByte | SeReg | LdByte | AddByte
    | LdReg | Or | And | Xor | AddReg | Sub | Shr | Subn | Shl | SneReg
    | LdI | JpV0 | Rnd | Drw | Skp | Sknp
    | LdVxDt | LdVxK | LdDtVx | LdStVx | AddI | LdF | LdB | StoreRegs | LoadRegs
    | Null

  /** The switch table of `decode`, given the value it switches on first.
      Family 0 holds only CLS (low nibble 0) and RET (low nibble E); the
      families without an inner switch always select a handler; a family
      past F selects nothing. */
  function Dispatch(family: nat, op: uint16): (r: Instr)
    ensures family == 0x0 ==> (r == Cls <==> op % 0x10 == 0x0) && (r == Ret <==> op % 0x10 == 0xE)
    ensures family == 0x0 ==> r == Cls || r == Ret || r == Null
    ensures family in {0x1, 0x2, 0x3, 0x4, 0x5, 0x6, 0x7, 0x9, 0xA, 0xB, 0xC, 0xD} ==> r != Null
    ensures family > 0xF ==> r == Null
  {
    match family
    case 0x0 => (
      match op % 0x10
      case 0x0 => Cls
      case 0xE => Ret
      case _ => Null)
    case 0x1 => Jp
    case 0x2 => Call
    case 0x3 => SeByte
    case 0x4 => SneByte
    case 0x5 => SeReg
    case 0x6 => LdByte
    case 0x7 => AddByte
    case 0x8 => (
      match op % 0x10
      case 0x0 => LdReg
      case 0x1 => Or
      case 0x2 => And
      case 0x3 => Xor
      case 0x4 => AddReg
      case 0x5 => Sub
      case 0x6 => Shr
      case 0x7 => Subn
      case 0xE => Shl
      case _ => Null)
    case 0x9 => SneReg
    case 0xA => LdI
    case 0xB => JpV0
    case 0xC => Rnd
    case 0xD => Drw
    case 0xE => (
      match op % 0x10
      case 0xE => Skp
      case 0x1 => Sknp
      case _ => Null)
    case 0xF => (
      match op % 0x100
      case 0x07 => LdVxDt
      case 0x0A => LdVxK
      case 0x15 => LdDtVx
      case 0x18 => LdStVx
      case 0x1E => AddI
      case 0x29 => LdF
      case 0x33 => LdB
      case 0x55 => StoreRegs
      case 0x65 => LoadRegs
      case _ => Null)
    case _ => Null
  }

  /** `(opcode & 0xF000u) >> 16u` as written: the mask keeps bits 12..15 of
      the word and the shift by 16 then discards them, so this is always 0. */
  function Family(op: uint16): (f: nat)
    ensures f == 0
  {
    op / 0x1000 % 0x10 * 0x1000 / 0x1_0000
  }

  /** The handler `decode` runs for an instruction word: only three of the
      35 can ever be selected. */
  function Decode(op: uint16): (r: Instr)
    ensures r == Cls || r == Ret || r == Null
  {
    Dispatch(Family(op), op)
  }

  /** Because the family is always 0, `decode` only ever runs CLS (low
      nibble 0), RET (low nibble E) or the null instruction. */
  lemma {:induction false} DecodeAsWritten(op: uint16)
    ensures Decode(op) == if op % 0x10 == 0x0 then Cls else if op % 0x10 == 0xE then Ret else Null
  {
    assert Family(op) == 0;
  }

  /** What a handler demands of the state:
      the accesses the C++ leaves unchecked stay in bounds. */
  predicate ExecPre(s: State, instr: Instr)
    requires Wf(s)
  {
    match instr
    case Ret => s.stackPointer >= 1
    case Call => s.stackPointer < STACK_SIZE
    case Drw => DrawPre(s)
    case Skp => s.registers[X(s.opcode)] < KEY_COUNT
    case Sknp => s.registers[X(s.opcode)] < KEY_COUNT
    case LdB => s.index + 2 < MEMORY_SIZE
    case StoreRegs => s.index + X(s.opcode) < MEMORY_SIZE
    case LoadRegs => s.index + X(s.opcode) < MEMORY_SIZE
    case _ => true
  }

  /** The calls in the switch of `decode`: run one handler on the state. */
  function Exec(s: State, instr: Instr, rand: uint8): (r: State)
    requires Wf(s) && ExecPre(s, instr)
    ensures Wf(r)
  {
    match instr
    case Cls => Op00E0(s)
    case Ret => Op00EE(s)
    case Jp => Op1nnn(s)
    case Call => Op2nnn(s)
    case SeByte => Op3xkk(s)
    case SneByte => Op4xkk(s)
    case SeReg => Op5xy0(s)
    case LdByte => Op6xkk(s)
    case AddByte => Op7xkk(s)
    case LdReg => Op8xy0(s)
    case Or => Op8xy1(s)
    case And => Op8xy2(s)
    case Xor => Op8xy3(s)
    case AddReg => Op8xy4(s)
    case Sub => Op8xy5(s)
    case Shr => Op8xy6(s)
    case Subn => Op8xy7(s)
    case Shl => Op8xyE(s)
    case SneReg => Op9xy0(s)
    case LdI => OpAnnn(s)
    case JpV0 => OpBnnn(s)
    case Rnd => OpCxkk(s, rand)
    case Drw => OpDxyn(s)
    case Skp => OpEx9E(s)
    case Sknp => OpExA1(s)
    case LdVxDt => OpFx07(s)
    case LdVxK => OpFx0A(s)
    case LdDtVx => OpFx15(s)
    case LdStVx => OpFx18(s)
    case AddI => OpFx1E(s)
    case LdF => OpFx29(s)
    case LdB => OpFx33(s)
    case StoreRegs => OpFx55(s)
    case LoadRegs => OpFx65(s)
    case Null => s
  }

  /** The fetch half of `cycle`: the big-endian word at the program counter
      becomes the opcode, and the program counter moves past it. */
  function Fetch(s: State): (r: State)
    requires Wf(s) && s.programCounter + 1 < MEMORY_SIZE
    ensures Wf(r)
    ensures r.opcode == s.memory[s.programCounter] as int * 0x100 + s.memory[s.programCounter + 1]
    ensures r.programCounter == s.programCounter + 2
    ensures r == s.(opcode := r.opcode, programCounter := r.programCounter)
  {
    // `(memory[pc] << 8u) | memory[pc + 1]`: the low byte fills the zero bits
    s.(opcode := s.memory[s.programCounter] as int * 0x100 + s.memory[s.programCounter + 1],
       programCounter := SkipNext(s.programCounter))
  }

  /** The end of `cycle`: each timer counts down by one unless it is 0. */
  function Tick(s: State): (r: State)
    requires Wf(s)
    ensures Wf(r)
    ensures s.delayTimer > 0 ==> r.delayTimer == s.delayTimer - 1
    ensures s.delayTimer == 0 ==> r.delayTimer == 0
    ensures s.soundTimer > 0 ==> r.soundTimer == s.soundTimer - 1
    ensures s.soundTimer == 0 ==> r.soundTimer == 0
    ensures r == s.(delayTimer := r.delayTimer, soundTimer := r.soundTimer)
  {
    s.(delayTimer := if s.delayTimer > 0 then s.delayTimer - 1 else s.delayTimer,
       soundTimer := if s.soundTimer > 0 then s.soundTimer - 1 else s.soundTimer)
  }

  /** What one cycle demands: the word at the program counter lies in
      memory, and the handler it selects can run. */
  predicate CyclePre(s: State)
    requires Wf(s)
  {
    s.programCounter + 1 < MEMORY_SIZE && ExecPre(Fetch(s), Decode(Fetch(s).opcode))
  }

  /** `cycle`: fetch, advance the program counter, dispatch, count down. */
  function Cycle(s: State, rand: uint8): (r: State)
    requires Wf(s) && CyclePre(s)
    ensures Wf(r)
  {
    var fetched := Fetch(s);
    Tick(Exec(fetched, Decode(fetched.opcode), rand))
  }

  /** The word one cycle fetches. */
  function FetchedWord(s: State): uint16
    requires Wf(s) && s.programCounter + 1 < MEMORY_SIZE
  {
    Fetch(s).opcode
  }

  /** What a cycle demands, spelled out: a RET needs a non-empty stack, and
      nothing else can be dispatched that needs more. */
  lemma {:induction false} CyclePreAsWritten(s: State)
    requires Wf(s)
    ensures CyclePre(s) <==>
      s.programCounter + 1 < MEMORY_SIZE &&
      (FetchedWord(s) % 0x10 == 0xE ==> s.stackPointer >= 1)
  {
    if s.programCounter + 1 < MEMORY_SIZE {
      DecodeAsWritten(FetchedWord(s));
    }
  }

  /** One cycle as the code behaves: it clears the video buffer exactly
      when the fetched word's low nibble is 0, pops the stack exactly when
      it is E, and otherwise changes nothing but the program counter and
      the timers. */
  lemma {:induction false} CycleAsWritten(s: State, rand: uint8)
    requires Wf(s) && CyclePre(s)
    ensures var r, op, pc := Cycle(s, rand), FetchedWord(s), s.programCounter + 2;
      r.opcode == op &&
      (op % 0x10 == 0x0 ==>
        r == Tick(s.(opcode := op, programCounter := pc, video := seq(VIDEO_CELLS, _ => 0)))) &&
      (op % 0x10 == 0xE ==>
        r == Tick(s.(opcode := op, stackPointer := s.stackPointer - 1,
                     programCounter := s.stack[s.stackPointer - 1]))) &&
      (op % 0x10 != 0x0 && op % 0x10 != 0xE ==>
        r == Tick(s.(opcode := op, programCounter := pc)))
  {
    DecodeAsWritten(FetchedWord(s));
  }

  /** A cycle never changes registers, memory, index or keypad, and it
      changes the video buffer only by clearing it. */
  lemma {:induction false} CycleFrame(s: State, rand: uint8)
    requires Wf(s) && CyclePre(s)
    ensures var r := Cycle(s, rand);
      r.registers == s.registers && r.memory == s.memory && r.index == s.index &&
      r.keypad == s.keypad && r.stack == s.stack &&
      (r.video == s.video || forall k :: 0 <= k < VIDEO_CELLS ==> r.video[k] == 0)
  {
    DecodeAsWritten(FetchedWord(s));
  }

  /** The state the constructor leaves: program counter at 0x200, the font
      at 0x50, everything else zero except the opcode, which the C++ leaves
      uninitialised and is therefore a parameter. */
  function Initial(op: uint16): (r: State)
    ensures Wf(r) && r.programCounter == START_ADDRESS && r.stackPointer == 0
    ensures r.memory[FONTSET_START_ADDRESS .. FONTSET_START_ADDRESS + FONT_SIZE] == Fontset
    ensures forall a :: 0 <= a < MEMORY_SIZE && !(FONTSET_START_ADDRESS <= a < FONTSET_START_ADDRESS + FONT_SIZE) ==>
      r.memory[a] == 0
    ensures forall k :: 0 <= k < VIDEO_CELLS ==> r.video[k] == 0
    ensures forall i :: 0 <= i < REGISTER_COUNT ==> r.registers[i] == 0
    ensures forall i :: 0 <= i < STACK_SIZE ==> r.stack[i] == 0
    ensures forall k :: 0 <= k < KEY_COUNT ==> r.keypad[k] == 0
    ensures r.index == 0 && r.delayTimer == 0 && r.soundTimer == 0 && r.opcode == op
  {
    State(
      registers := seq(REGISTER_COUNT, _ => 0),
      memory := seq(MEMORY_SIZE, a requires 0 <= a < MEMORY_SIZE =>
        if FONTSET_START_ADDRESS <= a < FONTSET_START_ADDRESS + FONT_SIZE then Fontset[a - FONTSET_START_ADDRESS] else 0),
      index := 0,
      programCounter := START_ADDRESS,
      stack := seq(STACK_SIZE, _ => 0),
      stackPointer := 0,
      delayTimer := 0,
      soundTimer := 0,
      keypad := seq(KEY_COUNT, _ => 0),
      video := seq(VIDEO_CELLS, _ => 0),
      opcode := op)
  }

  /** The copy loop of `load_ROM`: the ROM bytes go to memory[0x200 ..]
      verbatim; the rest of memory and of the state is unchanged. */
  function LoadRom(s: State, rom: seq<uint8>): (r: State)
    requires Wf(s) && |rom| <= MEMORY_SIZE - START_ADDRESS
    ensures Wf(r)
    ensures r.memory[START_ADDRESS .. START_ADDRESS + |rom|] == rom
    ensures r.memory[.. START_ADDRESS] == s.memory[.. START_ADDRESS]
    ensures r.memory[START_ADDRESS + |rom| ..] == s.memory[START_ADDRESS + |rom| ..]
    ensures r == s.(memory := r.memory)
  {
    s.(memory := seq(MEMORY_SIZE, a requires 0 <= a < MEMORY_SIZE =>
         if START_ADDRESS <= a < START_ADDRESS + |rom| then rom[a - START_ADDRESS] else s.memory[a]))
  }
}
