/** The CHIP-8 virtual CPU: 4096 bytes of memory, sixteen 8-bit registers,
    a program counter, an index register and the ROM last handed to it. */
module Chip8Machine {
  import opened Exceptions

  const MemorySize := 4096
  const RegisterCount := 16
  /** Address at which a ROM is loaded. */
  const RomStart := 0x200
  /** Bytes between RomStart and the end of memory (0xE00). */
  const RomCapacity := MemorySize - RomStart

  datatype Option<T> = None | Some(value: T)

  /** The machine's fields as values: bytes are the bit patterns of Java
      bytes; pc and index hold the values of Java shorts. */
  datatype State = State(
    memory: seq<bv8>,
    registers: seq<bv8>,
    pc: int,
    index: int,
    rom: Option<seq<bv8>>)

  function Zeros(n: nat): (z: seq<bv8>)
    ensures |z| == n && forall k :: 0 <= k < n ==> z[k] == 0
  {
    seq(n, _ => 0)
  }

  predicate IsShort(v: int) {
    -0x8000 <= v < 0x8000
  }

  /** The shape of every state the machine can reach. */
  predicate WellFormed(s: State) {
    |s.memory| == MemorySize && |s.registers| == RegisterCount &&
    0 <= s.pc <= MemorySize && IsShort(s.index)
  }

  /** No operation writes below RomStart, so that region stays zero. */
  predicate LowMemoryClear(s: State)
    requires WellFormed(s)
  {
    forall a :: 0 <= a < RomStart ==> s.memory[a] == 0
  }

  /** A newly constructed machine. */
  function Initial(): (r: State) {
    State(Zeros(MemorySize), Zeros(RegisterCount), RomStart, 0, None)
  }

  // ---------------------------------------------------------------------
  // Loading a ROM

  /** Memory below RomStart taken from low, then as much of rom as fits,
      then zeros up to the end of memory. */
  function LoadedMemory(low: seq<bv8>, rom: seq<bv8>): (m: seq<bv8>)
    requires |low| == RomStart
    ensures |m| == MemorySize
    ensures forall a :: 0 <= a < RomStart ==> m[a] == low[a]
    ensures forall a :: RomStart <= a < MemorySize ==>
              m[a] == if a - RomStart < |rom| then rom[a - RomStart] else 0
  {
    var n := if |rom| <= RomCapacity then |rom| else RomCapacity;
    low + rom[..n] + Zeros(RomCapacity - n)
  }

  /** The copy loop writes memory[k + RomStart] for k < |rom|; the first k
      that reaches past the end of memory throws. */
  function CopyOutcome(rom: seq<bv8>): (o: Outcome)
    ensures o == Normal <==> |rom| <= RomCapacity
    ensures o != Normal ==> o == ArrayIndexOutOfBounds(MemorySize)
  {
    if |rom| <= RomCapacity then Normal else ArrayIndexOutOfBounds(RomStart + RomCapacity)
  }

  /** setRomData: remember the ROM, clear RomStart..0xFFF, copy the ROM in. */
  function LoadRom(s: State, rom: seq<bv8>): (r: (Outcome, State))
    requires WellFormed(s)
    ensures WellFormed(r.1) && (LowMemoryClear(s) ==> LowMemoryClear(r.1))
    ensures r.0 == CopyOutcome(rom) && r.1.rom == Some(rom)
    ensures forall a :: 0 <= a < RomStart ==> r.1.memory[a] == s.memory[a]
    ensures forall k :: 0 <= k < |rom| && k < RomCapacity ==> r.1.memory[RomStart + k] == rom[k]
    ensures forall a :: RomStart + |rom| <= a < MemorySize ==> r.1.memory[a] == 0
    ensures r.1.registers == s.registers && r.1.pc == s.pc && r.1.index == s.index
  {
    (CopyOutcome(rom), s.(memory := LoadedMemory(s.memory[..RomStart], rom), rom := Some(rom)))
  }

  /** A second load replaces everything the first one put in memory. */
  lemma LoadRomLastWins(s: State, first: seq<bv8>, second: seq<bv8>)
    requires WellFormed(s)
    ensures LoadRom(LoadRom(s, first).1, second) == LoadRom(s, second)
  {
    var once := LoadRom(s, first).1;
    assert once.memory[..RomStart] == s.memory[..RomStart];
  }

  // ---------------------------------------------------------------------
  // Fetch

  /** Java's widening of a (signed) byte to int: sign extension. */
  function JavaByteToInt(b: bv8): (w: bv32)
    ensures w & 0xFF == b as bv32
    ensures (w >> 8) == if b < 0x80 then 0 else 0xFF_FFFF
  {
    if b < 0x80 then b as bv32 else 0xFFFF_FF00 | b as bv32
  }

  /** The cast (short) of a Java int: its low 16 bits. */
  function JavaIntToShort(w: bv32): (h: bv16) {
    (w & 0xFFFF) as bv16
  }

  /** (short)((hi << 8) | lo) with both bytes widened as Java widens them.
      When lo has its top bit set its sign extension covers the high byte. */
  function FetchOpcode(hi: bv8, lo: bv8): (opcode: bv16)
    ensures opcode as bv32 & 0xFF == lo as bv32
    ensures opcode as bv32 >> 8 == if lo < 0x80 then hi as bv32 else 0xFF
  {
    JavaIntToShort((JavaByteToInt(hi) << 8) | JavaByteToInt(lo))
  }

  // ---------------------------------------------------------------------
  // One cycle

  /** executeCycle: fetch the opcode at pc, dispatch on its top nibble. */
  function Step(s: State): (r: (Outcome, State))
    requires WellFormed(s)
    ensures WellFormed(r.1)
    ensures r.1.memory == s.memory && r.1.index == s.index && r.1.rom == s.rom
    ensures r.0 != Normal ==> r.1 == s
  {
    if s.pc + 1 >= MemorySize then
      (ArrayIndexOutOfBounds(if s.pc >= MemorySize then s.pc else s.pc + 1), s)
    else
      var opcode := FetchOpcode(s.memory[s.pc], s.memory[s.pc + 1]);
      var group := opcode & 0xF000;
      if group == 0x0000 then
        // clear screen and return are TODO stubs: no effect, pc stays
        if opcode & 0x000F == 0x0000 || opcode & 0x000F == 0x000E then (Normal, s)
        else (UnknownOpcode(opcode), s)
      else if group == 0x1000 then
        (Normal, s.(pc := (opcode & 0x0FFF) as int))
      else if group == 0x6000 then
        // pc <= 0xFFE here, so the short narrowing of pc + 2 changes nothing
        (Normal, s.(registers := s.registers[((opcode & 0x0F00) >> 8) as int := (opcode & 0x00FF) as bv8],
                    pc := s.pc + 2))
      else
        (UnknownOpcode(opcode), s)
  }

  /** The two bytes at pc, high byte first. */
  function High(s: State): (r: bv8)
    requires WellFormed(s) && s.pc + 1 < MemorySize
  {
    s.memory[s.pc]
  }

  function Low(s: State): (r: bv8)
    requires WellFormed(s) && s.pc + 1 < MemorySize
  {
    s.memory[s.pc + 1]
  }

  /** A stub opcode: 0x0NN0 or 0x0NNE, so 00E0 and 00EE among others. */
  predicate IsStub(s: State)
    requires WellFormed(s) && s.pc + 1 < MemorySize
  {
    High(s) >> 4 == 0 && Low(s) < 0x80 && (Low(s) & 0xF == 0x0 || Low(s) & 0xF == 0xE)
  }

  predicate IsJump(s: State)
    requires WellFormed(s) && s.pc + 1 < MemorySize
  {
    High(s) >> 4 == 1 && Low(s) < 0x80
  }

  predicate IsSetRegister(s: State)
    requires WellFormed(s) && s.pc + 1 < MemorySize
  {
    High(s) >> 4 == 6 && Low(s) < 0x80
  }

  /** The fetch reads memory[pc] and memory[pc + 1]; at pc 0xFFF or 0x1000
      the index that fails is 0x1000, and nothing changes. */
  lemma StepFetchOutOfRange(s: State)
    requires WellFormed(s) && s.pc + 1 >= MemorySize
    ensures Step(s) == (ArrayIndexOutOfBounds(MemorySize), s)
  {
  }

  /** 1NNN: pc becomes NNN, taken from the two bytes; nothing else changes. */
  lemma StepJump(s: State)
    requires WellFormed(s) && s.pc + 1 < MemorySize && IsJump(s)
    ensures Step(s) == (Normal, s.(pc := (High(s) & 0x0F) as int * 0x100 + Low(s) as int))
  {
  }

  /** 6XNN: register X becomes NN and pc advances by 2; nothing else changes. */
  lemma StepSetRegister(s: State)
    requires WellFormed(s) && s.pc + 1 < MemorySize && IsSetRegister(s)
    ensures Step(s) == (Normal, s.(registers := s.registers[(High(s) & 0x0F) as int := Low(s)], pc := s.pc + 2))
  {
  }

  /** 0NN0 and 0NNE: no effect at all, pc included. */
  lemma StepStub(s: State)
    requires WellFormed(s) && s.pc + 1 < MemorySize && IsStub(s)
    ensures Step(s) == (Normal, s)
  {
  }

  /** Every other opcode throws, reporting the fetched 16 bits, and changes nothing. */
  lemma StepUnknown(s: State)
    requires WellFormed(s) && s.pc + 1 < MemorySize
    requires !IsStub(s) && !IsJump(s) && !IsSetRegister(s)
    ensures Step(s) == (UnknownOpcode(FetchOpcode(High(s), Low(s))), s)
  {
  }

  /** A low byte of 0x80 or more makes the opcode 0xFFNN, which no case
      matches: 6X80..6XFF and 1N80..1NFF throw instead of executing. */
  lemma StepSignExtension(s: State)
    requires WellFormed(s) && s.pc + 1 < MemorySize && Low(s) >= 0x80
    ensures Step(s) == (UnknownOpcode(0xFF00 | Low(s) as bv16), s)
  {
  }

  // ---------------------------------------------------------------------
  // Reset

  /** reset: fresh zeroed memory and registers, pc and index 0, then the
      remembered ROM copied in again (a NullPointerException without one). */
  function ResetState(s: State): (r: (Outcome, State))
    requires WellFormed(s)
    ensures WellFormed(r.1) && LowMemoryClear(r.1)
    ensures r.1.registers == Zeros(RegisterCount) && r.1.pc == 0 && r.1.index == 0 && r.1.rom == s.rom
    ensures r.0 == NullPointer <==> s.rom == None
    ensures s.rom == None ==> r.1.memory == Zeros(MemorySize)
    ensures s.rom != None ==> r.0 == CopyOutcome(s.rom.value)
    ensures s.rom != None ==> forall a :: 0 <= a < MemorySize ==>
              r.1.memory[a] == if RomStart <= a && a - RomStart < |s.rom.value| then s.rom.value[a - RomStart] else 0
  {
    var cleared := State(Zeros(MemorySize), Zeros(RegisterCount), 0, 0, s.rom);
    match s.rom
    case None => (NullPointer, cleared)
    case Some(rom) => (CopyOutcome(rom), cleared.(memory := LoadedMemory(Zeros(RomStart), rom)))
  }

  /** Memory after reset is memory after setRomData of the same ROM. */
  lemma ResetMatchesLoad(s: State, rom: seq<bv8>)
    requires WellFormed(s) && LowMemoryClear(s) && s.rom == Some(rom)
    ensures ResetState(s).0 == LoadRom(s, rom).0
    ensures ResetState(s).1.memory == LoadRom(s, rom).1.memory
  {
    assert s.memory[..RomStart] == Zeros(RomStart);
  }

  /** Resetting a freshly loaded machine gives it back with pc 0 instead of 0x200. */
  lemma ResetAfterLoad(rom: seq<bv8>)
    ensures ResetState(LoadRom(Initial(), rom).1) == (CopyOutcome(rom), LoadRom(Initial(), rom).1.(pc := 0))
  {
    assert Initial().memory[..RomStart] == Zeros(RomStart);
  }

  /** Memory at 0 and 1 is zero after reset, and 0x0000 is a do-nothing
      opcode: a reset machine stays at PC 0 and never runs the ROM. */
  lemma ResetThenStuck(s: State, n: nat)
    requires WellFormed(s)
    ensures Run(ResetState(s).1, n) == (Normal, ResetState(s).1)
  {
    var t := ResetState(s).1;
    assert t.memory[0] == 0 && t.memory[1] == 0;
    StubRunsInPlace(t, n);
  }

  lemma ResetIdempotent(s: State)
    requires WellFormed(s)
    ensures ResetState(ResetState(s).1) == ResetState(s)
  {
  }

  // ---------------------------------------------------------------------
  // Several cycles

  /** n cycles in a row, stopping at the first exception. */
  function Run(s: State, n: nat): (r: (Outcome, State))
    requires WellFormed(s)
    decreases n
  {
    if n == 0 then (Normal, s)
    else
      var (outcome, t) := Step(s);
      if outcome != Normal then (outcome, t) else Run(t, n - 1)
  }

  /** executeCycle never writes memory, the index register or the ROM. */
  lemma {:induction false} RunKeepsMemory(s: State, n: nat)
    requires WellFormed(s)
    ensures WellFormed(Run(s, n).1)
    ensures Run(s, n).1.memory == s.memory && Run(s, n).1.index == s.index && Run(s, n).1.rom == s.rom
    decreases n
  {
    if n > 0 && Step(s).0 == Normal {
      RunKeepsMemory(Step(s).1, n - 1);
    }
  }

  /** A stub opcode at pc leaves the machine where it is for ever. */
  lemma {:induction false} StubRunsInPlace(s: State, n: nat)
    requires WellFormed(s) && s.pc + 1 < MemorySize && IsStub(s)
    ensures Run(s, n) == (Normal, s)
    decreases n
  {
    if n > 0 {
      StepStub(s);
      StubRunsInPlace(s, n - 1);
    }
  }

  /** A jump to its own address (1NNN at NNN) also loops in place. */
  lemma {:induction false} SelfJumpRunsInPlace(s: State, n: nat)
    requires WellFormed(s) && s.pc + 1 < MemorySize && IsJump(s)
    requires (High(s) & 0x0F) as int * 0x100 + Low(s) as int == s.pc
    ensures Run(s, n) == (Normal, s)
    decreases n
  {
    if n > 0 {
      StepJump(s);
      assert s.(pc := s.pc) == s;
      SelfJumpRunsInPlace(s, n - 1);
    }
  }

  /** 00E0 has a low byte of 0xE0, so it is fetched as 0xFFE0 and throws:
      the ROM 00E0 6A02 1200 stops on its first cycle with nothing changed. */
  lemma ClearScreenThrows()
    ensures var loaded := LoadRom(Initial(), [0x00, 0xE0, 0x6A, 0x02, 0x12, 0x00]).1;
            Run(loaded, 3) == (UnknownOpcode(0xFFE0), loaded)
  {
    var loaded := LoadRom(Initial(), [0x00, 0xE0, 0x6A, 0x02, 0x12, 0x00]).1;
    assert High(loaded) == 0x00 && Low(loaded) == 0xE0;
    StepSignExtension(loaded);
  }

  /** 00EE is fetched as 0xFFEE and throws as well. */
  lemma ReturnThrows(s: State)
    requires WellFormed(s) && s.pc + 1 < MemorySize && High(s) == 0x00 && Low(s) == 0xEE
    ensures Step(s) == (UnknownOpcode(0xFFEE), s)
  {
    StepSignExtension(s);
  }

  // ---------------------------------------------------------------------
  // The machine object

  class Machine {
    var memory: array<bv8>
    var registers: array<bv8>
    var pc: int
    var index: int
    var rom: Option<seq<bv8>>

    ghost function Snapshot(): State
      reads this, memory, registers
    {
      State(memory[..], registers[..], pc, index, rom)
    }

    ghost predicate Valid()
      reads this, memory, registers
    {
      memory.Length == MemorySize && registers.Length == RegisterCount && memory != registers &&
      WellFormed(Snapshot()) && LowMemoryClear(Snapshot())
    }

    /** Everything zero but pc, which starts at RomStart; no ROM yet. */
    constructor ()
      ensures Valid() && fresh(memory) && fresh(registers)
      ensures Snapshot() == Initial()
    {
      memory := new bv8[MemorySize](_ => 0);
      registers := new bv8[RegisterCount](_ => 0);
      pc := RomStart;
      index := 0;
      rom := None;
      new;
      assert memory[..] == Zeros(MemorySize);
      assert registers[..] == Zeros(RegisterCount);
    }

    method SetRomData(data: seq<bv8>) returns (outcome: Outcome)
      requires Valid()
      modifies this`rom, memory
      ensures Valid()
      ensures (outcome, Snapshot()) == LoadRom(old(Snapshot()), data)
    {
      ghost var before := Snapshot();
      ghost var low := memory[..RomStart];
      assert low == before.memory[..RomStart];
      rom := Some(data);
      for a := RomStart to MemorySize
        modifies memory
        invariant forall j :: 0 <= j < RomStart ==> memory[j] == low[j]
        invariant forall j :: RomStart <= j < a ==> memory[j] == 0
      {
        memory[a] := 0;
      }
      for k := 0 to |data|
        modifies memory
        invariant k <= RomCapacity
        invariant forall j :: 0 <= j < RomStart ==> memory[j] == low[j]
        invariant forall j :: RomStart <= j < MemorySize ==>
                    memory[j] == if j - RomStart < k then data[j - RomStart] else 0
      {
        if k + RomStart >= memory.Length {
          outcome := ArrayIndexOutOfBounds(k + RomStart);
          assert k == RomCapacity && outcome == CopyOutcome(data);
          assert memory[..] == LoadedMemory(low, data);
          assert Snapshot() == LoadRom(before, data).1;
          return;
        }
        memory[k + RomStart] := data[k];
      }
      outcome := Normal;
      assert memory[..] == LoadedMemory(low, data);
      assert Snapshot() == LoadRom(before, data).1;
    }

    method ExecuteCycle() returns (outcome: Outcome)
      requires Valid()
      modifies this`pc, registers
      ensures Valid()
      ensures (outcome, Snapshot()) == Step(old(Snapshot()))
      ensures unchanged(memory) && index == old(index)
    {
      if pc + 1 >= memory.Length {
        outcome := ArrayIndexOutOfBounds(if pc >= memory.Length then pc else pc + 1);
        return;
      }
      var opcode := FetchOpcode(memory[pc], memory[pc + 1]);
      var group := opcode & 0xF000;
      if group == 0x0000 {
        var selector := opcode & 0x000F;
        if selector == 0x0000 || selector == 0x000E {
          outcome := Normal;
        } else {
          outcome := UnknownOpcode(opcode);
        }
      } else if group == 0x1000 {
        pc := (opcode & 0x0FFF) as int;
        outcome := Normal;
      } else if group == 0x6000 {
        registers[((opcode & 0x0F00) >> 8) as int] := (opcode & 0x00FF) as bv8;
        pc := pc + 2;
        outcome := Normal;
      } else {
        outcome := UnknownOpcode(opcode);
      }
    }

    /** The redraw flag is a constant in this machine. */
    method RequiresDisplayUpdate() returns (update: bool)
      ensures update
    {
      update := true;
    }

    method Reset() returns (outcome: Outcome)
      requires Valid()
      modifies this
      ensures Valid() && fresh(memory) && fresh(registers)
      ensures (outcome, Snapshot()) == ResetState(old(Snapshot()))
    {
      ghost var before := Snapshot();
      memory := new bv8[MemorySize](_ => 0);
      registers := new bv8[RegisterCount](_ => 0);
      pc := 0;
      index := 0;
      assert registers[..] == Zeros(RegisterCount);
      if rom.None? {
        outcome := NullPointer;
        assert memory[..] == Zeros(MemorySize);
        return;
      }
      var data := rom.value;
      for k := 0 to |data|
        modifies memory
        invariant k <= RomCapacity
        invariant forall j :: 0 <= j < RomStart ==> memory[j] == 0
        invariant forall j :: RomStart <= j < MemorySize ==>
                    memory[j] == if j - RomStart < k then data[j - RomStart] else 0
      {
        if k + RomStart >= memory.Length {
          outcome := ArrayIndexOutOfBounds(k + RomStart);
          assert k == RomCapacity && outcome == CopyOutcome(data);
          assert memory[..] == LoadedMemory(Zeros(RomStart), data);
          assert Snapshot() == ResetState(before).1;
          return;
        }
        memory[k + RomStart] := data[k];
      }
      outcome := Normal;
      assert memory[..] == LoadedMemory(Zeros(RomStart), data);
      assert Snapshot() == ResetState(before).1;
    }
  }
}
