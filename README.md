# CHIP-8 machine core, modelled in Dafny

This project models the virtual CPU of a small Java CHIP-8 emulator (`Machine`) and
the pixel buffer of its display (`Display`). It proves what each operation does to
that state.

- `exceptions.dfy` (module `Exceptions`): how a Java call ends. It either returns
  normally or throws `ArrayIndexOutOfBoundsException`, `NullPointerException` or the
  "unknown opcode" `RuntimeException`. The model returns these as values, so no operation
  needs a precondition beyond the object invariant.
- `machine.dfy` (module `Chip8Machine`): the machine state as a value (`State`) and
  one function per operation:
  - `LoadRom` models `setRomData`.
  - `Step` models `executeCycle`.
  - `ResetState` models `reset`.
  - `Run` is n cycles in a row.

  The class `Machine` keeps `memory` and `registers` in arrays, as the Java class
  does. Each of its methods is proved to change the object exactly as its function
  says.
- `display.dfy` (module `Chip8Display`): the class `Display` with its 2048-entry
  `pixels` array, `Clear` and `SetPixel`. The index `y * 64 + x` is computed in 32-bit
  int arithmetic.

Memory and register bytes are `bv8` bit patterns. Java widens a `byte` to `int` with
sign extension, so the fetch `(memory[PC] << 8) | memory[PC + 1]` is modelled on
sign-extended 32-bit values (`JavaByteToInt`, `FetchOpcode`). This has consequences,
and the model proves them:

- A low byte of 0x80 or more sets the opcode's high byte to 0xFF. Such opcodes throw
  "unknown opcode". Among them are `00E0` (fetched as 0xFFE0), `00EE` (0xFFEE),
  `6X80`..`6XFF` and `1N80`..`1NFF`.
- The do-nothing branch for group 0 is taken only by `0NN0` and `0NNE` opcodes whose
  low byte is below 0x80, such as `0000` or `010E`. There the machine stays at the
  same PC for ever (`StubRunsInPlace`).

Other behaviour the code has, and the model keeps:

- `reset` sets PC to 0, not 0x200. Memory at 0 and 1 is then zero, and 0x0000 is a
  do-nothing opcode, so after a reset the machine stays at PC 0 for ever and never runs
  the ROM (`ResetThenStuck`).
- `reset` throws `NullPointerException` when no ROM was set. It has already
  reallocated memory and registers at that point.
- A ROM longer than 3584 bytes throws after the first 3584 bytes are copied.
- Only `1NNN`, `6XNN` and the group-0 do-nothing branch are implemented. Every other
  CHIP-8 opcode throws.
- Nothing writes below address 0x200. So memory after `reset` equals memory after
  `setRomData` of the same ROM (`ResetMatchesLoad`).

## Model

| member | source | states |
|---|---|---|
| `Chip8Machine.Machine.constructor` | src/chip8_emulator/Machine.java:10-22 | a new machine has 4096 zero memory bytes, 16 zero registers, PC 0x200, I 0 and no ROM |
| `Chip8Machine.LoadedMemory` | src/chip8_emulator/Machine.java:35-43 | memory after clearing 0x200..0xFFF and copying: the bytes below 0x200 kept, ROM byte k at 0x200 + k, 0 after the ROM, 4096 bytes in all |
| `Chip8Machine.CopyOutcome` | src/chip8_emulator/Machine.java:41-43 | the copy loop ends normally exactly when the ROM has at most 3584 bytes, and otherwise throws for index 4096 |
| `Chip8Machine.LoadRom` | src/chip8_emulator/Machine.java:32-44 | setRomData: ROM remembered; memory[0x200 + k] == rom[k]; zero from 0x200 + len to 0xFFF; below 0x200 unchanged; registers, PC and I unchanged; the region below 0x200 stays clear |
| `Chip8Machine.LoadRomLastWins` | src/chip8_emulator/Machine.java:32-44 | loading a second ROM gives exactly the state that loading only the second ROM gives |
| `Chip8Machine.Machine.SetRomData` | src/chip8_emulator/Machine.java:32-44 | the two index loops on the memory array produce exactly the state and outcome of LoadRom and keep the object invariant |
| `Chip8Machine.JavaByteToInt` | src/chip8_emulator/Machine.java:48 | widening a byte to int keeps its low 8 bits and fills bits 8..31 with its sign bit |
| `Chip8Machine.FetchOpcode` | src/chip8_emulator/Machine.java:48 | the opcode's low byte is memory[PC+1]; its high byte is memory[PC] when memory[PC+1] < 0x80 and 0xFF otherwise |
| `Chip8Machine.Step` | src/chip8_emulator/Machine.java:46-92 | one cycle never writes memory, I or the ROM, keeps PC within 0..4096, and changes nothing when it throws |
| `Chip8Machine.StepFetchOutOfRange` | src/chip8_emulator/Machine.java:48 | with PC + 1 past the end of memory the fetch throws for index 4096 and nothing changes |
| `Chip8Machine.StepJump` | src/chip8_emulator/Machine.java:73-75 | 1NNN sets PC to NNN, read from the two bytes, and changes nothing else |
| `Chip8Machine.StepSetRegister` | src/chip8_emulator/Machine.java:80-83 | 6XNN sets register X to NN and adds 2 to PC; other registers, memory and I unchanged |
| `Chip8Machine.StepStub` | src/chip8_emulator/Machine.java:55-64 | a group-0 opcode with low nibble 0 or E (low byte below 0x80) leaves the whole state unchanged, PC included |
| `Chip8Machine.StepUnknown` | src/chip8_emulator/Machine.java:51-89 | every other fetched opcode throws "unknown opcode" with the fetched 16 bits and changes nothing |
| `Chip8Machine.StepSignExtension` | src/chip8_emulator/Machine.java:48-88 | a low byte of 0x80 or more always throws with opcode 0xFF00 + low byte, so 6X80..6XFF never set a register |
| `Chip8Machine.ClearScreenThrows` | src/chip8_emulator/Machine.java:48-66 | the ROM 00E0 6A02 1200 throws "unknown opcode" 0xFFE0 on its first cycle and leaves the loaded state unchanged |
| `Chip8Machine.ReturnThrows` | src/chip8_emulator/Machine.java:48-66 | 00EE is fetched as 0xFFEE and throws, changing nothing |
| `Chip8Machine.Machine.ExecuteCycle` | src/chip8_emulator/Machine.java:46-92 | the in-place fetch and dispatch on the arrays produce exactly the outcome and state of Step, and leave memory and I untouched |
| `Chip8Machine.Machine.RequiresDisplayUpdate` | src/chip8_emulator/Machine.java:94-96 | always answers true |
| `Chip8Machine.ResetState` | src/chip8_emulator/Machine.java:101-111 | reset: registers all 0, PC 0, I 0, ROM kept, memory holds ROM byte k at 0x200 + k and zero everywhere else; NullPointerException exactly when no ROM was set, and then all memory is zero; otherwise the copy's outcome |
| `Chip8Machine.ResetMatchesLoad` | src/chip8_emulator/Machine.java:101-111 | in every reachable state, memory and outcome after reset equal those after setRomData of the remembered ROM |
| `Chip8Machine.ResetAfterLoad` | src/chip8_emulator/Machine.java:101-111 | resetting a freshly loaded machine gives back that machine with PC 0 instead of 0x200 |
| `Chip8Machine.ResetThenStuck` | src/chip8_emulator/Machine.java:101-111 | after any reset, with or without a ROM, memory at 0 and 1 holds the do-nothing opcode 0x0000, so every number of cycles leaves the reset state unchanged |
| `Chip8Machine.ResetIdempotent` | src/chip8_emulator/Machine.java:101-111 | a second reset gives the same outcome and state as the first |
| `Chip8Machine.Machine.Reset` | src/chip8_emulator/Machine.java:101-111 | reallocating the arrays and the copy loop produce exactly the outcome and state of ResetState |
| `Chip8Machine.RunKeepsMemory` | src/chip8_emulator/Machine.java:46-92 | any number of cycles leave memory, I and the ROM as they were |
| `Chip8Machine.StubRunsInPlace` | src/chip8_emulator/Machine.java:55-64 | with a do-nothing group-0 opcode at PC, every number of cycles leaves the state unchanged |
| `Chip8Machine.SelfJumpRunsInPlace` | src/chip8_emulator/Machine.java:73-75 | a 1NNN whose NNN is its own address keeps the machine where it is for every number of cycles |
| `Chip8Display.Display.constructor` | src/chip8_emulator/Display.java:18 | the pixel buffer has 64 * 32 = 2048 entries, all false |
| `Chip8Display.Wrap32` | src/chip8_emulator/Display.java:44 | Java int arithmetic gives the value in the 32-bit range that is congruent to the exact result modulo 2^32, so it is exact when there is no overflow |
| `Chip8Display.PixelIndexRowMajor` | src/chip8_emulator/Display.java:44 | the index (y * 64) + x, wrapped after each operation, equals y * 64 + x wrapped once; with no overflow it is y * 64 + x |
| `Chip8Display.PixelIndexWrapsIntoNextRow` | src/chip8_emulator/Display.java:44 | x is not checked against the width: pixel (x + 64, y) is pixel (x, y + 1) |
| `Chip8Display.Cleared` | src/chip8_emulator/Display.java:31-35 | after clearing, every pixel is false and the length is unchanged |
| `Chip8Display.ClearIdempotent` | src/chip8_emulator/Display.java:31-35 | clearing twice gives the buffer that clearing once gives |
| `Chip8Display.Display.Clear` | src/chip8_emulator/Display.java:31-35 | the loop over the array leaves exactly the cleared buffer, still 2048 entries |
| `Chip8Display.Painted` | src/chip8_emulator/Display.java:43-45 | setPixel sets index PixelIndex(x, y) and keeps every other index; an index outside the buffer throws and changes nothing |
| `Chip8Display.PaintedRowMajor` | src/chip8_emulator/Display.java:43-45 | on the 2048-entry buffer, every (x, y) with 0 <= y * 64 + x < 2048 is accepted and writes entry y * 64 + x, x >= 64 included |
| `Chip8Display.PaintedLastWins` | src/chip8_emulator/Display.java:43-45 | a second setPixel of the same pixel replaces the first |
| `Chip8Display.Display.SetPixel` | src/chip8_emulator/Display.java:43-45 | the in-place write produces exactly the outcome and buffer of Painted |

## Left out

- The Swing side of `Display` (`paintComponent`, `create`, the private constructor, the
  `JPanel`/`JFrame` setup): rendering only. The model's `Display` constructor stands for
  the field initialiser of `pixels`.
- `Emulator`: the host loop with `Thread.sleep`, window creation and the copy of pixels to
  the window. It is I/O and pacing, and it calls `getDisplayBits`, which `Machine` does
  not define. `Run` stands for the repeated `executeCycle` calls.
- `Rom`: reading a file from disk. The model takes the ROM bytes as an argument.
- `setRomData(null)`: a ROM value cannot be null in the model. In Java that call stores
  null, clears 0x200..0xFFF and then throws `NullPointerException` at `rom.length`. The
  only caller passes the result of `Files.readAllBytes`, which is never null.
- `Constants`: 64 and 32 are written into `Chip8Display`. The painting scale is not used.
- The text of the exception messages: the model returns the raw 16-bit opcode or the
  failing index. It does not format them into decimal or hexadecimal strings.
- Aliasing of the ROM array: `setRomData` keeps a reference to the caller's array, and
  `reset` copies whatever that array holds at the time. The model keeps the bytes as a
  value, so it does not see later changes to the caller's array.
- Timers, drawing, the call stack, keys and the other CHIP-8 opcodes: the code does not
  implement them. The only stubs are TODO comments for clear screen and return (the two
  group-0 `break`s, which the model keeps) and for updating timers. The switch has a
  `// ....` placeholder where the other opcodes would go.
- `Machine.ExecuteCycle`: does not write out the short narrowing of `PC += 2`. PC is at
  most 0xFFE whenever that line runs, so the narrowing never changes the value.
