/** How a call into the emulator ends: normally, or with the Java
    exception the code throws at that point. */
module Exceptions {

  datatype Outcome =
    | Normal
      /** java.lang.ArrayIndexOutOfBoundsException for the given index */
    | ArrayIndexOutOfBounds(index: int)
      /** java.lang.NullPointerException (a field read through null) */
    | NullPointer
      /** RuntimeException("unknown opcode: ..."), carrying the 16 bits of the opcode */
    | UnknownOpcode(opcode: bv16)
}
