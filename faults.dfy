/** The two ways a run of the simulator can stop early, and a result type that carries them. */
module Faults {

  datatype Fault =
    | UnknownOpcode(code: bv16)   // the opcode dispatch matched none of its cases
    | MalformedLine(length: nat)  // an input line was not 5 bytes long

  datatype Result<+T> = Ok(value: T) | Err(fault: Fault)
}
