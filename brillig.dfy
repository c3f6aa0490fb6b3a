/** The Brillig operand and opcode vocabulary that the disassembler renders.
    These are immutable values built by the code generator. */
module Brillig {

  /** An index into the flat register file. */
  datatype RegisterIndex = RegisterIndex(index: nat)

  /** A block of compile-time-known length starting at the address held in `pointer`. */
  datatype HeapArray = HeapArray(pointer: RegisterIndex, size: nat)

  /** A block whose length is held in the register `size`, known only at run time. */
  datatype HeapVector = HeapVector(pointer: RegisterIndex, size: RegisterIndex)

  /** `RegisterOrMemory`: an operand of a foreign call or a black-box call. */
  datatype RegisterOrMemory =
    | Register(register: RegisterIndex)
    | Array(heapArray: HeapArray)
    | Vector(heapVector: HeapVector)

  /** Native field arithmetic. */
  datatype BinaryFieldOp = FieldAdd | FieldSub | FieldMul | FieldDiv | FieldEquals

  /** Fixed-width integer arithmetic; every use carries a bit width. */
  datatype BinaryIntOp =
    | Add | Sub | Mul | Equals | SignedDiv | UnsignedDiv
    | LessThan | LessThanEquals | And | Or | Xor | Shl | Shr

  /** `BrilligBinaryOp`: a field operation, an integer operation at a width, or a
      remainder at a width. */
  datatype BrilligBinaryOp =
    | Field(fieldOp: BinaryFieldOp)
    | Integer(intOp: BinaryIntOp, bitSize: nat)
    | Modulo(isSignedInteger: bool, bitSize: nat)

  /** The fixed catalogue of black-box cryptographic primitives. */
  datatype BlackBoxOp =
    | Sha256(message: RegisterOrMemory, output: RegisterOrMemory)
    | Keccak256(message: RegisterOrMemory, output: RegisterOrMemory)
    | Blake2s(message: RegisterOrMemory, output: RegisterOrMemory)
    | HashToField128Security(message: RegisterOrMemory, output: RegisterOrMemory)
    | EcdsaSecp256k1(hashedMsg: RegisterOrMemory, publicKeyX: RegisterOrMemory,
                     publicKeyY: RegisterOrMemory, signature: RegisterOrMemory,
                     result: RegisterOrMemory)

  /** The two constants of the Brillig IR the disassembler consults:
      `BRILLIG_MEMORY_ADDRESSING_BIT_SIZE` and `ReservedRegisters::stack_pointer()`. */
  datatype Config = Config(addressingBitSize: nat, stackPointer: RegisterIndex)

  /** One call of a disassembler entry point, with its arguments. */
  datatype Instruction =
    | Constrain(condition: RegisterIndex)
    | Return(returnRegisters: seq<RegisterIndex>)
    | Mov(destination: RegisterIndex, source: RegisterIndex)
    | Binary(lhs: RegisterIndex, rhs: RegisterIndex, result: RegisterIndex, operation: BrilligBinaryOp)
    | Const(result: RegisterIndex, constant: nat)
    | Not(condition: RegisterIndex, bitSize: nat, result: RegisterIndex)
    | ForeignCall(funcName: string, inputs: seq<RegisterOrMemory>, outputs: seq<RegisterOrMemory>)
    | Load(destination: RegisterIndex, sourcePointer: RegisterIndex)
    | Store(destinationPointer: RegisterIndex, source: RegisterIndex)
    | Stop
    | AllocateArray(pointerRegister: RegisterIndex, sizeRegister: RegisterIndex)
    | ArrayGet(arrayPtr: RegisterIndex, index: RegisterIndex, result: RegisterIndex)
    | ArraySet(arrayPtr: RegisterIndex, index: RegisterIndex, value: RegisterIndex)
    | CopyArray(source: RegisterIndex, destination: RegisterIndex, numElementsRegister: RegisterIndex)
    | EnterContext(contextLabel: string)
    | Jump(targetLabel: string)
    | JumpIf(condition: RegisterIndex, targetLabel: string)
    | Cast(destination: RegisterIndex, source: RegisterIndex, targetBitSize: nat)
    | BlackBox(op: BlackBoxOp)
    | ExternalCall(funcLabel: string)
}
