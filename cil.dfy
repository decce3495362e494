/**
 * The part of Mono.Cecil's object graph that the patcher reads and writes:
 * an assembly is a sequence of modules, a module holds its top-level types,
 * a type holds its methods and its nested types, and a method may have a body,
 * which is an ordered instruction list. The instruction that follows index `i`
 * (Cecil's `Instruction.Next`) is the one at index `i + 1`.
 */
module Cil {
  import opened Wrappers

  /** The opcodes the patcher tests for; every other opcode is `Other`. */
  datatype OpCode = Ldstr | Stsfld | Other(mnemonic: string)

  /**
   * An instruction operand. `NoOperand` is Cecil's `null`. A field reference
   * carries the name the patcher compares and the text its `ToString()` shows;
   * any other operand is known only by the text of its `ToString()`.
   */
  datatype Operand =
    | NoOperand
    | StrLit(value: string)
    | FieldReference(name: string, fullName: string)
    | OtherOperand(text: string)

  datatype Instruction = Instruction(opcode: OpCode, operand: Operand)

  datatype ExceptionHandler = ExceptionHandler(tryStart: nat, tryEnd: nat, handlerStart: nat, handlerEnd: nat)

  /** A method body: its instructions together with the locals and handlers scoped to it. */
  datatype MethodBody = MethodBody(instructions: seq<Instruction>, variables: seq<string>, handlers: seq<ExceptionHandler>)

  /** `body` is `None` exactly when Cecil's `HasBody` is false (and `Body` is null). */
  datatype MethodDefinition = MethodDefinition(name: string, body: Option<MethodBody>)

  datatype TypeDefinition = TypeDefinition(
    namespace: string,
    name: string,
    methods: seq<MethodDefinition>,
    nestedTypes: seq<TypeDefinition>)

  datatype ModuleDefinition = ModuleDefinition(types: seq<TypeDefinition>)

  /** Why a patch stage aborts: a lookup that found nothing, or a null body dereferenced. */
  datatype PatchError =
    | TypeNotFound(typeNamespace: string, typeName: string)
    | MethodNotFound(methodName: string)
    | NullBody(methodName: string)

  /** `Operand.ToString()` for a non-null operand. */
  function OperandText(op: Operand): string
    requires op != NoOperand
  {
    match op
    case StrLit(s) => s
    case FieldReference(_, fullName) => fullName
    case OtherOperand(text) => text
  }
}
