/**
  * The assembler's statements (chip8-assembler/src/statement.rs): where a
  * statement sits, which line it came from, how many bytes it takes, and
  * what it is. Instructions are encoded by an `Encoder`, the opcode encoder
  * of the instruction crate, which is not part of this model.
  */
module Statements {
  import opened Bits
  import opened Instructions

  /** `StatementType`. */
  datatype StatementType =
    | Bytes(data: seq<U8>)
    | InstructionStatement(instruction: Instruction)
    | Label(name: string)

  /** `Statement`. */
  datatype Statement = Statement(memAddr: U16, lineNum: U16, size: U16, line: string, statementType: StatementType)
  {
    /** `Statement::bytes`: the bytes the statement puts in the image. */
    function Bytes(encode: Encoder): (bytes: seq<U8>)
      ensures statementType.Label? ==> bytes == []
      ensures statementType.Bytes? ==> bytes == statementType.data
      ensures statementType.InstructionStatement? ==>
        |bytes| == 2 && (bytes[0], bytes[1]) == encode(statementType.instruction)
    {
      match statementType
      case Bytes(data) => data
      case InstructionStatement(instruction) =>
        var (byte1, byte2) := encode(instruction);
        [byte1, byte2]
      case Label(_) => []
    }
  }

  /** The bytes depend on the statement's kind and contents only, never on its address, line or size. */
  lemma BytesIgnoreLayout(s: Statement, t: Statement, encode: Encoder)
    requires s.statementType == t.statementType
    ensures s.Bytes(encode) == t.Bytes(encode)
  {
  }

  /** `Exit` is the two bytes 00 FD. */
  lemma ExitBytes(s: Statement, encode: Encoder)
    requires EncodesExit(encode) && s.statementType == InstructionStatement(Exit)
    ensures s.Bytes(encode) == [0x00, 0xFD]
  {
  }
}
