/**
 * The opcode tables: for each primary opcode, whether it is defined, which
 * helper renders it (and so its length) and how it moves the program
 * counter; for each byte after the 0xCB prefix, the extended mnemonic.
 */
module Opcodes {
  import opened Wrappers
  import opened Bits
  import opened Rendering

  /** The control-transfer effect of a primary opcode. */
  datatype Flow =
    | Next        // pc += length
    | JumpRel     // JR r8: unconditional relative, `jmpu(uint8_t)`
    | JumpRelIf   // JR cc,r8: conditional relative, `jmp(uint8_t)`
    | JumpAbs     // JP a16: unconditional absolute, `jmpu(uint16_t)`
    | JumpAbsIf   // JP cc,a16: conditional absolute, `jmp(uint16_t)`, jump label
    | CallAbs     // CALL [cc,]a16: `jmp(uint16_t)`, call label
    | JumpStale   // JP (HL): `jmp(uint16_t)` on the last 16-bit operand read
    | Return      // RET, RETI: `ret()`
    | LoadImm     // LD A,d8: a := operand
    | StoreHigh   // LDH (a8),A: hmem[operand] := a
    | LoadHigh    // LDH A,(a8): a := hmem[operand]
    | StoreBank   // LD (a16),A: the bank-switch heuristic

  /** A defined primary opcode. */
  datatype Entry =
    | Op(name: string, format: Format, flow: Flow)
    | Stop      // STOP: reads its operand byte, records nothing, advances 2
    | Prefix    // 0xCB: the next byte selects an extended-table mnemonic

  /** Bytes consumed: the rendering helper's length; 2 for STOP and for 0xCB xx. */
  function Length(e: Entry): (n: nat)
    ensures 1 <= n <= 3
  {
    match e
    case Op(_, f, _) => Size(f)
    case Stop => 2
    case Prefix => 2
  }

  /**
   * The primary table: the cases of the decoding `switch`, laid out by high
   * and low nibble; `None` is its `default`.
   */
  function Primary(op: Byte): Option<Entry> {
    match op / 16
    case 0x0 =>
      (match op % 16
      case 0x0 => Some(Op("NOP", Bare, Next))
      case 0x1 => Some(Op("LD BC", Right(W16), Next))
      case 0x2 => Some(Op("LD (BC),A", Bare, Next))
      case 0x3 => Some(Op("INC BC", Bare, Next))
      case 0x4 => Some(Op("INC B", Bare, Next))
      case 0x5 => Some(Op("DEC B", Bare, Next))
      case 0x6 => Some(Op("LD B", Right(W8), Next))
      case 0x7 => Some(Op("RLCA", Bare, Next))
      case 0x8 => Some(Op("LD", LeftInd(W16, ",SP"), Next))
      case 0x9 => Some(Op("ADD HL,BC", Bare, Next))
      case 0xA => Some(Op("LD A,(BC)", Bare, Next))
      case 0xB => Some(Op("DEC BC", Bare, Next))
      case 0xC => Some(Op("INC C", Bare, Next))
      case 0xD => Some(Op("DEC C", Bare, Next))
      case 0xE => Some(Op("LD C", Right(W8), Next))
      case _ => Some(Op("RRCA", Bare, Next)))  // 0x0F
    case 0x1 =>
      (match op % 16
      case 0x0 => Some(Stop)
      case 0x1 => Some(Op("LD DE", Right(W16), Next))
      case 0x2 => Some(Op("LD (DE),A", Bare, Next))
      case 0x3 => Some(Op("INC DE", Bare, Next))
      case 0x4 => Some(Op("INC D", Bare, Next))
      case 0x5 => Some(Op("DEC D", Bare, Next))
      case 0x6 => Some(Op("LD D", Right(W8), Next))
      case 0x7 => Some(Op("RLA", Bare, Next))
      case 0x8 => Some(Op("JR", Right(W8), JumpRel))
      case 0x9 => Some(Op("ADD HL,DE", Bare, Next))
      case 0xA => Some(Op("LD A,(DE)", Bare, Next))
      case 0xB => Some(Op("DEC DE", Bare, Next))
      case 0xC => Some(Op("INC E", Bare, Next))
      case 0xD => Some(Op("DEC E", Bare, Next))
      case 0xE => Some(Op("LD E", Right(W8), Next))
      case _ => Some(Op("RRA", Bare, Next)))  // 0x1F
    case 0x2 =>
      (match op % 16
      case 0x0 => Some(Op("JR NZ", Right(W8), JumpRelIf))
      case 0x1 => Some(Op("LD HL", Right(W16), Next))
      case 0x2 => Some(Op("LD (HL+),A", Bare, Next))
      case 0x3 => Some(Op("INC HL", Bare, Next))
      case 0x4 => Some(Op("INC H", Bare, Next))
      case 0x5 => Some(Op("DEC H", Bare, Next))
      case 0x6 => Some(Op("LD H", Right(W8), Next))
      case 0x7 => Some(Op("DAA", Bare, Next))
      case 0x8 => Some(Op("JR Z", Right(W8), JumpRelIf))
      case 0x9 => Some(Op("ADD HL,HL", Bare, Next))
      case 0xA => Some(Op("LD A,(HL+)", Bare, Next))
      case 0xB => Some(Op("DEC HL", Bare, Next))
      case 0xC => Some(Op("INC L", Bare, Next))
      case 0xD => Some(Op("DEC L", Bare, Next))
      case 0xE => Some(Op("LD L", Right(W8), Next))
      case _ => Some(Op("CPL", Bare, Next)))  // 0x2F
    case 0x3 =>
      (match op % 16
      case 0x0 => Some(Op("JR NC", Right(W8), JumpRelIf))
      case 0x1 => Some(Op("LD SP", Right(W16), Next))
      case 0x2 => Some(Op("LD (HL-),A", Bare, Next))
      case 0x3 => Some(Op("INC SP", Bare, Next))
      case 0x4 => Some(Op("INC (HL)", Bare, Next))
      case 0x5 => Some(Op("DEC (HL)", Bare, Next))
      case 0x6 => Some(Op("LD (HL)", Right(W8), Next))
      case 0x7 => Some(Op("SCF", Bare, Next))
      case 0x8 => Some(Op("JR C", Right(W8), JumpRelIf))
      case 0x9 => Some(Op("ADD HL,SP", Bare, Next))
      case 0xA => Some(Op("LD A,(HL-)", Bare, Next))
      case 0xB => Some(Op("DEC SP", Bare, Next))
      case 0xC => Some(Op("INC A", Bare, Next))
      case 0xD => Some(Op("DEC A", Bare, Next))
      case 0xE => Some(Op("LD A", Right(W8), LoadImm))
      case _ => Some(Op("CCF", Bare, Next)))  // 0x3F
    case 0x4 =>
      (match op % 16
      case 0x0 => Some(Op("LD B,B", Bare, Next))
      case 0x1 => Some(Op("LD B,C", Bare, Next))
      case 0x2 => Some(Op("LD B,D", Bare, Next))
      case 0x3 => Some(Op("LD B,E", Bare, Next))
      case 0x4 => Some(Op("LD B,H", Bare, Next))
      case 0x5 => Some(Op("LD B,L", Bare, Next))
      case 0x6 => Some(Op("LD B,(HL)", Bare, Next))
      case 0x7 => Some(Op("LD B,A", Bare, Next))
      case 0x8 => Some(Op("LD C,B", Bare, Next))
      case 0x9 => Some(Op("LD C,C", Bare, Next))
      case 0xA => Some(Op("LD C,D", Bare, Next))
      case 0xB => Some(Op("LD C,E", Bare, Next))
      case 0xC => Some(Op("LD C,H", Bare, Next))
      case 0xD => Some(Op("LD C,L", Bare, Next))
      case 0xE => Some(Op("LD C,(HL)", Bare, Next))
      case _ => Some(Op("LD C,A", Bare, Next)))  // 0x4F
    case 0x5 =>
      (match op % 16
      case 0x0 => Some(Op("LD D,B", Bare, Next))
      case 0x1 => Some(Op("LD D,C", Bare, Next))
      case 0x2 => Some(Op("LD D,D", Bare, Next))
      case 0x3 => Some(Op("LD D,E", Bare, Next))
      case 0x4 => Some(Op("LD D,H", Bare, Next))
      case 0x5 => Some(Op("LD D,L", Bare, Next))
      case 0x6 => Some(Op("LD D,(HL)", Bare, Next))
      case 0x7 => Some(Op("LD D,A", Bare, Next))
      case 0x8 => Some(Op("LD E,B", Bare, Next))
      case 0x9 => Some(Op("LD E,C", Bare, Next))
      case 0xA => Some(Op("LD E,D", Bare, Next))
      case 0xB => Some(Op("LD E,E", Bare, Next))
      case 0xC => Some(Op("LD E,H", Bare, Next))
      case 0xD => Some(Op("LD E,L", Bare, Next))
      case 0xE => Some(Op("LD E,(HL)", Bare, Next))
      case _ => Some(Op("LD E,A", Bare, Next)))  // 0x5F
    case 0x6 =>
      (match op % 16
      case 0x0 => Some(Op("LD H,B", Bare, Next))
      case 0x1 => Some(Op("LD H,C", Bare, Next))
      case 0x2 => Some(Op("LD H,D", Bare, Next))
      case 0x3 => Some(Op("LD H,E", Bare, Next))
      case 0x4 => Some(Op("LD H,H", Bare, Next))
      case 0x5 => Some(Op("LD H,L", Bare, Next))
      case 0x6 => Some(Op("LD H,(HL)", Bare, Next))
      case 0x7 => Some(Op("LD H,A", Bare, Next))
      case 0x8 => Some(Op("LD L,B", Bare, Next))
      case 0x9 => Some(Op("LD L,C", Bare, Next))
      case 0xA => Some(Op("LD L,D", Bare, Next))
      case 0xB => Some(Op("LD L,E", Bare, Next))
      case 0xC => Some(Op("LD L,H", Bare, Next))
      case 0xD => Some(Op("LD L,L", Bare, Next))
      case 0xE => Some(Op("LD L,(HL)", Bare, Next))
      case _ => Some(Op("LD L,A", Bare, Next)))  // 0x6F
    case 0x7 =>
      (match op % 16
      case 0x0 => Some(Op("LD (HL),B", Bare, Next))
      case 0x1 => Some(Op("LD (HL),C", Bare, Next))
      case 0x2 => Some(Op("LD (HL),D", Bare, Next))
      case 0x3 => Some(Op("LD (HL),E", Bare, Next))
      case 0x4 => Some(Op("LD (HL),H", Bare, Next))
      case 0x5 => Some(Op("LD (HL),L", Bare, Next))
      case 0x6 => Some(Op("HALT", Bare, Next))
      case 0x7 => Some(Op("LD (HL),A", Bare, Next))
      case 0x8 => Some(Op("LD A,B", Bare, Next))
      case 0x9 => Some(Op("LD A,C", Bare, Next))
      case 0xA => Some(Op("LD A,D", Bare, Next))
      case 0xB => Some(Op("LD A,E", Bare, Next))
      case 0xC => Some(Op("LD A,H", Bare, Next))
      case 0xD => Some(Op("LD A,L", Bare, Next))
      case 0xE => Some(Op("LD A,(HL)", Bare, Next))
      case _ => Some(Op("LD A,A", Bare, Next)))  // 0x7F
    case 0x8 =>
      (match op % 16
      case 0x0 => Some(Op("ADD A,B", Bare, Next))
      case 0x1 => Some(Op("ADD A,C", Bare, Next))
      case 0x2 => Some(Op("ADD A,D", Bare, Next))
      case 0x3 => Some(Op("ADD A,E", Bare, Next))
      case 0x4 => Some(Op("ADD A,H", Bare, Next))
      case 0x5 => Some(Op("ADD A,L", Bare, Next))
      case 0x6 => Some(Op("ADD A,(HL)", Bare, Next))
      case 0x7 => Some(Op("ADD A,A", Bare, Next))
      case 0x8 => Some(Op("ADC A,B", Bare, Next))
      case 0x9 => Some(Op("ADC A,C", Bare, Next))
      case 0xA => Some(Op("ADC A,D", Bare, Next))
      case 0xB => Some(Op("ADC A,E", Bare, Next))
      case 0xC => Some(Op("ADC A,H", Bare, Next))
      case 0xD => Some(Op("ADC A,L", Bare, Next))
      case 0xE => Some(Op("ADC A,(HL)", Bare, Next))
      case _ => Some(Op("ADC A,A", Bare, Next)))  // 0x8F
    case 0x9 =>
      (match op % 16
      case 0x0 => Some(Op("SUB B", Bare, Next))
      case 0x1 => Some(Op("SUB C", Bare, Next))
      case 0x2 => Some(Op("SUB D", Bare, Next))
      case 0x3 => Some(Op("SUB E", Bare, Next))
      case 0x4 => Some(Op("SUB H", Bare, Next))
      case 0x5 => Some(Op("SUB L", Bare, Next))
      case 0x6 => Some(Op("SUB (HL)", Bare, Next))
      case 0x7 => Some(Op("SUB A", Bare, Next))
      case 0x8 => Some(Op("SBC A,B", Bare, Next))
      case 0x9 => Some(Op("SBC A,C", Bare, Next))
      case 0xA => Some(Op("SBC A,D", Bare, Next))
      case 0xB => Some(Op("SBC A,E", Bare, Next))
      case 0xC => Some(Op("SBC A,H", Bare, Next))
      case 0xD => Some(Op("SBC A,L", Bare, Next))
      case 0xE => Some(Op("SBC A,(HL)", Bare, Next))
      case _ => Some(Op("SBC A,A", Bare, Next)))  // 0x9F
    case 0xA =>
      (match op % 16
      case 0x0 => Some(Op("AND B", Bare, Next))
      case 0x1 => Some(Op("AND C", Bare, Next))
      case 0x2 => Some(Op("AND D", Bare, Next))
      case 0x3 => Some(Op("AND E", Bare, Next))
      case 0x4 => Some(Op("AND H", Bare, Next))
      case 0x5 => Some(Op("AND L", Bare, Next))
      case 0x6 => Some(Op("AND (HL)", Bare, Next))
      case 0x7 => Some(Op("AND A", Bare, Next))
      case 0x8 => Some(Op("XOR B", Bare, Next))
      case 0x9 => Some(Op("XOR C", Bare, Next))
      case 0xA => Some(Op("XOR D", Bare, Next))
      case 0xB => Some(Op("XOR E", Bare, Next))
      case 0xC => Some(Op("XOR H", Bare, Next))
      case 0xD => Some(Op("XOR L", Bare, Next))
      case 0xE => Some(Op("XOR (HL)", Bare, Next))
      case _ => Some(Op("XOR A", Bare, Next)))  // 0xAF
    case 0xB =>
      (match op % 16
      case 0x0 => Some(Op("OR B", Bare, Next))
      case 0x1 => Some(Op("OR C", Bare, Next))
      case 0x2 => Some(Op("OR D", Bare, Next))
      case 0x3 => Some(Op("OR E", Bare, Next))
      case 0x4 => Some(Op("OR H", Bare, Next))
      case 0x5 => Some(Op("OR L", Bare, Next))
      case 0x6 => Some(Op("OR (HL)", Bare, Next))
      case 0x7 => Some(Op("OR A", Bare, Next))
      case 0x8 => Some(Op("CP B", Bare, Next))
      case 0x9 => Some(Op("CP C", Bare, Next))
      case 0xA => Some(Op("CP D", Bare, Next))
      case 0xB => Some(Op("CP E", Bare, Next))
      case 0xC => Some(Op("CP H", Bare, Next))
      case 0xD => Some(Op("CP L", Bare, Next))
      case 0xE => Some(Op("CP (HL)", Bare, Next))
      case _ => Some(Op("CP A", Bare, Next)))  // 0xBF
    case 0xC =>
      (match op % 16
      case 0x0 => Some(Op("RET NZ", Bare, Next))
      case 0x1 => Some(Op("POP BC", Bare, Next))
      case 0x2 => Some(Op("JP NZ", Right(W16), JumpAbsIf))
      case 0x3 => Some(Op("JP", Right(W16), JumpAbs))
      case 0x4 => Some(Op("CALL NZ", Right(W16), CallAbs))
      case 0x5 => Some(Op("PUSH BC", Bare, Next))
      case 0x6 => Some(Op("ADD A", Right(W8), Next))
      case 0x7 => Some(Op("RST 00H", Bare, Next))
      case 0x8 => Some(Op("RET Z", Bare, Next))
      case 0x9 => Some(Op("RET", Bare, Return))
      case 0xA => Some(Op("JP Z", Right(W16), JumpAbsIf))
      case 0xB => Some(Prefix)
      case 0xC => Some(Op("CALL Z", Right(W16), CallAbs))
      case 0xD => Some(Op("CALL", Right(W16), CallAbs))
      case 0xE => Some(Op("ADC A", Right(W8), Next))
      case _ => Some(Op("RST 08H", Bare, Next)))  // 0xCF
    case 0xD =>
      (match op % 16
      case 0x0 => Some(Op("RET NC", Bare, Next))
      case 0x1 => Some(Op("POP DE", Bare, Next))
      case 0x2 => Some(Op("JP NC", Right(W16), JumpAbsIf))
      case 0x3 => None
      case 0x4 => Some(Op("CALL NC", Right(W16), CallAbs))
      case 0x5 => Some(Op("PUSH DE", Bare, Next))
      case 0x6 => Some(Op("SUB", Right(W8), Next))
      case 0x7 => Some(Op("RST 10H", Bare, Next))
      case 0x8 => Some(Op("RET C", Bare, Next))
      case 0x9 => Some(Op("RETI", Bare, Return))
      case 0xA => Some(Op("JP C", Right(W16), JumpAbsIf))
      case 0xB => None
      case 0xC => Some(Op("CALL C", Right(W16), CallAbs))
      case 0xD => None
      case 0xE => Some(Op("SBC A", Right(W8), Next))
      case _ => Some(Op("RST 18H", Bare, Next)))  // 0xDF
    case 0xE =>
      (match op % 16
      case 0x0 => Some(Op("LDH", LeftInd(W8, ",A"), StoreHigh))
      case 0x1 => Some(Op("POP HL", Bare, Next))
      case 0x2 => Some(Op("LD (C),A", Bare, Next))
      case 0x3 => None
      case 0x4 => None
      case 0x5 => Some(Op("PUSH HL", Bare, Next))
      case 0x6 => Some(Op("AND", Right(W8), Next))
      case 0x7 => Some(Op("RST 20H", Bare, Next))
      case 0x8 => Some(Op("ADD SP", Right(W8), Next))
      case 0x9 => Some(Op("JP (HL)", Bare, JumpStale))
      case 0xA => Some(Op("LD", LeftInd(W16, ",A"), StoreBank))
      case 0xB => None
      case 0xC => None
      case 0xD => None
      case 0xE => Some(Op("XOR", Right(W8), Next))
      case _ => Some(Op("RST 28H", Bare, Next)))  // 0xEF
    case _ =>  // 0xF0-0xFF
      (match op % 16
      case 0x0 => Some(Op("LDH A", RightInd(W8), LoadHigh))
      case 0x1 => Some(Op("POP AF", Bare, Next))
      case 0x2 => Some(Op("LD A,(C)", Bare, Next))
      case 0x3 => Some(Op("DI", Bare, Next))
      case 0x4 => None
      case 0x5 => Some(Op("PUSH AF", Bare, Next))
      case 0x6 => Some(Op("OR", Right(W8), Next))
      case 0x7 => Some(Op("RST 30H", Bare, Next))
      case 0x8 => Some(Op("LD HL,SP", Right(W8), Next))
      case 0x9 => Some(Op("LD SP,HL", Bare, Next))
      case 0xA => Some(Op("LD A", RightInd(W16), Next))
      case 0xB => Some(Op("EI", Bare, Next))
      case 0xC => None
      case 0xD => None
      case 0xE => Some(Op("CP", Right(W8), Next))
      case _ => Some(Op("RST 38H", Bare, Next)))  // 0xFF
  }

  /**
   * The extended table selected by 0xCB, one row of eight second bytes per
   * line of the outer match (`b / 8`), B, C, D, E, H, L, (HL), A within a row.
   */
  function Extended(b: Byte): string {
    match b / 8
    case 0 =>  // 0x00-0x07
      (match b % 8
      case 0 => "RLC B"
      case 1 => "RLC C"
      case 2 => "RLC D"
      case 3 => "RLC E"
      case 4 => "RLC H"
      case 5 => "RLC L"
      case 6 => "RLC (HL)"
      case _ => "RLC A")  // 0x07
    case 1 =>  // 0x08-0x0F
      (match b % 8
      case 0 => "RRC B"
      case 1 => "RRC C"
      case 2 => "RRC D"
      case 3 => "RRC E"
      case 4 => "RRC H"
      case 5 => "RRC L"
      case 6 => "RRC (HL)"
      case _ => "RRC A")  // 0x0F
    case 2 =>  // 0x10-0x17
      (match b % 8
      case 0 => "RL B"
      case 1 => "RL C"
      case 2 => "RL D"
      case 3 => "RL E"
      case 4 => "RL H"
      case 5 => "RL L"
      case 6 => "RL (HL)"
      case _ => "RL A")  // 0x17
    case 3 =>  // 0x18-0x1F
      (match b % 8
      case 0 => "RR B"
      case 1 => "RR C"
      case 2 => "RR D"
      case 3 => "RR E"
      case 4 => "RR H"
      case 5 => "RR L"
      case 6 => "RR (HL)"
      case _ => "RR A")  // 0x1F
    case 4 =>  // 0x20-0x27
      (match b % 8
      case 0 => "SLA B"
      case 1 => "SLA C"
      case 2 => "SLA D"
      case 3 => "SLA E"
      case 4 => "SLA H"
      case 5 => "SLA L"
      case 6 => "SLA (HL)"
      case _ => "SLA A")  // 0x27
    case 5 =>  // 0x28-0x2F
      (match b % 8
      case 0 => "SRA B"
      case 1 => "SRA C"
      case 2 => "SRA D"
      case 3 => "SRA E"
      case 4 => "SRA H"
      case 5 => "SRA L"
      case 6 => "SRA (HL)"
      case _ => "SRA A")  // 0x2F
    case 6 =>  // 0x30-0x37
      (match b % 8
      case 0 => "SWAP B"
      case 1 => "SWAP C"
      case 2 => "SWAP D"
      case 3 => "SWAP E"
      case 4 => "SWAP H"
      case 5 => "SWAP L"
      case 6 => "SWAP (HL)"
      case _ => "SWAP A")  // 0x37
    case 7 =>  // 0x38-0x3F
      (match b % 8
      case 0 => "SRL B"
      case 1 => "SRL C"
      case 2 => "SRL D"
      case 3 => "SRL E"
      case 4 => "SRL H"
      case 5 => "SRL L"
      case 6 => "SRL (HL)"
      case _ => "SRL A")  // 0x3F
    case 8 =>  // 0x40-0x47
      (match b % 8
      case 0 => "BIT 0,B"
      case 1 => "BIT 0,C"
      case 2 => "BIT 0,D"
      case 3 => "BIT 0,E"
      case 4 => "BIT 0,H"
      case 5 => "BIT 0,L"
      case 6 => "BIT 0,(HL)"
      case _ => "BIT 0,A")  // 0x47
    case 9 =>  // 0x48-0x4F
      (match b % 8
      case 0 => "BIT 1,B"
      case 1 => "BIT 1,C"
      case 2 => "BIT 1,D"
      case 3 => "BIT 1,E"
      case 4 => "BIT 1,H"
      case 5 => "BIT 1,L"
      case 6 => "BIT 1,(HL)"
      case _ => "BIT 1,A")  // 0x4F
    case 10 =>  // 0x50-0x57
      (match b % 8
      case 0 => "BIT 2,B"
      case 1 => "BIT 2,C"
      case 2 => "BIT 2,D"
      case 3 => "BIT 2,E"
      case 4 => "BIT 2,H"
      case 5 => "BIT 2,L"
      case 6 => "BIT 2,(HL)"
      case _ => "BIT 2,A")  // 0x57
    case 11 =>  // 0x58-0x5F
      (match b % 8
      case 0 => "BIT 3,B"
      case 1 => "BIT 3,C"
      case 2 => "BIT 3,D"
      case 3 => "BIT 3,E"
      case 4 => "BIT 3,H"
      case 5 => "BIT 3,L"
      case 6 => "BIT 3,(HL)"
      case _ => "BIT 3,A")  // 0x5F
    case 12 =>  // 0x60-0x67
      (match b % 8
      case 0 => "BIT 4,B"
      case 1 => "BIT 4,C"
      case 2 => "BIT 4,D"
      case 3 => "BIT 4,E"
      case 4 => "BIT 4,H"
      case 5 => "BIT 4,L"
      case 6 => "BIT 4,(HL)"
      case _ => "BIT 4,A")  // 0x67
    case 13 =>  // 0x68-0x6F
      (match b % 8
      case 0 => "BIT 5,B"
      case 1 => "BIT 5,C"
      case 2 => "BIT 5,D"
      case 3 => "BIT 5,E"
      case 4 => "BIT 5,H"
      case 5 => "BIT 5,L"
      case 6 => "BIT 5,(HL)"
      case _ => "BIT 5,A")  // 0x6F
    case 14 =>  // 0x70-0x77
      (match b % 8
      case 0 => "BIT 6,B"
      case 1 => "BIT 6,C"
      case 2 => "BIT 6,D"
      case 3 => "BIT 6,E"
      case 4 => "BIT 6,H"
      case 5 => "BIT 6,L"
      case 6 => "BIT 6,(HL)"
      case _ => "BIT 6,A")  // 0x77
    case 15 =>  // 0x78-0x7F
      (match b % 8
      case 0 => "BIT 7,B"
      case 1 => "BIT 7,C"
      case 2 => "BIT 7,D"
      case 3 => "BIT 7,E"
      case 4 => "BIT 7,H"
      case 5 => "BIT 7,L"
      case 6 => "BIT 7,(HL)"
      case _ => "BIT 7,A")  // 0x7F
    case 16 =>  // 0x80-0x87
      (match b % 8
      case 0 => "RES 0,B"
      case 1 => "RES 0,C"
      case 2 => "RES 0,D"
      case 3 => "RES 0,E"
      case 4 => "RES 0,H"
      case 5 => "RES 0,L"
      case 6 => "RES 0,(HL)"
      case _ => "RES 0,A")  // 0x87
    case 17 =>  // 0x88-0x8F
      (match b % 8
      case 0 => "RES 1,B"
      case 1 => "RES 1,C"
      case 2 => "RES 1,D"
      case 3 => "RES 1,E"
      case 4 => "RES 1,H"
      case 5 => "RES 1,L"
      case 6 => "RES 1,(HL)"
      case _ => "RES 1,A")  // 0x8F
    case 18 =>  // 0x90-0x97
      (match b % 8
      case 0 => "RES 2,B"
      case 1 => "RES 2,C"
      case 2 => "RES 2,D"
      case 3 => "RES 2,E"
      case 4 => "RES 2,H"
      case 5 => "RES 2,L"
      case 6 => "RES 2,(HL)"
      case _ => "RES 2,A")  // 0x97
    case 19 =>  // 0x98-0x9F
      (match b % 8
      case 0 => "RES 3,B"
      case 1 => "RES 3,C"
      case 2 => "RES 3,D"
      case 3 => "RES 3,E"
      case 4 => "RES 3,H"
      case 5 => "RES 3,L"
      case 6 => "RES 3,(HL)"
      case _ => "RES 3,A")  // 0x9F
    case 20 =>  // 0xA0-0xA7
      (match b % 8
      case 0 => "RES 4,B"
      case 1 => "RES 4,C"
      case 2 => "RES 4,D"
      case 3 => "RES 4,E"
      case 4 => "RES 4,H"
      case 5 => "RES 4,L"
      case 6 => "RES 4,(HL)"
      case _ => "RES 4,A")  // 0xA7
    case 21 =>  // 0xA8-0xAF
      (match b % 8
      case 0 => "RES 5,B"
      case 1 => "RES 5,C"
      case 2 => "RES 5,D"
      case 3 => "RES 5,E"
      case 4 => "RES 5,H"
      case 5 => "RES 5,L"
      case 6 => "RES 5,(HL)"
      case _ => "RES 5,A")  // 0xAF
    case 22 =>  // 0xB0-0xB7
      (match b % 8
      case 0 => "RES 6,B"
      case 1 => "RES 6,C"
      case 2 => "RES 6,D"
      case 3 => "RES 6,E"
      case 4 => "RES 6,H"
      case 5 => "RES 6,L"
      case 6 => "RES 6,(HL)"
      case _ => "RES 6,A")  // 0xB7
    case 23 =>  // 0xB8-0xBF
      (match b % 8
      case 0 => "RES 7,B"
      case 1 => "RES 7,C"
      case 2 => "RES 7,D"
      case 3 => "RES 7,E"
      case 4 => "RES 7,H"
      case 5 => "RES 7,L"
      case 6 => "RES 7,(HL)"
      case _ => "RES 7,A")  // 0xBF
    case 24 =>  // 0xC0-0xC7
      (match b % 8
      case 0 => "SET 0,B"
      case 1 => "SET 0,C"
      case 2 => "SET 0,D"
      case 3 => "SET 0,E"
      case 4 => "SET 0,H"
      case 5 => "SET 0,L"
      case 6 => "SET 0,(HL)"
      case _ => "SET 0,A")  // 0xC7
    case 25 =>  // 0xC8-0xCF
      (match b % 8
      case 0 => "SET 1,B"
      case 1 => "SET 1,C"
      case 2 => "SET 1,D"
      case 3 => "SET 1,E"
      case 4 => "SET 1,H"
      case 5 => "SET 1,L"
      case 6 => "SET 1,(HL)"
      case _ => "SET 1,A")  // 0xCF
    case 26 =>  // 0xD0-0xD7
      (match b % 8
      case 0 => "SET 2,B"
      case 1 => "SET 2,C"
      case 2 => "SET 2,D"
      case 3 => "SET 2,E"
      case 4 => "SET 2,H"
      case 5 => "SET 2,L"
      case 6 => "SET 2,(HL)"
      case _ => "SET 2,A")  // 0xD7
    case 27 =>  // 0xD8-0xDF
      (match b % 8
      case 0 => "SET 3,B"
      case 1 => "SET 3,C"
      case 2 => "SET 3,D"
      case 3 => "SET 3,E"
      case 4 => "SET 3,H"
      case 5 => "SET 3,L"
      case 6 => "SET 3,(HL)"
      case _ => "SET 3,A")  // 0xDF
    case 28 =>  // 0xE0-0xE7
      (match b % 8
      case 0 => "SET 4,B"
      case 1 => "SET 4,C"
      case 2 => "SET 4,D"
      case 3 => "SET 4,E"
      case 4 => "SET 4,H"
      case 5 => "SET 4,L"
      case 6 => "SET 4,(HL)"
      case _ => "SET 4,A")  // 0xE7
    case 29 =>  // 0xE8-0xEF
      (match b % 8
      case 0 => "SET 5,B"
      case 1 => "SET 5,C"
      case 2 => "SET 5,D"
      case 3 => "SET 5,E"
      case 4 => "SET 5,H"
      case 5 => "SET 5,L"
      case 6 => "SET 5,(HL)"
      case _ => "SET 5,A")  // 0xEF
    case 30 =>  // 0xF0-0xF7
      (match b % 8
      case 0 => "SET 6,B"
      case 1 => "SET 6,C"
      case 2 => "SET 6,D"
      case 3 => "SET 6,E"
      case 4 => "SET 6,H"
      case 5 => "SET 6,L"
      case 6 => "SET 6,(HL)"
      case _ => "SET 6,A")  // 0xF7
    case _ =>  // 0xF8-0xFF
      (match b % 8
      case 0 => "SET 7,B"
      case 1 => "SET 7,C"
      case 2 => "SET 7,D"
      case 3 => "SET 7,E"
      case 4 => "SET 7,H"
      case 5 => "SET 7,L"
      case 6 => "SET 7,(HL)"
      case _ => "SET 7,A")  // 0xFF
  }
}
