/**
 * Facts about the opcode tables, each proved over all 256 table entries.
 */
module OpcodeLaws {
  import opened Wrappers
  import opened Bits
  import opened Rendering
  import opened Opcodes

  /** The primary opcodes that fall into the decoding `switch`'s `default`. */
  const Undefined: set<Byte> :=
    {0xD3, 0xDB, 0xDD, 0xE3, 0xE4, 0xEB, 0xEC, 0xED, 0xF4, 0xFC, 0xFD}

  /** Exactly eleven primary opcodes are undefined, and they are these. */
  lemma UndefinedOpcodes(op: Byte)
    ensures Primary(op).None? <==> op in Undefined
  {
  }

  /** Primary opcode `op` is an instruction with control-transfer effect `flow`. */
  predicate HasFlow(op: Byte, flow: Flow) {
    Primary(op).Some? && Primary(op).value.Op? && Primary(op).value.flow == flow
  }

  /**
   * Which opcodes transfer control or touch `a`, `hmem` or the bank, listed
   * by opcode independently of the table.
   */
  function FlowByOpcode(op: Byte): Flow {
    if op == 0x18 then JumpRel
    else if op in {0x20, 0x28, 0x30, 0x38} then JumpRelIf
    else if op == 0xC3 then JumpAbs
    else if op in {0xC2, 0xCA, 0xD2, 0xDA} then JumpAbsIf
    else if op in {0xC4, 0xCC, 0xCD, 0xD4, 0xDC} then CallAbs
    else if op == 0xE9 then JumpStale
    else if op == 0xC9 || op == 0xD9 then Return
    else if op == 0x3E then LoadImm
    else if op == 0xF0 then LoadHigh
    else if op == 0xE0 then StoreHigh
    else if op == 0xEA then StoreBank
    else Next
  }

  /** The single-opcode effects, read backwards: which opcodes have them. */
  lemma FlowByOpcodeInverse(op: Byte)
    ensures FlowByOpcode(op) == LoadImm <==> op == 0x3E
    ensures FlowByOpcode(op) == LoadHigh <==> op == 0xF0
    ensures FlowByOpcode(op) == StoreHigh <==> op == 0xE0
    ensures FlowByOpcode(op) == StoreBank <==> op == 0xEA
    ensures FlowByOpcode(op) == Return <==> op == 0xC9 || op == 0xD9
  {
  }

  /** The entry for `op`, if it renders text, has the effect the opcode list gives it. */
  predicate FlowListed(op: Byte) {
    Primary(op).Some? && Primary(op).value.Op? ==> Primary(op).value.flow == FlowByOpcode(op)
  }

  // The table checked against the opcode list a block at a time.

  lemma FlowOfBlock0(op: Byte)
    requires op < 0x40
    ensures FlowListed(op)
  {
  }

  lemma FlowOfBlock1(op: Byte)
    requires 0x40 <= op < 0x80
    ensures FlowListed(op)
  {
  }

  lemma FlowOfBlock2(op: Byte)
    requires 0x80 <= op < 0xC0
    ensures FlowListed(op)
  {
  }

  lemma FlowOfBlock3(op: Byte)
    requires 0xC0 <= op < 0xE0
    ensures FlowListed(op)
  {
  }

  lemma FlowOfBlock4(op: Byte)
    requires 0xE0 <= op
    ensures FlowListed(op)
  {
  }

  /** Every rendered instruction in the table has the effect the opcode list gives it. */
  lemma FlowOfOpcode(op: Byte)
    ensures Primary(op).Some? && Primary(op).value.Op? ==> Primary(op).value.flow == FlowByOpcode(op)
  {
    if op < 0x40 {
      FlowOfBlock0(op);
    } else if op < 0x80 {
      FlowOfBlock1(op);
    } else if op < 0xC0 {
      FlowOfBlock2(op);
    } else if op < 0xE0 {
      FlowOfBlock3(op);
    } else {
      FlowOfBlock4(op);
    }
  }

  /** STOP is the only entry that records nothing, and 0xCB the only prefix. */
  lemma SpecialOpcodes(op: Byte)
    ensures Primary(op) == Some(Stop) <==> op == 0x10
    ensures Primary(op) == Some(Prefix) <==> op == 0xCB
  {
  }

  /** Conditional returns and restarts are plain one-byte instructions that fall through. */
  lemma PlainReturnsAndRestarts(op: Byte)
    requires op in {0xC0, 0xC8, 0xD0, 0xD8, 0xC7, 0xCF, 0xD7, 0xDF, 0xE7, 0xEF, 0xF7, 0xFF}
    ensures HasFlow(op, Next)
    ensures Primary(op).value.format == Bare && Length(Primary(op).value) == 1
  {
  }

  /** The operand a flow uses has the width its rendering helper reads. */
  predicate Consistent(e: Entry) {
    e.Op? ==>
      match e.flow
      case JumpRel | JumpRelIf | LoadImm | StoreHigh | LoadHigh =>
        !e.format.Bare? && e.format.width == W8
      case JumpAbs | JumpAbsIf | CallAbs | StoreBank =>
        !e.format.Bare? && e.format.width == W16
      case JumpStale | Return => e.format.Bare?
      case Next => true
  }

  /** Every defined opcode reads the operand its control transfer needs. */
  lemma TableConsistent(op: Byte)
    ensures Primary(op).Some? ==> Consistent(Primary(op).value)
  {
    FlowOfOpcode(op);
  }

  /** The register the low three bits of an extended opcode select. */
  function Register(r: nat): string {
    match r
    case 0 => "B"
    case 1 => "C"
    case 2 => "D"
    case 3 => "E"
    case 4 => "H"
    case 5 => "L"
    case 6 => "(HL)"
    case _ => "A"
  }

  /** The shift or rotation that bits 3-5 select below 0x40. */
  function Shift(k: nat): string {
    match k
    case 0 => "RLC"
    case 1 => "RRC"
    case 2 => "RL"
    case 3 => "RR"
    case 4 => "SLA"
    case 5 => "SRA"
    case 6 => "SWAP"
    case _ => "SRL"
  }

  /** The decimal digit of a bit number. */
  function BitNumber(k: nat): string {
    match k
    case 0 => "0"
    case 1 => "1"
    case 2 => "2"
    case 3 => "3"
    case 4 => "4"
    case 5 => "5"
    case 6 => "6"
    case _ => "7"
  }

  /**
   * The rule the extended table follows: the low three bits select the
   * register; below 0x40 bits 3-5 select the shift; from 0x40 on the top two
   * bits select BIT, RES or SET and bits 3-5 the bit number.
   */
  function ExtendedRule(b: Byte): string {
    var register := Register(b % 8);
    if b < 0x40 then Shift(b / 8) + " " + register
    else if b < 0x80 then "BIT " + BitNumber((b - 0x40) / 8) + "," + register
    else if b < 0xC0 then "RES " + BitNumber((b - 0x80) / 8) + "," + register
    else "SET " + BitNumber((b - 0xC0) / 8) + "," + register
  }

  // The rule checked a block of 32 bytes at a time.

  lemma ExtendedShiftsLow(b: Byte)
    requires b < 0x20
    ensures Extended(b) == ExtendedRule(b)
  {
  }

  lemma ExtendedShiftsHigh(b: Byte)
    requires 0x20 <= b < 0x40
    ensures Extended(b) == ExtendedRule(b)
  {
  }

  lemma ExtendedBitLow(b: Byte)
    requires 0x40 <= b < 0x60
    ensures Extended(b) == ExtendedRule(b)
  {
  }

  lemma ExtendedBitHigh(b: Byte)
    requires 0x60 <= b < 0x80
    ensures Extended(b) == ExtendedRule(b)
  {
  }

  lemma ExtendedResLow(b: Byte)
    requires 0x80 <= b < 0xA0
    ensures Extended(b) == ExtendedRule(b)
  {
  }

  lemma ExtendedResHigh(b: Byte)
    requires 0xA0 <= b < 0xC0
    ensures Extended(b) == ExtendedRule(b)
  {
  }

  lemma ExtendedSetLow(b: Byte)
    requires 0xC0 <= b < 0xE0
    ensures Extended(b) == ExtendedRule(b)
  {
  }

  lemma ExtendedSetHigh(b: Byte)
    requires 0xE0 <= b
    ensures Extended(b) == ExtendedRule(b)
  {
  }

  /** The written-out extended table agrees with the rule at every second byte. */
  lemma ExtendedRegular(b: Byte)
    ensures Extended(b) == ExtendedRule(b)
  {
    if b < 0x20 {
      ExtendedShiftsLow(b);
    } else if b < 0x40 {
      ExtendedShiftsHigh(b);
    } else if b < 0x60 {
      ExtendedBitLow(b);
    } else if b < 0x80 {
      ExtendedBitHigh(b);
    } else if b < 0xA0 {
      ExtendedResLow(b);
    } else if b < 0xC0 {
      ExtendedResHigh(b);
    } else if b < 0xE0 {
      ExtendedSetLow(b);
    } else {
      ExtendedSetHigh(b);
    }
  }

  /** Every second byte after 0xCB has a mnemonic. */
  lemma ExtendedTotal(b: Byte)
    ensures |Extended(b)| > 0
  {
    if b < 0x80 {
      ExtendedTotalLow(b);
    } else {
      ExtendedTotalHigh(b);
    }
  }

  lemma ExtendedTotalLow(b: Byte)
    requires b < 0x80
    ensures |Extended(b)| > 0
  {
  }

  lemma ExtendedTotalHigh(b: Byte)
    requires 0x80 <= b
    ensures |Extended(b)| > 0
  {
  }
}
