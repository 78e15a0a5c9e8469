/**
 * The instruction decoder: reads the opcode at the current address and the
 * operand bytes its entry asks for, and renders its text.
 *
 * The source reads `r->raw[phy(pc)]`, `r->raw[phy(pc+1)]` and
 * `r->raw[phy(pc+2)]` without comparing them against the image length; here
 * every read is guarded and an out-of-image read ends decoding as `Truncated`.
 */
module Decoder {
  import opened Wrappers
  import opened Bits
  import opened Memory
  import opened Rendering
  import opened Opcodes
  import opened OpcodeLaws

  /** The cartridge image and its controller-type byte, as the loader hands them over. */
  datatype Rom = Rom(raw: seq<Byte>, mbc: Byte)

  /** Why decoding stopped. */
  datatype Fault =
    | UnknownOpcode(addr: nat, opcode: Byte)  // the decoding switch's default
    | Truncated(addr: nat)                    // a read at or past the end of the image

  /** The operand an instruction read after its opcode. */
  datatype Operand = NoOperand | Byte8(b: Byte) | Word16(w: Word)

  /** A decoded instruction: physical address, table entry, operand. */
  datatype Instr = Instr(addr: nat, opcode: Byte, entry: Entry, operand: Operand)

  /** The number of operand bytes an entry reads after its opcode. */
  function OperandBytes(e: Entry): (n: nat)
    ensures n == Length(e) - 1
  {
    match e
    case Op(_, Bare, _) => 0
    case Op(_, f, _) => if f.width == W8 then 1 else 2
    case Stop => 1
    case Prefix => 1
  }

  /** `r->raw[phy(pc + offset)]`, or `Truncated` where the source would read past the image. */
  function ReadAt(rom: Rom, pc: Word, bank: Bank, offset: nat): (r: Result<Byte, Fault>)
    ensures var p := Phy(Wrap16(pc + offset), bank, rom.mbc);
      && (r.Success? <==> p < |rom.raw|)
      && (r.Success? ==> r.value == rom.raw[p])
      && (r.Failure? ==> r.error == Truncated(p))
  {
    var p := Phy(Wrap16(pc + offset), bank, rom.mbc);
    if p < |rom.raw| then Success(rom.raw[p]) else Failure(Truncated(p))
  }

  /** The operand bytes after the opcode; two bytes are little-endian. */
  function ReadOperand(rom: Rom, pc: Word, bank: Bank, e: Entry): Result<Operand, Fault> {
    if OperandBytes(e) == 0 then Success(NoOperand)
    else
      var lo :- ReadAt(rom, pc, bank, 1);
      if OperandBytes(e) == 1 then Success(Byte8(lo))
      else
        var hi :- ReadAt(rom, pc, bank, 2);
        Success(Word16(LittleEndian(lo, hi)))
  }

  /** The operand has the shape the entry's rendering helper needs. */
  predicate Fits(e: Entry, o: Operand) {
    match OperandBytes(e)
    case 0 => o.NoOperand?
    case 1 => o.Byte8?
    case _ => o.Word16?
  }

  /** The first `n` bytes after the opcode lie inside the image. */
  predicate OperandInImage(rom: Rom, pc: Word, bank: Bank, n: nat) {
    && (n >= 1 ==> Phy(Wrap16(pc + 1), bank, rom.mbc) < |rom.raw|)
    && (n >= 2 ==> Phy(Wrap16(pc + 2), bank, rom.mbc) < |rom.raw|)
  }

  /**
   * Decodes the instruction at `pc` in bank `bank`. It succeeds exactly when
   * the opcode is defined and it and its operand bytes lie inside the image;
   * the operand is the byte after the opcode, or the two bytes after it read
   * little-endian.
   */
  function Fetch(rom: Rom, pc: Word, bank: Bank): (r: Result<Instr, Fault>)
    ensures var p := Phy(pc, bank, rom.mbc);
      r.Success? <==>
        && p < |rom.raw|
        && Primary(rom.raw[p]).Some?
        && OperandInImage(rom, pc, bank, OperandBytes(Primary(rom.raw[p]).value))
    ensures r.Success? ==>
      && r.value.addr == Phy(pc, bank, rom.mbc) < |rom.raw|
      && r.value.opcode == rom.raw[r.value.addr]
      && Primary(r.value.opcode) == Some(r.value.entry)
      && Fits(r.value.entry, r.value.operand)
    ensures r.Success? && r.value.operand.Byte8? ==>
      var p1 := Phy(Wrap16(pc + 1), bank, rom.mbc);
      p1 < |rom.raw| && r.value.operand.b == rom.raw[p1]
    ensures r.Success? && r.value.operand.Word16? ==>
      var p1, p2 := Phy(Wrap16(pc + 1), bank, rom.mbc), Phy(Wrap16(pc + 2), bank, rom.mbc);
      p1 < |rom.raw| && p2 < |rom.raw| && r.value.operand.w == LittleEndian(rom.raw[p1], rom.raw[p2])
    ensures r.Failure? && r.error.UnknownOpcode? ==>
      && r.error.addr == Phy(pc, bank, rom.mbc) < |rom.raw|
      && r.error.opcode == rom.raw[r.error.addr]
      && r.error.opcode in Undefined
    ensures r.Failure? && r.error.Truncated? ==>
      var p, p1, p2 := Phy(pc, bank, rom.mbc), Phy(Wrap16(pc + 1), bank, rom.mbc), Phy(Wrap16(pc + 2), bank, rom.mbc);
      && r.error.addr >= |rom.raw|
      && r.error.addr == (if p >= |rom.raw| then p else if p1 >= |rom.raw| then p1 else p2)
    ensures var p := Phy(pc, bank, rom.mbc);
      p < |rom.raw| && rom.raw[p] in Undefined ==> r == Failure(UnknownOpcode(p, rom.raw[p]))
  {
    var p := Phy(pc, bank, rom.mbc);
    if p >= |rom.raw| then Failure(Truncated(p))
    else
      var op := rom.raw[p];
      UndefinedOpcodes(op);
      match Primary(op)
      case None =>
        Failure(UnknownOpcode(p, op))
      case Some(e) =>
        var operand :- ReadOperand(rom, pc, bank, e);
        Success(Instr(p, op, e, operand))
  }

  /** The operand's value, for the rendering helpers. */
  function Value(o: Operand): nat {
    match o
    case NoOperand => 0
    case Byte8(b) => b
    case Word16(w) => w
  }

  /** The operand as a displacement or 8-bit address; 0 for shapes the table never pairs with one. */
  function ByteOf(o: Operand): Byte {
    if o.Byte8? then o.b else 0
  }

  /** The operand as a 16-bit address; 0 for shapes the table never pairs with one. */
  function WordOf(o: Operand): Word {
    if o.Word16? then o.w else 0
  }

  /** The text the instruction's record carries. */
  function Text(e: Entry, o: Operand): string
    requires Fits(e, o)
  {
    match e
    case Op(name, f, _) =>
      BoundIsDigits(if f.Bare? then W8 else f.width);
      Render(name, f, Value(o))
    case Stop => ""
    case Prefix => Extended(ByteOf(o))
  }

  /** The operand has the shape the rendering helper and the control transfer both use. */
  predicate WellTyped(i: Instr) {
    Fits(i.entry, i.operand) && Consistent(i.entry)
  }

  /** A well-typed instruction carries exactly the operand its control transfer reads. */
  lemma WellTypedOperand(i: Instr)
    requires WellTyped(i)
    ensures i.entry.Op? ==>
      match i.entry.flow
      case JumpRel | JumpRelIf | LoadImm | StoreHigh | LoadHigh => i.operand.Byte8?
      case JumpAbs | JumpAbsIf | CallAbs | StoreBank => i.operand.Word16?
      case JumpStale | Return => i.operand.NoOperand?
      case Next => true
    ensures i.entry.Prefix? || i.entry.Stop? ==> i.operand.Byte8?
  {
  }

  /**
   * Every fetched instruction is well typed, so `ByteOf` and `WordOf` never
   * fall back to 0 on a decoded instruction.
   */
  lemma FetchedWellTyped(rom: Rom, pc: Word, bank: Bank)
    requires Fetch(rom, pc, bank).Success?
    ensures WellTyped(Fetch(rom, pc, bank).value)
  {
    TableConsistent(Fetch(rom, pc, bank).value.opcode);
  }

  /** The bytes 01 34 12 decode, low byte first, as `LD BC,$1234`. */
  lemma DecodeWordExample()
    ensures var i := Fetch(Rom([0x01, 0x34, 0x12], 0x00), 0, 1);
      && i == Success(Instr(0, 0x01, Op("LD BC", Right(W16), Next), Word16(0x1234)))
      && Text(i.value.entry, i.value.operand) == "LD BC,$1234"
  {
    RenderWordExample();
  }

  /** The bytes CB 7C decode as the prefixed `BIT 7,H`. */
  lemma DecodePrefixExample()
    ensures var i := Fetch(Rom([0xCB, 0x7C], 0x00), 0, 1);
      && i == Success(Instr(0, 0xCB, Prefix, Byte8(0x7C)))
      && Text(i.value.entry, i.value.operand) == "BIT 7,H"
  {
  }

  /** A 16-bit operand cut off by the end of the image stops decoding at the missing byte. */
  lemma DecodeTruncatedExample()
    ensures Fetch(Rom([0x01, 0x34], 0x00), 0, 1) == Failure(Truncated(2))
  {
  }
}
