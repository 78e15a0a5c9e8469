/**
 * The traversal engine: the machine state the main loop keeps in globals,
 * the four branch helpers `jmp`/`jmpu`, `ret`, and one iteration of the
 * `while(1)` loop.
 */
module Engine {
  import opened Wrappers
  import opened Bits
  import opened Memory
  import opened Continuations
  import opened Catalog
  import opened Opcodes
  import opened Decoder

  /** Cells of `hmem`: the source declares `uint8_t hmem[0xFF]`, indices 0x00 to 0xFE. */
  const HighSize: nat := 0xFF

  type HighMem = h: seq<Byte> | |h| == HighSize witness seq(HighSize, _ => 0)

  /**
   * `hmem[i]`. Index 0xFF is one past the array; the model reads 0 there
   * (the source's read is undefined).
   */
  function HighLoad(h: HighMem, i: Byte): Byte {
    if i < HighSize then h[i] else 0
  }

  /** `hmem[i] = v`. A store to index 0xFF is dropped (the source's write is undefined). */
  function HighStore(h: HighMem, i: Byte, v: Byte): (r: HighMem)
    ensures forall j :: 0 <= j < HighSize && j != i ==> r[j] == h[j]
    ensures i < HighSize ==> r[i] == v
  {
    if i < HighSize then h[i := v] else h
  }

  /** A load sees the last store to its own cell, and only that store. */
  lemma HighLoadStore(h: HighMem, i: Byte, j: Byte, v: Byte)
    ensures HighLoad(HighStore(h, i, v), j) ==
      if i == j && i < HighSize then v else HighLoad(h, j)
  {
  }

  /**
   * The globals the main loop reads and writes, plus its `addr16` local,
   * which keeps the last 16-bit operand read from one iteration to the next.
   */
  datatype State = State(
    pc: Word,
    bank: Bank,
    a: Byte,
    hmem: HighMem,
    stack: Stack,
    catalog: Catalog,
    jumpLabels: seq<nat>,
    callLabels: seq<nat>,
    addr16: Word)

  /**
   * The state before the first iteration: pc 0x100, bank 1, an empty stack
   * and catalog, zeroed `a` and `hmem` (static storage). `addr16` is an
   * uninitialised local in the source, so its first value is a parameter.
   */
  function Initial(addr16: Word): State {
    State(0x100, 1, 0, seq(HighSize, _ => 0), [], [], [], [], addr16)
  }

  /**
   * The loop starts at 0x100 in bank 1, with `a` zero, nothing deferred,
   * nothing recorded and no labels.
   */
  lemma InitialState(addr16: Word)
    ensures var s := Initial(addr16);
      && s.pc == 0x100 && s.bank == 1 && s.a == 0
      && s.stack == [] && s.catalog == [] && s.jumpLabels == [] && s.callLabels == []
      && s.addr16 == addr16
      && forall i: Byte :: HighLoad(s.hmem, i) == 0
  {
  }

  /** Why the traversal stopped. */
  datatype Halt =
    | Finished        // revisit with nothing left on the stack
    | Faulted(fault: Fault)
    | Underflow       // `ret()` with a NULL `top`; the source dereferences it

  datatype Outcome = Running(state: State) | Halted(reason: Halt, state: State)

  /** The range check of the 16-bit `jmp` and `jmpu`: below 0x8000 and inside the image. */
  predicate InImage(rom: Rom, s: State, addr: Word) {
    addr < 0x8000 && Phy(addr, s.bank, rom.mbc) < |rom.raw|
  }

  /** `pc + ((char)addr) + 2` stored into a `uint16_t`: the target of a relative jump. */
  function RelTarget(pc: Word, d: Byte): (t: Word)
    ensures (t - pc - 2 - Signed(d)) % 0x1_0000 == 0
  {
    Wrap16(pc + Signed(d) + 2)
  }

  /**
   * The label a relative jump adds: `phy(pc + ((char)addr8))`, computed from
   * the jump's own address rather than the address after it.
   */
  function RelLabel(rom: Rom, s: State, d: Byte): nat {
    Phy(Wrap16(s.pc + Signed(d)), s.bank, rom.mbc)
  }

  /**
   * `jmp(uint16_t)`: a conditional jump or call. In range it defers the
   * fall-through path (pc + 3, current bank) and follows the target;
   * otherwise it only falls through.
   */
  function Jmp16(rom: Rom, s: State, addr: Word): (r: State)
    ensures r == s.(pc := r.pc, stack := r.stack)
    ensures InImage(rom, s, addr) ==>
      r.pc == addr && Pop(r.stack) == Some(Popped(Continuation(Wrap16(s.pc + 3), s.bank), s.stack))
    ensures !InImage(rom, s, addr) ==> r.pc == Wrap16(s.pc + 3) && r.stack == s.stack
  {
    if InImage(rom, s, addr) then
      PopPush(s.stack, Continuation(Wrap16(s.pc + 3), s.bank));
      s.(stack := Push(s.stack, Continuation(Wrap16(s.pc + 3), s.bank)), pc := addr)
    else
      s.(pc := Wrap16(s.pc + 3))
  }

  /**
   * `jmp(uint8_t)`: a conditional relative jump. Its only range check is
   * `new_pc < 0x8000`; unlike the other three helpers it does not compare
   * the target with the image size.
   */
  function Jmp8(s: State, d: Byte): (r: State)
    ensures r == s.(pc := r.pc, stack := r.stack)
    ensures RelTarget(s.pc, d) < 0x8000 ==>
      r.pc == RelTarget(s.pc, d) && Pop(r.stack) == Some(Popped(Continuation(Wrap16(s.pc + 2), s.bank), s.stack))
    ensures RelTarget(s.pc, d) >= 0x8000 ==> r.pc == Wrap16(s.pc + 2) && r.stack == s.stack
  {
    var target := RelTarget(s.pc, d);
    if target < 0x8000 then
      PopPush(s.stack, Continuation(Wrap16(s.pc + 2), s.bank));
      s.(stack := Push(s.stack, Continuation(Wrap16(s.pc + 2), s.bank)), pc := target)
    else
      s.(pc := Wrap16(s.pc + 2))
  }

  /**
   * `jmpu(uint16_t)`: an unconditional jump; out of range it restarts at
   * 0x100. Either way the next opcode lies inside the image, or pc is the
   * restart address.
   */
  function Jmpu16(rom: Rom, s: State, addr: Word): (r: State)
    ensures r == s.(pc := r.pc)
    ensures r.pc == 0x100 || (r.pc < 0x8000 && Phy(r.pc, r.bank, rom.mbc) < |rom.raw|)
    ensures r.pc == if InImage(rom, s, addr) then addr else 0x100
  {
    s.(pc := if InImage(rom, s, addr) then addr else 0x100)
  }

  /**
   * `jmpu(uint8_t)`: an unconditional relative jump; out of range it
   * restarts at 0x100. Unlike `jmp(uint8_t)`, it never leaves pc past the
   * image, except at the restart address.
   */
  function Jmpu8(rom: Rom, s: State, d: Byte): (r: State)
    ensures r == s.(pc := r.pc)
    ensures r.pc == 0x100 || (r.pc < 0x8000 && Phy(r.pc, r.bank, rom.mbc) < |rom.raw|)
    ensures r.pc == if InImage(rom, s, RelTarget(s.pc, d)) then RelTarget(s.pc, d) else 0x100
  {
    var target := RelTarget(s.pc, d);
    s.(pc := if InImage(rom, s, target) then target else 0x100)
  }

  /**
   * `ret()`, and the same three assignments at the head of the loop:
   * resume the top continuation. `None` where `top` is NULL.
   */
  function Ret(s: State): (r: Option<State>)
    ensures r.None? <==> |s.stack| == 0
    ensures r.Some? ==>
      && r.value == s.(pc := r.value.pc, bank := r.value.bank, stack := r.value.stack)
      && Push(r.value.stack, Continuation(r.value.pc, r.value.bank)) == s.stack
  {
    match Pop(s.stack)
    case None => None
    case Some(p) => Some(s.(pc := p.top.pc, bank := p.top.bank, stack := p.rest))
  }

  /** Adds a label to the jump list. */
  function JumpLabel(s: State, l: nat): State {
    s.(jumpLabels := s.jumpLabels + [l])
  }

  /** Adds a label to the call list. */
  function CallLabel(s: State, l: nat): State {
    s.(callLabels := s.callLabels + [l])
  }

  /**
   * The control-transfer part of one `case`: labels first, then the helper.
   * `next` is pc plus the instruction's length.
   */
  function Transfer(rom: Rom, s: State, flow: Flow, o: Operand, next: Word): Outcome {
    match flow
    case Next => Running(s.(pc := next))
    case JumpRel =>
      Running(Jmpu8(rom, JumpLabel(s, RelLabel(rom, s, ByteOf(o))), ByteOf(o)))
    case JumpRelIf =>
      Running(Jmp8(JumpLabel(s, RelLabel(rom, s, ByteOf(o))), ByteOf(o)))
    case JumpAbs =>
      Running(Jmpu16(rom, JumpLabel(s, Phy(WordOf(o), s.bank, rom.mbc)), WordOf(o)))
    case JumpAbsIf =>
      Running(Jmp16(rom, JumpLabel(s, Phy(WordOf(o), s.bank, rom.mbc)), WordOf(o)))
    case CallAbs =>
      Running(Jmp16(rom, CallLabel(s, Phy(WordOf(o), s.bank, rom.mbc)), WordOf(o)))
    case JumpStale =>
      Running(Jmp16(rom, JumpLabel(s, Phy(s.addr16, s.bank, rom.mbc)), s.addr16))
    case Return =>
      (match Ret(s)
       case None => Halted(Underflow, s)
       case Some(r) => Running(r))
    case LoadImm => Running(s.(a := ByteOf(o), pc := next))
    case StoreHigh => Running(s.(hmem := HighStore(s.hmem, ByteOf(o), s.a), pc := next))
    case LoadHigh => Running(s.(a := HighLoad(s.hmem, ByteOf(o)), pc := next))
    case StoreBank =>
      var bank := if WordOf(o) == 0x2000 || WordOf(o) == 0x2100 then s.a else s.bank;
      Running(s.(bank := bank, pc := next))
  }

  /** The record `op_create` builds for a decoded instruction. */
  function RecordOf(i: Instr): Record
    requires Fits(i.entry, i.operand)
  {
    Record(i.addr, Length(i.entry), Text(i.entry, i.operand))
  }

  /**
   * One `case` of the decoding switch: add the record (STOP adds none),
   * keep a 16-bit operand in `addr16`, then move the program counter.
   */
  function Execute(rom: Rom, s: State, i: Instr): Outcome
    requires Fits(i.entry, i.operand)
  {
    var recorded := if i.entry.Stop? then s else s.(catalog := Add(s.catalog, RecordOf(i)));
    var kept := if i.operand.Word16? then recorded.(addr16 := i.operand.w) else recorded;
    var next := Wrap16(s.pc + Length(i.entry));
    match i.entry
    case Op(_, _, flow) => Transfer(rom, kept, flow, i.operand, next)
    case _ => Running(kept.(pc := next))
  }

  /** Decode at the current pc and execute, or stop on a decoding fault. */
  function Dispatch(rom: Rom, s: State): Outcome {
    match Fetch(rom, s.pc, s.bank)
    case Failure(f) => Halted(Faulted(f), s)
    case Success(i) => Execute(rom, s, i)
  }

  /**
   * One iteration of the main loop. On a revisit it resumes the top
   * continuation and decodes there straight away, without testing the
   * resumed address against the catalog again.
   */
  function Step(rom: Rom, s: State): Outcome {
    if Contains(s.catalog, Phy(s.pc, s.bank, rom.mbc)) then
      match Ret(s)
      case None => Halted(Finished, s)
      case Some(resumed) => Dispatch(rom, resumed)
    else
      Dispatch(rom, s)
  }
}
