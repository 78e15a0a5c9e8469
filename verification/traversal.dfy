/**
 * The whole traversal: the `while(1)` loop from the initial state, bounded
 * by a step count, and what holds of every state it reaches.
 */
module Traversal {
  import opened Wrappers
  import opened Bits
  import opened Memory
  import opened Continuations
  import opened Catalog
  import opened Rendering
  import opened Opcodes
  import opened OpcodeLaws
  import opened Decoder
  import opened Engine
  import opened EngineLaws

  /**
   * The `while(1)` loop with an arbitrary body: at most `fuel` iterations of
   * `step`, and a halted outcome stays as it is.
   */
  function Iterate(step: State -> Outcome, o: Outcome, fuel: nat): (r: Outcome)
    ensures fuel == 0 || o.Halted? ==> r == o
    decreases fuel
  {
    if fuel == 0 || o.Halted? then o else Iterate(step, step(o.state), fuel - 1)
  }

  /** A property of outcomes that holds initially and that every iteration keeps holds at the end. */
  lemma {:induction false} IterateInvariant(step: State -> Outcome, inv: Outcome -> bool, o: Outcome, fuel: nat)
    requires inv(o)
    requires forall s :: inv(Running(s)) ==> inv(step(s))
    ensures inv(Iterate(step, o, fuel))
    decreases fuel
  {
    if fuel > 0 && o.Running? {
      IterateInvariant(step, inv, step(o.state), fuel - 1);
    }
  }

  /** A body that appends at most one record per iteration does so over any number of iterations. */
  lemma {:induction false} IterateGrows(step: State -> Outcome, o: Outcome, fuel: nat)
    requires forall s: State :: s.catalog <= step(s).state.catalog && |step(s).state.catalog| <= |s.catalog| + 1
    ensures var r := Iterate(step, o, fuel);
      o.state.catalog <= r.state.catalog && |r.state.catalog| <= |o.state.catalog| + fuel
    decreases fuel
  {
    if fuel > 0 && o.Running? {
      IterateGrows(step, step(o.state), fuel - 1);
    }
  }

  /** One iteration of the main loop on image `rom`. */
  function Body(rom: Rom): State -> Outcome {
    s => Step(rom, s)
  }

  /**
   * At most `fuel` iterations of the main loop; a halted outcome stays as it
   * is. The catalog only grows, by at most one record per iteration.
   */
  function Run(rom: Rom, o: Outcome, fuel: nat): (r: Outcome)
    ensures fuel == 0 || o.Halted? ==> r == o
    ensures o.state.catalog <= r.state.catalog
    ensures |r.state.catalog| <= |o.state.catalog| + fuel
  {
    forall s: State ensures s.catalog <= Body(rom)(s).state.catalog && |Body(rom)(s).state.catalog| <= |s.catalog| + 1 {
      StepGrows(rom, s);
    }
    IterateGrows(Body(rom), o, fuel);
    Iterate(Body(rom), o, fuel)
  }

  /** A running outcome with fuel left takes one iteration. */
  lemma RunStep(rom: Rom, o: Outcome, fuel: nat)
    requires fuel > 0 && o.Running?
    ensures Run(rom, o, fuel) == Run(rom, Step(rom, o.state), fuel - 1)
  {
    assert Body(rom)(o.state) == Step(rom, o.state);
  }

  /** The program: from pc 0x100 in bank 1, with `addr16` holding whatever it holds. */
  function Disassemble(rom: Rom, fuel: nat, addr16: Word): Outcome {
    Run(rom, Running(Initial(addr16)), fuel)
  }

  /** A record describes the defined instruction at its address, with that instruction's length. */
  predicate Describes(rom: Rom, r: Record) {
    && r.addr < |rom.raw|
    && Primary(rom.raw[r.addr]).Some?
    && r.length == Length(Primary(rom.raw[r.addr]).value)
  }

  /** Every record in the catalog describes the image. */
  predicate Catalogued(rom: Rom, c: Catalog) {
    |c| == 0 || (Catalogued(rom, c[..|c| - 1]) && Describes(rom, c[|c| - 1]))
  }

  /** `Catalogued` is the property of each record in turn. */
  lemma {:induction false} CataloguedEach(rom: Rom, c: Catalog, k: nat)
    requires Catalogued(rom, c) && k < |c|
    ensures Describes(rom, c[k])
    decreases |c|
  {
    if k < |c| - 1 {
      CataloguedEach(rom, c[..|c| - 1], k);
    }
  }

  /** Decoding keeps every record describing the image. */
  lemma DispatchKeepsCatalogued(rom: Rom, s: State)
    requires Catalogued(rom, s.catalog)
    ensures Catalogued(rom, After(rom, s).catalog)
  {
    DispatchRecords(rom, s);
    var t := After(rom, s);
    if t.catalog != s.catalog {
      var r := RecordOf(Fetch(rom, s.pc, s.bank).value);
      assert Describes(rom, r);
      assert t.catalog[..|s.catalog|] == s.catalog;
    }
  }

  /** One iteration keeps every record describing the image. */
  lemma StepKeepsCatalogued(rom: Rom, s: State)
    requires Catalogued(rom, s.catalog)
    ensures Catalogued(rom, Step(rom, s).state.catalog)
  {
    if Contains(s.catalog, Phy(s.pc, s.bank, rom.mbc)) {
      if Ret(s).Some? {
        DispatchKeepsCatalogued(rom, Ret(s).value);
      }
    } else {
      DispatchKeepsCatalogued(rom, s);
    }
  }

  /** Any number of iterations keeps every record describing the image. */
  lemma RunKeepsCatalogued(rom: Rom, o: Outcome, fuel: nat)
    requires Catalogued(rom, o.state.catalog)
    ensures Catalogued(rom, Run(rom, o, fuel).state.catalog)
  {
    var inv := (x: Outcome) => Catalogued(rom, x.state.catalog);
    forall s | inv(Running(s)) ensures inv(Body(rom)(s)) {
      StepKeepsCatalogued(rom, s);
    }
    IterateInvariant(Body(rom), inv, o, fuel);
  }

  /**
   * Every record of a traversal names a defined opcode at an address inside
   * the image and carries that opcode's length.
   */
  lemma DisassembleCatalogued(rom: Rom, fuel: nat, addr16: Word)
    ensures Catalogued(rom, Disassemble(rom, fuel, addr16).state.catalog)
  {
    RunKeepsCatalogued(rom, Running(Initial(addr16)), fuel);
  }

  /** A finished outcome stands at an address already in the catalog with nothing deferred. */
  predicate FinishedAt(rom: Rom, r: Outcome) {
    r.Halted? && r.reason == Finished ==>
      |r.state.stack| == 0 && Contains(r.state.catalog, Phy(r.state.pc, r.state.bank, rom.mbc))
  }

  /** One iteration that finishes does so at a revisit with an empty stack. */
  lemma StepFinishedAt(rom: Rom, s: State)
    ensures FinishedAt(rom, Step(rom, s))
  {
    StepFinishes(rom, s);
  }

  /**
   * A traversal that finishes stops at an address already in the catalog
   * with no deferred path left.
   */
  lemma RunFinished(rom: Rom, o: Outcome, fuel: nat)
    requires o.Running?
    ensures FinishedAt(rom, Run(rom, o, fuel))
  {
    var inv := (x: Outcome) => FinishedAt(rom, x);
    forall s ensures inv(Body(rom)(s)) {
      StepFinishedAt(rom, s);
    }
    IterateInvariant(Body(rom), inv, o, fuel);
  }

  /** `n` NOPs from 0x100 followed by RET, all in the fixed first bank. */
  predicate NopSled(rom: Rom, n: nat) {
    && 0x100 + n < BankSize
    && 0x100 + n < |rom.raw|
    && (forall a :: 0x100 <= a < 0x100 + n ==> rom.raw[a] == 0x00)
    && rom.raw[0x100 + n] == 0xC9
  }

  /** The records of the first `k` NOPs. */
  function NopRecords(k: nat): (c: Catalog)
    ensures |c| == k
    ensures forall j :: 0 <= j < k ==> c[j] == Record(0x100 + j, 1, "NOP")
  {
    seq(k, j requires 0 <= j => Record(0x100 + j, 1, "NOP"))
  }

  /** The state after the first `k` NOPs of a sled. */
  function SledState(addr16: Word, k: nat): State
    requires 0x100 + k < 0x1_0000
  {
    Initial(addr16).(pc := 0x100 + k, catalog := NopRecords(k))
  }

  lemma SledStep(rom: Rom, n: nat, addr16: Word, k: nat)
    requires NopSled(rom, n) && k < n
    ensures Step(rom, SledState(addr16, k)) == Running(SledState(addr16, k + 1))
  {
    var s := SledState(addr16, k);
    assert Phy(s.pc, s.bank, rom.mbc) == 0x100 + k;
    assert !Contains(s.catalog, 0x100 + k);
    assert rom.raw[0x100 + k] == 0x00;
    assert Fetch(rom, s.pc, s.bank) == Success(Instr(0x100 + k, 0x00, Op("NOP", Bare, Next), NoOperand));
    assert NopRecords(k + 1) == Add(NopRecords(k), Record(0x100 + k, 1, "NOP"));
  }

  lemma SledEnd(rom: Rom, n: nat, addr16: Word)
    requires NopSled(rom, n)
    ensures Step(rom, SledState(addr16, n)) ==
      Halted(Underflow, SledState(addr16, n).(catalog := NopRecords(n) + [Record(0x100 + n, 1, "RET")]))
  {
    var s := SledState(addr16, n);
    assert Phy(s.pc, s.bank, rom.mbc) == 0x100 + n;
    assert !Contains(s.catalog, 0x100 + n);
    assert Fetch(rom, s.pc, s.bank) == Success(Instr(0x100 + n, 0xC9, Op("RET", Bare, Return), NoOperand));
  }

  lemma {:induction false} SledRun(rom: Rom, n: nat, addr16: Word, k: nat)
    requires NopSled(rom, n) && k <= n
    ensures Run(rom, Running(SledState(addr16, k)), n - k + 1) ==
      Halted(Underflow, SledState(addr16, n).(catalog := NopRecords(n) + [Record(0x100 + n, 1, "RET")]))
    decreases n - k
  {
    if k == n {
      RunStep(rom, Running(SledState(addr16, k)), 1);
      SledEnd(rom, n, addr16);
    } else {
      RunStep(rom, Running(SledState(addr16, k)), n - k + 1);
      SledStep(rom, n, addr16, k);
      SledRun(rom, n, addr16, k + 1);
    }
  }

  /** The sled's starting state is the program's initial state. */
  lemma SledStart(addr16: Word)
    ensures SledState(addr16, 0) == Initial(addr16)
  {
    assert NopRecords(0) == [];
  }

  /**
   * A run of NOPs then RET with nothing deferred: every NOP and the RET are
   * recorded in order, then `ret()` finds the stack empty.
   */
  lemma NopSledUnderflows(rom: Rom, n: nat, addr16: Word)
    requires NopSled(rom, n)
    ensures Disassemble(rom, n + 1, addr16) ==
      Halted(Underflow, Initial(addr16).(pc := 0x100 + n, catalog := NopRecords(n) + [Record(0x100 + n, 1, "RET")]))
  {
    SledStart(addr16);
    SledRun(rom, n, addr16, 0);
  }

  /**
   * A 64 KiB image without banking, filled with STOP (0x10). STOP records
   * nothing, so no address is ever found in the catalog and the loop never
   * reaches its exit.
   */
  function AllStop(): Rom {
    Rom(seq(0x1_0000, _ => 0x10), 0)
  }

  /** On that image every iteration decodes a STOP: nothing is recorded and pc moves by two. */
  lemma StopStep(s: State)
    requires s.catalog == []
    ensures Step(AllStop(), s) == Running(s.(pc := Wrap16(s.pc + 2)))
  {
    var rom := AllStop();
    var p, p1 := Phy(s.pc, s.bank, rom.mbc), Phy(Wrap16(s.pc + 1), s.bank, rom.mbc);
    assert p == s.pc && p1 == Wrap16(s.pc + 1);
    assert rom.raw[p] == 0x10;
    SpecialOpcodes(0x10);
    assert OperandBytes(Stop) == 1;
    assert Fetch(rom, s.pc, s.bank).Success?;
    StepResumes(rom, s);
    StopRecordsNothing(rom, s);
  }

  /** The traversal of that image neither finishes nor faults, however many iterations it takes. */
  lemma NeverFinishes(fuel: nat, addr16: Word)
    ensures Disassemble(AllStop(), fuel, addr16).Running?
    ensures Disassemble(AllStop(), fuel, addr16).state.catalog == []
  {
    var inv := (o: Outcome) => o.Running? && o.state.catalog == [];
    forall s | inv(Running(s)) ensures inv(Body(AllStop())(s)) {
      StopStep(s);
    }
    InitialState(addr16);
    IterateInvariant(Body(AllStop()), inv, Running(Initial(addr16)), fuel);
  }
}
