/**
 * What one iteration of the main loop does, instruction family by family,
 * and what it never does.
 */
module EngineLaws {
  import opened Wrappers
  import opened Bits
  import opened Memory
  import opened Continuations
  import opened Catalog
  import opened Rendering
  import opened Opcodes
  import opened OpcodeLaws
  import opened Decoder
  import opened Engine

  /** The outcome's state, whichever way the iteration ended. */
  function After(rom: Rom, s: State): State {
    Dispatch(rom, s).state
  }

  /**
   * The control-transfer part leaves the catalog alone, adds at most one
   * label, and never reports a finished traversal.
   */
  lemma TransferGrows(rom: Rom, s: State, flow: Flow, o: Operand, next: Word)
    ensures var r := Transfer(rom, s, flow, o, next);
      && r.state.catalog == s.catalog
      && s.jumpLabels <= r.state.jumpLabels && s.callLabels <= r.state.callLabels
      && |r.state.jumpLabels| + |r.state.callLabels| <= |s.jumpLabels| + |s.callLabels| + 1
      && (r.Halted? ==> r.reason == Underflow)
  {
  }

  /** The catalog and the label lists only grow, by at most one entry per iteration. */
  lemma ExecuteGrows(rom: Rom, s: State, i: Instr)
    requires Fits(i.entry, i.operand)
    ensures var r := Execute(rom, s, i);
      && r.state.catalog == (if i.entry.Stop? then s.catalog else Add(s.catalog, RecordOf(i)))
      && s.jumpLabels <= r.state.jumpLabels && s.callLabels <= r.state.callLabels
      && |r.state.jumpLabels| + |r.state.callLabels| <= |s.jumpLabels| + |s.callLabels| + 1
      && (r.Halted? ==> r.reason == Underflow)
  {
    var recorded := if i.entry.Stop? then s else s.(catalog := Add(s.catalog, RecordOf(i)));
    var kept := if i.operand.Word16? then recorded.(addr16 := i.operand.w) else recorded;
    if i.entry.Op? {
      TransferGrows(rom, kept, i.entry.flow, i.operand, Wrap16(s.pc + Length(i.entry)));
    }
  }

  /** An iteration adds the record of the instruction it decoded, or nothing. */
  lemma DispatchRecords(rom: Rom, s: State)
    ensures var t := After(rom, s);
      || t.catalog == s.catalog
      || (Fetch(rom, s.pc, s.bank).Success? && t.catalog == Add(s.catalog, RecordOf(Fetch(rom, s.pc, s.bank).value)))
    ensures var t := After(rom, s);
      && s.jumpLabels <= t.jumpLabels && s.callLabels <= t.callLabels
      && |t.jumpLabels| + |t.callLabels| <= |s.jumpLabels| + |s.callLabels| + 1
  {
    if Fetch(rom, s.pc, s.bank).Success? {
      ExecuteGrows(rom, s, Fetch(rom, s.pc, s.bank).value);
    }
  }

  /** Decoding never ends the traversal as finished: only the revisit test does. */
  lemma DispatchNeverFinishes(rom: Rom, s: State)
    ensures Dispatch(rom, s).Halted? ==> Dispatch(rom, s).reason != Finished
  {
    if Fetch(rom, s.pc, s.bank).Success? {
      ExecuteGrows(rom, s, Fetch(rom, s.pc, s.bank).value);
    }
  }

  /** One iteration appends at most one record and at most one label, and removes nothing. */
  lemma StepGrows(rom: Rom, s: State)
    ensures var t := Step(rom, s).state;
      && s.catalog <= t.catalog && |t.catalog| <= |s.catalog| + 1
      && s.jumpLabels <= t.jumpLabels && s.callLabels <= t.callLabels
      && |t.jumpLabels| + |t.callLabels| <= |s.jumpLabels| + |s.callLabels| + 1
  {
    if Contains(s.catalog, Phy(s.pc, s.bank, rom.mbc)) {
      if Ret(s).Some? {
        DispatchRecords(rom, Ret(s).value);
      }
    } else {
      DispatchRecords(rom, s);
    }
  }

  /**
   * The traversal finishes exactly when it reaches an address already in the
   * catalog and has no deferred path left.
   */
  lemma StepFinishes(rom: Rom, s: State)
    ensures Step(rom, s) == Halted(Finished, s) <==>
      Contains(s.catalog, Phy(s.pc, s.bank, rom.mbc)) && |s.stack| == 0
    ensures Step(rom, s).Halted? && Step(rom, s).reason == Finished ==>
      Step(rom, s).state == s
  {
    if Ret(s).Some? {
      DispatchNeverFinishes(rom, Ret(s).value);
    }
    DispatchNeverFinishes(rom, s);
  }

  /**
   * A step first consults the catalog: at a known address it resumes the
   * newest deferred path and decodes there; elsewhere it decodes in place.
   */
  lemma StepResumes(rom: Rom, s: State)
    ensures Contains(s.catalog, Phy(s.pc, s.bank, rom.mbc)) && |s.stack| > 0 ==>
      && Ret(s).Some?
      && Step(rom, s) == Dispatch(rom, Ret(s).value)
      && Ret(s).value.stack == s.stack[..|s.stack| - 1]
    ensures !Contains(s.catalog, Phy(s.pc, s.bank, rom.mbc)) ==> Step(rom, s) == Dispatch(rom, s)
  {
  }

  /**
   * On a revisit the resumed address is decoded without consulting the
   * catalog: if it is already there, a second record for it is appended.
   */
  lemma DuplicateAfterResume(rom: Rom, s: State)
    requires Unique(s.catalog)
    requires Contains(s.catalog, Phy(s.pc, s.bank, rom.mbc))
    requires |s.stack| > 0
    requires var c := s.stack[|s.stack| - 1];
      && Contains(s.catalog, Phy(c.pc, c.bank, rom.mbc))
      && Fetch(rom, c.pc, c.bank).Success?
      && !Fetch(rom, c.pc, c.bank).value.entry.Stop?
    ensures !Unique(Step(rom, s).state.catalog)
  {
    var resumed := Ret(s).value;
    var i := Fetch(rom, resumed.pc, resumed.bank).value;
    ExecuteGrows(rom, resumed, i);
    AddUnique(s.catalog, RecordOf(i));
  }

  /** An undefined opcode stops the traversal where it stands, recording nothing. */
  lemma UnknownOpcodeHalts(rom: Rom, s: State)
    requires Phy(s.pc, s.bank, rom.mbc) < |rom.raw|
    requires rom.raw[Phy(s.pc, s.bank, rom.mbc)] in Undefined
    ensures Dispatch(rom, s) ==
      Halted(Faulted(UnknownOpcode(Phy(s.pc, s.bank, rom.mbc), rom.raw[Phy(s.pc, s.bank, rom.mbc)])), s)
  {
    UndefinedOpcodes(rom.raw[Phy(s.pc, s.bank, rom.mbc)]);
  }

  /** STOP consumes its operand byte and moves on, but leaves no record and changes nothing else. */
  lemma ExecuteStop(rom: Rom, s: State, i: Instr)
    requires WellTyped(i) && i.entry.Stop?
    ensures Execute(rom, s, i) == Running(s.(pc := Wrap16(s.pc + 2)))
  {
  }

  /**
   * An instruction without a control transfer, or a 0xCB pair: its record
   * is added and pc advances by its length; only `addr16` may change besides.
   */
  lemma ExecuteSequential(rom: Rom, s: State, i: Instr)
    requires WellTyped(i)
    requires i.entry.Prefix? || (i.entry.Op? && i.entry.flow == Next)
    ensures var t := Execute(rom, s, i).state;
      && Execute(rom, s, i).Running?
      && t.pc == Wrap16(s.pc + Length(i.entry))
      && t == s.(catalog := Add(s.catalog, RecordOf(i)), pc := t.pc, addr16 := t.addr16)
  {
  }

  /**
   * LD A,d8, LDH (a8),A and LDH A,(a8): two-byte instructions that only move
   * data. The record is added and pc advances by two; besides `a` and `hmem`
   * nothing changes (the stack, the bank, the labels and `addr16` stay put).
   */
  lemma ExecuteDataMove(rom: Rom, s: State, i: Instr)
    requires WellTyped(i)
    requires i.entry.Op? && i.entry.flow in {LoadImm, LoadHigh, StoreHigh}
    ensures var t := Execute(rom, s, i).state;
      && Execute(rom, s, i).Running?
      && Length(i.entry) == 2
      && t.pc == Wrap16(s.pc + 2)
      && t == s.(catalog := Add(s.catalog, RecordOf(i)), pc := t.pc, a := t.a, hmem := t.hmem)
  {
  }

  /**
   * JP cc,a16 and CALL [cc,]a16: the target's physical address is labelled
   * (as a call for CALL), then a target inside the image is followed with
   * (pc + 3, bank) deferred; any other target falls through to pc + 3.
   */
  lemma ExecuteJump16(rom: Rom, s: State, i: Instr)
    requires WellTyped(i)
    requires i.entry.Op? && (i.entry.flow == JumpAbsIf || i.entry.flow == CallAbs)
    ensures var addr, t := WordOf(i.operand), Execute(rom, s, i).state;
      && Execute(rom, s, i).Running?
      && t.bank == s.bank && t.a == s.a && t.addr16 == addr
      && t.catalog == Add(s.catalog, RecordOf(i))
      && (if i.entry.flow == CallAbs
          then t.callLabels == s.callLabels + [Phy(addr, s.bank, rom.mbc)] && t.jumpLabels == s.jumpLabels
          else t.jumpLabels == s.jumpLabels + [Phy(addr, s.bank, rom.mbc)] && t.callLabels == s.callLabels)
      && (InImage(rom, s, addr) ==>
            t.pc == addr && t.stack == Push(s.stack, Continuation(Wrap16(s.pc + 3), s.bank)))
      && (!InImage(rom, s, addr) ==> t.pc == Wrap16(s.pc + 3) && t.stack == s.stack)
  {
    WellTypedOperand(i);
    PopPush(s.stack, Continuation(Wrap16(s.pc + 3), s.bank));
  }

  /**
   * JR cc,r8: the label `phy(pc + d)` is added whether or not the jump is
   * taken; the jump is taken whenever `pc + d + 2` is below 0x8000, even
   * past the end of the image, deferring (pc + 2, bank).
   */
  lemma ExecuteJump8(rom: Rom, s: State, i: Instr)
    requires WellTyped(i)
    requires i.entry.Op? && i.entry.flow == JumpRelIf
    ensures var d, t := ByteOf(i.operand), Execute(rom, s, i).state;
      && Execute(rom, s, i).Running?
      && t.bank == s.bank && t.a == s.a && t.callLabels == s.callLabels
      && t.catalog == Add(s.catalog, RecordOf(i))
      && t.jumpLabels == s.jumpLabels + [Phy(Wrap16(s.pc + Signed(d)), s.bank, rom.mbc)]
      && (RelTarget(s.pc, d) < 0x8000 ==>
            t.pc == RelTarget(s.pc, d) && t.stack == Push(s.stack, Continuation(Wrap16(s.pc + 2), s.bank)))
      && (RelTarget(s.pc, d) >= 0x8000 ==> t.pc == Wrap16(s.pc + 2) && t.stack == s.stack)
  {
    WellTypedOperand(i);
    PopPush(s.stack, Continuation(Wrap16(s.pc + 2), s.bank));
  }

  /**
   * JR r8 and JP a16: the target is labelled, then followed if it is inside
   * the image, else pc restarts at 0x100; the stack and bank are untouched.
   */
  lemma ExecuteJumpAlways(rom: Rom, s: State, i: Instr)
    requires WellTyped(i)
    requires i.entry.Op? && (i.entry.flow == JumpRel || i.entry.flow == JumpAbs)
    ensures var target := if i.entry.flow == JumpRel then RelTarget(s.pc, ByteOf(i.operand)) else WordOf(i.operand);
      var t := Execute(rom, s, i).state;
      && Execute(rom, s, i).Running?
      && t.stack == s.stack && t.bank == s.bank && t.a == s.a
      && t.catalog == Add(s.catalog, RecordOf(i))
      && t.callLabels == s.callLabels
      && t.jumpLabels == s.jumpLabels +
           [if i.entry.flow == JumpRel then RelLabel(rom, s, ByteOf(i.operand)) else Phy(target, s.bank, rom.mbc)]
      && t.pc == (if InImage(rom, s, target) then target else 0x100)
  {
    WellTypedOperand(i);
  }

  /**
   * After JR or JP the next opcode byte is inside the image unless the jump
   * restarted at 0x100: the next fetch is never cut short at the opcode
   * itself anywhere else.
   */
  lemma JumpAlwaysLandsInImage(rom: Rom, s: State, i: Instr)
    requires WellTyped(i)
    requires i.entry.Op? && (i.entry.flow == JumpRel || i.entry.flow == JumpAbs)
    ensures var t := Execute(rom, s, i).state;
      var f := Fetch(rom, t.pc, t.bank);
      && (t.pc != 0x100 ==> Phy(t.pc, t.bank, rom.mbc) < |rom.raw|)
      && (f.Failure? && f.error == Truncated(Phy(t.pc, t.bank, rom.mbc)) ==> t.pc == 0x100)
  {
    ExecuteJumpAlways(rom, s, i);
  }

  /**
   * JR cc has no image check: a taken conditional relative jump can land
   * past the end of the image, where the next opcode read is `Truncated`.
   */
  lemma ConditionalRelativeLeavesImage(rom: Rom, s: State, d: Byte)
    requires RelTarget(s.pc, d) < 0x8000
    requires Phy(RelTarget(s.pc, d), s.bank, rom.mbc) >= |rom.raw|
    ensures var t := Jmp8(s, d);
      && t.pc == RelTarget(s.pc, d)
      && Fetch(rom, t.pc, t.bank) == Failure(Truncated(Phy(t.pc, t.bank, rom.mbc)))
  {
  }

  /**
   * For instance, on a 0x150-byte image without banking, JR NZ,$7F at 0x100
   * jumps to 0x181, past the end.
   */
  lemma ConditionalRelativeExample()
    ensures var rom, s := Rom(seq(0x150, _ => 0), 0), Initial(0);
      && Jmp8(s, 0x7F).pc == 0x181
      && Fetch(rom, 0x181, s.bank) == Failure(Truncated(0x181))
  {
    var rom, s := Rom(seq(0x150, _ => 0), 0), Initial(0);
    ConditionalRelativeLeavesImage(rom, s, 0x7F);
  }

  /**
   * JP (HL) jumps to the last 16-bit operand read by any earlier
   * instruction, labels it, and defers pc + 3 (not pc + 1) like a
   * conditional jump.
   */
  lemma ExecuteJumpStale(rom: Rom, s: State, i: Instr)
    requires WellTyped(i)
    requires i.entry.Op? && i.entry.flow == JumpStale
    ensures var t := Execute(rom, s, i).state;
      && Execute(rom, s, i).Running?
      && t.addr16 == s.addr16 && t.bank == s.bank
      && t.catalog == Add(s.catalog, RecordOf(i))
      && t.jumpLabels == s.jumpLabels + [Phy(s.addr16, s.bank, rom.mbc)]
      && (InImage(rom, s, s.addr16) ==>
            t.pc == s.addr16 && t.stack == Push(s.stack, Continuation(Wrap16(s.pc + 3), s.bank)))
      && (!InImage(rom, s, s.addr16) ==> t.pc == Wrap16(s.pc + 3) && t.stack == s.stack)
  {
    WellTypedOperand(i);
    PopPush(s.stack, Continuation(Wrap16(s.pc + 3), s.bank));
  }

  /**
   * RET and RETI are recorded, then resume the top continuation, pc and
   * bank both; with nothing deferred the traversal stops on an underflow.
   */
  lemma ExecuteReturn(rom: Rom, s: State, i: Instr)
    requires WellTyped(i)
    requires i.entry.Op? && i.entry.flow == Return
    ensures var recorded := s.(catalog := Add(s.catalog, RecordOf(i)));
      && (|s.stack| == 0 ==> Execute(rom, s, i) == Halted(Underflow, recorded))
      && (|s.stack| > 0 ==>
            var c := s.stack[|s.stack| - 1];
            Execute(rom, s, i) == Running(recorded.(pc := c.pc, bank := c.bank, stack := s.stack[..|s.stack| - 1])))
  {
    WellTypedOperand(i);
  }

  /**
   * The bank-switch heuristic: LD (a16),A to 0x2000 or 0x2100 copies `a`
   * into the bank; to any other address the bank stays.
   */
  lemma ExecuteStoreBank(rom: Rom, s: State, i: Instr)
    requires WellTyped(i)
    requires i.entry.Op? && i.entry.flow == StoreBank
    ensures var addr, t := WordOf(i.operand), Execute(rom, s, i).state;
      && Execute(rom, s, i).Running?
      && t.bank == (if addr == 0x2000 || addr == 0x2100 then s.a else s.bank)
      && t.pc == Wrap16(s.pc + 3) && t.stack == s.stack && t.a == s.a
      && t.catalog == Add(s.catalog, RecordOf(i))
  {
    WellTypedOperand(i);
  }

  /**
   * Only LD A,d8 (to the operand) and LDH A,(a8) (to the `hmem` cell) change
   * `a`, only LDH (a8),A (with `a`) changes `hmem`, and only the bank
   * heuristic and the returns change the bank.
   */
  lemma ExecuteRegisters(rom: Rom, s: State, i: Instr)
    requires WellTyped(i)
    ensures var t, flow := Execute(rom, s, i).state, if i.entry.Op? then i.entry.flow else Next;
      && (t.a != s.a ==> flow == LoadImm || flow == LoadHigh)
      && (flow == LoadImm ==> t.a == ByteOf(i.operand))
      && (flow == LoadHigh ==> t.a == HighLoad(s.hmem, ByteOf(i.operand)))
      && (t.hmem != s.hmem ==> flow == StoreHigh)
      && (flow == StoreHigh ==> t.hmem == HighStore(s.hmem, ByteOf(i.operand), s.a))
      && (t.bank != s.bank ==> flow == StoreBank || flow == Return)
  {
  }

  /** `Dispatch` runs the decoded instruction, whose operand has the right shape. */
  lemma DispatchExecutes(rom: Rom, s: State)
    requires Fetch(rom, s.pc, s.bank).Success?
    ensures var i := Fetch(rom, s.pc, s.bank).value;
      && WellTyped(i)
      && (i.entry.Op? ==> i.entry.flow == FlowByOpcode(i.opcode))
      && Dispatch(rom, s) == Execute(rom, s, i)
  {
    FetchedWellTyped(rom, s.pc, s.bank);
    FlowOfOpcode(Fetch(rom, s.pc, s.bank).value.opcode);
  }

  /** STOP (0x10) adds no record. */
  lemma StopRecordsNothing(rom: Rom, s: State)
    requires Fetch(rom, s.pc, s.bank).Success?
    requires Fetch(rom, s.pc, s.bank).value.opcode == 0x10
    ensures Dispatch(rom, s) == Running(s.(pc := Wrap16(s.pc + 2)))
  {
    SpecialOpcodes(0x10);
    DispatchExecutes(rom, s);
    ExecuteStop(rom, s, Fetch(rom, s.pc, s.bank).value);
  }

  /**
   * The 0xCB prefix: the record takes its text from the extended table at
   * the next byte and is two bytes long; pc advances by two.
   */
  lemma PrefixRecord(rom: Rom, s: State)
    requires Fetch(rom, s.pc, s.bank).Success?
    requires Fetch(rom, s.pc, s.bank).value.opcode == 0xCB
    ensures var p1 := Phy(Wrap16(s.pc + 1), s.bank, rom.mbc);
      && p1 < |rom.raw|
      && Dispatch(rom, s) ==
        Running(s.(catalog := Add(s.catalog, Record(Phy(s.pc, s.bank, rom.mbc), 2, Extended(rom.raw[p1]))),
                   pc := Wrap16(s.pc + 2)))
  {
    SpecialOpcodes(0xCB);
    DispatchExecutes(rom, s);
    WellTypedOperand(Fetch(rom, s.pc, s.bank).value);
  }

  /** RET cc and RST: one byte, recorded, falling through to pc + 1 with no stack traffic. */
  lemma PlainReturnsFallThrough(rom: Rom, s: State)
    requires Fetch(rom, s.pc, s.bank).Success?
    requires Fetch(rom, s.pc, s.bank).value.opcode in
      {0xC0, 0xC8, 0xD0, 0xD8, 0xC7, 0xCF, 0xD7, 0xDF, 0xE7, 0xEF, 0xF7, 0xFF}
    ensures var t := After(rom, s);
      && Dispatch(rom, s).Running?
      && t.pc == Wrap16(s.pc + 1) && t.stack == s.stack && t.bank == s.bank
      && t.catalog == Add(s.catalog, RecordOf(Fetch(rom, s.pc, s.bank).value))
  {
    var i := Fetch(rom, s.pc, s.bank).value;
    PlainReturnsAndRestarts(i.opcode);
    DispatchExecutes(rom, s);
    ExecuteSequential(rom, s, i);
  }

  /** The bank-switch heuristic by opcode: 0xEA with the operand bytes read little-endian. */
  lemma BankSwitchHeuristic(rom: Rom, s: State)
    requires Fetch(rom, s.pc, s.bank).Success?
    requires Fetch(rom, s.pc, s.bank).value.opcode == 0xEA
    ensures var p1, p2 := Phy(Wrap16(s.pc + 1), s.bank, rom.mbc), Phy(Wrap16(s.pc + 2), s.bank, rom.mbc);
      && p1 < |rom.raw| && p2 < |rom.raw|
      && var addr := LittleEndian(rom.raw[p1], rom.raw[p2]);
      && Dispatch(rom, s).Running?
      && After(rom, s).bank == (if addr == 0x2000 || addr == 0x2100 then s.a else s.bank)
  {
    var i := Fetch(rom, s.pc, s.bank).value;
    DispatchExecutes(rom, s);
    WellTypedOperand(i);
    ExecuteStoreBank(rom, s, i);
  }

  /** Only opcodes 0xEA, 0xC9 and 0xD9 move the bank within an iteration's decoding. */
  lemma BankChangesOnlyBy(rom: Rom, s: State)
    requires Fetch(rom, s.pc, s.bank).Success?
    ensures After(rom, s).bank != s.bank ==>
      Fetch(rom, s.pc, s.bank).value.opcode in {0xEA, 0xC9, 0xD9}
  {
    var i := Fetch(rom, s.pc, s.bank).value;
    DispatchExecutes(rom, s);
    FlowByOpcodeInverse(i.opcode);
    SpecialOpcodes(i.opcode);
    ExecuteRegisters(rom, s, i);
  }

  /**
   * Opcodes 0x3E, 0xE0 and 0xF0 decode to the data moves: pc advances by two
   * and the stack, the bank, the labels and `addr16` are left as they were.
   */
  lemma DataMovesAdvance(rom: Rom, s: State)
    requires Fetch(rom, s.pc, s.bank).Success?
    requires Fetch(rom, s.pc, s.bank).value.opcode in {0x3E, 0xE0, 0xF0}
    ensures var i, t := Fetch(rom, s.pc, s.bank).value, After(rom, s);
      && Dispatch(rom, s).Running?
      && t == s.(catalog := Add(s.catalog, RecordOf(i)), pc := Wrap16(s.pc + 2), a := t.a, hmem := t.hmem)
  {
    var i := Fetch(rom, s.pc, s.bank).value;
    DispatchExecutes(rom, s);
    SpecialOpcodes(i.opcode);
    FlowByOpcodeInverse(i.opcode);
    assert i.entry.Op? && i.entry.flow in {LoadImm, LoadHigh, StoreHigh};
    ExecuteDataMove(rom, s, i);
  }

  /** Only opcodes 0x3E and 0xF0 change `a`; 0x3E sets it to the byte after the opcode. */
  lemma AccumulatorChangesOnlyBy(rom: Rom, s: State)
    requires Fetch(rom, s.pc, s.bank).Success?
    ensures After(rom, s).a != s.a ==> Fetch(rom, s.pc, s.bank).value.opcode in {0x3E, 0xF0}
    ensures Fetch(rom, s.pc, s.bank).value.opcode == 0x3E ==>
      var p1 := Phy(Wrap16(s.pc + 1), s.bank, rom.mbc);
      p1 < |rom.raw| && After(rom, s).a == rom.raw[p1]
  {
    var i := Fetch(rom, s.pc, s.bank).value;
    DispatchExecutes(rom, s);
    FlowByOpcodeInverse(i.opcode);
    SpecialOpcodes(i.opcode);
    WellTypedOperand(i);
    ExecuteRegisters(rom, s, i);
  }

  /**
   * The relative-jump label is two bytes short of the target on a cartridge
   * without banking, so it never names the jump's destination.
   */
  lemma RelLabelOffByTwo(rom: Rom, s: State, d: Byte)
    requires Unbanked(rom.mbc)
    ensures (RelTarget(s.pc, d) - RelLabel(rom, s, d)) % 0x1_0000 == 2
    ensures RelLabel(rom, s, d) != RelTarget(s.pc, d)
  {
  }

  /** Last in, first out: a taken conditional jump or call is undone by the next return. */
  lemma CallReturnRoundTrip(rom: Rom, s: State, addr: Word)
    requires InImage(rom, s, addr)
    ensures Ret(Jmp16(rom, s, addr)) == Some(s.(pc := Wrap16(s.pc + 3)))
  {
  }

  /** The same for a taken conditional relative jump: resume after its two bytes. */
  lemma RelativeReturnRoundTrip(s: State, d: Byte)
    requires RelTarget(s.pc, d) < 0x8000
    ensures Ret(Jmp8(s, d)) == Some(s.(pc := Wrap16(s.pc + 2)))
  {
  }
}
