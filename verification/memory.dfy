/**
 * The address translator: from a 16-bit virtual address and the current
 * ROM bank to an offset into the cartridge image.
 */
module Memory {
  import opened Bits

  /** Controller-type bytes the translator treats as "ROM only": no banking. */
  predicate Unbanked(mbc: Byte) {
    mbc == 0x00 || mbc == 0x08 || mbc == 0x09
  }

  /**
   * Every value the engine's `bank` variable can hold. The source declares it
   * `int`, but it is only ever assigned 1 or a copy of the 8-bit register `a`.
   */
  type Bank = b: int | 0 <= b < 0x100

  const BankSize: nat := 0x4000

  /**
   * `phy`: identity without banking and in the fixed first 16 KiB; the
   * switchable window otherwise reads from bank `bank`. The `int` sum is
   * returned as a `uint32_t`, hence the wrap. Any `bank` is accepted, as in
   * the source; the lemmas below say what happens for the banks that occur.
   */
  function Phy(addr: Word, bank: int, mbc: Byte): (p: nat)
    ensures p < 0x1_0000_0000
    ensures p != addr ==> !Unbanked(mbc) && addr >= BankSize
  {
    if Unbanked(mbc) then addr
    else if addr < BankSize then addr
    else Wrap32((bank - 1) * BankSize + addr)
  }

  /** For every bank the engine can hold, the `uint32_t` conversion never wraps. */
  lemma PhyTranslation(addr: Word, bank: Bank, mbc: Byte)
    ensures Phy(addr, bank, mbc) ==
      if Unbanked(mbc) || addr < BankSize then addr else (bank - 1) * BankSize + addr
  {
  }

  /** The fixed region and unbanked cartridges do not depend on the bank. */
  lemma PhyIgnoresBank(addr: Word, bank: int, bank': int, mbc: Byte)
    requires Unbanked(mbc) || addr < BankSize
    ensures Phy(addr, bank, mbc) == Phy(addr, bank', mbc) == addr
  {
  }

  /** The bank a physical offset lies in. */
  function BankOf(p: nat): nat {
    p / BankSize
  }

  /** The address in the switchable window that shows physical offset `p`. */
  function WindowAddress(p: nat): (addr: Word)
    ensures BankSize <= addr < 2 * BankSize
  {
    BankSize + p % BankSize
  }

  /**
   * Through the window, a banked cartridge reads bank `bank` at the same
   * offset within the bank; `WindowAddress` recovers the virtual address.
   */
  lemma {:induction false} WindowRoundTrip(addr: Word, bank: Bank, mbc: Byte)
    requires !Unbanked(mbc)
    requires BankSize <= addr < 2 * BankSize
    requires bank >= 1
    ensures BankOf(Phy(addr, bank, mbc)) == bank
    ensures WindowAddress(Phy(addr, bank, mbc)) == addr
  {
    PhyTranslation(addr, bank, mbc);
    var p := Phy(addr, bank, mbc);
    assert p == bank * BankSize + (addr - BankSize);
    assert 0 <= addr - BankSize < BankSize;
  }

  /**
   * Bank 0 in the window aliases the fixed region: the source does not map it
   * to bank 1 as the hardware controllers do.
   */
  lemma BankZeroAliasesFixed(addr: Word, mbc: Byte)
    requires !Unbanked(mbc)
    requires BankSize <= addr < 2 * BankSize
    ensures Phy(addr, 0, mbc) == addr - BankSize == Phy(addr - BankSize, 0, mbc)
  {
  }
}
