/** Addresses and page-table entries of kernel/riscv.h, as Sv39 lays them out (section 4.4 of the RISC-V
    Privileged Architecture, version 20211203), in terms of page numbers. */
module Sv39 {
  const PGSIZE: nat := 4096
  const ENTRIES: nat := 512
  const MAXVA: nat := 0x40_0000_0000
  /** Page numbers below MAXVA, and the two page-number prefixes a walk goes through. */
  const MAXVPN: nat := 0x400_0000
  const MAXHI: nat := 0x2_0000
  const MAXTOP: nat := 0x100

  const PTE_V: nat := 1
  const PTE_R: nat := 2
  const PTE_W: nat := 4
  const PTE_X: nat := 8
  const PTE_U: nat := 16

  /** An entry split into its page number and its ten flag bits. */
  datatype Pte = Pte(ppn: nat, flags: nat)

  const NONE: Pte := Pte(0, 0)

  predicate Valid(e: Pte) { e.flags % 2 == 1 }

  /** One of R, W and X is set. */
  predicate Leaf(e: Pte) { e.flags / 2 % 8 != 0 }

  function Dir(p: nat): Pte { Pte(p, PTE_V) }

  // ---------- the encoded forms ----------

  function PGROUNDUP(sz: nat): (r: nat)
    ensures r % PGSIZE == 0 && sz <= r < sz + PGSIZE
  {
    (sz + PGSIZE - 1) / PGSIZE * PGSIZE
  }

  function PA2PTE(pa: nat): nat { pa / 4096 * 1024 }

  function PTE2PA(e: nat): nat { e / 1024 * 4096 }

  function PTE_FLAGS(e: nat): nat { e % 1024 }

  /** perm | PTE_V */
  function WithValid(perm: nat): nat { if perm % 2 == 1 then perm else perm + 1 }

  function PX(level: nat, va: nat): nat
    requires level <= 2
  {
    va / (if level == 0 then 4096 else if level == 1 then 0x20_0000 else 0x4000_0000) % 512
  }

  /** An entry built from a page address and permission bits gives both back. */
  lemma PteRoundTrip(pa: nat, perm: nat)
    requires pa % PGSIZE == 0 && perm < 1024
    ensures var e := PA2PTE(pa) + WithValid(perm);
            PTE2PA(e) == pa && PTE_FLAGS(e) == WithValid(perm) && e % 2 == 1
  {
    Digits(pa / 4096, WithValid(perm));
  }

  lemma Digits(k: nat, f: nat)
    requires f < 1024
    ensures (k * 1024 + f) / 1024 == k && (k * 1024 + f) % 1024 == f && (k * 1024 + f) % 2 == f % 2
  {
  }

  /** The three indices of a walk are the digits of the page number in base 512. */
  lemma PxDigits(va: nat)
    requires va < MAXVA
    ensures var vpn := va / PGSIZE;
            vpn < MAXVPN && PX(0, va) == vpn % 512 && PX(1, va) == vpn / 512 % 512
                && PX(2, va) == vpn / 512 / 512 < MAXTOP
  {
  }

  /** Two addresses that agree on all three indices are on the same page. */
  lemma PxInjective(va: nat, wa: nat)
    requires va < MAXVA && wa < MAXVA && forall level: nat :: level <= 2 ==> PX(level, va) == PX(level, wa)
    ensures va / PGSIZE == wa / PGSIZE
  {
    PxDigits(va);
    PxDigits(wa);
    assert PX(0, va) == PX(0, wa) && PX(1, va) == PX(1, wa) && PX(2, va) == PX(2, wa);
  }
}
