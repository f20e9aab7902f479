/** Restricted access of zones to the GICv2 distributor (src/device/irqchip/gicv2/vgic.rs).  A word is the set of the
    positions of its one bits, so `&`, `|` and `& !` are intersection, union and difference. */
module Distributor {
  import opened Options

  type Word = set<nat>

  /** What the banked registers of section 4.3 of Arm IHI 0048B hold; set- and clear-registers show the same bits. */
  datatype Bank = Group | Enable | Pending | Active | Priority | Target | Config

  datatype Cell = Cell(bank: Bank, index: nat)

  datatype State = State(regs: map<Cell, Word>)

  /** How the hardware takes a 32-bit write. */
  datatype Effect = Store | SetOnes | ClearOnes

  datatype Route = Route(cell: Cell, bitsPerIrq: nat, effect: Effect)

  /** An access by a guest, relative to the distributor. */
  datatype Access = Access(address: nat, size: nat, isWrite: bool, value: Word)

  function Get(s: State, cell: Cell): Word
  {
    if cell in s.regs then s.regs[cell] else {}
  }

  /** The one bits of a 32-bit bus word. */
  function Low32(w: Word): Word
  {
    set p | p in w && p < 32
  }

  function HardwareWrite(s: State, route: Route, w: Word): State
  {
    var before := Get(s, route.cell);
    var bits := match route.effect
      case Store => Low32(w)
      case SetOnes => before + Low32(w)
      case ClearOnes => before - Low32(w);
    s.(regs := s.regs[route.cell := bits])
  }

  /** `reg_range(base, n, 4).contains(reg)`: the last register is not in the range. */
  predicate InRange(reg: nat, base: nat, n: nat)
  {
    base <= reg < base + (n - 1) * 4
  }

  /** The arms of `vgicv2_dist_handler` that restrict the access; `None` for the others. */
  function Dispatch(reg: nat): Option<Route>
  {
    if InRange(reg, 0x800, 256) then Some(Route(Cell(Target, reg % 0x400 / 4), 8, Store))
    else if InRange(reg, 0x180, 32) then Some(Route(Cell(Enable, reg % 0x80 / 4), 1, ClearOnes))
    else if InRange(reg, 0x100, 32) then Some(Route(Cell(Enable, reg % 0x80 / 4), 1, SetOnes))
    else if InRange(reg, 0x280, 32) then Some(Route(Cell(Pending, reg % 0x80 / 4), 1, ClearOnes))
    else if InRange(reg, 0x200, 32) then Some(Route(Cell(Pending, reg % 0x80 / 4), 1, SetOnes))
    else if InRange(reg, 0x380, 32) then Some(Route(Cell(Active, reg % 0x80 / 4), 1, ClearOnes))
    else if InRange(reg, 0x300, 32) then Some(Route(Cell(Active, reg % 0x80 / 4), 1, SetOnes))
    else if InRange(reg, 0x80, 32) then Some(Route(Cell(Group, reg % 0x80 / 4), 1, Store))
    else if InRange(reg, 0xC00, 64) then Some(Route(Cell(Config, reg % 0x100 / 4), 2, Store))
    else if InRange(reg, 0x400, 256) then Some(Route(Cell(Priority, reg % 0x400 / 4), 8, Store))
    else None
  }

  /** The registers that `vgicv2_dist_misc_access` reads for the guest; a write to them is ignored. */
  predicate Identifies(reg: nat)
  {
    reg in {0, 4, 8} || InRange(reg, 0xFE0, 12)
  }

  /** The addresses at which the handler ends in `todo!()`. */
  predicate Unhandled(reg: nat)
  {
    Dispatch(reg).None? && reg != 0xF00 && !Identifies(reg)
  }

  /** Among the registers of single interrupts an access panics exactly at the last register of each bank. */
  lemma LastRegistersPanic(reg: nat)
    requires 0x80 <= reg < 0xD00
    ensures Unhandled(reg) <==>
            if reg < 0x400 then reg % 0x80 >= 0x7C else if reg < 0xC00 then reg % 0x400 >= 0x3FC else reg >= 0xCFC
  {
    if reg < 0x400 {
      BitRegisters(reg, reg / 0x80);
    }
  }

  lemma BitRegisters(reg: nat, k: nat)
    requires k == reg / 0x80 && 1 <= k < 8
    ensures Dispatch(reg).None? <==> reg % 0x80 >= 0x7C
  {
    assert reg == 0x80 * k + reg % 0x80;
  }

  function BitsPerIrq(bank: Bank): nat
  {
    match bank
    case Priority => 8
    case Target => 8
    case Config => 2
    case _ => 1
  }

  /** The interrupt to which bit `p` of a register belongs. */
  function IrqOf(bitsPerIrq: nat, index: nat, p: nat): nat
  {
    if bitsPerIrq == 8 then index * 4 + p / 8 else if bitsPerIrq == 2 then index * 16 + p / 2 else index * 32 + p
  }

  /** The bits of the register that belong to interrupts of the zone. */
  predicate InZone(zone: set<nat>, bitsPerIrq: nat, index: nat, p: nat)
  {
    p < 32 && IrqOf(bitsPerIrq, index, p) in zone
  }

  /** The bits of the register in the bytes that the access names. */
  predicate InBytes(address: nat, size: nat, p: nat)
  {
    p < 32 && (p / 8 + 4 - address % 4) % 4 < size
  }

  lemma NextByte(address: nat, offset: nat, p: nat)
    ensures InBytes(address, offset + 1, p) <==>
            InBytes(address, offset, p) || (address + offset) % 4 * 8 <= p < (address + offset) % 4 * 8 + 8
  {
    var k := (address + offset) % 4;
    assert k == (address % 4 + offset % 4) % 4;
    if p < 32 && offset < 4 {
      assert p / 8 == k <==> (p / 8 + 4 - address % 4) % 4 == offset;
    }
  }

  predicate Permitted(zone: set<nat>, route: Route, a: Access, p: nat)
  {
    InZone(zone, route.bitsPerIrq, route.cell.index, p) && InBytes(a.address, a.size, p)
  }

  function Mask(zone: set<nat>, route: Route, a: Access): (m: Word)
    ensures forall p: nat :: p in m <==> Permitted(zone, route, a, p)
  {
    set p: nat | 0 <= p < 32 && Permitted(zone, route, a, p)
  }

  function Ones(n: nat): (r: Word)
    ensures forall p: nat :: p in r <==> p < n
  {
    if n == 0 then {} else Ones(n - 1) + {n - 1}
  }

  function ShiftLeft(w: Word, n: nat): (r: Word)
    ensures forall p: nat :: p in r <==> p >= n && p - n in w
  {
    set p | p in w :: p + n
  }

  function ShiftRight(w: Word, n: nat): (r: Word)
    ensures forall p: nat :: p in r <==> p + n in w
  {
    set p | p in w && p >= n :: p - n
  }

  /** `restrict_bitmask_access`: the new state, and the value that a read shows. */
  function Restrict(s: State, zone: set<nat>, route: Route, a: Access): (State, Word)
  {
    var mask := Mask(zone, route, a);
    var shift := a.address % 4 * 8;
    var value := ShiftLeft(a.value, shift);
    if !a.isWrite then (s, ShiftRight(Get(s, route.cell) * mask, shift))
    else if route.effect == Store then
      var merged := (Get(s, route.cell) - mask) + (value * mask);
      (HardwareWrite(s, route, merged), merged)
    else (HardwareWrite(s, route, value * mask), value * mask)
  }

  /** `vgicv2_dist_handler` on the restricted registers; what the others hold is not about single interrupts. */
  function Perform(s: State, zone: set<nat>, a: Access): (State, Word)
  {
    match Dispatch(a.address)
    case Some(route) => Restrict(s, zone, route, a)
    case None => (s, {})
  }

  // The code.

  class Dist {
    var regs: map<Cell, Word>

    function Value(): State
      reads this
    {
      State(regs)
    }

    method PerformWrite(route: Route, w: Word)
      modifies this
      ensures Value() == HardwareWrite(old(Value()), route, w)
    {
      regs := HardwareWrite(Value(), route, w).regs;
    }

    /** The loop over the interrupts of one register. */
    method ZoneMask(zone: set<nat>, bitsPerIrq: nat, index: nat) returns (mask: Word)
      requires bitsPerIrq in {1, 2, 8}
      ensures forall p: nat :: p in mask <==> InZone(zone, bitsPerIrq, index, p)
    {
      mask := {};
      var irqs := if bitsPerIrq == 8 then 4 else if bitsPerIrq == 2 then 16 else 32;
      var field := Ones(bitsPerIrq);
      var irq := 0;
      while irq < irqs
        invariant 0 <= irq <= irqs
        invariant forall p: nat :: p in mask <==> p < bitsPerIrq * irq && InZone(zone, bitsPerIrq, index, p)
      {
        if index * irqs + irq in zone {
          mask := mask + ShiftLeft(field, irq * bitsPerIrq);
        }
        irq := irq + 1;
      }
    }

    /** The loop over the bytes of the access. */
    method ByteMask(address: nat, size: nat) returns (mask: Word)
      ensures forall p: nat :: p in mask <==> InBytes(address, size, p)
    {
      mask := {};
      var byte := Ones(8);
      var offset := 0;
      while offset < size
        invariant 0 <= offset <= size
        invariant forall p: nat :: p in mask <==> InBytes(address, offset, p)
      {
        var next := ShiftLeft(byte, (address + offset) % 4 * 8);
        forall p: nat
          ensures p in mask + next <==> InBytes(address, offset + 1, p)
        {
          NextByte(address, offset, p);
        }
        mask := mask + next;
        offset := offset + 1;
      }
    }

    method RestrictBitmaskAccess(zone: set<nat>, route: Route, a: Access) returns (value: Word)
      requires route.bitsPerIrq in {1, 2, 8}
      modifies this
      ensures (Value(), value) == Restrict(old(Value()), zone, route, a)
    {
      var accessMask := ZoneMask(zone, route.bitsPerIrq, route.cell.index);
      var otherMask := ByteMask(a.address, a.size);
      accessMask := accessMask * otherMask;
      assert accessMask == Mask(zone, route, a);
      var shift := a.address % 4 * 8;
      value := ShiftLeft(a.value, shift);
      if !a.isWrite {
        value := Get(Value(), route.cell);
        value := value * accessMask;
        value := ShiftRight(value, shift);
        return;
      }
      if route.effect == Store {
        var accessVal := value;
        value := Get(Value(), route.cell);
        value := value - accessMask;
        value := value + (accessVal * accessMask);
        PerformWrite(route, value);
      } else {
        value := value * accessMask;
        PerformWrite(route, value);
      }
    }

    method DistHandler(zone: set<nat>, a: Access) returns (panics: bool, value: Word)
      modifies this
      ensures (Value(), value) == Perform(old(Value()), zone, a)
      ensures panics <==> Unhandled(a.address)
    {
      panics, value := false, {};
      match Dispatch(a.address)
      case Some(route) =>
        value := RestrictBitmaskAccess(zone, route, a);
      case None =>
        panics := a.address != 0xF00 && !Identifies(a.address);
    }
  }

  // What an access does to every bit of every register.

  predicate RegsOk(s: State)
  {
    forall cell | cell in s.regs :: forall p | p in s.regs[cell] :: p < 32
  }

  /** The bit of the register that the written value asks for. */
  predicate Written(a: Access, p: nat)
  {
    p >= a.address % 4 * 8 && p - a.address % 4 * 8 in a.value
  }

  predicate NewBit(effect: Effect, before: bool, written: bool)
  {
    match effect
    case Store => written
    case SetOnes => before || written
    case ClearOnes => before && !written
  }

  /** A write changes exactly the bits of the zone's interrupts in the bytes of the access, to the written value or by
      the effect of the poke; every other bit of every register stays. */
  lemma WriteBits(s: State, zone: set<nat>, route: Route, a: Access, cell: Cell, p: nat)
    requires RegsOk(s) && a.isWrite
    ensures RegsOk(Restrict(s, zone, route, a).0)
    ensures p in Get(Restrict(s, zone, route, a).0, cell) <==>
            if cell == route.cell && Permitted(zone, route, a, p)
            then NewBit(route.effect, p in Get(s, cell), Written(a, p))
            else p in Get(s, cell)
  {
  }

  /** A read changes nothing and shows exactly the bits of the zone's interrupts in the bytes of the access. */
  lemma ReadBits(s: State, zone: set<nat>, route: Route, a: Access, q: nat)
    requires !a.isWrite
    ensures Restrict(s, zone, route, a).0 == s
    ensures q in Restrict(s, zone, route, a).1 <==>
            var p := q + a.address % 4 * 8; Permitted(zone, route, a, p) && p in Get(s, route.cell)
  {
  }

  /** A naturally aligned access of 1, 2 or 4 bytes names exactly its own bytes. */
  lemma AlignedBytes(a: Access, p: nat)
    requires a.size in {1, 2, 4} && a.address % a.size == 0
    ensures InBytes(a.address, a.size, p) <==> a.address % 4 * 8 <= p < (a.address % 4 + a.size) * 8
  {
    if a.size == 2 {
      assert a.address % 4 in {0, 2};
    } else if a.size == 4 {
      assert a.address % 4 == 0;
    }
  }

  lemma DispatchWidth(reg: nat)
    ensures Dispatch(reg).Some? ==> Dispatch(reg).value.bitsPerIrq == BitsPerIrq(Dispatch(reg).value.cell.bank)
  {
  }

  // The register map, by address.

  /** The registers of single interrupts, but for the last of each bank: the bank, where it begins, and what a write
      does (sections 4.3.4 to 4.3.13 of Arm IHI 0048B). */
  predicate RegisterAt(address: nat, bank: Bank, base: nat, effect: Effect)
  {
    || (0x080 <= address < 0x0FC && bank == Group && base == 0x080 && effect == Store)
    || (0x100 <= address < 0x17C && bank == Enable && base == 0x100 && effect == SetOnes)
    || (0x180 <= address < 0x1FC && bank == Enable && base == 0x180 && effect == ClearOnes)
    || (0x200 <= address < 0x27C && bank == Pending && base == 0x200 && effect == SetOnes)
    || (0x280 <= address < 0x2FC && bank == Pending && base == 0x280 && effect == ClearOnes)
    || (0x300 <= address < 0x37C && bank == Active && base == 0x300 && effect == SetOnes)
    || (0x380 <= address < 0x3FC && bank == Active && base == 0x380 && effect == ClearOnes)
    || (0x400 <= address < 0x7FC && bank == Priority && base == 0x400 && effect == Store)
    || (0x800 <= address < 0xBFC && bank == Target && base == 0x800 && effect == Store)
    || (0xC00 <= address < 0xCFC && bank == Config && base == 0xC00 && effect == Store)
  }

  /** These addresses, and no others, are restricted to the interrupts of the zone. */
  lemma DispatchIs(address: nat)
    ensures Dispatch(address).Some? <==> exists bank, base, effect :: RegisterAt(address, bank, base, effect)
    ensures forall bank, base, effect | RegisterAt(address, bank, base, effect) ::
              Dispatch(address) == Some(Route(Cell(bank, (address - base) / 4), BitsPerIrq(bank), effect))
  {
    if Dispatch(address).Some? {
      var cell, effect := Dispatch(address).value.cell, Dispatch(address).value.effect;
      assert RegisterAt(address, cell.bank, address - address % (if address < 0x400 then 0x80 else 0x400), effect);
    }
    forall bank, base, effect | RegisterAt(address, bank, base, effect)
      ensures Dispatch(address) == Some(Route(Cell(bank, (address - base) / 4), BitsPerIrq(bank), effect))
    {
      RegisterRoute(address, bank, base, effect);
    }
  }

  lemma RegisterRoute(address: nat, bank: Bank, base: nat, effect: Effect)
    requires RegisterAt(address, bank, base, effect)
    ensures Dispatch(address) == Some(Route(Cell(bank, (address - base) / 4), BitsPerIrq(bank), effect))
  {
    var o := address - base;
    if address < 0x400 {
      assert address % 0x80 == o;
    } else if address < 0xC00 {
      assert address % 0x400 == o;
    } else {
      assert address % 0x100 == o;
    }
  }

  /** Where bit `k` of the field of interrupt `irq` is in its bank: all fields of a bank follow each other. */
  function FieldAt(bank: Bank, irq: nat, k: nat): nat
  {
    match bank
    case Priority => 8 * irq + k
    case Target => 8 * irq + k
    case Config => 2 * irq + k
    case _ => irq + k
  }

  predicate FieldBit(s: State, bank: Bank, irq: nat, k: nat)
  {
    FieldAt(bank, irq, k) % 32 in Get(s, Cell(bank, FieldAt(bank, irq, k) / 32))
  }

  /** The place of that bit in an access that begins `offset` bytes into the bank. */
  function PlaceOf(bank: Bank, irq: nat, k: nat, offset: nat): int
  {
    FieldAt(bank, irq, k) - offset * 8
  }

  lemma PlaceIs(bank: Bank, irq: nat, k: nat, offset: nat, size: nat)
    requires k < BitsPerIrq(bank) && size in {1, 2, 4} && offset % size == 0
    ensures var n := FieldAt(bank, irq, k);
            && IrqOf(BitsPerIrq(bank), n / 32, n % 32) == irq
            && (0 <= n - offset * 8 < size * 8 <==> n / 32 == offset / 4 && InBytes(offset, size, n % 32))
            && (n / 32 == offset / 4 ==> n % 32 - offset % 4 * 8 == n - offset * 8)
  {
    var n := FieldAt(bank, irq, k);
    FieldPlace(bank, irq, k);
    assert offset % 4 + size <= 4 by {
      if size == 2 {
        assert offset % 4 in {0, 2};
      } else if size == 4 {
        assert offset % 4 == 0;
      }
    }
  }

  lemma FieldPlace(bank: Bank, irq: nat, k: nat)
    requires k < BitsPerIrq(bank)
    ensures var n := FieldAt(bank, irq, k); IrqOf(BitsPerIrq(bank), n / 32, n % 32) == irq
  {
    var n := FieldAt(bank, irq, k);
    if BitsPerIrq(bank) == 8 {
      assert n / 32 == irq / 4 && n % 32 == irq % 4 * 8 + k;
    } else if BitsPerIrq(bank) == 2 {
      assert n / 32 == irq / 16 && n % 32 == irq % 16 * 2 + k;
    }
  }

  /** Whether the access reaches the field's bit, by registers and by places. */
  lemma PermittedIs(zone: set<nat>, a: Access, route: Route, offset: nat, irq: nat, k: nat)
    requires a.size in {1, 2, 4} && offset % a.size == 0 && offset % 4 == a.address % 4
    requires route.cell.index == offset / 4 && route.bitsPerIrq == BitsPerIrq(route.cell.bank) && k < route.bitsPerIrq
    ensures var n, place := FieldAt(route.cell.bank, irq, k), PlaceOf(route.cell.bank, irq, k, offset);
            && (n / 32 == offset / 4 && Permitted(zone, route, a, n % 32) <==>
                irq in zone && 0 <= place < a.size * 8)
            && (n / 32 == offset / 4 && 0 <= place ==> (Written(a, n % 32) <==> place in a.value))
  {
    var n := FieldAt(route.cell.bank, irq, k);
    PlaceIs(route.cell.bank, irq, k, offset, a.size);
    assert InBytes(offset, a.size, n % 32) == InBytes(a.address, a.size, n % 32);
  }

  lemma FieldWrite(s: State, zone: set<nat>, a: Access, route: Route, offset: nat, other: Bank, irq: nat, k: nat)
    requires RegsOk(s) && a.isWrite && a.size in {1, 2, 4} && offset % a.size == 0 && offset % 4 == a.address % 4
    requires route.cell.index == offset / 4 && route.bitsPerIrq == BitsPerIrq(route.cell.bank) && k < BitsPerIrq(other)
    ensures var place := PlaceOf(other, irq, k, offset);
            FieldBit(Restrict(s, zone, route, a).0, other, irq, k) <==>
            if other == route.cell.bank && irq in zone && 0 <= place < a.size * 8
            then NewBit(route.effect, FieldBit(s, other, irq, k), place in a.value)
            else FieldBit(s, other, irq, k)
  {
    var n := FieldAt(other, irq, k);
    WriteBits(s, zone, route, a, Cell(other, n / 32), n % 32);
    if other == route.cell.bank {
      PermittedIs(zone, a, route, offset, irq, k);
      assert Cell(other, n / 32) == route.cell <==> n / 32 == offset / 4;
    } else {
      assert Cell(other, n / 32) != route.cell;
    }
  }

  lemma FieldRead(s: State, zone: set<nat>, a: Access, route: Route, offset: nat, irq: nat, k: nat)
    requires !a.isWrite && a.size in {1, 2, 4} && offset % a.size == 0 && offset % 4 == a.address % 4
    requires route.cell.index == offset / 4 && route.bitsPerIrq == BitsPerIrq(route.cell.bank)
    requires k < route.bitsPerIrq && 0 <= PlaceOf(route.cell.bank, irq, k, offset) < a.size * 8
    ensures PlaceOf(route.cell.bank, irq, k, offset) in Restrict(s, zone, route, a).1 <==>
            irq in zone && FieldBit(s, route.cell.bank, irq, k)
  {
    var bank := route.cell.bank;
    var n := FieldAt(bank, irq, k);
    PlaceIs(bank, irq, k, offset, a.size);
    assert InBytes(offset, a.size, n % 32) == InBytes(a.address, a.size, n % 32);
    ReadBits(s, zone, route, a, PlaceOf(bank, irq, k, offset));
  }

  lemma RouteIs(address: nat, size: nat, bank: Bank, base: nat, effect: Effect) returns (route: Route)
    requires RegisterAt(address, bank, base, effect) && size in {1, 2, 4} && address % size == 0
    ensures Dispatch(address) == Some(route)
    ensures route == Route(Cell(bank, (address - base) / 4), BitsPerIrq(bank), effect)
    ensures base <= address && (address - base) % size == 0 && (address - base) % 4 == address % 4
  {
    DispatchIs(address);
    route := Dispatch(address).value;
    var k := base / 0x80;
    Offsets(address, size, base, k);
  }

  lemma Offsets(address: nat, size: nat, base: nat, k: nat)
    requires base == 0x80 * k && base <= address && size in {1, 2, 4} && address % size == 0
    ensures (address - base) % size == 0 && (address - base) % 4 == address % 4
  {
    var offset := address - base;
    assert address == offset + 4 * (32 * k);
    if size == 2 {
      assert address == offset + 2 * (64 * k);
    }
  }

  /** A write by a zone, interrupt by interrupt: a bit of one of its interrupts that lies in the access becomes the
      written bit, or is set or cleared by a one; every other bit of every bank stays. */
  lemma WriteIs(s: State, zone: set<nat>, a: Access, bank: Bank, base: nat, effect: Effect, other: Bank, irq: nat,
                k: nat)
    requires RegsOk(s) && a.isWrite && a.size in {1, 2, 4} && a.address % a.size == 0
    requires RegisterAt(a.address, bank, base, effect) && k < BitsPerIrq(other)
    ensures var place, before := PlaceOf(other, irq, k, a.address - base), FieldBit(s, other, irq, k);
            FieldBit(Perform(s, zone, a).0, other, irq, k) <==>
            if other != bank || irq !in zone || place < 0 || place >= a.size * 8 then before
            else if effect == Store then place in a.value
            else if effect == SetOnes then before || place in a.value
            else before && place !in a.value
  {
    var route := RouteIs(a.address, a.size, bank, base, effect);
    FieldWrite(s, zone, a, route, a.address - base, other, irq, k);
  }

  /** A read by a zone: bit by bit the fields of its interrupts that lie in the access. */
  lemma ReadIs(s: State, zone: set<nat>, a: Access, bank: Bank, base: nat, effect: Effect, irq: nat, k: nat)
    requires !a.isWrite && a.size in {1, 2, 4} && a.address % a.size == 0
    requires RegisterAt(a.address, bank, base, effect) && k < BitsPerIrq(bank)
    ensures Perform(s, zone, a).0 == s
    ensures var place := PlaceOf(bank, irq, k, a.address - base);
            0 <= place < a.size * 8 ==>
              (place in Perform(s, zone, a).1 <==> irq in zone && FieldBit(s, bank, irq, k))
  {
    var route := RouteIs(a.address, a.size, bank, base, effect);
    if 0 <= PlaceOf(bank, irq, k, a.address - base) < a.size * 8 {
      FieldRead(s, zone, a, route, a.address - base, irq, k);
    }
  }

  // Zones do not disturb each other.

  /** The two states hold the same about every shared interrupt (SPI) of the zone. */
  ghost predicate Agree(s: State, t: State, zone: set<nat>)
  {
    forall cell: Cell, p: nat | p < 32 && SpiBit(zone, cell, p) :: p in Get(s, cell) <==> p in Get(t, cell)
  }

  predicate SpiBit(zone: set<nat>, cell: Cell, p: nat)
  {
    var irq := IrqOf(BitsPerIrq(cell.bank), cell.index, p);
    irq >= 32 && irq in zone
  }

  predicate DisjointSpis(a: set<nat>, b: set<nat>)
  {
    forall irq | irq in a && irq in b :: irq < 32
  }

  lemma PerformKeepsRegs(s: State, zone: set<nat>, a: Access)
    requires RegsOk(s)
    ensures RegsOk(Perform(s, zone, a).0)
  {
  }

  /** An access by another zone is invisible. */
  lemma OtherInvisible(s: State, mine: set<nat>, other: set<nat>, a: Access)
    requires RegsOk(s) && DisjointSpis(mine, other)
    ensures Agree(s, Perform(s, other, a).0, mine)
  {
    DispatchWidth(a.address);
    forall cell: Cell, p: nat | p < 32 && SpiBit(mine, cell, p)
      ensures p in Get(s, cell) <==> p in Get(Perform(s, other, a).0, cell)
    {
      if Dispatch(a.address).Some? && a.isWrite {
        WriteBits(s, other, Dispatch(a.address).value, a, cell, p);
      }
    }
  }

  /** A zone's own access has the same effect on its interrupts in states that agree on them. */
  lemma OwnAgrees(s: State, t: State, mine: set<nat>, a: Access)
    requires RegsOk(s) && RegsOk(t) && Agree(s, t, mine)
    ensures Agree(Perform(s, mine, a).0, Perform(t, mine, a).0, mine)
  {
    DispatchWidth(a.address);
    forall cell: Cell, p: nat | p < 32 && SpiBit(mine, cell, p)
      ensures p in Get(Perform(s, mine, a).0, cell) <==> p in Get(Perform(t, mine, a).0, cell)
    {
      if Dispatch(a.address).Some? && a.isWrite {
        WriteBits(s, mine, Dispatch(a.address).value, a, cell, p);
        WriteBits(t, mine, Dispatch(a.address).value, a, cell, p);
      }
    }
  }

  /** The register holds SPIs only (a register never mixes them with private interrupts). */
  predicate SpiRegister(route: Route)
  {
    IrqOf(route.bitsPerIrq, route.cell.index, 0) >= 32
  }

  /** A zone's reads of SPI registers show the same in states that agree on its interrupts. */
  lemma ReadAgrees(s: State, t: State, mine: set<nat>, a: Access)
    requires Agree(s, t, mine) && !a.isWrite && Dispatch(a.address).Some? && SpiRegister(Dispatch(a.address).value)
    ensures Perform(s, mine, a).1 == Perform(t, mine, a).1
  {
    DispatchWidth(a.address);
    var route := Dispatch(a.address).value;
    forall q: nat
      ensures q in Perform(s, mine, a).1 <==> q in Perform(t, mine, a).1
    {
      ReadBits(s, mine, route, a, q);
      ReadBits(t, mine, route, a, q);
      var p := q + a.address % 4 * 8;
      if Permitted(mine, route, a, p) {
        assert SpiBit(mine, route.cell, p);
      }
    }
  }

  datatype Action = Action(zone: nat, access: Access)

  function Exec(s: State, zones: seq<set<nat>>, actions: seq<Action>): State
    decreases |actions|
  {
    if actions == [] then s
    else
      var a := actions[0];
      Exec(if a.zone < |zones| then Perform(s, zones[a.zone], a.access).0 else s, zones, actions[1..])
  }

  /** The actions of one zone, in order. */
  function Only(actions: seq<Action>, me: nat): seq<Action>
  {
    if actions == [] then []
    else (if actions[0].zone == me then [actions[0]] else []) + Only(actions[1..], me)
  }

  /** Non-interference: whatever the other zones do and however the accesses interleave, the state of a zone's SPIs is
      what its own accesses alone would have made of it. */
  lemma {:induction false} ZonesDoNotInterfere(s: State, t: State, zones: seq<set<nat>>, actions: seq<Action>, me: nat)
    requires RegsOk(s) && RegsOk(t) && me < |zones| && Agree(s, t, zones[me])
    requires forall z: nat | z < |zones| && z != me :: DisjointSpis(zones[me], zones[z])
    ensures Agree(Exec(s, zones, actions), Exec(t, zones, Only(actions, me)), zones[me])
    decreases |actions|
  {
    if actions != [] {
      var a, rest := actions[0], actions[1..];
      if a.zone == me {
        OwnAgrees(s, t, zones[me], a.access);
        PerformKeepsRegs(s, zones[me], a.access);
        PerformKeepsRegs(t, zones[me], a.access);
        assert Only(actions, me)[1..] == Only(rest, me);
        ZonesDoNotInterfere(Perform(s, zones[me], a.access).0, Perform(t, zones[me], a.access).0, zones, rest, me);
      } else {
        assert Only(actions, me) == Only(rest, me);
        var s' := if a.zone < |zones| then Perform(s, zones[a.zone], a.access).0 else s;
        if a.zone < |zones| {
          OtherInvisible(s, zones[me], zones[a.zone], a.access);
          PerformKeepsRegs(s, zones[a.zone], a.access);
        }
        ZonesDoNotInterfere(s', t, zones, rest, me);
      }
    }
  }

  /** Nor can a zone see what the others do: after any run, a read of an SPI register shows what it would show if only
      the zone's own accesses had happened. */
  lemma ReadsDoNotInterfere(s: State, zones: seq<set<nat>>, actions: seq<Action>, me: nat, a: Access)
    requires RegsOk(s) && me < |zones|
    requires forall z: nat | z < |zones| && z != me :: DisjointSpis(zones[me], zones[z])
    requires !a.isWrite && Dispatch(a.address).Some? && SpiRegister(Dispatch(a.address).value)
    ensures Perform(Exec(s, zones, actions), zones[me], a).1 ==
      Perform(Exec(s, zones, Only(actions, me)), zones[me], a).1
  {
    ZonesDoNotInterfere(s, s, zones, actions, me);
    ReadAgrees(Exec(s, zones, actions), Exec(s, zones, Only(actions, me)), zones[me], a);
  }
}
