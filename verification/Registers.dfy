// The register descriptor table (registers.c) as a value.
module RegisterTable {
  import opened Machine
  import opened Wrappers

  const NO_MEMORY := -1

  datatype Descriptor = Descriptor(inUse: bool, address: int, temporary: bool)

  const EMPTY := Descriptor(false, NO_MEMORY, false)
  const RESERVED := Descriptor(true, NO_MEMORY, false)

  type Table = t: seq<Descriptor> | |t| == 16
    witness seq(16, i => EMPTY)

  predicate IsGeneral(r: int) {
    REG_FIRST_GENERAL <= r <= REG_LAST_GENERAL
  }

  // registers_init
  function InitialTable(): (t: Table)
    ensures forall r | 0 <= r < 16 :: t[r] == if IsGeneral(r) then EMPTY else RESERVED
  {
    seq(16, r => if IsGeneral(r) then EMPTY else RESERVED)
  }

  const INITIAL: Table := InitialTable()

  predicate Clean(d: Descriptor, address: int) {
    !d.inUse && d.address == address && !d.temporary
  }

  // First general register from `r` on that is not in use; 12 if none.
  function FirstFree(t: Table, r: int): (f: int)
    requires 1 <= r <= 12
    ensures r <= f <= 12
    ensures f < 12 ==> !t[f].inUse
    ensures forall q :: r <= q < f ==> t[q].inUse
    decreases 12 - r
  {
    if r == 12 || !t[r].inUse then r else FirstFree(t, r + 1)
  }

  // First general register from `r` on holding a clean copy of `address`; 12 if none.
  function FirstClean(t: Table, address: int, r: int): (f: int)
    requires 1 <= r <= 12
    ensures r <= f <= 12
    ensures f < 12 ==> Clean(t[f], address)
    ensures forall q :: r <= q < f ==> !Clean(t[q], address)
    decreases 12 - r
  {
    if r == 12 || Clean(t[r], address) then r else FirstClean(t, address, r + 1)
  }

  // register_alloc; None is "out of registers".
  function Alloc(t: Table): (r: Option<(Table, int)>)
    ensures r.Some? ==> IsGeneral(r.value.1) && !t[r.value.1].inUse
  {
    var f := FirstFree(t, 1);
    if f == 12 then None else Some((t[f := RESERVED], f))
  }

  // register_find_memory; None is -1.
  function FindMemory(t: Table, address: int): (r: Option<(Table, int)>)
    ensures r.Some? ==> IsGeneral(r.value.1) && Clean(t[r.value.1], address)
  {
    var f := FirstClean(t, address, 1);
    if f == 12 then None else Some((t[f := t[f].(inUse := true)], f))
  }

  function Free(t: Table, r: int): Table {
    if IsGeneral(r) then t[r := t[r].(inUse := false)] else t
  }

  function BindMemory(t: Table, r: int, address: int): Table {
    if IsGeneral(r) then t[r := t[r].(address := address, temporary := false)] else t
  }

  function ForgetMemory(t: Table, address: int): Table {
    seq(16, r requires 0 <= r < 16 =>
      if IsGeneral(r) && t[r].address == address then t[r].(address := NO_MEMORY, temporary := false) else t[r])
  }

  function ForgetAvailable(t: Table): Table {
    seq(16, r requires 0 <= r < 16 =>
      if IsGeneral(r) && !t[r].inUse then EMPTY else t[r])
  }

  function MarkTemporary(t: Table, r: int): Table {
    if IsGeneral(r) then t[r := t[r].(address := NO_MEMORY, temporary := true)] else t
  }

  // The general registers an expression under construction still needs.
  function InUse(t: Table): set<int> {
    set r | 1 <= r <= 11 && t[r].inUse
  }
}
