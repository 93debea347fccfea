// The register descriptor table as the program keeps it (registers.c): an
// array of descriptors updated in place, proved against the functions of
// RegisterTable.
module RegisterFile {
  import opened Machine
  import opened Wrappers
  import T = RegisterTable

  class Registers {
    const slots: array<T.Descriptor>

    ghost predicate Valid()
    {
      slots.Length == 16
    }

    ghost function View(): T.Table
      requires Valid()
      reads slots
    {
      slots[..]
    }

    constructor ()
      ensures Valid() && fresh(slots) && View() == T.INITIAL
    {
      slots := new T.Descriptor[16](_ => T.EMPTY);
      new;
      Init();
    }

    // registers_init
    method Init()
      requires Valid()
      modifies slots
      ensures View() == T.INITIAL
    {
      for i := 0 to 16
        invariant forall q | 0 <= q < i :: slots[q] == T.EMPTY
      {
        slots[i] := T.EMPTY;
      }
      Reserve(REG_RETURN);
      Reserve(REG_TMP);
      Reserve(REG_SP);
      Reserve(REG_FP);
      Reserve(REG_RA);
    }

    method Reserve(r: int)
      requires Valid() && 0 <= r < 16
      modifies slots
      ensures View() == old(View())[r := T.RESERVED]
    {
      slots[r] := T.RESERVED;
    }

    // register_find_memory
    method FindMemory(address: int) returns (r: int)
      requires Valid()
      modifies slots
      ensures match T.FindMemory(old(View()), address)
        case None => r == -1 && View() == old(View())
        case Some((t, q)) => r == q && View() == t
    {
      for q := REG_FIRST_GENERAL to REG_LAST_GENERAL + 1
        invariant View() == old(View())
        invariant T.FirstClean(View(), address, 1) == T.FirstClean(View(), address, q)
      {
        if !slots[q].inUse && slots[q].address == address && !slots[q].temporary {
          slots[q] := slots[q].(inUse := true);
          return q;
        }
      }
      return -1;
    }

    // register_alloc; `ok` is false where the program exits for want of a register
    method Alloc() returns (ok: bool, r: int)
      requires Valid()
      modifies slots
      ensures ok == T.Alloc(old(View())).Some?
      ensures if ok then View() == T.Alloc(old(View())).value.0
        && r == T.Alloc(old(View())).value.1 else View() == old(View())
    {
      for q := REG_FIRST_GENERAL to REG_LAST_GENERAL + 1
        invariant View() == old(View())
        invariant T.FirstFree(View(), 1) == T.FirstFree(View(), q)
      {
        if !slots[q].inUse {
          slots[q] := T.Descriptor(true, T.NO_MEMORY, false);
          return true, q;
        }
      }
      return false, -1;
    }

    // register_free
    method Free(r: int)
      requires Valid()
      modifies slots
      ensures View() == T.Free(old(View()), r)
    {
      if T.IsGeneral(r) {
        slots[r] := slots[r].(inUse := false);
      }
    }

    // register_bind_memory
    method BindMemory(r: int, address: int)
      requires Valid()
      modifies slots
      ensures View() == T.BindMemory(old(View()), r, address)
    {
      if T.IsGeneral(r) {
        slots[r] := slots[r].(address := address, temporary := false);
      }
    }

    // register_forget_memory
    method ForgetMemory(address: int)
      requires Valid()
      modifies slots
      ensures View() == T.ForgetMemory(old(View()), address)
    {
      for q := REG_FIRST_GENERAL to REG_LAST_GENERAL + 1
        invariant forall k | 0 <= k < q :: slots[k] == T.ForgetMemory(old(View()), address)[k]
        invariant forall k | q <= k < 16 :: slots[k] == old(View())[k]
      {
        if slots[q].address == address {
          slots[q] := slots[q].(address := T.NO_MEMORY, temporary := false);
        }
      }
    }

    // register_forget_available
    method ForgetAvailable()
      requires Valid()
      modifies slots
      ensures View() == T.ForgetAvailable(old(View()))
    {
      for q := REG_FIRST_GENERAL to REG_LAST_GENERAL + 1
        invariant forall k | 0 <= k < q :: slots[k] == T.ForgetAvailable(old(View()))[k]
        invariant forall k | q <= k < 16 :: slots[k] == old(View())[k]
      {
        if !slots[q].inUse {
          slots[q] := slots[q].(address := T.NO_MEMORY, temporary := false);
        }
      }
    }

    // register_mark_temporary
    method MarkTemporary(r: int)
      requires Valid()
      modifies slots
      ensures View() == T.MarkTemporary(old(View()), r)
    {
      if T.IsGeneral(r) {
        slots[r] := slots[r].(temporary := true, address := T.NO_MEMORY);
      }
    }

    // register_is_in_use
    predicate IsInUse(r: int)
      requires Valid()
      reads slots
      ensures IsInUse(r) <==> r in T.InUse(View())
    {
      T.IsGeneral(r) && slots[r].inUse
    }
  }
}
