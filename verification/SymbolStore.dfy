// The symbol table as the program keeps it (symbol.c): a stack updated in
// place, proved against the functions of Symbols.
module SymbolStore {
  import opened Wrappers
  import opened Symbols

  class SymbolTable {
    var table: seq<Symbol>
    var nextGlobal: nat

    // symbol_table_init
    constructor ()
      ensures table == [] && nextGlobal == 0
    {
      table := [];
      nextGlobal := 0;
    }

    // symbol_table_add
    method Add(name: string) returns (address: nat)
      modifies this
      ensures address == old(nextGlobal) && nextGlobal == old(nextGlobal) + 1
      ensures table == old(table) + [Symbol(name, Global(address))]
    {
      address := nextGlobal;
      nextGlobal := nextGlobal + 1;
      table := table + [Symbol(name, Global(address))];
    }

    // symbol_table_add_local
    method AddLocal(name: string, offset: nat)
      modifies this`table
      ensures table == old(table) + [Symbol(name, Local(offset))]
    {
      table := table + [Symbol(name, Local(offset))];
    }

    // symbol_get: from the newest symbol to the oldest; None is NULL
    method Get(name: string) returns (r: Option<Location>)
      ensures r == Lookup(table, name)
    {
      var i := |table|;
      assert table[..i] == table;
      while i > 0
        invariant 0 <= i <= |table|
        invariant Lookup(table, name) == Lookup(table[..i], name)
      {
        i := i - 1;
        assert table[..i + 1][..i] == table[..i];
        if table[i].name == name {
          return Some(table[i].location);
        }
      }
      return None;
    }

    // symbol_table_restore
    method Restore(base: nat)
      modifies this`table
      ensures table == Symbols.Restore(old(table), base)
    {
      while |table| > base
        invariant table <= old(table)
        invariant |table| >= base || table == old(table)
      {
        table := table[..|table| - 1];
      }
    }
  }
}
