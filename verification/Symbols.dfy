// The symbol table (symbol.c) as a value: newest symbol last.
module Symbols {
  import opened Wrappers

  datatype Location = Global(address: nat) | Local(offset: nat)

  datatype Symbol = Symbol(name: string, location: Location)

  // symbol_get: the newest symbol of that name.
  function Lookup(table: seq<Symbol>, name: string): Option<Location> {
    if table == [] then None
    else if table[|table| - 1].name == name then Some(table[|table| - 1].location)
    else Lookup(table[..|table| - 1], name)
  }

  // symbol_table_restore
  function Restore(table: seq<Symbol>, size: nat): seq<Symbol> {
    if size < |table| then table[..size] else table
  }
}
