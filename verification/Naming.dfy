// What names mean in each function, given that the symbol table keeps the
// parameters of earlier functions.
module Naming {
  import opened Wrappers
  import opened RegisterTable
  import opened Symbols
  import opened Syntax
  import opened Codegen
  import opened Shape
  import opened Source
  import opened Relation
  import opened StatementSim
  import opened Linking
  import FunctionSim

  // ---------- names across functions ----------

  // No parameter of an earlier function has the name of a global that a later
  // function (or main) mentions.
  predicate NoCapture(p: Program) {
    forall j, i | 0 <= i < j <= |p.functions| ::
      forall x | x in p.functions[i].parameters :: x !in GlobalsSeen(p, j)
  }

  predicate Declares(symbols: seq<Symbol>, name: string) {
    exists i :: 0 <= i < |symbols| && symbols[i].name == name
  }

  // A lookup passes over newer symbols of other names.
  lemma {:induction false} LookupBelow(older: seq<Symbol>, newer: seq<Symbol>, name: string)
    requires !Declares(newer, name)
    ensures Lookup(older + newer, name) == Lookup(older, name)
    decreases |newer|
  {
    if newer == [] {
      assert older + newer == older;
    } else {
      var all := older + newer;
      assert all[..|all| - 1] == older + newer[..|newer| - 1];
      assert newer[|newer| - 1].name != name;
      LookupBelow(older, newer[..|newer| - 1], name);
    }
  }

  // And it stops at the newest symbol of its own name.
  lemma {:induction false} LookupNewest(older: seq<Symbol>, newer: seq<Symbol>, name: string)
    requires Declares(newer, name)
    ensures exists i ::
      0 <= i < |newer| && newer[i].name == name && Lookup(older + newer, name) == Some(newer[i].location)
    decreases |newer|
  {
    var all := older + newer;
    var last := newer[|newer| - 1];
    assert all[..|all| - 1] == older + newer[..|newer| - 1];
    if last.name == name {
      assert Lookup(all, name) == Some(last.location);
    } else {
      var k :| 0 <= k < |newer| && newer[k].name == name;
      assert newer[..|newer| - 1][k].name == name;
      LookupNewest(older, newer[..|newer| - 1], name);
      var i :| 0 <= i < |newer| - 1 && newer[..|newer| - 1][i].name == name
        && Lookup(older + newer[..|newer| - 1], name) == Some(newer[..|newer| - 1][i].location);
      assert newer[i].name == name;
    }
  }

  function ParameterSymbols(names: seq<string>): (r: seq<Symbol>)
    ensures |r| == |names|
  {
    seq(|names|, i requires 0 <= i < |names| => Symbol(names[i], Local(i)))
  }

  // The parameters the first j functions leave in the table.
  function Leaked(p: Program, j: nat): seq<Symbol>
    requires j <= |p.functions|
  {
    if j == 0 then [] else Leaked(p, j - 1) + ParameterSymbols(p.functions[j - 1].parameters)
  }

  lemma ParameterSymbolsTail(names: seq<string>, i: nat)
    requires i < |names|
    ensures ParameterSymbols(names)[i..] == [Symbol(names[i], Local(i))] + ParameterSymbols(names)[i + 1..]
  {
  }

  lemma {:induction false} ParameterLocalsSymbols(c: Compiler, names: seq<string>, i: nat)
    requires i <= |names| && c.nextLocal == i && ParameterLocals(c, names, i).Success?
    ensures ParameterLocals(c, names, i).value.symbols == c.symbols + ParameterSymbols(names)[i..]
    decreases |names| - i
  {
    hide ParameterLocal, ParameterSymbols;
    if i < |names| {
      ParameterLocalShape(c, names[i], i, |names|);
      ParameterLocalsSymbols(ParameterLocal(c, names[i], i, |names|).value, names, i + 1);
      ParameterSymbolsTail(names, i);
      var tail := ParameterSymbols(names)[i + 1..];
      assert c.symbols + [Symbol(names[i], Local(i))] + tail == c.symbols + ([Symbol(names[i], Local(i))] + tail);
    } else {
      assert ParameterSymbols(names)[i..] == [];
      assert c.symbols + [] == c.symbols;
    }
  }

  lemma FunctionSymbols(f: Function, c: Compiler)
    requires FunctionDefinition(f, c).Success?
    ensures FunctionDefinition(f, c).value.symbols == c.symbols + ParameterSymbols(f.parameters)
  {
    hide FunctionPrefix, ParameterLocals, BlockOf, FunctionSuffix;
    var c1 := BeginFunction(c, f.name, f.parameters).value;
    FunctionSim.BeginUnfolds(c, f.name, f.parameters);
    var c2 := FunctionPrefix(EnterFunction(c, f.name, |f.parameters|));
    PrefixShape(EnterFunction(c, f.name, |f.parameters|));
    ParameterLocalsSymbols(c2, f.parameters, 0);
    BeginFunctionShape(c, f.name, f.parameters);
    InitialUnbound();
    BlockShape(f.body, c1);
    EndFunctionShape(BlockOf(f.body, c1).value.0);
    assert ParameterSymbols(f.parameters)[0..] == ParameterSymbols(f.parameters);
  }

  // After any number of functions the table holds the globals and every
  // parameter declared so far: blocks clean up after themselves, parameter
  // lists do not.
  lemma {:induction false} StageSymbols(p: Program, c0: Compiler, j: nat)
    requires j <= |p.functions| && Stage(p, c0, j).Success?
    ensures Stage(p, c0, j).value.symbols == c0.symbols + Leaked(p, j)
    decreases j
  {
    hide FunctionDefinition, ParameterSymbols;
    if j > 0 {
      StageNext(p, c0, j - 1);
      StageSymbols(p, c0, j - 1);
      var f := p.functions[j - 1];
      FunctionSymbols(f, Stage(p, c0, j - 1).value);
      assert c0.symbols + Leaked(p, j - 1) + ParameterSymbols(f.parameters)
        == c0.symbols + (Leaked(p, j - 1) + ParameterSymbols(f.parameters));
    } else {
      assert p.functions[..0] == [];
      assert c0.symbols + [] == c0.symbols;
    }
  }

  lemma {:induction false} LeakedDeclares(p: Program, j: nat, name: string)
    requires j <= |p.functions|
    ensures Declares(Leaked(p, j), name) <==> exists i :: 0 <= i < j && name in p.functions[i].parameters
    ensures forall k | 0 <= k < |Leaked(p, j)| :: Leaked(p, j)[k].location.Local?
    decreases j
  {
    if j > 0 {
      LeakedDeclares(p, j - 1, name);
      var f := p.functions[j - 1];
      var new_ := ParameterSymbols(f.parameters);
      assert Leaked(p, j) == Leaked(p, j - 1) + new_;
      if Declares(Leaked(p, j), name) {
        var k :| 0 <= k < |Leaked(p, j)| && Leaked(p, j)[k].name == name;
        if k >= |Leaked(p, j - 1)| {
          assert f.parameters[k - |Leaked(p, j - 1)|] == name;
        } else {
          assert Leaked(p, j - 1)[k].name == name;
        }
      }
      if i :| 0 <= i < j && name in p.functions[i].parameters {
        if i == j - 1 {
          var k :| 0 <= k < |f.parameters| && f.parameters[k] == name;
          assert Leaked(p, j)[|Leaked(p, j - 1)| + k].name == name;
        } else {
          var k :| 0 <= k < |Leaked(p, j - 1)| && Leaked(p, j - 1)[k].name == name;
          assert Leaked(p, j)[k].name == name;
        }
      }
    }
  }

  // A global keeps its meaning before function j exactly when no earlier
  // function has a parameter of that name.
  lemma GlobalResolution(p: Program, c0: Compiler, j: nat, name: string, address: nat)
    requires j <= |p.functions| && Stage(p, c0, j).Success?
    requires Lookup(c0.symbols, name) == Some(Global(address))
    ensures Lookup(Stage(p, c0, j).value.symbols, name) == Some(Global(address))
      <==> !exists i :: 0 <= i < j && name in p.functions[i].parameters
  {
    StageSymbols(p, c0, j);
    LeakedDeclares(p, j, name);
    if Declares(Leaked(p, j), name) {
      LookupNewest(c0.symbols, Leaked(p, j), name);
    } else {
      LookupBelow(c0.symbols, Leaked(p, j), name);
    }
  }

  // Before function j the table finds the globals the function mentions, and
  // nothing for a name that is neither a global nor an earlier parameter.
  lemma StageVisible(p: Program, c0: Compiler, j: nat)
    requires NoCapture(p) && j <= |p.functions| && Stage(p, c0, j).Success? && c0.functions == []
    requires Visible(c0, GlobalEnv(GlobalNames(p.globals))) && AllGlobal(GlobalEnv(GlobalNames(p.globals)))
    ensures Visible(Stage(p, c0, j).value, EntryEnv(p, j))
  {
    hide Stage, FreeInStmts, GlobalNames, GlobalEnv, Lookup;
    var c := Stage(p, c0, j).value;
    var env := EntryEnv(p, j);
    StageShape(p, c0, j);
    forall x | x in env && env[x].Known?
      ensures Lookup(c.symbols, x) == Some(env[x].location)
    {
      GlobalResolution(p, c0, j, x, GlobalEnv(GlobalNames(p.globals))[x].location.address);
    }
    forall x | x !in env
      ensures Lookup(c.symbols, x) == None
    {
      StageSymbols(p, c0, j);
      LeakedDeclares(p, j, x);
      LookupBelow(c0.symbols, Leaked(p, j), x);
    }
  }

  ghost predicate AllGlobal(env: Env) {
    forall x | x in env :: env[x].Known? && env[x].location.Global?
  }

  lemma {:induction false} GlobalEnvIsGlobal(names: seq<string>)
    ensures AllGlobal(GlobalEnv(names))
    decreases |names|
  {
    if names != [] {
      GlobalEnvIsGlobal(names[..|names| - 1]);
    }
  }
}
