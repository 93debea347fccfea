// The code generator as the program runs it: one method per C function, over
// the register table, the symbol table, the scopes and the argument lists it
// updates in place. Every method is proved to do to the whole state what the
// function of the same name in Codegen says.
module Generator {
  import opened Wrappers
  import opened Machine
  import opened Instructions
  import opened Listing
  import opened Symbols
  import opened Syntax
  import T = RegisterTable
  import C = Codegen
  import opened RegisterFile
  import opened SymbolStore
  import opened ScopeChain
  import opened Shape

  // A row of function_table.
  datatype Row = Row(name: string, entry: Node, arity: nat)

  class Generator {
    const regs: Registers
    const symbols: SymbolTable
    const chain: Chain
    // function_call_arguments, of which `depth` lists are in use
    const lists: array<seq<int>>
    var depth: nat
    var inside: bool
    var nextLocal: nat
    var functions: seq<Row>
    // current_function_parameters
    var parameters: seq<string>
    var mainJump: Node?

    ghost var entries: seq<C.Entry>
    ghost var Repr: set<object>

    // `entries` gives the position of each function's first instruction.
    ghost predicate Tabled()
      reads this`functions, this`entries, chain`nodes
    {
      && |entries| == |functions|
      && forall i | 0 <= i < |functions| ::
        && functions[i].name == entries[i].name && functions[i].arity == entries[i].arity
        && 0 <= entries[i].address < |chain.nodes| && chain.nodes[entries[i].address] == functions[i].entry
    }

    ghost predicate Valid()
      reads this, Repr
      ensures Valid() ==> this in Repr
    {
      && {this, regs.slots, symbols, lists, chain} <= Repr
      && (forall n | n in chain.nodes :: n in Repr) && (forall s | s in chain.scopes :: s in Repr)
      && regs.Valid() && chain.Valid()
      && lists.Length == C.MAX_CALL_DEPTH && depth <= lists.Length
      && Tabled()
    }

    ghost function Pending(): seq<seq<int>>
      requires depth <= lists.Length
      reads this`depth, lists
    {
      lists[..depth]
    }

    // The whole state as a value.
    ghost function State(): (c: C.Compiler)
      requires Valid()
      reads this, Repr
      ensures c.inside == inside && c.nextLocal == nextLocal && |c.code| == |chain.nodes|
    {
      var top := |chain.frames| - 1;
      C.Compiler(regs.View(), symbols.table, symbols.nextGlobal, inside, nextLocal, chain.code,
                 chain.frames[top], chain.frames[..top], entries, Pending(), true)
    }

    // No instruction was lost or moved, and only new objects joined.
    twostate predicate Later()
      reads this, chain
    {
      old(chain.nodes) <= chain.nodes && fresh(Repr - old(Repr)) && mainJump == old(mainJump)
    }

    twostate predicate Grown()
      reads this, chain
    {
      Later() && parameters == old(parameters)
    }

    twostate predicate Within()
      reads this, chain
    {
      Grown() && inside == old(inside)
    }

    // The outcome of an action that yields a register, or makes the program exit.
    twostate predicate Yields(new spec: Result<(C.Compiler, int), C.Error>, new r: Result<int, C.Error>)
      reads this, Repr, chain
    {
      match spec
      case Failure(e) => r == Failure(e)
      case Success((c, q)) => r == Success(q) && Valid() && State() == c && Within()
    }

    twostate predicate Ends(new spec: Result<C.Compiler, C.Error>, new r: Result<(), C.Error>)
      reads this, Repr, chain
    {
      match spec
      case Failure(e) => r == Failure(e)
      case Success(c) => r.Success? && Valid() && State() == c && Within()
    }

    twostate predicate Reaches(new spec: Result<C.Compiler, C.Error>, new r: Result<(), C.Error>)
      reads this, Repr, chain
    {
      match spec
      case Failure(e) => r == Failure(e)
      case Success(c) => r.Success? && Valid() && State() == c && Later()
    }

    twostate lemma TabledKept()
      requires old(Tabled()) && functions == old(functions) && entries == old(entries)
      requires old(chain.nodes) <= chain.nodes
      ensures Tabled()
    {
    }

    // ---------- code_core.c ----------

    // code_init
    constructor ()
      ensures Valid() && State() == C.Start(true) && fresh(Repr) && mainJump == null
    {
      hide Chain.Linked, Chain.Owned, Chain.Shown, Chain.Chained, Shows;
      regs := new Registers();
      symbols := new SymbolTable();
      chain := new Chain();
      lists := new seq<int>[C.MAX_CALL_DEPTH](_ => []);
      depth, inside, nextLocal := 0, false, 0;
      functions, parameters, mainJump := [], [], null;
      entries := [];
      new;
      Repr := {this, regs.slots, symbols, lists, chain} + (set s | s in chain.scopes);
    }

    // An instruction object added to the current scope.
    method Add(op: Op, x: Slot, y: Slot, z: Slot, relative: bool, comment: string, ghost r: Raw) returns (n: Node)
      requires Valid() && r.op == op && r.relative == relative && r.comment == comment
      requires Denotes(x, chain.nodes, r.x) && Denotes(y, chain.nodes, r.y) && Denotes(z, chain.nodes, r.z)
      modifies Repr
      ensures Valid() && Within() && State() == C.Emit(old(State()), r)
      ensures chain.nodes == old(chain.nodes) + [n] && functions == old(functions)
    {
      hide Tabled, Pending, Registers.View, Chain.Linked, Chain.Owned, Chain.Shown, Chain.Chained, Shows;
      n := new Node(op, x, y, z, relative, comment);
      chain.CurrentOpen();
      chain.Add(n, r);
      Repr := Repr + {n};
      TabledKept();
    }

    method Emit3(op: Op, x: int, y: int, z: int) returns (n: Node)
      requires Valid()
      modifies Repr
      ensures Valid() && Within() && State() == C.Emit3(old(State()), op, x, y, z)
      ensures chain.nodes == old(chain.nodes) + [n] && functions == old(functions)
    {
      n := Add(op, Number(x), Number(y), Number(z), false, "", Plain(op, x, y, z));
    }

    // Where the operands of short instructions go.
    lemma Placement(c: C.Compiler, op: Op, x: int, y: int)
      ensures C.Emit1(c, op, x) == if op == J || op == JI
        || op == PRI then C.Emit3(c, op, 0, x, 0) else C.Emit3(c, op, x, 0, 0)
      ensures C.Emit2(c, op, x, y) == if op == JF || op == STI then C.Emit3(c, op, 0, x, y) else C.Emit3(c, op, x, y, 0)
    {
      hide C.Emit;
    }

    // code_add_one_operand_instruction
    method Emit1(op: Op, x: int)
      requires Valid()
      modifies Repr
      ensures Valid() && Within() && State() == C.Emit1(old(State()), op, x)
    {
      hide Valid, State, C.Emit1, C.Emit3;
      Placement(State(), op, x, 0);
      if op == J || op == JI || op == PRI {
        var _ := Emit3(op, 0, x, 0);
      } else {
        var _ := Emit3(op, x, 0, 0);
      }
    }

    // code_add_2_operand_instruction
    method Emit2(op: Op, x: int, y: int)
      requires Valid()
      modifies Repr
      ensures Valid() && Within() && State() == C.Emit2(old(State()), op, x, y)
    {
      hide Valid, State, C.Emit2, C.Emit3;
      Placement(State(), op, x, y);
      if op == JF || op == STI {
        var _ := Emit3(op, 0, x, y);
      } else {
        var _ := Emit3(op, x, y, 0);
      }
    }

    // code_reset_registers
    method Reset()
      requires Valid()
      modifies Repr
      ensures Valid() && Within() && State() == C.Reset(old(State()))
      ensures chain.nodes == old(chain.nodes) && functions == old(functions)
    {
      hide Tabled, Pending, Chain.Valid;
      regs.Init();
    }

    // code_add_label with instruction_set_comment
    method Label(comment: string) returns (n: Node)
      requires Valid()
      modifies Repr
      ensures Valid() && Within() && State() == C.Label(old(State()), comment)
      ensures chain.nodes == old(chain.nodes) + [n] && functions == old(functions)
    {
      n := Add(NOP, Number(0), Number(0), Number(0), false, comment, Plain(NOP, 0, 0, 0).(comment := comment));
    }

    method StackPush()
      requires Valid()
      modifies Repr
      ensures Valid() && Within() && State() == C.StackPush(old(State()))
    {
      hide Valid, State;
      Emit2(AFC, REG_TMP, 1);
      var _ := Emit3(SOU, REG_SP, REG_SP, REG_TMP);
    }

    method StackPop()
      requires Valid()
      modifies Repr
      ensures Valid() && Within() && State() == C.StackPop(old(State()))
    {
      hide Valid, State;
      Emit2(AFC, REG_TMP, 1);
      var _ := Emit3(ADD, REG_SP, REG_SP, REG_TMP);
    }

    method StackPops(n: int)
      requires Valid()
      modifies Repr
      ensures Valid() && Within() && State() == C.StackPops(old(State()), n)
    {
      hide Valid, State, C.StackPop;
      var i := 0;
      while i < n
        invariant Valid() && Within() && (i <= n || i == 0)
        invariant C.StackPops(State(), n - i) == C.StackPops(old(State()), n)
      {
        StackPop();
        i := i + 1;
      }
    }

    // code_add_compute_local_address
    method LocalAddress(offset: int)
      requires Valid()
      modifies Repr
      ensures Valid() && Within() && State() == C.LocalAddress(old(State()), offset)
    {
      hide Valid, State;
      Emit2(AFC, REG_TMP, offset);
      var _ := Emit3(SOU, REG_TMP, REG_FP, REG_TMP);
    }

    // begin_block
    method BeginBlock()
      requires Valid()
      modifies Repr
      ensures Valid() && Within() && State() == C.BeginBlock(old(State()))
      ensures chain.nodes == old(chain.nodes)
    {
      hide Tabled, Pending, Chain.Linked, Chain.Owned, Chain.Shown, Chain.Chained, Registers.View;
      chain.CurrentFrame();
      chain.Begin(|symbols.table|, nextLocal);
      Repr := Repr + {chain.current};
      TabledKept();
      assert chain.frames[..|chain.frames| - 1] == old(chain.frames);
    }

    // scope_flush on the current scope
    method Flush()
      requires Valid()
      modifies Repr
      ensures Valid() && Within() && State() == C.Flush(old(State()))
      ensures chain.nodes == old(chain.nodes)
    {
      hide Tabled, Pending, Chain.Linked, Chain.Owned, Chain.Shown, Chain.Chained, Registers.View;
      chain.CurrentOpen();
      chain.CurrentFrame();
      chain.Flush();
      chain.CurrentFrame();
      TabledKept();
    }

    lemma CurrentScope()
      requires Valid()
      ensures chain.current.count <= |State().code|
      ensures State().scope == C.Scope(chain.current.symbolBase, chain.current.offsetBase,
        |State().code| - chain.current.count)
    {
      hide Tabled, Pending, Chain.Linked, Chain.Shown, Registers.View;
      chain.CurrentFrame();
    }

    // Names and offsets as they were when the current scope was entered.
    method Leave()
      requires Valid()
      modifies Repr
      ensures Valid() && Within() && chain.nodes == old(chain.nodes)
      ensures var c := old(State());
        State() == c.(symbols := Restore(c.symbols, c.scope.symbolBase), nextLocal := c.scope.offsetBase)
    {
      hide Tabled, Pending, Chain.Linked, Chain.Owned, Chain.Shown, Chain.Chained, Registers.View;
      CurrentScope();
      symbols.Restore(chain.current.symbolBase);
      nextLocal := chain.current.offsetBase;
    }

    // end_block
    method EndBlock() returns (count: int)
      requires Valid()
      modifies Repr
      ensures Valid() && Within() && (State(), count) == C.EndBlock(old(State()))
    {
      hide Valid, State;
      CurrentScope();
      ghost var c := State();
      StackPopsShape(c, c.nextLocal - c.scope.offsetBase);
      StackPops(nextLocal - chain.current.offsetBase);
      CurrentScope();
      count := chain.current.count;
      Leave();
      Reset();
      Flush();
    }

    // current_last_instruction
    method Last() returns (n: Node?)
      requires Valid()
      ensures n == if C.ScopeCount(State()) > 0 then chain.nodes[|chain.nodes| - 1] else null
    {
      CurrentScope();
      n := chain.Last();
    }

    // first_instruction_after, for an instruction of the current scope that is not its last
    lemma Successor(at: nat)
      requires Valid() && State().scope.start <= at && at + 1 < |chain.nodes|
      ensures chain.nodes[at].next == chain.nodes[at + 1]
    {
      hide Tabled, Pending, Chain.Shown, Chain.Chained, Registers.View;
      assert !Boundary(chain.frames, at + 1);
    }

    // code_add_program_start
    method ProgramStart()
      requires Valid()
      modifies Repr
      ensures Valid() && State() == C.ProgramStart(old(State()))
      ensures old(chain.nodes) <= chain.nodes && fresh(Repr - old(Repr)) && inside == old(inside)
      ensures mainJump != null && |old(State()).code| < |chain.nodes| && chain.nodes[|old(State()).code|] == mainJump
    {
      hide Tabled, Pending, Chain.Linked, Chain.Owned, Chain.Chained, Registers.View;
      mainJump := Add(J, Number(0), Pointer(null), Number(0), false, "",
        Raw(J, Value(0), Ref(NO_TARGET), Value(0), false, ""));
      Reset();
    }

    // ---------- registers.c on the compiler's table ----------

    method AllocRegister() returns (r: Result<int, C.Error>)
      requires Valid()
      modifies Repr
      ensures Yields(C.AllocRegister(old(State())), r)
    {
      hide Tabled, Pending, Chain.Valid, T.Alloc;
      var ok, q := regs.Alloc();
      if !ok {
        return Failure(C.OutOfRegisters);
      }
      return Success(q);
    }

    method FreeRegister(r: int)
      requires Valid()
      modifies Repr
      ensures Valid() && Within() && State() == C.FreeRegister(old(State()), r)
      ensures chain.nodes == old(chain.nodes)
    {
      hide Tabled, Pending, Chain.Valid, T.Free;
      regs.Free(r);
    }

    method Temporary(r: int)
      requires Valid()
      modifies Repr
      ensures Valid() && Within() && State() == C.Temporary(old(State()), r)
      ensures chain.nodes == old(chain.nodes)
    {
      hide Tabled, Pending, Chain.Valid, T.MarkTemporary;
      regs.MarkTemporary(r);
    }

    method BindMemory(r: int, address: int)
      requires Valid()
      modifies Repr
      ensures Valid() && Within() && State() == old(State()).(regs := T.BindMemory(old(State()).regs, r, address))
    {
      hide Tabled, Pending, Chain.Valid, T.BindMemory;
      regs.BindMemory(r, address);
    }

    method ForgetMemory(address: int)
      requires Valid()
      modifies Repr
      ensures Valid() && Within() && State() == old(State()).(regs := T.ForgetMemory(old(State()).regs, address))
    {
      hide Tabled, Pending, Chain.Valid, T.ForgetMemory;
      regs.ForgetMemory(address);
    }

    method ForgetAvailable()
      requires Valid()
      modifies Repr
      ensures Valid() && Within() && State() == old(State()).(regs := T.ForgetAvailable(old(State()).regs))
    {
      hide Tabled, Pending, Chain.Valid, T.ForgetAvailable;
      regs.ForgetAvailable();
    }

    // register_find_memory; -1 when no register holds a clean copy
    method FindMemory(address: int) returns (r: int)
      requires Valid()
      modifies Repr
      ensures Valid() && Within()
      ensures match T.FindMemory(old(State()).regs, address)
        case None => r == -1 && State() == old(State())
        case Some((t, q)) => r == q && State() == old(State()).(regs := t)
    {
      hide Tabled, Pending, Chain.Valid, T.FindMemory;
      r := regs.FindMemory(address);
    }

    // symbol_get
    method Get(name: string) returns (r: Option<Location>)
      requires Valid()
      ensures r == Lookup(State().symbols, name)
    {
      r := symbols.Get(name);
    }

    // ---------- code_expressions.c ----------

    method ConstantLoad(value: int) returns (r: Result<int, C.Error>)
      requires Valid()
      modifies Repr
      ensures Yields(C.ConstantLoad(old(State()), value), r)
    {
      hide Valid, State, C.AllocRegister, C.Emit2, C.Temporary;
      var q :- AllocRegister();
      Emit2(AFC, q, value);
      Temporary(q);
      return Success(q);
    }

    method LocalLoad(offset: int) returns (r: Result<int, C.Error>)
      requires Valid()
      modifies Repr
      ensures Yields(C.LocalLoad(old(State()), offset), r)
    {
      hide Valid, State, C.AllocRegister, C.Emit2, C.Temporary, C.LocalAddress;
      var q :- AllocRegister();
      LocalAddress(offset);
      Emit2(LDI, q, REG_TMP);
      Temporary(q);
      return Success(q);
    }

    method GlobalLoad(address: int) returns (r: Result<int, C.Error>)
      requires Valid()
      modifies Repr
      ensures Yields(C.GlobalLoad(old(State()), address), r)
    {
      hide Valid, C.AllocRegister, C.Emit2, T.FindMemory, T.BindMemory;
      var found := FindMemory(address);
      if found != -1 {
        return Success(found);
      }
      var q :- AllocRegister();
      Emit2(LOAD, q, address);
      BindMemory(q, address);
      return Success(q);
    }

    method VariableLoad(name: string) returns (r: Result<int, C.Error>)
      requires Valid()
      modifies Repr
      ensures Yields(C.VariableLoad(old(State()), name), r)
    {
      hide Valid, State, C.ConstantLoad, C.LocalLoad, C.GlobalLoad, Lookup;
      var symbol := Get(name);
      match symbol {
        case None => r := ConstantLoad(0);
        case Some(Local(offset)) => r := LocalLoad(offset);
        case Some(Global(address)) => r := GlobalLoad(address);
      }
    }

    method BinaryExpression(op: BinaryOp, left: int, right: int)
      requires Valid()
      modifies Repr
      ensures Valid() && Within() && State() == C.BinaryExpression(old(State()), op, left, right)
    {
      hide Valid, State, C.FreeRegister, C.Temporary, C.Emit3;
      var _ := Emit3(C.Opcode(op), left, left, right);
      FreeRegister(right);
      Temporary(left);
    }

    // code_add_unary_expression and code_add_pointer_load
    method UnaryExpression(op: Op, r: int)
      requires Valid()
      modifies Repr
      ensures Valid() && Within() && State() == C.UnaryExpression(old(State()), op, r)
    {
      hide Valid, State, C.Temporary, C.Emit2;
      Emit2(op, r, r);
      Temporary(r);
    }

    method VariableAddress(name: string) returns (r: Result<int, C.Error>)
      requires Valid()
      modifies Repr
      ensures Yields(C.VariableAddress(old(State()), name), r)
    {
      hide Valid, State, C.AllocRegister, C.Temporary, C.Emit2, C.Emit3, Lookup;
      KeepsSymbols(State());
      var q :- AllocRegister();
      var symbol := Get(name);
      match symbol {
        case None =>
        case Some(Local(offset)) =>
          Emit2(AFC, q, offset);
          var _ := Emit3(SOU, q, REG_FP, q);
          Temporary(q);
        case Some(Global(address)) =>
          Emit2(AFC, q, address);
          Temporary(q);
      }
      return Success(q);
    }

    lemma KeepsSymbols(c: C.Compiler)
      ensures C.AllocRegister(c).Success? ==> C.AllocRegister(c).value.0.symbols == c.symbols
    {
    }

    method DiscardExpression(r: int)
      requires Valid()
      modifies Repr
      ensures Valid() && Within() && State() == C.DiscardExpression(old(State()), r)
    {
      hide Valid, State, C.FreeRegister, C.Reset;
      FreeRegister(r);
      Reset();
    }

    method PointerStore(address: int, value: int)
      requires Valid()
      modifies Repr
      ensures Valid() && Within() && State() == C.PointerStore(old(State()), address, value)
    {
      hide Valid, State, C.FreeRegister, C.Reset, C.Emit2;
      Emit2(STI, address, value);
      FreeRegister(address);
      FreeRegister(value);
      Reset();
    }

    method StoreGlobal(address: int, r: int)
      requires Valid()
      modifies Repr
      ensures Valid() && Within() && State() == C.StoreGlobal(old(State()), address, r)
    {
      hide Valid, State, C.FreeRegister, C.Emit2, T.ForgetMemory, T.BindMemory;
      ForgetMemory(address);
      Emit2(STR, address, r);
      BindMemory(r, address);
      FreeRegister(r);
    }

    // next_local_offset++
    method NextOffset() returns (offset: nat)
      requires Valid()
      modifies Repr
      ensures Valid() && Within() && offset == old(State()).nextLocal
      ensures State() == old(State()).(nextLocal := offset + 1)
    {
      hide Tabled, Pending, Chain.Valid, Registers.View;
      offset := nextLocal;
      nextLocal := nextLocal + 1;
    }

    // symbol_table_add_local
    method AddLocal(name: string, offset: nat)
      requires Valid()
      modifies Repr
      ensures Valid() && Within()
      ensures State() == old(State()).(symbols := old(State()).symbols + [Symbol(name, Local(offset))])
    {
      hide Tabled, Pending, Chain.Valid, Registers.View;
      symbols.AddLocal(name, offset);
    }

    method NewGlobal(name: string) returns (address: nat)
      requires Valid()
      modifies Repr
      ensures Valid() && Within() && address == old(State()).nextGlobal
      ensures State() == old(State()).(nextGlobal := address + 1,
        symbols := old(State()).symbols + [Symbol(name, Global(address))])
    {
      hide Tabled, Pending, Chain.Valid, Registers.View;
      address := symbols.Add(name);
    }

    // A register's value to a local.
    method StoreLocal(offset: int, r: int)
      requires Valid()
      modifies Repr
      ensures Valid() && Within() && State() == C.StoreLocal(old(State()), offset, r)
    {
      hide Valid, State, C.LocalAddress, C.Emit2;
      LocalAddress(offset);
      Emit2(STI, REG_TMP, r);
    }

    method DeclareLocal(name: string, r: int)
      requires Valid()
      modifies Repr
      ensures Valid() && Within() && State() == C.DeclareLocal(old(State()), name, r)
    {
      hide Valid, State, C.FreeRegister, C.StackPush, C.StoreLocal, C.Reset;
      var offset := NextOffset();
      AddLocal(name, offset);
      StoreLocal(offset, r);
      StackPush();
      FreeRegister(r);
      Reset();
    }

    method DeclareGlobal(name: string, r: int)
      requires Valid()
      modifies Repr
      ensures Valid() && Within() && State() == C.DeclareGlobal(old(State()), name, r)
    {
      hide Valid, State, C.StoreGlobal;
      var address := NewGlobal(name);
      StoreGlobal(address, r);
    }

    method VariableDeclaration(name: string, r: int)
      requires Valid()
      modifies Repr
      ensures Valid() && Within() && State() == C.VariableDeclaration(old(State()), name, r)
    {
      hide Valid, C.DeclareLocal, C.DeclareGlobal;
      if inside {
        DeclareLocal(name, r);
      } else {
        DeclareGlobal(name, r);
      }
    }

    method EmptyDeclaration(name: string) returns (r: Result<(), C.Error>)
      requires Valid()
      modifies Repr
      ensures Ends(C.EmptyDeclaration(old(State()), name), r)
    {
      hide Valid, State, C.ConstantLoad, C.VariableDeclaration;
      var q :- ConstantLoad(0);
      VariableDeclaration(name, q);
      return Success(());
    }

    method VariableAssignment(name: string, r: int)
      requires Valid()
      modifies Repr
      ensures Valid() && Within() && State() == C.VariableAssignment(old(State()), name, r)
    {
      hide Valid, State, C.FreeRegister, C.StoreLocal, C.Reset, C.StoreGlobal, Lookup;
      var symbol := Get(name);
      match symbol {
        case None => FreeRegister(r);
        case Some(Local(offset)) =>
          StoreLocal(offset, r);
          FreeRegister(r);
          Reset();
        case Some(Global(address)) => StoreGlobal(address, r);
      }
    }

    method PrintStatement(r: int)
      requires Valid()
      modifies Repr
      ensures Valid() && Within() && State() == C.PrintStatement(old(State()), r)
    {
      hide Valid, State, C.FreeRegister, C.Emit1;
      Emit1(PRI, r);
      FreeRegister(r);
    }

    // ---------- code_functions.c ----------

    method PushRegister(r: int)
      requires Valid()
      modifies Repr
      ensures Valid() && Within() && State() == C.PushRegister(old(State()), r)
    {
      hide Valid, State, C.Emit2, C.StackPush;
      Emit2(STI, REG_SP, r);
      StackPush();
    }

    // code_add_function_prefix
    method FunctionPrefix()
      requires Valid()
      modifies Repr
      ensures Valid() && Within() && State() == C.FunctionPrefix(old(State()))
    {
      hide Valid, State, C.Emit2, C.PushRegister;
      PushRegister(REG_RA);
      PushRegister(REG_FP);
      Emit2(COP, REG_FP, REG_SP);
    }

    // code_add_function_suffix
    method FunctionSuffix()
      requires Valid()
      modifies Repr
      ensures Valid() && Within() && State() == C.FunctionSuffix(old(State()))
    {
      hide Valid, State, C.Emit2, C.Emit1, C.StackPop;
      Emit2(COP, REG_SP, REG_FP);
      StackPop();
      Emit2(LDI, REG_FP, REG_SP);
      StackPop();
      Emit2(LDI, REG_RA, REG_SP);
      Emit1(JI, REG_RA);
    }

    // code_clear_function_parameters
    method ClearParameters()
      requires Valid()
      modifies Repr
      ensures Valid() && State() == old(State()) && parameters == []
      ensures chain.nodes == old(chain.nodes) && Repr == old(Repr) && mainJump == old(mainJump)
    {
      hide Tabled, Pending, Chain.Valid, Registers.View;
      parameters := [];
    }

    // code_add_function_parameter; false where the program exits
    method AddParameter(name: string) returns (ok: bool)
      requires Valid()
      modifies Repr
      ensures Valid() && State() == old(State()) && ok == (|old(parameters)| < C.MAX_FUNCTION_PARAMETERS)
      ensures ok ==> parameters == old(parameters) + [name]
      ensures chain.nodes == old(chain.nodes) && Repr == old(Repr) && mainJump == old(mainJump)
    {
      hide Tabled, Pending, Chain.Valid, Registers.View;
      if |parameters| >= C.MAX_FUNCTION_PARAMETERS {
        return false;
      }
      parameters := parameters + [name];
      return true;
    }

    method FetchArgument(source: int, r: int)
      requires Valid()
      modifies Repr
      ensures Valid() && Within() && State() == C.FetchArgument(old(State()), source, r)
    {
      hide Valid, State, C.Emit2, C.Emit3;
      Emit2(AFC, REG_TMP, source);
      var _ := Emit3(ADD, REG_TMP, REG_FP, REG_TMP);
      Emit2(LDI, r, REG_TMP);
    }

    method CopyArgument(source: int, offset: int, r: int)
      requires Valid()
      modifies Repr
      ensures Valid() && Within() && State() == C.CopyArgument(old(State()), source, offset, r)
    {
      hide Valid, State, C.FetchArgument, C.StoreLocal, C.StackPush, C.FreeRegister;
      FetchArgument(source, r);
      StoreLocal(offset, r);
      StackPush();
      FreeRegister(r);
    }

    // One round of the loop in code_add_parameter_locals.
    method ParameterLocal(i: nat) returns (r: Result<(), C.Error>)
      requires Valid() && i < |parameters|
      modifies Repr
      ensures Ends(C.ParameterLocal(old(State()), old(parameters)[i], i, |old(parameters)|), r)
    {
      hide Valid, State, C.CopyArgument, C.AllocRegister;
      var source := |parameters| - i + 2;
      var offset := NextOffset();
      KeepsSymbols(State());
      var q :- AllocRegister();
      AddLocal(parameters[i], offset);
      CopyArgument(source, offset, q);
      return Success(());
    }

    // code_add_parameter_locals
    method ParameterLocals() returns (r: Result<(), C.Error>)
      requires Valid()
      modifies Repr
      ensures Ends(C.ParameterLocals(old(State()), old(parameters), 0), r)
    {
      hide Valid, State, C.ParameterLocal;
      for i := 0 to |parameters|
        invariant Valid() && Within()
        invariant C.ParameterLocals(State(), old(parameters), i) == C.ParameterLocals(old(State()), old(parameters), 0)
      {
        var _ :- ParameterLocal(i);
      }
      return Success(());
    }

    // function_add; false where the program exits
    method AddFunction(name: string, entry: Node, arity: nat) returns (ok: bool)
      requires Valid() && chain.nodes != [] && chain.nodes[|chain.nodes| - 1] == entry
      modifies Repr
      ensures ok == (|old(State()).functions| < C.MAX_FUNCTIONS)
      ensures ok ==> Valid() && Within() && |State().code| >= 1
      ensures ok ==> State() == old(State()).(functions :=
        old(State()).functions + [C.Entry(name, |State().code| - 1, arity)])
    {
      hide Pending, Chain.Linked, Chain.Owned, Chain.Chained, Registers.View;
      if |functions| >= C.MAX_FUNCTIONS {
        return false;
      }
      functions := functions + [Row(name, entry, arity)];
      entries := entries + [C.Entry(name, |chain.nodes| - 1, arity)];
      return true;
    }

    // Entering or leaving a function.
    method Place(inside: bool, offset: nat)
      requires Valid()
      modifies Repr
      ensures Valid() && Grown() && State() == old(State()).(inside := inside, nextLocal := offset)
      ensures chain.nodes == old(chain.nodes)
    {
      hide Tabled, Pending, Chain.Valid, Registers.View;
      this.inside := inside;
      nextLocal := offset;
    }

    // The function's first instruction and its row in the table.
    method EnterFunction(name: string) returns (ok: bool)
      requires Valid()
      modifies Repr
      ensures ok == (|old(State()).functions| < C.MAX_FUNCTIONS)
      ensures ok ==> Valid() && Grown() && State() == C.EnterFunction(old(State()), name, |old(parameters)|)
    {
      hide Valid, State;
      var entry := Label(C.Titled(name));
      ok := AddFunction(name, entry, |parameters|);
      if ok {
        Place(true, 0);
      }
    }

    // begin_function_definition
    method BeginFunction(name: string) returns (r: Result<(), C.Error>)
      requires Valid() && |parameters| <= C.MAX_FUNCTION_PARAMETERS
      modifies Repr
      ensures Reaches(C.BeginFunction(old(State()), name, old(parameters)), r)
    {
      hide Valid, State, C.ParameterLocals, C.FunctionPrefix, C.Reset, C.EnterFunction;
      var ok := EnterFunction(name);
      if !ok {
        return Failure(C.TooManyFunctions);
      }
      FunctionPrefix();
      var _ :- ParameterLocals();
      Reset();
      return Success(());
    }

    // end_function_definition
    method EndFunction()
      requires Valid()
      modifies Repr
      ensures Valid() && Grown() && State() == C.EndFunction(old(State()))
    {
      hide Valid, State, C.Emit2, C.Reset;
      Emit2(AFC, REG_RETURN, 0);
      FunctionSuffix();
      Place(false, nextLocal);
      Reset();
    }

    // code_add_return_statement
    method ReturnStatement(r: int)
      requires Valid()
      modifies Repr
      ensures Valid() && Within() && State() == C.ReturnStatement(old(State()), r)
    {
      hide Valid, State, C.Emit2, C.Reset, C.FreeRegister, C.FunctionSuffix;
      Emit2(COP, REG_RETURN, r);
      FreeRegister(r);
      FunctionSuffix();
      Reset();
    }

    // code_begin_function_arguments
    method BeginArguments() returns (r: Result<(), C.Error>)
      requires Valid()
      modifies Repr
      ensures Ends(C.BeginArguments(old(State())), r)
    {
      hide Tabled, Chain.Valid, Registers.View;
      if depth >= C.MAX_CALL_DEPTH {
        return Failure(C.TooManyCalls);
      }
      lists[depth] := [];
      depth := depth + 1;
      assert lists[..depth] == old(lists[..depth]) + [[]];
      return Success(());
    }

    // code_add_function_argument
    method AddArgument(r: int) returns (result: Result<(), C.Error>)
      requires Valid()
      modifies Repr
      ensures Ends(C.AddArgument(old(State()), r), result)
    {
      hide Tabled, Chain.Valid, Registers.View;
      if depth == 0 {
        return Failure(C.OutsideCall);
      }
      if |lists[depth - 1]| >= C.MAX_FUNCTION_PARAMETERS {
        return Failure(C.TooManyArguments);
      }
      lists[depth - 1] := lists[depth - 1] + [r];
      assert lists[..depth] == old(lists[..depth])[depth - 1 := lists[depth - 1]];
      return Success(());
    }

    // function_get_entry and function_get_parameter_count
    method FindFunction(name: string) returns (r: Option<Row>)
      requires Valid()
      ensures match C.FindFunction(State().functions, name)
        case None => r == None
        case Some(e) =>
          r.Some? && r.value.arity == e.arity && 0 <= e.address < |chain.nodes|
            && chain.nodes[e.address] == r.value.entry
    {
      hide Chain.Valid, Registers.View;
      var i := |functions|;
      assert entries[..i] == entries;
      while i > 0
        invariant 0 <= i <= |functions|
        invariant C.FindFunction(entries, name) == C.FindFunction(entries[..i], name)
      {
        i := i - 1;
        assert entries[..i + 1][..i] == entries[..i];
        if functions[i].name == name {
          return Some(functions[i]);
        }
      }
      return None;
    }

    // register_is_in_use
    method IsInUse(r: int) returns (b: bool)
      requires Valid() && 1 <= r < 12
      ensures b == State().regs[r].inUse
    {
      b := regs.IsInUse(r);
    }

    lemma SavedStep(t: T.Table, args: seq<int>, r: int)
      requires 1 <= r < 12
      ensures var rest := C.Saved(t, args, r + 1);
        C.Saved(t, args, r) == if t[r].inUse && r !in args then [r] + rest else rest
    {
    }

    lemma PushStep(c: C.Compiler, r: int, rest: seq<int>)
      ensures C.PushRegisters(c, [r] + rest) == C.PushRegisters(C.PushRegister(c, r), rest)
    {
      assert ([r] + rest)[1..] == rest;
    }

    lemma PushKeepsTable(c: C.Compiler, r: int)
      ensures C.PushRegister(c, r).regs == c.regs
    {
    }

    // The loop that saves the registers in use that hold no argument.
    method SaveRegisters(args: seq<int>) returns (saved: seq<int>)
      requires Valid()
      modifies Repr
      ensures Valid() && Within() && saved == C.Saved(old(State()).regs, args, 1)
      ensures State() == C.PushRegisters(old(State()), saved)
    {
      hide Valid, State, C.PushRegister, C.PushRegisters, C.Saved;
      saved := [];
      ghost var c := State();
      for r := REG_FIRST_GENERAL to REG_LAST_GENERAL + 1
        invariant Valid() && Within() && State().regs == c.regs
        invariant saved + C.Saved(c.regs, args, r) == C.Saved(c.regs, args, 1)
        invariant C.PushRegisters(State(), C.Saved(c.regs, args, r)) == C.PushRegisters(c, C.Saved(c.regs, args, 1))
      {
        ghost var rest := C.Saved(c.regs, args, r + 1);
        SavedStep(c.regs, args, r);
        var used := IsInUse(r);
        if used && r !in args {
          PushKeepsTable(State(), r);
          PushStep(State(), r, rest);
          PushRegister(r);
          assert saved + ([r] + rest) == saved + [r] + rest;
          saved := saved + [r];
        }
      }
      NothingSaved(State(), c.regs, args);
      assert saved + [] == saved;
    }

    lemma NothingSaved(c: C.Compiler, t: T.Table, args: seq<int>)
      ensures C.Saved(t, args, 12) == [] && C.PushRegisters(c, []) == c
    {
    }

    // The loop that pushes the arguments.
    method PushArguments(args: seq<int>)
      requires Valid()
      modifies Repr
      ensures Valid() && Within() && State() == C.PushArguments(old(State()), args)
    {
      hide Valid, State, C.PushRegister, C.FreeRegister;
      assert args[0..] == args;
      for i := 0 to |args|
        invariant Valid() && Within()
        invariant C.PushArguments(State(), args[i..]) == C.PushArguments(old(State()), args)
      {
        assert args[i..][1..] == args[i + 1..];
        PushRegister(args[i]);
        FreeRegister(args[i]);
      }
    }

    method RestoreRegister(r: int)
      requires Valid()
      modifies Repr
      ensures Valid() && Within() && State() == C.RestoreRegister(old(State()), r)
    {
      hide Valid, State, C.Emit2, C.StackPop;
      StackPop();
      Emit2(LDI, r, REG_SP);
    }

    // The loop that restores the saved registers, last saved first.
    method RestoreRegisters(saved: seq<int>)
      requires Valid()
      modifies Repr
      ensures Valid() && Within() && State() == C.RestoreRegisters(old(State()), saved)
    {
      hide Valid, State, C.RestoreRegister;
      var i := |saved|;
      assert saved[..i] == saved;
      while i > 0
        invariant 0 <= i <= |saved| && Valid() && Within()
        invariant C.RestoreRegisters(State(), saved[..i]) == C.RestoreRegisters(old(State()), saved)
      {
        i := i - 1;
        assert saved[..i + 1][..i] == saved[..i];
        RestoreRegister(saved[i]);
      }
    }

    // A J to an instruction, or to NULL.
    method JumpTo(target: Node?, ghost position: int)
      requires Valid() && Denotes(Pointer(target), chain.nodes, Ref(position))
      modifies Repr
      ensures Valid() && Within() && State() == C.JumpTo(old(State()), position)
    {
      var _ := Add(J, Number(0), Pointer(target), Number(0), false, "",
        Raw(J, Value(0), Ref(position), Value(0), false, ""));
    }

    // current_program_address
    method ProgramAddress() returns (address: nat)
      requires Valid()
      ensures address == |State().code|
    {
      address := chain.ProgramAddress();
    }

    // An instruction known by its position is the target of a pointer to it.
    lemma PointsTo(at: nat)
      requires Valid() && at < |chain.nodes|
      ensures Denotes(Pointer(chain.nodes[at]), chain.nodes, Ref(at)) && at < |State().code|
    {
      hide Tabled, Pending, Chain.Valid, Registers.View;
      chain.ShownAt(at);
    }

    // The calling sequence up to and including the J.
    method CallSequence(entry: Node, ghost at: nat, args: seq<int>) returns (saved: seq<int>)
      requires Valid() && args == C.Arguments(State()) && at < |chain.nodes| && chain.nodes[at] == entry
      modifies Repr
      ensures Valid() && Within() && saved == C.Saved(old(State()).regs, args, 1)
      ensures State() == C.CallSequence(old(State()), at)
    {
      hide Valid, State, C.PushRegisters, C.PushArguments, C.Saved, C.Emit2, C.JumpTo;
      saved := SaveRegisters(args);
      PushArguments(args);
      JumpAndLink(entry, at);
    }

    // ra gets the address of the instruction after the J.
    method JumpAndLink(entry: Node, ghost at: nat)
      requires Valid() && at < |chain.nodes| && chain.nodes[at] == entry
      modifies Repr
      ensures Valid() && Within()
      ensures var c := old(State()); State() == C.JumpTo(C.Emit2(c, AFC, REG_RA, |c.code| + 2), at)
    {
      hide Valid, State, C.Emit2, C.JumpTo, Denotes;
      var address := ProgramAddress();
      Emit2(AFC, REG_RA, address + 2);
      PointsTo(at);
      JumpTo(entry, at);
    }

    // The list of the call being prepared.
    method Arguments() returns (args: Option<seq<int>>)
      requires Valid()
      ensures args == if State().pending == [] then None else Some(C.Arguments(State()))
    {
      hide Tabled, Chain.Valid, Registers.View;
      if depth == 0 {
        return None;
      }
      return Some(lists[depth - 1]);
    }

    method EndArguments()
      requires Valid() && State().pending != []
      modifies Repr
      ensures Valid() && Within()
      ensures State() == old(State()).(pending := old(State()).pending[..|old(State()).pending| - 1])
    {
      hide Tabled, Chain.Valid, Registers.View;
      depth := depth - 1;
      assert lists[..depth] == old(lists[..depth])[..depth];
    }

    method CallCode(entry: Node, ghost at: nat, args: seq<int>)
      requires Valid() && args == C.Arguments(State()) && at < |chain.nodes| && chain.nodes[at] == entry
      modifies Repr
      ensures Valid() && Within() && State() == C.CallCode(old(State()), at)
    {
      hide Valid, State, C.CallSequence, C.StackPops, C.RestoreRegisters, C.Saved;
      var saved := CallSequence(entry, at, args);
      StackPops(|args|);
      RestoreRegisters(saved);
    }

    // The copy of the callee's result.
    method ResultLoad() returns (r: Result<int, C.Error>)
      requires Valid()
      modifies Repr
      ensures Yields(C.ResultLoad(old(State())), r)
    {
      hide Valid, State, C.AllocRegister, C.Temporary, C.Emit2;
      var q :- AllocRegister();
      Emit2(COP, q, REG_RETURN);
      Temporary(q);
      return Success(q);
    }

    // code_add_function_call
    method FunctionCall(name: string) returns (r: Result<int, C.Error>)
      requires Valid()
      modifies Repr
      ensures Yields(C.FunctionCall(old(State()), name), r)
    {
      hide Valid, State, C.CallCode, C.ResultLoad, T.ForgetAvailable, C.FindFunction;
      var row := FindFunction(name);
      if row == None {
        return Failure(C.UnknownFunction);
      }
      var args := Arguments();
      if args == None {
        return Failure(C.OutsideCall);
      }
      if |args.value| != row.value.arity {
        return Failure(C.WrongArgumentCount);
      }
      ghost var at := C.FindFunction(State().functions, name).value.address;
      CallCodeShape(State(), at);
      CallCode(row.value.entry, at, args.value);
      ForgetAvailable();
      EndArguments();
      r := ResultLoad();
    }

    // ---------- code_jumps.c ----------

    // code_add_conditional_jump_placeholder
    method ConditionalJump(r: int) returns (n: Node)
      requires Valid()
      modifies Repr
      ensures Valid() && Within() && State() == C.ConditionalJump(old(State()), r)
      ensures var at := |old(State()).code|; at < |chain.nodes| && chain.nodes[at] == n
    {
      hide Tabled, Pending, Chain.Linked, Chain.Owned, Chain.Chained, Registers.View;
      n := Add(JF, Number(0), Number(r), Number(0), true, "", Plain(JF, 0, r, 0).(relative := true));
      FreeRegister(r);
      Reset();
    }

    // code_add_jump_placeholder
    method UnconditionalJump() returns (n: Node)
      requires Valid()
      modifies Repr
      ensures Valid() && Within() && State() == C.UnconditionalJump(old(State()))
      ensures var at := |old(State()).code|; at < |chain.nodes| && chain.nodes[at] == n
    {
      hide Tabled, Pending, Chain.Linked, Chain.Owned, Chain.Chained, Registers.View;
      n := Add(J, Number(0), Number(0), Number(0), true, "", Plain(J, 0, 0, 0).(relative := true));
      Reset();
    }

    // Overwriting operands of the instruction at position `at`.
    method Patch(n: Node, ghost at: nat, y: Slot, z: Slot, ghost r: Raw)
      requires Valid() && at < |chain.nodes| && chain.nodes[at] == n && at < |State().code|
      requires r == State().code[at].(y := r.y, z := r.z)
      requires (y == n.y && r.y == State().code[at].y) || Denotes(y, chain.nodes, r.y)
      requires (z == n.z && r.z == State().code[at].z) || Denotes(z, chain.nodes, r.z)
      modifies Repr
      ensures Valid() && Within() && State() == old(State()).(code := old(State()).code[at := r])
      ensures chain.nodes == old(chain.nodes)
    {
      hide Tabled, Pending, Chain.Linked, Chain.Owned, Chain.Shown, Chain.Chained, Registers.View;
      chain.ShownAt(at);
      chain.Patch(n, y, z, r);
      TabledKept();
    }

    // patch_jmf_relative
    method PatchConditional(n: Node, ghost at: nat, offset: int)
      requires Valid() && at < |chain.nodes| && chain.nodes[at] == n
      modifies Repr
      ensures Valid() && Within() && State() == C.PatchConditional(old(State()), at, offset)
    {
      hide Valid, State;
      PointsTo(at);
      Patch(n, at, n.y, Number(offset), State().code[at].(z := Value(offset)));
      Reset();
    }

    // patch_jmp_relative
    method PatchUnconditional(n: Node, ghost at: nat, offset: int)
      requires Valid() && at < |chain.nodes| && chain.nodes[at] == n
      modifies Repr
      ensures Valid() && Within() && State() == C.PatchUnconditional(old(State()), at, offset)
    {
      hide Valid, State;
      PointsTo(at);
      Patch(n, at, Number(offset), n.z, State().code[at].(y := Value(offset)));
      Reset();
    }

    // code_add_loop_back_jump
    method LoopBack(target: Node?, ghost position: int)
      requires Valid() && Denotes(Pointer(target), chain.nodes, Ref(position))
      modifies Repr
      ensures Valid() && Within() && State() == C.LoopBack(old(State()), position)
    {
      hide Valid, State, C.JumpTo, C.Reset;
      JumpTo(target, position);
      Reset();
    }

    // The first jump gets its target.
    method LinkMain(entry: Node, ghost start: nat, ghost at: nat)
      requires Valid() && mainJump != null && start < |chain.nodes| && chain.nodes[start] == mainJump
      requires at < |chain.nodes| && chain.nodes[at] == entry
      modifies Repr
      ensures Valid() && Within()
      ensures State() == old(State()).(code := old(State()).code[start := old(State()).code[start].(y := Ref(at))])
    {
      hide Valid, State, Denotes;
      PointsTo(start);
      PointsTo(at);
      Patch(mainJump, start, Pointer(entry), mainJump.z, State().code[start].(y := Ref(at)));
    }

    method StartStack()
      requires Valid()
      modifies Repr
      ensures Valid() && Within() && State()
        == C.Reset(C.Emit2(C.Emit2(old(State()), AFC, REG_SP, 255), COP, REG_FP, REG_SP))
    {
      hide Valid, State, C.Emit2, C.Reset;
      Emit2(AFC, REG_SP, 255);
      Emit2(COP, REG_FP, REG_SP);
      Reset();
    }

    // begin_main_method
    method BeginMain(ghost start: nat)
      requires Valid() && mainJump != null && start < |chain.nodes| && chain.nodes[start] == mainJump
      modifies Repr
      ensures Valid() && Grown() && State() == C.BeginMain(old(State()), start)
    {
      hide Valid, State, C.Emit2, C.Reset;
      ghost var at := |State().code|;
      var entry := Label("main");
      LinkMain(entry, start, at);
      Place(true, 0);
      StartStack();
    }

    // end_main_method
    method EndMain()
      requires Valid()
      modifies Repr
      ensures Valid() && Grown() && State() == C.EndMain(old(State()))
    {
      hide Valid, State, C.Flush, C.Reset;
      Place(false, nextLocal);
      Reset();
      Flush();
    }

    // scope_resolve_references on the root scope
    method ResolveReferences()
      requires Valid() && State().outer == []
      modifies Repr
      ensures Valid() && State() == old(State()).(code := ResolveAll(old(State()).code)) && chain.Addressed()
    {
      hide Tabled, Pending, Chain.Linked, Chain.Owned, Chain.Shown, Chain.Chained, Registers.View;
      chain.CurrentFrame();
      chain.ResolveReferences();
      TabledKept();
    }

    // What main writes to the assembly file and to the binary file.
    method Write() returns (text: string, binary: seq<byte>)
      requires Valid() && State().outer == [] && chain.Addressed()
      ensures text == Text(State().code, 0) && binary == Packed(State().code)
    {
      text := chain.WriteInstructions();
      binary := chain.WriteBinary();
    }
  }
}
