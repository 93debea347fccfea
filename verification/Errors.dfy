// Which error each limit and each mistake gives, in the compiler and in the
// reader of binary programs.
module Errors {
  import opened Wrappers
  import opened Machine
  import opened Instructions
  import opened RegisterTable
  import opened Symbols
  import opened Syntax
  import opened Codegen
  import opened Shape
  import opened StatementSim
  import opened Preservation
  import opened Linking
  import opened Demand
  import opened Compilability
  import Loader
  import Listing

  // ---------- calls ----------

  // f(f(... f(0) ...)), n deep
  function Nested(n: nat): Expr {
    if n == 0 then Num(0) else Call("f", Arg(Nested(n - 1), NoArgs))
  }

  lemma {:induction false} NestedFits(n: nat, fs: seq<Entry>, depth: nat)
    requires FindFunction(fs, "f").Some? && FindFunction(fs, "f").value.arity == 1
    ensures CallsFit(Nested(n), fs, depth) <==> n == 0 || depth + n <= 16
    ensures Need(Nested(n)) == 1
    decreases n
  {
    if n > 0 {
      NestedFits(n - 1, fs, depth + 1);
      assert ArgsFit(NoArgs, fs, depth + 1) && NeedArgs(NoArgs) == 0;
    }
  }

  lemma {:induction false} TooDeep(n: nat, c: Compiler)
    requires n > 0 && |c.pending| + n > 16
    ensures Expression(Nested(n), c) == Failure(TooManyCalls)
    decreases n
  {
    hide FunctionCall;
    if |c.pending| < 16 {
      var c1 := BeginArguments(c).value;
      TooDeep(n - 1, c1);
      assert ArgumentList(Arg(Nested(n - 1), NoArgs), c1) == Failure(TooManyCalls);
    }
  }

  // Sixteen nested calls compile, seventeen are too many.
  lemma NestingLimit(n: nat, c: Compiler)
    requires c.pending == [] && |InUse(c.regs)| < 11
    requires FindFunction(c.functions, "f").Some? && FindFunction(c.functions, "f").value.arity == 1
    ensures Expression(Nested(n), c).Success? <==> n <= 16
    ensures n > 16 ==> Expression(Nested(n), c) == Failure(TooManyCalls)
  {
    hide Expression, InUse, Need, CallsFit;
    NestedFits(n, c.functions, 0);
    ExpressionDemand(Nested(n), c);
    if n > 16 {
      TooDeep(n, c);
    }
  }

  // The checks of a call in order: its depth, its arguments, its name, its
  // argument count.
  lemma CallErrors(name: string, args: Args, c: Compiler)
    ensures |c.pending| >= 16 ==> Expression(Call(name, args), c) == Failure(TooManyCalls)
    ensures |c.pending| < 16 ==>
      var list := ArgumentList(args, c.(pending := c.pending + [[]]));
      && (list.Failure? ==> Expression(Call(name, args), c) == Failure(list.error))
      && (list.Success? ==>
        var found := FindFunction(c.functions, name);
        && (Expression(Call(name, args), c) == Failure(UnknownFunction) <==> found == None)
        && (Expression(Call(name, args), c) == Failure(WrongArgumentCount)
          <==> found.Some? && found.value.arity != Length(args)))
  {
    hide ArgumentList, CallCode;
    var c1 := c.(pending := c.pending + [[]]);
    if |c.pending| < 16 && ArgumentList(args, c1).Success? {
      var rs := ArgumentListShape(args, c1);
      assert Arguments(c1) + rs == rs;
      CallResult(ArgumentList(args, c1).value, name);
    }
  }

  lemma CallResult(c: Compiler, name: string)
    requires c.pending != []
    ensures var found := FindFunction(c.functions, name);
      && (FunctionCall(c, name) == Failure(UnknownFunction) <==> found == None)
      && (FunctionCall(c, name) == Failure(WrongArgumentCount)
        <==> found.Some? && found.value.arity != |Arguments(c)|)
  {
    hide CallCode;
  }

  // ---------- functions ----------

  // A function has at most sixteen parameters, a program at most sixty-four
  // functions; the parameters are counted first.
  lemma FunctionLimits(f: Function, c: Compiler)
    requires Resting(c) && f.body == Nil
    ensures FunctionDefinition(f, c).Success? <==> |f.parameters| <= 16 && |c.functions| < 64
    ensures |f.parameters| > 16 ==> FunctionDefinition(f, c) == Failure(TooManyParameters)
    ensures |f.parameters| <= 16 && |c.functions| >= 64 ==> FunctionDefinition(f, c) == Failure(TooManyFunctions)
  {
    FunctionDemand(f, c);
    hide ParameterLocals, BlockOf;
  }

  // With functions that are right in themselves, sixty-four compile and
  // sixty-five are too many.
  lemma {:induction false} FunctionCountLimit(fs: seq<Function>, c: Compiler)
    requires Resting(c) && c.functions == []
    requires forall j | 0 <= j < |fs| :: fs[j].body == Nil && |fs[j].parameters| <= 16
    ensures Functions(fs, c).Success? <==> |fs| <= 64
    ensures |fs| > 64 ==> Functions(fs, c) == Failure(TooManyFunctions)
    decreases |fs|
  {
    hide FunctionDefinition, Resting;
    if fs != [] {
      var before := fs[..|fs| - 1];
      FunctionCountLimit(before, c);
      FunctionsDemand(before, c);
      if Functions(before, c).Success? {
        FunctionLimits(fs[|fs| - 1], Functions(before, c).value);
      }
    }
  }

  // ---------- undeclared names ----------

  // Assigning to an undeclared name computes the value and does nothing with
  // it: no instruction is emitted, no name declared, no binding lost.
  lemma UndeclaredAssignment(name: string, value: Expr, c: Compiler)
    requires Lookup(c.symbols, name) == None
    ensures Statement(Assign(name, value), c).Success? <==> Expression(value, c).Success?
    ensures Expression(value, c).Success? ==>
      var (c1, r) := Expression(value, c).value;
      && Statement(Assign(name, value), c).value == c1.(regs := Free(c1.regs, r))
      && c1.code == Statement(Discard(value), c).value.code
  {
    hide Expression, Free;
    if Expression(value, c).Success? {
      ExpressionShape(value, c);
    }
  }

  // Reading one loads the constant 0 into a new register, whatever is cached.
  lemma UndeclaredRead(name: string, c: Compiler)
    requires Lookup(c.symbols, name) == None
    ensures Expression(Var(name), c).Success? <==> |InUse(c.regs)| < 11
    ensures Expression(Var(name), c).Success? ==>
      var (d, r) := Expression(Var(name), c).value;
      IsGeneral(r) && !c.regs[r].inUse && d.code == c.code + [Plain(AFC, r, 0, 0)] && d.regs[r].temporary
  {
    AllocExactly(c.regs);
  }

  // ---------- binary programs ----------

  // The operations in the order of their codes.
  const NAMES := ["NOP", "AFC", "COP", "ADD", "MUL", "SOU", "DIV", "NOT", "AND", "OR", "BNOT", "BAND", "BOR",
                  "LOAD", "STR", "LDI", "STI", "J", "JF", "JI", "LT", "GT", "EQ", "LEQ", "GEQ", "NEQ", "PRI"]

  // Byte k stands for the operation at place k of the list, and no byte past it
  // stands for any.
  lemma OpcodeOrder(code: byte)
    ensures Loader.Decoded(code).Some? <==> code <= 0x1A
    ensures Loader.Decoded(code).Some? ==>
      && Listing.OpName(Loader.Decoded(code).value) == NAMES[code]
      && OpByte(Loader.Decoded(code).value) == code
  {
    hide Listing.OpName, Loader.Decoded, OpByte;
    CodesInOrder(code);
    if code <= 0x1A {
      NamesInOrder(Loader.Decoded(code).value);
    }
  }

  lemma CodesInOrder(code: byte)
    ensures Loader.Decoded(code).Some? <==> code <= 0x1A
    ensures Loader.Decoded(code).Some? ==> OpByte(Loader.Decoded(code).value) == code
  {
  }

  lemma NamesInOrder(op: Op)
    ensures Listing.OpName(op) == NAMES[OpByte(op)]
  {
  }

  // The first group of four bytes whose opcode is none.
  ghost predicate FirstUnknown(bytes: seq<byte>, k: nat) {
    4 * k < |bytes| && bytes[4 * k] > 0x1A && forall i | 0 <= i < k :: bytes[4 * i] <= 0x1A
  }

  lemma WordAccepted(code: byte, a: byte, b: byte, c: byte)
    ensures Loader.DecodeWord(code, a, b, c).Success? <==> code <= 0x1A
    ensures code > 0x1A ==> Loader.DecodeWord(code, a, b, c) == Failure(Loader.UnknownOpcode(code))
    ensures code <= 0x1A ==> OpByte(Loader.DecodeWord(code, a, b, c).value.op) == code
  {
    hide Loader.Decoded, OpByte, Listing.OpName;
    OpcodeOrder(code);
  }

  // A binary program of whole instructions loads exactly when every opcode byte
  // is at most 0x1A; if not, the error names the first that is larger.
  lemma {:induction false} BinaryAccepted(bytes: seq<byte>)
    requires |bytes| % 4 == 0
    ensures Loader.DecodeAll(bytes).Success? <==> forall k | 0 <= k < |bytes| / 4 :: bytes[4 * k] <= 0x1A
    ensures Loader.DecodeAll(bytes).Success? ==>
      && |Loader.DecodeAll(bytes).value| == |bytes| / 4
      && forall k | 0 <= k < |bytes| / 4 :: OpByte(Loader.DecodeAll(bytes).value[k].op) == bytes[4 * k]
    ensures Loader.DecodeAll(bytes).Failure? ==>
      exists k :: FirstUnknown(bytes, k) && Loader.DecodeAll(bytes).error == Loader.UnknownOpcode(bytes[4 * k])
    decreases |bytes|
  {
    hide Loader.DecodeWord, OpByte;
    if bytes != [] {
      var rest := bytes[4..];
      WordAccepted(bytes[0], bytes[1], bytes[2], bytes[3]);
      BinaryAccepted(rest);
      assert forall k | 0 < k < |bytes| / 4 :: bytes[4 * k] == rest[4 * (k - 1)];
      assert forall k | 0 <= k < |rest| / 4 :: rest[4 * k] == bytes[4 * (k + 1)];
      if bytes[0] > 0x1A {
        assert FirstUnknown(bytes, 0);
      } else if Loader.DecodeAll(rest).Failure? {
        var k: nat :| FirstUnknown(rest, k) && Loader.DecodeAll(rest).error == Loader.UnknownOpcode(rest[4 * k]);
        assert FirstUnknown(bytes, k + 1);
      }
    }
  }
}
