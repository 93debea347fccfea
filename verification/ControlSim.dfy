// Jumps land where the grammar means them to, and block exits pop what the
// block declared.
module ControlSim {
  import opened Wrappers
  import opened Machine
  import opened Instructions
  import opened RegisterTable
  import opened Symbols
  import opened Codegen
  import opened Shape
  import opened Execution
  import opened Source
  import opened Relation
  import opened StatementSim

  lemma RunConditional(image: Image, r: int, target: int, m: State) returns (t: nat)
    requires m.pc < |image| && image[m.pc] == Instr(JF, r, target, 0)
    requires IsRegister(r) && 0 <= target < 256
    ensures t == 1 && Run(image, m, t) == m.(pc := if m.regs[r] == 0 then target else m.pc + 1)
  {
    t := RunOne(image, m);
  }

  lemma RunJump(image: Image, target: int, m: State) returns (t: nat)
    requires m.pc < |image| && image[m.pc] == Instr(J, target, 0, 0)
    requires 0 <= target < 256
    ensures t == 1 && Run(image, m, t) == m.(pc := target)
  {
    t := RunOne(image, m);
  }

  // The patched conditional jump: with the block's own count plus `extra` it
  // leads `extra` - 1 instructions past the end of the block.
  lemma GuardCode(image: Image, c: Compiler, c1: Compiler, r: int, c2: Compiler, count: int, extra: int)
    requires Delivers(c, c1, r) && Encloses(ConditionalJump(c1, r), c2, count)
    requires Emitted(image, c, PatchConditional(c2, |c1.code|, count + extra))
    requires extra >= 1 && |c2.code| + extra - 1 < 256
    ensures Emitted(image, c, c1) && Emitted(image, ConditionalJump(c1, r), c2)
    ensures |c1.code| < |image| && image[|c1.code|] == Instr(JF, r, |c2.code| + extra - 1, 0)
  {
    var d := PatchConditional(c2, |c1.code|, count + extra);
    assert d.code[|c1.code|] == c2.code[|c1.code|].(z := Value(count + extra));
    assert c2.code[|c1.code|] == Plain(JF, 0, r, 0).(relative := true);
  }

  // The patched unconditional jump leads past the else part.
  lemma AlternativeCode(image: Image, c: Compiler, c1: Compiler, count: int)
    requires Rejoins(UnconditionalJump(c), c1)
    requires Emitted(image, c, PatchUnconditional(c1, |c.code|, count + 1)) && |c1.code| < 256
    ensures Emitted(image, UnconditionalJump(c), c1)
    ensures |c1.code| == |c.code| + 1 + count ==>
      |c.code| < |image| && image[|c.code|] == Instr(J, |c1.code|, 0, 0)
  {
    var d := PatchUnconditional(c1, |c.code|, count + 1);
    assert d.code[|c.code|] == c1.code[|c.code|].(y := Value(count + 1));
    assert c1.code[|c.code|] == Plain(J, 0, 0, 0).(relative := true);
  }

  lemma LoopCode(image: Image, c: Compiler, head: nat)
    requires Emitted(image, c, LoopBack(c, head)) && head < 256
    ensures |c.code| < |image| && image[|c.code|] == Instr(J, head, 0, 0)
  {
  }

  // A point reached by a jump: as Matches, but nothing is cached there.
  ghost predicate Arrived(pc: int, c: Compiler, fp: int, m: State, st: Memory) {
    && m.pc == pc
    && -1 <= fp < 256
    && m.regs[REG_FP] == Byte(fp)
    && m.regs[REG_SP] == Byte(fp - c.nextLocal)
    && Holds(m, st, c.nextGlobal, fp - c.nextLocal)
  }

  lemma ArrivedMatches(c: Compiler, d: Compiler, fp: int, m: State, st: Memory)
    requires Arrived(|d.code|, c, fp, m, st)
    requires d.nextLocal == c.nextLocal && d.nextGlobal == c.nextGlobal && d.regs == INITIAL
    ensures Matches(d, fp, m, st)
  {
    InitialUnbound();
  }

  // Leaving a block moves the stack pointer back over the block's locals.
  lemma BlockExit(image: Image, c: Compiler, body: Compiler, fp: int, m: State, m1: State, st: Memory, st1: Memory,
                  env: Env) returns (t: nat)
    requires Continues(BeginBlock(c), body)
    requires Emitted(image, body, EndBlock(body).0)
    requires Matches(body, fp, m1, st1) && Visible(c, env)
    requires Holds(m, st, c.nextGlobal, fp - c.nextLocal) && st.cells.Keys <= st1.cells.Keys
    requires Untouched(m, m1, st, fp - c.nextLocal)
    ensures Continued(c, EndBlock(body).0, fp, m, Run(image, m1, t), st, Restrict(st1, st.cells.Keys), env, c.nextLocal)
  {
    hide Step;
    var k := body.nextLocal - c.nextLocal;
    EndBlockShape(c, body);
    assert EndBlock(body).0.code == StackPops(body, k).code;
    t := RunPops(image, body, k, m1, fp - body.nextLocal);
    InitialUnbound();
  }
}
