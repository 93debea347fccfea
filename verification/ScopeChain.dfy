// Scopes as linked lists of instruction objects (scope.c and the scope
// handling of code_core.c): every open scope holds its own list, leaving a
// scope appends its list to the parent's.
module ScopeChain {
  import opened Machine
  import opened Instructions
  import opened Listing
  import C = Codegen

  // argument_t: a number, or a pointer to another instruction.
  datatype Slot = Number(value: int) | Pointer(node: Node?)

  class Node {
    const op: Op
    var x: Slot
    var y: Slot
    var z: Slot
    var relative: bool
    var comment: string
    var address: int
    var next: Node?
    // its place in emission order
    ghost var position: nat

    constructor (op: Op, x: Slot, y: Slot, z: Slot, relative: bool, comment: string)
      ensures this.op == op && this.x == x && this.y == y && this.z == z
      ensures this.relative == relative && this.comment == comment && next == null
    {
      this.op, this.x, this.y, this.z := op, x, y, z;
      this.relative, this.comment, next := relative, comment, null;
    }
  }

  class Scope {
    const symbolBase: nat
    const offsetBase: nat
    const parent: Scope?
    var first: Node?
    var last: Node?
    var count: nat

    constructor (symbolBase: nat, offsetBase: nat, parent: Scope?)
      ensures this.symbolBase == symbolBase && this.offsetBase == offsetBase && this.parent == parent
      ensures first == null && last == null && count == 0
    {
      this.symbolBase, this.offsetBase, this.parent := symbolBase, offsetBase, parent;
      first, last, count := null, null, 0;
    }
  }

  // The union read as a number.
  function NumberOf(slot: Slot): int {
    match slot
    case Number(v) => v
    case Pointer(_) => 0
  }

  // Does a scope start at k?
  ghost predicate Boundary(frames: seq<C.Scope>, k: int) {
    exists i :: 0 <= i < |frames| && frames[i].start == k
  }

  lemma BoundaryAppend(frames: seq<C.Scope>, f: C.Scope, k: int)
    ensures Boundary(frames + [f], k) <==> Boundary(frames, k) || f.start == k
  {
    if Boundary(frames, k) {
      var i :| 0 <= i < |frames| && frames[i].start == k;
      assert (frames + [f])[i].start == k;
    }
    assert (frames + [f])[|frames|] == f;
  }

  // Scopes cover the instructions in order.
  ghost predicate Layout(frames: seq<C.Scope>, total: nat) {
    && |frames| >= 1 && frames[0].start == 0 && frames[|frames| - 1].start <= total
    && forall i, j | 0 <= i < j < |frames| :: frames[i].start <= frames[j].start
  }

  // Where the instructions of scope i end.
  ghost function End(frames: seq<C.Scope>, total: nat, i: nat): nat
    requires i < |frames|
  {
    if i + 1 < |frames| then frames[i + 1].start else total
  }

  // A list of `count` instructions from `first` to `last` is nodes[lo..hi].
  ghost predicate Spans(first: Node?, last: Node?, count: nat, lo: nat, hi: nat, nodes: seq<Node>) {
    && lo <= hi <= |nodes| && count == hi - lo
    && (if lo < hi then first == nodes[lo] && last == nodes[hi - 1] else first == null && last == null)
  }

  lemma SpansKept(first: Node?, last: Node?, count: nat, lo: nat, hi: nat, older: seq<Node>, newer: seq<Node>)
    requires Spans(first, last, count, lo, hi, older) && older <= newer
    ensures Spans(first, last, count, lo, hi, newer)
  {
  }

  lemma SpansOneMore(first: Node?, last: Node?, count: nat, lo: nat, older: seq<Node>, n: Node)
    requires Spans(first, last, count, lo, |older|, older)
    ensures Spans(if first == null then n else first, n, count + 1, lo, |older| + 1, older + [n])
  {
  }

  // Two lists that follow one another make one.
  lemma SpansJoined(first: Node?, last: Node?, count: nat, first1: Node?, last1: Node?, count1: nat,
                    lo: nat, mid: nat, nodes: seq<Node>)
    requires Spans(first, last, count, lo, mid, nodes) && Spans(first1, last1, count1, mid, |nodes|, nodes)
    ensures Spans(if first == null then first1 else first, if last1 == null then last else last1, count + count1, lo,
      |nodes|, nodes)
  {
  }

  // The list of s is nodes[lo..hi].
  ghost predicate Owns(s: Scope, lo: nat, hi: nat, nodes: seq<Node>)
    reads s
  {
    Spans(s.first, s.last, s.count, lo, hi, nodes)
  }

  ghost predicate Denotes(slot: Slot, nodes: seq<Node>, a: Argument)
    reads nodes
  {
    match slot
    case Number(v) => a == Value(v)
    case Pointer(n) =>
      if n == null then a == Ref(NO_TARGET)
      else n in nodes && n.position < |nodes| && nodes[n.position] == n && a == Ref(n.position)
  }

  ghost predicate Shows(n: Node, nodes: seq<Node>, r: Raw)
    requires n in nodes
    reads nodes
  {
    && n.op == r.op && n.relative == r.relative && n.comment == r.comment
    && Denotes(n.x, nodes, r.x) && Denotes(n.y, nodes, r.y) && Denotes(n.z, nodes, r.z)
  }

  class Chain {
    var current: Scope

    // every instruction in emission order, what each one is, and the open
    // scopes from the root to the current one
    ghost var nodes: seq<Node>
    ghost var code: seq<Raw>
    ghost var scopes: seq<Scope>
    ghost var frames: seq<C.Scope>

    // The current scope is the last of a chain of parents.
    ghost predicate Chained()
      reads this`current, this`scopes, this`frames
    {
      && |scopes| == |frames| >= 1 && scopes[|scopes| - 1] == current
      && (forall i, j | 0 <= i < j < |scopes| :: scopes[i] != scopes[j])
      && (forall i {:trigger scopes[i].parent} | 0 <= i < |scopes| ::
        scopes[i].parent == (if i == 0 then null else scopes[i - 1]))
      && (forall i {:trigger scopes[i].symbolBase} {:trigger scopes[i].offsetBase} {:trigger frames[i]} |
        0 <= i < |scopes| ::
        scopes[i].symbolBase == frames[i].symbolBase && scopes[i].offsetBase == frames[i].offsetBase)
    }

    // Scope i owns the instructions from its start to the next scope's start.
    ghost predicate Owned()
      requires |scopes| == |frames|
      reads this`scopes, this`frames, this`nodes, scopes
    {
      && Layout(frames, |nodes|)
      && forall i | 0 <= i < |scopes| :: Owns(scopes[i], frames[i].start, End(frames, |nodes|, i), nodes)
    }

    // Each instruction is linked to the next of its scope: no list is cyclic,
    // none shares an instruction with another.
    ghost predicate Linked()
      reads this`nodes, this`frames, nodes
    {
      && (forall k {:trigger nodes[k].position} | 0 <= k < |nodes| :: nodes[k].position == k)
      && (forall k {:trigger nodes[k].next} | 0 <= k < |nodes| ::
        nodes[k].next == (if k + 1 < |nodes| && !Boundary(frames, k + 1) then nodes[k + 1] else null))
    }

    ghost predicate Shown()
      reads this`nodes, this`code, nodes
    {
      |code| == |nodes| && forall k {:trigger code[k]} {:trigger Shows(nodes[k], nodes, code[k])} | 0 <= k < |nodes| ::
        Shows(nodes[k], nodes, code[k])
    }

    ghost predicate Valid()
      reads this, nodes, scopes
    {
      Chained() && Owned() && Linked() && Shown()
    }

    // scope_init
    constructor ()
      ensures Valid() && fresh(scopes) && nodes == [] && code == [] && frames == [C.Scope(0, 0, 0)]
    {
      var root := new Scope(0, 0, null);
      current := root;
      nodes, code, scopes, frames := [], [], [root], [C.Scope(0, 0, 0)];
    }

    // current_last_instruction
    method Last() returns (n: Node?)
      requires Valid()
      ensures n == if frames[|frames| - 1].start < |nodes| then nodes[|nodes| - 1] else null
    {
      CurrentOwned();
      n := current.last;
    }

    // current_program_address: the counts of the open scopes add up to the
    // position of the next instruction.
    method ProgramAddress() returns (address: nat)
      requires Valid()
      ensures address == |code|
    {
      address := 0;
      var s: Scope? := current;
      ghost var i := |scopes| - 1;
      while s != null
        invariant -1 <= i < |scopes|
        invariant s == if i < 0 then null else scopes[i]
        invariant address == |nodes| - (if i < 0 then 0 else End(frames, |nodes|, i))
        decreases i
      {
        assert Owns(scopes[i], frames[i].start, End(frames, |nodes|, i), nodes);
        address := address + s.count;
        s := s.parent;
        i := i - 1;
      }
    }

    // begin_block's scope_init_child
    method Begin(symbolBase: nat, offsetBase: nat)
      requires Valid()
      modifies this
      ensures Valid() && code == old(code) && nodes == old(nodes) && fresh(current) && scopes == old(scopes) + [current]
      ensures frames == old(frames) + [C.Scope(symbolBase, offsetBase, |code|)]
    {
      hide Linked, Owned, Shown, Chained;
      CurrentOpen();
      CurrentOwned();
      CodeLength();
      var child := new Scope(symbolBase, offsetBase, current);
      assert child !in scopes;
      current := child;
      scopes := scopes + [child];
      frames := frames + [C.Scope(symbolBase, offsetBase, |nodes|)];
      ChainedOpened(child);
      LinkedOpened(frames[|frames| - 1]);
      OwnedOpened(child);
      ShownSame();
    }

    twostate lemma ChainedOpened(new child: Scope)
      requires old(Chained()) && child !in old(scopes) && child.parent == old(current) && current == child
      requires scopes == old(scopes) + [child] && |frames| == |scopes|
      requires frames == old(frames) + [C.Scope(child.symbolBase, child.offsetBase, frames[|frames| - 1].start)]
      ensures Chained()
    {
    }

    twostate predicate SameNodes()
      reads this, nodes
    {
      nodes == old(nodes) && forall k | 0 <= k < |nodes| ::
        SameContents(nodes[k]) && nodes[k].next == old(nodes[k].next)
    }

    twostate lemma ShownSame()
      requires old(Shown()) && code == old(code) && nodes == old(nodes)
      requires forall k | 0 <= k < |nodes| :: SameContents(nodes[k])
      ensures Shown()
    {
    }

    twostate lemma LinkedOpened(f: C.Scope)
      requires old(Linked()) && SameNodes() && frames == old(frames) + [f] && f.start == |nodes|
      ensures Linked()
    {
      forall k | 0 <= k < |nodes|
        ensures nodes[k].position == k
        ensures nodes[k].next == (if k + 1 < |nodes| && !Boundary(frames, k + 1) then nodes[k + 1] else null)
      {
        assert SameContents(nodes[k]);
        BoundaryAppend(old(frames), f, k + 1);
      }
    }

    twostate lemma OwnedOpened(new child: Scope)
      requires |old(scopes)| == |old(frames)| && old(Owned()) && nodes == old(nodes)
      requires scopes == old(scopes) + [child] && |frames| == |scopes|
      requires frames == old(frames) + [C.Scope(child.symbolBase, child.offsetBase, |nodes|)]
      requires child.first == null && child.last == null && child.count == 0
      requires forall i | 0 <= i < |old(scopes)| :: SameList(old(scopes)[i])
      ensures Owned()
    {
      forall i | 0 <= i < |scopes|
        ensures Owns(scopes[i], frames[i].start, End(frames, |nodes|, i), nodes)
      {
        if i < |old(scopes)| {
          assert SameList(old(scopes)[i]) && old(Owns(scopes[i], frames[i].start, End(frames, |nodes|, i), nodes));
        }
      }
    }

    // scope_flush: the child's list goes behind the parent's; the root stays.
    method Flush()
      requires Valid()
      modifies this, scopes, nodes
      ensures Valid() && code == old(code) && nodes == old(nodes)
      ensures |old(frames)| == 1 ==> frames == old(frames) && scopes == old(scopes)
      ensures |old(frames)| > 1 ==>
        frames == old(frames)[..|old(frames)| - 1] && scopes == old(scopes)[..|old(scopes)| - 1]
    {
      hide Linked, Owned, Shown;
      assert current == scopes[|scopes| - 1];
      if current.parent != null {
        Merge(current.parent);
      }
    }

    method Merge(parent: Scope)
      requires Valid() && |scopes| >= 2 && parent == scopes[|scopes| - 2]
      modifies this, scopes, nodes
      ensures Valid() && code == old(code) && nodes == old(nodes)
      ensures frames == old(frames)[..|old(frames)| - 1] && scopes == old(scopes)[..|old(scopes)| - 1]
    {
      hide Linked, Owned, Shown, Layout, Owns, Relinked;
      CurrentOwned();
      Relink(parent);
      ghost var top := |scopes| - 1;
      current := parent;
      scopes := scopes[..top];
      frames := frames[..top];
      ShownSame();
      LinkedClosed();
      OwnedClosed();
    }

    // The instruction before b, the child's start, leads to it if the parent,
    // which starts at p, has that instruction; all other links are as before.
    twostate predicate Relinked(b: nat, p: nat)
      reads this`nodes, nodes
    {
      nodes == old(nodes) && forall k {:trigger nodes[k].next} | 0 <= k < |nodes| ::
        nodes[k].next == if k + 1 == b && b < |nodes| && p < b then nodes[b] else old(nodes[k].next)
    }

    method Relink(parent: Scope)
      requires Chained() && Owned() && Linked() && |scopes| >= 2 && parent == scopes[|scopes| - 2]
      modifies parent, nodes
      ensures parent.count == old(parent.count) + current.count
      ensures parent.first == if old(parent.first) == null then current.first else old(parent.first)
      ensures parent.last == if current.last == null then old(parent.last) else current.last
      ensures forall k | 0 <= k < |nodes| :: SameContents(nodes[k])
      ensures Relinked(frames[|frames| - 1].start, frames[|frames| - 2].start)
    {
      hide Linked, Owned;
      CurrentOwned();
      ParentOwned();
      Positions();
      Splice(parent);
    }

    // The child's list, if it has one, becomes the tail of its parent's.
    method Splice(parent: Scope)
      requires parent != current && (current.first == null <==> current.last == null)
      requires current.first == null ==> current.count == 0
      requires parent.first == null <==> parent.last == null
      modifies parent, (if parent.last == null then {} else {parent.last})`next
      ensures parent.count == old(parent.count) + current.count
      ensures parent.first == if old(parent.first) == null then current.first else old(parent.first)
      ensures parent.last == if current.last == null then old(parent.last) else current.last
      ensures old(parent.last) != null
        ==> old(parent.last).next == if current.first == null then old(parent.last.next) else current.first
    {
      hide Owned, Linked, Chained;
      var child := current;
      if child.first != null {
        if parent.last != null {
          parent.last.next := child.first;
        } else {
          parent.first := child.first;
        }
        parent.last := child.last;
        parent.count := parent.count + child.count;
      }
    }

    lemma Positions()
      requires Linked()
      ensures forall k {:trigger nodes[k].position} | 0 <= k < |nodes| :: nodes[k].position == k
      ensures forall i, j | 0 <= i < j < |nodes| :: nodes[i] != nodes[j]
    {
      forall i, j | 0 <= i < j < |nodes|
        ensures nodes[i] != nodes[j]
      {
        assert nodes[i].position == i && nodes[j].position == j;
      }
    }

    lemma ParentOwned()
      requires Chained() && Owned() && |scopes| >= 2
      ensures var top := |scopes| - 1; Owns(scopes[top - 1], frames[top - 1].start, frames[top].start, nodes)
    {
      var top := |scopes| - 1;
      assert Owns(scopes[top - 1], frames[top - 1].start, End(frames, |nodes|, top - 1), nodes);
    }

    twostate lemma LinkedClosed()
      requires old(Linked()) && nodes == old(nodes) && |old(frames)| >= 2 && frames == old(frames)[..|old(frames)| - 1]
      requires Layout(old(frames), |nodes|)
      requires forall k | 0 <= k < |nodes| :: SameContents(nodes[k])
      requires Relinked(old(frames)[|old(frames)| - 1].start, old(frames)[|old(frames)| - 2].start)
      ensures Linked()
    {
      var f := old(frames)[|old(frames)| - 1];
      assert old(frames) == frames + [f];
      forall k | 0 <= k < |nodes|
        ensures nodes[k].position == k
        ensures nodes[k].next == (if k + 1 < |nodes| && !Boundary(frames, k + 1) then nodes[k + 1] else null)
      {
        assert SameContents(nodes[k]);
        BoundaryAppend(frames, f, k + 1);
        if k + 1 == f.start && frames[|frames| - 1].start == f.start {
          assert Boundary(frames, k + 1);
        }
      }
    }

    twostate lemma OwnedClosed()
      requires |old(scopes)| == |old(frames)| >= 2 && old(Owned()) && nodes == old(nodes)
      requires frames == old(frames)[..|old(frames)| - 1] && scopes == old(scopes)[..|old(scopes)| - 1]
      requires forall i | 0 <= i < |scopes| - 1 :: SameList(scopes[i])
      requires var p := scopes[|scopes| - 1]; var c := old(scopes)[|old(scopes)| - 1];
        && p.count == old(p.count) + old(c.count)
        && p.first == (if old(p.first) == null then old(c.first) else old(p.first))
        && p.last == (if old(c.last) == null then old(p.last) else old(c.last))
      ensures Owned()
    {
      hide Spans;
      var top := |old(scopes)| - 1;
      assert old(Owns(scopes[top], frames[top].start, End(frames, |nodes|, top), nodes));
      forall i | 0 <= i < |scopes|
        ensures Owns(scopes[i], frames[i].start, End(frames, |nodes|, i), nodes)
      {
        assert old(Owns(scopes[i], frames[i].start, End(frames, |nodes|, i), nodes));
        assert scopes[i] == old(scopes)[i] && frames[i] == old(frames)[i];
        if i < top - 1 {
          assert frames[i + 1] == old(frames)[i + 1];
          assert SameList(scopes[i]);
        } else {
          var p := scopes[i];
          var c := old(scopes)[top];
          SpansJoined(old(p.first), old(p.last), old(p.count), old(c.first), old(c.last), old(c.count),
                      frames[i].start, old(frames)[top].start, nodes);
        }
      }
    }

    // The instructions themselves and their places are as before; one was added.
    twostate predicate Grown(n: Node)
      reads this, nodes, n
    {
      && nodes == old(nodes) + [n] && n !in old(nodes) && n.position == |old(nodes)|
      && forall m | m in old(nodes) :: m in nodes && SameContents(m)
    }

    twostate lemma ShownGrown(n: Node, new r: Raw)
      requires old(Shown()) && Grown(n) && code == old(code) + [r]
      requires n.op == r.op && n.relative == r.relative && n.comment == r.comment
      requires old(Denotes(n.x, nodes, r.x) && Denotes(n.y, nodes, r.y) && Denotes(n.z, nodes, r.z))
      requires n.x == old(n.x) && n.y == old(n.y) && n.z == old(n.z)
      ensures Shown()
    {
      forall k | 0 <= k < |nodes|
        ensures Shows(nodes[k], nodes, code[k])
      {
        if k < |old(nodes)| {
          assert old(Shows(nodes[k], nodes, code[k]));
          assert SameContents(old(nodes)[k]);
        }
      }
    }

    // scope_add_instruction
    method Add(n: Node, ghost r: Raw)
      requires Valid() && n !in nodes
      requires n.op == r.op && n.relative == r.relative && n.comment == r.comment
      requires Denotes(n.x, nodes, r.x) && Denotes(n.y, nodes, r.y) && Denotes(n.z, nodes, r.z)
      modifies this, current, nodes, n
      ensures Valid() && frames == old(frames) && scopes == old(scopes)
      ensures code == old(code) + [r] && nodes == old(nodes) + [n]
    {
      Append(n, r);
      ShownGrown(n, r);
    }

    twostate lemma LinkedGrown(n: Node)
      requires old(Linked()) && Grown(n) && n.next == null
      requires frames == old(frames) && Layout(frames, |old(nodes)|)
      requires forall k | 0 <= k < |old(nodes)| - 1 :: old(nodes)[k].next == old(nodes[k].next)
      requires old(nodes) != [] ==>
        old(nodes)[|old(nodes)| - 1].next == (if frames[|frames| - 1].start < |old(nodes)| then n else null)
      ensures Linked()
    {
      var m := |nodes| - 1;
      assert frames[|frames| - 1].start == m ==> Boundary(frames, m);
      forall k | 0 <= k < |nodes|
        ensures nodes[k].position == k
        ensures nodes[k].next == (if k + 1 < |nodes| && !Boundary(frames, k + 1) then nodes[k + 1] else null)
      {
        if k < m {
          assert SameContents(old(nodes)[k]);
        }
      }
    }

    twostate lemma OwnedGrown(n: Node)
      requires |scopes| == |frames| && frames == old(frames) && scopes == old(scopes)
      requires old(Owned()) && nodes == old(nodes) + [n]
      requires scopes[|scopes| - 1] == current == old(current)
      requires forall i | 0 <= i < |scopes| - 1 :: SameList(scopes[i])
      requires current.last == n && current.count == old(current.count) + 1
      requires current.first == if old(current.first) == null then n else old(current.first)
      ensures Owned()
    {
      hide Spans;
      forall i | 0 <= i < |scopes|
        ensures Owns(scopes[i], frames[i].start, End(frames, |nodes|, i), nodes)
      {
        assert old(Owns(scopes[i], frames[i].start, End(frames, |nodes|, i), nodes));
        if i < |scopes| - 1 {
          var s := scopes[i];
          assert SameList(s);
          SpansKept(s.first, s.last, s.count, frames[i].start, End(frames, |nodes|, i), old(nodes), nodes);
        } else {
          SpansOneMore(old(current.first), old(current.last), old(current.count), frames[i].start, old(nodes), n);
        }
      }
    }

    // The list surgery, leaving what the instructions are to Add.
    method Append(n: Node, ghost r: Raw)
      requires Chained() && Owned() && Linked() && n !in nodes
      modifies this, current, nodes, n
      ensures Chained() && Owned() && Linked() && frames == old(frames) && scopes == old(scopes)
      ensures Grown(n) && SameSlots(n) && code == old(code) + [r]
    {
      hide Linked, Owned;
      CurrentOwned();
      Hook(n);
      nodes := nodes + [n];
      code := code + [r];
      LinkedGrown(n);
      OwnedGrown(n);
    }

    lemma CurrentOpen()
      requires Chained()
      ensures |scopes| == |frames| >= 1 && scopes[|scopes| - 1] == current && current in scopes
      ensures forall i | 0 <= i < |scopes| - 1 :: scopes[i] != current
    {
    }

    // What the current scope object records.
    lemma CurrentFrame()
      requires Valid()
      ensures |frames| >= 1
      ensures frames[|frames| - 1] == C.Scope(current.symbolBase, current.offsetBase, |code| - current.count)
    {
      CurrentOwned();
      assert scopes[|scopes| - 1].symbolBase == frames[|scopes| - 1].symbolBase;
    }

    lemma CurrentOwned()
      requires Chained() && Owned()
      ensures Layout(frames, |nodes|) && Owns(current, frames[|frames| - 1].start, |nodes|, nodes)
    {
      assert Owns(scopes[|scopes| - 1], frames[|scopes| - 1].start, |nodes|, nodes);
    }

    lemma LastUnlinked()
      requires Linked()
      ensures nodes != [] ==> nodes[|nodes| - 1].next == null
    {
    }

    method Hook(n: Node)
      requires Chained() && Owned() && Linked() && n !in nodes
      modifies current, n`next, n`position, (if current.last == null then {} else {current.last})`next
      ensures n.next == null && n.position == |nodes| && current.last == n && current.count == old(current.count) + 1
      ensures current.first == if old(current.first) == null then n else old(current.first)
      ensures forall k | 0 <= k < |nodes| :: SameContents(nodes[k])
      ensures forall k | 0 <= k < |nodes| - 1 :: nodes[k].next == old(nodes[k].next)
      ensures nodes != [] ==> nodes[|nodes| - 1].next == (if frames[|frames| - 1].start < |nodes| then n else null)
    {
      hide Linked, Owned, Chained;
      CurrentOwned();
      Positions();
      LastUnlinked();
      n.next := null;
      n.position := |nodes|;
      if current.last != null {
        current.last.next := n;
      } else {
        current.first := n;
      }
      current.last := n;
      current.count := current.count + 1;
    }

    // ---------- patching and resolving ----------

    lemma ShownAt(at: nat)
      requires Valid() && at < |nodes|
      ensures |code| == |nodes| && nodes[at].position == at && Shows(nodes[at], nodes, code[at])
    {
      assert nodes[at].position == at;
    }

    twostate lemma ShownPatched(n: Node, new r: Raw)
      requires old(Shown()) && old(Linked()) && nodes == old(nodes) && n in nodes
      requires forall k | 0 <= k < |nodes| :: nodes[k].position == old(nodes[k].position)
      requires forall k | 0 <= k < |nodes| && nodes[k] != n :: SameSlots(nodes[k])
      requires old(n.position) < |old(code)| && code == old(code)[old(n.position) := r]
      requires Shows(n, nodes, r)
      ensures Shown()
    {
      hide Denotes;
      forall k | 0 <= k < |nodes|
        ensures Shows(nodes[k], nodes, code[k])
      {
        var m := nodes[k];
        assert old(nodes[k].position) == k;
        if m != n {
          assert SameSlots(m) && old(Shows(nodes[k], nodes, code[k]));
          DenotesKept(m.x, code[k].x);
          DenotesKept(m.y, code[k].y);
          DenotesKept(m.z, code[k].z);
        }
      }
    }

    twostate lemma DenotesKept(slot: Slot, new a: Argument)
      requires old(Denotes(slot, nodes, a)) && nodes == old(nodes)
      requires forall k | 0 <= k < |nodes| :: nodes[k].position == old(nodes[k].position)
      ensures Denotes(slot, nodes, a)
    {
      if slot.Pointer? && slot.node != null {
        var p := old(slot.node.position);
        assert nodes[p].position == old(nodes[p].position);
      }
    }

    // Overwriting the operands of an instruction already emitted.
    method Patch(n: Node, y: Slot, z: Slot, ghost r: Raw)
      requires Valid() && n in nodes
      requires r.op == n.op && r.relative == n.relative && r.comment == n.comment
      requires Denotes(n.x, nodes, r.x) && Denotes(y, nodes, r.y) && Denotes(z, nodes, r.z)
      modifies this`code, n`y, n`z
      ensures Valid() && n.position < |code| && nodes[n.position] == n && code == old(code)[n.position := r]
      ensures n.y == y && n.z == z
    {
      hide Linked, Owned, Shown;
      PositionOf(n);
      Write(n, y, z);
      code := code[n.position := r];
      forall k | 0 <= k < |nodes|
        ensures nodes[k].position == old(nodes[k].position) && nodes[k].next == old(nodes[k].next)
      {
      }
      DenotesKept(n.x, r.x);
      DenotesKept(y, r.y);
      DenotesKept(z, r.z);
      ShownPatched(n, r);
      LinkedKept();
    }

    method Write(n: Node, y: Slot, z: Slot)
      modifies n`y, n`z
      ensures n.y == y && n.z == z
    {
      n.y, n.z := y, z;
    }

    lemma PositionOf(n: Node)
      requires Linked() && Shown() && n in nodes
      ensures n.position < |nodes| == |code| && nodes[n.position] == n
    {
      var k: nat :| k < |nodes| && nodes[k] == n;
      assert nodes[k].position == k;
    }

    twostate lemma LinkedKept()
      requires old(Linked()) && nodes == old(nodes) && frames == old(frames)
      requires forall k | 0 <= k < |nodes| ::
        nodes[k].position == old(nodes[k].position) && nodes[k].next == old(nodes[k].next)
      ensures Linked()
    {
    }

    // The addresses of all instructions are their positions.
    ghost predicate Addressed()
      reads this`nodes, nodes
    {
      forall k | 0 <= k < |nodes| :: nodes[k].address == k
    }

    // The first instruction of the only scope, and its successors.
    lemma Successors()
      requires Chained() && Owned() && Linked() && |frames| == 1
      ensures current.first == if nodes == [] then null else nodes[0]
      ensures forall k {:trigger nodes[k].next} | 0 <= k < |nodes| ::
        nodes[k].next == if k + 1 < |nodes| then nodes[k + 1] else null
    {
      CurrentOwned();
      forall k | 0 <= k < |nodes|
        ensures nodes[k].next == if k + 1 < |nodes| then nodes[k + 1] else null
      {
        assert !Boundary(frames, k + 1);
      }
    }

    // At most the addresses of instructions have changed.
    twostate predicate Renumbered()
      reads this, nodes
    {
      nodes == old(nodes) && forall k {:trigger SameContents(nodes[k])} {:trigger nodes[k].next} | 0 <= k < |nodes| ::
        SameContents(nodes[k]) && nodes[k].next == old(nodes[k].next)
    }

    // The first pass of scope_resolve_references numbers the instructions.
    method AssignAddresses()
      requires Valid() && |frames| == 1
      modifies nodes
      ensures Addressed() && Renumbered()
    {
      hide Owned, Linked, Shown, Chained;
      Successors();
      Positions();
      var n: Node? := current.first;
      var counter := 0;
      while n != null
        invariant 0 <= counter <= |nodes|
        invariant n == if counter < |nodes| then nodes[counter] else null
        invariant forall k {:trigger nodes[k].address} | 0 <= k < counter :: nodes[k].address == k
        invariant Renumbered()
        decreases |nodes| - counter
      {
        n.address := counter;
        counter := counter + 1;
        n := n.next;
      }
    }

    // A jump's operand as a number: a distance from the jump, or the address
    // of the instruction it points to, 0 for NULL.
    function Resolved(n: Node, slot: Slot): (r: Slot)
      reads n, (match slot case Number(_) => {} case Pointer(p) => if p == null then {} else {p})
    {
      match slot
      case Number(v) => Number(if n.relative then n.address + v else 0)
      case Pointer(p) => Number(if p == null then 0 else p.address)
    }

    lemma ResolvedDenotes(n: Node, slot: Slot, a: Argument)
      requires Addressed() && n in nodes && Denotes(slot, nodes, a)
      ensures Denotes(Resolved(n, slot), nodes, ResolveArgument(a, n.relative, n.address))
    {
    }

    // scope_resolve_references: every instruction ends up as Resolve makes it.
    method ResolveReferences()
      requires Valid() && |frames| == 1
      modifies this`code, nodes
      ensures Valid() && Addressed() && code == ResolveAll(old(code)) && nodes == old(nodes)
    {
      hide Owned, Linked, Shown, Chained;
      AssignAddresses();
      ShownSame();
      LinkedKept();
      RewriteJumps();
    }

    lemma CodeLength()
      requires Shown()
      ensures |code| == |nodes|
    {
    }

    // The second pass.
    method RewriteJumps()
      requires Valid() && Addressed() && |frames| == 1
      modifies this`code, nodes
      ensures Valid() && Addressed() && code == ResolveAll(old(code))
    {
      hide Owned, Linked, Shown, Chained;
      Successors();
      CodeLength();
      ghost var before := code;
      var n: Node? := current.first;
      ghost var k := 0;
      while n != null
        invariant Valid() && Addressed() && 0 <= k <= |nodes| == |before|
        invariant n == if k < |nodes| then nodes[k] else null
        invariant |code| == |before|
        invariant forall i | 0 <= i < k :: code[i] == Resolve(before[i], i)
        invariant forall i | k <= i < |code| :: code[i] == before[i]
        decreases |nodes| - k
      {
        ResolveOne(n, k);
        Successors();
        k := k + 1;
        n := n.next;
      }
      assert code == ResolveAll(before);
    }

    method ResolveOne(n: Node, ghost k: nat)
      requires Valid() && Addressed() && k < |nodes| && nodes[k] == n
      modifies this`code, n`y, n`z
      ensures Valid() && Addressed() && code == old(code)[k := Resolve(old(code)[k], k)]
    {
      assert n.position == k && Shows(nodes[k], nodes, code[k]);
      ghost var r := Resolve(code[k], k);
      ResolvedDenotes(n, n.y, code[k].y);
      ResolvedDenotes(n, n.z, code[k].z);
      if n.op == J {
        Patch(n, Resolved(n, n.y), n.z, r);
      } else if n.op == JF {
        Patch(n, n.y, Resolved(n, n.z), r);
      }
    }

    // ---------- output ----------

    lemma NumbersShown(k: nat)
      requires Shown() && k < |nodes|
      ensures |code| == |nodes| && nodes[k].op == code[k].op && nodes[k].comment == code[k].comment
      ensures NumberOf(nodes[k].x) == Operand(code[k].x) && NumberOf(nodes[k].y) == Operand(code[k].y)
      ensures NumberOf(nodes[k].z) == Operand(code[k].z)
    {
      assert Shows(nodes[k], nodes, code[k]);
    }

    // scope_write_instructions
    method WriteInstructions() returns (out: string)
      requires Valid() && Addressed() && |frames| == 1
      ensures out == Text(code, 0)
    {
      hide Owned, Linked, Shown, Chained, LineOf;
      Successors();
      CodeLength();
      out := "";
      var n: Node? := current.first;
      ghost var k := 0;
      assert code[0..] == code;
      while n != null
        invariant 0 <= k <= |nodes| == |code|
        invariant n == if k < |nodes| then nodes[k] else null
        invariant out + Text(code[k..], k) == Text(code, 0)
        decreases |nodes| - k
      {
        NumbersShown(k);
        assert code[k..][1..] == code[k + 1..];
        ghost var before := out;
        var line := Line(n.op, NumberOf(n.x), NumberOf(n.y), NumberOf(n.z), n.comment, n.address);
        LineAt(k);
        out := out + line;
        assert before + (line + Text(code[k + 1..], k + 1)) == out + Text(code[k + 1..], k + 1);
        k := k + 1;
        n := n.next;
      }
      assert out + "" == out;
    }

    lemma LineAt(k: nat)
      requires Shown() && Addressed() && k < |nodes|
      ensures var n := nodes[k];
        |code| == |nodes| && n.address == k
          && Line(n.op, NumberOf(n.x), NumberOf(n.y), NumberOf(n.z), n.comment, k) == LineOf(code[k], k)
    {
      hide Line;
      NumbersShown(k);
    }

    // scope_write_binary, with instruction_get_binary_bytes
    method WriteBinary() returns (out: seq<byte>)
      requires Valid() && |frames| == 1
      ensures out == Packed(code)
    {
      hide Owned, Linked, Shown, Chained;
      Successors();
      CodeLength();
      out := [];
      var n: Node? := current.first;
      ghost var k := 0;
      assert code[0..] == code && [] + Packed(code) == Packed(code);
      while n != null
        invariant 0 <= k <= |nodes| == |code|
        invariant n == if k < |nodes| then nodes[k] else null
        invariant out + Packed(code[k..]) == Packed(code)
        decreases |nodes| - k
      {
        NumbersShown(k);
        assert code[k..][1..] == code[k + 1..];
        ghost var before := out;
        var word := [OpByte(n.op), Byte(NumberOf(n.x)), Byte(NumberOf(n.y)), Byte(NumberOf(n.z))];
        assert word == Bytes(code[k]);
        out := out + word;
        assert before + (word + Packed(code[k + 1..])) == out + Packed(code[k + 1..]);
        k := k + 1;
        n := n.next;
      }
    }
  }

  twostate predicate SameList(s: Scope)
    reads s
  {
    s.first == old(s.first) && s.last == old(s.last) && s.count == old(s.count)
  }

  twostate predicate SameSlots(n: Node)
    reads n
  {
    n.x == old(n.x) && n.y == old(n.y) && n.z == old(n.z) && n.relative == old(n.relative)
      && n.comment == old(n.comment)
  }

  twostate predicate SameContents(n: Node)
    reads n
  {
    SameSlots(n) && n.position == old(n.position)
  }
}
