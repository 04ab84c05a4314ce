/** Distribution of the global memory over the memory-using operators of a tree. */
module QueryMemory {
  import opened QuerySyntax
  import opened OperatorTree

  /** The least any operator gets, in megabytes. */
  const MIN_MEMORY: nat := 16

  /** Number of memory-using operators without an explicit size; explicit sizes add to `spent`. */
  function CountMemory(n: Node, spent: nat): (nat, nat)
    decreases n
  {
    match n.kind
    case Oper(_, _, sons) =>
      var own := if n.usesMemory && n.memorySize == 0 then 1 else 0;
      var spent1 := if n.usesMemory && n.memorySize != 0 then SizeWord(spent + n.memorySize) else spent;
      var (rest, spent2) := CountMemoryIn(sons, spent1);
      (own + rest, spent2)
    case _ => (0, spent)
  }

  function CountMemoryIn(ns: seq<Node>, spent: nat): (nat, nat)
    decreases ns
  {
    if ns == [] then (0, spent)
    else
      var (ops, spent1) := CountMemory(ns[0], spent);
      var (rest, spent2) := CountMemoryIn(ns[1..], spent1);
      (ops + rest, spent2)
  }

  function Distribute(n: Node, per: nat): Node
    decreases n
  {
    match n.kind
    case Oper(alg, op, sons) =>
      n.(memorySize := if n.usesMemory && n.memorySize == 0 then per else n.memorySize,
         kind := Oper(alg, op, DistributeIn(sons, per)))
    case _ => n
  }

  function DistributeIn(ns: seq<Node>, per: nat): seq<Node>
    decreases ns
  {
    if ns == [] then [] else [Distribute(ns[0], per)] + DistributeIn(ns[1..], per)
  }

  /** The equal share of `ops` operators after `spent` has been assigned explicitly. */
  function Share(global: nat, spent: nat, ops: nat): nat
    requires ops > 0
  {
    var per := if global > spent then (global - spent) / ops else 0;
    if per < MIN_MEMORY then MIN_MEMORY else per
  }

  /** The memory part of `Construct`. */
  function AssignMemory(n: Node, global: nat): Node {
    var (ops, spent) := CountMemory(n, 0);
    if ops > 0 then Distribute(n, Share(global, spent, ops)) else n
  }

  // ---------------------------------------------------------------- what it achieves

  /** Sizes of the memory-using operators, in order of appearance; 0 is "not assigned". */
  function Sizes(n: Node): seq<nat>
    decreases n
  {
    if n.kind.Oper? then (if n.usesMemory then [n.memorySize] else []) + SizesIn(n.kind.sons) else []
  }

  function SizesIn(ns: seq<Node>): seq<nat>
    decreases ns
  {
    if ns == [] then [] else Sizes(ns[0]) + SizesIn(ns[1..])
  }

  function Sum(s: seq<nat>): nat {
    if s == [] then 0 else s[0] + Sum(s[1..])
  }

  function Unassigned(s: seq<nat>): nat {
    if s == [] then 0 else (if s[0] == 0 then 1 else 0) + Unassigned(s[1..])
  }

  function Fill(s: seq<nat>, per: nat): (r: seq<nat>)
    ensures |r| == |s|
    ensures forall i :: 0 <= i < |s| ==> r[i] == if s[i] == 0 then per else s[i]
  {
    if s == [] then [] else [if s[0] == 0 then per else s[0]] + Fill(s[1..], per)
  }

  /** The tree with all memory sizes cleared: everything but the assignment. */
  function Erase(n: Node): Node
    decreases n
  {
    match n.kind
    case Oper(alg, op, sons) => n.(memorySize := 0, kind := Oper(alg, op, EraseIn(sons)))
    case _ => n
  }

  function EraseIn(ns: seq<Node>): seq<Node>
    decreases ns
  {
    if ns == [] then [] else [Erase(ns[0])] + EraseIn(ns[1..])
  }

  lemma {:induction false} SumConcat(a: seq<nat>, b: seq<nat>)
    ensures Sum(a + b) == Sum(a) + Sum(b) && Unassigned(a + b) == Unassigned(a) + Unassigned(b)
    decreases |a|
  {
    if a == [] {
      assert a + b == b;
    } else {
      assert (a + b)[1..] == a[1..] + b;
      SumConcat(a[1..], b);
    }
  }

  lemma {:induction false} FillConcat(a: seq<nat>, b: seq<nat>, per: nat)
    ensures Fill(a + b, per) == Fill(a, per) + Fill(b, per)
  {}

  /** A sum in the unsigned word. */
  function SizeWord(n: nat): nat {
    n % SIZE_LIMIT
  }

  lemma SizeWordAdds(a: nat, b: nat)
    ensures SizeWord(SizeWord(a) + b) == SizeWord(a + b)
  {
    var q := a / SIZE_LIMIT;
    assert a + b == (a % SIZE_LIMIT + b) + q * SIZE_LIMIT;
  }

  lemma {:induction false} CountsSizes(n: Node, total: nat)
    ensures CountMemory(n, SizeWord(total)) == (Unassigned(Sizes(n)), SizeWord(total + Sum(Sizes(n))))
    decreases n
  {
    if n.kind.Oper? {
      var own: seq<nat> := if n.usesMemory then [n.memorySize] else [];
      SumConcat(own, SizesIn(n.kind.sons));
      assert n.usesMemory ==> own[1..] == [];
      SizeWordAdds(total, n.memorySize);
      hide SizeWord;
      CountsSizesIn(n.kind.sons, total + Sum(own));
    }
  }

  lemma {:induction false} CountsSizesIn(ns: seq<Node>, total: nat)
    ensures CountMemoryIn(ns, SizeWord(total)) == (Unassigned(SizesIn(ns)), SizeWord(total + Sum(SizesIn(ns))))
    decreases ns
  {
    if ns != [] {
      hide SizeWord;
      SumConcat(Sizes(ns[0]), SizesIn(ns[1..]));
      CountsSizes(ns[0], total);
      CountsSizesIn(ns[1..], total + Sum(Sizes(ns[0])));
    }
  }

  lemma {:induction false} DistributeFills(n: Node, per: nat)
    ensures Sizes(Distribute(n, per)) == Fill(Sizes(n), per) && Erase(Distribute(n, per)) == Erase(n)
    decreases n
  {
    if n.kind.Oper? {
      var own: seq<nat> := if n.usesMemory then [n.memorySize] else [];
      FillConcat(own, SizesIn(n.kind.sons), per);
      assert n.usesMemory ==> own[1..] == [];
      DistributeFillsIn(n.kind.sons, per);
    }
  }

  lemma {:induction false} DistributeFillsIn(ns: seq<Node>, per: nat)
    ensures SizesIn(DistributeIn(ns, per)) == Fill(SizesIn(ns), per) && EraseIn(DistributeIn(ns, per)) == EraseIn(ns)
    decreases ns
  {
    if ns != [] {
      FillConcat(Sizes(ns[0]), SizesIn(ns[1..]), per);
      DistributeFills(ns[0], per);
      DistributeFillsIn(ns[1..], per);
      var ds := DistributeIn(ns, per);
      assert ds[0] == Distribute(ns[0], per) && ds[1..] == DistributeIn(ns[1..], per);
    }
  }

  lemma FillSum(s: seq<nat>, per: nat)
    ensures Sum(Fill(s, per)) == Sum(s) + Unassigned(s) * per
  {
    if s != [] { FillSum(s[1..], per); }
  }

  lemma ShareBounds(rest: nat, ops: nat)
    requires ops > 0
    ensures rest - ops < ops * (rest / ops) <= rest
  {}

  /**
   After `Construct`, nothing but memory sizes has changed, explicit sizes are kept and every
   memory-using operator has memory. With `ops` operators without a size, what they get together is
   just below what the explicit sizes have left of the global memory when that is at least the minimum
   for each, and otherwise exactly the minimum each. The sum of the explicit sizes is one of 64 bits.
   */
  lemma MemoryDistribution(n: Node, global: nat)
    ensures var n' := AssignMemory(n, global);
      var old_, new_, ops, spent := Sizes(n), Sizes(n'), Unassigned(Sizes(n)), SizeWord(Sum(Sizes(n)));
      && Erase(n') == Erase(n) && |new_| == |old_|
      && (forall i :: 0 <= i < |old_| ==> new_[i] > 0 && (old_[i] > 0 ==> new_[i] == old_[i]))
      && (ops > 0 && spent + MIN_MEMORY * ops <= global ==>
            global - spent - ops < Sum(new_) - Sum(old_) <= global - spent)
      && (ops > 0 && spent + MIN_MEMORY * ops > global ==>
            && Sum(new_) - Sum(old_) == MIN_MEMORY * ops
            && forall i :: 0 <= i < |old_| && old_[i] == 0 ==> new_[i] == MIN_MEMORY)
  {
    assert SizeWord(0) == 0;
    CountsSizes(n, 0);
    var ops, spent := Unassigned(Sizes(n)), SizeWord(Sum(Sizes(n)));
    hide SizeWord;
    if ops > 0 {
      var per := Share(global, spent, ops);
      DistributeFills(n, per);
      FillSum(Sizes(n), per);
      if spent + MIN_MEMORY * ops <= global {
        EnoughShare(global - spent, ops);
        ShareBounds(global - spent, ops);
      } else if global > spent {
        ScarceShare(global - spent, ops);
      }
    } else {
      AllAssigned(Sizes(n));
    }
  }

  lemma EnoughShare(rest: nat, ops: nat)
    requires ops > 0 && MIN_MEMORY * ops <= rest
    ensures rest / ops >= MIN_MEMORY
  {}

  lemma ScarceShare(rest: nat, ops: nat)
    requires ops > 0 && MIN_MEMORY * ops > rest
    ensures rest / ops < MIN_MEMORY
  {}

  lemma AllAssigned(s: seq<nat>)
    requires Unassigned(s) == 0
    ensures forall i :: 0 <= i < |s| ==> s[i] > 0
  {}

  // ---------------------------------------------------------------- the passes over the tree

  /** The first pass: counts in its result and accumulates explicit sizes in `spent`. */
  method CountMemoryOperators(n: Node, spentAlready: nat) returns (memOps: nat, spent: nat)
    ensures (memOps, spent) == CountMemory(n, spentAlready)
    decreases n
  {
    memOps, spent := 0, spentAlready;
    if n.kind.Oper? {
      if n.usesMemory {
        if n.memorySize == 0 {
          memOps := 1;
        } else {
          spent := SizeWord(spent + n.memorySize);
        }
      }
      ghost var own, spent1 := memOps, spent;
      var sons := n.kind.sons;
      var i := 0;
      assert sons[0..] == sons;
      while i < |sons|
        invariant 0 <= i <= |sons|
        invariant var rest := CountMemoryIn(sons[i..], spent);
          (own + CountMemoryIn(sons, spent1).0, CountMemoryIn(sons, spent1).1) == (memOps + rest.0, rest.1)
      {
        assert sons[i..][0] == sons[i] && sons[i..][1..] == sons[i + 1..];
        var ops;
        ops, spent := CountMemoryOperators(sons[i], spent);
        memOps := memOps + ops;
        i := i + 1;
      }
      assert sons[i..] == [];
    }
  }

  /** The second pass gives each operator without a size its share. */
  method DistributeMemory(n: Node, per: nat) returns (n': Node)
    ensures n' == Distribute(n, per)
    decreases n
  {
    n' := n;
    if n.kind.Oper? {
      if n.usesMemory && n.memorySize == 0 {
        n' := n'.(memorySize := per);
      }
      var sons, done := n.kind.sons, [];
      var i := 0;
      assert sons[0..] == sons;
      while i < |sons|
        invariant 0 <= i <= |sons|
        invariant DistributeIn(sons, per) == done + DistributeIn(sons[i..], per)
      {
        assert sons[i..][0] == sons[i] && sons[i..][1..] == sons[i + 1..];
        var son := DistributeMemory(sons[i], per);
        done := done + [son];
        i := i + 1;
      }
      assert sons[i..] == [] && done + [] == done;
      n' := n'.(kind := Oper(n.kind.alg, n.kind.opFunId, done));
    }
  }

  /** Both passes, as `Construct` runs them. */
  method ConstructMemory(n: Node, global: nat) returns (n': Node)
    ensures n' == AssignMemory(n, global)
  {
    var ops, spent := CountMemoryOperators(n, 0);
    n' := n;
    if ops > 0 {
      var per := 0;
      if global > spent {
        per := (global - spent) / ops;
      }
      if per < MIN_MEMORY {
        per := MIN_MEMORY;
      }
      n' := DistributeMemory(n, per);
    }
  }
}
