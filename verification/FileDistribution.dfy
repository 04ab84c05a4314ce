/**
 Distributing files over the nodes of a cluster: images in equal lots with the remainder one by one,
 and the pieces of a split file in ranges as long as each node has cores.
 */
module FileDistribution {
  import opened Wrappers

  // ---------------------------------------------------------------- images

  /** A node's positions in a list of nodes * each + rest: its lot, and for the first nodes one of the rest. */
  function Positions(nodes: nat, each: nat, rest: nat, i: nat): seq<nat> {
    seq(each, k requires 0 <= k < each => i * each + k) + if i < rest then [nodes * each + i] else []
  }

  /** The node that receives a position. */
  function Receiver(nodes: nat, each: nat, rest: nat, p: nat): nat
    requires p < nodes * each + rest
  {
    if p < nodes * each then
      assert each > 0;
      p / each
    else p - nodes * each
  }

  lemma {:induction false} LotsDisjoint(i: nat, i': nat, each: nat)
    requires i < i'
    ensures i * each + each <= i' * each
  {
    if i + 1 < i' {
      LotsDisjoint(i, i' - 1, each);
      assert (i' - 1) * each + each == i' * each;
    } else {
      assert i' * each == i * each + each;
    }
  }

  lemma {:induction false} LotOf(nodes: nat, each: nat, p: nat)
    requires p < nodes * each
    ensures each > 0 && p / each < nodes && p / each * each <= p < p / each * each + each
  {
    assert each > 0;
    assert p == p / each * each + p % each;
    if p / each > nodes { LotsDisjoint(nodes, p / each, each); }
  }

  /** Every position is received, by one node, and there at one place only. */
  lemma {:induction false} ReceivedOnce(nodes: nat, each: nat, rest: nat, p: nat)
    requires rest < nodes && p < nodes * each + rest
    ensures var owner := Receiver(nodes, each, rest, p);
      && owner < nodes && p in Positions(nodes, each, rest, owner)
      && forall i, k ::
        (0 <= i < nodes && 0 <= k < |Positions(nodes, each, rest, i)| && Positions(nodes, each, rest, i)[k] == p) ==>
        i == owner && k == if p < nodes * each then p % each else each
  {
    var owner := Receiver(nodes, each, rest, p);
    if p < nodes * each {
      LotOf(nodes, each, p);
      assert Positions(nodes, each, rest, owner)[p % each] == p;
    } else {
      assert Positions(nodes, each, rest, owner)[each] == p;
    }
    forall i, k | 0 <= i < nodes && 0 <= k < |Positions(nodes, each, rest, i)|
                  && Positions(nodes, each, rest, i)[k] == p
      ensures i == owner && k == if p < nodes * each then p % each else each
    {
      if k < each {
        assert p == i * each + k;
        LotsDisjoint(i, nodes, each);
        if i < owner { LotsDisjoint(i, owner, each); }
        if owner < i { LotsDisjoint(owner, i, each); }
      }
    }
  }

  /** The elements at a node's positions. */
  function Sent<T>(list: seq<T>, nodes: nat, each: nat, rest: nat, i: nat): (sent: seq<T>)
    requires |list| == nodes * each + rest && i < nodes && rest <= nodes
    ensures |sent| == |Positions(nodes, each, rest, i)| && each <= |sent| <= each + 1
    ensures forall k :: 0 <= k < |sent| ==>
      Positions(nodes, each, rest, i)[k] < |list| && sent[k] == list[Positions(nodes, each, rest, i)[k]]
  {
    LotsDisjoint(i, nodes, each);
    list[i * each..i * each + each] + if i < rest then [list[nodes * each + i]] else []
  }

  /** One lot for every node. */
  method DealLots(theList: seq<string>, nodes: nat, filesPerNode: nat) returns (lots: seq<seq<string>>)
    requires nodes * filesPerNode <= |theList|
    ensures |lots| == nodes
    ensures forall i :: 0 <= i < nodes ==> lots[i] == Sent(theList[..nodes * filesPerNode], nodes, filesPerNode, 0, i)
  {
    lots := seq(nodes, _ => []);
    var currentFileNo := 0;
    for i := 0 to nodes
      invariant |lots| == nodes && currentFileNo == i * filesPerNode
      invariant forall k :: 0 <= k < i ==> lots[k] == Sent(theList[..nodes * filesPerNode], nodes, filesPerNode, 0, k)
      invariant forall k :: i <= k < nodes ==> lots[k] == []
    {
      var startFileNo := currentFileNo;
      LotsDisjoint(i, nodes, filesPerNode);
      hide Sent;
      for j := startFileNo to startFileNo + filesPerNode
        invariant |lots| == nodes && currentFileNo == j && lots[i] == theList[startFileNo..j]
        invariant forall k :: 0 <= k < i ==> lots[k] == Sent(theList[..nodes * filesPerNode], nodes, filesPerNode, 0, k)
        invariant forall k :: i < k < nodes ==> lots[k] == []
      {
        lots := lots[i := lots[i] + [theList[j]]];
        currentFileNo := currentFileNo + 1;
      }
      OneLot(theList, nodes, filesPerNode, i);
    }
  }

  lemma {:induction false} OneLot(list: seq<string>, nodes: nat, each: nat, i: nat)
    requires nodes * each <= |list| && i < nodes
    ensures i * each + each <= |list| && (i + 1) * each == i * each + each
    ensures Sent(list[..nodes * each], nodes, each, 0, i) == list[i * each..i * each + each]
  {
    LotsDisjoint(i, nodes, each);
  }

  /** The rest, one file for every node. */
  method DealRest(theList: seq<string>, lots: seq<seq<string>>, startFileNo: nat) returns (dealt: seq<seq<string>>)
    requires startFileNo <= |theList| <= startFileNo + |lots|
    ensures |dealt| == |lots|
    ensures forall i :: 0 <= i < |lots| ==>
      dealt[i] == lots[i] + if i < |theList| - startFileNo then [theList[startFileNo + i]] else []
  {
    dealt := lots;
    for i := 0 to |theList| - startFileNo
      invariant |dealt| == |lots|
      invariant forall j :: 0 <= j < i ==> dealt[j] == lots[j] + [theList[startFileNo + j]]
      invariant forall j :: i <= j < |lots| ==> dealt[j] == lots[j]
    {
      dealt := dealt[i := dealt[i] + [theList[startFileNo + i]]];
    }
  }

  /** What each node is sent; loads differ by one at most. */
  method DistributeImages(theList: seq<string>, nodes: nat) returns (elementsPerNode: seq<seq<string>>)
    requires nodes > 0
    ensures |elementsPerNode| == nodes && |theList| == nodes * (|theList| / nodes) + |theList| % nodes
    ensures forall i :: 0 <= i < nodes ==>
      elementsPerNode[i] == Sent(theList, nodes, |theList| / nodes, |theList| % nodes, i)
    ensures forall i, j :: 0 <= i < nodes && 0 <= j < nodes ==> |elementsPerNode[i]| <= |elementsPerNode[j]| + 1
  {
    var numFiles := |theList|;
    var filesPerNode, remainder := numFiles / nodes, numFiles % nodes;
    assert numFiles == nodes * filesPerNode + remainder;
    var lots := DealLots(theList, nodes, filesPerNode);
    elementsPerNode := DealRest(theList, lots, numFiles - remainder);
    forall i: nat | i < nodes ensures elementsPerNode[i] == Sent(theList, nodes, filesPerNode, remainder, i) {
      OneLot(theList, nodes, filesPerNode, i);
    }
    hide Sent;
  }

  // ---------------------------------------------------------------- pieces

  /** What the number of cores of a node is read as; reading fails if it is not a number. */
  type Cores = Option<int>

  function CoresOf(c: Cores): int {
    if c.Some? then c.value else 0
  }

  function Total(cores: seq<Cores>): int {
    if cores == [] then 0 else Total(cores[..|cores| - 1]) + CoresOf(cores[|cores| - 1])
  }

  /** An unsigned word has 32 bits. */
  const WORD: int := 0x1_0000_0000

  lemma WrapAdds(total: int, n: int)
    ensures (total % WORD + n) % WORD == (total + n) % WORD
  {
    var q := total / WORD;
    assert total + n == (total % WORD + n) + q * WORD;
  }

  /** A number that cannot be read counts as 0; the sum wraps around. */
  method GetSumAllCoresFromNodes(nodes: seq<Cores>) returns (sumCores: int)
    ensures sumCores == Total(nodes) % WORD
  {
    sumCores := 0;
    for i := 0 to |nodes|
      invariant sumCores == Total(nodes[..i]) % WORD
    {
      var curCores := if nodes[i].Some? then nodes[i].value else 0;
      assert nodes[..i + 1][..i] == nodes[..i];
      WrapAdds(Total(nodes[..i]), curCores);
      sumCores := (sumCores + curCores) % WORD;
    }
    assert nodes[..|nodes|] == nodes;
  }

  /** First piece and number of pieces for each node. */
  datatype Range = Range(first: int, count: int)

  ghost predicate Has(r: Range, p: int) {
    r.first <= p < r.first + r.count
  }

  /** A number that cannot be read stops the assignment, although the sum counts it as 0. */
  method AssignRanges(nodes: seq<Cores>) returns (ranges: Option<seq<Range>>)
    ensures ranges.None? <==> exists i :: 0 <= i < |nodes| && nodes[i].None?
    ensures ranges.Some? ==> IsAssignment(nodes, ranges.value)
    ensures ranges.Some? ==> Consecutive(nodes, ranges.value)
  {
    var startWithFileNo, assignment := 0, [];
    for i := 0 to |nodes|
      invariant startWithFileNo == Total(nodes[..i])
      invariant forall k :: 0 <= k < i ==> nodes[k].Some?
      invariant IsAssignment(nodes[..i], assignment)
    {
      if nodes[i].None? { return None; }
      var partNoOfSplitFiles := nodes[i].value;
      assert forall k :: 0 <= k <= i ==> nodes[..i + 1][..k] == nodes[..i][..k];
      assignment := assignment + [Range(startWithFileNo, partNoOfSplitFiles)];
      startWithFileNo := startWithFileNo + partNoOfSplitFiles;
      assert nodes[..i][..i] == nodes[..i];
    }
    assert nodes[..|nodes|] == nodes;
    ranges := Some(assignment);
    AreConsecutive(nodes, assignment);
  }

  /** Each range has as many pieces as the node has cores, and begins where the one before it ends. */
  ghost predicate Consecutive(nodes: seq<Cores>, ranges: seq<Range>) {
    |ranges| == |nodes| && forall i :: 0 <= i < |nodes| ==>
      && nodes[i].Some? && ranges[i].count == nodes[i].value
      && ranges[i].first == if i == 0 then 0 else ranges[i - 1].first + ranges[i - 1].count
  }

  lemma {:induction false} AreConsecutive(nodes: seq<Cores>, ranges: seq<Range>)
    requires IsAssignment(nodes, ranges) && forall i :: 0 <= i < |nodes| ==> nodes[i].Some?
    ensures Consecutive(nodes, ranges)
    ensures Total(nodes) == if nodes == [] then 0 else ranges[|nodes| - 1].first + ranges[|nodes| - 1].count
  {
    forall i | 0 < i < |nodes| ensures ranges[i].first == ranges[i - 1].first + ranges[i - 1].count {
      assert nodes[..i][..i - 1] == nodes[..i - 1];
    }
    assert nodes[..0] == [];
  }

  ghost predicate IsAssignment(nodes: seq<Cores>, ranges: seq<Range>) {
    |ranges| == |nodes|
    && forall i :: 0 <= i < |nodes| ==> ranges[i] == Range(Total(nodes[..i]), CoresOf(nodes[i]))
  }

  lemma {:induction false} TotalMonotone(nodes: seq<Cores>, i: nat, j: nat)
    requires i <= j <= |nodes| && forall k :: 0 <= k < |nodes| ==> CoresOf(nodes[k]) >= 0
    ensures 0 <= Total(nodes[..i]) <= Total(nodes[..j])
    decreases j
  {
    if i < j {
      TotalMonotone(nodes, i, j - 1);
      assert nodes[..j][..j - 1] == nodes[..j - 1];
    } else if i > 0 {
      TotalMonotone(nodes, i - 1, i - 1);
      assert nodes[..i][..i - 1] == nodes[..i - 1];
    }
  }

  lemma {:induction false} RangeEnds(nodes: seq<Cores>, i: nat, j: nat)
    requires i < j <= |nodes| && forall k :: 0 <= k < |nodes| ==> CoresOf(nodes[k]) >= 0
    ensures Total(nodes[..i]) + CoresOf(nodes[i]) <= Total(nodes[..j])
  {
    TotalMonotone(nodes, i + 1, j);
    assert nodes[..i + 1][..i] == nodes[..i];
  }

  /** The pieces 0, ..., sum - 1 are divided: each goes to one node, and no node is sent any other. */
  lemma {:induction false} RangesPartition(nodes: seq<Cores>, ranges: seq<Range>, p: int)
    requires IsAssignment(nodes, ranges) && forall k :: 0 <= k < |nodes| ==> CoresOf(nodes[k]) >= 0
    ensures 0 <= p < Total(nodes) <==> exists i :: 0 <= i < |ranges| && Has(ranges[i], p)
    ensures forall i, j :: 0 <= i < |ranges| && 0 <= j < |ranges| && Has(ranges[i], p) && Has(ranges[j], p) ==> i == j
  {
    forall i, j | 0 <= i < j < |ranges| ensures !(Has(ranges[i], p) && Has(ranges[j], p)) {
      RangeEnds(nodes, i, j);
    }
    if i :| 0 <= i < |ranges| && Has(ranges[i], p) {
      TotalMonotone(nodes, 0, i);
      RangeEnds(nodes, i, |nodes|);
      assert nodes[..|nodes|] == nodes;
    }
    hide Total, CoresOf;
    if 0 <= p < Total(nodes) {
      var i := Owner(nodes, p);
      assert Has(ranges[i], p);
    }
  }

  lemma {:induction false} Owner(nodes: seq<Cores>, p: int) returns (i: nat)
    requires 0 <= p < Total(nodes)
    ensures i < |nodes| && Total(nodes[..i]) <= p < Total(nodes[..i]) + CoresOf(nodes[i])
  {
    var last := |nodes| - 1;
    if p < Total(nodes[..last]) {
      i := Owner(nodes[..last], p);
      assert nodes[..last][..i] == nodes[..i];
    } else {
      i := last;
    }
  }
}
