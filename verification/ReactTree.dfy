/** Capped serialization of React trees (react/serialize_tree.ts). */
module ReactTree {
  import opened Prelude

  type Id = nat

  /** What is read of a fiber: its tag, whether it has a memoized state, its display name, key and stable id. */
  datatype Data = Data(tag: int, hasMemo: bool, displayName: string, rawKey: Option<string>, stableId: string)

  /** A fiber with what its `child` and `sibling` links lead to; End is null. */
  datatype Fiber = End | Fiber(id: Id, data: Data, child: Fiber, sibling: Fiber)

  /** What a node tells of its fiber. */
  datatype Record = Record(stableId: string, displayName: string, key: Option<string>, hasState: bool, hasHooks: bool)

  /** An emitted node, with the identity of the fiber it stands for. */
  datatype Node = Node(id: Id, record: Record, children: seq<Node>)

  const FUNCTION_COMPONENT_TAG: int := 0
  const CLASS_COMPONENT_TAG: int := 1
  const FORWARD_REF_TAG: int := 11
  const MEMO_COMPONENT_TAG: int := 14

  predicate HasStateFor(d: Data) { d.tag == CLASS_COMPONENT_TAG && d.hasMemo }

  predicate HasHooksFor(d: Data) {
    d.hasMemo && (d.tag == FUNCTION_COMPONENT_TAG || d.tag == FORWARD_REF_TAG || d.tag == MEMO_COMPONENT_TAG)
  }

  function RecordOf(d: Data): Record {
    Record(d.stableId, d.displayName, if d.rawKey == Some("") then None else d.rawKey, HasStateFor(d), HasHooksFor(d))
  }

  // ---------------------------------------------------------------- preorder

  datatype Visit = Visit(id: Id, record: Record, depth: nat)

  /** A sibling chain in preorder, each fiber with its depth. */
  function Preorder(f: Fiber, depth: nat): seq<Visit> {
    if f.End? then []
    else [Visit(f.id, RecordOf(f.data), depth)] + Preorder(f.child, depth + 1) + Preorder(f.sibling, depth)
  }

  function NodePreorder(n: Node, depth: nat): seq<Visit>
    decreases n
  {
    [Visit(n.id, n.record, depth)] + NodesPreorder(n.children, depth + 1)
  }

  function NodesPreorder(ns: seq<Node>, depth: nat): seq<Visit>
    decreases ns
  {
    if ns == [] then [] else NodePreorder(ns[0], depth) + NodesPreorder(ns[1..], depth)
  }

  /** A fiber without its siblings: the tree below it. */
  function Alone(f: Fiber): Fiber { if f.End? then End else Fiber(f.id, f.data, f.child, End) }

  /** The chain with everything more than `room` levels down removed. */
  function Cut(f: Fiber, room: int): Fiber {
    if f.End? then End
    else Fiber(f.id, f.data, if room > 0 then Cut(f.child, room - 1) else End, Cut(f.sibling, room))
  }

  // ---------------------------------------------------------------- serialization

  datatype State = State(emitted: nat, truncated: bool)

  datatype Result = Result(node: Option<Node>, state: State)
  datatype Results = Results(nodes: seq<Node>, state: State)

  function Serialized(f: Fiber, depth: nat, depthLimit: int, s: State, maxNodes: int): Result
    requires f.Fiber?
    decreases f, 0
  {
    if s.emitted >= maxNodes then Result(None, s.(truncated := true))
    else
      var entered := s.(emitted := s.emitted + 1);
      if depth < depthLimit then
        var kids := SerializedChain(f.child, depth + 1, depthLimit, entered, maxNodes);
        Result(Some(Node(f.id, RecordOf(f.data), kids.nodes)), kids.state)
      else
        Result(Some(Node(f.id, RecordOf(f.data), [])), if f.child.End? then entered else entered.(truncated := true))
  }

  /** The sibling loop: it stops at the first fiber that is not emitted. */
  function SerializedChain(f: Fiber, depth: nat, depthLimit: int, s: State, maxNodes: int): Results
    decreases f, 1
  {
    if f.End? then Results([], s)
    else
      var first := Serialized(f, depth, depthLimit, s, maxNodes);
      if first.node.None? then Results([], first.state)
      else
        var rest := SerializedChain(f.sibling, depth, depthLimit, first.state, maxNodes);
        Results([first.node.value] + rest.nodes, rest.state)
  }

  class WalkState {
    var nodesEmitted: nat
    var truncated: bool

    constructor ()
      ensures S() == State(0, false)
    {
      nodesEmitted, truncated := 0, false;
    }

    function S(): State
      reads this
    {
      State(nodesEmitted, truncated)
    }
  }

  /** The nodes so far, followed by the rest. */
  function Joined(nodes: seq<Node>, rest: Results): Results { Results(nodes + rest.nodes, rest.state) }

  /** One sibling further. */
  lemma ChainStep(f: Fiber, depth: nat, depthLimit: int, s: State, maxNodes: int, nodes: seq<Node>)
    requires f.Fiber?
    ensures
      var first := Serialized(f, depth, depthLimit, s, maxNodes);
      Joined(nodes, SerializedChain(f, depth, depthLimit, s, maxNodes))
      == if first.node.None? then Results(nodes, first.state)
         else Joined(nodes + [first.node.value], SerializedChain(f.sibling, depth, depthLimit, first.state, maxNodes))
  {
    var first := Serialized(f, depth, depthLimit, s, maxNodes);
    if first.node.None? {
      assert nodes + [] == nodes;
    } else {
      var rest := SerializedChain(f.sibling, depth, depthLimit, first.state, maxNodes).nodes;
      assert nodes + ([first.node.value] + rest) == nodes + [first.node.value] + rest;
    }
  }

  /** The loop over the children of a fiber. */
  method SerializeChildren(f: Fiber, depth: nat, depthLimit: int, state: WalkState, maxNodes: int)
    returns (children: seq<Node>)
    requires f.Fiber?
    modifies state
    ensures Results(children, state.S()) == SerializedChain(f.child, depth + 1, depthLimit, old(state.S()), maxNodes)
    decreases f, 0
  {
    children := [];
    ghost var all := SerializedChain(f.child, depth + 1, depthLimit, state.S(), maxNodes);
    var cursor := f.child;
    while cursor.Fiber?
      invariant cursor == f.child || cursor < f.child
      invariant all == Joined(children, SerializedChain(cursor, depth + 1, depthLimit, state.S(), maxNodes))
      decreases cursor
    {
      ChainStep(cursor, depth + 1, depthLimit, state.S(), maxNodes, children);
      var childNode := SerializeNode(cursor, depth + 1, depthLimit, state, maxNodes);
      if childNode.None? {
        return;
      }
      children := children + [childNode.value];
      cursor := cursor.sibling;
    }
    assert children + [] == children;
  }

  method SerializeNode(f: Fiber, depth: nat, depthLimit: int, state: WalkState, maxNodes: int)
    returns (node: Option<Node>)
    requires f.Fiber?
    modifies state
    ensures Result(node, state.S()) == Serialized(f, depth, depthLimit, old(state.S()), maxNodes)
    decreases f, 1
  {
    if state.nodesEmitted >= maxNodes {
      state.truncated := true;
      return None;
    }
    state.nodesEmitted := state.nodesEmitted + 1;
    var children: seq<Node> := [];
    if depth < depthLimit {
      children := SerializeChildren(f, depth, depthLimit, state, maxNodes);
    } else if f.child.Fiber? {
      state.truncated := true;
    }
    var key := if f.data.rawKey == Some("") then None else f.data.rawKey;
    var record := Record(f.data.stableId, f.data.displayName, key, HasStateFor(f.data), HasHooksFor(f.data));
    node := Some(Node(f.id, record, children));
  }

  // ---------------------------------------------------------------- one tree

  function Room(s: State, maxNodes: int): nat { if maxNodes > s.emitted then maxNodes - s.emitted else 0 }

  function Emitted(n: Option<Node>, depth: nat): seq<Visit> { if n.Some? then NodePreorder(n.value, depth) else [] }

  lemma FirstNSplit<T>(a: seq<T>, b: seq<T>, n: nat)
    ensures FirstN(a + b, n) == FirstN(a, n) + FirstN(b, n - |FirstN(a, n)|)
  {
    if |a| >= n {
      assert (a + b)[..n] == a[..n];
    } else if |a + b| > n {
      assert (a + b)[..n] == a + b[..n - |a|];
    }
  }

  lemma {:induction false} CutIsSmaller(f: Fiber, room: int, depth: nat)
    ensures |Preorder(Cut(f, room), depth)| <= |Preorder(f, depth)|
  {
    if f.Fiber? {
      if room > 0 {
        CutIsSmaller(f.child, room - 1, depth + 1);
      }
      CutIsSmaller(f.sibling, room, depth);
    }
  }

  /** What serializing a chain must give: the first fibers of its cut preorder,
   * and a flag that says whether any is missing. */
  ghost predicate Faithful(visits: seq<Visit>, s: State, s': State, whole: Fiber, depth: nat, depthLimit: int,
    maxNodes: int) {
    && visits == FirstN(Preorder(Cut(whole, depthLimit - depth), depth), Room(s, maxNodes))
    && s'.emitted == s.emitted + |visits|
    && (s'.truncated <==> s.truncated || |visits| < |Preorder(whole, depth)|)
  }

  lemma PreorderAlone(f: Fiber, depth: nat, room: int)
    requires f.Fiber?
    ensures Preorder(f, depth) == Preorder(Alone(f), depth) + Preorder(f.sibling, depth)
    ensures Preorder(Cut(f, room), depth)
      == Preorder(Cut(Alone(f), room), depth) + Preorder(Cut(f.sibling, room), depth)
    ensures Preorder(Alone(f), depth) == [Visit(f.id, RecordOf(f.data), depth)] + Preorder(f.child, depth + 1)
    ensures Preorder(Cut(Alone(f), room), depth)
      == [Visit(f.id, RecordOf(f.data), depth)] + if room > 0 then Preorder(Cut(f.child, room - 1), depth + 1) else []
  {
    assert Preorder(End, depth) == [];
  }

  /** `serializeNode` emits the first fibers of the cut preorder, in their places, and flags exactly what is missing. */
  lemma {:induction false} SerializedIsFaithful(f: Fiber, depth: nat, depthLimit: int, s: State, maxNodes: int)
    requires f.Fiber?
    ensures
      var r := Serialized(f, depth, depthLimit, s, maxNodes);
      && Faithful(Emitted(r.node, depth), s, r.state, Alone(f), depth, depthLimit, maxNodes)
      && (r.node.None? <==> Room(s, maxNodes) == 0)
    decreases f, 0
  {
    PreorderAlone(f, depth, depthLimit - depth);
    if s.emitted < maxNodes {
      var entered := s.(emitted := s.emitted + 1);
      var head: seq<Visit> := [Visit(f.id, RecordOf(f.data), depth)];
      if depth < depthLimit {
        ChainIsFaithful(f.child, depth + 1, depthLimit, entered, maxNodes);
        FirstNSplit(head, Preorder(Cut(f.child, depthLimit - depth - 1), depth + 1), Room(s, maxNodes));
      } else {
        assert NodesPreorder([], depth + 1) == [];
      }
    }
  }

  /** A fiber, then its later siblings. */
  lemma FaithfulCons(a: seq<Visit>, b: seq<Visit>, s: State, mid: State, s': State, f: Fiber, depth: nat,
    depthLimit: int, maxNodes: int)
    requires f.Fiber? && Faithful(a, s, mid, Alone(f), depth, depthLimit, maxNodes)
    requires Faithful(b, mid, s', f.sibling, depth, depthLimit, maxNodes)
    ensures Faithful(a + b, s, s', f, depth, depthLimit, maxNodes)
  {
    var room := depthLimit - depth;
    PreorderAlone(f, depth, room);
    FirstNSplit(Preorder(Cut(Alone(f), room), depth), Preorder(Cut(f.sibling, room), depth), Room(s, maxNodes));
    CutIsSmaller(Alone(f), room, depth);
    CutIsSmaller(f.sibling, room, depth);
  }

  lemma NothingEmitted(f: Fiber, s: State, depth: nat, depthLimit: int, maxNodes: int)
    requires f.Fiber? && Room(s, maxNodes) == 0
    ensures Faithful([], s, s.(truncated := true), f, depth, depthLimit, maxNodes)
  {}

  lemma {:induction false} ChainIsFaithful(f: Fiber, depth: nat, depthLimit: int, s: State, maxNodes: int)
    ensures
      var r := SerializedChain(f, depth, depthLimit, s, maxNodes);
      Faithful(NodesPreorder(r.nodes, depth), s, r.state, f, depth, depthLimit, maxNodes)
    decreases f, 1
  {
    if f.Fiber? {
      SerializedIsFaithful(f, depth, depthLimit, s, maxNodes);
      var first := Serialized(f, depth, depthLimit, s, maxNodes);
      if first.node.Some? {
        ChainIsFaithful(f.sibling, depth, depthLimit, first.state, maxNodes);
        var rest := SerializedChain(f.sibling, depth, depthLimit, first.state, maxNodes);
        NodesCons(first.node.value, rest.nodes, depth);
        FaithfulCons(Emitted(first.node, depth), NodesPreorder(rest.nodes, depth), s, first.state, rest.state, f,
          depth, depthLimit, maxNodes);
      } else {
        NothingEmitted(f, s, depth, depthLimit, maxNodes);
      }
    }
  }

  lemma NodesCons(n: Node, ns: seq<Node>, depth: nat)
    ensures NodesPreorder([n] + ns, depth) == NodePreorder(n, depth) + NodesPreorder(ns, depth)
  {
    assert ([n] + ns)[1..] == ns;
  }

  // ---------------------------------------------------------------- depths fix the shape

  lemma {:induction false} DeeperFirst(ns: seq<Node>, depth: nat)
    ensures forall i :: 0 <= i < |NodesPreorder(ns, depth)| ==> NodesPreorder(ns, depth)[i].depth >= depth
    ensures ns != [] ==>
      NodesPreorder(ns, depth) != [] && NodesPreorder(ns, depth)[0] == Visit(ns[0].id, ns[0].record, depth)
    decreases ns
  {
    if ns != [] {
      var kids, rest := NodesPreorder(ns[0].children, depth + 1), NodesPreorder(ns[1..], depth);
      DeeperFirst(ns[0].children, depth + 1);
      DeeperFirst(ns[1..], depth);
      assert NodesPreorder(ns, depth) == [Visit(ns[0].id, ns[0].record, depth)] + kids + rest;
    }
  }

  /** Where a run of strictly deeper visits ends is where the next sibling starts. */
  lemma {:induction false} SplitUnique(a: seq<Visit>, b: seq<Visit>, a': seq<Visit>, b': seq<Visit>, depth: nat)
    requires a + b == a' + b'
    requires forall i :: 0 <= i < |a| ==> a[i].depth > depth
    requires forall i :: 0 <= i < |a'| ==> a'[i].depth > depth
    requires (b != [] ==> b[0].depth <= depth) && (b' != [] ==> b'[0].depth <= depth)
    ensures a == a' && b == b'
    decreases |a|
  {
    if a != [] && a' != [] {
      assert (a + b)[1..] == a[1..] + b && (a' + b')[1..] == a'[1..] + b' && (a + b)[0] == (a' + b')[0];
      SplitUnique(a[1..], b, a'[1..], b', depth);
      assert a == [a[0]] + a[1..] && a' == [a'[0]] + a'[1..];
    } else {
      assert a == [] ==> a + b == b;
      assert a' == [] ==> a' + b' == b';
    }
  }

  lemma Unfolded(ns: seq<Node>, depth: nat)
    requires ns != []
    ensures NodesPreorder(ns, depth)
         == [Visit(ns[0].id, ns[0].record, depth)]
           + (NodesPreorder(ns[0].children, depth + 1) + NodesPreorder(ns[1..], depth))
    ensures NodesPreorder(ns, depth)[1..] == NodesPreorder(ns[0].children, depth + 1) + NodesPreorder(ns[1..], depth)
  {}

  lemma FirstNodeFixed(ns: seq<Node>, ms: seq<Node>, depth: nat)
    requires ns != [] && ms != [] && NodesPreorder(ns, depth) == NodesPreorder(ms, depth)
    ensures ns[0].id == ms[0].id && ns[0].record == ms[0].record
    ensures NodesPreorder(ns[0].children, depth + 1) == NodesPreorder(ms[0].children, depth + 1)
    ensures NodesPreorder(ns[1..], depth) == NodesPreorder(ms[1..], depth)
  {
    var a, a' := NodesPreorder(ns[0].children, depth + 1), NodesPreorder(ms[0].children, depth + 1);
    var b, b' := NodesPreorder(ns[1..], depth), NodesPreorder(ms[1..], depth);
    Unfolded(ns, depth);
    Unfolded(ms, depth);
    DeeperFirst(ns[0].children, depth + 1);
    DeeperFirst(ms[0].children, depth + 1);
    DeeperFirst(ns[1..], depth);
    DeeperFirst(ms[1..], depth);
    SplitUnique(a, b, a', b', depth);
  }

  /** Two outputs with the same preorder, depths included, are the same output: parents, children and order agree. */
  lemma {:induction false} PreorderFixesShape(ns: seq<Node>, ms: seq<Node>, depth: nat)
    requires NodesPreorder(ns, depth) == NodesPreorder(ms, depth)
    ensures ns == ms
    decreases ns
  {
    DeeperFirst(ns, depth);
    DeeperFirst(ms, depth);
    if ns != [] && ms != [] {
      FirstNodeFixed(ns, ms, depth);
      PreorderFixesShape(ns[0].children, ms[0].children, depth + 1);
      PreorderFixesShape(ns[1..], ms[1..], depth);
      assert ns == [ns[0]] + ns[1..] && ms == [ms[0]] + ms[1..];
    }
  }

  // ---------------------------------------------------------------- several roots

  /** `selectedIndices`: the root fibers to walk; End where a root element leads to no fiber. */
  function Selected(roots: seq<Fiber>, rootIndex: Option<int>): seq<Fiber> {
    match rootIndex
    case None => roots
    case Some(i) => if 0 <= i < |roots| then [roots[i]] else []
  }

  function SerializedRoots(roots: seq<Fiber>, depthLimit: int, s: State, maxNodes: int): Results {
    if roots == [] then Results([], s)
    else if roots[0].End? then SerializedRoots(roots[1..], depthLimit, s, maxNodes)
    else
      var first := Serialized(roots[0], 0, depthLimit, s, maxNodes);
      var node := if first.node.Some? then [first.node.value] else [];
      if first.state.emitted >= maxNodes then Results(node, first.state)
      else
        var rest := SerializedRoots(roots[1..], depthLimit, first.state, maxNodes);
        Results(node + rest.nodes, rest.state)
  }

  method SerializeTree(roots: seq<Fiber>, rootIndex: Option<int>, depthLimit: int, maxNodes: int)
    returns (nodes: seq<Node>, truncated: bool, rootCount: nat)
    ensures rootCount == |roots|
    ensures rootIndex.None? ==>
              var r := SerializedRoots(roots, depthLimit, State(0, false), maxNodes);
              nodes == r.nodes && truncated == r.state.truncated
    ensures rootIndex.Some? && 0 <= rootIndex.value < |roots| ==>
              var r := SerializedRoots([roots[rootIndex.value]], depthLimit, State(0, false), maxNodes);
              nodes == r.nodes && truncated == r.state.truncated
    ensures rootIndex.Some? && !(0 <= rootIndex.value < |roots|) ==> nodes == [] && !truncated
  {
    rootCount := |roots|;
    var selected := Selected(roots, rootIndex);
    var state := new WalkState();
    nodes := [];
    ghost var all := SerializedRoots(selected, depthLimit, State(0, false), maxNodes);
    assert selected[0..] == selected;
    for i := 0 to |selected|
      invariant all == Joined(nodes, SerializedRoots(selected[i..], depthLimit, state.S(), maxNodes))
    {
      if selected[i].End? {
        assert selected[i..][1..] == selected[i + 1..];
        continue;
      }
      RootsStep(selected, i, nodes, depthLimit, state.S(), maxNodes);
      var node := SerializeNode(selected[i], 0, depthLimit, state, maxNodes);
      if node.Some? {
        nodes := nodes + [node.value];
      }
      if state.nodesEmitted >= maxNodes {
        truncated := state.truncated;
        return;
      }
    }
    truncated := state.truncated;
  }

  lemma RootsStep(roots: seq<Fiber>, i: nat, nodes: seq<Node>, depthLimit: int, s: State, maxNodes: int)
    requires i < |roots| && roots[i].Fiber?
    ensures
      var first := Serialized(roots[i], 0, depthLimit, s, maxNodes);
      var so := nodes + if first.node.Some? then [first.node.value] else [];
      Joined(nodes, SerializedRoots(roots[i..], depthLimit, s, maxNodes))
      == if first.state.emitted >= maxNodes then Results(so, first.state)
         else Joined(so, SerializedRoots(roots[i + 1..], depthLimit, first.state, maxNodes))
  {
    assert roots[i..][1..] == roots[i + 1..];
    var first := Serialized(roots[i], 0, depthLimit, s, maxNodes);
    var one := if first.node.Some? then [first.node.value] else [];
    var rest := SerializedRoots(roots[i + 1..], depthLimit, first.state, maxNodes).nodes;
    assert nodes + (one + rest) == nodes + one + rest;
  }

  /** The trees of all roots in preorder, one after the other. */
  function RootsPreorder(roots: seq<Fiber>): seq<Visit> {
    if roots == [] then [] else Preorder(Alone(roots[0]), 0) + RootsPreorder(roots[1..])
  }

  function CutRoots(roots: seq<Fiber>, depthLimit: int): seq<Visit> {
    if roots == [] then [] else Preorder(Cut(Alone(roots[0]), depthLimit), 0) + CutRoots(roots[1..], depthLimit)
  }

  /** No fiber of these roots lies beyond the depth limit. */
  predicate WithinDepth(roots: seq<Fiber>, depthLimit: int) { |CutRoots(roots, depthLimit)| == |RootsPreorder(roots)| }

  /**
   * The cap is used up exactly by some first roots, all within the depth limit, and fibers follow
   * in a later one.
   */
  ghost predicate FillsAt(roots: seq<Fiber>, depthLimit: int, room: nat, k: nat) {
    && k <= |roots| && WithinDepth(roots[..k], depthLimit)
    && |RootsPreorder(roots[..k])| == room && RootsPreorder(roots[k..]) != []
  }

  ghost predicate FillsExactly(roots: seq<Fiber>, depthLimit: int, room: nat) {
    room > 0 && exists k :: FillsAt(roots, depthLimit, room, k)
  }

  lemma {:induction false} CutRootsSmaller(roots: seq<Fiber>, depthLimit: int)
    ensures |CutRoots(roots, depthLimit)| <= |RootsPreorder(roots)|
  {
    if roots != [] {
      CutIsSmaller(Alone(roots[0]), depthLimit, 0);
      CutRootsSmaller(roots[1..], depthLimit);
    }
  }

  /** Taking the first root along. */
  lemma FillsAtStep(roots: seq<Fiber>, depthLimit: int, room: nat, k: nat)
    requires roots != [] && 0 < k <= |roots|
    ensures
      var whole, cut := |Preorder(Alone(roots[0]), 0)|, |Preorder(Cut(Alone(roots[0]), depthLimit), 0)|;
      FillsAt(roots, depthLimit, room, k) <==>
        cut == whole && whole <= room && FillsAt(roots[1..], depthLimit, room - whole, k - 1)
  {
    assert roots[..k][1..] == roots[1..][..k - 1] && roots[..k][0] == roots[0];
    assert roots[1..][k - 1..] == roots[k..];
    CutIsSmaller(Alone(roots[0]), depthLimit, 0);
    CutRootsSmaller(roots[1..][..k - 1], depthLimit);
  }

  lemma FillsStep(roots: seq<Fiber>, depthLimit: int, room: nat)
    requires roots != [] && room > 0
    ensures
      var whole, cut := |Preorder(Alone(roots[0]), 0)|, |Preorder(Cut(Alone(roots[0]), depthLimit), 0)|;
      FillsExactly(roots, depthLimit, room)
      <==> cut == whole && (if whole == room then RootsPreorder(roots[1..]) != []
                            else whole < room && FillsExactly(roots[1..], depthLimit, room - whole))
  {
    var whole, cut := |Preorder(Alone(roots[0]), 0)|, |Preorder(Cut(Alone(roots[0]), depthLimit), 0)|;
    var rest := roots[1..];
    assert rest[..0] == [] && rest[0..] == rest && roots[..0] == [];
    if k: nat :| FillsAt(roots, depthLimit, room, k) {
      FillsAtStep(roots, depthLimit, room, k);
      if whole == room {
        RootsSplit(rest, k - 1);
      }
    }
    if cut == whole && whole == room && RootsPreorder(rest) != [] {
      FillsAtStep(roots, depthLimit, room, 1);
      assert FillsAt(rest, depthLimit, 0, 0);
    }
    if cut == whole && whole < room && FillsExactly(rest, depthLimit, room - whole) {
      var k: nat :| FillsAt(rest, depthLimit, room - whole, k);
      FillsAtStep(roots, depthLimit, room, k + 1);
    }
  }

  lemma NothingFills(depthLimit: int, room: nat)
    ensures !FillsExactly([], depthLimit, room)
  {
    var none: seq<Fiber> := [];
    assert forall k: nat :: FillsAt(none, depthLimit, room, k) ==> none[k..] == [];
  }

  lemma {:induction false} RootsSplit(roots: seq<Fiber>, k: nat)
    requires k <= |roots|
    ensures RootsPreorder(roots) == RootsPreorder(roots[..k]) + RootsPreorder(roots[k..])
    decreases k
  {
    if k == 0 {
      assert roots[..0] == [] && roots[0..] == roots;
    } else {
      RootsSplit(roots[1..], k - 1);
      assert roots[..k][1..] == roots[1..][..k - 1] && roots[1..][k - 1..] == roots[k..];
    }
  }

  lemma NodesOne(n: Option<Node>, depth: nat)
    ensures NodesPreorder(if n.Some? then [n.value] else [], depth) == Emitted(n, depth)
  {
    if n.Some? {
      NodesCons(n.value, [], depth);
      assert [n.value] + [] == [n.value];
    }
  }

  /** The first fibers of the roots' cut preorders; the flag misses what is left out when the cap is filled exactly. */
  ghost predicate RootsFaithful(visits: seq<Visit>, s: State, s': State, roots: seq<Fiber>, depthLimit: int,
    maxNodes: int) {
    && visits == FirstN(CutRoots(roots, depthLimit), Room(s, maxNodes))
    && s'.emitted == s.emitted + |visits|
    && (s'.truncated <==>
          s.truncated || (|visits| < |RootsPreorder(roots)| && !FillsExactly(roots, depthLimit, Room(s, maxNodes))))
  }

  lemma SkipRoot(visits: seq<Visit>, s: State, s': State, roots: seq<Fiber>, depthLimit: int, maxNodes: int)
    requires roots != [] && roots[0].End? && RootsFaithful(visits, s, s', roots[1..], depthLimit, maxNodes)
    ensures RootsFaithful(visits, s, s', roots, depthLimit, maxNodes)
  {
    var room := Room(s, maxNodes);
    assert CutRoots(roots, depthLimit) == CutRoots(roots[1..], depthLimit)
      && RootsPreorder(roots) == RootsPreorder(roots[1..]);
    if room > 0 {
      FillsStep(roots, depthLimit, room);
    }
  }

  lemma LastRoot(visits: seq<Visit>, s: State, s': State, roots: seq<Fiber>, depthLimit: int, maxNodes: int)
    requires roots != [] && roots[0].Fiber? && s'.emitted >= maxNodes
    requires Faithful(visits, s, s', Alone(roots[0]), 0, depthLimit, maxNodes)
    ensures RootsFaithful(visits, s, s', roots, depthLimit, maxNodes)
  {
    var room := Room(s, maxNodes);
    var cut := Preorder(Cut(Alone(roots[0]), depthLimit), 0);
    CutIsSmaller(Alone(roots[0]), depthLimit, 0);
    FirstNSplit(cut, CutRoots(roots[1..], depthLimit), room);
    if room > 0 {
      FillsStep(roots, depthLimit, room);
    }
  }

  lemma MoreRoots(a: seq<Visit>, b: seq<Visit>, s: State, mid: State, s': State, roots: seq<Fiber>, depthLimit: int,
    maxNodes: int)
    requires roots != [] && roots[0].Fiber? && mid.emitted < maxNodes
    requires Faithful(a, s, mid, Alone(roots[0]), 0, depthLimit, maxNodes)
    requires RootsFaithful(b, mid, s', roots[1..], depthLimit, maxNodes)
    ensures RootsFaithful(a + b, s, s', roots, depthLimit, maxNodes)
  {
    var room := Room(s, maxNodes);
    var cut := Preorder(Cut(Alone(roots[0]), depthLimit), 0);
    CutIsSmaller(Alone(roots[0]), depthLimit, 0);
    CutRootsSmaller(roots[1..], depthLimit);
    FirstNSplit(cut, CutRoots(roots[1..], depthLimit), room);
    FillsStep(roots, depthLimit, room);
    assert a == cut;
  }

  /** The emitted fibers of all selected roots, and what becomes of the flag. */
  lemma {:induction false} RootsAreSerialized(roots: seq<Fiber>, depthLimit: int, s: State, maxNodes: int)
    ensures
      var r := SerializedRoots(roots, depthLimit, s, maxNodes);
      RootsFaithful(NodesPreorder(r.nodes, 0), s, r.state, roots, depthLimit, maxNodes)
  {
    if roots == [] {
      NothingFills(depthLimit, Room(s, maxNodes));
    } else if roots[0].End? {
      RootsAreSerialized(roots[1..], depthLimit, s, maxNodes);
      var r := SerializedRoots(roots, depthLimit, s, maxNodes);
      SkipRoot(NodesPreorder(r.nodes, 0), s, r.state, roots, depthLimit, maxNodes);
    } else {
      SerializedIsFaithful(roots[0], 0, depthLimit, s, maxNodes);
      var first := Serialized(roots[0], 0, depthLimit, s, maxNodes);
      NodesOne(first.node, 0);
      if first.state.emitted >= maxNodes {
        LastRoot(Emitted(first.node, 0), s, first.state, roots, depthLimit, maxNodes);
      } else {
        RootsAreSerialized(roots[1..], depthLimit, first.state, maxNodes);
        var more := SerializedRoots(roots[1..], depthLimit, first.state, maxNodes);
        NodesCons(first.node.value, more.nodes, 0);
        MoreRoots(Emitted(first.node, 0), NodesPreorder(more.nodes, 0), s, first.state, more.state, roots,
          depthLimit, maxNodes);
      }
    }
  }

  /** One selected root: the first fibers of its cut preorder, flagged exactly when some fiber of it is missing. */
  lemma OneRoot(f: Fiber, depthLimit: int, maxNodes: int)
    requires f.Fiber?
    ensures
      var r := SerializedRoots([f], depthLimit, State(0, false), maxNodes);
      var visits := NodesPreorder(r.nodes, 0);
      && visits == FirstN(Preorder(Cut(Alone(f), depthLimit), 0), if maxNodes > 0 then maxNodes else 0)
      && (r.state.truncated <==> |visits| < |Preorder(Alone(f), 0)|)
  {
    RootsAreSerialized([f], depthLimit, State(0, false), maxNodes);
    assert [f][1..] == [];
    assert CutRoots([f], depthLimit) == Preorder(Cut(Alone(f), depthLimit), 0)
      && RootsPreorder([f]) == Preorder(Alone(f), 0);
    if maxNodes > 0 {
      FillsStep([f], depthLimit, maxNodes);
      if |Preorder(Alone(f), 0)| < maxNodes {
        NothingFills(depthLimit, maxNodes - |Preorder(Alone(f), 0)|);
      }
    }
  }

  /** Several roots: the flag misses left-out fibers exactly when the cap is used up at the end of a root. */
  lemma FlagIsSilentIff(roots: seq<Fiber>, depthLimit: int, maxNodes: int)
    ensures
      var r := SerializedRoots(roots, depthLimit, State(0, false), maxNodes);
      |NodesPreorder(r.nodes, 0)| < |RootsPreorder(roots)| && !r.state.truncated
      <==> maxNodes > 0 && FillsExactly(roots, depthLimit, maxNodes)
  {
    RootsAreSerialized(roots, depthLimit, State(0, false), maxNodes);
    if maxNodes > 0 && FillsExactly(roots, depthLimit, maxNodes) {
      var k: nat :| FillsAt(roots, depthLimit, maxNodes, k);
      RootsSplit(roots, k);
    }
  }

  /** For one: two roots of a single fiber each, and a cap of one node. The
   * second root is missing, and nothing says so. */
  lemma FlagIsSilent(a: Id, b: Id, d: Data)
    ensures
      var roots := [Fiber(a, d, End, End), Fiber(b, d, End, End)];
      var r := SerializedRoots(roots, 0, State(0, false), 1);
      && r.nodes == [Node(a, RecordOf(d), [])] && !r.state.truncated
      && RootsPreorder(roots) == [Visit(a, RecordOf(d), 0), Visit(b, RecordOf(d), 0)]
  {
    var roots := [Fiber(a, d, End, End), Fiber(b, d, End, End)];
    var rest: seq<Fiber> := roots[1..];
    assert rest == [roots[1]] && rest[1..] == [];
    assert Preorder(Alone(roots[0]), 0) == [Visit(a, RecordOf(d), 0)];
    assert RootsPreorder(rest) == [Visit(b, RecordOf(d), 0)];
  }

  // ---------------------------------------------------------------- what nodes tell

  /** A fiber of the chain, or below it, with this identity and these facts. */
  predicate Occurs(f: Fiber, id: Id, d: Data) {
    f.Fiber? && ((f.id == id && f.data == d) || Occurs(f.child, id, d) || Occurs(f.sibling, id, d))
  }

  /**
   * Ids, names and non-empty keys as they are; a state for class components that have one, hooks for function,
   * forward-ref and memo components that have a state.
   */
  ghost predicate Tells(r: Record, d: Data) {
    && r.stableId == d.stableId && r.displayName == d.displayName
    && (forall k :: r.key == Some(k) <==> d.rawKey == Some(k) && k != "")
    && (r.hasState <==> d.tag == 1 && d.hasMemo)
    && (r.hasHooks <==> (d.tag == 0 || d.tag == 11 || d.tag == 14) && d.hasMemo)
  }

  lemma RecordTells(d: Data)
    ensures Tells(RecordOf(d), d)
  {}

  lemma {:induction false} VisitsTell(f: Fiber, depth: nat, v: Visit)
    requires v in Preorder(f, depth)
    ensures exists d :: Occurs(f, v.id, d) && Tells(v.record, d)
  {
    if v == Visit(f.id, RecordOf(f.data), depth) {
      RecordTells(f.data);
      assert Occurs(f, v.id, f.data);
    } else if v in Preorder(f.child, depth + 1) {
      VisitsTell(f.child, depth + 1, v);
      var d :| Occurs(f.child, v.id, d) && Tells(v.record, d);
      assert Occurs(f, v.id, d);
    } else {
      VisitsTell(f.sibling, depth, v);
      var d :| Occurs(f.sibling, v.id, d) && Tells(v.record, d);
      assert Occurs(f, v.id, d);
    }
  }

  lemma {:induction false} CutOccurs(f: Fiber, room: int, id: Id, d: Data)
    requires Occurs(Cut(f, room), id, d)
    ensures Occurs(f, id, d)
  {
    if !(f.id == id && f.data == d) {
      if room > 0 && Occurs(Cut(f.child, room - 1), id, d) {
        CutOccurs(f.child, room - 1, id, d);
      } else {
        CutOccurs(f.sibling, room, id, d);
      }
    }
  }

  lemma {:induction false} RootVisitsTell(roots: seq<Fiber>, depthLimit: int, v: Visit)
    requires v in CutRoots(roots, depthLimit)
    ensures exists i, d :: 0 <= i < |roots| && Occurs(Alone(roots[i]), v.id, d) && Tells(v.record, d)
  {
    var first := Alone(roots[0]);
    if v in Preorder(Cut(first, depthLimit), 0) {
      VisitsTell(Cut(first, depthLimit), 0, v);
      var d :| Occurs(Cut(first, depthLimit), v.id, d) && Tells(v.record, d);
      CutOccurs(first, depthLimit, v.id, d);
      assert Occurs(Alone(roots[0]), v.id, d);
    } else {
      RootVisitsTell(roots[1..], depthLimit, v);
      var i, d :| 0 <= i < |roots[1..]| && Occurs(Alone(roots[1..][i]), v.id, d) && Tells(v.record, d);
      assert Occurs(Alone(roots[i + 1]), v.id, d);
    }
  }

  /** Every node emitted stands for a fiber of some root and tells of that fiber. */
  lemma NodesTell(roots: seq<Fiber>, depthLimit: int, maxNodes: int, v: Visit)
    requires v in NodesPreorder(SerializedRoots(roots, depthLimit, State(0, false), maxNodes).nodes, 0)
    ensures exists i, d :: 0 <= i < |roots| && Occurs(Alone(roots[i]), v.id, d) && Tells(v.record, d)
  {
    RootsAreSerialized(roots, depthLimit, State(0, false), maxNodes);
    RootVisitsTell(roots, depthLimit, v);
  }
}
