// The source tree of an egg: nodes built by walking a pointer down from the root, then
// sorted in place.
module CodeTree {
  import opened Sequences
  import opened Texts

  // a.name.localeCompare(b.name), of which only the sign counts.
  type Compare = (string, string) -> int

  ghost predicate IsOrder(cmp: Compare) {
    && (forall a, b :: cmp(a, b) < 0 <==> cmp(b, a) > 0)
    && (forall a, b, c :: cmp(a, b) <= 0 && cmp(b, c) <= 0 ==> cmp(a, c) <= 0)
  }

  class TreeNode {
    const name: string
    const path: string
    const dir: bool
    var children: seq<TreeNode>

    constructor (name: string, path: string, dir: bool)
      ensures this.name == name && this.path == path && this.dir == dir && children == []
    {
      this.name, this.path, this.dir, children := name, path, dir, [];
    }
  }

  // A position in the tree: the names from the root down. The root is [].
  type Place = seq<string>

  type Nodes = map<Place, TreeNode>

  // ---- specification ----

  // Every place that some path passes through or ends at, the root aside.
  predicate IsPlace(paths: seq<Place>, p: Place) {
    p != [] && exists i :: 0 <= i < |paths| && p <= paths[i]
  }

  // A place is a directory if the first path that reached it went on.
  predicate IsDir(paths: seq<Place>, p: Place) {
    paths != [] &&
    var n := |paths| - 1;
    if IsPlace(paths[..n], p) then IsDir(paths[..n], p) else p < paths[n]
  }

  ghost predicate Distinct(nodes: Nodes) {
    forall p, q :: p in nodes && q in nodes && p != q ==> nodes[p] != nodes[q]
  }

  // The fields of the node at p, other than its children.
  predicate Labelled(n: TreeNode, p: Place) {
    p != [] ==> n.name == p[|p| - 1] && n.path == Join(p, '/')
  }

  // The children of the node at p are the nodes one step further down, each once.
  ghost predicate Linked(nodes: Nodes, p: Place, cs: seq<TreeNode>) {
    && (forall n :: p + [n] in nodes ==> nodes[p + [n]] in cs)
    && (forall c <- cs :: exists n :: p + [n] in nodes && nodes[p + [n]] == c)
    && NoRepeats(cs)
  }

  // Every node but the root has its parent in the tree.
  ghost predicate Rooted(nodes: Nodes) {
    [] in nodes && forall p :: p in nodes && p != [] ==> p[..|p| - 1] in nodes
  }

  ghost predicate Tree(nodes: Nodes)
    reads nodes.Values
  {
    && Rooted(nodes) && Distinct(nodes)
    && forall p :: p in nodes ==> Labelled(nodes[p], p) && Linked(nodes, p, nodes[p].children)
  }

  // The nodes are the root and one for every place; which are directories is decided too.
  ghost predicate Covers(nodes: Nodes, paths: seq<Place>) {
    && (forall p :: p in nodes <==> p == [] || IsPlace(paths, p))
    && (forall p :: p in nodes && p != [] ==> nodes[p].dir == IsDir(paths, p))
  }

  // Directories first, then by name.
  datatype Label = Label(name: string, dir: bool)

  predicate Before(cmp: Compare, a: Label, b: Label) {
    if a.dir != b.dir then a.dir else cmp(a.name, b.name) <= 0
  }

  function LabelOf(n: TreeNode): Label { Label(n.name, n.dir) }

  ghost predicate Ordered(cmp: Compare, cs: seq<TreeNode>) {
    forall i, j :: 0 <= i < j < |cs| ==> Before(cmp, LabelOf(cs[i]), LabelOf(cs[j]))
  }

  // ---- insertion ----

  // children.find(c => c.name === part)
  method FindChild(cs: seq<TreeNode>, part: string) returns (i: nat)
    ensures i <= |cs|
    ensures i < |cs| ==> cs[i].name == part
    ensures forall j :: 0 <= j < i ==> cs[j].name != part
  {
    i := 0;
    while i < |cs| && cs[i].name != part
      invariant i <= |cs|
      invariant forall j :: 0 <= j < i ==> cs[j].name != part
    {
      i := i + 1;
    }
  }

  lemma SlotOf(nodes: Nodes, p: Place, part: string, i: nat)
    requires Tree(nodes) && p in nodes
    requires i <= |nodes[p].children| && (i < |nodes[p].children| ==> nodes[p].children[i].name == part)
    requires forall j :: 0 <= j < i ==> nodes[p].children[j].name != part
    ensures i < |nodes[p].children| <==> p + [part] in nodes
    ensures i < |nodes[p].children| ==> nodes[p].children[i] == nodes[p + [part]]
  {
    var cs := nodes[p].children;
    assert Linked(nodes, p, cs);
    if i < |cs| {
      assert cs[i] in cs;
      var n :| p + [n] in nodes && nodes[p + [n]] == cs[i];
      assert Labelled(nodes[p + [n]], p + [n]);
    }
    if p + [part] in nodes {
      assert nodes[p + [part]] in cs;
      var j :| 0 <= j < |cs| && cs[j] == nodes[p + [part]];
      assert Labelled(cs[j], p + [part]);
    }
  }

  lemma LinkNewChild(nodes: Nodes, at: Place, part: string, child: TreeNode, cs: seq<TreeNode>)
    requires at in nodes && at + [part] !in nodes && Linked(nodes, at, cs)
    requires forall q :: q in nodes ==> nodes[q] != child
    ensures Linked(nodes[at + [part] := child], at, cs + [child])
  {
    var m := nodes[at + [part] := child];
    forall n | at + [n] in m ensures m[at + [n]] in cs + [child] {
      if n != part {
        assert (at + [n])[|at|] != (at + [part])[|at|];
      }
    }
    forall c <- cs + [child] ensures exists n :: at + [n] in m && m[at + [n]] == c {
      if c in cs {
        var n :| at + [n] in nodes && nodes[at + [n]] == c;
        assert m[at + [n]] == c;
      } else {
        assert m[at + [part]] == c;
      }
    }
    forall c <- cs ensures c != child {
      var n :| at + [n] in nodes && nodes[at + [n]] == c;
    }
    forall i, j | 0 <= i < j < |cs + [child]| ensures (cs + [child])[i] != (cs + [child])[j] {
      assert (cs + [child])[i] == cs[i] && cs[i] in cs;
    }
  }

  lemma SnocSplit(a: Place, x: string, b: Place, y: string)
    ensures a + [x] == b + [y] ==> a == b && x == y
  {
    if a + [x] == b + [y] {
      assert |a + [x]| == |b + [y]|;
      assert a == (a + [x])[..|a|] && b == (b + [y])[..|b|];
      assert x == (a + [x])[|a|] && y == (b + [y])[|b|];
    }
  }

  lemma ParentOf(nodes: Nodes, p: Place, n: string)
    requires Rooted(nodes) && p + [n] in nodes
    ensures p in nodes
  {
    assert (p + [n])[..|p|] == p;
  }

  lemma LinkElsewhere(nodes: Nodes, at: Place, part: string, child: TreeNode, q: Place, cs: seq<TreeNode>)
    requires q != at && Linked(nodes, q, cs) && at + [part] !in nodes
    ensures Linked(nodes[at + [part] := child], q, cs)
  {
    var m := nodes[at + [part] := child];
    forall n ensures q + [n] != at + [part] {
      SnocSplit(q, n, at, part);
    }
    forall c <- cs ensures exists n :: q + [n] in m && m[q + [n]] == c {
      var n :| q + [n] in nodes && nodes[q + [n]] == c;
      assert m[q + [n]] == c;
    }
  }

  lemma LinkLeaf(nodes: Nodes, at: Place, part: string, child: TreeNode)
    requires Rooted(nodes) && at + [part] !in nodes
    ensures Linked(nodes[at + [part] := child], at + [part], [])
  {
    var p := at + [part];
    var m := nodes[p := child];
    forall n ensures p + [n] !in m {
      assert |p + [n]| != |p|;
      if p + [n] in nodes {
        ParentOf(nodes, p, n);
      }
    }
  }

  lemma StillRooted(nodes: Nodes, at: Place, part: string, child: TreeNode)
    requires Rooted(nodes) && Distinct(nodes) && at in nodes
    requires forall q :: q in nodes ==> nodes[q] != child
    ensures Rooted(nodes[at + [part] := child])
    ensures at + [part] !in nodes ==> Distinct(nodes[at + [part] := child])
  {
    assert (at + [part])[..|at|] == at;
  }

  lemma LinkedWithChild(nodes: Nodes, at: Place, part: string, child: TreeNode, before: seq<TreeNode>, q: Place)
    requires Rooted(nodes) && at in nodes && at + [part] !in nodes
    requires forall p :: p in nodes ==> nodes[p] != child
    requires q in nodes && q != at ==> Linked(nodes, q, nodes[q].children)
    requires Linked(nodes, at, before) && nodes[at].children == before + [child] && child.children == []
    requires q in nodes || q == at + [part]
    ensures var m := nodes[at + [part] := child]; Linked(m, q, m[q].children)
  {
    if q == at {
      LinkNewChild(nodes, at, part, child, before);
    } else if q == at + [part] {
      LinkLeaf(nodes, at, part, child);
    } else {
      LinkElsewhere(nodes, at, part, child, q, nodes[q].children);
    }
  }

  lemma TreeWithChild(nodes: Nodes, at: Place, part: string, child: TreeNode, before: seq<TreeNode>)
    requires Rooted(nodes) && Distinct(nodes) && at in nodes && at + [part] !in nodes
    requires forall q :: q in nodes ==> nodes[q] != child && Labelled(nodes[q], q)
    requires forall q :: q in nodes && q != at ==> Linked(nodes, q, nodes[q].children)
    requires Linked(nodes, at, before) && nodes[at].children == before + [child]
    requires Labelled(child, at + [part]) && child.children == []
    ensures Tree(nodes[at + [part] := child])
  {
    var m := nodes[at + [part] := child];
    StillRooted(nodes, at, part, child);
    forall q | q in m ensures Labelled(m[q], q) && Linked(m, q, m[q].children) {
      LinkedWithChild(nodes, at, part, child, before, q);
    }
  }

  // One step down, creating the child if it is missing.
  method Descend(cur: TreeNode, part: string, p: string, isLeaf: bool, ghost at: Place, ghost nodes: Nodes)
    returns (child: TreeNode, ghost nodes': Nodes)
    requires Tree(nodes) && at in nodes && nodes[at] == cur && p == Join(at + [part], '/')
    modifies cur`children
    ensures Tree(nodes') && nodes'.Keys == nodes.Keys + {at + [part]} && nodes'[at + [part]] == child
    ensures forall q :: q in nodes ==> nodes'[q] == nodes[q]
    ensures forall q :: q in nodes' && q !in nodes ==> fresh(nodes'[q])
    ensures at + [part] !in nodes ==> child.dir == !isLeaf
  {
    var i := FindChild(cur.children, part);
    SlotOf(nodes, at, part, i);
    if i < |cur.children| {
      child := cur.children[i];
      nodes' := nodes;
    } else {
      child := new TreeNode(part, p, !isLeaf);
      ghost var before := cur.children;
      cur.children := cur.children + [child];
      nodes' := nodes[at + [part] := child];
      TreeWithChild(nodes, at, part, child, before);
    }
  }

  lemma PlaceSnoc(paths: seq<Place>, x: Place, p: Place)
    ensures IsPlace(paths + [x], p) <==> IsPlace(paths, p) || (p != [] && p <= x)
    ensures IsDir(paths + [x], p) <==> if IsPlace(paths, p) then IsDir(paths, p) else p < x
  {
    var all := paths + [x];
    assert all[..|all| - 1] == paths;
    assert all[|all| - 1] == x;
    forall i | 0 <= i < |paths| ensures all[i] == paths[i] {
    }
  }

  // The state of the walk after i parts of the path.
  ghost predicate Partly(m: Nodes, nodes: Nodes, parts: Place, i: nat)
    requires i <= |parts|
  {
    && (forall q :: q in m <==> q in nodes || q <= parts[..i])
    && (forall q :: q in nodes ==> m[q] == nodes[q])
    && (forall q :: q in m && q !in nodes ==> m[q].dir == (q < parts))
  }

  lemma PrefixSnoc(parts: Place, i: nat, q: Place)
    requires i < |parts|
    ensures q <= parts[..i + 1] <==> q <= parts[..i] || q == parts[..i + 1]
  {
    assert parts[..i] <= parts[..i + 1];
    if q <= parts[..i + 1] && q != parts[..i + 1] {
      assert q == parts[..|q|] && q == parts[..i][..|q|];
    }
  }

  lemma PartlyStep(m: Nodes, m': Nodes, nodes: Nodes, parts: Place, i: nat)
    requires i < |parts| && Partly(m, nodes, parts, i)
    requires m'.Keys == m.Keys + {parts[..i + 1]}
    requires forall q :: q in m ==> m'[q] == m[q]
    requires parts[..i + 1] !in m ==> m'[parts[..i + 1]].dir == (i + 1 < |parts|)
    ensures Partly(m', nodes, parts, i + 1)
  {
    forall q: Place ensures q in m' <==> q in nodes || q <= parts[..i + 1] {
      PrefixSnoc(parts, i, q);
    }
    assert parts[..i + 1] < parts <==> i + 1 < |parts|;
  }

  lemma PartlyDone(m: Nodes, nodes: Nodes, parts: Place, paths: seq<Place>)
    requires Partly(m, nodes, parts, |parts|) && Covers(nodes, paths)
    ensures Covers(m, paths + [parts])
  {
    assert parts[..|parts|] == parts;
    forall p ensures p in m <==> p == [] || IsPlace(paths + [parts], p) {
      PlaceSnoc(paths, parts, p);
    }
    forall p | p in m && p != [] ensures m[p].dir == IsDir(paths + [parts], p) {
      PlaceSnoc(paths, parts, p);
    }
  }

  // parts.forEach: walk down from the root, creating what is missing.
  method Insert(root: TreeNode, parts: seq<string>, ghost paths: seq<Place>, ghost nodes: Nodes)
    returns (ghost m: Nodes)
    requires Tree(nodes) && nodes[[]] == root && Covers(nodes, paths)
    modifies nodes.Values
    ensures Tree(m) && Covers(m, paths + [parts])
    ensures forall q :: q in nodes ==> q in m && m[q] == nodes[q]
    ensures forall q :: q in m && q !in nodes ==> fresh(m[q])
  {
    m := nodes;
    var cur := root;
    assert parts[..0] == [];
    for i := 0 to |parts|
      invariant Tree(m) && Partly(m, nodes, parts, i)
      invariant parts[..i] in m && m[parts[..i]] == cur
      invariant forall q :: q in m && q !in nodes ==> fresh(m[q])
    {
      Snoc(parts, i);
      ghost var m0 := m;
      assert cur in m.Values;
      cur, m := Descend(cur, parts[i], Join(parts[..i + 1], '/'), i == |parts| - 1, parts[..i], m);
      PartlyStep(m0, m, nodes, parts, i);
    }
    PartlyDone(m, nodes, parts, paths);
  }

  // ---- sorting ----

  lemma BeforeIsOrder(cmp: Compare, a: Label, b: Label, c: Label)
    requires IsOrder(cmp)
    ensures Before(cmp, a, b) || Before(cmp, b, a)
    ensures Before(cmp, a, b) && Before(cmp, b, c) ==> Before(cmp, a, c)
  {
  }

  method InsertChild(cmp: Compare, sorted: seq<TreeNode>, c: TreeNode) returns (r: seq<TreeNode>)
    requires IsOrder(cmp) && Ordered(cmp, sorted)
    ensures Ordered(cmp, r) && multiset(r) == multiset(sorted) + multiset{c}
  {
    var k := |sorted|;
    while k > 0 && !Before(cmp, LabelOf(sorted[k - 1]), LabelOf(c))
      invariant 0 <= k <= |sorted|
      invariant forall j :: k <= j < |sorted| ==> Before(cmp, LabelOf(c), LabelOf(sorted[j]))
    {
      k := k - 1;
      BeforeIsOrder(cmp, LabelOf(sorted[k]), LabelOf(c), LabelOf(c));
    }
    r := sorted[..k] + [c] + sorted[k..];
    InsertedOrdered(cmp, sorted, c, k);
    InsertedMembers(sorted, c, k);
  }

  lemma InsertedMembers(sorted: seq<TreeNode>, c: TreeNode, k: nat)
    requires k <= |sorted|
    ensures multiset(sorted[..k] + [c] + sorted[k..]) == multiset(sorted) + multiset{c}
  {
    assert sorted == sorted[..k] + sorted[k..];
  }

  lemma InsertedOrdered(cmp: Compare, sorted: seq<TreeNode>, c: TreeNode, k: nat)
    requires IsOrder(cmp) && Ordered(cmp, sorted) && k <= |sorted|
    requires k > 0 ==> Before(cmp, LabelOf(sorted[k - 1]), LabelOf(c))
    requires forall j :: k <= j < |sorted| ==> Before(cmp, LabelOf(c), LabelOf(sorted[j]))
    ensures Ordered(cmp, sorted[..k] + [c] + sorted[k..])
  {
    var r := sorted[..k] + [c] + sorted[k..];
    forall i, j | 0 <= i < j < |r| ensures Before(cmp, LabelOf(r[i]), LabelOf(r[j])) {
      if j == k && i < k - 1 {
        BeforeIsOrder(cmp, LabelOf(r[i]), LabelOf(sorted[k - 1]), LabelOf(c));
      } else if i < k < j {
        assert r[i] == sorted[i] && r[j] == sorted[j - 1];
      } else if k < i {
        assert r[i] == sorted[i - 1] && r[j] == sorted[j - 1];
      }
    }
  }

  // n.children.sort, stable.
  method SortChildren(cmp: Compare, n: TreeNode)
    requires IsOrder(cmp)
    modifies n
    ensures Ordered(cmp, n.children) && multiset(n.children) == multiset(old(n.children))
  {
    var cs, sorted := n.children, [];
    for i := 0 to |cs|
      invariant Ordered(cmp, sorted) && multiset(sorted) == multiset(cs[..i])
    {
      Snoc(cs, i);
      sorted := InsertChild(cmp, sorted, cs[i]);
    }
    Whole(cs);
    n.children := sorted;
  }

  lemma Reordered(nodes: Nodes, p: Place, cs: seq<TreeNode>, cs': seq<TreeNode>)
    requires Linked(nodes, p, cs) && multiset(cs') == multiset(cs)
    ensures Linked(nodes, p, cs')
  {
    forall c: TreeNode ensures c in cs' <==> c in cs {
      assert c in cs' <==> c in multiset(cs');
    }
    StillOnce(cs, cs');
  }

  lemma {:induction false} PrefixIn(nodes: Nodes, q: Place, k: nat)
    requires Rooted(nodes) && q in nodes && k <= |q|
    ensures q[..k] in nodes
    decreases |q|
  {
    if k == |q| {
      assert q[..k] == q;
    } else {
      var up := q[..|q| - 1];
      PrefixIn(nodes, up, k);
      assert up[..k] == q[..k];
    }
  }

  // q lies in the subtree of one of these children of p.
  ghost predicate Under(nodes: Nodes, p: Place, cs: seq<TreeNode>, q: Place)
    requires Rooted(nodes) && q in nodes
  {
    p < q && (PrefixIn(nodes, q, |p| + 1); nodes[q[..|p| + 1]] in cs)
  }

  lemma ChildPlace(nodes: Nodes, p: Place, c: TreeNode)
    requires Tree(nodes) && p in nodes && c in nodes[p].children
    ensures p + [c.name] in nodes && nodes[p + [c.name]] == c
  {
    assert Linked(nodes, p, nodes[p].children);
    var n :| p + [n] in nodes && nodes[p + [n]] == c;
    assert Labelled(nodes[p + [n]], p + [n]);
  }

  lemma StepOfPrefix(p: Place, n: string, q: Place)
    ensures p + [n] <= q <==> p < q && q[..|p| + 1] == p + [n]
  {
    if p + [n] <= q {
      assert q[..|p|] == (p + [n])[..|p|] == p;
    }
  }

  lemma UnderNext(nodes: Nodes, p: Place, cs: seq<TreeNode>, i: nat, q: Place)
    requires Tree(nodes) && p in nodes && nodes[p].children == cs && i < |cs| && q in nodes
    ensures Under(nodes, p, cs[..i + 1], q) <==> Under(nodes, p, cs[..i], q) || p + [cs[i].name] <= q
    ensures Under(nodes, p, cs[..i], q) ==> !(p + [cs[i].name] <= q)
  {
    StepOfPrefix(p, cs[i].name, q);
    ChildPlace(nodes, p, cs[i]);
    if p < q {
      PrefixIn(nodes, q, |p| + 1);
      Snoc(cs, i);
      assert Linked(nodes, p, cs);
      if nodes[q[..|p| + 1]] == cs[i] {
        assert q[..|p| + 1] == p + [cs[i].name];
      }
    }
  }

  lemma StepBelow(p: Place, q: Place)
    requires p < q
    ensures q[..|p| + 1] == p + [q[|p|]]
  {
    Snoc(q, |p|);
    assert q[..|p|] == p;
  }

  lemma UnderAll(nodes: Nodes, p: Place, q: Place)
    requires Tree(nodes) && p in nodes && q in nodes && p < q
    ensures Under(nodes, p, nodes[p].children, q)
  {
    PrefixIn(nodes, q, |p| + 1);
    StepBelow(p, q);
    assert Linked(nodes, p, nodes[p].children);
  }

  lemma UnderNexts(nodes: Nodes, p: Place, cs: seq<TreeNode>, i: nat)
    requires Tree(nodes) && p in nodes && nodes[p].children == cs && i < |cs|
    ensures forall q :: q in nodes ==>
      (Under(nodes, p, cs[..i + 1], q) <==> Under(nodes, p, cs[..i], q) || p + [cs[i].name] <= q)
    ensures forall q :: q in nodes && Under(nodes, p, cs[..i], q) ==> !(p + [cs[i].name] <= q)
    ensures forall q :: q in nodes && p + [cs[i].name] <= q ==> p < q
  {
    forall q | q in nodes
      ensures Under(nodes, p, cs[..i + 1], q) <==> Under(nodes, p, cs[..i], q) || p + [cs[i].name] <= q
      ensures Under(nodes, p, cs[..i], q) ==> !(p + [cs[i].name] <= q)
      ensures p + [cs[i].name] <= q ==> p < q
    {
      UnderNext(nodes, p, cs, i, q);
      StepOfPrefix(p, cs[i].name, q);
    }
  }

  method SortAt(cmp: Compare, n: TreeNode, ghost p: Place, ghost nodes: Nodes)
    requires IsOrder(cmp) && Tree(nodes) && p in nodes && nodes[p] == n
    modifies n
    ensures Tree(nodes) && Ordered(cmp, n.children)
    ensures forall q :: q in nodes && q != p ==> nodes[q].children == old(nodes[q].children)
  {
    SortChildren(cmp, n);
    Reordered(nodes, p, old(n.children), n.children);
  }

  // sortRec, from the node at p down.
  method SortRec(cmp: Compare, n: TreeNode, ghost p: Place, ghost nodes: Nodes, ghost depth: nat)
    requires IsOrder(cmp) && Tree(nodes)
    requires p in nodes && nodes[p] == n && forall q :: q in nodes ==> |q| <= depth
    modifies nodes.Values
    ensures Tree(nodes)
    ensures forall q :: q in nodes && p <= q ==> Ordered(cmp, nodes[q].children)
    ensures forall q :: q in nodes && !(p <= q) ==> nodes[q].children == old(nodes[q].children)
    decreases depth - |p|, 1
  {
    SortAt(cmp, n, p, nodes);
    SortBelow(cmp, n, p, nodes, depth);
    forall q | q in nodes && p <= q && p != q ensures Ordered(cmp, nodes[q].children) {
      UnderAll(nodes, p, q);
    }
  }

  // n.children.forEach(sortRec)
  method SortBelow(cmp: Compare, n: TreeNode, ghost p: Place, ghost nodes: Nodes, ghost depth: nat)
    requires IsOrder(cmp) && Tree(nodes)
    requires p in nodes && nodes[p] == n && forall q :: q in nodes ==> |q| <= depth
    modifies nodes.Values
    ensures Tree(nodes) && n.children == old(n.children)
    ensures forall q :: q in nodes && Under(nodes, p, n.children, q) ==> Ordered(cmp, nodes[q].children)
    ensures forall q :: q in nodes && !(p <= q) ==> nodes[q].children == old(nodes[q].children)
    decreases depth - |p|, 0
  {
    var cs := n.children;
    for i := 0 to |cs|
      invariant Tree(nodes) && n.children == cs
      invariant forall q :: q in nodes && Under(nodes, p, cs[..i], q) ==> Ordered(cmp, nodes[q].children)
      invariant forall q :: q in nodes && !(p <= q) ==> nodes[q].children == old(nodes[q].children)
    {
      ChildPlace(nodes, p, cs[i]);
      UnderNexts(nodes, p, cs, i);
      SortRec(cmp, cs[i], p + [cs[i].name], nodes, depth);
    }
    Whole(cs);
  }

  function Places(paths: seq<string>): (r: seq<Place>)
    ensures |r| == |paths|
    ensures forall i :: 0 <= i < |r| ==> r[i] == Split(paths[i], '/')
  {
    if paths == [] then []
    else Places(paths[..|paths| - 1]) + [Split(paths[|paths| - 1], '/')]
  }

  function Depth(paths: seq<Place>): (d: nat)
    ensures forall i :: 0 <= i < |paths| ==> |paths[i]| <= d
  {
    if paths == [] then 0
    else
      var d := Depth(paths[..|paths| - 1]);
      if d < |paths[|paths| - 1]| then |paths[|paths| - 1]| else d
  }

  lemma RootAlone(root: TreeNode, nodes: Nodes)
    requires nodes == map[[] := root] && root.children == []
    ensures Tree(nodes) && Covers(nodes, [])
  {
  }

  lemma PlacesSnoc(paths: seq<string>, k: nat)
    requires k < |paths|
    ensures Places(paths[..k + 1]) == Places(paths[..k]) + [Split(paths[k], '/')]
  {
    Snoc(paths, k);
  }

  // paths.forEach
  method InsertPaths(paths: seq<string>) returns (root: TreeNode, ghost nodes: Nodes)
    ensures Tree(nodes) && Covers(nodes, Places(paths)) && nodes[[]] == root
    ensures forall q :: q in nodes ==> fresh(nodes[q])
  {
    root := new TreeNode("", "", true);
    nodes := map[[] := root];
    RootAlone(root, nodes);
    for k := 0 to |paths|
      invariant Tree(nodes) && Covers(nodes, Places(paths[..k]))
      invariant nodes[[]] == root && forall q :: q in nodes ==> fresh(nodes[q])
    {
      ghost var before := nodes;
      PlacesSnoc(paths, k);
      nodes := Insert(root, Split(paths[k], '/'), Places(paths[..k]), nodes);
      forall q | q in nodes ensures fresh(nodes[q]) {
        assert q in before ==> nodes[q] == before[q];
      }
    }
    Whole(paths);
  }

  lemma NoDeeper(nodes: Nodes, all: seq<Place>)
    requires Covers(nodes, all)
    ensures forall q :: q in nodes ==> |q| <= Depth(all)
  {
    forall q | q in nodes ensures |q| <= Depth(all) {
      assert q == [] || IsPlace(all, q);
    }
  }

  method BuildTree(cmp: Compare, paths: seq<string>) returns (children: seq<TreeNode>, ghost nodes: Nodes)
    requires IsOrder(cmp)
    ensures Tree(nodes) && Covers(nodes, Places(paths))
    ensures forall q :: q in nodes ==> fresh(nodes[q])
    ensures children == nodes[[]].children
    ensures forall p :: p in nodes ==> Ordered(cmp, nodes[p].children)
    ensures forall p, i, j :: p in nodes && 0 <= i < j < |nodes[p].children| ==>
              var a, b := nodes[p].children[i], nodes[p].children[j];
              if a.dir == b.dir then cmp(a.name, b.name) <= 0 else a.dir && !b.dir
  {
    var root;
    root, nodes := InsertPaths(paths);
    NoDeeper(nodes, Places(paths));
    SortRec(cmp, root, [], nodes, Depth(Places(paths)));
    children := root.children;
  }

  // Somewhere in a sorted list the directories end and the files begin, and both parts are in
  // the order of their names.
  lemma DirectoriesFirst(cmp: Compare, cs: seq<TreeNode>) returns (k: nat)
    requires Ordered(cmp, cs)
    ensures k <= |cs|
    ensures forall i :: 0 <= i < |cs| ==> (cs[i].dir <==> i < k)
    ensures forall i, j :: 0 <= i < j < k ==> cmp(cs[i].name, cs[j].name) <= 0
    ensures forall i, j :: k <= i < j < |cs| ==> cmp(cs[i].name, cs[j].name) <= 0
  {
    k := 0;
    while k < |cs| && cs[k].dir
      invariant k <= |cs| && forall i :: 0 <= i < k ==> cs[i].dir
    {
      k := k + 1;
    }
    forall i, j | 0 <= i < j < |cs|
      ensures if cs[i].dir == cs[j].dir then cmp(cs[i].name, cs[j].name) <= 0 else cs[i].dir
    {
      assert Before(cmp, LabelOf(cs[i]), LabelOf(cs[j]));
    }
  }

  // ---- what the tree means ----

  predicate IsFile(paths: seq<Place>, p: Place) {
    IsPlace(paths, p) && !IsDir(paths, p)
  }

  // The first path to reach p decides what p is.
  lemma {:induction false} FirstDecides(paths: seq<Place>, p: Place, k: nat)
    requires k < |paths| && p != [] && p <= paths[k]
    requires forall j :: 0 <= j < k ==> !(p <= paths[j])
    ensures IsDir(paths, p) <==> p < paths[k]
  {
    var n := |paths| - 1;
    if k == n {
      assert !IsPlace(paths[..n], p);
    } else {
      assert paths[..n][k] == paths[k];
      FirstDecides(paths[..n], p, k);
    }
  }

  lemma {:induction false} FirstReach(paths: seq<Place>, p: Place) returns (k: nat)
    requires IsPlace(paths, p)
    ensures k < |paths| && p <= paths[k] && forall j :: 0 <= j < k ==> !(p <= paths[j])
  {
    k := 0;
    while !(p <= paths[k])
      invariant k < |paths| && forall j :: 0 <= j < k ==> !(p <= paths[j])
      invariant exists i :: k <= i < |paths| && p <= paths[i]
      decreases |paths| - k
    {
      k := k + 1;
    }
  }

  // p was listed before any path went through it.
  predicate ListedFirst(paths: seq<Place>, p: Place) {
    exists k :: 0 <= k < |paths| && paths[k] == p && forall j :: 0 <= j < k ==> !(p <= paths[j])
  }

  lemma FilesAreListedFirst(paths: seq<Place>, p: Place)
    requires p != []
    ensures IsFile(paths, p) <==> ListedFirst(paths, p)
  {
    if IsFile(paths, p) {
      var k := FirstReach(paths, p);
      FirstDecides(paths, p, k);
      assert paths[k] == p;
    }
    if ListedFirst(paths, p) {
      var k :| 0 <= k < |paths| && paths[k] == p && forall j :: 0 <= j < k ==> !(p <= paths[j]);
      FirstDecides(paths, p, k);
    }
  }

  // No path is listed only after one that continues it.
  predicate Unshadowed(paths: seq<Place>) {
    forall i, j :: 0 <= i < j < |paths| && paths[j] < paths[i] ==> paths[j] in paths[..i]
  }

  lemma {:induction false} FirstListing(paths: seq<Place>, p: Place) returns (k: nat)
    requires p in paths
    ensures k < |paths| && paths[k] == p && p !in paths[..k]
  {
    k := 0;
    while paths[k] != p
      invariant k < |paths| && p !in paths[..k] && p in paths[k..]
      decreases |paths| - k
    {
      Snoc(paths, k);
      k := k + 1;
    }
  }

  lemma ReachedEarlier(paths: seq<Place>, j: nat, k: nat)
    requires Unshadowed(paths) && j < k < |paths| && paths[k] <= paths[j]
    ensures paths[k] in paths[..k]
  {
    assert paths[..k][j] == paths[j];
    if paths[k] != paths[j] {
      assert paths[k] in paths[..j];
      var x :| 0 <= x < j && paths[..j][x] == paths[k];
      assert paths[..k][x] == paths[k];
    }
  }

  lemma UnshadowedIsListedFirst(paths: seq<Place>, p: Place)
    requires Unshadowed(paths) && p in paths
    ensures ListedFirst(paths, p)
  {
    var k := FirstListing(paths, p);
    forall j | 0 <= j < k ensures !(p <= paths[j]) {
      if p <= paths[j] {
        ReachedEarlier(paths, j, k);
      }
    }
  }

  lemma ListedFirstIsUnshadowed(paths: seq<Place>, i: nat, j: nat)
    requires i < j < |paths| && paths[j] < paths[i] && ListedFirst(paths, paths[j])
    ensures paths[j] in paths[..i]
  {
    var p := paths[j];
    var k :| 0 <= k < |paths| && paths[k] == p && forall j :: 0 <= j < k ==> !(p <= paths[j]);
    assert k < i;
    assert paths[..i][k] == p;
  }

  // The files of the tree are exactly the listed paths if and only if none is shadowed.
  lemma FilesAreThePathsIff(paths: seq<Place>)
    requires [] !in paths
    ensures (forall p :: p != [] ==> (IsFile(paths, p) <==> p in paths)) <==> Unshadowed(paths)
  {
    forall p: Place | p != [] ensures IsFile(paths, p) <==> ListedFirst(paths, p) {
      FilesAreListedFirst(paths, p);
    }
    if Unshadowed(paths) {
      forall p: Place | p in paths ensures ListedFirst(paths, p) {
        UnshadowedIsListedFirst(paths, p);
      }
    }
    if forall p :: p != [] ==> (IsFile(paths, p) <==> p in paths) {
      forall i, j | 0 <= i < j < |paths| && paths[j] < paths[i] ensures paths[j] in paths[..i] {
        assert IsFile(paths, paths[j]);
        ListedFirstIsUnshadowed(paths, i, j);
      }
    }
  }

  // A file listed after a path below it comes out as a directory.
  lemma ParentListedLate(a: string, b: string, paths: seq<string>)
    requires '/' !in a && paths == [a + "/" + b, a]
    ensures [a] in Places(paths) && IsDir(Places(paths), [a]) && !IsFile(Places(paths), [a])
    ensures !Unshadowed(Places(paths))
  {
    var places := Places(paths);
    SplitAtFirst(a, b, '/');
    SplitPlain(a, '/');
    assert a + ['/'] + b == a + "/" + b;
    assert places[1] == [a] && places[0] == [a] + Split(b, '/') && places[..0] == [];
    FirstDecides(places, [a], 0);
  }

  predicate PrefixFree(paths: seq<Place>) {
    forall i, j :: 0 <= i < |paths| && 0 <= j < |paths| ==> !(paths[i] < paths[j])
  }

  lemma PrefixFreeFiles(paths: seq<Place>, p: Place)
    requires PrefixFree(paths) && [] !in paths && p != []
    ensures IsFile(paths, p) <==> p in paths
  {
    FilesAreThePathsIff(paths);
  }

  lemma NoEmptyPlace(paths: seq<string>)
    ensures [] !in Places(paths)
  {
  }

  // Of the nodes, the files are those at a listed place.
  lemma FileNodes(nodes: Nodes, all: seq<Place>, p: Place)
    requires Tree(nodes) && Covers(nodes, all) && PrefixFree(all) && [] !in all && p != []
    ensures p in nodes && !nodes[p].dir <==> p in all
    ensures p in nodes ==> nodes[p].path == Join(p, '/')
  {
    PrefixFreeFiles(all, p);
    assert p in nodes ==> Labelled(nodes[p], p);
  }

  // p is the place of a file whose path is s.
  ghost predicate FileAt(nodes: Nodes, p: Place, s: string) {
    p in nodes && p != [] && !nodes[p].dir && nodes[p].path == s
  }

  lemma FileIsGiven(nodes: Nodes, paths: seq<string>, p: Place, s: string)
    requires Tree(nodes) && Covers(nodes, Places(paths)) && PrefixFree(Places(paths)) && FileAt(nodes, p, s)
    ensures s in paths
  {
    var all := Places(paths);
    NoEmptyPlace(paths);
    FileNodes(nodes, all, p);
    var k :| 0 <= k < |all| && all[k] == p;
    JoinSplit(paths[k], '/');
  }

  lemma GivenIsFile(nodes: Nodes, paths: seq<string>, s: string)
    requires Tree(nodes) && Covers(nodes, Places(paths)) && PrefixFree(Places(paths)) && s in paths
    ensures FileAt(nodes, Split(s, '/'), s)
  {
    var k :| 0 <= k < |paths| && paths[k] == s;
    NoEmptyPlace(paths);
    JoinSplit(s, '/');
    FileNodes(nodes, Places(paths), Places(paths)[k]);
  }

  // The paths of the files, read off the nodes, are the strings that were given.
  lemma FilePathsAreTheInput(nodes: Nodes, paths: seq<string>)
    requires Tree(nodes) && Covers(nodes, Places(paths)) && PrefixFree(Places(paths))
    ensures forall s :: s in paths <==> exists p :: FileAt(nodes, p, s)
  {
    forall p, s | FileAt(nodes, p, s) ensures s in paths {
      FileIsGiven(nodes, paths, p, s);
    }
    forall s | s in paths ensures exists p :: FileAt(nodes, p, s) {
      GivenIsFile(nodes, paths, s);
    }
  }

  // ---- order of the input ----

  lemma SamePlaces(xs: seq<Place>, ys: seq<Place>, p: Place)
    requires multiset(xs) == multiset(ys)
    ensures IsPlace(xs, p) ==> IsPlace(ys, p)
  {
    if IsPlace(xs, p) {
      var i :| 0 <= i < |xs| && p <= xs[i];
      assert xs[i] in multiset(ys);
      var j :| 0 <= j < |ys| && ys[j] == xs[i];
    }
  }

  lemma DirsOfPrefixFree(xs: seq<Place>, p: Place)
    requires PrefixFree(xs) && p != []
    ensures IsDir(xs, p) <==> exists i :: 0 <= i < |xs| && p < xs[i]
  {
    if IsPlace(xs, p) {
      var k := FirstReach(xs, p);
      FirstDecides(xs, p, k);
    } else {
      NowhereIsNoDir(xs, p);
    }
  }

  lemma {:induction false} NowhereIsNoDir(xs: seq<Place>, p: Place)
    requires p != [] && !IsPlace(xs, p)
    ensures !IsDir(xs, p)
  {
    if xs != [] {
      var n := |xs| - 1;
      assert forall i :: 0 <= i < n ==> xs[..n][i] == xs[i];
      assert !IsPlace(xs[..n], p);
    }
  }

  // Both orders of the same paths say the same of every place.
  predicate SameVerdict(xs: seq<Place>, ys: seq<Place>, p: Place) {
    IsPlace(xs, p) == IsPlace(ys, p) && IsDir(xs, p) == IsDir(ys, p)
  }

  lemma PrefixFreeAgree(xs: seq<Place>, ys: seq<Place>, p: Place)
    requires PrefixFree(xs) && multiset(xs) == multiset(ys) && p != []
    ensures PrefixFree(ys) && SameVerdict(xs, ys, p)
  {
    forall j | 0 <= j < |ys| ensures ys[j] in xs {
      assert ys[j] in multiset(xs);
    }
    forall i | 0 <= i < |xs| ensures xs[i] in ys {
      assert xs[i] in multiset(ys);
    }
    SamePlaces(xs, ys, p);
    SamePlaces(ys, xs, p);
    DirsOfPrefixFree(xs, p);
    DirsOfPrefixFree(ys, p);
  }

  function Promote(xs: seq<Place>, i: nat): (r: seq<Place>)
    requires i < |xs|
    ensures multiset(r) == multiset(xs) && r[0] == xs[i]
  {
    assert xs == xs[..i] + [xs[i]] + xs[i + 1..];
    [xs[i]] + (xs[..i] + xs[i + 1..])
  }

  // Which nodes are directories is independent of the order of the paths exactly when no
  // path continues another.
  lemma OrderIsIrrelevantIff(paths: seq<Place>)
    requires [] !in paths
    ensures (forall ys, p :: multiset(ys) == multiset(paths) && p != [] ==> SameVerdict(paths, ys, p))
      <==> PrefixFree(paths)
  {
    if PrefixFree(paths) {
      forall ys: seq<Place>, p: Place | multiset(ys) == multiset(paths) && p != [] ensures SameVerdict(paths, ys, p) {
        PrefixFreeAgree(paths, ys, p);
      }
    } else {
      var i, j :| 0 <= i < |paths| && 0 <= j < |paths| && paths[i] < paths[j];
      var p, first, last := paths[i], Promote(paths, j), Promote(paths, i);
      FirstDecides(first, p, 0);
      FirstDecides(last, p, 0);
      assert !SameVerdict(paths, first, p) || !SameVerdict(paths, last, p);
    }
  }

  function Labels(cs: seq<TreeNode>): (ls: seq<Label>)
    ensures |ls| == |cs| && forall i :: 0 <= i < |cs| ==> ls[i] == LabelOf(cs[i])
  {
    seq(|cs|, i requires 0 <= i < |cs| => LabelOf(cs[i]))
  }

  ghost predicate Ranked(cmp: Compare, ls: seq<Label>) {
    forall i, j :: 0 <= i < j < |ls| ==> Before(cmp, ls[i], ls[j]) && ls[i].name != ls[j].name
  }

  lemma NamesAreUnique(nodes: Nodes, p: Place, i: nat, j: nat)
    requires Tree(nodes) && p in nodes && i < j < |nodes[p].children|
    ensures nodes[p].children[i].name != nodes[p].children[j].name
  {
    var cs := nodes[p].children;
    assert Linked(nodes, p, cs);
    ChildPlace(nodes, p, cs[i]);
    ChildPlace(nodes, p, cs[j]);
  }

  lemma LabelsAt(nodes: Nodes, p: Place, l: Label)
    requires Tree(nodes) && p in nodes
    ensures l in Labels(nodes[p].children) <==> p + [l.name] in nodes && nodes[p + [l.name]].dir == l.dir
  {
    var cs := nodes[p].children;
    if l in Labels(cs) {
      var i :| 0 <= i < |cs| && Labels(cs)[i] == l;
      ChildPlace(nodes, p, cs[i]);
    }
    if p + [l.name] in nodes && nodes[p + [l.name]].dir == l.dir {
      var c := nodes[p + [l.name]];
      assert Linked(nodes, p, cs) && Labelled(c, p + [l.name]);
      var i :| 0 <= i < |cs| && cs[i] == c;
      assert Labels(cs)[i] == l;
    }
  }

  lemma LastOfRanked(cmp: Compare, ls: seq<Label>, l: Label)
    requires Ranked(cmp, ls) && l in ls && l != ls[|ls| - 1]
    ensures Before(cmp, l, ls[|ls| - 1])
  {
  }

  lemma FrontOfRanked(cmp: Compare, ls: seq<Label>, l: Label)
    requires Ranked(cmp, ls) && ls != []
    ensures l in ls[..|ls| - 1] <==> l in ls && l != ls[|ls| - 1]
  {
  }

  ghost predicate SameMembers(a: seq<Label>, b: seq<Label>) {
    forall l :: l in a <==> l in b
  }

  ghost predicate TieFree(cmp: Compare, ls: seq<Label>) {
    forall k, l :: k in ls && l in ls && cmp(k.name, l.name) == 0 ==> k.name == l.name
  }

  lemma SameLastLabel(cmp: Compare, a: seq<Label>, b: seq<Label>)
    requires IsOrder(cmp) && Ranked(cmp, a) && Ranked(cmp, b) && SameMembers(a, b) && a != [] && b != []
    requires TieFree(cmp, a)
    ensures a[|a| - 1] == b[|b| - 1]
  {
    var x, y := a[|a| - 1], b[|b| - 1];
    assert y in a && x in b;
    var i :| 0 <= i < |a| && a[i] == y;
    if x != y {
      LastOfRanked(cmp, a, y);
      LastOfRanked(cmp, b, x);
    }
  }

  lemma FrontIn(cmp: Compare, a: seq<Label>, b: seq<Label>, l: Label)
    requires Ranked(cmp, a) && Ranked(cmp, b) && SameMembers(a, b)
    requires a != [] && b != [] && a[|a| - 1] == b[|b| - 1]
    requires l in a[..|a| - 1]
    ensures l in b[..|b| - 1]
  {
    FrontOfRanked(cmp, a, l);
    FrontOfRanked(cmp, b, l);
  }

  lemma SameFront(cmp: Compare, a: seq<Label>, b: seq<Label>)
    requires Ranked(cmp, a) && Ranked(cmp, b) && SameMembers(a, b)
    requires a != [] && b != [] && a[|a| - 1] == b[|b| - 1]
    ensures SameMembers(a[..|a| - 1], b[..|b| - 1])
  {
    var fa, fb := a[..|a| - 1], b[..|b| - 1];
    forall l | l in fa ensures l in fb {
      FrontIn(cmp, a, b, l);
    }
    forall l | l in fb ensures l in fa {
      FrontIn(cmp, b, a, l);
    }
  }

  lemma SameEmptiness(a: seq<Label>, b: seq<Label>)
    requires SameMembers(a, b)
    ensures a == [] <==> b == []
  {
    assert a != [] ==> a[0] in a;
    assert b != [] ==> b[0] in b;
  }

  // A list of siblings is determined by the set of its labels, if no two names tie.
  lemma {:induction false} RankedIsUnique(cmp: Compare, a: seq<Label>, b: seq<Label>)
    requires IsOrder(cmp) && Ranked(cmp, a) && Ranked(cmp, b) && SameMembers(a, b)
    requires TieFree(cmp, a)
    ensures a == b
  {
    SameEmptiness(a, b);
    if a != [] {
      SameLastLabel(cmp, a, b);
      SameFront(cmp, a, b);
      RankedIsUnique(cmp, a[..|a| - 1], b[..|b| - 1]);
      assert a == a[..|a| - 1] + [a[|a| - 1]];
      assert b == b[..|b| - 1] + [b[|b| - 1]];
    }
  }

  // No two siblings have names the comparison cannot tell apart.
  ghost predicate NoTies(cmp: Compare, nodes: Nodes, p: Place) {
    forall n, m :: p + [n] in nodes && p + [m] in nodes && cmp(n, m) == 0 ==> n == m
  }

  lemma ChildrenAreRanked(cmp: Compare, nodes: Nodes, p: Place)
    requires Tree(nodes) && p in nodes && Ordered(cmp, nodes[p].children)
    ensures Ranked(cmp, Labels(nodes[p].children))
  {
    var cs := nodes[p].children;
    forall i, j | 0 <= i < j < |cs|
      ensures Before(cmp, LabelOf(cs[i]), LabelOf(cs[j])) && cs[i].name != cs[j].name
    {
      NamesAreUnique(nodes, p, i, j);
    }
  }

  lemma SameChild(xs: seq<Place>, ys: seq<Place>, a: Nodes, b: Nodes, p: Place, l: Label)
    requires PrefixFree(xs) && multiset(xs) == multiset(ys)
    requires Tree(a) && Covers(a, xs) && Tree(b) && Covers(b, ys)
    requires p in a && p in b
    ensures l in Labels(a[p].children) <==> l in Labels(b[p].children)
  {
    PrefixFreeAgree(xs, ys, p + [l.name]);
    LabelsAt(a, p, l);
    LabelsAt(b, p, l);
  }

  lemma NoTiesIn(cmp: Compare, nodes: Nodes, p: Place)
    requires Tree(nodes) && p in nodes && NoTies(cmp, nodes, p)
    ensures TieFree(cmp, Labels(nodes[p].children))
  {
    forall k | k in Labels(nodes[p].children) ensures p + [k.name] in nodes {
      LabelsAt(nodes, p, k);
    }
  }

  // Two builds of the same paths, in any two orders, are the same tree: the same places
  // and, at each of them, the same children in the same order.
  lemma SameTree(cmp: Compare, xs: seq<Place>, ys: seq<Place>, a: Nodes, b: Nodes, p: Place)
    requires IsOrder(cmp) && PrefixFree(xs) && multiset(xs) == multiset(ys)
    requires Tree(a) && Covers(a, xs) && Tree(b) && Covers(b, ys)
    requires p in a ==> Ordered(cmp, a[p].children) && NoTies(cmp, a, p)
    requires p in b ==> Ordered(cmp, b[p].children)
    ensures p in a <==> p in b
    ensures p in a ==> Labels(a[p].children) == Labels(b[p].children)
  {
    if p != [] {
      PrefixFreeAgree(xs, ys, p);
    }
    assert p in a <==> p in b;
    if p in a {
      forall l: Label ensures l in Labels(a[p].children) <==> l in Labels(b[p].children) {
        SameChild(xs, ys, a, b, p, l);
      }
      NoTiesIn(cmp, a, p);
      ChildrenAreRanked(cmp, a, p);
      ChildrenAreRanked(cmp, b, p);
      RankedIsUnique(cmp, Labels(a[p].children), Labels(b[p].children));
    }
  }
}
