/** The iterative strongly-connected-components search inside `cycleViolation`. */
module Tarjan {
  import opened Digraph

  /** One entry of the explicit call stack: a node and how far its edge iterator has run. */
  datatype Frame = Frame(node: string, next: nat)

  /** Reachability as a relation: the invariants treat it as any preorder that holds the edges. */
  type Relation = iset<(string, string)>

  /** Discovery numbers, low links and iterator pulls, all keyed by discovered node. */
  type Numbers = map<string, nat>

  // ---------------------------------------------------------------- invariant

  ghost predicate Keys(g: Adjacency, index: Numbers, low: Numbers, pulls: Numbers, onStack: set<string>, active: set<string>) {
    && index.Keys == low.Keys == pulls.Keys
    && index.Keys <= g.Keys
    && active <= onStack <= index.Keys
  }

  ghost predicate Numbered(index: Numbers, counter: nat) {
    && (forall v :: v in index ==> index[v] < counter)
    && (forall u, v :: u in index && v in index && index[u] == index[v] ==> u == v)
  }

  /** A node's iterator has not reported "done" exactly while the node is on the call stack. */
  ghost predicate Pulled(g: Adjacency, pulls: Numbers, active: set<string>)
    requires pulls.Keys <= g.Keys
  {
    forall v :: v in pulls ==> if v in active then pulls[v] <= |g[v]| else pulls[v] == |g[v]| + 1
  }

  /** The list names the set's nodes in discovery order. */
  ghost predicate Lists(index: Numbers, s: seq<string>, nodes: set<string>) {
    && (forall i :: 0 <= i < |s| ==> s[i] in index && s[i] in nodes)
    && (forall i, j :: 0 <= i < j < |s| ==> index[s[i]] < index[s[j]])
    && (forall v :: v in nodes ==> v in s)
  }

  /** v was discovered and has left the stack. */
  ghost predicate Finished(index: Numbers, onStack: set<string>, v: string) {
    v in index && v !in onStack
  }

  ghost predicate Explored(g: Adjacency, pulls: Numbers, v: string, j: int) {
    v in pulls && v in g && 0 <= j < pulls[v] && j < |g[v]|
  }

  /** Explored edges lead to discovered nodes; finished nodes lead to finished nodes only. */
  ghost predicate Frontier(g: Adjacency, index: Numbers, pulls: Numbers, onStack: set<string>) {
    && (forall v, j :: Explored(g, pulls, v, j) ==> g[v][j] in index)
    && (forall v, j :: Explored(g, pulls, v, j) && Finished(index, onStack, v) ==> Finished(index, onStack, g[v][j]))
  }

  /** The stack is a chain for reachability. */
  ghost predicate Forward(r: Relation, index: Numbers, onStack: set<string>)
    requires onStack <= index.Keys
  {
    forall u, v :: u in onStack && v in onStack && index[u] <= index[v] ==> (u, v) in r
  }

  /** v was discovered before every active node later than c. */
  ghost predicate Below(index: Numbers, active: set<string>, c: string, v: string)
    requires active <= index.Keys && c in index && v in index
  {
    forall d :: d in active && index[c] < index[d] ==> index[v] < index[d]
  }

  /** A stacked node reaches back to the active node whose stack segment holds it. */
  ghost predicate Backward(r: Relation, index: Numbers, onStack: set<string>, active: set<string>)
    requires active <= onStack <= index.Keys
  {
    forall c, v :: c in active && v in onStack && Below(index, active, c, v) ==> (v, c) in r
  }

  ghost predicate Witness(r: Relation, index: Numbers, onStack: set<string>, c: string, n: nat, x: string)
    requires onStack <= index.Keys
  {
    x in onStack && index[x] == n && (c, x) in r
  }

  /** The low link of an active node is the index of a stacked node that it reaches. */
  ghost predicate LowSound(r: Relation, index: Numbers, low: Numbers, onStack: set<string>, active: set<string>)
    requires index.Keys == low.Keys && active <= onStack <= index.Keys
  {
    forall c :: c in active ==> low[c] <= index[c] && exists x :: Witness(r, index, onStack, c, low[c], x)
  }

  /** The low link of an active node bounds every explored edge that leaves its stack segment. */
  ghost predicate LowComplete(g: Adjacency, index: Numbers, low: Numbers, pulls: Numbers, onStack: set<string>, active: set<string>)
    requires index.Keys == low.Keys && active <= onStack <= index.Keys
  {
    forall c, v, j ::
      (c in active && v in onStack && index[c] <= index[v] && Below(index, active, c, v)
       && Explored(g, pulls, v, j) && g[v][j] in onStack)
      ==> low[c] <= index[g[v][j]]
  }

  /** c is exactly one class of mutual reachability, each member listed once. */
  ghost predicate IsComponent(r: Relation, c: seq<string>) {
    && c != []
    && Distinct(c)
    && forall u, v :: u in c ==> (v in c <==> (u, v) in r && (v, u) in r)
  }

  ghost predicate InSome(sccs: seq<seq<string>>, v: string) {
    exists i :: 0 <= i < |sccs| && v in sccs[i]
  }

  /** The components are disjoint and hold exactly the finished nodes. */
  ghost predicate Filed(index: Numbers, onStack: set<string>, sccs: seq<seq<string>>) {
    && (forall i, j, v :: 0 <= i < j < |sccs| && v in sccs[i] ==> v !in sccs[j])
    && (forall v :: Finished(index, onStack, v) <==> InSome(sccs, v))
  }

  /** v is the latest active node. */
  ghost predicate IsTop(index: Numbers, active: set<string>, v: string)
    requires active <= index.Keys
  {
    v in active && forall c :: c in active ==> index[c] <= index[v]
  }

  // ---------------------------------------------------------------- discovery

  lemma DiscoverForward(r: Relation, index: Numbers, counter: nat, onStack: set<string>, w: string)
    requires onStack <= index.Keys && w !in index && Numbered(index, counter) && Forward(r, index, onStack)
    requires (w, w) in r && forall u :: u in onStack ==> (u, w) in r
    ensures Forward(r, index[w := counter], onStack + {w})
  {
  }

  lemma DiscoverBackward(r: Relation, index: Numbers, counter: nat, onStack: set<string>, active: set<string>, w: string)
    requires active <= onStack <= index.Keys && w !in index && Numbered(index, counter)
    requires Backward(r, index, onStack, active)
    requires (w, w) in r && forall u :: u in onStack ==> (u, w) in r
    ensures Backward(r, index[w := counter], onStack + {w}, active + {w})
  {
    var index', onStack', active' := index[w := counter], onStack + {w}, active + {w};
    forall c, v | c in active' && v in onStack' && Below(index', active', c, v) ensures (v, c) in r {
      if c != w {
        assert w in active' && v != w;
        assert Below(index, active, c, v);
      }
    }
  }

  lemma DiscoverLowSound(r: Relation, index: Numbers, low: Numbers, counter: nat, onStack: set<string>, active: set<string>, w: string)
    requires index.Keys == low.Keys && active <= onStack <= index.Keys && w !in index
    requires LowSound(r, index, low, onStack, active)
    requires (w, w) in r
    ensures LowSound(r, index[w := counter], low[w := counter], onStack + {w}, active + {w})
  {
    var index', low', onStack' := index[w := counter], low[w := counter], onStack + {w};
    forall c | c in active + {w} ensures exists x :: Witness(r, index', onStack', c, low'[c], x) {
      if c == w {
        assert Witness(r, index', onStack', w, counter, w);
      } else {
        var x :| Witness(r, index, onStack, c, low[c], x);
        assert c in active && low'[c] == low[c];
        assert Witness(r, index', onStack', c, low'[c], x);
      }
    }
  }

  /** Discovery may use up one iterator pull of a node u, the one that leads to w. */
  lemma DiscoverLowComplete(g: Adjacency, index: Numbers, low: Numbers, pulls: Numbers, pulls': Numbers, counter: nat,
      onStack: set<string>, active: set<string>, w: string)
    requires index.Keys == low.Keys && active <= onStack <= index.Keys && w !in index && Numbered(index, counter)
    requires forall c :: c in active ==> low[c] <= index[c]
    requires LowComplete(g, index, low, pulls, onStack, active)
    requires forall v, j :: Explored(g, pulls', v, j) ==> v != w && (g[v][j] == w || Explored(g, pulls, v, j))
    ensures LowComplete(g, index[w := counter], low[w := counter], pulls', onStack + {w}, active + {w})
  {
    var index', low', onStack', active' := index[w := counter], low[w := counter], onStack + {w}, active + {w};
    forall c, v, j | c in active' && v in onStack' && index'[c] <= index'[v] && Below(index', active', c, v)
      && Explored(g, pulls', v, j) && g[v][j] in onStack'
      ensures low'[c] <= index'[g[v][j]]
    {
      assert v != w && c != w;
      if g[v][j] != w {
        assert Below(index, active, c, v);
      }
    }
  }

  // ---------------------------------------------------------------- known successor

  function Min(a: nat, b: nat): nat { if a <= b then a else b }

  lemma LowerLowSound(r: Relation, index: Numbers, low: Numbers, onStack: set<string>, active: set<string>, v: string, w: string)
    requires index.Keys == low.Keys && active <= onStack <= index.Keys
    requires LowSound(r, index, low, onStack, active)
    requires v in active && w in onStack && (v, w) in r
    ensures LowSound(r, index, low[v := Min(low[v], index[w])], onStack, active)
  {
    var low' := low[v := Min(low[v], index[w])];
    forall c | c in active ensures exists x :: Witness(r, index, onStack, c, low'[c], x) {
      var x :| Witness(r, index, onStack, c, low[c], x);
      assert Witness(r, index, onStack, c, low'[c], if c == v && low'[c] != low[c] then w else x);
    }
  }

  /** The top frame pulls one more edge; if it leads to a stacked node, the top's low link covers it. */
  lemma PullLowComplete(g: Adjacency, index: Numbers, low: Numbers, low': Numbers, pulls: Numbers, onStack: set<string>,
      active: set<string>, top: string)
    requires index.Keys == low.Keys == low'.Keys == pulls.Keys && active <= onStack <= index.Keys <= g.Keys
    requires LowComplete(g, index, low, pulls, onStack, active) && IsTop(index, active, top)
    requires forall c :: c in active ==> low'[c] <= low[c]
    requires pulls[top] < |g[top]|
    requires var w := g[top][pulls[top]]; w in onStack ==> low'[top] <= index[w]
    requires forall c :: c in active && index[c] == index[top] ==> c == top
    ensures LowComplete(g, index, low', pulls[top := pulls[top] + 1], onStack, active)
  {
    var pulls' := pulls[top := pulls[top] + 1];
    forall c, v, j | c in active && v in onStack && index[c] <= index[v] && Below(index, active, c, v)
      && Explored(g, pulls', v, j) && g[v][j] in onStack
      ensures low'[c] <= index[g[v][j]]
    {
      if v == top && j == pulls[top] {
        assert c == top;
      } else {
        assert Explored(g, pulls, v, j);
      }
    }
  }

  // ---------------------------------------------------------------- return to the parent frame

  /** The set of stacked nodes discovered no earlier than v. */
  ghost function Segment(index: Numbers, onStack: set<string>, v: string): set<string>
    requires onStack <= index.Keys && v in index
  {
    set x | x in onStack && index[x] >= index[v]
  }

  /** Without its latest node v, the active chain lets only the new latest node see v's segment. */
  lemma BelowAfterReturn(index: Numbers, active: set<string>, v: string, p: string, c: string, x: string)
    requires active <= index.Keys && IsTop(index, active, v) && c in active && c != v && x in index
    requires IsTop(index, active - {v}, p) && Below(index, active - {v}, c, x)
    requires forall d :: d in active && (index[d] == index[v] || index[d] == index[c]) ==> d == v || d == c
    ensures Below(index, active, c, x) || (c == p && index[x] >= index[v])
  {
    if !Below(index, active, c, x) {
      var d :| d in active && index[c] < index[d] && index[x] >= index[d];
      assert d == v;
      assert index[p] <= index[v];
    }
  }

  lemma MergeBackward(r: Relation, index: Numbers, counter: nat, low: Numbers, onStack: set<string>, active: set<string>, v: string, p: string)
    requires index.Keys == low.Keys && active <= onStack <= index.Keys && IsTransitive(r) && Numbered(index, counter)
    requires Backward(r, index, onStack, active) && LowSound(r, index, low, onStack, active)
    requires IsTop(index, active, v) && IsTop(index, active - {v}, p) && low[v] < index[v]
    ensures Backward(r, index, onStack, active - {v})
  {
    var y :| Witness(r, index, onStack, v, low[v], y);
    assert Below(index, active, p, y);
    forall c, x | c in active - {v} && x in onStack && Below(index, active - {v}, c, x) ensures (x, c) in r {
      BelowAfterReturn(index, active, v, p, c, x);
      if !Below(index, active, c, x) {
        assert Below(index, active, v, x);
        assert (x, v) in r && (v, y) in r && (y, p) in r;
      }
    }
  }

  lemma MergeLowSound(r: Relation, index: Numbers, low: Numbers, onStack: set<string>, active: set<string>, v: string, p: string)
    requires index.Keys == low.Keys && active <= onStack <= index.Keys && IsTransitive(r)
    requires Forward(r, index, onStack) && LowSound(r, index, low, onStack, active)
    requires IsTop(index, active, v) && p in active - {v}
    ensures LowSound(r, index, low[p := Min(low[p], low[v])], onStack, active - {v})
  {
    var low' := low[p := Min(low[p], low[v])];
    var y :| Witness(r, index, onStack, v, low[v], y);
    assert (p, v) in r;
    assert (p, y) in r;
    forall c | c in active - {v} ensures exists x :: Witness(r, index, onStack, c, low'[c], x) {
      var x :| Witness(r, index, onStack, c, low[c], x);
      assert Witness(r, index, onStack, c, low'[c], if c == p && low'[c] != low[c] then y else x);
    }
  }

  lemma MergeLowComplete(g: Adjacency, index: Numbers, counter: nat, low: Numbers, pulls: Numbers, onStack: set<string>,
      active: set<string>, v: string, p: string)
    requires index.Keys == low.Keys == pulls.Keys && active <= onStack <= index.Keys && Numbered(index, counter)
    requires LowComplete(g, index, low, pulls, onStack, active)
    requires IsTop(index, active, v) && IsTop(index, active - {v}, p) && v in g && pulls[v] == |g[v]|
    ensures LowComplete(g, index, low[p := Min(low[p], low[v])], pulls[v := pulls[v] + 1], onStack, active - {v})
  {
    var low', pulls' := low[p := Min(low[p], low[v])], pulls[v := pulls[v] + 1];
    forall c, x, j | c in active - {v} && x in onStack && index[c] <= index[x] && Below(index, active - {v}, c, x)
      && Explored(g, pulls', x, j) && g[x][j] in onStack
      ensures low'[c] <= index[g[x][j]]
    {
      assert Explored(g, pulls, x, j);
      BelowAfterReturn(index, active, v, p, c, x);
      if !Below(index, active, c, x) {
        assert Below(index, active, v, x);
      }
    }
  }

  // ---------------------------------------------------------------- filing a component

  lemma FileBackward(r: Relation, index: Numbers, onStack: set<string>, active: set<string>, v: string)
    requires active <= onStack <= index.Keys && Backward(r, index, onStack, active) && v in active
    requires active - {v} <= onStack - Segment(index, onStack, v)
    ensures Backward(r, index, onStack - Segment(index, onStack, v), active - {v})
  {
    var onStack' := onStack - Segment(index, onStack, v);
    forall c, x | c in active - {v} && x in onStack' && Below(index, active - {v}, c, x) ensures (x, c) in r {
      assert Below(index, active, c, x);
    }
  }

  /** The parent's low link is below v's index, so passing v's link on changes nothing. */
  lemma FileLowSound(r: Relation, index: Numbers, low: Numbers, onStack: set<string>, active: set<string>, v: string)
    requires index.Keys == low.Keys && active <= onStack <= index.Keys && v in active
    requires LowSound(r, index, low, onStack, active)
    requires active - {v} <= onStack - Segment(index, onStack, v)
    ensures LowSound(r, index, low, onStack - Segment(index, onStack, v), active - {v})
  {
    var onStack' := onStack - Segment(index, onStack, v);
    forall c | c in active - {v} ensures exists x :: Witness(r, index, onStack', c, low[c], x) {
      var x :| Witness(r, index, onStack, c, low[c], x);
      assert Witness(r, index, onStack', c, low[c], x);
    }
  }

  lemma FileLowComplete(g: Adjacency, index: Numbers, low: Numbers, pulls: Numbers, onStack: set<string>, active: set<string>, v: string)
    requires index.Keys == low.Keys == pulls.Keys && active <= onStack <= index.Keys && v in active
    requires LowComplete(g, index, low, pulls, onStack, active) && v in g && pulls[v] == |g[v]|
    requires active - {v} <= onStack - Segment(index, onStack, v)
    ensures LowComplete(g, index, low, pulls[v := pulls[v] + 1], onStack - Segment(index, onStack, v), active - {v})
  {
    var onStack', pulls' := onStack - Segment(index, onStack, v), pulls[v := pulls[v] + 1];
    forall c, x, j | c in active - {v} && x in onStack' && index[c] <= index[x] && Below(index, active - {v}, c, x)
      && Explored(g, pulls', x, j) && g[x][j] in onStack'
      ensures low[c] <= index[g[x][j]]
    {
      assert Explored(g, pulls, x, j);
      assert Below(index, active, c, x);
    }
  }

  /** Every edge out of a completed segment stays in it or leads to a finished node. */
  lemma SegmentClosed(g: Adjacency, index: Numbers, low: Numbers, pulls: Numbers, onStack: set<string>, active: set<string>, v: string)
    requires Keys(g, index, low, pulls, onStack, active) && Pulled(g, pulls, active)
    requires Frontier(g, index, pulls, onStack) && LowComplete(g, index, low, pulls, onStack, active)
    requires IsTop(index, active, v) && pulls[v] == |g[v]| && low[v] == index[v]
    requires forall c :: c in active && index[c] == index[v] ==> c == v
    ensures forall x, j :: x in Segment(index, onStack, v) && 0 <= j < |g[x]| ==>
      g[x][j] in Segment(index, onStack, v) || Finished(index, onStack, g[x][j])
  {
    forall x, j | x in Segment(index, onStack, v) && 0 <= j < |g[x]|
      ensures g[x][j] in Segment(index, onStack, v) || Finished(index, onStack, g[x][j])
    {
      assert Explored(g, pulls, x, j);
      assert Below(index, active, v, x);
    }
  }

  ghost function FinishedSet(index: Numbers, onStack: set<string>): set<string> {
    set x | x in index && x !in onStack
  }

  lemma SegmentIsComponent(g: Adjacency, r: Relation, index: Numbers, onStack: set<string>, active: set<string>, v: string, component: seq<string>)
    requires active <= onStack <= index.Keys && IsTransitive(r) && IsTop(index, active, v)
    requires Forward(r, index, onStack) && Backward(r, index, onStack, active)
    requires component != [] && Distinct(component)
    requires forall x :: x in component <==> x in Segment(index, onStack, v)
    requires var f := FinishedSet(index, onStack); forall x, y :: x in f && (x, y) in r ==> y in f
    requires var c := FinishedSet(index, onStack) + Segment(index, onStack, v); forall x, y :: x in c && (x, y) in r ==> y in c
    ensures IsComponent(r, component)
  {
    forall x | x in component ensures (x, v) in r && (v, x) in r {
      assert Below(index, active, v, x);
    }
    forall x, y | x in component ensures y in component <==> (x, y) in r && (y, x) in r {
      if (x, y) in r && (y, x) in r {
        assert y in FinishedSet(index, onStack) + Segment(index, onStack, v);
        assert y !in FinishedSet(index, onStack);
      }
    }
  }

  // ---------------------------------------------------------------- the whole search state

  /** The call stack lists the active nodes in discovery order, with their iterator positions. */
  ghost predicate Frames(index: Numbers, pulls: Numbers, call: seq<Frame>, active: set<string>)
    requires index.Keys == pulls.Keys
  {
    && (forall k :: 0 <= k < |call| ==> call[k].node in index && call[k].node in active && call[k].next == pulls[call[k].node])
    && (forall j, k :: 0 <= j < k < |call| ==> index[call[j].node] < index[call[k].node])
    && (forall v :: v in active ==> exists k :: 0 <= k < |call| && call[k].node == v)
  }

  ghost predicate SharedBottom(stack: seq<string>, call: seq<Frame>) {
    if call == [] then stack == [] else stack != [] && stack[0] == call[0].node
  }

  /** What has been discovered, stacked and filed. */
  ghost predicate Bookkeeping(g: Adjacency, index: Numbers, low: Numbers, counter: nat, pulls: Numbers, stack: seq<string>,
      onStack: set<string>, call: seq<Frame>, active: set<string>, sccs: seq<seq<string>>)
  {
    && Keys(g, index, low, pulls, onStack, active) && Numbered(index, counter) && Pulled(g, pulls, active)
    && Lists(index, stack, onStack) && Frames(index, pulls, call, active) && SharedBottom(stack, call)
    && Frontier(g, index, pulls, onStack) && Filed(index, onStack, sccs)
  }

  /** How stacked nodes reach one another, and what the low links say about it. */
  ghost predicate Links(g: Adjacency, r: Relation, index: Numbers, low: Numbers, pulls: Numbers, onStack: set<string>, active: set<string>)
    requires Keys(g, index, low, pulls, onStack, active)
  {
    && Forward(r, index, onStack) && Backward(r, index, onStack, active)
    && LowSound(r, index, low, onStack, active) && LowComplete(g, index, low, pulls, onStack, active)
  }

  /** r is a preorder that holds every edge. */
  ghost predicate Preorder(g: Adjacency, r: Relation) {
    && IsTransitive(r)
    && (forall u :: (u, u) in r)
    && (forall u, j :: u in g && 0 <= j < |g[u]| ==> (u, g[u][j]) in r)
  }

  /** The call stack's last frame holds the latest active node. */
  lemma TopFrame(index: Numbers, pulls: Numbers, call: seq<Frame>, active: set<string>)
    requires index.Keys == pulls.Keys && active <= index.Keys && Frames(index, pulls, call, active)
    ensures call != [] ==> IsTop(index, active, call[|call| - 1].node)
    ensures call == [] ==> active == {}
  {
  }

  lemma FramesAfterPop(index: Numbers, pulls: Numbers, call: seq<Frame>, active: set<string>, n: nat)
    requires index.Keys == pulls.Keys && Frames(index, pulls, call, active) && call != []
    ensures var v := call[|call| - 1].node; Frames(index, pulls[v := n], call[..|call| - 1], active - {v})
  {
  }

  lemma FramesAfterPush(index: Numbers, counter: nat, pulls: Numbers, call: seq<Frame>, active: set<string>, w: string)
    requires index.Keys == pulls.Keys && Frames(index, pulls, call, active) && Numbered(index, counter) && w !in index
    ensures Frames(index[w := counter], pulls[w := 0], call + [Frame(w, 0)], active + {w})
  {
    var call' := call + [Frame(w, 0)];
    assert call'[|call|].node == w;
    forall v | v in active ensures exists k :: 0 <= k < |call'| && call'[k].node == v {
      var k :| 0 <= k < |call| && call[k].node == v;
      assert call'[k].node == v;
    }
  }

  lemma FramesAfterPull(index: Numbers, pulls: Numbers, call: seq<Frame>, active: set<string>)
    requires index.Keys == pulls.Keys && Frames(index, pulls, call, active) && call != []
    ensures var f := call[|call| - 1];
      Frames(index, pulls[f.node := f.next + 1], call[|call| - 1 := Frame(f.node, f.next + 1)], active)
  {
    var f := call[|call| - 1];
    var call' := call[|call| - 1 := Frame(f.node, f.next + 1)];
    forall v | v in active ensures exists k :: 0 <= k < |call'| && call'[k].node == v {
      var k :| 0 <= k < |call| && call[k].node == v;
      assert call'[k].node == v;
    }
  }

  // ---------------------------------------------------------------- steps of the search

  /** Discovery of w, as a root or through the edge that the top frame has just pulled. */
  lemma DiscoverBookkeeping(g: Adjacency, index: Numbers, low: Numbers, counter: nat, pulls: Numbers, stack: seq<string>,
      onStack: set<string>, call: seq<Frame>, active: set<string>, sccs: seq<seq<string>>, w: string)
    requires Keys(g, index, low, pulls, onStack, active) && Numbered(index, counter) && Pulled(g, pulls, active)
    requires Lists(index, stack, onStack) && Frames(index, pulls, call, active) && SharedBottom(stack, call)
    requires Filed(index, onStack, sccs) && w in g && w !in index
    requires forall v, j :: Explored(g, pulls, v, j) ==> g[v][j] in index + map[w := counter]
    requires forall v, j :: Explored(g, pulls, v, j) && Finished(index, onStack, v) ==> Finished(index, onStack, g[v][j])
    ensures Bookkeeping(g, index[w := counter], low[w := counter], counter + 1, pulls[w := 0], stack + [w], onStack + {w},
                        call + [Frame(w, 0)], active + {w}, sccs)
  {
    FramesAfterPush(index, counter, pulls, call, active, w);
    DiscoverFrontier(g, index, counter, pulls, onStack, w);
    DiscoverLists(index, counter, stack, onStack, sccs, w);
    DiscoverPulls(g, index, low, counter, pulls, onStack, active, w);
  }

  lemma DiscoverPulls(g: Adjacency, index: Numbers, low: Numbers, counter: nat, pulls: Numbers, onStack: set<string>,
      active: set<string>, w: string)
    requires Keys(g, index, low, pulls, onStack, active) && Numbered(index, counter) && Pulled(g, pulls, active)
    requires w in g && w !in index
    ensures Keys(g, index[w := counter], low[w := counter], pulls[w := 0], onStack + {w}, active + {w})
    ensures Numbered(index[w := counter], counter + 1) && Pulled(g, pulls[w := 0], active + {w})
  {
  }

  lemma DiscoverLists(index: Numbers, counter: nat, stack: seq<string>, onStack: set<string>, sccs: seq<seq<string>>, w: string)
    requires Lists(index, stack, onStack) && Numbered(index, counter) && Filed(index, onStack, sccs) && w !in index
    ensures Lists(index[w := counter], stack + [w], onStack + {w})
    ensures Filed(index[w := counter], onStack + {w}, sccs)
  {
    assert forall v :: Finished(index[w := counter], onStack + {w}, v) <==> Finished(index, onStack, v);
    assert (stack + [w])[|stack|] == w;
  }

  lemma DiscoverFrontier(g: Adjacency, index: Numbers, counter: nat, pulls: Numbers, onStack: set<string>, w: string)
    requires w !in index
    requires forall v, j :: Explored(g, pulls, v, j) ==> g[v][j] in index + map[w := counter]
    requires forall v, j :: Explored(g, pulls, v, j) && Finished(index, onStack, v) ==> Finished(index, onStack, g[v][j])
    ensures Frontier(g, index[w := counter], pulls[w := 0], onStack + {w})
  {
    forall v, j | Explored(g, pulls[w := 0], v, j) ensures Explored(g, pulls, v, j) {
    }
  }

  lemma DiscoverLinks(g: Adjacency, r: Relation, index: Numbers, low: Numbers, counter: nat, pulls: Numbers, pulls': Numbers,
      onStack: set<string>, active: set<string>, w: string)
    requires Preorder(g, r) && Keys(g, index, low, pulls, onStack, active) && Numbered(index, counter) && w in g && w !in index
    requires Links(g, r, index, low, pulls, onStack, active)
    requires forall u :: u in onStack ==> (u, w) in r
    requires pulls'.Keys == pulls.Keys + {w}
    requires forall v, j :: Explored(g, pulls', v, j) ==> v != w && (g[v][j] == w || Explored(g, pulls, v, j))
    ensures Keys(g, index[w := counter], low[w := counter], pulls', onStack + {w}, active + {w})
    ensures Links(g, r, index[w := counter], low[w := counter], pulls', onStack + {w}, active + {w})
  {
    DiscoverForward(r, index, counter, onStack, w);
    DiscoverBackward(r, index, counter, onStack, active, w);
    DiscoverLowSound(r, index, low, counter, onStack, active, w);
    DiscoverLowComplete(g, index, low, pulls, pulls', counter, onStack, active, w);
  }

  /** The top frame pulls an edge to a node that is already known. */
  lemma PullBookkeeping(g: Adjacency, index: Numbers, low: Numbers, low': Numbers, counter: nat, pulls: Numbers, stack: seq<string>,
      onStack: set<string>, call: seq<Frame>, active: set<string>, sccs: seq<seq<string>>)
    requires Bookkeeping(g, index, low, counter, pulls, stack, onStack, call, active, sccs) && call != []
    requires low'.Keys == low.Keys
    requires var f := call[|call| - 1]; f.node in g && f.next < |g[f.node]| && g[f.node][f.next] in index
    ensures var f := call[|call| - 1];
      Bookkeeping(g, index, low', counter, pulls[f.node := f.next + 1], stack, onStack,
                  call[|call| - 1 := Frame(f.node, f.next + 1)], active, sccs)
  {
    var f := call[|call| - 1];
    FramesAfterPull(index, pulls, call, active);
    var pulls' := pulls[f.node := f.next + 1];
    forall v, j | Explored(g, pulls', v, j) && !(v == f.node && j == f.next) ensures Explored(g, pulls, v, j) {
    }
  }

  /** The top frame's iterator is done and its component reaches further down the stack. */
  lemma MergeBookkeeping(g: Adjacency, index: Numbers, low: Numbers, low': Numbers, counter: nat, pulls: Numbers, stack: seq<string>,
      onStack: set<string>, call: seq<Frame>, active: set<string>, sccs: seq<seq<string>>)
    requires Bookkeeping(g, index, low, counter, pulls, stack, onStack, call, active, sccs) && |call| > 1
    requires low'.Keys == low.Keys
    requires var f := call[|call| - 1]; f.node in g && f.next == |g[f.node]|
    ensures var f := call[|call| - 1];
      Bookkeeping(g, index, low', counter, pulls[f.node := f.next + 1], stack, onStack,
                  call[..|call| - 1], active - {f.node}, sccs)
  {
    var f := call[|call| - 1];
    FramesAfterPop(index, pulls, call, active, f.next + 1);
    var pulls' := pulls[f.node := f.next + 1];
    forall v, j | Explored(g, pulls', v, j) ensures Explored(g, pulls, v, j) {
    }
  }

  lemma MergeLinks(g: Adjacency, r: Relation, index: Numbers, low: Numbers, counter: nat, pulls: Numbers,
      onStack: set<string>, active: set<string>, v: string, p: string)
    requires Preorder(g, r) && Keys(g, index, low, pulls, onStack, active) && Numbered(index, counter)
    requires Links(g, r, index, low, pulls, onStack, active)
    requires IsTop(index, active, v) && IsTop(index, active - {v}, p) && v in g && pulls[v] == |g[v]| && low[v] < index[v]
    ensures Links(g, r, index, low[p := Min(low[p], low[v])], pulls[v := pulls[v] + 1], onStack, active - {v})
  {
    MergeBackward(r, index, counter, low, onStack, active, v, p);
    MergeLowSound(r, index, low, onStack, active, v, p);
    MergeLowComplete(g, index, counter, low, pulls, onStack, active, v, p);
  }

  // ---------------------------------------------------------------- the step that files a component

  function Reversed(s: seq<string>): seq<string> {
    seq(|s|, i requires 0 <= i < |s| => s[|s| - 1 - i])
  }

  lemma ReversedMembers(s: seq<string>)
    ensures forall x :: x in Reversed(s) <==> x in s
  {
    forall x | x in s ensures x in Reversed(s) {
      var i :| 0 <= i < |s| && s[i] == x;
      assert Reversed(s)[|s| - 1 - i] == x;
    }
  }

  lemma SuffixMembers(index: Numbers, stack: seq<string>, onStack: set<string>, k: nat)
    requires Lists(index, stack, onStack) && k < |stack| && onStack <= index.Keys
    ensures forall x :: x in stack[k..] <==> x in Segment(index, onStack, stack[k])
    ensures forall x :: x in stack[..k] <==> x in onStack - Segment(index, onStack, stack[k])
  {
    forall x | x in onStack ensures (x in stack[k..]) == (index[x] >= index[stack[k]]) == (x !in stack[..k]) {
      var i :| 0 <= i < |stack| && stack[i] == x;
      if i >= k {
        assert stack[k..][i - k] == x;
      } else {
        assert stack[..k][i] == x;
      }
    }
  }

  /** Cutting the stack at v's position cuts it at v's segment. */
  lemma SegmentIsSuffix(index: Numbers, stack: seq<string>, onStack: set<string>, k: nat)
    requires Lists(index, stack, onStack) && k < |stack| && onStack <= index.Keys
    ensures forall x :: x in Reversed(stack[k..]) <==> x in Segment(index, onStack, stack[k])
    ensures Distinct(Reversed(stack[k..]))
    ensures Lists(index, stack[..k], onStack - Segment(index, onStack, stack[k]))
  {
    SuffixMembers(index, stack, onStack, k);
    ReversedMembers(stack[k..]);
    forall i | 0 <= i < k ensures stack[..k][i] in index && stack[..k][i] in onStack - Segment(index, onStack, stack[k]) {
      assert stack[..k][i] in stack[..k];
    }
  }

  lemma FileFiled(index: Numbers, onStack: set<string>, sccs: seq<seq<string>>, component: seq<string>, v: string)
    requires onStack <= index.Keys && v in index && Filed(index, onStack, sccs)
    requires forall x :: x in component <==> x in Segment(index, onStack, v)
    ensures Filed(index, onStack - Segment(index, onStack, v), sccs + [component])
  {
    var onStack', sccs' := onStack - Segment(index, onStack, v), sccs + [component];
    forall x ensures Finished(index, onStack', x) <==> InSome(sccs', x) {
      if x in component { assert x in sccs'[|sccs|]; }
      if InSome(sccs, x) {
        var i :| 0 <= i < |sccs| && x in sccs[i];
        assert x in sccs'[i];
      }
    }
    forall i, j, x | 0 <= i < j < |sccs'| && x in sccs'[i] ensures x !in sccs'[j] {
      if j == |sccs| { assert InSome(sccs, x); }
    }
  }

  lemma FileBookkeeping(g: Adjacency, index: Numbers, low: Numbers, low': Numbers, counter: nat, pulls: Numbers, stack: seq<string>,
      onStack: set<string>, call: seq<Frame>, active: set<string>, sccs: seq<seq<string>>, k: nat)
    requires Bookkeeping(g, index, low, counter, pulls, stack, onStack, call, active, sccs) && call != []
    requires LowComplete(g, index, low, pulls, onStack, active) && low'.Keys == low.Keys
    requires var f := call[|call| - 1];
      f.node in g && f.next == |g[f.node]| && low[f.node] == index[f.node] && k < |stack| && stack[k] == f.node
    ensures var f := call[|call| - 1];
      Bookkeeping(g, index, low', counter, pulls[f.node := f.next + 1], stack[..k], onStack - Segment(index, onStack, f.node),
                  call[..|call| - 1], active - {f.node}, sccs + [Reversed(stack[k..])])
  {
    var f := call[|call| - 1];
    var pulls' := pulls[f.node := f.next + 1];
    TopFrame(index, pulls, call, active);
    FramesAfterPop(index, pulls, call, active, f.next + 1);
    SegmentIsSuffix(index, stack, onStack, k);
    FileFiled(index, onStack, sccs, Reversed(stack[k..]), f.node);
    SegmentClosed(g, index, low, pulls, onStack, active, f.node);
    FileFrontier(g, index, pulls, pulls', onStack, f.node);
    assert active - {f.node} <= onStack - Segment(index, onStack, f.node);
  }

  lemma FileFrontier(g: Adjacency, index: Numbers, pulls: Numbers, pulls': Numbers, onStack: set<string>, v: string)
    requires onStack <= index.Keys && v in index && Frontier(g, index, pulls, onStack)
    requires forall x, j :: Explored(g, pulls', x, j) ==> Explored(g, pulls, x, j)
    requires onStack <= g.Keys
    requires forall x, j :: x in Segment(index, onStack, v) && 0 <= j < |g[x]| ==>
      g[x][j] in Segment(index, onStack, v) || Finished(index, onStack, g[x][j])
    ensures Frontier(g, index, pulls', onStack - Segment(index, onStack, v))
  {
  }

  lemma FileLinks(g: Adjacency, r: Relation, index: Numbers, low: Numbers, pulls: Numbers, onStack: set<string>,
      active: set<string>, v: string)
    requires Keys(g, index, low, pulls, onStack, active) && Links(g, r, index, low, pulls, onStack, active)
    requires IsTop(index, active, v) && v in g && pulls[v] == |g[v]|
    requires active - {v} <= onStack - Segment(index, onStack, v)
    ensures Links(g, r, index, low, pulls[v := pulls[v] + 1], onStack - Segment(index, onStack, v), active - {v})
  {
    FileBackward(r, index, onStack, active, v);
    FileLowSound(r, index, low, onStack, active, v);
    FileLowComplete(g, index, low, pulls, onStack, active, v);
  }

  /** What leaves the stack is one whole reachability class. */
  lemma FileComponent(g: Adjacency, index: Numbers, low: Numbers, counter: nat, pulls: Numbers, stack: seq<string>,
      onStack: set<string>, call: seq<Frame>, active: set<string>, sccs: seq<seq<string>>, k: nat)
    requires Bookkeeping(g, index, low, counter, pulls, stack, onStack, call, active, sccs) && call != []
    requires Links(g, Reachability(g), index, low, pulls, onStack, active)
    requires var f := call[|call| - 1];
      f.node in g && f.next == |g[f.node]| && low[f.node] == index[f.node] && k < |stack| && stack[k] == f.node
    ensures IsComponent(Reachability(g), Reversed(stack[k..]))
  {
    var r, v := Reachability(g), call[|call| - 1].node;
    ReachabilityIsPreorder(g);
    TopFrame(index, pulls, call, active);
    SegmentIsSuffix(index, stack, onStack, k);
    SegmentClosed(g, index, low, pulls, onStack, active, v);
    ClosedSets(g, index, pulls, onStack, active, v);
    NoEscape(g, FinishedSet(index, onStack));
    NoEscape(g, FinishedSet(index, onStack) + Segment(index, onStack, v));
    SegmentIsComponent(g, r, index, onStack, active, v, Reversed(stack[k..]));
  }

  lemma ClosedSets(g: Adjacency, index: Numbers, pulls: Numbers, onStack: set<string>, active: set<string>, v: string)
    requires index.Keys == pulls.Keys <= g.Keys && active <= onStack <= index.Keys && v in index
    requires Pulled(g, pulls, active) && Frontier(g, index, pulls, onStack)
    requires forall x, j :: x in Segment(index, onStack, v) && 0 <= j < |g[x]| ==>
      g[x][j] in Segment(index, onStack, v) || Finished(index, onStack, g[x][j])
    ensures Closed(g, FinishedSet(index, onStack))
    ensures Closed(g, FinishedSet(index, onStack) + Segment(index, onStack, v))
  {
    forall x, y | x in FinishedSet(index, onStack) && Edge(g, x, y) ensures y in FinishedSet(index, onStack) {
      var j :| 0 <= j < |g[x]| && g[x][j] == y;
      assert Explored(g, pulls, x, j) && Finished(index, onStack, x);
    }
  }

  // ---------------------------------------------------------------- following an edge

  /** Every stacked node reaches what the latest active node has an edge to. */
  lemma StackReachesSuccessor(g: Adjacency, r: Relation, index: Numbers, onStack: set<string>, active: set<string>, v: string, j: nat)
    requires Preorder(g, r) && active <= onStack <= index.Keys && Backward(r, index, onStack, active)
    requires IsTop(index, active, v) && v in g && j < |g[v]|
    ensures forall u :: u in onStack ==> (u, g[v][j]) in r
  {
    forall u | u in onStack ensures (u, g[v][j]) in r {
      assert Below(index, active, v, u);
      assert (u, v) in r;
    }
  }

  lemma FollowNewBookkeeping(g: Adjacency, index: Numbers, low: Numbers, counter: nat, pulls: Numbers, stack: seq<string>,
      onStack: set<string>, call: seq<Frame>, active: set<string>, sccs: seq<seq<string>>)
    requires Bookkeeping(g, index, low, counter, pulls, stack, onStack, call, active, sccs) && call != []
    requires var f := call[|call| - 1];
      f.node in g && f.next < |g[f.node]| && g[f.node][f.next] in g && g[f.node][f.next] !in index
    ensures var f := call[|call| - 1]; var w := g[f.node][f.next];
      Bookkeeping(g, index[w := counter], low[w := counter], counter + 1, pulls[f.node := f.next + 1][w := 0], stack + [w],
                  onStack + {w}, call[|call| - 1 := Frame(f.node, f.next + 1)] + [Frame(w, 0)], active + {w}, sccs)
  {
    var f := call[|call| - 1];
    var w := g[f.node][f.next];
    var pulls', call' := pulls[f.node := f.next + 1], call[|call| - 1 := Frame(f.node, f.next + 1)];
    hide Lists, Filed, Numbered;
    FramesAfterPull(index, pulls, call, active);
    FollowNewFrontier(g, index, counter, pulls, onStack, f);
    DiscoverBookkeeping(g, index, low, counter, pulls', stack, onStack, call', active, sccs, w);
  }

  lemma FollowNewFrontier(g: Adjacency, index: Numbers, counter: nat, pulls: Numbers, onStack: set<string>, f: Frame)
    requires Frontier(g, index, pulls, onStack) && f.node in g && f.node in pulls && f.next < |g[f.node]|
    requires f.node in onStack && pulls[f.node] == f.next && g[f.node][f.next] !in index
    ensures var pulls', w := pulls[f.node := f.next + 1], g[f.node][f.next];
      && (forall v, j :: Explored(g, pulls', v, j) ==> g[v][j] in index + map[w := counter])
      && (forall v, j :: Explored(g, pulls', v, j) && Finished(index, onStack, v) ==> Finished(index, onStack, g[v][j]))
  {
    var pulls' := pulls[f.node := f.next + 1];
    forall v, j | Explored(g, pulls', v, j) && !(v == f.node && j == f.next) ensures Explored(g, pulls, v, j) {
    }
  }

  lemma FollowNewLinks(g: Adjacency, index: Numbers, low: Numbers, counter: nat, pulls: Numbers, stack: seq<string>,
      onStack: set<string>, call: seq<Frame>, active: set<string>, sccs: seq<seq<string>>)
    requires Bookkeeping(g, index, low, counter, pulls, stack, onStack, call, active, sccs) && call != []
    requires Links(g, Reachability(g), index, low, pulls, onStack, active)
    requires var f := call[|call| - 1];
      f.node in g && f.next < |g[f.node]| && g[f.node][f.next] in g && g[f.node][f.next] !in index
    ensures var f := call[|call| - 1]; var w := g[f.node][f.next]; var pulls' := pulls[f.node := f.next + 1][w := 0];
      && Keys(g, index[w := counter], low[w := counter], pulls', onStack + {w}, active + {w})
      && Links(g, Reachability(g), index[w := counter], low[w := counter], pulls', onStack + {w}, active + {w})
  {
    hide Reachability, Lists, Filed, LowComplete, Forward, Backward, LowSound, Pulled, SharedBottom, IsTransitive;
    var r, f := Reachability(g), call[|call| - 1];
    var w := g[f.node][f.next];
    var pulls' := pulls[f.node := f.next + 1][w := 0];
    ReachabilityIsPreorder(g);
    TopFrame(index, pulls, call, active);
    StackReachesSuccessor(g, r, index, onStack, active, f.node, f.next);
    forall v, j | Explored(g, pulls', v, j) ensures v != w && (g[v][j] == w || Explored(g, pulls, v, j)) {
    }
    DiscoverLinks(g, r, index, low, counter, pulls, pulls', onStack, active, w);
  }

  /** The low link after an edge to a known node. */
  function LowAfter(index: Numbers, low: Numbers, onStack: set<string>, v: string, w: string): Numbers
    requires v in low && (w in onStack ==> w in index)
  {
    if w in onStack then low[v := Min(low[v], index[w])] else low
  }

  lemma FollowKnownLinks(g: Adjacency, index: Numbers, low: Numbers, counter: nat, pulls: Numbers, stack: seq<string>,
      onStack: set<string>, call: seq<Frame>, active: set<string>, sccs: seq<seq<string>>)
    requires Bookkeeping(g, index, low, counter, pulls, stack, onStack, call, active, sccs) && call != []
    requires Links(g, Reachability(g), index, low, pulls, onStack, active)
    requires var f := call[|call| - 1]; f.node in g && f.next < |g[f.node]| && g[f.node][f.next] in index
    ensures var f := call[|call| - 1]; var low' := LowAfter(index, low, onStack, f.node, g[f.node][f.next]);
      Links(g, Reachability(g), index, low', pulls[f.node := f.next + 1], onStack, active)
  {
    hide Reachability, Lists, Filed, LowComplete, Forward, Backward, LowSound, Pulled, SharedBottom, IsTransitive;
    var r, f := Reachability(g), call[|call| - 1];
    var w := g[f.node][f.next];
    ReachabilityIsPreorder(g);
    TopFrame(index, pulls, call, active);
    if w in onStack {
      LowerLowSound(r, index, low, onStack, active, f.node, w);
    }
    PullLowComplete(g, index, low, LowAfter(index, low, onStack, f.node, w), pulls, onStack, active, f.node);
  }

  // ---------------------------------------------------------------- iterator pulls

  /** Iterator pulls spent so far over the listed nodes. */
  ghost function Spent(nodes: seq<string>, pulls: Numbers): nat {
    if nodes == [] then 0 else (if nodes[0] in pulls then pulls[nodes[0]] else 0) + Spent(nodes[1..], pulls)
  }

  ghost function EdgeCount(g: Adjacency, nodes: seq<string>): nat {
    if nodes == [] then 0 else (if nodes[0] in g then |g[nodes[0]]| else 0) + EdgeCount(g, nodes[1..])
  }

  lemma {:induction false} SpentAfterPull(nodes: seq<string>, pulls: Numbers, v: string, n: nat)
    requires Distinct(nodes)
    ensures Spent(nodes, pulls[v := n]) ==
            Spent(nodes, pulls) + if v in nodes then n - (if v in pulls then pulls[v] else 0) else 0
  {
    if nodes != [] {
      SpentAfterPull(nodes[1..], pulls, v, n);
      assert v in nodes <==> v == nodes[0] || v in nodes[1..];
    }
  }

  lemma {:induction false} SpentBound(g: Adjacency, nodes: seq<string>, pulls: Numbers)
    requires forall v :: v in pulls ==> v in g && pulls[v] <= |g[v]| + 1
    ensures Spent(nodes, pulls) <= |nodes| + EdgeCount(g, nodes)
    ensures (forall v :: v in nodes ==> v in pulls && pulls[v] == |g[v]| + 1) ==>
              Spent(nodes, pulls) == |nodes| + EdgeCount(g, nodes)
  {
    if nodes != [] {
      SpentBound(g, nodes[1..], pulls);
    }
  }

  lemma {:induction false} SpentInitially(nodes: seq<string>)
    ensures Spent(nodes, map[]) == 0
  {
    if nodes != [] {
      SpentInitially(nodes[1..]);
    }
  }

  // ---------------------------------------------------------------- the search

  /** The components partition the nodes into the classes of mutual reachability. */
  ghost predicate IsPartition(g: Adjacency, sccs: seq<seq<string>>) {
    && (forall i :: 0 <= i < |sccs| ==> sccs[i] != [] && Distinct(sccs[i]))
    && (forall i, j, v :: 0 <= i < j < |sccs| && v in sccs[i] ==> v !in sccs[j])
    && (forall v :: v in g <==> InSome(sccs, v))
    && (forall i, u, v :: 0 <= i < |sccs| && u in sccs[i] ==> (v in sccs[i] <==> Mutual(g, u, v)))
  }

  /** Pop the stack down to and including v. */
  method PopComponent(stack: seq<string>, onStack: set<string>, v: string, ghost index: Numbers, ghost k: nat)
    returns (stack': seq<string>, onStack': set<string>, component: seq<string>)
    requires k < |stack| && stack[k] == v && Distinct(stack)
    requires onStack <= index.Keys && v in index
    requires forall x :: x in Reversed(stack[k..]) <==> x in Segment(index, onStack, v)
    ensures stack' == stack[..k] && component == Reversed(stack[k..])
    ensures onStack' == onStack - Segment(index, onStack, v)
  {
    stack', onStack', component := stack, onStack, [];
    while true
      invariant k < |stack'| <= |stack| && stack' == stack[..|stack'|]
      invariant component == Reversed(stack[|stack'|..])
      invariant forall x :: x in onStack' <==> x in onStack && x !in component
      decreases |stack'|
    {
      var w := stack'[|stack'| - 1];
      stack' := stack'[..|stack'| - 1];
      onStack' := onStack' - {w};
      component := component + [w];
      if w == v {
        break;
      }
    }
  }

  /** The search invariant: bookkeeping, links, filed components and the count of iterator pulls. */
  ghost predicate Good(g: Adjacency, all: seq<string>, index: Numbers, low: Numbers, counter: nat, pulls: Numbers,
      stack: seq<string>, onStack: set<string>, call: seq<Frame>, active: set<string>, sccs: seq<seq<string>>, steps: nat)
  {
    && Bookkeeping(g, index, low, counter, pulls, stack, onStack, call, active, sccs)
    && Links(g, Reachability(g), index, low, pulls, onStack, active)
    && (forall i :: 0 <= i < |sccs| ==> IsComponent(Reachability(g), sccs[i]))
    && steps == Spent(all, pulls)
  }

  ghost predicate IsGraph(g: Adjacency, all: seq<string>) {
    WellFormed(g) && Distinct(all) && forall v :: v in g <==> v in all
  }

  lemma GoodInitially(g: Adjacency, all: seq<string>)
    ensures Good(g, all, map[], map[], 0, map[], [], {}, [], {}, [], 0)
  {
    SpentInitially(all);
  }

  /** What a turn of the inner loop relies on. */
  lemma GoodTop(g: Adjacency, all: seq<string>, index: Numbers, low: Numbers, counter: nat, pulls: Numbers,
      stack: seq<string>, onStack: set<string>, call: seq<Frame>, active: set<string>, sccs: seq<seq<string>>, steps: nat)
    requires Good(g, all, index, low, counter, pulls, stack, onStack, call, active, sccs, steps)
    ensures index.Keys == low.Keys == pulls.Keys <= g.Keys && onStack <= index.Keys && active <= onStack
    ensures call == [] ==> onStack == {} && active == {}
    ensures forall k :: 0 <= k < |call| ==> call[k].node in index && call[k].next == pulls[call[k].node] <= |g[call[k].node]|
    ensures call != [] ==> IsTop(index, active, call[|call| - 1].node)
    ensures Distinct(stack) && (call != [] ==> call[|call| - 1].node in stack)
    ensures IsGraph(g, all) ==> steps <= |all| + EdgeCount(g, all)
  {
    hide Links, IsComponent, Spent, Filed, Frontier;
    TopFrame(index, pulls, call, active);
    SpentBound(g, all, pulls);
  }

  lemma GoodAtRoot(g: Adjacency, all: seq<string>, index: Numbers, low: Numbers, counter: nat, pulls: Numbers,
      stack: seq<string>, onStack: set<string>, call: seq<Frame>, active: set<string>, sccs: seq<seq<string>>, steps: nat, w: string)
    requires Good(g, all, index, low, counter, pulls, stack, onStack, call, active, sccs, steps) && IsGraph(g, all) && call == [] && w in g && w !in index
    ensures Good(g, all, index[w := counter], low[w := counter], counter + 1, pulls[w := 0], stack + [w], onStack + {w},
                 call + [Frame(w, 0)], active + {w}, sccs, steps)
  {
    hide Reachability, Lists, Filed, IsComponent, Spent, Forward, Backward, LowSound, LowComplete;
    GoodTop(g, all, index, low, counter, pulls, stack, onStack, call, active, sccs, steps);
    ReachabilityIsPreorder(g);
    SpentAfterPull(all, pulls, w, 0);
    DiscoverLinks(g, Reachability(g), index, low, counter, pulls, pulls[w := 0], onStack, active, w);
    DiscoverBookkeeping(g, index, low, counter, pulls, stack, onStack, call, active, sccs, w);
  }

  lemma GoodAfterNew(g: Adjacency, all: seq<string>, index: Numbers, low: Numbers, counter: nat, pulls: Numbers,
      stack: seq<string>, onStack: set<string>, call: seq<Frame>, active: set<string>, sccs: seq<seq<string>>, steps: nat)
    requires Good(g, all, index, low, counter, pulls, stack, onStack, call, active, sccs, steps) && IsGraph(g, all) && call != []
    requires var f := call[|call| - 1]; f.node in g && f.next < |g[f.node]| && g[f.node][f.next] !in index
    ensures var f := call[|call| - 1]; var w := g[f.node][f.next];
      Good(g, all, index[w := counter], low[w := counter], counter + 1, pulls[f.node := f.next + 1][w := 0], stack + [w],
           onStack + {w}, call[|call| - 1 := Frame(f.node, f.next + 1)] + [Frame(w, 0)], active + {w}, sccs, steps + 1)
  {
    hide Links, IsComponent, Spent, Bookkeeping;
    GoodTop(g, all, index, low, counter, pulls, stack, onStack, call, active, sccs, steps);
    var f := call[|call| - 1];
    var w := g[f.node][f.next];
    SpentAfterPull(all, pulls, f.node, f.next + 1);
    SpentAfterPull(all, pulls[f.node := f.next + 1], w, 0);
    FollowNewBookkeeping(g, index, low, counter, pulls, stack, onStack, call, active, sccs);
    FollowNewLinks(g, index, low, counter, pulls, stack, onStack, call, active, sccs);
  }

  lemma GoodAfterKnown(g: Adjacency, all: seq<string>, index: Numbers, low: Numbers, counter: nat, pulls: Numbers,
      stack: seq<string>, onStack: set<string>, call: seq<Frame>, active: set<string>, sccs: seq<seq<string>>, steps: nat)
    requires Good(g, all, index, low, counter, pulls, stack, onStack, call, active, sccs, steps) && IsGraph(g, all) && call != []
    requires var f := call[|call| - 1]; f.node in low && f.node in g && f.next < |g[f.node]| && g[f.node][f.next] in index
    ensures var f := call[|call| - 1]; var w := g[f.node][f.next];
      Good(g, all, index, LowAfter(index, low, onStack, f.node, w), counter, pulls[f.node := f.next + 1], stack,
           onStack, call[|call| - 1 := Frame(f.node, f.next + 1)], active, sccs, steps + 1)
  {
    hide Links, IsComponent, Spent, Bookkeeping;
    GoodTop(g, all, index, low, counter, pulls, stack, onStack, call, active, sccs, steps);
    var f := call[|call| - 1];
    var w := g[f.node][f.next];
    SpentAfterPull(all, pulls, f.node, f.next + 1);
    PullBookkeeping(g, index, low, LowAfter(index, low, onStack, f.node, w), counter, pulls, stack, onStack, call, active, sccs);
    FollowKnownLinks(g, index, low, counter, pulls, stack, onStack, call, active, sccs);
  }

  /** The low links once the frame on top hands its own to its parent. */
  function LowReturned(low: Numbers, call: seq<Frame>): Numbers
    requires forall k :: 0 <= k < |call| ==> call[k].node in low
  {
    if |call| > 1 then
      var p := call[|call| - 2].node;
      low[p := Min(low[p], low[call[|call| - 1].node])]
    else low
  }

  lemma ParentIsTop(index: Numbers, pulls: Numbers, call: seq<Frame>, active: set<string>)
    requires index.Keys == pulls.Keys && active <= index.Keys && Frames(index, pulls, call, active) && |call| > 1
    ensures IsTop(index, active - {call[|call| - 1].node}, call[|call| - 2].node)
    ensures index[call[|call| - 2].node] < index[call[|call| - 1].node]
  {
    var v := call[|call| - 1].node;
    FramesAfterPop(index, pulls, call, active, 0);
    TopFrame(index, pulls[v := 0], call[..|call| - 1], active - {v});
  }

  /** A root's segment is the whole stack, so its low link cannot go below its number. */
  lemma RootLow(g: Adjacency, r: Relation, index: Numbers, low: Numbers, pulls: Numbers, stack: seq<string>, onStack: set<string>,
      call: seq<Frame>, active: set<string>)
    requires Keys(g, index, low, pulls, onStack, active) && LowSound(r, index, low, onStack, active)
    requires Lists(index, stack, onStack) && SharedBottom(stack, call) && |call| == 1 && call[0].node in active
    ensures low[call[0].node] == index[call[0].node]
  {
    var v := call[0].node;
    var x :| Witness(r, index, onStack, v, low[v], x);
    assert x in stack;
    assert index[stack[0]] <= index[x];
  }

  /** A frame whose low link is below its own number has a parent, and the link is sound. */
  lemma MergeFacts(g: Adjacency, all: seq<string>, index: Numbers, low: Numbers, counter: nat, pulls: Numbers,
      stack: seq<string>, onStack: set<string>, call: seq<Frame>, active: set<string>, sccs: seq<seq<string>>, steps: nat)
    requires Good(g, all, index, low, counter, pulls, stack, onStack, call, active, sccs, steps) && call != []
    requires var f := call[|call| - 1]; f.node in low && f.node in index && low[f.node] != index[f.node]
    ensures |call| > 1 && Keys(g, index, low, pulls, onStack, active)
    ensures var v := call[|call| - 1].node; low[v] < index[v] && IsTop(index, active, v)
    ensures IsTop(index, active - {call[|call| - 1].node}, call[|call| - 2].node)
  {
    hide Reachability, IsComponent, Spent, Filed, Frontier, Pulled, Forward, Backward, LowComplete;
    TopFrame(index, pulls, call, active);
    if |call| == 1 { RootLow(g, Reachability(g), index, low, pulls, stack, onStack, call, active); }
    ParentIsTop(index, pulls, call, active);
  }

  lemma GoodAfterMerge(g: Adjacency, all: seq<string>, index: Numbers, low: Numbers, counter: nat, pulls: Numbers,
      stack: seq<string>, onStack: set<string>, call: seq<Frame>, active: set<string>, sccs: seq<seq<string>>, steps: nat)
    requires Good(g, all, index, low, counter, pulls, stack, onStack, call, active, sccs, steps) && IsGraph(g, all) && call != []
    requires forall k :: 0 <= k < |call| ==> call[k].node in low
    requires var f := call[|call| - 1]; f.node in g && f.next == |g[f.node]| && f.node in index && low[f.node] != index[f.node]
    ensures var f := call[|call| - 1];
      Good(g, all, index, LowReturned(low, call), counter, pulls[f.node := f.next + 1], stack, onStack,
           call[..|call| - 1], active - {f.node}, sccs, steps + 1)
  {
    hide Reachability, IsComponent, Spent, Filed, Frontier, Pulled, Forward, Backward, LowComplete, LowSound, Lists, IsTop, SharedBottom, IsTransitive;
    var f := call[|call| - 1];
    GoodTop(g, all, index, low, counter, pulls, stack, onStack, call, active, sccs, steps);
    SpentAfterPull(all, pulls, f.node, f.next + 1);
    ReachabilityIsPreorder(g);
    MergeFacts(g, all, index, low, counter, pulls, stack, onStack, call, active, sccs, steps);
    MergeBookkeeping(g, index, low, LowReturned(low, call), counter, pulls, stack, onStack, call, active, sccs);
    MergeLinks(g, Reachability(g), index, low, counter, pulls, onStack, active, f.node, call[|call| - 2].node);
  }

  /** A frame whose low link is its own number passes nothing on, and its segment holds no other active node. */
  lemma FileFacts(g: Adjacency, all: seq<string>, index: Numbers, low: Numbers, counter: nat, pulls: Numbers,
      stack: seq<string>, onStack: set<string>, call: seq<Frame>, active: set<string>, sccs: seq<seq<string>>, steps: nat, k: nat)
    requires Good(g, all, index, low, counter, pulls, stack, onStack, call, active, sccs, steps) && call != []
    requires forall k :: 0 <= k < |call| ==> call[k].node in low
    requires onStack <= index.Keys
    requires var f := call[|call| - 1]; f.node in index && low[f.node] == index[f.node] && k < |stack| && stack[k] == f.node
    ensures LowReturned(low, call) == low
    ensures IsTop(index, active, stack[k]) && active - {stack[k]} <= onStack - Segment(index, onStack, stack[k])
    ensures forall x :: x in Reversed(stack[k..]) <==> x in Segment(index, onStack, stack[k])
  {
    hide Reachability, IsComponent, Spent, Filed, Frontier, Forward, Backward, LowComplete, Pulled;
    TopFrame(index, pulls, call, active);
    SegmentIsSuffix(index, stack, onStack, k);
    if |call| > 1 { ParentIsTop(index, pulls, call, active); }
  }

  lemma GoodAfterFile(g: Adjacency, all: seq<string>, index: Numbers, low: Numbers, counter: nat, pulls: Numbers,
      stack: seq<string>, onStack: set<string>, call: seq<Frame>, active: set<string>, sccs: seq<seq<string>>, steps: nat, k: nat)
    requires Good(g, all, index, low, counter, pulls, stack, onStack, call, active, sccs, steps) && IsGraph(g, all) && call != []
    requires forall k :: 0 <= k < |call| ==> call[k].node in low
    requires onStack <= index.Keys
    requires var f := call[|call| - 1];
      f.node in g && f.next == |g[f.node]| && f.node in index && low[f.node] == index[f.node] && k < |stack| && stack[k] == f.node
    ensures var f := call[|call| - 1];
      Good(g, all, index, LowReturned(low, call), counter, pulls[f.node := f.next + 1], stack[..k],
           onStack - Segment(index, onStack, f.node), call[..|call| - 1], active - {f.node},
           sccs + [Reversed(stack[k..])], steps + 1)
  {
    hide Bookkeeping, Reachability, IsComponent, Spent, Forward, Backward, LowSound, Reversed, Segment;
    var f := call[|call| - 1];
    GoodTop(g, all, index, low, counter, pulls, stack, onStack, call, active, sccs, steps);
    SpentAfterPull(all, pulls, f.node, f.next + 1);
    FileFacts(g, all, index, low, counter, pulls, stack, onStack, call, active, sccs, steps, k);
    FileComponent(g, index, low, counter, pulls, stack, onStack, call, active, sccs, k);
    FileBookkeeping(g, index, low, low, counter, pulls, stack, onStack, call, active, sccs, k);
    FileLinks(g, Reachability(g), index, low, pulls, onStack, active, f.node);
  }

  /** The search over one graph: the maps, stacks and counter that the nested loops update. */
  class Search {
    const all: seq<string>
    const adj: Adjacency
    var index: Numbers
    var low: Numbers
    var counter: nat
    var stack: seq<string>
    var onStack: set<string>
    var call: seq<Frame>
    var sccs: seq<seq<string>>
    ghost var pulls: Numbers
    ghost var active: set<string>
    ghost var steps: nat

    ghost predicate Valid()
      reads this
    {
      IsGraph(adj, all) && Good(adj, all, index, low, counter, pulls, stack, onStack, call, active, sccs, steps)
    }

    constructor (all: seq<string>, adj: Adjacency)
      requires IsGraph(adj, all)
      ensures this.all == all && this.adj == adj
      ensures Valid() && call == [] && steps == 0 && index == map[]
    {
      this.all, this.adj := all, adj;
      index, low, counter := map[], map[], 0;
      stack, onStack, call, sccs := [], {}, [], [];
      pulls, active, steps := map[], {}, 0;
      GoodInitially(adj, all);
    }

    /** Number w, push it on the stack and open its frame. */
    method Enter(w: string)
      modifies this
      ensures index == old(index)[w := old(counter)] && low == old(low)[w := old(counter)] && counter == old(counter) + 1
      ensures stack == old(stack) + [w] && onStack == old(onStack) + {w} && call == old(call) + [Frame(w, 0)]
      ensures pulls == old(pulls)[w := 0] && active == old(active) + {w}
      ensures sccs == old(sccs) && steps == old(steps)
    {
      index, low := index[w := counter], low[w := counter];
      counter := counter + 1;
      stack, onStack := stack + [w], onStack + {w};
      call := call + [Frame(w, 0)];
      pulls, active := pulls[w := 0], active + {w};
    }

    method OpenRoot(root: string)
      requires Valid() && call == [] && root in adj && root !in index
      modifies this
      ensures Valid() && index.Keys == old(index.Keys) + {root}
    {
      hide Good, IsGraph;
      GoodAtRoot(adj, all, index, low, counter, pulls, stack, onStack, call, active, sccs, steps, root);
      Enter(root);
    }

    /** One turn of the inner loop on a frame with an edge left. */
    method FollowEdge()
      requires Valid() && call != []
      requires call[|call| - 1].node in adj && call[|call| - 1].next < |adj[call[|call| - 1].node]|
      modifies this
      ensures Valid() && steps == old(steps) + 1 && old(index.Keys) <= index.Keys
    {
      hide Good, IsGraph;
      GoodTop(adj, all, index, low, counter, pulls, stack, onStack, call, active, sccs, steps);
      var frame := call[|call| - 1];
      var w := adj[frame.node][frame.next];
      if w !in index {
        GoodAfterNew(adj, all, index, low, counter, pulls, stack, onStack, call, active, sccs, steps);
      } else {
        GoodAfterKnown(adj, all, index, low, counter, pulls, stack, onStack, call, active, sccs, steps);
      }
      call := call[|call| - 1 := Frame(frame.node, frame.next + 1)];
      pulls, steps := pulls[frame.node := frame.next + 1], steps + 1;
      if w !in index {
        Enter(w);
      } else if w in onStack {
        low := low[frame.node := Min(low[frame.node], index[w])];
      }
    }

    /** Pop the top frame; a parent frame takes over its low link. */
    method PopFrame()
      requires call != [] && call[|call| - 1].node in pulls
      requires forall k :: 0 <= k < |call| ==> call[k].node in low
      modifies this`low, this`call, this`pulls, this`active, this`steps
      ensures low == LowReturned(old(low), old(call)) && call == old(call)[..|old(call)| - 1]
      ensures var f := old(call)[|old(call)| - 1];
        pulls == old(pulls)[f.node := f.next + 1] && active == old(active) - {f.node} && steps == old(steps) + 1
    {
      var frame := call[|call| - 1];
      call := call[..|call| - 1];
      pulls, active, steps := pulls[frame.node := frame.next + 1], active - {frame.node}, steps + 1;
      if |call| > 0 {
        var parent := call[|call| - 1].node;
        low := low[parent := Min(low[parent], low[frame.node])];
      }
    }

    /** The iterator of a frame that heads its component is done. */
    method ReturnAndFile()
      requires Valid() && call != []
      requires var f := call[|call| - 1];
        f.node in adj && f.next == |adj[f.node]| && f.node in low && f.node in index && low[f.node] == index[f.node]
      modifies this
      ensures Valid() && steps == old(steps) + 1 && old(index.Keys) == index.Keys
    {
      hide Good, IsGraph, Reversed, Segment, IsTop, Distinct, LowReturned;
      GoodTop(adj, all, index, low, counter, pulls, stack, onStack, call, active, sccs, steps);
      var frame := call[|call| - 1];
      ghost var k: nat :| k < |stack| && stack[k] == frame.node;
      FileFacts(adj, all, index, low, counter, pulls, stack, onStack, call, active, sccs, steps, k);
      GoodAfterFile(adj, all, index, low, counter, pulls, stack, onStack, call, active, sccs, steps, k);
      PopFrame();
      var component;
      stack, onStack, component := PopComponent(stack, onStack, frame.node, index, k);
      sccs := sccs + [component];
    }

    /** One turn of the inner loop on a frame whose iterator is done. */
    method Return()
      requires Valid() && call != []
      requires call[|call| - 1].node in adj && call[|call| - 1].next == |adj[call[|call| - 1].node]|
      modifies this
      ensures Valid() && steps == old(steps) + 1 && old(index.Keys) == index.Keys
    {
      hide Good, IsGraph, IsTop, Distinct, LowReturned;
      GoodTop(adj, all, index, low, counter, pulls, stack, onStack, call, active, sccs, steps);
      var frame := call[|call| - 1];
      if low[frame.node] == index[frame.node] {
        ReturnAndFile();
      } else {
        GoodAfterMerge(adj, all, index, low, counter, pulls, stack, onStack, call, active, sccs, steps);
        PopFrame();
      }
    }
  }

  /** Every node's component, together with the number of edge-iterator pulls the search makes. */
  method StronglyConnected(all: seq<string>, adj: Adjacency) returns (sccs: seq<seq<string>>, ghost steps: nat)
    requires IsGraph(adj, all)
    ensures IsPartition(adj, sccs)
    ensures steps == |all| + EdgeCount(adj, all)
  {
    hide Good;
    var s := new Search(all, adj);
    for n := 0 to |all|
      invariant s.Valid() && s.call == [] && s.all == all && s.adj == adj
      invariant forall i :: 0 <= i < n ==> all[i] in s.index
    {
      if all[n] !in s.index {
        s.OpenRoot(all[n]);
        while s.call != []
          invariant s.Valid() && forall i :: 0 <= i <= n ==> all[i] in s.index
          decreases |all| + EdgeCount(adj, all) - s.steps
        {
          GoodTop(adj, all, s.index, s.low, s.counter, s.pulls, s.stack, s.onStack, s.call, s.active, s.sccs, s.steps);
          var frame := s.call[|s.call| - 1];
          if frame.next == |adj[frame.node]| {
            s.Return();
          } else {
            s.FollowEdge();
          }
          GoodTop(adj, all, s.index, s.low, s.counter, s.pulls, s.stack, s.onStack, s.call, s.active, s.sccs, s.steps);
        }
      }
    }
    GoodAtEnd(adj, all, s.index, s.low, s.counter, s.pulls, s.stack, s.onStack, s.call, s.active, s.sccs, s.steps);
    sccs, steps := s.sccs, s.steps;
  }

  lemma GoodAtEnd(g: Adjacency, all: seq<string>, index: Numbers, low: Numbers, counter: nat, pulls: Numbers,
      stack: seq<string>, onStack: set<string>, call: seq<Frame>, active: set<string>, sccs: seq<seq<string>>, steps: nat)
    requires Good(g, all, index, low, counter, pulls, stack, onStack, call, active, sccs, steps) && IsGraph(g, all) && call == []
    requires forall i :: 0 <= i < |all| ==> all[i] in index
    ensures IsPartition(g, sccs) && steps == |all| + EdgeCount(g, all)
  {
    hide Links, Frontier, Frames, Lists;
    GoodTop(g, all, index, low, counter, pulls, stack, onStack, call, active, sccs, steps);
    SpentBound(g, all, pulls);
    forall v ensures v in g <==> InSome(sccs, v) {
      assert v in g <==> Finished(index, onStack, v);
    }
  }
}
