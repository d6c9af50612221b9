/**
 stringify on object graphs: objects may be shared, and may contain themselves.
 The stack of open objects decides whether the writer returns or throws.
 */
module Json5Graph {
  import opened Wrappers
  import opened Json5Text
  import opened Json5Writer

  /** A value in an object graph: a scalar, or a reference to an object by identity. */
  datatype Node = Scalar(t: Tree) | Pointer(id: nat)

  datatype Shape =
    | ArrayShape(items: seq<Node>)
    | ObjectShape(keys: seq<string>, values: seq<Node>)

  type Graph = map<nat, Shape>

  function Children(s: Shape): seq<Node>
  {
    match s
    case ArrayShape(items) => items
    case ObjectShape(_, values) => values
  }

  ghost predicate InGraph(g: Graph, n: Node)
  {
    match n
    case Scalar(t) => !t.TArr? && !t.TObj?
    case Pointer(id) => id in g
  }

  ghost predicate AllInGraph(g: Graph, ns: seq<Node>)
  {
    forall i :: 0 <= i < |ns| ==> InGraph(g, ns[i])
  }

  ghost predicate WellFormed(g: Graph)
  {
    forall id :: id in g ==>
      && AllInGraph(g, Children(g[id]))
      && (g[id].ObjectShape? ==> |g[id].keys| == |g[id].values|)
  }

  // ----- the tree an object graph unfolds to ------------------------------------------

  /** t is what one sees on following every reference from n. */
  ghost predicate Unfolds(g: Graph, n: Node, t: Tree)
    decreases t
  {
    match n
    case Scalar(s) => t == s
    case Pointer(id) =>
      id in g &&
      match t
      case TArr(items) =>
        && g[id].ArrayShape? && |g[id].items| == |items|
        && forall i | 0 <= i < |items| :: Unfolds(g, g[id].items[i], items[i])
      case TObj(members) =>
        && g[id].ObjectShape? && |g[id].keys| == |g[id].values| == |members|
        && forall i | 0 <= i < |members| ::
             members[i].key == g[id].keys[i] && Unfolds(g, g[id].values[i], members[i].value)
      case _ => false
  }

  function Members(keys: seq<string>, ts: seq<Tree>): (ms: seq<Member>)
    requires |keys| == |ts|
    ensures |ms| == |ts|
    ensures forall i :: 0 <= i < |ts| ==> ms[i] == Member(keys[i], ts[i])
  {
    seq(|ts|, i requires 0 <= i < |ts| => Member(keys[i], ts[i]))
  }

  /** The unfolding of n, unless it leads back into one of the open objects. */
  ghost function Unfold(g: Graph, n: Node, open: set<nat>): Option<Tree>
    requires WellFormed(g) && InGraph(g, n)
    decreases |g.Keys - open|, 0
  {
    match n
    case Scalar(t) => Some(t)
    case Pointer(id) =>
      if id in open then None
      else
        Shrinks(g, open, id);
        match UnfoldAll(g, Children(g[id]), open + {id})
        case None => None
        case Some(ts) =>
          Some(if g[id].ArrayShape? then TArr(ts) else TObj(Members(g[id].keys, ts)))
  }

  ghost function UnfoldAll(g: Graph, ns: seq<Node>, open: set<nat>): (r: Option<seq<Tree>>)
    requires WellFormed(g) && AllInGraph(g, ns)
    ensures r.Some? ==> |r.value| == |ns|
    decreases |g.Keys - open|, 1 + |ns|
  {
    if ns == [] then Some([])
    else
      match Unfold(g, ns[0], open)
      case None => None
      case Some(t) =>
        match UnfoldAll(g, ns[1..], open)
        case None => None
        case Some(ts) => Some([t] + ts)
  }

  lemma Shrinks(g: Graph, open: set<nat>, id: nat)
    requires id in g && id !in open
    ensures |g.Keys - (open + {id})| < |g.Keys - open|
  {
    assert g.Keys - open == (g.Keys - (open + {id})) + {id};
  }

  lemma {:induction false} UnfoldIsRight(g: Graph, n: Node, open: set<nat>)
    requires WellFormed(g) && InGraph(g, n)
    ensures Unfold(g, n, open).Some? ==> Unfolds(g, n, Unfold(g, n, open).value)
    decreases |g.Keys - open|, 0
  {
    if n.Pointer? && n.id !in open {
      Shrinks(g, open, n.id);
      UnfoldAllIsRight(g, Children(g[n.id]), open + {n.id});
    }
  }

  lemma {:induction false} UnfoldAllIsRight(g: Graph, ns: seq<Node>, open: set<nat>)
    requires WellFormed(g) && AllInGraph(g, ns)
    ensures var r := UnfoldAll(g, ns, open);
            r.Some? ==> forall i :: 0 <= i < |ns| ==> Unfolds(g, ns[i], r.value[i])
    decreases |g.Keys - open|, 1 + |ns|
  {
    if ns != [] {
      UnfoldIsRight(g, ns[0], open);
      UnfoldAllIsRight(g, ns[1..], open);
    }
  }

  // ----- cycles -------------------------------------------------------------------------

  ghost predicate Edge(g: Graph, a: nat, b: nat)
  {
    a in g && Pointer(b) in Children(g[a])
  }

  ghost predicate IsPath(g: Graph, p: seq<nat>)
  {
    p != [] && forall i :: 0 <= i < |p| - 1 ==> Edge(g, p[i], p[i + 1])
  }

  ghost predicate Repeats(p: seq<nat>)
  {
    exists i, j :: 0 <= i < j < |p| && p[i] == p[j]
  }

  /** Some walk from n passes twice through the same object. */
  ghost predicate CycleReachable(g: Graph, n: Node)
  {
    n.Pointer? && exists p :: IsPath(g, p) && p[0] == n.id && Repeats(p)
  }

  /** A walk that leads into an open object or repeats itself. */
  ghost predicate Trapped(g: Graph, p: seq<nat>, open: set<nat>)
  {
    IsPath(g, p) && (p[|p| - 1] in open || Repeats(p))
  }

  lemma TrappedFromParent(g: Graph, id: nat, q: seq<nat>, open: set<nat>)
    requires Trapped(g, q, open + {id}) && Edge(g, id, q[0])
    ensures Trapped(g, [id] + q, open)
  {
    var p := [id] + q;
    assert forall k :: 0 <= k < |q| ==> p[k + 1] == q[k];
    forall k | 0 <= k < |p| - 1 ensures Edge(g, p[k], p[k + 1]) {
      if k > 0 {
        assert Edge(g, q[k - 1], q[k]);
      }
    }
    if Repeats(q) {
      var a, b :| 0 <= a < b < |q| && q[a] == q[b];
      assert p[a + 1] == p[b + 1];
    } else if q[|q| - 1] == id {
      assert p[0] == p[|p| - 1];
    }
  }

  /** Where unfolding fails, some walk from n is trapped. */
  lemma {:induction false} FailureHasWitness(g: Graph, n: Node, open: set<nat>) returns (p: seq<nat>)
    requires WellFormed(g) && InGraph(g, n) && Unfold(g, n, open).None?
    ensures n.Pointer? && Trapped(g, p, open) && p[0] == n.id
    decreases |g.Keys - open|, 0
  {
    p := [n.id];
    if n.id !in open {
      Shrinks(g, open, n.id);
      var q := FailureAmong(g, Children(g[n.id]), open + {n.id});
      TrappedFromParent(g, n.id, q, open);
      p := p + q;
    }
  }

  lemma {:induction false} FailureAmong(g: Graph, ns: seq<Node>, open: set<nat>) returns (p: seq<nat>)
    requires WellFormed(g) && AllInGraph(g, ns) && UnfoldAll(g, ns, open).None?
    ensures Trapped(g, p, open) && Pointer(p[0]) in ns
    decreases |g.Keys - open|, 1 + |ns|
  {
    if Unfold(g, ns[0], open).None? {
      p := FailureHasWitness(g, ns[0], open);
      assert ns[0] in ns;
    } else {
      p := FailureAmong(g, ns[1..], open);
    }
  }

  /** Where unfolding succeeds, no walk repeats itself or meets an open object. */
  lemma {:induction false} SuccessHasNoCycle(g: Graph, n: Node, open: set<nat>, p: seq<nat>)
    requires WellFormed(g) && InGraph(g, n) && Unfold(g, n, open).Some?
    requires n.Pointer? && IsPath(g, p) && p[0] == n.id
    ensures !Repeats(p) && forall k :: 0 <= k < |p| ==> p[k] !in open
    decreases |p|
  {
    if |p| > 1 {
      var q := p[1..];
      assert Edge(g, p[0], p[1]);
      var i :| 0 <= i < |Children(g[n.id])| && Children(g[n.id])[i] == Pointer(p[1]);
      AllSucceed(g, Children(g[n.id]), open + {n.id}, i);
      assert IsPath(g, q) by {
        forall k | 0 <= k < |q| - 1 ensures Edge(g, q[k], q[k + 1]) {
          assert Edge(g, p[k + 1], p[k + 2]);
        }
      }
      SuccessHasNoCycle(g, Pointer(p[1]), open + {n.id}, q);
      NoRepeats(p);
    }
  }

  lemma NoRepeats(p: seq<nat>)
    requires |p| > 1 && !Repeats(p[1..]) && forall k :: 0 <= k < |p| - 1 ==> p[1..][k] != p[0]
    ensures !Repeats(p)
  {
    forall i, j | 0 <= i < j < |p| ensures p[i] != p[j] {
      assert p[j] == p[1..][j - 1];
      if i > 0 {
        assert p[i] == p[1..][i - 1];
      }
    }
  }

  lemma {:induction false} AllSucceed(g: Graph, ns: seq<Node>, open: set<nat>, i: nat)
    requires WellFormed(g) && AllInGraph(g, ns) && UnfoldAll(g, ns, open).Some? && i < |ns|
    ensures Unfold(g, ns[i], open).Some?
    decreases |ns|
  {
    if i > 0 {
      AllSucceed(g, ns[1..], open, i - 1);
    }
  }

  /** Unfolding from the root fails exactly when a cycle is reachable from it;
      sharing alone never makes it fail. */
  lemma UnfoldFailsOnCycles(g: Graph, n: Node)
    requires WellFormed(g) && InGraph(g, n)
    ensures Unfold(g, n, {}).None? <==> CycleReachable(g, n)
  {
    if Unfold(g, n, {}).None? {
      var p := FailureHasWitness(g, n, {});
    } else if n.Pointer? {
      forall p | IsPath(g, p) && p[0] == n.id ensures !Repeats(p) {
        SuccessHasNoCycle(g, n, {}, p);
      }
    }
  }

  // ----- the writer with its stack and indent ------------------------------------------

  lemma {:induction false} SerializeItemsSnoc(u: Tables, style: Style, indent: string, ts: seq<Tree>, t: Tree)
    ensures SerializeItems(u, style, indent, ts + [t]) ==
            SerializeItems(u, style, indent, ts) + [Serialize(u, style, indent, t)]
  {
    if ts != [] {
      assert (ts + [t])[1..] == ts[1..] + [t];
      SerializeItemsSnoc(u, style, indent, ts[1..], t);
    }
  }

  lemma {:induction false} SerializeMembersSnoc(u: Tables, style: Style, indent: string, ms: seq<Member>, m: Member)
    ensures SerializeMembers(u, style, indent, ms + [m]) ==
            SerializeMembers(u, style, indent, ms) + [SerializeMember(u, style, indent, m)]
  {
    if ms != [] {
      assert (ms + [m])[1..] == ms[1..] + [m];
      SerializeMembersSnoc(u, style, indent, ms[1..], m);
    }
  }

  lemma MembersStep(u: Tables, style: Style, indent: string, keys: seq<string>, i: nat, ts: seq<Tree>, t: Tree)
    requires i < |keys| && |ts| == i
    ensures SerializeMembers(u, style, indent, Members(keys[..i + 1], ts + [t])) ==
            SerializeMembers(u, style, indent, Members(keys[..i], ts)) +
            [SerializeMember(u, style, indent, Member(keys[i], t))]
  {
    var m := Member(keys[i], t);
    SerializeMembersSnoc(u, style, indent, Members(keys[..i], ts), m);
    assert Members(keys[..i + 1], ts + [t]) == Members(keys[..i], ts) + [m];
  }

  /** How much of ns is unfolded into ts, before the rest is looked at. */
  ghost predicate Progress(g: Graph, ns: seq<Node>, open: set<nat>, i: nat, ts: seq<Tree>)
    requires WellFormed(g) && AllInGraph(g, ns) && i <= |ns|
  {
    |ts| == i &&
    UnfoldAll(g, ns, open) ==
      match UnfoldAll(g, ns[i..], open)
      case None => None
      case Some(rest) => Some(ts + rest)
  }

  lemma ProgressStep(g: Graph, ns: seq<Node>, open: set<nat>, i: nat, ts: seq<Tree>)
    requires WellFormed(g) && AllInGraph(g, ns) && i < |ns| && Progress(g, ns, open, i, ts)
    ensures match Unfold(g, ns[i], open)
            case None => UnfoldAll(g, ns, open).None?
            case Some(t) => Progress(g, ns, open, i + 1, ts + [t])
  {
    assert ns[i..][0] == ns[i] && ns[i..][1..] == ns[i + 1..];
    var t, rest := Unfold(g, ns[i], open), UnfoldAll(g, ns[i + 1..], open);
    if t.Some? && rest.Some? {
      assert ts + ([t.value] + rest.value) == ts + [t.value] + rest.value;
    }
  }

  lemma ProgressStart(g: Graph, ns: seq<Node>, open: set<nat>)
    requires WellFormed(g) && AllInGraph(g, ns)
    ensures Progress(g, ns, open, 0, [])
  {
    assert ns[0..] == ns;
    var r := UnfoldAll(g, ns, open);
    assert r.Some? ==> [] + r.value == r.value;
  }

  lemma ProgressEnd(g: Graph, ns: seq<Node>, open: set<nat>, ts: seq<Tree>)
    requires WellFormed(g) && AllInGraph(g, ns) && Progress(g, ns, open, |ns|, ts)
    ensures UnfoldAll(g, ns, open) == Some(ts)
  {
    assert ns[|ns|..] == [] && ts + [] == ts;
  }

  ghost function Open(stack: seq<nat>): set<nat>
  {
    set i | 0 <= i < |stack| :: stack[i]
  }

  lemma OpenPush(stack: seq<nat>, id: nat)
    ensures Open(stack + [id]) == Open(stack) + {id}
  {
    forall x | x in Open(stack) + {id} ensures x in Open(stack + [id]) {
      if x == id {
        assert (stack + [id])[|stack|] == x;
      } else {
        var i :| 0 <= i < |stack| && stack[i] == x;
        assert (stack + [id])[i] == x;
      }
    }
  }

  class Stringifier {
    const tables: Tables
    const style: Style
    const graph: Graph
    var stack: seq<nat>
    var indent: string

    constructor (tables: Tables, style: Style, graph: Graph)
      ensures this.tables == tables && this.style == style && this.graph == graph
      ensures stack == [] && indent == ""
    {
      this.tables, this.style, this.graph := tables, style, graph;
      stack, indent := [], "";
    }

    /** serializeProperty; None is the thrown 'Converting circular structure'. */
    method SerializeProperty(n: Node) returns (text: Option<string>)
      requires WellFormed(graph) && InGraph(graph, n)
      modifies this
      ensures match Unfold(graph, n, Open(old(stack)))
              case None => text.None?
              case Some(t) =>
                && text == Some(Serialize(tables, style, old(indent), t))
                && stack == old(stack) && indent == old(indent)
      decreases |graph.Keys - Open(stack)|, 1
    {
      match n
      case Scalar(t) =>
        text := Some(Serialize(tables, style, indent, t));
      case Pointer(id) =>
        if id in stack {
          return None;
        }
        assert id !in Open(stack);
        Shrinks(graph, Open(stack), id);
        OpenPush(stack, id);
        var stepback := indent;
        stack := stack + [id];
        indent := indent + style.gap;
        match graph[id] {
          case ArrayShape(items) => text := SerializeArray(items, stepback);
          case ObjectShape(keys, values) => text := SerializeObject(keys, values, stepback);
        }
        if text.Some? {
          stack := stack[..|stack| - 1];
          indent := stepback;
        }
    }

    /** The loop of serializeArray, between the push and the pop. */
    method SerializeArray(items: seq<Node>, stepback: string) returns (text: Option<string>)
      requires WellFormed(graph) && AllInGraph(graph, items) && indent == stepback + style.gap
      modifies this
      ensures match UnfoldAll(graph, items, Open(old(stack)))
              case None => text.None?
              case Some(ts) =>
                && text == Some(Serialize(tables, style, stepback, TArr(ts)))
                && stack == old(stack) && indent == old(indent)
      decreases |graph.Keys - Open(stack)|, 2
    {
      var partial: seq<string> := [];
      ghost var ts: seq<Tree> := [];
      ghost var open := Open(stack);
      ProgressStart(graph, items, open);
      for i := 0 to |items|
        invariant stack == old(stack) && indent == old(indent)
        invariant Progress(graph, items, open, i, ts)
        invariant partial == SerializeItems(tables, style, indent, ts)
      {
        ProgressStep(graph, items, open, i, ts);
        var part := SerializeProperty(items[i]);
        if part.None? {
          return None;
        }
        ghost var t := Unfold(graph, items[i], open).value;
        SerializeItemsSnoc(tables, style, indent, ts, t);
        ts := ts + [t];
        partial := partial + [part.value];
      }
      ProgressEnd(graph, items, open, ts);
      text := Some(Bracket('[', partial, style.gap, stepback, ']'));
    }

    /** The loop of serializeObject, between the push and the pop. */
    method SerializeObject(keys: seq<string>, values: seq<Node>, stepback: string) returns (text: Option<string>)
      requires WellFormed(graph) && AllInGraph(graph, values) && |keys| == |values|
      requires indent == stepback + style.gap
      modifies this
      ensures match UnfoldAll(graph, values, Open(old(stack)))
              case None => text.None?
              case Some(ts) =>
                && text == Some(Serialize(tables, style, stepback, TObj(Members(keys, ts))))
                && stack == old(stack) && indent == old(indent)
      decreases |graph.Keys - Open(stack)|, 2
    {
      var partial: seq<string> := [];
      ghost var ts: seq<Tree> := [];
      ghost var open := Open(stack);
      ProgressStart(graph, values, open);
      for i := 0 to |values|
        invariant stack == old(stack) && indent == old(indent)
        invariant Progress(graph, values, open, i, ts)
        invariant partial == SerializeMembers(tables, style, indent, Members(keys[..i], ts))
      {
        ProgressStep(graph, values, open, i, ts);
        var part := SerializeProperty(values[i]);
        if part.None? {
          return None;
        }
        ghost var t := Unfold(graph, values[i], open).value;
        var member := WriteMember(keys[i], part.value, t);
        MembersStep(tables, style, indent, keys, i, ts, t);
        ts := ts + [t];
        partial := partial + [member];
      }
      ProgressEnd(graph, values, open, ts);
      assert keys[..|keys|] == keys;
      text := Some(Bracket('{', partial, style.gap, stepback, '}'));
    }

    /** serializeKey(key) + ':' and the member's text. */
    method WriteMember(key: string, propertyString: string, ghost t: Tree) returns (member: string)
      requires propertyString == Serialize(tables, style, indent, t)
      ensures member == SerializeMember(tables, style, indent, Member(key, t))
    {
      member := SerializeKey(tables, key, style.quote) + ":";
      if style.gap != "" {
        member := member + " ";
      }
      member := member + propertyString;
    }

    /** stringify: it ends on every finite graph, throws exactly when a cycle is
        reachable, and otherwise writes the tree the graph unfolds to. */
    method StringifyGraph(root: Node) returns (text: Option<string>)
      requires WellFormed(graph) && InGraph(graph, root) && stack == [] && indent == ""
      modifies this
      ensures text.None? <==> CycleReachable(graph, root)
      ensures text.Some? ==>
                && stack == [] && indent == ""
                && exists t :: Unfolds(graph, root, t) && text.value == Stringify(tables, style, t)
    {
      assert Open(stack) == {};
      UnfoldFailsOnCycles(graph, root);
      UnfoldIsRight(graph, root, {});
      text := SerializeProperty(root);
    }
  }
}
