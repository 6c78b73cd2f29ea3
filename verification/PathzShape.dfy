/** What is stored at each location of a policy tree, and how an insertion changes it one node
    at a time: the bridge between the linked nodes and the tree as a value. */
module PathzShape {
  import opened Options
  import opened PathzPolicy
  import opened PathzTrie

  // ---------- The shape of a tree: what is stored at each location ----------

  /** A node is reached by names and key values; the key name is stored in the parent. */
  datatype Edge = ByName(n: string) | ByValue(v: string)

  function EdgeOf(tok: Token): Edge {
    match tok case Name(n) => ByName(n) case Key(_, v) => ByValue(v)
  }

  /** What one node stores, its children reduced to their names and key values. */
  datatype Top = Top(users: map<string, Permission>, groups: map<string, Permission>, rule: string, key: string,
                     names: set<string>, values: set<string>)

  const EMPTY_TOP := Top(map[], map[], "", "", {}, {})

  type Shape = map<seq<Edge>, Top>

  predicate HasEdge(t: Top, e: Edge) {
    match e case ByName(n) => n in t.names case ByValue(v) => v in t.values
  }

  function AddEdge(t: Top, tok: Token): Top {
    match tok
    case Name(n) => t.(names := t.names + {n})
    case Key(k, v) => t.(key := k, values := t.values + {v})
  }

  ghost function RecordRule(t: Top, r: Rule): Top {
    var t' := t.(rule := PrintPath(r.path));
    match r.principal
    case User(u) => t'.(users := t.users[u := Update(PermissionFor(t.users, u), r)])
    case Group(g) => t'.(groups := t.groups[g := Update(PermissionFor(t.groups, g), r)])
    case NoPrincipal => t'
  }

  predicate KeyClash(t: Top, tok: Token) {
    tok.Key? && t.key != "" && t.key != tok.k
  }

  /** One step of an insertion: the node learns of the child, which is made if missing. */
  function Step(shape: Shape, loc: seq<Edge>, tok: Token): Shape
    requires loc in shape
  {
    var child := loc + [EdgeOf(tok)];
    var shape' := shape[loc := AddEdge(shape[loc], tok)];
    if HasEdge(shape[loc], EdgeOf(tok)) then shape' else shape'[child := EMPTY_TOP]
  }

  /** The shape after inserting along `toks` from `loc`, if nothing clashes. */
  ghost function InsertShape(shape: Shape, loc: seq<Edge>, toks: seq<Token>, r: Rule): Option<Shape>
    requires loc in shape
    decreases |toks|
  {
    if toks == [] then
      if r.principal == NoPrincipal then None else Some(shape[loc := RecordRule(shape[loc], r)])
    else if KeyClash(shape[loc], toks[0]) then None
    else
      var child := loc + [EdgeOf(toks[0])];
      var shape' := Step(shape, loc, toks[0]);
      if child in shape' then InsertShape(shape', child, toks[1..], r) else None
  }

  /** A location is used only below a node that knows of it. */
  ghost predicate Closed(shape: Shape) {
    forall l, e {:trigger l + [e] in shape} :: l + [e] in shape <==> l in shape && HasEdge(shape[l], e)
  }

  lemma StepClosed(shape: Shape, loc: seq<Edge>, tok: Token)
    requires loc in shape && Closed(shape)
    ensures Closed(Step(shape, loc, tok))
    ensures loc + [EdgeOf(tok)] in Step(shape, loc, tok)
  {
    var child := loc + [EdgeOf(tok)];
    var shape' := Step(shape, loc, tok);
    forall l, e ensures l + [e] in shape' <==> l in shape' && HasEdge(shape'[l], e) {
      assert l + [e] in shape <==> l in shape && HasEdge(shape[l], e);
      assert child in shape <==> HasEdge(shape[loc], EdgeOf(tok));
      assert l + [e] == child <==> l == loc && e == EdgeOf(tok) by {
        if l + [e] == child { assert l == (l + [e])[..|l|] && loc == child[..|loc|]; assert (l + [e])[|l|] == child[|loc|]; }
      }
      assert child + [e] in shape <==> child in shape && HasEdge(shape[child], e);
    }
  }

  // ---------- Shapes and tree values ----------

  ghost function TopOf(t: Trie): Top {
    Top(t.users, t.groups, t.rule, t.key, t.nameNext.Keys, t.keyNext.Keys)
  }

  ghost function ChildAt(t: Trie, e: Edge): Option<Trie> {
    match e
    case ByName(n) => if n in t.nameNext then Some(t.nameNext[n]) else None
    case ByValue(v) => if v in t.keyNext then Some(t.keyNext[v]) else None
  }

  ghost function AtLoc(t: Trie, loc: seq<Edge>): Option<Trie>
    decreases |loc|
  {
    if loc == [] then Some(t)
    else match ChildAt(t, loc[0])
      case Some(c) => AtLoc(c, loc[1..])
      case None => None
  }

  /** From `loc` on, the shape is that of `n`. */
  ghost predicate Under(shape: Shape, loc: seq<Edge>, n: Trie) {
    forall l {:trigger AtLoc(n, l)} {:trigger loc + l in shape} ::
      && (loc + l in shape <==> AtLoc(n, l).Some?)
      && (loc + l in shape ==> shape[loc + l] == TopOf(AtLoc(n, l).value))
  }

  lemma UnderHere(shape: Shape, loc: seq<Edge>, n: Trie)
    requires Under(shape, loc, n)
    ensures loc in shape && shape[loc] == TopOf(n)
  {
    assert loc + [] == loc;
    assert AtLoc(n, []) == Some(n);
  }

  lemma AtLocBelow(n: Trie, e: Edge, l: seq<Edge>)
    ensures AtLoc(n, [e] + l) == if ChildAt(n, e).Some? then AtLoc(ChildAt(n, e).value, l) else None
  {
    assert ([e] + l)[1..] == l;
  }

  lemma {:induction false} AtLocAppend(t: Trie, loc: seq<Edge>, e: Edge)
    ensures AtLoc(t, loc + [e]) == if AtLoc(t, loc).Some? then ChildAt(AtLoc(t, loc).value, e) else None
    decreases |loc|
  {
    if loc == [] {
      assert loc + [e] == [e] + [];
      AtLocBelow(t, e, []);
    } else {
      assert (loc + [e])[1..] == loc[1..] + [e];
      if ChildAt(t, loc[0]).Some? { AtLocAppend(ChildAt(t, loc[0]).value, loc[1..], e); }
    }
  }

  /** The shape of a whole tree is closed. */
  lemma UnderClosed(shape: Shape, t: Trie)
    requires Under(shape, [], t)
    ensures Closed(shape)
  {
    forall l, e ensures l + [e] in shape <==> l in shape && HasEdge(shape[l], e) {
      assert [] + l == l && [] + (l + [e]) == l + [e];
      AtLocAppend(t, l, e);
    }
  }

  ghost function DescendBy(t: Trie, e: Edge): Trie {
    match ChildAt(t, e) case Some(c) => c case None => EMPTY
  }

  /** One step of an insertion, seen by edges. */
  lemma InsertChildAt(n: Trie, toks: seq<Token>, r: Rule)
    requires toks != []
    ensures Insert(n, toks, r).Some? <==>
              !KeyClash(TopOf(n), toks[0]) && Insert(DescendBy(n, EdgeOf(toks[0])), toks[1..], r).Some?
    ensures Insert(n, toks, r).Some? ==>
              var n' := Insert(n, toks, r).value;
              && TopOf(n') == AddEdge(TopOf(n), toks[0])
              && ChildAt(n', EdgeOf(toks[0])) == Insert(DescendBy(n, EdgeOf(toks[0])), toks[1..], r)
              && forall e :: e != EdgeOf(toks[0]) ==> ChildAt(n', e) == ChildAt(n, e)
  {
    var c := Insert(DescendBy(n, EdgeOf(toks[0])), toks[1..], r);
    match toks[0]
    case Name(m) =>
      assert DescendBy(n, ByName(m)) == Child(n.nameNext, m);
      if c.Some? { PutName(n, m, c.value); }
    case Key(k, v) =>
      assert DescendBy(n, ByValue(v)) == Child(n.keyNext, v);
      if c.Some? { PutKey(n, k, v, c.value); }
  }

  lemma PutName(n: Trie, m: string, c: Trie)
    ensures var n' := n.(nameNext := n.nameNext[m := c]);
            && TopOf(n') == AddEdge(TopOf(n), Name(m))
            && ChildAt(n', ByName(m)) == Some(c)
            && forall e :: e != ByName(m) ==> ChildAt(n', e) == ChildAt(n, e)
  {
  }

  lemma PutKey(n: Trie, k: string, v: string, c: Trie)
    ensures var n' := n.(key := k, keyNext := n.keyNext[v := c]);
            && TopOf(n') == AddEdge(TopOf(n), Key(k, v))
            && ChildAt(n', ByValue(v)) == Some(c)
            && forall e :: e != ByValue(v) ==> ChildAt(n', e) == ChildAt(n, e)
  {
  }

  lemma StepUnder(shape: Shape, loc: seq<Edge>, n: Trie, tok: Token)
    requires Under(shape, loc, n) && loc in shape && Closed(shape)
    ensures Under(Step(shape, loc, tok), loc + [EdgeOf(tok)], DescendBy(n, EdgeOf(tok)))
  {
    UnderHere(shape, loc, n);
    var e := EdgeOf(tok);
    var c := DescendBy(n, e);
    var shape' := Step(shape, loc, tok);
    forall l
      ensures loc + [e] + l in shape' <==> AtLoc(c, l).Some?
      ensures loc + [e] + l in shape' ==> shape'[loc + [e] + l] == TopOf(AtLoc(c, l).value)
    {
      assert loc + [e] + l == loc + ([e] + l);
      AtLocBelow(n, e, l);
      assert loc + ([e] + l) in shape <==> AtLoc(n, [e] + l).Some?;
      if l == [] { assert loc + [e] + l == loc + [e]; assert AtLoc(c, l) == Some(c); }
    }
  }

  /** `l` does not lie below `loc`. */
  ghost predicate Apart(l: seq<Edge>, loc: seq<Edge>) { !(loc <= l) }

  lemma ApartBelow(l: seq<Edge>, loc: seq<Edge>, e: Edge)
    ensures loc + [e] <= l ==> loc <= l
  {
    if loc + [e] <= l { assert loc == (loc + [e])[..|loc|]; }
  }

  ghost predicate SameApart(s: Shape, s': Shape, loc: seq<Edge>) {
    forall l {:trigger l in s'} :: Apart(l, loc) ==> (l in s' <==> l in s) && (l in s ==> s'[l] == s[l])
  }

  lemma LeafUnder(shape: Shape, loc: seq<Edge>, n: Trie, r: Rule)
    requires Under(shape, loc, n) && loc in shape && InsertLeaf(n, r).Some?
    ensures Under(shape[loc := RecordRule(shape[loc], r)], loc, InsertLeaf(n, r).value)
  {
    UnderHere(shape, loc, n);
    var n' := InsertLeaf(n, r).value;
    var shape' := shape[loc := RecordRule(shape[loc], r)];
    forall l
      ensures loc + l in shape' <==> AtLoc(n', l).Some?
      ensures loc + l in shape' ==> shape'[loc + l] == TopOf(AtLoc(n', l).value)
    {
      assert loc + l in shape <==> AtLoc(n, l).Some?;
      if l == [] { assert loc + l == loc; }
      else { assert loc + l != loc; assert ChildAt(n', l[0]) == ChildAt(n, l[0]); }
    }
  }

  /** Inserting into the shape of a tree gives the shape of the tree with the rule inserted. */
  lemma {:induction false} InsertShapeUnder(shape: Shape, loc: seq<Edge>, n: Trie, toks: seq<Token>, r: Rule)
    requires Under(shape, loc, n) && loc in shape && Closed(shape)
    ensures InsertShape(shape, loc, toks, r).Some? <==> Insert(n, toks, r).Some?
    ensures Insert(n, toks, r).Some? ==> Under(InsertShape(shape, loc, toks, r).value, loc, Insert(n, toks, r).value)
    ensures Insert(n, toks, r).Some? ==> SameApart(shape, InsertShape(shape, loc, toks, r).value, loc)
    decreases |toks|
  {
    UnderHere(shape, loc, n);
    if toks == [] {
      if r.principal != NoPrincipal { LeafUnder(shape, loc, n, r); }
    } else {
      InsertChildAt(n, toks, r);
      if !KeyClash(shape[loc], toks[0]) {
        var e := EdgeOf(toks[0]);
        var shape1 := Step(shape, loc, toks[0]);
        StepClosed(shape, loc, toks[0]);
        StepUnder(shape, loc, n, toks[0]);
        InsertShapeUnder(shape1, loc + [e], DescendBy(n, e), toks[1..], r);
        if Insert(n, toks, r).Some? {
          AssembleUnder(shape, InsertShape(shape, loc, toks, r).value, loc, n, Insert(n, toks, r).value, toks[0]);
        }
      }
    }
  }

  lemma AssembleUnder(shape: Shape, shape': Shape, loc: seq<Edge>, n: Trie, n': Trie, tok: Token)
    requires Under(shape, loc, n) && loc in shape && shape[loc] == TopOf(n)
    requires TopOf(n') == AddEdge(TopOf(n), tok)
    requires ChildAt(n', EdgeOf(tok)).Some? && Under(shape', loc + [EdgeOf(tok)], ChildAt(n', EdgeOf(tok)).value)
    requires forall e :: e != EdgeOf(tok) ==> ChildAt(n', e) == ChildAt(n, e)
    requires SameApart(Step(shape, loc, tok), shape', loc + [EdgeOf(tok)])
    ensures Under(shape', loc, n') && SameApart(shape, shape', loc)
  {
    var e := EdgeOf(tok);
    var child := loc + [e];
    var shape1 := Step(shape, loc, tok);
    forall l
      ensures loc + l in shape' <==> AtLoc(n', l).Some?
      ensures loc + l in shape' ==> shape'[loc + l] == TopOf(AtLoc(n', l).value)
    {
      assert loc + l in shape <==> AtLoc(n, l).Some?;
      if l == [] {
        assert loc + l == loc && Apart(loc, child);
        assert loc in shape1;
      } else {
        assert l == [l[0]] + l[1..];
        AtLocBelow(n', l[0], l[1..]);
        AtLocBelow(n, l[0], l[1..]);
        if l[0] == e {
          assert child + l[1..] == loc + l;
          assert child + l[1..] in shape' <==> AtLoc(ChildAt(n', e).value, l[1..]).Some?;
        } else {
          assert (loc + l)[|loc|] == l[0] && child[|loc|] == e;
          assert Apart(loc + l, child);
          assert loc + l != child && loc + l != loc;
        }
      }
    }
    forall l | Apart(l, loc) ensures (l in shape' <==> l in shape) && (l in shape ==> shape'[l] == shape[l]) {
      ApartBelow(l, loc, e);
      assert l != loc && l != child;
    }
  }

  /** Nodes that carry permissions carry a text. */
  ghost predicate Worded(shape: Shape) {
    forall l :: l in shape && (shape[l].users != map[] || shape[l].groups != map[]) ==> shape[l].rule != ""
  }

  lemma {:induction false} InsertWorded(shape: Shape, loc: seq<Edge>, toks: seq<Token>, r: Rule)
    requires loc in shape && Worded(shape) && InsertShape(shape, loc, toks, r).Some?
    ensures Worded(InsertShape(shape, loc, toks, r).value)
    decreases |toks|
  {
    if toks != [] {
      InsertWorded(Step(shape, loc, toks[0]), loc + [EdgeOf(toks[0])], toks[1..], r);
    }
  }
}
