/** The policy tree as linked nodes: inserting rules in place and walking requests. */
module PathzAuthorizer {
  import opened Options
  import opened SortedStrings
  import opened PathzPolicy
  import opened PathzTrie
  import opened PathzShape

  // ---------- Text of a path ----------

  method PrintElem(e: PathElem) returns (s: string)
    ensures s == "/" + e.name + PrintKeys(e.keys, Ascending(e.keys.Keys))
  {
    var keys := SortKeys(e.keys);
    var ks := "";
    var rest := keys;
    while rest != []
      invariant ks + PrintKeys(e.keys, rest) == PrintKeys(e.keys, keys)
      decreases |rest|
    {
      ks := ks + ("[" + rest[0] + "=" + Value(e.keys, rest[0]) + "]");
      rest := rest[1..];
    }
    s := "/" + e.name + ks;
  }

  /** The text of a path, keys in ascending order. */
  method Print(path: Path) returns (s: string)
    ensures s == PrintPath(path)
  {
    s := "";
    var i := 0;
    while i < |path|
      invariant 0 <= i <= |path|
      invariant s + PrintElems(path[i..]) == PrintElems(path)
    {
      assert path[i..][1..] == path[i + 1..];
      var t := PrintElem(path[i]);
      s := s + t;
      i := i + 1;
    }
    if s == "" { s := "/"; }
  }

  method NextKey(path: Path, nameIdx: nat, keys: seq<string>, keyIdx: nat)
    returns (tok: Token, nextName: nat, nextKeys: seq<string>, nextKey: nat)
    requires ValidCursor(path, nameIdx, keys, keyIdx) && keys != []
    ensures ValidCursor(path, nextName, nextKeys, nextKey)
    ensures Remaining(path, nameIdx, keys, keyIdx) == [tok] + Remaining(path, nextName, nextKeys, nextKey)
    ensures tok.Key?
  {
    StepKey(path, nameIdx, keys, keyIdx);
    tok := Key(keys[keyIdx], Value(path[nameIdx].keys, keys[keyIdx]));
    if keyIdx + 1 == |keys| {
      nextName, nextKeys, nextKey := nameIdx + 1, [], 0;
    } else {
      nextName, nextKeys, nextKey := nameIdx, keys, keyIdx + 1;
    }
  }

  method NextName(path: Path, nameIdx: nat)
    returns (tok: Token, nextName: nat, nextKeys: seq<string>, nextKey: nat)
    requires nameIdx < |path|
    ensures ValidCursor(path, nextName, nextKeys, nextKey)
    ensures Remaining(path, nameIdx, [], 0) == [tok] + Remaining(path, nextName, nextKeys, nextKey)
    ensures tok.Name?
  {
    StepName(path, nameIdx);
    tok := Name(path[nameIdx].name);
    nextKeys := SortKeys(path[nameIdx].keys);
    nextName, nextKey := if |path[nameIdx].keys| > 0 then nameIdx else nameIdx + 1, 0;
  }

  /** The token at the cursor and the cursor after it. */
  method Next(path: Path, nameIdx: nat, keys: seq<string>, keyIdx: nat)
    returns (tok: Token, nextName: nat, nextKeys: seq<string>, nextKey: nat)
    requires ValidCursor(path, nameIdx, keys, keyIdx) && nameIdx < |path|
    ensures ValidCursor(path, nextName, nextKeys, nextKey)
    ensures Remaining(path, nameIdx, keys, keyIdx) == [tok] + Remaining(path, nextName, nextKeys, nextKey)
    ensures tok.Key? <==> keys != []
  {
    if |keys| > 0 {
      tok, nextName, nextKeys, nextKey := NextKey(path, nameIdx, keys, keyIdx);
    } else {
      tok, nextName, nextKeys, nextKey := NextName(path, nameIdx);
    }
  }

  // ---------- Results ----------

  datatype Result = Result(action: Action, ruleId: string, matchedRule: string)

  const NO_RESULT := Result(Unspecified, "", "")

  /** Folds a permission into a result: a deny stays, an unspecified action adds nothing. */
  function UpdateResult(r: Result, p: Permission, mode: Mode, rule: string): Result {
    if r.action == Deny then r
    else
      var access := Slot(p, mode);
      if access.action != Unspecified then Result(access.action, access.ruleId, rule) else r
  }

  /** `r` reports the decision of the node `w` a walk ended in. */
  ghost predicate Reports(r: Result, w: Option<Trie>, user: string, mode: Mode, members: Membership) {
    match w
    case None => r == NO_RESULT
    case Some(n) =>
      && r.action == Own(n, user, mode, members) && r.action != Unspecified
      && r.matchedRule == n.rule && n.rule != ""
      && OwnId(n, user, mode, members, r.ruleId)
  }

  /** Some group in `done` to which the user belongs has this entry. */
  ghost predicate SomeEntry(groups: map<string, Permission>, done: set<string>, user: string, mode: Mode, members: Membership, a: Action) {
    exists g :: g in done && g in groups && Member(members, g, user) && Slot(groups[g], mode).action == a
  }

  // ---------- Nodes ----------

  ghost function WalkValue(n: Trie, x: string, rest: seq<Token>, user: string, mode: Mode, members: Membership): Option<Trie> {
    if x in n.keyNext then Walk(n.keyNext[x], rest, user, mode, members) else None
  }

  lemma WalkByValue(n: Trie, k: string, v: string, rest: seq<Token>, user: string, mode: Mode, members: Membership)
    ensures Walk(n, [Key(k, v)] + rest, user, mode, members) ==
            if k == n.key && WalkValue(n, v, rest, user, mode, members).Some?
            then WalkValue(n, v, rest, user, mode, members)
            else if k == n.key && WalkValue(n, WILDCARD, rest, user, mode, members).Some?
            then WalkValue(n, WILDCARD, rest, user, mode, members)
            else if Own(n, user, mode, members) != Unspecified then Some(n) else None
  {
    assert ([Key(k, v)] + rest)[1..] == rest;
  }

  class Node {
    var users: map<string, Permission>
    var groups: map<string, Permission>
    var rule: string
    var nameNext: map<string, Node>
    var key: string
    var keyNext: map<string, Node>

    /** Where the node hangs in its tree. */
    ghost const loc: seq<Edge>

    constructor (ghost loc: seq<Edge>)
      ensures this.loc == loc && View() == EMPTY_TOP
    {
      users, groups, rule, nameNext, key, keyNext := map[], map[], "", map[], "", map[];
      this.loc := loc;
    }

    ghost function View(): Top
      reads this
    {
      Top(users, groups, rule, key, nameNext.Keys, keyNext.Keys)
    }

    ghost predicate LinkedIn(nodes: set<Node>)
      reads this
    {
      && (forall n :: n in nameNext ==> nameNext[n] in nodes && nameNext[n].loc == loc + [ByName(n)])
      && (forall v :: v in keyNext ==> keyNext[v] in nodes && keyNext[v].loc == loc + [ByValue(v)])
    }

    /** Records the rule at this node. */
    method InsertHere(r: Rule) returns (ok: bool)
      modifies this`rule, this`users, this`groups
      ensures ok <==> r.principal != NoPrincipal
      ensures View() == RecordRule(old(View()), r)
    {
      rule := Print(r.path);
      match r.principal {
        case User(u) =>
          users := users[u := Update(PermissionFor(users, u), r)];
          ok := true;
        case Group(g) =>
          groups := groups[g := Update(PermissionFor(groups, g), r)];
          ok := true;
        case NoPrincipal =>
          ok := false;
      }
    }

    /** The child for `name`, made if it is missing. */
    method NameChild(name: string, ghost nodes: set<Node>) returns (c: Node, ghost more: set<Node>)
      requires this in nodes && Linked(nodes)
      requires name !in nameNext ==> forall x :: x in nodes ==> x.loc != loc + [ByName(name)]
      modifies this`nameNext
      ensures more == nodes + {c} && Linked(more) && c.loc == loc + [ByName(name)]
      ensures View() == AddEdge(old(View()), Name(name))
      ensures if name in old(nameNext) then c in nodes else fresh(c) && c.View() == EMPTY_TOP
    {
      if name !in nameNext {
        var made := new Node(loc + [ByName(name)]);
        nameNext := nameNext[name := made];
      }
      c := nameNext[name];
      more := nodes + {c};
      assert old(LinkedIn(nodes));
      forall x | x in more ensures x.LinkedIn(more) {
        if x in nodes { assert old(x.LinkedIn(nodes)); } else { assert c.View() == EMPTY_TOP; }
      }
    }

    /** The child for key value `v`, made if it is missing. */
    method ValueChild(v: string, ghost nodes: set<Node>) returns (c: Node, ghost more: set<Node>)
      requires this in nodes && Linked(nodes)
      requires v !in keyNext ==> forall x :: x in nodes ==> x.loc != loc + [ByValue(v)]
      modifies this`keyNext
      ensures more == nodes + {c} && Linked(more) && c.loc == loc + [ByValue(v)]
      ensures View() == old(View()).(values := old(View()).values + {v})
      ensures if v in old(keyNext) then c in nodes else fresh(c) && c.View() == EMPTY_TOP
    {
      if v !in keyNext {
        var made := new Node(loc + [ByValue(v)]);
        keyNext := keyNext[v := made];
      }
      c := keyNext[v];
      more := nodes + {c};
      assert old(LinkedIn(nodes));
      forall x | x in more ensures x.LinkedIn(more) {
        if x in nodes { assert old(x.LinkedIn(nodes)); } else { assert c.View() == EMPTY_TOP; }
      }
    }

    /** One step along a token of the rule's path. */
    method Advance(tok: Token, ghost nodes: set<Node>, ghost shape: Shape) returns (c: Node, ghost more: set<Node>)
      requires this in nodes && Linked(nodes) && Shaped(nodes, shape) && Closed(shape)
      requires loc in shape && shape[loc] == View()
      modifies this
      ensures more == nodes + {c} && (c in nodes || fresh(c)) && Linked(more)
      ensures c.loc == loc + [EdgeOf(tok)]
      ensures Shaped(more, Step(shape, loc, tok)) && c.View() == Step(shape, loc, tok)[c.loc]
    {
      ghost var child := loc + [EdgeOf(tok)];
      assert child in shape <==> HasEdge(shape[loc], EdgeOf(tok));
      forall x | x in nodes ensures x.loc in shape { assert x.View() == shape[x.loc]; }
      match tok {
        case Name(n) => c, more := NameChild(n, nodes);
        case Key(k, v) =>
          key := k;
          forall x | x in nodes ensures x.LinkedIn(nodes) { assert old(x.LinkedIn(nodes)); }
          c, more := ValueChild(v, nodes);
      }
      forall x | x in more ensures x.loc in Step(shape, loc, tok) && Step(shape, loc, tok)[x.loc] == x.View() {
        if x in nodes { assert old(x.View()) == shape[x.loc]; }
        if x != c && x != this { assert x.loc != loc && x.loc != child; }
      }
    }

    /** Folds the permissions of the user's groups, in any order, into an undecided result. */
    method GroupResult(user: string, mode: Mode, members: Membership) returns (ret: Result)
      requires users != map[] || groups != map[] ==> rule != ""
      ensures ret.action == (if SomeEntry(groups, groups.Keys, user, mode, members, Deny) then Deny
                             else if SomeEntry(groups, groups.Keys, user, mode, members, Permit) then Permit
                             else Unspecified)
      ensures ret.action == Unspecified ==> ret == NO_RESULT
      ensures ret.action != Unspecified ==>
                && ret.matchedRule == rule
                && exists g :: g in groups && Member(members, g, user) && Slot(groups[g], mode) == RuleAction(ret.ruleId, ret.action)
    {
      ret := NO_RESULT;
      var todo := groups.Keys;
      ghost var done: set<string> := {};
      while todo != {}
        invariant done + todo == groups.Keys
        invariant ret.action == (if SomeEntry(groups, done, user, mode, members, Deny) then Deny
                                 else if SomeEntry(groups, done, user, mode, members, Permit) then Permit
                                 else Unspecified)
        invariant ret.action == Unspecified ==> ret == NO_RESULT
        invariant ret.action != Unspecified ==>
                    && ret.matchedRule == rule
                    && exists g :: g in groups && Member(members, g, user) && Slot(groups[g], mode) == RuleAction(ret.ruleId, ret.action)
      {
        var g :| g in todo;
        todo := todo - {g};
        SomeEntryGrows(groups, done, g, user, mode, members, Deny);
        SomeEntryGrows(groups, done, g, user, mode, members, Permit);
        done := done + {g};
        if g in members && user in members[g] {
          ret := UpdateResult(ret, groups[g], mode, rule);
          if ret.action == Deny && ret.matchedRule != "" {
            assert SomeEntry(groups, groups.Keys, user, mode, members, Deny);
            return;
          }
        }
      }
      assert done == groups.Keys;
    }

    /** The decision of this node alone. */
    method OwnResult(user: string, mode: Mode, members: Membership, ghost n: Trie) returns (ret: Result)
      requires View() == TopOf(n)
      requires users != map[] || groups != map[] ==> rule != ""
      ensures Reports(ret, if Own(n, user, mode, members) != Unspecified then Some(n) else None, user, mode, members)
    {
      ret := NO_RESULT;
      if user in users {
        ret := UpdateResult(ret, users[user], mode, rule);
      }
      if ret.action == Unspecified || ret.matchedRule == "" {
        ret := GroupResult(user, mode, members);
        assert SomeEntry(groups, groups.Keys, user, mode, members, Deny) <==> SomeGroup(n, user, mode, members, Deny);
        assert SomeEntry(groups, groups.Keys, user, mode, members, Permit) <==> SomeGroup(n, user, mode, members, Permit);
      }
    }

    /** Authorizes the rest of the path, from the cursor on, at this node: exact key value
        first, then the wildcard, then the node itself. */
    method Authorize(user: string, path: Path, mode: Mode, nameIdx: nat, keys: seq<string>, keyIdx: nat, members: Membership,
                     ghost nodes: set<Node>, ghost t: Trie, ghost n: Trie)
      returns (r: Result)
      requires this in nodes && Linked(nodes) && Spells(nodes, t) && Texted(nodes) && AtLoc(t, loc) == Some(n)
      requires ValidCursor(path, nameIdx, keys, keyIdx)
      ensures Reports(r, Walk(n, Remaining(path, nameIdx, keys, keyIdx), user, mode, members), user, mode, members)
      decreases |Remaining(path, nameIdx, keys, keyIdx)|, 0
    {
      assert View() == TopOf(n) && LinkedIn(nodes);
      var ret := OwnResult(user, mode, members, n);
      if nameIdx >= |path| {
        assert path[nameIdx..] == [];
        return ret;
      }
      var tok, nextName, nextKeys, nextKey := Next(path, nameIdx, keys, keyIdx);
      if tok.Key? {
        r := AuthorizeKey(tok.k, tok.v, ret, user, path, mode, nextName, nextKeys, nextKey, members, nodes, t, n);
      } else {
        r := AuthorizeName(tok.n, ret, user, path, mode, nextName, nextKeys, nextKey, members, nodes, t, n);
      }
    }

    method AuthorizeName(name: string, ret: Result, user: string, path: Path, mode: Mode, nameIdx: nat, keys: seq<string>, keyIdx: nat,
                         members: Membership, ghost nodes: set<Node>, ghost t: Trie, ghost n: Trie)
      returns (r: Result)
      requires this in nodes && Linked(nodes) && Spells(nodes, t) && Texted(nodes) && AtLoc(t, loc) == Some(n)
      requires View() == TopOf(n) && LinkedIn(nodes)
      requires ValidCursor(path, nameIdx, keys, keyIdx)
      requires Reports(ret, if Own(n, user, mode, members) != Unspecified then Some(n) else None, user, mode, members)
      ensures Reports(r, Walk(n, [Name(name)] + Remaining(path, nameIdx, keys, keyIdx), user, mode, members), user, mode, members)
      decreases |Remaining(path, nameIdx, keys, keyIdx)|, 1
    {
      ghost var rest := Remaining(path, nameIdx, keys, keyIdx);
      assert ([Name(name)] + rest)[1..] == rest;
      if name in nameNext {
        AtLocAppend(t, loc, ByName(name));
        r := nameNext[name].Authorize(user, path, mode, nameIdx, keys, keyIdx, members, nodes, t, n.nameNext[name]);
        if r.action != Unspecified && r.matchedRule != "" {
          assert Walk(n, [Name(name)] + rest, user, mode, members) == Walk(n.nameNext[name], rest, user, mode, members);
          return;
        }
      }
      r := ret;
      assert Walk(n, [Name(name)] + rest, user, mode, members) == if Own(n, user, mode, members) != Unspecified then Some(n) else None;
    }

    /** The child for one key value, if there is one. */
    method AuthorizeValue(x: string, user: string, path: Path, mode: Mode, nameIdx: nat, keys: seq<string>, keyIdx: nat,
                          members: Membership, ghost nodes: set<Node>, ghost t: Trie, ghost n: Trie)
      returns (r: Result)
      requires this in nodes && Linked(nodes) && Spells(nodes, t) && Texted(nodes) && AtLoc(t, loc) == Some(n)
      requires View() == TopOf(n) && LinkedIn(nodes)
      requires ValidCursor(path, nameIdx, keys, keyIdx)
      ensures Reports(r, WalkValue(n, x, Remaining(path, nameIdx, keys, keyIdx), user, mode, members), user, mode, members)
      decreases |Remaining(path, nameIdx, keys, keyIdx)|, 1
    {
      if x !in keyNext { return NO_RESULT; }
      AtLocAppend(t, loc, ByValue(x));
      r := keyNext[x].Authorize(user, path, mode, nameIdx, keys, keyIdx, members, nodes, t, n.keyNext[x]);
    }

    method AuthorizeKey(k: string, v: string, ret: Result, user: string, path: Path, mode: Mode, nameIdx: nat, keys: seq<string>, keyIdx: nat,
                        members: Membership, ghost nodes: set<Node>, ghost t: Trie, ghost n: Trie)
      returns (r: Result)
      requires this in nodes && Linked(nodes) && Spells(nodes, t) && Texted(nodes) && AtLoc(t, loc) == Some(n)
      requires View() == TopOf(n) && LinkedIn(nodes)
      requires ValidCursor(path, nameIdx, keys, keyIdx)
      requires Reports(ret, if Own(n, user, mode, members) != Unspecified then Some(n) else None, user, mode, members)
      ensures Reports(r, Walk(n, [Key(k, v)] + Remaining(path, nameIdx, keys, keyIdx), user, mode, members), user, mode, members)
      decreases |Remaining(path, nameIdx, keys, keyIdx)|, 2
    {
      WalkByValue(n, k, v, Remaining(path, nameIdx, keys, keyIdx), user, mode, members);
      if k == key {
        r := AuthorizeValue(v, user, path, mode, nameIdx, keys, keyIdx, members, nodes, t, n);
        if r.action != Unspecified && r.matchedRule != "" { return; }
        r := AuthorizeValue(WILDCARD, user, path, mode, nameIdx, keys, keyIdx, members, nodes, t, n);
        if r.action != Unspecified && r.matchedRule != "" { return; }
      }
      r := ret;
    }

    /** Inserts the rest of the rule's path, from the cursor on, below this node. A failed
        insertion may leave nodes behind; the loader then drops the tree. */
    method InsertPath(r: Rule, nameIdx: nat, keys: seq<string>, keyIdx: nat, ghost nodes: set<Node>, ghost shape: Shape)
      returns (ok: bool, ghost more: set<Node>)
      requires this in nodes && Linked(nodes) && Shaped(nodes, shape) && Closed(shape)
      requires loc in shape && shape[loc] == View()
      requires ValidCursor(r.path, nameIdx, keys, keyIdx)
      modifies nodes
      ensures nodes <= more && Linked(more)
      ensures forall x :: x in more ==> x in nodes || fresh(x)
      ensures ok <==> InsertShape(shape, loc, Remaining(r.path, nameIdx, keys, keyIdx), r).Some?
      ensures ok ==> Shaped(more, InsertShape(shape, loc, Remaining(r.path, nameIdx, keys, keyIdx), r).value)
      decreases |Remaining(r.path, nameIdx, keys, keyIdx)|
    {
      if nameIdx >= |r.path| {
        assert r.path[nameIdx..] == [];
        ok := InsertHere(r);
        more := nodes;
        forall x | x in nodes && x != this
          ensures x.loc in shape && shape[x.loc] == x.View() && x.loc != loc && x.LinkedIn(nodes)
        {
          assert old(x.View()) == shape[x.loc] && old(x.LinkedIn(nodes));
        }
        assert old(LinkedIn(nodes));
      } else {
        ok, more := InsertBelow(r, nameIdx, keys, keyIdx, nodes, shape);
      }
    }

    /** Takes the step at the cursor and inserts the rest below the child. */
    method InsertBelow(r: Rule, nameIdx: nat, keys: seq<string>, keyIdx: nat, ghost nodes: set<Node>, ghost shape: Shape)
      returns (ok: bool, ghost more: set<Node>)
      requires this in nodes && Linked(nodes) && Shaped(nodes, shape) && Closed(shape)
      requires loc in shape && shape[loc] == View()
      requires ValidCursor(r.path, nameIdx, keys, keyIdx) && nameIdx < |r.path|
      modifies nodes
      ensures nodes <= more && Linked(more)
      ensures forall x :: x in more ==> x in nodes || fresh(x)
      ensures ok <==> InsertShape(shape, loc, Remaining(r.path, nameIdx, keys, keyIdx), r).Some?
      ensures ok ==> Shaped(more, InsertShape(shape, loc, Remaining(r.path, nameIdx, keys, keyIdx), r).value)
      decreases |Remaining(r.path, nameIdx, keys, keyIdx)|, 0
    {
      ghost var toks := Remaining(r.path, nameIdx, keys, keyIdx);
      var tok, nextName, nextKeys, nextKey := Next(r.path, nameIdx, keys, keyIdx);
      ghost var rest := Remaining(r.path, nextName, nextKeys, nextKey);
      StepClosed(shape, loc, tok);
      assert toks[1..] == rest;
      ghost var result := InsertShape(shape, loc, toks, r);
      assert !KeyClash(shape[loc], tok) ==> result == InsertShape(Step(shape, loc, tok), loc + [EdgeOf(tok)], rest, r);
      if tok.Key? && key != "" && key != tok.k {
        return false, nodes;
      }
      var c, wider := Advance(tok, nodes, shape);
      ok, more := c.InsertPath(r, nextName, nextKeys, nextKey, wider, Step(shape, loc, tok));
    }
  }

  /** Children are in the set and no two nodes share a location. */
  ghost predicate Linked(nodes: set<Node>)
    reads nodes
  {
    && (forall x {:trigger x.LinkedIn(nodes)} :: x in nodes ==> x.LinkedIn(nodes))
    && (forall x, y {:trigger x.loc, y.loc} :: x in nodes && y in nodes && x.loc == y.loc ==> x == y)
  }

  /** Each node stores what `shape` says of its location. */
  ghost predicate Shaped(nodes: set<Node>, shape: Shape)
    reads nodes
  {
    forall x {:trigger x.View()} :: x in nodes ==> x.loc in shape && shape[x.loc] == x.View()
  }

  lemma SomeEntryGrows(groups: map<string, Permission>, done: set<string>, g: string, user: string, mode: Mode, members: Membership, a: Action)
    ensures SomeEntry(groups, done + {g}, user, mode, members, a) <==>
              || SomeEntry(groups, done, user, mode, members, a)
              || (g in groups && Member(members, g, user) && Slot(groups[g], mode).action == a)
  {
    if SomeEntry(groups, done, user, mode, members, a) {
      var h :| h in done && h in groups && Member(members, h, user) && Slot(groups[h], mode).action == a;
      assert h in done + {g};
    }
    if g in groups && Member(members, g, user) && Slot(groups[g], mode).action == a { assert g in done + {g}; }
  }

  /** Every node stores what the tree `t` has at its location. */
  ghost predicate Spells(nodes: set<Node>, t: Trie)
    reads nodes
  {
    forall x {:trigger x.View()} :: x in nodes ==> AtLoc(t, x.loc).Some? && TopOf(AtLoc(t, x.loc).value) == x.View()
  }

  /** A node that carries permissions carries a text. */
  ghost predicate Texted(nodes: set<Node>)
    reads nodes
  {
    forall x {:trigger x.View()} :: x in nodes && (x.users != map[] || x.groups != map[]) ==> x.rule != ""
  }

  lemma ShapeSpells(nodes: set<Node>, shape: Shape, t: Trie)
    requires Shaped(nodes, shape) && Under(shape, [], t) && Worded(shape)
    ensures Spells(nodes, t) && Texted(nodes)
  {
    forall x | x in nodes
      ensures AtLoc(t, x.loc).Some? && TopOf(AtLoc(t, x.loc).value) == x.View()
      ensures x.users != map[] || x.groups != map[] ==> x.rule != ""
    {
      var top := x.View();
      assert shape[x.loc] == top;
      assert [] + x.loc == x.loc;
    }
  }

  lemma EmptyUnder()
    ensures Under(map[[] := EMPTY_TOP], [], EMPTY) && Worded(map[[] := EMPTY_TOP])
  {
    var shape: Shape := map[[] := EMPTY_TOP];
    forall l: seq<Edge>
      ensures [] + l in shape <==> AtLoc(EMPTY, l).Some?
      ensures [] + l in shape ==> shape[[] + l] == TopOf(AtLoc(EMPTY, l).value)
    {
      assert [] + l == l;
    }
  }

  /** Loads a rule list: refused when empty or when an insertion fails, in which case the
      tree is dropped. */
  method LoadPolicies(rules: seq<Rule>) returns (root: Node?, ghost nodes: set<Node>)
    ensures root == null <==> CreatePolicies(rules).None?
    ensures root != null ==>
              && root in nodes && root.loc == [] && Linked(nodes) && Texted(nodes)
              && Spells(nodes, CreatePolicies(rules).value)
    ensures forall x :: x in nodes ==> fresh(x)
  {
    nodes := {};
    if |rules| == 0 {
      return null, nodes;
    }
    var top := new Node([]);
    nodes := {top};
    ghost var shape: Shape := map[[] := EMPTY_TOP];
    ghost var t := EMPTY;
    EmptyUnder();
    assert top.LinkedIn(nodes) by { assert top.View() == EMPTY_TOP; }
    var i := 0;
    while i < |rules|
      invariant 0 <= i <= |rules|
      invariant top in nodes && top.loc == [] && Linked(nodes)
      invariant forall x :: x in nodes ==> fresh(x)
      invariant Shaped(nodes, shape) && Under(shape, [], t) && Worded(shape)
      invariant Build(rules[..i]) == Some(t)
    {
      UnderClosed(shape, t);
      assert top.View() == shape[top.loc];
      ghost var toks := Tokens(rules[i].path);
      assert rules[i].path[0..] == rules[i].path;
      assert rules[..i + 1][..i] == rules[..i];
      InsertShapeUnder(shape, [], t, toks, rules[i]);
      var ok, more := top.InsertPath(rules[i], 0, [], 0, nodes, shape);
      nodes := more;
      if !ok {
        BuildFails(rules, i + 1);
        return null, nodes;
      }
      InsertWorded(shape, [], toks, rules[i]);
      shape := InsertShape(shape, [], toks, rules[i]).value;
      t := Insert(t, toks, rules[i]).value;
      i := i + 1;
    }
    assert rules[..i] == rules;
    ShapeSpells(nodes, shape, t);
    root := top;
  }

  lemma {:induction false} BuildFails(rules: seq<Rule>, i: nat)
    requires i <= |rules| && Build(rules[..i]).None?
    ensures Build(rules).None?
    decreases |rules| - i
  {
    if i == |rules| {
      assert rules[..i] == rules;
    } else {
      assert rules[..i + 1][..i] == rules[..i];
      BuildFails(rules, i + 1);
    }
  }
}
