/** Which rule lists the loader accepts, and which of those it reads as they are meant. An empty
    key name is the loader's mark for "no key yet", so it does not clash with a later name. */
module PathzAcceptance {
  import opened Options
  import opened PathzPolicy
  import opened PathzTrie
  import opened PathzRules
  import opened PathzDecisions
  import opened PathzShape
  import opened SortedStrings

  // ---------- Acceptance ----------

  ghost function Edges(toks: seq<Token>): seq<Edge> { seq(|toks|, i requires 0 <= i < |toks| => EdgeOf(toks[i])) }

  /** The rule gives key `k` to the node at this location. */
  ghost predicate Gives(toks: seq<Token>, loc: seq<Edge>, k: string) {
    |loc| < |toks| && Edges(toks[..|loc|]) == loc && toks[|loc|].Key? && toks[|loc|].k == k
  }

  /** The two rules give a node different keys, the first of them not empty. */
  ghost predicate Clash(r: Rule, s: Rule) {
    exists loc, k, l :: Gives(Tokens(r.path), loc, k) && Gives(Tokens(s.path), loc, l) && k != "" && k != l
  }

  /** No rule clashes with an earlier one. */
  ghost predicate NoClash(rules: seq<Rule>) { forall i, j :: 0 <= i < j < |rules| ==> !Clash(rules[i], rules[j]) }

  predicate AllPrincipals(rules: seq<Rule>) { forall r :: r in rules ==> r.principal != NoPrincipal }

  ghost function KeyName(t: Trie, loc: seq<Edge>): string {
    match AtLoc(t, loc) case Some(n) => n.key case None => ""
  }

  lemma KeyNameBelow(t: Trie, e: Edge, l: seq<Edge>)
    ensures KeyName(t, [e] + l) == KeyName(DescendBy(t, e), l)
  {
    AtLocBelow(t, e, l);
    if ChildAt(t, e).None? && l != [] { assert AtLoc(EMPTY, l) == None; }
  }

  lemma GivesBelow(toks: seq<Token>, loc: seq<Edge>, k: string)
    requires toks != [] && loc != []
    ensures Gives(toks, loc, k) <==> loc[0] == EdgeOf(toks[0]) && Gives(toks[1..], loc[1..], k)
  {
    if |loc| < |toks| {
      var here, below := Edges(toks[..|loc|]), Edges(toks[1..][..|loc| - 1]);
      assert toks[..|loc|] == [toks[0]] + toks[1..][..|loc| - 1];
      assert here == [EdgeOf(toks[0])] + below;
      assert loc == [loc[0]] + loc[1..];
    }
  }

  ghost predicate Clashes(t: Trie, toks: seq<Token>, loc: seq<Edge>, k: string) {
    Gives(toks, loc, k) && KeyName(t, loc) != "" && KeyName(t, loc) != k
  }

  /** An insertion fails exactly for want of a principal or for a clash of key names. */
  lemma {:induction false} InsertIff(t: Trie, toks: seq<Token>, r: Rule)
    ensures Insert(t, toks, r).Some? <==>
            r.principal != NoPrincipal && forall loc, k :: !Clashes(t, toks, loc, k)
    decreases |toks|
  {
    if toks != [] {
      var e := EdgeOf(toks[0]);
      var c := DescendBy(t, e);
      InsertChildAt(t, toks, r);
      InsertIff(c, toks[1..], r);
      assert toks[..0] == [] && AtLoc(t, []) == Some(t);
      if KeyClash(TopOf(t), toks[0]) {
        assert Edges(toks[..0]) == [];
        assert Clashes(t, toks, [], toks[0].k);
      }
      forall l, k | Clashes(c, toks[1..], l, k) ensures Clashes(t, toks, [e] + l, k) {
        assert ([e] + l)[1..] == l;
        GivesBelow(toks, [e] + l, k);
        KeyNameBelow(t, e, l);
      }
      forall loc, k | Clashes(t, toks, loc, k)
        ensures KeyClash(TopOf(t), toks[0]) || (loc != [] && Clashes(c, toks[1..], loc[1..], k))
      {
        if loc != [] {
          GivesBelow(toks, loc, k);
          assert loc == [e] + loc[1..];
          KeyNameBelow(t, e, loc[1..]);
        }
      }
    }
  }

  lemma KeyNameHere(t: Trie)
    ensures KeyName(t, []) == TopOf(t).key
  {
    assert AtLoc(t, []) == Some(t);
  }

  lemma InsertKeyHere(t: Trie, toks: seq<Token>, r: Rule)
    requires Insert(t, toks, r).Some? && toks != []
    ensures KeyName(Insert(t, toks, r).value, []) == if toks[0].Key? then toks[0].k else KeyName(t, [])
  {
    InsertChildAt(t, toks, r);
    KeyNameHere(t);
    KeyNameHere(Insert(t, toks, r).value);
  }

  lemma InsertLeafKeys(t: Trie, r: Rule, loc: seq<Edge>)
    requires InsertLeaf(t, r).Some?
    ensures KeyName(InsertLeaf(t, r).value, loc) == KeyName(t, loc)
  {
    if loc != [] { assert ChildAt(InsertLeaf(t, r).value, loc[0]) == ChildAt(t, loc[0]); }
  }

  /** An insertion sets the key names that the rule gives, and no others. */
  lemma {:induction false} InsertKeyName(t: Trie, toks: seq<Token>, r: Rule, loc: seq<Edge>)
    requires Insert(t, toks, r).Some?
    ensures forall k :: Gives(toks, loc, k) ==> KeyName(Insert(t, toks, r).value, loc) == k
    ensures (forall k :: !Gives(toks, loc, k)) ==> KeyName(Insert(t, toks, r).value, loc) == KeyName(t, loc)
    decreases |toks|
  {
    if toks == [] {
      InsertLeafKeys(t, r, loc);
    } else if loc == [] {
      InsertKeyHere(t, toks, r);
      assert toks[..0] == [] && Edges(toks[..0]) == [];
      if toks[0].Key? { assert Gives(toks, [], toks[0].k); }
    } else {
      var t', e := Insert(t, toks, r).value, EdgeOf(toks[0]);
      InsertChildAt(t, toks, r);
      assert loc == [loc[0]] + loc[1..];
      KeyNameBelow(t', loc[0], loc[1..]);
      KeyNameBelow(t, loc[0], loc[1..]);
      forall k ensures Gives(toks, loc, k) <==> loc[0] == e && Gives(toks[1..], loc[1..], k) { GivesBelow(toks, loc, k); }
      if loc[0] == e { InsertKeyName(DescendBy(t, e), toks[1..], r, loc[1..]); }
    }
  }

  /** The key name of a node is one that a rule gives it, and every other name given is empty. */
  lemma {:induction false} BuildKeyName(rules: seq<Rule>, loc: seq<Edge>)
    requires Build(rules).Some?
    ensures var name := KeyName(Build(rules).value, loc);
            && (name != "" ==> exists r :: r in rules && Gives(Tokens(r.path), loc, name))
            && (forall r, k :: r in rules && Gives(Tokens(r.path), loc, k) ==> k == "" || k == name)
  {
    if rules == [] {
      if loc != [] { assert AtLoc(EMPTY, loc) == None; }
    } else {
      var init, last := rules[..|rules| - 1], rules[|rules| - 1];
      assert rules == init + [last];
      BuildKeyName(init, loc);
      var t, toks := Build(init).value, Tokens(last.path);
      InsertKeyName(t, toks, last, loc);
      InsertIff(t, toks, last);
      var name := KeyName(Build(rules).value, loc);
      if k :| Gives(toks, loc, k) {
        assert !Clashes(t, toks, loc, k);
        assert name == k && last in rules;
      } else if name != "" {
        var r :| r in init && Gives(Tokens(r.path), loc, name);
        assert r in rules;
      }
    }
  }

  lemma NoClashLast(init: seq<Rule>, last: Rule)
    ensures NoClash(init + [last]) <==> NoClash(init) && forall r :: r in init ==> !Clash(r, last)
  {
    var rules := init + [last];
    if NoClash(rules) {
      forall i, j | 0 <= i < j < |init| ensures !Clash(init[i], init[j]) { assert !Clash(rules[i], rules[j]); }
      forall r | r in init ensures !Clash(r, last) {
        var i :| 0 <= i < |init| && init[i] == r;
        assert !Clash(rules[i], rules[|init|]);
      }
    }
    if NoClash(init) && forall r :: r in init ==> !Clash(r, last) {
      forall i, j | 0 <= i < j < |rules| ensures !Clash(rules[i], rules[j]) {
        assert rules[i] == init[i] && init[i] in init;
      }
    }
  }

  ghost predicate ClashesSomewhere(t: Trie, toks: seq<Token>) { exists loc, k :: Clashes(t, toks, loc, k) }

  ghost predicate ClashesWithSome(init: seq<Rule>, last: Rule) { exists r :: r in init && Clash(r, last) }

  lemma TreeClash(init: seq<Rule>, last: Rule, loc: seq<Edge>, k: string)
    requires Build(init).Some? && Clashes(Build(init).value, Tokens(last.path), loc, k)
    ensures ClashesWithSome(init, last)
  {
    BuildKeyName(init, loc);
    var name := KeyName(Build(init).value, loc);
    var r :| r in init && Gives(Tokens(r.path), loc, name);
    assert Clash(r, last);
  }

  lemma RuleClash(init: seq<Rule>, last: Rule, r: Rule)
    requires Build(init).Some? && r in init && Clash(r, last)
    ensures ClashesSomewhere(Build(init).value, Tokens(last.path))
  {
    var loc, k, l :| Gives(Tokens(r.path), loc, k) && Gives(Tokens(last.path), loc, l) && k != "" && k != l;
    BuildKeyName(init, loc);
    assert Clashes(Build(init).value, Tokens(last.path), loc, l);
  }

  /** A rule clashes with the tree exactly when it clashes with a rule of the list. */
  lemma ClashesIff(init: seq<Rule>, last: Rule)
    requires Build(init).Some?
    ensures ClashesSomewhere(Build(init).value, Tokens(last.path)) <==> ClashesWithSome(init, last)
  {
    if ClashesSomewhere(Build(init).value, Tokens(last.path)) {
      var loc, k :| Clashes(Build(init).value, Tokens(last.path), loc, k);
      TreeClash(init, last, loc, k);
    }
    if ClashesWithSome(init, last) {
      var r :| r in init && Clash(r, last);
      RuleClash(init, last, r);
    }
  }

  lemma {:induction false} BuildIff(rules: seq<Rule>)
    ensures Build(rules).Some? <==> AllPrincipals(rules) && NoClash(rules)
  {
    if rules != [] {
      var init, last := rules[..|rules| - 1], rules[|rules| - 1];
      assert rules == init + [last];
      BuildIff(init);
      NoClashLast(init, last);
      assert AllPrincipals(rules) <==> AllPrincipals(init) && last.principal != NoPrincipal;
      if Build(init).Some? {
        ClashesIff(init, last);
        InsertIff(Build(init).value, Tokens(last.path), last);
      }
    }
  }

  /** The loader accepts exactly the non-empty lists in which every rule has a principal and no
      key name clashes with an earlier one. */
  lemma AcceptedIff(rules: seq<Rule>)
    ensures CreatePolicies(rules).Some? <==> rules != [] && AllPrincipals(rules) && NoClash(rules)
  {
    BuildIff(rules);
  }

  // ---------- Consistency ----------

  lemma GivesItsKey(r: Rule, pat: seq<Token>, k: string)
    requires KeysAt(r, pat, k)
    ensures Gives(Tokens(r.path), Edges(pat), k)
  {
  }

  /** In a consistent list, rules that pass the same location pass the same tokens. */
  lemma {:induction false} SameTokens(rules: seq<Rule>, r: Rule, s: Rule, n: nat)
    requires Consistent(rules) && r in rules && s in rules
    requires n <= |Tokens(r.path)| && n <= |Tokens(s.path)| && Edges(Tokens(r.path)[..n]) == Edges(Tokens(s.path)[..n])
    ensures Tokens(r.path)[..n] == Tokens(s.path)[..n]
  {
    if n > 0 {
      var a, b := Tokens(r.path), Tokens(s.path);
      var m := n - 1;
      assert Edges(a[..n])[..m] == Edges(a[..m]) && Edges(b[..n])[..m] == Edges(b[..m]);
      assert Edges(a[..n])[m] == EdgeOf(a[m]) && Edges(b[..n])[m] == EdgeOf(b[m]);
      SameTokens(rules, r, s, m);
      if a[m].Key? { assert KeysAt(r, a[..m], a[m].k) && KeysAt(s, a[..m], b[m].k); }
      assert a[..n] == a[..m] + [a[m]] && b[..n] == b[..m] + [b[m]];
    }
  }

  lemma ConsistentNoClash(rules: seq<Rule>)
    requires Consistent(rules)
    ensures NoClash(rules)
  {
    forall i, j | 0 <= i < j < |rules| ensures !Clash(rules[i], rules[j]) {
      var r, s := rules[i], rules[j];
      forall loc, k, l | Gives(Tokens(r.path), loc, k) && Gives(Tokens(s.path), loc, l) ensures k == l {
        SameTokens(rules, r, s, |loc|);
        var pat := Tokens(r.path)[..|loc|];
        assert KeysAt(r, pat, k) && KeysAt(s, pat, l);
      }
    }
  }

  lemma {:induction false} AtKey(t: Trie, toks: seq<Token>, i: nat)
    requires At(t, toks).Some? && i < |toks| && toks[i].Key?
    ensures At(t, toks[..i]).Some? && At(t, toks[..i]).value.key == toks[i].k
    decreases |toks|
  {
    if i > 0 {
      var c := if toks[0].Name? then t.nameNext[toks[0].n] else t.keyNext[toks[0].v];
      AtKey(c, toks[1..], i - 1);
      assert toks[..i][1..] == toks[1..][..i - 1];
    }
  }

  /** Every rule of an accepted list is at its own path in the tree exactly when the list is
      consistent; a list that is accepted without being consistent has misplaced a rule. */
  lemma PlacedIffConsistent(rules: seq<Rule>)
    requires Build(rules).Some?
    ensures Consistent(rules) <==> forall r :: r in rules ==> At(Build(rules).value, Tokens(r.path)).Some?
  {
    var t := Build(rules).value;
    if Consistent(rules) {
      forall r | r in rules ensures At(t, Tokens(r.path)).Some? { BuildPlaces(rules, r); }
    } else if forall r :: r in rules ==> At(t, Tokens(r.path)).Some? {
      forall r, s, pat, k, l | r in rules && s in rules && KeysAt(r, pat, k) && KeysAt(s, pat, l) ensures k == l {
        AtKey(t, Tokens(r.path), |pat|);
        AtKey(t, Tokens(s.path), |pat|);
      }
    }
  }

  /** Rules that disagree on a key clash in one order or the other. */
  lemma Disagree(r: Rule, s: Rule, pat: seq<Token>, k: string, l: string)
    requires KeysAt(r, pat, k) && KeysAt(s, pat, l) && k != l
    ensures if k != "" then Clash(r, s) else Clash(s, r)
  {
    GivesItsKey(r, pat, k);
    GivesItsKey(s, pat, l);
  }

  ghost predicate SameRules(r1: seq<Rule>, r2: seq<Rule>) { forall r :: r in r1 <==> r in r2 }

  lemma Reordered(rules: seq<Rule>, other: seq<Rule>)
    requires multiset(other) == multiset(rules)
    ensures SameRules(rules, other)
  {
    forall r ensures r in rules <==> r in other {
      assert r in rules <==> r in multiset(rules);
      assert r in other <==> r in multiset(other);
    }
  }

  /** Exchanging two rules is a reordering. */
  lemma Exchange(rules: seq<Rule>, i: nat, j: nat) returns (other: seq<Rule>)
    requires i < j < |rules|
    ensures multiset(other) == multiset(rules) && |other| == |rules| && other[i] == rules[j] && other[j] == rules[i]
  {
    other := rules[i := rules[j]][j := rules[i]];
  }

  lemma ConsistentInAnyOrder(rules: seq<Rule>, other: seq<Rule>)
    requires rules != [] && AllPrincipals(rules) && Consistent(rules) && multiset(other) == multiset(rules)
    ensures CreatePolicies(other).Some?
  {
    Reordered(rules, other);
    assert rules[0] in other;
    ConsistentSubset(other, rules);
    BuildSucceeds(other);
  }

  /** Rules that clash in one order make that order of the list fail. */
  lemma RejectedOrder(rules: seq<Rule>, i: nat, j: nat) returns (other: seq<Rule>)
    requires i < |rules| && j < |rules| && i != j && Clash(rules[i], rules[j])
    ensures multiset(other) == multiset(rules) && CreatePolicies(other).None?
  {
    if i < j {
      other := rules;
    } else {
      other := Exchange(rules, j, i);
      assert Clash(other[j], other[i]);
    }
    AcceptedIff(other);
  }

  lemma InconsistentOrder(rules: seq<Rule>) returns (other: seq<Rule>)
    requires !Consistent(rules)
    ensures multiset(other) == multiset(rules) && CreatePolicies(other).None?
  {
    var r, s, pat, k, l :| r in rules && s in rules && KeysAt(r, pat, k) && KeysAt(s, pat, l) && k != l;
    var i :| 0 <= i < |rules| && rules[i] == r;
    var j :| 0 <= j < |rules| && rules[j] == s;
    Disagree(r, s, pat, k, l);
    if k != "" { other := RejectedOrder(rules, i, j); } else { other := RejectedOrder(rules, j, i); }
  }

  /** A list is accepted in every order exactly when it is consistent and every rule has a
      principal. */
  lemma AcceptedInAnyOrderIff(rules: seq<Rule>)
    requires rules != []
    ensures (forall other :: multiset(other) == multiset(rules) ==> CreatePolicies(other).Some?) <==>
            AllPrincipals(rules) && Consistent(rules)
  {
    if !AllPrincipals(rules) {
      AcceptedIff(rules);
    } else if !Consistent(rules) {
      var other := InconsistentOrder(rules);
    } else {
      forall other | multiset(other) == multiset(rules) ensures CreatePolicies(other).Some? { ConsistentInAnyOrder(rules, other); }
    }
  }

  // ---------- Key names that are not empty ----------

  predicate NamedKeys(path: Path) { forall e :: e in path ==> "" !in e.keys }

  predicate WellNamed(rules: seq<Rule>) { forall r :: r in rules ==> NamedKeys(r.path) }

  ghost predicate NamedTokens(toks: seq<Token>) { forall t :: t in toks && t.Key? ==> t.k != "" }

  lemma {:induction false} KeyTokensNamed(m: map<string, string>, keys: seq<string>)
    requires "" !in keys
    ensures NamedTokens(KeyTokens(m, keys))
  {
    if keys != [] { KeyTokensNamed(m, keys[1..]); }
  }

  lemma {:induction false} TokensNamed(path: Path)
    requires NamedKeys(path)
    ensures NamedTokens(Tokens(path))
  {
    if path != [] {
      var e := path[0];
      AscendingElements(e.keys.Keys, "");
      KeyTokensNamed(e.keys, Ascending(e.keys.Keys));
      TokensNamed(path[1..]);
    }
  }

  /** With key names that are not empty, the lists accepted are the consistent ones. */
  lemma NamedAcceptedIff(rules: seq<Rule>)
    requires WellNamed(rules)
    ensures CreatePolicies(rules).Some? <==> rules != [] && AllPrincipals(rules) && Consistent(rules)
  {
    AcceptedIff(rules);
    if Consistent(rules) { ConsistentNoClash(rules); }
    if NoClash(rules) {
      forall r, s, pat, k, l | r in rules && s in rules && KeysAt(r, pat, k) && KeysAt(s, pat, l) ensures k == l {
        TokensNamed(r.path);
        TokensNamed(s.path);
        assert Tokens(r.path)[|pat|] in Tokens(r.path) && Tokens(s.path)[|pat|] in Tokens(s.path);
        var i :| 0 <= i < |rules| && rules[i] == r;
        var j :| 0 <= j < |rules| && rules[j] == s;
        if k != l && i < j { Disagree(r, s, pat, k, l); }
        else if k != l { Disagree(s, r, pat, l, k); }
      }
    }
  }

  // ---------- Lists that are read as they are meant ----------

  /** The tree of the list decides every request as the list does. */
  ghost predicate ReadAsMeant(rules: seq<Rule>) {
    && CreatePolicies(rules).Some?
    && forall req, user, mode, groups ::
         WalkAction(CreatePolicies(rules).value, req, user, mode, groups) == Verdict(rules, req, user, mode, groups)
  }

  /** The same paths, with principals, actions and modes of any kind. */
  predicate SamePaths(rules: seq<Rule>, other: seq<Rule>) {
    |rules| == |other| && forall i :: 0 <= i < |rules| ==> rules[i].path == other[i].path
  }

  lemma SamePathsConsistent(rules: seq<Rule>, other: seq<Rule>)
    requires SamePaths(rules, other) && Consistent(rules)
    ensures Consistent(other)
  {
    forall r, s, pat, k, l | r in other && s in other && KeysAt(r, pat, k) && KeysAt(s, pat, l) ensures k == l {
      var i :| 0 <= i < |other| && other[i] == r;
      var j :| 0 <= j < |other| && other[j] == s;
      assert rules[i] in rules && rules[j] in rules && KeysAt(rules[i], pat, k) && KeysAt(rules[j], pat, l);
    }
  }

  // A rule leaves its mark at its own location only.

  ghost function OwnPerm(n: Trie, who: Principal): Permission {
    match who
    case User(u) => PermissionFor(n.users, u)
    case Group(g) => PermissionFor(n.groups, g)
    case NoPrincipal => NO_PERMISSION
  }

  ghost function MarkAt(t: Trie, loc: seq<Edge>, who: Principal): Permission {
    match AtLoc(t, loc) case Some(n) => OwnPerm(n, who) case None => NO_PERMISSION
  }

  lemma MarkBelow(t: Trie, e: Edge, l: seq<Edge>, who: Principal)
    ensures MarkAt(t, [e] + l, who) == MarkAt(DescendBy(t, e), l, who)
  {
    AtLocBelow(t, e, l);
    if ChildAt(t, e).None? && l != [] { assert AtLoc(EMPTY, l) == None; }
  }

  lemma InsertLeafMark(t: Trie, r: Rule, loc: seq<Edge>, who: Principal)
    requires InsertLeaf(t, r).Some? && (loc != [] || r.principal != who)
    ensures MarkAt(InsertLeaf(t, r).value, loc, who) == MarkAt(t, loc, who)
  {
    var t' := InsertLeaf(t, r).value;
    if loc == [] {
      assert AtLoc(t', []) == Some(t') && AtLoc(t, []) == Some(t);
    } else {
      assert ChildAt(t', loc[0]) == ChildAt(t, loc[0]);
    }
  }

  lemma {:induction false} InsertMark(t: Trie, toks: seq<Token>, r: Rule, loc: seq<Edge>, who: Principal)
    requires Insert(t, toks, r).Some? && (loc != Edges(toks) || r.principal != who)
    ensures MarkAt(Insert(t, toks, r).value, loc, who) == MarkAt(t, loc, who)
    decreases |toks|
  {
    if toks == [] {
      assert Edges(toks) == [];
      InsertLeafMark(t, r, loc, who);
    } else {
      var t', e := Insert(t, toks, r).value, EdgeOf(toks[0]);
      InsertChildAt(t, toks, r);
      if loc == [] {
        assert AtLoc(t', []) == Some(t') && AtLoc(t, []) == Some(t);
        assert TopOf(t').users == TopOf(t).users && TopOf(t').groups == TopOf(t).groups;
      } else {
        assert loc == [loc[0]] + loc[1..];
        MarkBelow(t', loc[0], loc[1..], who);
        MarkBelow(t, loc[0], loc[1..], who);
        assert Edges(toks) == [e] + Edges(toks[1..]);
        if loc[0] == e { InsertMark(DescendBy(t, e), toks[1..], r, loc[1..], who); }
      }
    }
  }

  /** No rule of a user or group for a location, no permission there. */
  lemma {:induction false} BuildMarks(rules: seq<Rule>, loc: seq<Edge>, who: Principal)
    requires Build(rules).Some?
    requires forall r :: r in rules && r.principal == who ==> Edges(Tokens(r.path)) != loc
    ensures MarkAt(Build(rules).value, loc, who) == NO_PERMISSION
  {
    if rules == [] {
      if loc != [] { assert AtLoc(EMPTY, loc) == None; }
    } else {
      var init, last := rules[..|rules| - 1], rules[|rules| - 1];
      assert rules == init + [last];
      BuildMarks(init, loc, who);
      InsertMark(Build(init).value, Tokens(last.path), last, loc, who);
    }
  }

  lemma {:induction false} AtIsAtLoc(t: Trie, pat: seq<Token>)
    requires At(t, pat).Some?
    ensures AtLoc(t, Edges(pat)) == At(t, pat)
    decreases |pat|
  {
    if pat == [] {
      assert Edges(pat) == [];
    } else {
      assert Edges(pat) == [EdgeOf(pat[0])] + Edges(pat[1..]);
      AtLocBelow(t, EdgeOf(pat[0]), Edges(pat[1..]));
      AtIsAtLoc(ChildAt(t, EdgeOf(pat[0])).value, pat[1..]);
    }
  }

  /** A pattern that covers a request of the same edges is the request. */
  lemma CoversByEdges(pat: seq<Token>, req: seq<Token>)
    requires Matches(pat, req) && Edges(pat) == Edges(req)
    ensures pat == req
  {
    forall i | 0 <= i < |pat| ensures pat[i] == req[i] {
      assert Covers(pat[i], req[i]);
      assert Edges(pat)[i] == EdgeOf(pat[i]) && Edges(req)[i] == EdgeOf(req[i]);
    }
  }

  /** A user whose one rule is not at its own path gets no decision there. */
  lemma MisplacedUndecided(rules: seq<Rule>, r: Rule, u: string, mode: Mode)
    requires Build(rules).Some? && r in rules && forall s :: s in rules && s.principal == User(u) ==> s == r
    requires At(Build(rules).value, Tokens(r.path)).None?
    ensures WalkAction(Build(rules).value, Tokens(r.path), u, mode, map[]) == Unspecified
  {
    var t, req := Build(rules).value, Tokens(r.path);
    var p := WalkFindsBest(t, req, u, mode, map[]);
    if Walk(t, req, u, mode, map[]).Some? {
      assert Candidate(t, req, u, mode, map[], p);
      AtIsAtLoc(t, p);
      if Edges(p) == Edges(req) {
        CoversByEdges(p, req);
      } else {
        BuildMarks(rules, Edges(p), User(u));
      }
    }
  }

  /** A user whose one rule denies a path is denied it by the list. */
  lemma OneRuleDenies(rules: seq<Rule>, r: Rule, u: string)
    requires r in rules && r.principal == User(u) && r.action == Deny && r.mode == Read
    requires forall s :: s in rules && s.principal == User(u) ==> s == r
    ensures Verdict(rules, Tokens(r.path), u, Read, map[]) == Deny
  {
    var req := Tokens(r.path);
    assert Configures(r, req, User(u), Read, Deny);
    assert FlatCandidate(rules, req, u, Read, map[], req);
    forall q | FlatCandidate(rules, req, u, Read, map[], q) ensures Preferred(req, q, req) {
      assert q == req;
      assert PartsAt(req, q, req, |q|);
    }
    VerdictOf(rules, req, u, Read, map[], req);
  }

  function Tag(i: nat): string { seq(i, _ => 'u') }

  /** Each path denied to a user of its own. */
  function Tagged(rules: seq<Rule>): seq<Rule> {
    seq(|rules|, i requires 0 <= i < |rules| => Rule("", User(Tag(i)), rules[i].path, Deny, Read))
  }

  lemma TagIsOwn(rules: seq<Rule>, j: nat, s: Rule)
    requires j < |rules| && s in Tagged(rules) && s.principal == User(Tag(j))
    ensures s == Tagged(rules)[j]
  {
    var i :| 0 <= i < |rules| && Tagged(rules)[i] == s;
    assert |Tag(i)| == i && |Tag(j)| == j;
  }

  lemma TaggedInconsistent(rules: seq<Rule>)
    requires !Consistent(rules)
    ensures !Consistent(Tagged(rules))
  {
    if Consistent(Tagged(rules)) { SamePathsConsistent(Tagged(rules), rules); }
  }

  /** A misplaced rule is not decided as it is meant. */
  lemma TaggedMisread(rules: seq<Rule>, j: nat)
    requires j < |rules| && Build(Tagged(rules)).Some?
    requires At(Build(Tagged(rules)).value, Tokens(rules[j].path)).None?
    ensures WalkAction(Build(Tagged(rules)).value, Tokens(rules[j].path), Tag(j), Read, map[]) !=
            Verdict(Tagged(rules), Tokens(rules[j].path), Tag(j), Read, map[])
  {
    var other := Tagged(rules);
    var r := other[j];
    assert r in other && r.path == rules[j].path && r.principal == User(Tag(j)) && r.action == Deny && r.mode == Read;
    forall s | s in other && s.principal == User(Tag(j)) ensures s == r { TagIsOwn(rules, j, s); }
    MisplacedUndecided(other, r, Tag(j), Read);
    OneRuleDenies(other, r, Tag(j));
  }

  lemma InconsistentMisread(rules: seq<Rule>)
    requires !Consistent(rules)
    ensures !ReadAsMeant(Tagged(rules))
  {
    var other := Tagged(rules);
    TaggedInconsistent(rules);
    if CreatePolicies(other).Some? {
      PlacedIffConsistent(other);
      var r :| r in other && At(Build(other).value, Tokens(r.path)).None?;
      var j :| 0 <= j < |other| && other[j] == r;
      assert r.path == rules[j].path;
      TaggedMisread(rules, j);
    }
  }

  /** A list is consistent exactly when, whoever its paths are given to and whatever is done with
      them, it is accepted and decides every request as the flat reading does. */
  lemma ReadAsMeantIff(rules: seq<Rule>)
    requires rules != []
    ensures Consistent(rules) <==> forall other :: SamePaths(rules, other) && AllPrincipals(other) ==> ReadAsMeant(other)
  {
    if Consistent(rules) {
      forall other | SamePaths(rules, other) && AllPrincipals(other) ensures ReadAsMeant(other) {
        SamePathsConsistent(rules, other);
        BuildSucceeds(other);
        forall req, user, mode, groups
          ensures WalkAction(CreatePolicies(other).value, req, user, mode, groups) == Verdict(other, req, user, mode, groups)
        {
          WalkActionIsVerdict(other, req, user, mode, groups);
        }
      }
    } else {
      InconsistentMisread(rules);
      assert SamePaths(rules, Tagged(rules)) && AllPrincipals(Tagged(rules));
    }
  }
}
