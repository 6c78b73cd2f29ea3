/** The decisions of the policy tree are those of the rule list, for every list the loader
    accepts and every request; what follows for reordering and extending the list. */
module PathzDecisions {
  import opened Options
  import opened PathzPolicy
  import opened PathzTrie
  import opened PathzRules
  import SortedStrings

  /** The action of a walk from the root. */
  ghost function WalkAction(t: Trie, req: seq<Token>, user: string, mode: Mode, groups: Membership): Action {
    match Walk(t, req, user, mode, groups)
    case Some(n) => Own(n, user, mode, groups)
    case None => Unspecified
  }

  /** The action of the rule list: that of the deciding path, if there is one. */
  ghost function Verdict(rules: seq<Rule>, req: seq<Token>, user: string, mode: Mode, groups: Membership): Action {
    if exists p :: Decides(rules, req, user, mode, groups, p)
    then var p :| Decides(rules, req, user, mode, groups, p); FlatDecision(rules, p, user, mode, groups)
    else Unspecified
  }

  lemma VerdictOf(rules: seq<Rule>, req: seq<Token>, user: string, mode: Mode, groups: Membership, p: seq<Token>)
    requires Decides(rules, req, user, mode, groups, p)
    ensures Verdict(rules, req, user, mode, groups) == FlatDecision(rules, p, user, mode, groups)
  {
    var q :| Decides(rules, req, user, mode, groups, q)
             && Verdict(rules, req, user, mode, groups) == FlatDecision(rules, q, user, mode, groups);
    DecidesUnique(rules, req, user, mode, groups, p, q);
  }

  lemma SomeGroupFlat(rules: seq<Rule>, pat: seq<Token>, user: string, mode: Mode, groups: Membership, a: Action)
    requires Consistent(rules) && Build(rules).Some? && At(Build(rules).value, pat).Some? && a != Unspecified
    ensures SomeGroup(At(Build(rules).value, pat).value, user, mode, groups, a) <==> SomeFlatGroup(rules, pat, user, mode, groups, a)
  {
    var n := At(Build(rules).value, pat).value;
    forall g ensures Slot(PermissionFor(n.groups, g), mode).action == FlatAction(rules, pat, Group(g), mode) {
      BuildActions(rules, pat, Group(g), mode);
    }
    if SomeGroup(n, user, mode, groups, a) {
      var g :| g in n.groups && Member(groups, g, user) && Slot(n.groups[g], mode).action == a;
      assert FlatAction(rules, pat, Group(g), mode) == a;
    }
    if SomeFlatGroup(rules, pat, user, mode, groups, a) {
      var g :| Member(groups, g, user) && FlatAction(rules, pat, Group(g), mode) == a;
      assert Slot(PermissionFor(n.groups, g), mode).action == a;
      assert g in n.groups;
    }
  }

  /** Node by node, the tree decides as the rules for that path do. */
  lemma DecisionFlat(rules: seq<Rule>, pat: seq<Token>, user: string, mode: Mode, groups: Membership)
    requires Consistent(rules) && Build(rules).Some?
    ensures Decision(Build(rules).value, pat, user, mode, groups) == FlatDecision(rules, pat, user, mode, groups)
  {
    var t := Build(rules).value;
    BuildActions(rules, pat, User(user), mode);
    if At(t, pat).Some? {
      SomeGroupFlat(rules, pat, user, mode, groups, Deny);
      SomeGroupFlat(rules, pat, user, mode, groups, Permit);
    } else {
      forall g ensures FlatAction(rules, pat, Group(g), mode) == Unspecified {
        BuildActions(rules, pat, Group(g), mode);
      }
    }
  }

  /** `id` names a rule for path `p` that gives this user, directly or through a group,
      action `a`. */
  ghost predicate Names(rules: seq<Rule>, p: seq<Token>, user: string, mode: Mode, groups: Membership, a: Action, id: string) {
    || RuleWithId(rules, p, User(user), mode, a, id)
    || exists g :: Member(groups, g, user) && RuleWithId(rules, p, Group(g), mode, a, id)
  }

  lemma OwnIdNames(rules: seq<Rule>, p: seq<Token>, user: string, mode: Mode, groups: Membership, id: string)
    requires Consistent(rules) && Build(rules).Some? && At(Build(rules).value, p).Some?
    requires var n := At(Build(rules).value, p).value;
             Own(n, user, mode, groups) != Unspecified && OwnId(n, user, mode, groups, id)
    ensures var n := At(Build(rules).value, p).value;
            Names(rules, p, user, mode, groups, Own(n, user, mode, groups), id)
  {
    var n := At(Build(rules).value, p).value;
    var a := Own(n, user, mode, groups);
    BuildActions(rules, p, User(user), mode);
    if Slot(PermissionFor(n.users, user), mode) != RuleAction(id, a) {
      var g :| g in n.groups && Member(groups, g, user) && Slot(n.groups[g], mode) == RuleAction(id, a);
      BuildActions(rules, p, Group(g), mode);
    }
  }

  /** For every accepted list that is consistent: the walk finds nothing exactly when no rule path covers a
      prefix of the request and decides for this user and mode; otherwise it ends at the
      node of the deciding path, with that path's action and text. */
  lemma WalkIsFlat(rules: seq<Rule>, req: seq<Token>, user: string, mode: Mode, groups: Membership) returns (p: seq<Token>)
    requires Consistent(rules) && CreatePolicies(rules).Some?
    ensures var w := Walk(CreatePolicies(rules).value, req, user, mode, groups);
            && (w.None? <==> forall q :: !FlatCandidate(rules, req, user, mode, groups, q))
            && (w.Some? ==>
                  && Decides(rules, req, user, mode, groups, p)
                  && Own(w.value, user, mode, groups) == FlatDecision(rules, p, user, mode, groups)
                  && Text(w.value.rule, p)
                  && forall id :: OwnId(w.value, user, mode, groups, id) ==>
                                    Names(rules, p, user, mode, groups, Own(w.value, user, mode, groups), id))
  {
    var t := CreatePolicies(rules).value;
    forall q ensures Candidate(t, req, user, mode, groups, q) <==> FlatCandidate(rules, req, user, mode, groups, q) {
      DecisionFlat(rules, q, user, mode, groups);
    }
    p := WalkFindsBest(t, req, user, mode, groups);
    var w := Walk(t, req, user, mode, groups);
    if w.Some? {
      assert Candidate(t, req, user, mode, groups, p);
      assert FlatCandidate(rules, req, user, mode, groups, p);
      DecisionFlat(rules, p, user, mode, groups);
      BuildForm(rules);
      assert LabelledNode(w.value, p);
      assert w.value.users != map[] || w.value.groups != map[];
      forall id | OwnId(w.value, user, mode, groups, id)
        ensures Names(rules, p, user, mode, groups, Own(w.value, user, mode, groups), id)
      {
        OwnIdNames(rules, p, user, mode, groups, id);
      }
    }
  }

  /** The action is that of the rule list. */
  lemma WalkActionIsVerdict(rules: seq<Rule>, req: seq<Token>, user: string, mode: Mode, groups: Membership)
    requires Consistent(rules) && CreatePolicies(rules).Some?
    ensures WalkAction(CreatePolicies(rules).value, req, user, mode, groups) == Verdict(rules, req, user, mode, groups)
  {
    var p := WalkIsFlat(rules, req, user, mode, groups);
    if Walk(CreatePolicies(rules).value, req, user, mode, groups).Some? {
      VerdictOf(rules, req, user, mode, groups, p);
    }
  }

  /** Reordering a consistent list, or repeating some of its rules, changes neither acceptance nor
      any action. */
  lemma OrderIsIrrelevant(r1: seq<Rule>, r2: seq<Rule>)
    requires Consistent(r1) && (forall r :: r in r1 <==> r in r2)
    ensures CreatePolicies(r1).Some? <==> CreatePolicies(r2).Some?
    ensures CreatePolicies(r1).Some? ==>
              forall req, user, mode, groups ::
                WalkAction(CreatePolicies(r1).value, req, user, mode, groups) == WalkAction(CreatePolicies(r2).value, req, user, mode, groups)
  {
    ConsistentSubset(r2, r1);
    BuildSucceeds(r1);
    BuildSucceeds(r2);
    assert r1 == [] <==> r2 == [] by {
      if r1 != [] { assert r1[0] in r2; }
      if r2 != [] { assert r2[0] in r1; }
    }
    if CreatePolicies(r1).Some? {
      forall req, user, mode, groups
        ensures WalkAction(CreatePolicies(r1).value, req, user, mode, groups) == WalkAction(CreatePolicies(r2).value, req, user, mode, groups)
      {
        SameVerdict(r1, r2, req, user, mode, groups);
        WalkActionIsVerdict(r1, req, user, mode, groups);
        WalkActionIsVerdict(r2, req, user, mode, groups);
      }
    }
  }

  lemma SameVerdict(r1: seq<Rule>, r2: seq<Rule>, req: seq<Token>, user: string, mode: Mode, groups: Membership)
    requires forall r :: r in r1 <==> r in r2
    ensures Verdict(r1, req, user, mode, groups) == Verdict(r2, req, user, mode, groups)
  {
    forall q ensures FlatDecision(r1, q, user, mode, groups) == FlatDecision(r2, q, user, mode, groups) {
      FlatDecisionOfSet(r1, r2, q, user, mode, groups);
    }
    forall q ensures FlatCandidate(r1, req, user, mode, groups, q) <==> FlatCandidate(r2, req, user, mode, groups, q) { }
    forall p ensures Decides(r1, req, user, mode, groups, p) <==> Decides(r2, req, user, mode, groups, p) { }
    if p :| Decides(r1, req, user, mode, groups, p) {
      VerdictOf(r1, req, user, mode, groups, p);
      VerdictOf(r2, req, user, mode, groups, p);
    }
  }

  /** Adding a deny rule moves the decision for a path to deny or leaves it. */
  lemma DenyFlatDecision(rules: seq<Rule>, r: Rule, pat: seq<Token>, user: string, mode: Mode, groups: Membership)
    requires r.action == Deny
    ensures FlatDecision(rules + [r], pat, user, mode, groups) in {Deny, FlatDecision(rules, pat, user, mode, groups)}
  {
    forall who, a
      ensures SomeRule(rules + [r], pat, who, mode, a) <==> SomeRule(rules, pat, who, mode, a) || Configures(r, pat, who, mode, a)
    {
      SomeRuleLast(rules, r, rules + [r], pat, who, mode, a);
    }
    assert forall who :: FlatAction(rules + [r], pat, who, mode) in {Deny, FlatAction(rules, pat, who, mode)};
    if SomeFlatGroup(rules, pat, user, mode, groups, Deny) {
      var g :| Member(groups, g, user) && FlatAction(rules, pat, Group(g), mode) == Deny;
      assert FlatAction(rules + [r], pat, Group(g), mode) == Deny;
    }
    if SomeFlatGroup(rules, pat, user, mode, groups, Permit) && !SomeFlatGroup(rules + [r], pat, user, mode, groups, Deny) {
      var g :| Member(groups, g, user) && FlatAction(rules, pat, Group(g), mode) == Permit;
      assert FlatAction(rules + [r], pat, Group(g), mode) in {Deny, Permit};
      assert FlatAction(rules + [r], pat, Group(g), mode) != Deny;
    }
    if SomeFlatGroup(rules + [r], pat, user, mode, groups, Permit) {
      var g :| Member(groups, g, user) && FlatAction(rules + [r], pat, Group(g), mode) == Permit;
      assert FlatAction(rules, pat, Group(g), mode) == Permit;
    }
  }

  /** Adding a deny rule that is accepted changes an action only to deny. */
  lemma DenyOnlyDenies(rules: seq<Rule>, r: Rule, req: seq<Token>, user: string, mode: Mode, groups: Membership)
    requires r.action == Deny && Consistent(rules + [r])
    requires CreatePolicies(rules).Some? && CreatePolicies(rules + [r]).Some?
    ensures WalkAction(CreatePolicies(rules + [r]).value, req, user, mode, groups)
            in {Deny, WalkAction(CreatePolicies(rules).value, req, user, mode, groups)}
  {
    var more := rules + [r];
    ConsistentSubset(rules, more);
    forall q ensures FlatDecision(more, q, user, mode, groups) in {Deny, FlatDecision(rules, q, user, mode, groups)} {
      DenyFlatDecision(rules, r, q, user, mode, groups);
    }
    forall q | FlatCandidate(rules, req, user, mode, groups, q) ensures FlatCandidate(more, req, user, mode, groups, q) { }
    var p := WalkIsFlat(more, req, user, mode, groups);
    var p0 := WalkIsFlat(rules, req, user, mode, groups);
    if Walk(CreatePolicies(more).value, req, user, mode, groups).Some? && FlatDecision(more, p, user, mode, groups) != Deny {
      assert FlatCandidate(rules, req, user, mode, groups, p);
      assert Decides(rules, req, user, mode, groups, p);
      DecidesUnique(rules, req, user, mode, groups, p, p0);
    }
  }

  // ---------- Empty key names ----------

  const KEYLESS := Rule("1", User("u"), [PathElem("a", map["" := "x"])], Permit, Read)
  const KEYED := Rule("2", User("w"), [PathElem("a", map["k" := "x"])], Permit, Read)

  lemma OneKeyTokens(k: string)
    ensures Tokens([PathElem("a", map[k := "x"])]) == [Name("a"), Key(k, "x")]
  {
    var m := map[k := "x"];
    assert m.Keys == {k};
    SortedStrings.AscendingUnique({k}, [k]);
    assert [k][1..] == [];
    assert KeyTokens(m, [k]) == [Key(k, "x")];
    var path := [PathElem("a", m)];
    assert path[1..] == [];
    assert Tokens(path) == ElemTokens(path[0]) + [];
  }

  /** Inserting a rule for `/a[k=x]`. */
  lemma InsertKeyed(t: Trie, k: string, r: Rule)
    requires var a := Child(t.nameNext, "a");
             (a.key == "" || a.key == k) && r.principal != NoPrincipal
    ensures var a := Child(t.nameNext, "a");
            var leaf := InsertLeaf(Child(a.keyNext, "x"), r).value;
            Insert(t, [Name("a"), Key(k, "x")], r)
            == Some(t.(nameNext := t.nameNext["a" := a.(key := k, keyNext := a.keyNext["x" := leaf])]))
  {
    var toks := [Name("a"), Key(k, "x")];
    assert toks[1..] == [Key(k, "x")] && toks[1..][1..] == [];
    var a := Child(t.nameNext, "a");
    assert Insert(Child(a.keyNext, "x"), [], r) == InsertLeaf(Child(a.keyNext, "x"), r);
    assert Insert(a, [Key(k, "x")], r).Some?;
  }

  lemma BuildTwo(r1: Rule, r2: Rule, t: Trie)
    requires Insert(EMPTY, Tokens(r1.path), r1) == Some(t)
    ensures Build([r1, r2]) == Insert(t, Tokens(r2.path), r2)
  {
    assert Build([]) == Some(EMPTY);
    assert [r1][..0] == [] && [r1, r2][..1] == [r1];
    assert Build([r1]) == Some(t);
  }

  /** The second rule takes over the children of the first. */
  lemma KeylessTree() returns (leaf: Trie)
    ensures Build([KEYLESS, KEYED]).Some?
    ensures var t := Build([KEYLESS, KEYED]).value;
            && "a" in t.nameNext && t.nameNext["a"].key == "k"
            && "x" in t.nameNext["a"].keyNext && t.nameNext["a"].keyNext["x"] == leaf
    ensures UserAction(leaf, "u", Read) == Permit
  {
    OneKeyTokens("");
    OneKeyTokens("k");
    InsertKeyed(EMPTY, "", KEYLESS);
    var t := Insert(EMPTY, Tokens(KEYLESS.path), KEYLESS).value;
    BuildTwo(KEYLESS, KEYED, t);
    InsertKeyed(t, "k", KEYED);
    var l := Child(Child(t.nameNext, "a").keyNext, "x");
    assert UserAction(l, "u", Read) == Permit;
    leaf := InsertLeaf(l, KEYED).value;
  }

  lemma KeylessWalk(t: Trie, leaf: Trie)
    requires "a" in t.nameNext && t.nameNext["a"].key == "k"
    requires "x" in t.nameNext["a"].keyNext && t.nameNext["a"].keyNext["x"] == leaf
    requires UserAction(leaf, "u", Read) == Permit
    ensures WalkAction(t, [Name("a"), Key("k", "x")], "u", Read, map[]) == Permit
  {
    var req := [Name("a"), Key("k", "x")];
    assert req[1..] == [Key("k", "x")] && req[1..][1..] == [];
    assert Walk(leaf, [], "u", Read, map[]) == Some(leaf);
    assert Walk(t.nameNext["a"], [Key("k", "x")], "u", Read, map[]) == Some(leaf);
  }

  /** Without groups, a request that no rule path of the user's covers stays undecided. */
  lemma UncoveredUndecided(rules: seq<Rule>, req: seq<Token>, user: string, mode: Mode)
    requires forall r :: r in rules && r.principal == User(user) ==> !Matches(Tokens(r.path), req)
    ensures Verdict(rules, req, user, mode, map[]) == Unspecified
  {
    forall q | Matches(q, req) ensures FlatDecision(rules, q, user, mode, map[]) == Unspecified {
      assert forall a :: !SomeRule(rules, q, User(user), mode, a);
    }
  }

  lemma KeylessInconsistent()
    ensures !Consistent([KEYLESS, KEYED])
  {
    var rules := [KEYLESS, KEYED];
    OneKeyTokens("");
    OneKeyTokens("k");
    assert rules[0] in rules && rules[1] in rules;
    assert KeysAt(KEYLESS, [Name("a")], "") && KeysAt(KEYED, [Name("a")], "k");
  }

  lemma KeylessUndecided()
    ensures Verdict([KEYLESS, KEYED], Tokens(KEYED.path), "u", Read, map[]) == Unspecified
  {
    OneKeyTokens("");
    OneKeyTokens("k");
    var rules, req := [KEYLESS, KEYED], Tokens(KEYED.path);
    assert !Covers(Tokens(KEYLESS.path)[1], req[1]);
    forall r | r in rules && r.principal == User("u") ensures !Matches(Tokens(r.path), req) { assert r == KEYLESS; }
    UncoveredUndecided(rules, req, "u", Read);
  }

  /** An empty key name is taken for "no key yet": the two rules below are accepted although
      they name different keys, and user `u` is then permitted a path no rule gives them. */
  lemma EmptyKeyNameMisread()
    ensures !Consistent([KEYLESS, KEYED])
    ensures CreatePolicies([KEYLESS, KEYED]).Some?
    ensures WalkAction(CreatePolicies([KEYLESS, KEYED]).value, Tokens(KEYED.path), "u", Read, map[]) == Permit
    ensures Verdict([KEYLESS, KEYED], Tokens(KEYED.path), "u", Read, map[]) == Unspecified
  {
    KeylessInconsistent();
    KeylessUndecided();
    OneKeyTokens("k");
    var leaf := KeylessTree();
    KeylessWalk(Build([KEYLESS, KEYED]).value, leaf);
  }

  // ---------- One rule ----------

  /** The rule is for this user, directly or through a group, and for this mode. */
  predicate Concerns(r: Rule, user: string, mode: Mode, groups: Membership) {
    && (mode == Read || mode == Write) && r.mode == mode
    && (r.principal == User(user) || (r.principal.Group? && r.principal.group in groups && user in groups[r.principal.group]))
  }

  /** The tokens of the rule are those the request begins with, or a star for the value of a key. */
  predicate BeginsWith(req: seq<Token>, pat: seq<Token>) {
    && |pat| <= |req|
    && forall i :: 0 <= i < |pat| ==> pat[i] == req[i] || (req[i].Key? && pat[i] == Key(req[i].k, "*"))
  }

  lemma OneFlatAction(r: Rule, pat: seq<Token>, who: Principal, mode: Mode)
    ensures FlatAction([r], pat, who, mode) ==
            if Tokens(r.path) == pat && r.principal == who && r.mode == mode && (mode == Read || mode == Write) then r.action else Unspecified
  {
    assert forall a :: SomeRule([r], pat, who, mode, a) <==> Configures(r, pat, who, mode, a) by {
      forall a ensures SomeRule([r], pat, who, mode, a) <==> Configures(r, pat, who, mode, a) {
        if Configures(r, pat, who, mode, a) { assert r in [r]; }
      }
    }
  }

  lemma OneFlatDecision(r: Rule, pat: seq<Token>, user: string, mode: Mode, groups: Membership)
    ensures FlatDecision([r], pat, user, mode, groups) ==
            if Tokens(r.path) == pat && Concerns(r, user, mode, groups) then r.action else Unspecified
  {
    OneFlatAction(r, pat, User(user), mode);
    forall g
      ensures FlatAction([r], pat, Group(g), mode) ==
              if Tokens(r.path) == pat && r.principal == Group(g) && r.mode == mode && (mode == Read || mode == Write) then r.action else Unspecified
    {
      OneFlatAction(r, pat, Group(g), mode);
    }
    if r.principal.Group? && Concerns(r, user, mode, groups) && Tokens(r.path) == pat && r.action != Unspecified {
      assert Member(groups, r.principal.group, user) && FlatAction([r], pat, Group(r.principal.group), mode) == r.action;
    }
  }

  lemma OneCandidate(r: Rule, req: seq<Token>, user: string, mode: Mode, groups: Membership, q: seq<Token>)
    ensures FlatCandidate([r], req, user, mode, groups, q) <==>
            q == Tokens(r.path) && Concerns(r, user, mode, groups) && BeginsWith(req, Tokens(r.path)) && r.action != Unspecified
  {
    OneFlatDecision(r, q, user, mode, groups);
  }

  lemma OneDecides(r: Rule, req: seq<Token>, user: string, mode: Mode, groups: Membership, q: seq<Token>)
    ensures Decides([r], req, user, mode, groups, q) <==>
            q == Tokens(r.path) && Concerns(r, user, mode, groups) && BeginsWith(req, Tokens(r.path)) && r.action != Unspecified
  {
    OneCandidate(r, req, user, mode, groups, q);
    forall p | FlatCandidate([r], req, user, mode, groups, p) ensures p == Tokens(r.path) { OneCandidate(r, req, user, mode, groups, p); }
    if q == Tokens(r.path) { assert PartsAt(q, q, req, |q|); }
  }

  lemma OneVerdict(r: Rule, req: seq<Token>, user: string, mode: Mode, groups: Membership)
    ensures Verdict([r], req, user, mode, groups) ==
            if Concerns(r, user, mode, groups) && BeginsWith(req, Tokens(r.path)) then r.action else Unspecified
  {
    var pat := Tokens(r.path);
    forall q ensures Decides([r], req, user, mode, groups, q) <==>
                       q == pat && Concerns(r, user, mode, groups) && BeginsWith(req, pat) && r.action != Unspecified
    {
      OneDecides(r, req, user, mode, groups, q);
    }
    if Decides([r], req, user, mode, groups, pat) {
      VerdictOf([r], req, user, mode, groups, pat);
      OneFlatDecision(r, pat, user, mode, groups);
    }
  }

  /** A policy of one rule gives its action to the requests of its user, or of the users of its group,
      in its mode, whose path begins with its own, a star standing for any value of a key; and
      decides nothing else. */
  lemma OneRule(r: Rule, path: Path, user: string, mode: Mode, groups: Membership)
    requires r.principal != NoPrincipal
    ensures CreatePolicies([r]).Some?
    ensures WalkAction(CreatePolicies([r]).value, Tokens(path), user, mode, groups) ==
            if Concerns(r, user, mode, groups) && BeginsWith(Tokens(path), Tokens(r.path)) then r.action else Unspecified
  {
    assert Consistent([r]);
    BuildSucceeds([r]);
    WalkActionIsVerdict([r], Tokens(path), user, mode, groups);
    OneVerdict(r, Tokens(path), user, mode, groups);
  }
}
