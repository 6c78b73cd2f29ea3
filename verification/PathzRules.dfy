/** The rule list read without a tree: which rule decides a request, and the proof that
    the tree built from the list takes the same decision. */
module PathzRules {
  import opened Options
  import opened PathzPolicy
  import opened PathzTrie

  // ---------- The flat reading of a rule list ----------

  predicate Declared(mode: Mode) { mode == Read || mode == Write }

  ghost predicate Configures(r: Rule, pat: seq<Token>, who: Principal, mode: Mode, a: Action) {
    r.principal == who && r.mode == mode && r.action == a && Tokens(r.path) == pat
  }

  ghost predicate SomeRule(rules: seq<Rule>, pat: seq<Token>, who: Principal, mode: Mode, a: Action) {
    exists r :: r in rules && Configures(r, pat, who, mode, a)
  }

  /** What the rules for exactly this path say of one user or group: deny wins. */
  ghost function FlatAction(rules: seq<Rule>, pat: seq<Token>, who: Principal, mode: Mode): Action {
    if !Declared(mode) then Unspecified
    else if SomeRule(rules, pat, who, mode, Deny) then Deny
    else if SomeRule(rules, pat, who, mode, Permit) then Permit
    else Unspecified
  }

  ghost predicate SomeFlatGroup(rules: seq<Rule>, pat: seq<Token>, user: string, mode: Mode, groups: Membership, a: Action) {
    exists g :: Member(groups, g, user) && FlatAction(rules, pat, Group(g), mode) == a
  }

  /** The decision of the rules for exactly this path: the user's own rules, and only if
      they are silent those of the user's groups. */
  ghost function FlatDecision(rules: seq<Rule>, pat: seq<Token>, user: string, mode: Mode, groups: Membership): Action {
    var u := FlatAction(rules, pat, User(user), mode);
    if u != Unspecified then u
    else if SomeFlatGroup(rules, pat, user, mode, groups, Deny) then Deny
    else if SomeFlatGroup(rules, pat, user, mode, groups, Permit) then Permit
    else Unspecified
  }

  ghost predicate FlatCandidate(rules: seq<Rule>, req: seq<Token>, user: string, mode: Mode, groups: Membership, q: seq<Token>) {
    Matches(q, req) && FlatDecision(rules, q, user, mode, groups) != Unspecified
  }

  /** `p` is the path whose rules decide the request. */
  ghost predicate Decides(rules: seq<Rule>, req: seq<Token>, user: string, mode: Mode, groups: Membership, p: seq<Token>) {
    && FlatCandidate(rules, req, user, mode, groups, p)
    && forall q :: FlatCandidate(rules, req, user, mode, groups, q) ==> Preferred(p, q, req)
  }

  /** At most one path decides. */
  lemma DecidesUnique(rules: seq<Rule>, req: seq<Token>, user: string, mode: Mode, groups: Membership, p: seq<Token>, q: seq<Token>)
    requires Decides(rules, req, user, mode, groups, p)
    requires Decides(rules, req, user, mode, groups, q)
    ensures p == q
  {
    var i: nat :| PartsAt(p, q, req, i);
    var j: nat :| PartsAt(q, p, req, j);
    assert i == |q| ==> j == |p| || j < |q|;
  }

  /** The same rules in another order or with repetitions decide alike. */
  lemma FlatDecisionOfSet(r1: seq<Rule>, r2: seq<Rule>, pat: seq<Token>, user: string, mode: Mode, groups: Membership)
    requires forall r :: r in r1 <==> r in r2
    ensures FlatDecision(r1, pat, user, mode, groups) == FlatDecision(r2, pat, user, mode, groups)
  {
    forall who, a
      ensures SomeRule(r1, pat, who, mode, a) <==> SomeRule(r2, pat, who, mode, a)
    {
      if SomeRule(r1, pat, who, mode, a) { var r :| r in r1 && Configures(r, pat, who, mode, a); assert r in r2; }
      if SomeRule(r2, pat, who, mode, a) { var r :| r in r2 && Configures(r, pat, who, mode, a); assert r in r1; }
    }
    assert forall who :: FlatAction(r1, pat, who, mode) == FlatAction(r2, pat, who, mode);
    assert forall a :: SomeFlatGroup(r1, pat, user, mode, groups, a) <==> SomeFlatGroup(r2, pat, user, mode, groups, a);
  }

  // ---------- Acceptance ----------

  /** Gives key `k` to the node reached by the first `n` tokens of the rule's path. */
  ghost predicate KeysAt(r: Rule, pat: seq<Token>, k: string) {
    var toks := Tokens(r.path);
    |pat| < |toks| && toks[..|pat|] == pat && toks[|pat|].Key? && toks[|pat|].k == k
  }

  /** Rules that share a token prefix and go on with a key name the same key. */
  ghost predicate Consistent(rules: seq<Rule>) {
    forall r, s, pat, k, l :: r in rules && s in rules && KeysAt(r, pat, k) && KeysAt(s, pat, l) ==> k == l
  }

  // ---------- What one insertion changes ----------

  ghost function PermAt(t: Trie, pat: seq<Token>, who: Principal): Permission {
    match At(t, pat)
    case None => NO_PERMISSION
    case Some(n) =>
      match who
      case User(u) => PermissionFor(n.users, u)
      case Group(g) => PermissionFor(n.groups, g)
      case NoPrincipal => NO_PERMISSION
  }

  ghost function AtOrEmpty(t: Trie, pat: seq<Token>): Trie {
    match At(t, pat) case Some(n) => n case None => EMPTY
  }

  /** Only a node with children by key value has a key name. */
  ghost predicate Keyed(t: Trie) {
    forall pat :: At(t, pat).Some? ==> KeyedNode(At(t, pat).value)
  }

  ghost predicate KeyedNode(n: Trie) { n.keyNext == map[] ==> n.key == "" }

  /** A rule may go on from this node with this token: no other key is in use here. */
  ghost predicate Fits(n: Trie, tok: Token) { tok.Key? ==> n.keyNext == map[] || n.key == tok.k }

  ghost predicate Agrees(t: Trie, toks: seq<Token>, i: nat)
    requires i < |toks|
  {
    Fits(AtOrEmpty(t, toks[..i]), toks[i])
  }

  ghost predicate AllAgree(t: Trie, toks: seq<Token>) { forall i :: 0 <= i < |toks| ==> Agrees(t, toks, i) }

  /** A node that carries permissions carries the text of its path. */
  ghost predicate Labelled(t: Trie) {
    forall pat :: At(t, pat).Some? ==> LabelledNode(At(t, pat).value, pat)
  }

  ghost predicate LabelledNode(n: Trie, pat: seq<Token>) {
    n.users != map[] || n.groups != map[] ==> Text(n.rule, pat)
  }

  /** `s` is the text of a path with these tokens. */
  ghost predicate Text(s: string, pat: seq<Token>) {
    exists path :: Tokens(path) == pat && s == PrintPath(path)
  }

  lemma {:induction false} EmptyAt(pat: seq<Token>)
    ensures At(EMPTY, pat) == if pat == [] then Some(EMPTY) else None
  {
  }

  lemma EmptyKeyed()
    ensures Keyed(EMPTY) && Labelled(EMPTY)
  {
    forall pat | At(EMPTY, pat).Some? ensures At(EMPTY, pat).value == EMPTY { EmptyAt(pat); }
  }

  /** The child an insertion descends into. */
  ghost function Descend(t: Trie, tok: Token): Trie {
    match tok
    case Name(n) => Child(t.nameNext, n)
    case Key(k, v) => Child(t.keyNext, v)
  }

  lemma KeyedDescend(t: Trie, tok: Token)
    requires Keyed(t)
    requires Fits(t, tok)
    ensures KeyedNode(t) && Keyed(Descend(t, tok))
    ensures forall pat :: AtOrEmpty(t, [tok] + pat) == AtOrEmpty(Descend(t, tok), pat)
  {
    assert At(t, []) == Some(t);
    AtBelow(t, tok);
    if Below(t, tok).Some? {
      forall pat | At(Descend(t, tok), pat).Some? ensures KeyedNode(At(Descend(t, tok), pat).value) {
        assert At(t, [tok] + pat) == At(Descend(t, tok), pat);
      }
    } else {
      EmptyKeyed();
      forall pat ensures AtOrEmpty(EMPTY, pat) == EMPTY { EmptyAt(pat); }
    }
  }

  lemma AgreesHere(t: Trie, toks: seq<Token>)
    requires toks != []
    ensures Agrees(t, toks, 0) <==> Fits(t, toks[0])
  {
    assert toks[..0] == [] && At(t, []) == Some(t);
  }

  lemma AgreesBelow(t: Trie, toks: seq<Token>, i: nat)
    requires Keyed(t) && 0 < i < |toks| && Fits(t, toks[0])
    ensures Agrees(t, toks, i) <==> Agrees(Descend(t, toks[0]), toks[1..], i - 1)
  {
    KeyedDescend(t, toks[0]);
    assert toks[..i] == [toks[0]] + toks[1..][..i - 1];
  }

  lemma AllAgreeBelow(t: Trie, toks: seq<Token>)
    requires Keyed(t) && toks != [] && AllAgree(t, toks)
    ensures Fits(t, toks[0]) && AllAgree(Descend(t, toks[0]), toks[1..])
  {
    AgreesHere(t, toks);
    forall i | 0 <= i < |toks[1..]| ensures Agrees(Descend(t, toks[0]), toks[1..], i) { AgreesBelow(t, toks, i + 1); }
  }

  /** Inserting along a nonempty path replaces one child and leaves the others. */
  lemma InsertStep(t: Trie, toks: seq<Token>, r: Rule)
    requires toks != [] && Insert(t, toks, r).Some?
    requires Fits(t, toks[0]) && KeyedNode(t)
    ensures Insert(Descend(t, toks[0]), toks[1..], r).Some?
    ensures var t' := Insert(t, toks, r).value;
            && Below(t', toks[0]) == Insert(Descend(t, toks[0]), toks[1..], r)
            && (forall tok :: tok != toks[0] ==> Below(t', tok) == Below(t, tok))
            && t'.users == t.users && t'.groups == t.groups && t'.rule == t.rule
            && t'.key == (if toks[0].Key? then toks[0].k else t.key)
            && KeyedNode(t')
  {
  }

  /** Recording a rule at a node leaves everything below it alone. */
  lemma InsertLeafBelow(t: Trie, r: Rule, pat: seq<Token>)
    requires InsertLeaf(t, r).Some? && pat != []
    ensures At(InsertLeaf(t, r).value, pat) == At(t, pat)
  {
  }

  /** An insertion is felt along the rule's path only: at every prefix of it the node becomes
      the one with the rest of the path inserted. */
  lemma {:induction false} InsertAt(t: Trie, toks: seq<Token>, r: Rule, pat: seq<Token>)
    requires Insert(t, toks, r).Some? && AllAgree(t, toks) && Keyed(t)
    ensures pat <= toks ==> At(Insert(t, toks, r).value, pat) == Insert(AtOrEmpty(t, pat), toks[|pat|..], r)
    ensures pat <= toks ==> At(Insert(t, toks, r).value, pat).Some?
    ensures !(pat <= toks) ==> At(Insert(t, toks, r).value, pat) == At(t, pat)
    decreases |toks|
  {
    var t' := Insert(t, toks, r).value;
    if pat == [] {
      assert toks[0..] == toks;
    } else if toks == [] {
      InsertLeafBelow(t, r, pat);
    } else {
      assert At(t, []) == Some(t);
      assert KeyedNode(t);
      AgreesHere(t, toks);
      InsertStep(t, toks, r);
      assert pat == [pat[0]] + pat[1..];
      AtBelow(t', pat[0]);
      AtBelow(t, pat[0]);
      if pat[0] == toks[0] {
        KeyedDescend(t, toks[0]);
        AllAgreeBelow(t, toks);
        InsertAt(Descend(t, toks[0]), toks[1..], r, pat[1..]);
        assert At(t', pat) == At(Below(t', toks[0]).value, pat[1..]);
        InsertAtShift(t, toks, pat);
      }
    }
  }

  lemma InsertAtShift(t: Trie, toks: seq<Token>, pat: seq<Token>)
    requires toks != [] && pat != [] && pat[0] == toks[0] && Keyed(t)
    requires Fits(t, toks[0])
    ensures pat <= toks <==> pat[1..] <= toks[1..]
    ensures pat <= toks ==> toks[|pat|..] == toks[1..][|pat[1..]|..]
    ensures AtOrEmpty(t, pat) == AtOrEmpty(Descend(t, toks[0]), pat[1..])
    ensures Below(t, toks[0]).Some? ==> At(t, pat) == At(Descend(t, toks[0]), pat[1..])
    ensures Below(t, toks[0]).None? ==> At(t, pat) == None && Descend(t, toks[0]) == EMPTY
    ensures Below(t, toks[0]).None? && !(pat <= toks) ==> At(Descend(t, toks[0]), pat[1..]) == None
  {
    KeyedDescend(t, toks[0]);
    AtBelow(t, toks[0]);
    assert At(t, []) == Some(t);
    assert KeyedNode(t);
    assert pat == [toks[0]] + pat[1..] && toks == [toks[0]] + toks[1..];
    if Below(t, toks[0]).None? { EmptyAt(pat[1..]); }
  }

  /** Inserting a rule changes one permission: its principal's at the end of its path. */
  lemma InsertPermAt(t: Trie, toks: seq<Token>, r: Rule, pat: seq<Token>, who: Principal)
    requires Insert(t, toks, r).Some? && AllAgree(t, toks) && Keyed(t) && who != NoPrincipal
    ensures PermAt(Insert(t, toks, r).value, pat, who) ==
            if pat == toks && who == r.principal then Update(PermAt(t, pat, who), r) else PermAt(t, pat, who)
  {
    InsertAt(t, toks, r, pat);
    if pat <= toks {
      var rest := toks[|pat|..];
      assert rest == [] <==> pat == toks;
      assert KeyedNode(AtOrEmpty(t, pat));
      if rest != [] {
        assert toks[..|pat|] == pat && Agrees(t, toks, |pat|);
        InsertStep(AtOrEmpty(t, pat), rest, r);
      }
    }
  }

  /** The key in use at a node, if it has children by key value. */
  ghost function KeyAt(t: Trie, pat: seq<Token>): Option<string> {
    match At(t, pat) case Some(n) => if n.keyNext == map[] then None else Some(n.key) case None => None
  }

  /** Inserting a rule puts its keys into use along its path, and no others. */
  lemma InsertKeyAt(t: Trie, toks: seq<Token>, r: Rule, pat: seq<Token>)
    requires Insert(t, toks, r).Some? && AllAgree(t, toks) && Keyed(t)
    ensures KeyAt(Insert(t, toks, r).value, pat) ==
            if |pat| < |toks| && toks[..|pat|] == pat && toks[|pat|].Key? then Some(toks[|pat|].k) else KeyAt(t, pat)
  {
    InsertAt(t, toks, r, pat);
    if pat <= toks {
      var rest := toks[|pat|..];
      assert KeyedNode(AtOrEmpty(t, pat));
      if rest != [] {
        assert toks[..|pat|] == pat && Agrees(t, toks, |pat|);
        assert rest[0] == toks[|pat|];
        InsertStep(AtOrEmpty(t, pat), rest, r);
        InsertUses(AtOrEmpty(t, pat), rest, r);
      }
    }
  }

  lemma InsertUses(t: Trie, toks: seq<Token>, r: Rule)
    requires toks != [] && Insert(t, toks, r).Some?
    ensures if toks[0].Key? then toks[0].v in Insert(t, toks, r).value.keyNext else Insert(t, toks, r).value.keyNext == t.keyNext
  {
  }

  lemma InsertKeepsKeyed(t: Trie, toks: seq<Token>, r: Rule)
    requires Insert(t, toks, r).Some? && AllAgree(t, toks) && Keyed(t)
    ensures Keyed(Insert(t, toks, r).value)
  {
    var t' := Insert(t, toks, r).value;
    forall pat | At(t', pat).Some? ensures KeyedNode(At(t', pat).value) {
      InsertAt(t, toks, r, pat);
      if pat <= toks {
        var rest := toks[|pat|..];
        assert KeyedNode(AtOrEmpty(t, pat));
        if rest != [] {
          assert toks[..|pat|] == pat && Agrees(t, toks, |pat|);
          InsertStep(AtOrEmpty(t, pat), rest, r);
        }
      }
    }
  }

  /** At the end of its path a rule leaves its own text, elsewhere the text stays. */
  lemma InsertLabels(t: Trie, toks: seq<Token>, r: Rule, pat: seq<Token>)
    requires Insert(t, toks, r).Some? && AllAgree(t, toks) && Keyed(t) && pat <= toks
    ensures At(Insert(t, toks, r).value, pat).Some?
    ensures var n, n' := AtOrEmpty(t, pat), At(Insert(t, toks, r).value, pat).value;
            if pat == toks then n'.rule == PrintPath(r.path)
            else n'.rule == n.rule && n'.users == n.users && n'.groups == n.groups
  {
    InsertAt(t, toks, r, pat);
    var rest := toks[|pat|..];
    assert rest == [] <==> pat == toks;
    assert KeyedNode(AtOrEmpty(t, pat));
    if rest != [] {
      assert toks[..|pat|] == pat && Agrees(t, toks, |pat|);
      InsertStep(AtOrEmpty(t, pat), rest, r);
    }
  }

  lemma InsertKeepsLabelled(t: Trie, r: Rule)
    requires Insert(t, Tokens(r.path), r).Some? && AllAgree(t, Tokens(r.path)) && Keyed(t) && Labelled(t)
    ensures Labelled(Insert(t, Tokens(r.path), r).value)
  {
    var toks := Tokens(r.path);
    var t' := Insert(t, toks, r).value;
    forall pat | At(t', pat).Some? ensures LabelledNode(At(t', pat).value, pat) {
      if pat <= toks {
        InsertLabels(t, toks, r, pat);
        assert LabelledNode(AtOrEmpty(t, pat), pat);
        assert pat == toks ==> Text(PrintPath(r.path), pat);
      } else {
        InsertAt(t, toks, r, pat);
      }
    }
  }

  /** A rule with a principal whose keys agree with those in use is inserted. */
  lemma {:induction false} InsertSucceeds(t: Trie, toks: seq<Token>, r: Rule)
    requires Keyed(t) && AllAgree(t, toks)
    ensures Insert(t, toks, r).Some? <==> r.principal != NoPrincipal
    decreases |toks|
  {
    if toks != [] {
      assert At(t, []) == Some(t);
      assert KeyedNode(t);
      AllAgreeBelow(t, toks);
      KeyedDescend(t, toks[0]);
      InsertSucceeds(Descend(t, toks[0]), toks[1..], r);
    }
  }

  // ---------- The tree of a rule list ----------

  lemma LastRule(rules: seq<Rule>)
    requires rules != [] && Consistent(rules)
    ensures Consistent(rules[..|rules| - 1])
    ensures forall r :: r in rules <==> r in rules[..|rules| - 1] || r == rules[|rules| - 1]
  {
    assert rules == rules[..|rules| - 1] + [rules[|rules| - 1]];
  }

  /** The tree of a consistent list: which keys are in use at each place of it. */
  ghost predicate KeysInUse(t: Trie, rules: seq<Rule>) {
    forall pat :: match KeyAt(t, pat)
                  case Some(k) => exists r :: r in rules && KeysAt(r, pat, k)
                  case None => forall r, l :: r in rules ==> !KeysAt(r, pat, l)
  }

  /** A consistent rule agrees with the keys in use. */
  lemma RuleAgrees(t: Trie, init: seq<Rule>, last: Rule, rules: seq<Rule>)
    requires Consistent(rules) && forall r :: r in rules <==> r in init || r == last
    requires KeysInUse(t, init)
    ensures AllAgree(t, Tokens(last.path))
  {
    var toks := Tokens(last.path);
    forall i | 0 <= i < |toks| ensures Agrees(t, toks, i) {
      var pat := toks[..i];
      if toks[i].Key? && KeyAt(t, pat).Some? {
        var k := KeyAt(t, pat).value;
        var r :| r in init && KeysAt(r, pat, k);
        assert r in rules && last in rules && KeysAt(last, pat, toks[i].k);
      }
    }
  }

  lemma InsertKeepsKeys(t: Trie, init: seq<Rule>, last: Rule, rules: seq<Rule>)
    requires forall r :: r in rules <==> r in init || r == last
    requires KeysInUse(t, init) && Keyed(t) && AllAgree(t, Tokens(last.path)) && Insert(t, Tokens(last.path), last).Some?
    ensures KeysInUse(Insert(t, Tokens(last.path), last).value, rules)
  {
    var toks := Tokens(last.path);
    var t' := Insert(t, toks, last).value;
    forall pat
      ensures match KeyAt(t', pat)
              case Some(k) => exists r :: r in rules && KeysAt(r, pat, k)
              case None => forall r, l :: r in rules ==> !KeysAt(r, pat, l)
    {
      InsertKeyAt(t, toks, last, pat);
      if |pat| < |toks| && toks[..|pat|] == pat && toks[|pat|].Key? {
        assert last in rules && KeysAt(last, pat, toks[|pat|].k);
      } else if KeyAt(t, pat).Some? {
        var r :| r in init && KeysAt(r, pat, KeyAt(t, pat).value);
        assert r in rules;
      }
    }
  }

  lemma {:induction false} BuildForm(rules: seq<Rule>)
    requires Consistent(rules) && Build(rules).Some?
    ensures Keyed(Build(rules).value) && Labelled(Build(rules).value) && KeysInUse(Build(rules).value, rules)
  {
    if rules == [] {
      EmptyKeyed();
      forall pat ensures KeyAt(EMPTY, pat) == None { EmptyAt(pat); }
    } else {
      var init, last := rules[..|rules| - 1], rules[|rules| - 1];
      LastRule(rules);
      BuildForm(init);
      var t := Build(init).value;
      RuleAgrees(t, init, last, rules);
      InsertKeepsKeyed(t, Tokens(last.path), last);
      InsertKeepsLabelled(t, last);
      InsertKeepsKeys(t, init, last, rules);
    }
  }

  lemma SomeRuleLast(init: seq<Rule>, last: Rule, rules: seq<Rule>, pat: seq<Token>, who: Principal, mode: Mode, a: Action)
    requires forall r :: r in rules <==> r in init || r == last
    ensures SomeRule(rules, pat, who, mode, a) <==> SomeRule(init, pat, who, mode, a) || Configures(last, pat, who, mode, a)
  {
    if SomeRule(rules, pat, who, mode, a) { var r :| r in rules && Configures(r, pat, who, mode, a); }
    if SomeRule(init, pat, who, mode, a) { var r :| r in init && Configures(r, pat, who, mode, a); assert r in rules; }
  }

  ghost predicate RuleWithId(rules: seq<Rule>, pat: seq<Token>, who: Principal, mode: Mode, a: Action, id: string) {
    exists r :: r in rules && r.id == id && Configures(r, pat, who, mode, a)
  }

  lemma UpdateSlot(p: Permission, r: Rule, mode: Mode)
    ensures Slot(Update(p, r), mode) ==
            if Declared(mode) && r.mode == mode && r.action != Unspecified && Slot(p, mode).action != Deny
            then RuleAction(r.id, r.action) else Slot(p, mode)
  {
  }

  ghost predicate Reflects(slot: RuleAction, rules: seq<Rule>, pat: seq<Token>, who: Principal, mode: Mode) {
    && slot.action == FlatAction(rules, pat, who, mode)
    && (slot.action != Unspecified ==> RuleWithId(rules, pat, who, mode, slot.action, slot.ruleId))
  }

  lemma ReflectsMore(slot: RuleAction, init: seq<Rule>, last: Rule, rules: seq<Rule>, pat: seq<Token>, who: Principal, mode: Mode)
    requires forall r :: r in rules <==> r in init || r == last
    requires Reflects(slot, init, pat, who, mode)
    requires !(Tokens(last.path) == pat && last.principal == who && last.mode == mode && last.action != Unspecified && slot.action != Deny)
    ensures Reflects(slot, rules, pat, who, mode)
  {
    SomeRuleLast(init, last, rules, pat, who, mode, Deny);
    SomeRuleLast(init, last, rules, pat, who, mode, Permit);
    if slot.action != Unspecified {
      var r :| r in init && r.id == slot.ruleId && Configures(r, pat, who, mode, slot.action);
      assert r in rules;
    }
  }

  lemma ReflectsLast(slot: RuleAction, init: seq<Rule>, last: Rule, rules: seq<Rule>, pat: seq<Token>, who: Principal, mode: Mode)
    requires forall r :: r in rules <==> r in init || r == last
    requires Reflects(slot, init, pat, who, mode)
    requires Tokens(last.path) == pat && last.principal == who && last.mode == mode && last.action != Unspecified && slot.action != Deny
    requires Declared(mode)
    ensures Reflects(RuleAction(last.id, last.action), rules, pat, who, mode)
  {
    SomeRuleLast(init, last, rules, pat, who, mode, Deny);
    SomeRuleLast(init, last, rules, pat, who, mode, Permit);
    assert last in rules && Configures(last, pat, who, mode, last.action);
  }

  /** The tree stores for every path, principal and mode what the rules for it say, with the
      identifier of such a rule. */
  lemma {:induction false} BuildActions(rules: seq<Rule>, pat: seq<Token>, who: Principal, mode: Mode)
    requires Consistent(rules) && Build(rules).Some? && who != NoPrincipal
    ensures Reflects(Slot(PermAt(Build(rules).value, pat, who), mode), rules, pat, who, mode)
  {
    if rules == [] {
      EmptyAt(pat);
    } else {
      var init, last := rules[..|rules| - 1], rules[|rules| - 1];
      LastRule(rules);
      BuildForm(init);
      RuleAgrees(Build(init).value, init, last, rules);
      BuildActions(init, pat, who, mode);
      InsertPermAt(Build(init).value, Tokens(last.path), last, pat, who);
      var before := PermAt(Build(init).value, pat, who);
      UpdateSlot(before, last, mode);
      if Declared(mode) && Tokens(last.path) == pat && last.principal == who && last.mode == mode
         && last.action != Unspecified && Slot(before, mode).action != Deny {
        ReflectsLast(Slot(before, mode), init, last, rules, pat, who, mode);
      } else if Declared(mode) {
        ReflectsMore(Slot(before, mode), init, last, rules, pat, who, mode);
      }
    }
  }

  lemma ConsistentSubset(rules: seq<Rule>, more: seq<Rule>)
    requires Consistent(more) && forall r :: r in rules ==> r in more
    ensures Consistent(rules)
  {
  }

  /** A consistent list is accepted exactly when all its rules have a principal. */
  lemma {:induction false} BuildSucceeds(rules: seq<Rule>)
    requires Consistent(rules)
    ensures Build(rules).Some? <==> forall r :: r in rules ==> r.principal != NoPrincipal
  {
    if rules != [] {
      var init, last := rules[..|rules| - 1], rules[|rules| - 1];
      LastRule(rules);
      BuildSucceeds(init);
      if Build(init).Some? {
        BuildForm(init);
        RuleAgrees(Build(init).value, init, last, rules);
        InsertSucceeds(Build(init).value, Tokens(last.path), last);
      }
    }
  }

  /** Every rule of a consistent list is found at its own path. */
  lemma {:induction false} BuildPlaces(rules: seq<Rule>, r: Rule)
    requires Consistent(rules) && Build(rules).Some? && r in rules
    ensures At(Build(rules).value, Tokens(r.path)).Some?
  {
    var init, last := rules[..|rules| - 1], rules[|rules| - 1];
    LastRule(rules);
    BuildForm(init);
    RuleAgrees(Build(init).value, init, last, rules);
    InsertAt(Build(init).value, Tokens(last.path), last, Tokens(r.path));
    if r != last { BuildPlaces(init, r); }
  }
}
