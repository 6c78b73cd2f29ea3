/** The authorization processor: the loaded policy, its tree and its groups. */
module PathzProcessor {
  import opened Options
  import opened PathzPolicy
  import PathzReading
  import opened PathzTrie
  import opened PathzShape
  import opened PathzRules
  import opened PathzDecisions
  import opened PathzAuthorizer

  // ---------- Groups ----------

  function UsersOf(groups: Membership, g: string): set<string> {
    if g in groups then groups[g] else {}
  }

  function Listed(users: seq<string>): set<string> {
    set u | u in users
  }

  ghost function GroupsOf(defs: seq<GroupDef>): Membership {
    if defs == [] then map[]
    else
      var m, d := GroupsOf(defs[..|defs| - 1]), defs[|defs| - 1];
      m[d.name := UsersOf(m, d.name) + Listed(d.users)]
  }

  /** A user belongs to a group exactly when some definition of that name lists the user. */
  lemma {:induction false} MemberIffListed(defs: seq<GroupDef>, g: string, user: string)
    ensures Member(GroupsOf(defs), g, user) <==> exists d :: d in defs && d.name == g && user in d.users
  {
    if defs != [] {
      var init, last := defs[..|defs| - 1], defs[|defs| - 1];
      MemberIffListed(init, g, user);
      assert defs == init + [last];
      if d :| d in init && d.name == g && user in d.users { assert d in defs; }
      assert last in defs;
    }
  }

  method CreateGroups(defs: seq<GroupDef>) returns (groups: Membership)
    ensures groups == GroupsOf(defs)
  {
    groups := map[];
    var i := 0;
    while i < |defs|
      invariant 0 <= i <= |defs|
      invariant groups == GroupsOf(defs[..i])
    {
      var d := defs[i];
      ghost var before := groups;
      if d.name !in groups {
        groups := groups[d.name := {}];
      }
      var j := 0;
      assert Listed(d.users[..0]) == {};
      assert groups[d.name] == UsersOf(before, d.name) + Listed(d.users[..0]);
      while j < |d.users|
        invariant 0 <= j <= |d.users|
        invariant d.name in groups && groups == before[d.name := UsersOf(before, d.name) + Listed(d.users[..j])]
      {
        assert d.users[..j + 1] == d.users[..j] + [d.users[j]];
        assert Listed(d.users[..j + 1]) == Listed(d.users[..j]) + {d.users[j]};
        assert groups[d.name] + {d.users[j]} == UsersOf(before, d.name) + Listed(d.users[..j + 1]);
        groups := groups[d.name := groups[d.name] + {d.users[j]}];
        j := j + 1;
      }
      assert d.users[..j] == d.users;
      assert defs[..i + 1][..i] == defs[..i];
      i := i + 1;
    }
    assert defs[..i] == defs;
  }

  // ---------- Decisions of a policy ----------

  ghost predicate Loadable(p: Option<Policy>) {
    p.Some? && CreatePolicies(p.value.rules).Some?
  }

  /** The action for a request under a loaded policy; none loaded decides nothing. */
  ghost function DecisionUnder(p: Option<Policy>, user: string, path: Path, mode: Mode): Action {
    if Loadable(p) then WalkAction(CreatePolicies(p.value.rules).value, Tokens(path), user, mode, GroupsOf(p.value.groups))
    else Unspecified
  }

  /** The result names a rule of the policy that decides the request, and its path. */
  ghost predicate Explained(r: Result, p: Policy, user: string, path: Path, mode: Mode) {
    exists q ::
      && Decides(p.rules, Tokens(path), user, mode, GroupsOf(p.groups), q)
      && r.action == FlatDecision(p.rules, q, user, mode, GroupsOf(p.groups))
      && Text(r.matchedRule, q)
      && Names(p.rules, q, user, mode, GroupsOf(p.groups), r.action, r.ruleId)
  }

  class Processor {
    var groups: Membership
    var root: Node?
    var policy: Option<Policy>
    ghost var nodes: set<Node>

    /** The tree and the groups are those of the stored policy. */
    ghost predicate Valid()
      reads this, nodes
    {
      match policy
      case None => root == null
      case Some(p) =>
        && CreatePolicies(p.rules).Some? && groups == GroupsOf(p.groups)
        && root != null && root in nodes && root.loc == []
        && Linked(nodes) && Texted(nodes) && Spells(nodes, CreatePolicies(p.rules).value)
    }

    constructor ()
      ensures Valid() && policy == None && fresh(nodes)
    {
      groups, root, policy, nodes := map[], null, None, {};
    }

    /** Replaces the policy, or leaves everything as it is when the new one is refused. */
    method UpdatePolicyFromProto(p: Option<Policy>) returns (ok: bool)
      requires Valid()
      modifies this
      ensures Valid() && fresh(nodes - old(nodes))
      ensures ok <==> Loadable(p)
      ensures policy == if ok then p else old(policy)
      ensures !ok ==> groups == old(groups) && root == old(root) && nodes == old(nodes)
    {
      var newRoot: Node? := null;
      ghost var newNodes: set<Node> := {};
      if p.Some? {
        newRoot, newNodes := LoadPolicies(p.value.rules);
      }
      if newRoot == null {
        return false;
      }
      var newGroups := CreateGroups(p.value.groups);
      root, groups, policy, nodes := newRoot, newGroups, p, newNodes;
      return true;
    }

    /** Authorizes a request; a request without a mode is refused. */
    method Authorize(user: string, path: Path, mode: Mode) returns (r: Option<Result>)
      requires Valid()
      ensures r.None? <==> mode == ModeUnspecified
      ensures r.Some? && r.value.action == Unspecified ==> r.value == Result(Unspecified, "", "")
      ensures r.Some? ==> r.value.action == DecisionUnder(policy, user, path, mode)
      ensures r.Some? && policy.Some? && Consistent(policy.value.rules) ==>
                r.value.action == Verdict(policy.value.rules, Tokens(path), user, mode, GroupsOf(policy.value.groups))
      ensures r.Some? && policy.Some? && Consistent(policy.value.rules) && r.value.action != Unspecified ==>
                Explained(r.value, policy.value, user, path, mode)
    {
      if mode == ModeUnspecified {
        return None;
      }
      if root == null {
        return Some(NO_RESULT);
      }
      ghost var t := CreatePolicies(policy.value.rules).value;
      assert path[0..] == path;
      assert AtLoc(t, []) == Some(t);
      var res := root.Authorize(user, path, mode, 0, [], 0, groups, nodes, t, t);
      Explain(res, policy.value, user, path, mode);
      r := Some(res);
    }

    method AuthorizeWithPrefix(user: string, prefix: Path, path: Path, mode: Mode) returns (r: Option<Result>)
      requires Valid()
      ensures r.None? <==> mode == ModeUnspecified
      ensures r.Some? && r.value.action == Unspecified ==> r.value == Result(Unspecified, "", "")
      ensures r.Some? ==> r.value.action == DecisionUnder(policy, user, prefix + path, mode)
      ensures r.Some? && policy.Some? && Consistent(policy.value.rules) ==>
                r.value.action == Verdict(policy.value.rules, Tokens(prefix + path), user, mode, GroupsOf(policy.value.groups))
      ensures r.Some? && policy.Some? && Consistent(policy.value.rules) && r.value.action != Unspecified ==>
                Explained(r.value, policy.value, user, prefix + path, mode)
    {
      r := Authorize(user, prefix + path, mode);
    }
  }

  lemma Explain(r: Result, p: Policy, user: string, path: Path, mode: Mode)
    requires CreatePolicies(p.rules).Some?
    requires Reports(r, Walk(CreatePolicies(p.rules).value, Tokens(path), user, mode, GroupsOf(p.groups)), user, mode, GroupsOf(p.groups))
    ensures r.action == DecisionUnder(Some(p), user, path, mode)
    ensures Consistent(p.rules) ==> r.action == Verdict(p.rules, Tokens(path), user, mode, GroupsOf(p.groups))
    ensures Consistent(p.rules) && r.action != Unspecified ==> Explained(r, p, user, path, mode)
  {
    if Consistent(p.rules) {
      var groups := GroupsOf(p.groups);
      WalkActionIsVerdict(p.rules, Tokens(path), user, mode, groups);
      var q := WalkIsFlat(p.rules, Tokens(path), user, mode, groups);
    }
  }

  /** Under a policy of one rule, a result is explained exactly when the rule applies and the result
      has its action, its identifier and the text of its path. */
  lemma OneRuleExplained(res: Result, r: Rule, defs: seq<GroupDef>, user: string, path: Path, mode: Mode)
    ensures Explained(res, Policy([r], defs), user, path, mode) <==>
            && Concerns(r, user, mode, GroupsOf(defs)) && BeginsWith(Tokens(path), Tokens(r.path)) && r.action != Unspecified
            && res == Result(r.action, r.id, PrintPath(r.path))
  {
    var groups, req, pat := GroupsOf(defs), Tokens(path), Tokens(r.path);
    OneFlatDecision(r, pat, user, mode, groups);
    OneRuleNamed(r, user, mode, groups, res.ruleId);
    OneRuleText(r, res.matchedRule);
    OneDecides(r, req, user, mode, groups, pat);
    if Explained(res, Policy([r], defs), user, path, mode) {
      var q :| && Decides([r], req, user, mode, groups, q)
               && res.action == FlatDecision([r], q, user, mode, groups)
               && Text(res.matchedRule, q)
               && Names([r], q, user, mode, groups, res.action, res.ruleId);
      OneDecides(r, req, user, mode, groups, q);
    }
  }

  lemma OneRuleText(r: Rule, s: string)
    ensures Text(s, Tokens(r.path)) <==> s == PrintPath(r.path)
  {
    if Text(s, Tokens(r.path)) {
      var p :| Tokens(p) == Tokens(r.path) && s == PrintPath(p);
      PathzReading.TokensInjective(p, r.path);
    }
  }

  lemma OneRuleNamed(r: Rule, user: string, mode: Mode, groups: Membership, id: string)
    ensures Concerns(r, user, mode, groups) ==> (Names([r], Tokens(r.path), user, mode, groups, r.action, id) <==> id == r.id)
  {
    if Concerns(r, user, mode, groups) && id == r.id {
      assert r in [r] && Configures(r, Tokens(r.path), r.principal, mode, r.action);
      assert RuleWithId([r], Tokens(r.path), r.principal, mode, r.action, id);
      if r.principal.Group? { assert Member(groups, r.principal.group, user); }
    }
  }
}
