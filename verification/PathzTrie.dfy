/** The policy tree as a value: how inserting a rule changes it, how a request walks it,
    and what both mean for the permission stored at each token sequence. */
module PathzTrie {
  import opened Options
  import opened PathzPolicy

  datatype RuleAction = RuleAction(ruleId: string, action: Action)

  datatype Permission = Permission(read: RuleAction, write: RuleAction)

  const NO_PERMISSION := Permission(RuleAction("", Unspecified), RuleAction("", Unspecified))

  datatype Trie = Trie(
    users: map<string, Permission>,
    groups: map<string, Permission>,
    rule: string,
    nameNext: map<string, Trie>,
    key: string,
    keyNext: map<string, Trie>)

  const EMPTY := Trie(map[], map[], "", map[], "", map[])

  type Membership = map<string, set<string>>

  function Slot(p: Permission, mode: Mode): RuleAction {
    match mode
    case Read => p.read
    case Write => p.write
    case _ => RuleAction("", Unspecified)
  }

  /** A deny is never overwritten; an unspecified action or mode changes nothing. */
  function UpdatePermission(p: Permission, a: Action, m: Mode, id: string): Permission {
    if a == Unspecified then p
    else match m
      case Read => if p.read.action == Deny then p else p.(read := RuleAction(id, a))
      case Write => if p.write.action == Deny then p else p.(write := RuleAction(id, a))
      case _ => p
  }

  function PermissionFor(m: map<string, Permission>, who: string): Permission {
    if who in m then m[who] else NO_PERMISSION
  }

  function Update(p: Permission, r: Rule): Permission {
    UpdatePermission(p, r.action, r.mode, r.id)
  }

  /** Records a rule at the node its path ends in. */
  ghost function InsertLeaf(t: Trie, r: Rule): Option<Trie> {
    var t' := t.(rule := PrintPath(r.path));
    match r.principal
    case User(u) => Some(t'.(users := t.users[u := Update(PermissionFor(t.users, u), r)]))
    case Group(g) => Some(t'.(groups := t.groups[g := Update(PermissionFor(t.groups, g), r)]))
    case NoPrincipal => None
  }

  function Child(m: map<string, Trie>, x: string): Trie {
    if x in m then m[x] else EMPTY
  }

  /** Inserts `r` below `t` along `toks`; fails on a key name that differs from the one
      already configured at a node, and on a rule without a principal. */
  ghost function Insert(t: Trie, toks: seq<Token>, r: Rule): Option<Trie>
    decreases |toks|
  {
    if toks == [] then InsertLeaf(t, r)
    else match toks[0]
      case Name(n) =>
        (match Insert(Child(t.nameNext, n), toks[1..], r)
         case Some(c) => Some(t.(nameNext := t.nameNext[n := c]))
         case None => None)
      case Key(k, v) =>
        if t.key != "" && t.key != k then None
        else
          match Insert(Child(t.keyNext, v), toks[1..], r)
          case Some(c) => Some(t.(key := k, keyNext := t.keyNext[v := c]))
          case None => None
  }

  /** The tree of a rule list, inserted in order. */
  ghost function Build(rules: seq<Rule>): Option<Trie> {
    if rules == [] then Some(EMPTY)
    else
      match Build(rules[..|rules| - 1])
      case None => None
      case Some(t) => Insert(t, Tokens(rules[|rules| - 1].path), rules[|rules| - 1])
  }

  /** What loading a rule list yields: an empty list is refused. */
  ghost function CreatePolicies(rules: seq<Rule>): Option<Trie> {
    if rules == [] then None else Build(rules)
  }

  // ---------- Walking ----------

  predicate Member(groups: Membership, g: string, user: string) {
    g in groups && user in groups[g]
  }

  function UserAction(t: Trie, user: string, mode: Mode): Action {
    Slot(PermissionFor(t.users, user), mode).action
  }

  /** Some group of the user has action `a` at this node. */
  ghost predicate SomeGroup(t: Trie, user: string, mode: Mode, groups: Membership, a: Action) {
    exists g :: g in t.groups && Member(groups, g, user) && Slot(t.groups[g], mode).action == a
  }

  ghost function GroupAction(t: Trie, user: string, mode: Mode, groups: Membership): Action {
    if SomeGroup(t, user, mode, groups, Deny) then Deny
    else if SomeGroup(t, user, mode, groups, Permit) then Permit
    else Unspecified
  }

  /** The decision taken at one node: the user's own rules first, then those of all groups. */
  ghost function Own(t: Trie, user: string, mode: Mode, groups: Membership): Action {
    if UserAction(t, user, mode) != Unspecified then UserAction(t, user, mode)
    else GroupAction(t, user, mode, groups)
  }

  /** `id` is the identifier stored with a permission behind that decision. */
  ghost predicate OwnId(t: Trie, user: string, mode: Mode, groups: Membership, id: string) {
    var a := Own(t, user, mode, groups);
    || Slot(PermissionFor(t.users, user), mode) == RuleAction(id, a)
    || exists g :: g in t.groups && Member(groups, g, user) && Slot(t.groups[g], mode) == RuleAction(id, a)
  }

  /** The node whose decision the walk of `req` returns, if any: below an exact key value
      first, then below the wildcard, then the node itself. */
  ghost function Walk(t: Trie, req: seq<Token>, user: string, mode: Mode, groups: Membership): Option<Trie>
    decreases |req|
  {
    var own := if Own(t, user, mode, groups) != Unspecified then Some(t) else None;
    if req == [] then own
    else match req[0]
      case Name(n) =>
        if n !in t.nameNext then own
        else
          var r := Walk(t.nameNext[n], req[1..], user, mode, groups);
          if r.Some? then r else own
      case Key(k, v) =>
        if k != t.key then own
        else
          var exact := if v in t.keyNext then Walk(t.keyNext[v], req[1..], user, mode, groups) else None;
          if exact.Some? then exact
          else
            var wild := if WILDCARD in t.keyNext then Walk(t.keyNext[WILDCARD], req[1..], user, mode, groups) else None;
            if wild.Some? then wild else own
  }

  // ---------- Looking nodes up by token sequence ----------

  ghost function At(t: Trie, pat: seq<Token>): Option<Trie>
    decreases |pat|
  {
    if pat == [] then Some(t)
    else match pat[0]
      case Name(n) => if n in t.nameNext then At(t.nameNext[n], pat[1..]) else None
      case Key(k, v) => if t.key == k && v in t.keyNext then At(t.keyNext[v], pat[1..]) else None
  }

  ghost function Decision(t: Trie, pat: seq<Token>, user: string, mode: Mode, groups: Membership): Action {
    match At(t, pat)
    case Some(n) => Own(n, user, mode, groups)
    case None => Unspecified
  }

  /** A rule token covers a request token: equal, or the wildcard value of the same key. */
  predicate Covers(p: Token, q: Token) {
    p == q || (p.Key? && q.Key? && p.k == q.k && p.v == WILDCARD)
  }

  /** A rule path covers a prefix of the request. */
  predicate Matches(pat: seq<Token>, req: seq<Token>) {
    |pat| <= |req| && forall i :: 0 <= i < |pat| ==> Covers(pat[i], req[i])
  }

  /** `p` and `q` agree before `i`; there `q` has ended, or `p` goes on with the request's
      own token and `q` with the wildcard. */
  predicate PartsAt(p: seq<Token>, q: seq<Token>, req: seq<Token>, i: nat) {
    && i <= |p| && i <= |q|
    && (forall j :: 0 <= j < i ==> p[j] == q[j])
    && (i == |q| || (i < |p| && i < |req| && p[i] == req[i] && q[i] != req[i]))
  }

  /** At the first place where two matching rule paths part, `p` is the exact one and `q`
      the wildcard, or `q` has ended. */
  ghost predicate Preferred(p: seq<Token>, q: seq<Token>, req: seq<Token>) {
    exists i: nat :: PartsAt(p, q, req, i)
  }

  lemma MatchesTail(pat: seq<Token>, req: seq<Token>)
    requires pat != [] && req != []
    ensures Matches(pat, req) <==> Covers(pat[0], req[0]) && Matches(pat[1..], req[1..])
  {
    if Covers(pat[0], req[0]) && Matches(pat[1..], req[1..]) {
      forall i | 0 <= i < |pat| ensures Covers(pat[i], req[i]) {
        if i > 0 { assert pat[i] == pat[1..][i - 1] && req[i] == req[1..][i - 1]; }
      }
    }
    if Matches(pat, req) {
      forall i | 0 <= i < |pat[1..]| ensures Covers(pat[1..][i], req[1..][i]) {
        assert Covers(pat[i + 1], req[i + 1]);
      }
    }
  }

  lemma PreferredSame(p: seq<Token>, q: seq<Token>, req: seq<Token>)
    requires p != [] && q != [] && req != [] && p[0] == q[0]
    requires Preferred(p[1..], q[1..], req[1..])
    ensures Preferred(p, q, req)
  {
    var i: nat :| PartsAt(p[1..], q[1..], req[1..], i);
    forall j | 0 <= j < i + 1 ensures p[j] == q[j] {
      if j > 0 { assert p[1..][j - 1] == q[1..][j - 1]; }
    }
    assert PartsAt(p, q, req, i + 1);
  }

  ghost predicate Candidate(t: Trie, req: seq<Token>, user: string, mode: Mode, groups: Membership, q: seq<Token>) {
    Matches(q, req) && Decision(t, q, user, mode, groups) != Unspecified
  }

  /** `p` is a candidate preferred to every other candidate. */
  ghost predicate Best(t: Trie, req: seq<Token>, user: string, mode: Mode, groups: Membership, p: seq<Token>) {
    && Candidate(t, req, user, mode, groups, p)
    && forall q :: Candidate(t, req, user, mode, groups, q) ==> Preferred(p, q, req)
  }

  /** A request with a given first token: the candidates below one child. */
  lemma BestBelow(t: Trie, c: Trie, tok: Token, req: seq<Token>, user: string, mode: Mode, groups: Membership, p: seq<Token>)
    requires req != [] && Covers(tok, req[0])
    requires forall pat :: At(t, [tok] + pat) == At(c, pat)
    requires Best(c, req[1..], user, mode, groups, p)
    ensures Candidate(t, req, user, mode, groups, [tok] + p)
    ensures forall q :: Candidate(t, req, user, mode, groups, q) && q != [] && q[0] == tok ==> Preferred([tok] + p, q, req)
    ensures At(t, [tok] + p) == At(c, p)
  {
    MatchesTail([tok] + p, req);
    assert ([tok] + p)[1..] == p;
    forall q | Candidate(t, req, user, mode, groups, q) && q != [] && q[0] == tok
      ensures Preferred([tok] + p, q, req)
    {
      MatchesTail(q, req);
      assert q == [tok] + q[1..];
      assert At(t, [tok] + q[1..]) == At(c, q[1..]);
      assert Candidate(c, req[1..], user, mode, groups, q[1..]);
      PreferredSame([tok] + p, q, req);
    }
  }

  /** No candidate starts with `tok` when its child has none. */
  lemma NoneBelow(t: Trie, c: Option<Trie>, tok: Token, req: seq<Token>, user: string, mode: Mode, groups: Membership, q: seq<Token>)
    requires req != [] && q != [] && q[0] == tok
    requires forall pat :: At(t, [tok] + pat) == if c.Some? then At(c.value, pat) else None
    requires c.Some? ==> forall p :: !Candidate(c.value, req[1..], user, mode, groups, p)
    ensures !Candidate(t, req, user, mode, groups, q)
  {
    assert q == [tok] + q[1..];
    assert At(t, [tok] + q[1..]) == if c.Some? then At(c.value, q[1..]) else None;
    MatchesTail(q, req);
    if c.Some? { assert !Candidate(c.value, req[1..], user, mode, groups, q[1..]); }
  }

  ghost function Below(t: Trie, tok: Token): Option<Trie> {
    match tok
    case Name(n) => if n in t.nameNext then Some(t.nameNext[n]) else None
    case Key(k, v) => if t.key == k && v in t.keyNext then Some(t.keyNext[v]) else None
  }

  lemma AtBelow(t: Trie, tok: Token)
    ensures forall pat :: At(t, [tok] + pat) == if Below(t, tok).Some? then At(Below(t, tok).value, pat) else None
  {
    forall pat ensures At(t, [tok] + pat) == if Below(t, tok).Some? then At(Below(t, tok).value, pat) else None {
      assert ([tok] + pat)[1..] == pat;
    }
  }

  lemma NoneStartingWith(t: Trie, tok: Token, req: seq<Token>, user: string, mode: Mode, groups: Membership)
    requires req != []
    requires Below(t, tok).Some? ==> forall p :: !Candidate(Below(t, tok).value, req[1..], user, mode, groups, p)
    ensures forall q :: q != [] && q[0] == tok ==> !Candidate(t, req, user, mode, groups, q)
  {
    AtBelow(t, tok);
    forall q | q != [] && q[0] == tok ensures !Candidate(t, req, user, mode, groups, q) {
      NoneBelow(t, Below(t, tok), tok, req, user, mode, groups, q);
    }
  }

  /** The walk finds the best candidate, and finds nothing only when there is none. */
  lemma {:induction false} WalkFindsBest(t: Trie, req: seq<Token>, user: string, mode: Mode, groups: Membership) returns (p: seq<Token>)
    ensures Walk(t, req, user, mode, groups).None? ==> forall q :: !Candidate(t, req, user, mode, groups, q)
    ensures Walk(t, req, user, mode, groups).Some? ==>
              && Best(t, req, user, mode, groups, p)
              && At(t, p) == Walk(t, req, user, mode, groups)
    decreases |req|
  {
    if req == [] {
      p := [];
      OwnIsBest(t, req, user, mode, groups);
    } else {
      match req[0]
      case Name(n) =>
        p := WalkName(t, req, user, mode, groups);
      case Key(k, v) =>
        if k != t.key {
          p := [];
          OwnIsBest(t, req, user, mode, groups);
        } else {
          p := WalkKey(t, req, user, mode, groups);
        }
    }
  }

  /** The empty pattern loses to everything, and wins when nothing else is a candidate. */
  lemma OwnIsBest(t: Trie, req: seq<Token>, user: string, mode: Mode, groups: Membership)
    requires req == [] || (req[0].Key? && req[0].k != t.key)
             || forall q :: q != [] ==> !Candidate(t, req, user, mode, groups, q)
    ensures Own(t, user, mode, groups) != Unspecified ==> Best(t, req, user, mode, groups, [])
    ensures Own(t, user, mode, groups) == Unspecified ==> forall q :: !Candidate(t, req, user, mode, groups, q)
  {
    assert Decision(t, [], user, mode, groups) == Own(t, user, mode, groups);
    forall q | q != [] ensures !Candidate(t, req, user, mode, groups, q) {
      if Matches(q, req) { assert Covers(q[0], req[0]); }
    }
    PreferredToEmpty([], req);
  }

  lemma PreferredToEmpty(p: seq<Token>, req: seq<Token>)
    ensures Matches([], req) && Preferred(p, [], req)
  {
    assert PartsAt(p, [], req, 0);
  }

  lemma {:induction false} WalkName(t: Trie, req: seq<Token>, user: string, mode: Mode, groups: Membership) returns (p: seq<Token>)
    requires req != [] && req[0].Name?
    ensures Walk(t, req, user, mode, groups).None? ==> forall q :: !Candidate(t, req, user, mode, groups, q)
    ensures Walk(t, req, user, mode, groups).Some? ==>
              && Best(t, req, user, mode, groups, p)
              && At(t, p) == Walk(t, req, user, mode, groups)
    decreases |req|, 0
  {
    var tok := req[0];
    var c := Below(t, tok);
    p := [];
    if c.Some? {
      var p' := WalkFindsBest(c.value, req[1..], user, mode, groups);
      if Walk(c.value, req[1..], user, mode, groups).Some? {
        ExactWins(t, c.value, req, user, mode, groups, p');
        p := [tok] + p';
        return;
      }
    }
    NoneStartingWith(t, tok, req, user, mode, groups);
    NothingBelow(t, req, user, mode, groups);
    OwnIsBest(t, req, user, mode, groups);
  }

  /** A best candidate below the exact value is best overall. */
  lemma ExactWins(t: Trie, c: Trie, req: seq<Token>, user: string, mode: Mode, groups: Membership, p: seq<Token>)
    requires req != [] && Below(t, req[0]) == Some(c)
    requires Best(c, req[1..], user, mode, groups, p)
    ensures Best(t, req, user, mode, groups, [req[0]] + p)
    ensures At(t, [req[0]] + p) == At(c, p)
  {
    AtBelow(t, req[0]);
    BestBelow(t, c, req[0], req, user, mode, groups, p);
    var p' := [req[0]] + p;
    forall q | Candidate(t, req, user, mode, groups, q) ensures Preferred(p', q, req) {
      if q == [] {
        PreferredToEmpty(p', req);
      } else if q[0] != req[0] {
        assert PartsAt(p', q, req, 0);
      }
    }
  }

  /** A best candidate below the wildcard is best when none is below the exact value. */
  lemma WildcardWins(t: Trie, w: Trie, req: seq<Token>, user: string, mode: Mode, groups: Membership, p: seq<Token>)
    requires req != [] && req[0].Key? && Below(t, Key(req[0].k, WILDCARD)) == Some(w)
    requires Best(w, req[1..], user, mode, groups, p)
    requires forall q :: q != [] && q[0] == req[0] ==> !Candidate(t, req, user, mode, groups, q)
    ensures Best(t, req, user, mode, groups, [Key(req[0].k, WILDCARD)] + p)
    ensures At(t, [Key(req[0].k, WILDCARD)] + p) == At(w, p)
  {
    var star := Key(req[0].k, WILDCARD);
    AtBelow(t, star);
    BestBelow(t, w, star, req, user, mode, groups, p);
    var p' := [star] + p;
    forall q | Candidate(t, req, user, mode, groups, q) ensures Preferred(p', q, req) {
      if q == [] {
        PreferredToEmpty(p', req);
      } else {
        assert Covers(q[0], req[0]);
      }
    }
  }

  lemma NothingBelow(t: Trie, req: seq<Token>, user: string, mode: Mode, groups: Membership)
    requires req != []
    requires forall q :: q != [] && q[0] == req[0] ==> !Candidate(t, req, user, mode, groups, q)
    requires req[0].Key? ==>
               forall q :: q != [] && q[0] == Key(req[0].k, WILDCARD) ==> !Candidate(t, req, user, mode, groups, q)
    ensures forall q :: q != [] ==> !Candidate(t, req, user, mode, groups, q)
  {
    forall q | q != [] && Matches(q, req) ensures !Candidate(t, req, user, mode, groups, q) {
      assert Covers(q[0], req[0]);
    }
  }

  lemma {:induction false} WalkKey(t: Trie, req: seq<Token>, user: string, mode: Mode, groups: Membership) returns (p: seq<Token>)
    requires req != [] && req[0].Key? && req[0].k == t.key
    ensures Walk(t, req, user, mode, groups).None? ==> forall q :: !Candidate(t, req, user, mode, groups, q)
    ensures Walk(t, req, user, mode, groups).Some? ==>
              && Best(t, req, user, mode, groups, p)
              && At(t, p) == Walk(t, req, user, mode, groups)
    decreases |req|, 0
  {
    var tok, star := req[0], Key(req[0].k, WILDCARD);
    var c, w := Below(t, tok), Below(t, star);
    p := [];
    if c.Some? {
      var p' := WalkFindsBest(c.value, req[1..], user, mode, groups);
      if Walk(c.value, req[1..], user, mode, groups).Some? {
        ExactWins(t, c.value, req, user, mode, groups, p');
        p := [tok] + p';
        return;
      }
    }
    NoneStartingWith(t, tok, req, user, mode, groups);
    if w.Some? {
      var p' := WalkFindsBest(w.value, req[1..], user, mode, groups);
      if Walk(w.value, req[1..], user, mode, groups).Some? {
        WildcardWins(t, w.value, req, user, mode, groups, p');
        p := [star] + p';
        return;
      }
    }
    NoneStartingWith(t, star, req, user, mode, groups);
    NothingBelow(t, req, user, mode, groups);
    OwnIsBest(t, req, user, mode, groups);
  }
}
