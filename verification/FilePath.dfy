/** Slash-separated file names: their shortest form, and the place each of them names. */
module FilePath {
  import opened Delimited

  /** A place is the list of names on the way to it from the root. */
  type Place = seq<string>

  predicate Rooted(p: string) { p != "" && p[0] == '/' }

  /** A name that stands for itself. */
  predicate Ordinary(part: string) { part != "" && part != "." && part != ".." && '/' !in part }

  predicate AllOrdinary(parts: seq<string>) { forall i :: 0 <= i < |parts| ==> Ordinary(parts[i]) }

  function Push(rooted: bool, stack: seq<string>, part: string): seq<string> {
    if part == "" || part == "." then stack
    else if part != ".." then stack + [part]
    else if stack != [] && stack[|stack| - 1] != ".." then stack[..|stack| - 1]
    else if rooted then stack
    else stack + [part]
  }

  function Walk(rooted: bool, stack: seq<string>, parts: seq<string>): seq<string>
    decreases |parts|
  {
    if parts == [] then stack else Walk(rooted, Push(rooted, stack, parts[0]), parts[1..])
  }

  function Render(rooted: bool, stack: seq<string>): string {
    if rooted then "/" + Join(stack, '/') else if stack == [] then "." else Join(stack, '/')
  }

  function Clean(p: string): string {
    if p == "" then "." else Render(Rooted(p), Walk(Rooted(p), [], Split(p, '/')))
  }

  function JoinPath(dir: string, p: string): string {
    if dir == "" then Clean(p) else Clean(dir + "/" + p)
  }

  lemma {:induction false} WalkAppend(rooted: bool, stack: seq<string>, l: seq<string>, m: seq<string>)
    ensures Walk(rooted, stack, l + m) == Walk(rooted, Walk(rooted, stack, l), m)
    decreases |l|
  {
    if l == [] {
      assert l + m == m;
    } else {
      assert (l + m)[1..] == l[1..] + m;
      WalkAppend(rooted, Push(rooted, stack, l[0]), l[1..], m);
    }
  }

  lemma {:induction false} WalkOrdinary(rooted: bool, stack: seq<string>, parts: seq<string>)
    requires AllOrdinary(parts)
    ensures Walk(rooted, stack, parts) == stack + parts
    decreases |parts|
  {
    if parts != [] {
      assert Ordinary(parts[0]);
      WalkOrdinary(rooted, stack + [parts[0]], parts[1..]);
    }
  }

  lemma {:induction false} WalkStaysOrdinary(stack: seq<string>, parts: seq<string>)
    requires AllOrdinary(stack) && forall i :: 0 <= i < |parts| ==> '/' !in parts[i]
    ensures AllOrdinary(Walk(true, stack, parts))
    decreases |parts|
  {
    if parts != [] {
      assert '/' !in parts[0];
      assert stack != [] ==> Ordinary(stack[|stack| - 1]);
      WalkStaysOrdinary(Push(true, stack, parts[0]), parts[1..]);
    }
  }

  /** The names on the way to a rooted place. */
  function Names(p: string): (r: seq<string>)
    requires Rooted(p)
    ensures AllOrdinary(r) && Clean(p) == Render(true, r)
  {
    assert forall i :: 0 <= i < |Split(p, '/')| ==> '/' !in Split(p, '/')[i] by {
      forall i | 0 <= i < |Split(p, '/')| ensures '/' !in Split(p, '/')[i] { SplitPieces(p, '/', i); }
    }
    WalkStaysOrdinary([], Split(p, '/'));
    Walk(true, [], Split(p, '/'))
  }

  lemma SplitOrdinary(parts: seq<string>)
    requires AllOrdinary(parts) && parts != []
    ensures Split(Join(parts, '/'), '/') == parts && Join(parts, '/') != "" && !Rooted(Join(parts, '/'))
  {
    SplitJoin(parts, '/');
    assert Ordinary(parts[0]);
    assert Join(parts, '/')[0] == parts[0][0];
    assert parts[0][0] in parts[0];
  }

  lemma NamesOfRender(parts: seq<string>)
    requires AllOrdinary(parts)
    ensures Rooted(Render(true, parts)) && Names(Render(true, parts)) == parts
  {
    var p := Render(true, parts);
    assert p == "" + ['/'] + Join(parts, '/');
    SplitAppend("", Join(parts, '/'), '/');
    if parts == [] {
      assert Split("", '/') == [""];
      assert Walk(true, [], ["", ""]) == Walk(true, [], [""]) == [];
    } else {
      SplitOrdinary(parts);
      WalkAppend(true, [], [""], parts);
      assert Walk(true, [], [""]) == [];
      WalkOrdinary(true, [], parts);
    }
  }

  lemma CleanIdempotent(p: string)
    requires Rooted(p)
    ensures Rooted(Clean(p)) && Clean(Clean(p)) == Clean(p)
  {
    NamesOfRender(Names(p));
  }

  // ---------- Steps up and down ----------

  /** What a list of parts amounts to: so many levels up, then down along these names. */
  datatype Steps = Steps(ups: nat, names: seq<string>)

  function Take(r: Steps, part: string): Steps {
    if part == "" || part == "." then r
    else if part != ".." then r.(names := r.names + [part])
    else if r.names == [] then r.(ups := r.ups + 1)
    else r.(names := r.names[..|r.names| - 1])
  }

  function StepsOf(parts: seq<string>): Steps {
    if parts == [] then Steps(0, []) else Take(StepsOf(parts[..|parts| - 1]), parts[|parts| - 1])
  }

  /** The place reached from another one; above the root there is the root. */
  function Reach(stack: seq<string>, r: Steps): seq<string> {
    (if r.ups <= |stack| then stack[..|stack| - r.ups] else []) + r.names
  }

  predicate SlashFree(parts: seq<string>) { forall i :: 0 <= i < |parts| ==> '/' !in parts[i] }

  lemma {:induction false} StepsOrdinary(parts: seq<string>)
    requires SlashFree(parts)
    ensures AllOrdinary(StepsOf(parts).names)
  {
    if parts != [] { StepsOrdinary(parts[..|parts| - 1]); }
  }

  lemma SplitSlashFree(p: string)
    ensures SlashFree(Split(p, '/'))
  {
    forall i | 0 <= i < |Split(p, '/')| ensures '/' !in Split(p, '/')[i] { SplitPieces(p, '/', i); }
  }

  lemma PushReach(stack: seq<string>, r: Steps, part: string)
    requires AllOrdinary(stack) && AllOrdinary(r.names)
    ensures Push(true, Reach(stack, r), part) == Reach(stack, Take(r, part))
  {
    var at := Reach(stack, r);
    if part == ".." {
      if r.names == [] {
        assert at == if r.ups <= |stack| then stack[..|stack| - r.ups] else [];
        assert at != [] ==> at[|at| - 1] == stack[|at| - 1] && Ordinary(stack[|at| - 1]);
      } else {
        assert at[|at| - 1] == r.names[|r.names| - 1] && Ordinary(r.names[|r.names| - 1]);
        assert at[..|at| - 1] == Reach(stack, Take(r, part));
      }
    }
  }

  /** Walking a list of parts from a place does what its steps say. */
  lemma {:induction false} WalkReaches(stack: seq<string>, parts: seq<string>)
    requires AllOrdinary(stack) && SlashFree(parts)
    ensures Walk(true, stack, parts) == Reach(stack, StepsOf(parts))
  {
    if parts == [] {
      assert stack[..|stack|] + [] == stack;
    } else {
      var init, last := parts[..|parts| - 1], parts[|parts| - 1];
      assert parts == init + [last];
      WalkReaches(stack, init);
      WalkAppend(true, stack, init, [last]);
      StepsOrdinary(init);
      PushReach(stack, StepsOf(init), last);
      assert [last][1..] == [];
    }
  }

  function Dots(n: nat): seq<string> { seq(n, _ => "..") }

  /** The shortest form of a relative list of parts: the steps up, then the names. */
  function Flat(r: Steps): seq<string> { Dots(r.ups) + r.names }

  lemma PushFlat(r: Steps, part: string)
    requires AllOrdinary(r.names)
    ensures Push(false, Flat(r), part) == Flat(Take(r, part))
  {
    var f := Flat(r);
    if part == ".." {
      if r.names == [] {
        assert f == Dots(r.ups);
        assert f + [".."] == Dots(r.ups + 1);
      } else {
        assert f[|f| - 1] == r.names[|r.names| - 1] && Ordinary(r.names[|r.names| - 1]);
        assert f[..|f| - 1] == Dots(r.ups) + r.names[..|r.names| - 1];
      }
    } else if part != "" && part != "." {
      assert f + [part] == Dots(r.ups) + (r.names + [part]);
    }
  }

  lemma {:induction false} WalkIsFlat(parts: seq<string>)
    requires SlashFree(parts)
    ensures Walk(false, [], parts) == Flat(StepsOf(parts))
  {
    if parts != [] {
      var init, last := parts[..|parts| - 1], parts[|parts| - 1];
      assert parts == init + [last];
      WalkIsFlat(init);
      WalkAppend(false, [], init, [last]);
      StepsOrdinary(init);
      PushFlat(StepsOf(init), last);
      assert [last][1..] == [];
    }
  }

  lemma {:induction false} StepsOfFlat(r: Steps)
    requires AllOrdinary(r.names)
    ensures StepsOf(Flat(r)) == r
    decreases r.ups + |r.names|
  {
    var f := Flat(r);
    if r.names != [] {
      var q := r.(names := r.names[..|r.names| - 1]);
      assert f[..|f| - 1] == Flat(q) && f[|f| - 1] == r.names[|r.names| - 1];
      assert Ordinary(r.names[|r.names| - 1]);
      StepsOfFlat(q);
      assert q.names + [r.names[|r.names| - 1]] == r.names;
    } else if r.ups > 0 {
      var q := r.(ups := r.ups - 1);
      assert f[..|f| - 1] == Flat(q) && f[|f| - 1] == "..";
      StepsOfFlat(q);
    }
  }

  lemma FlatNotRooted(r: Steps)
    requires AllOrdinary(r.names) && Flat(r) != []
    ensures Split(Join(Flat(r), '/'), '/') == Flat(r) && Join(Flat(r), '/') != "" && !Rooted(Join(Flat(r), '/'))
  {
    var f := Flat(r);
    forall x | x in f ensures '/' !in x && x != "" {
      var i :| 0 <= i < |f| && f[i] == x;
      if i >= r.ups { assert Ordinary(r.names[i - r.ups]); }
    }
    SplitJoin(f, '/');
    assert f[0] in f;
    assert Join(f, '/')[0] == f[0][0];
    assert f[0][0] in f[0];
  }

  /** Cleaning a relative name leaves it relative and keeps its steps. */
  lemma CleanKeepsSteps(p: string)
    requires p != "" && !Rooted(p)
    ensures !Rooted(Clean(p)) && Clean(p) != "" && StepsOf(Split(Clean(p), '/')) == StepsOf(Split(p, '/'))
  {
    SplitSlashFree(p);
    WalkIsFlat(Split(p, '/'));
    var r := StepsOf(Split(p, '/'));
    StepsOrdinary(Split(p, '/'));
    StepsOfFlat(r);
    if Flat(r) == [] {
      assert Clean(p) == ".";
      SplitFree(".", '/');
      assert ["."][..0] == [];
      assert StepsOf(["."]) == Steps(0, []);
    } else {
      FlatNotRooted(r);
    }
  }

  /** A name below a rooted one leads where its steps lead from there. */
  lemma NamesFrom(p: string, q: string)
    requires Rooted(p)
    ensures Rooted(p + "/" + q) && Names(p + "/" + q) == Reach(Names(p), StepsOf(Split(q, '/')))
  {
    assert p + "/" + q == p + ['/'] + q;
    SplitAppend(p, q, '/');
    WalkAppend(true, [], Split(p, '/'), Split(q, '/'));
    SplitSlashFree(q);
    WalkReaches(Names(p), Split(q, '/'));
  }

  /** Parts appended take further steps. */
  lemma ReachAppend(stack: seq<string>, l: seq<string>, m: seq<string>)
    requires AllOrdinary(stack) && SlashFree(l) && SlashFree(m)
    ensures Reach(stack, StepsOf(l + m)) == Reach(Reach(stack, StepsOf(l)), StepsOf(m)) && AllOrdinary(Reach(stack, StepsOf(l)))
  {
    StepsOrdinary(l);
    WalkReaches(stack, l + m);
    WalkReaches(stack, l);
    WalkReaches(Reach(stack, StepsOf(l)), m);
    WalkAppend(true, stack, l, m);
  }

  lemma UpAndDown(n: string)
    requires Ordinary(n)
    ensures StepsOf(Split("../" + n, '/')) == Steps(1, [n])
  {
    assert "../" + n == ".." + ['/'] + n;
    SplitAppend("..", n, '/');
    SplitFree("..", '/');
    SplitFree(n, '/');
    assert [".."] + [n] == ["..", n];
    assert ["..", n][..1] == [".."] && [".."][..0] == [];
    assert StepsOf([".."]) == Steps(1, []);
  }

  // ---------- Texts of places ----------

  lemma CancelStart(a: string, x: string, y: string)
    requires a + x <= a + y
    ensures x <= y
  {
    assert x == (a + x)[|a|..] && y == (a + y)[|a|..];
    assert (a + y)[..|a + x|] == a + x;
  }

  /** The text of a place up to its last name. */
  function Lead(l: seq<string>): string { if l == [] then "/" else "/" + (Join(l, '/') + ['/']) }

  lemma RenderLast(l: seq<string>, x: string)
    ensures Render(true, l + [x]) == Lead(l) + x
  {
    if l == [] {
      assert l + [x] == [x];
    } else {
      JoinAppend(l, [x], '/');
    }
  }
}
