/** Files and directories by their place, and how the system follows a name among them: unlike
    cleaning a name, this needs a directory wherever another part is looked up. */
module FileTree {
  import opened FilePath
  import opened Options

  newtype Byte = x: int | 0 <= x < 256
  type Bytes = seq<Byte>

  type Files = map<Place, Bytes>

  datatype Tree = Tree(files: Files, dirs: set<Place>)

  /** The directories above a place, and those with the place itself. */
  function Above(p: Place): set<Place> { set i | 0 <= i < |p| :: p[..i] }
  function Path(p: Place): set<Place> { Above(p) + {p} }

  lemma AboveIff(p: Place, q: Place)
    ensures q in Above(p) <==> q < p
    ensures q in Path(p) <==> q <= p
  {
    if q <= p { assert q == p[..|q|]; }
    assert p[..|p|] == p;
  }

  lemma AboveTransitive(p: Place, q: Place)
    requires q in Above(p)
    ensures Above(q) <= Above(p)
  {
    forall r | r in Above(q) ensures r in Above(p) {
      AboveIff(p, q);
      AboveIff(q, r);
      AboveIff(p, r);
    }
  }

  /** The first levels of the directories above a place. */
  function Levels(p: Place, n: nat): set<Place> { set i | 0 <= i < |p| && i <= n :: p[..i] }

  lemma LevelsClosed(p: Place, n: nat, q: Place)
    requires q in Levels(p, n)
    ensures q in Above(p) && Above(q) <= Levels(p, n)
  {
    forall r | r in Above(q) ensures r in Levels(p, n) {
      AboveIff(q, r);
      assert r == p[..|r|];
    }
  }

  function Listed(t: Tree): set<Place> { t.files.Keys + t.dirs }

  /** A tree with this working directory: what is listed is in directories, and no file is one. */
  ghost predicate Sound(cwd: Place, t: Tree) {
    && cwd in t.dirs && t.files.Keys !! t.dirs
    && forall p :: p in Listed(t) ==> Above(p) <= t.dirs
  }

  predicate Empty(t: Tree, dir: Place) { forall p :: p in Listed(t) ==> dir !in Above(p) }

  lemma SoundPath(cwd: Place, t: Tree, p: Place)
    requires Sound(cwd, t) && p in t.dirs
    ensures Path(p) <= t.dirs
  {
    assert p in Listed(t);
  }

  // ---------- Following a name ----------

  /** The places at which a part is looked up on the way. */
  function Visited(at: Place, parts: seq<string>): set<Place>
    decreases |parts|
  {
    if parts == [] then {} else {at} + Visited(Push(true, at, parts[0]), parts[1..])
  }

  function Resolve(dirs: set<Place>, at: Place, parts: seq<string>): Option<Place>
    decreases |parts|
  {
    if parts == [] then Some(at)
    else if at in dirs then Resolve(dirs, Push(true, at, parts[0]), parts[1..])
    else None
  }

  /** A name is found where its parts lead, if there is a directory wherever one is looked up. */
  lemma {:induction false} ResolveIs(dirs: set<Place>, at: Place, parts: seq<string>)
    ensures Resolve(dirs, at, parts) == if Visited(at, parts) <= dirs then Some(Walk(true, at, parts)) else None
    decreases |parts|
  {
    if parts != [] {
      ResolveIs(dirs, Push(true, at, parts[0]), parts[1..]);
      var rest := Visited(Push(true, at, parts[0]), parts[1..]);
      assert Visited(at, parts) == {at} + rest;
      assert {at} + rest <= dirs <==> at in dirs && rest <= dirs;
    }
  }

  lemma {:induction false} VisitedAppend(at: Place, l: seq<string>, m: seq<string>)
    ensures Visited(at, l + m) == Visited(at, l) + Visited(Walk(true, at, l), m)
    decreases |l|
  {
    if l == [] {
      assert l + m == m;
    } else {
      assert (l + m)[1..] == l[1..] + m;
      VisitedAppend(Push(true, at, l[0]), l[1..], m);
    }
  }

  /** The parts of a plain name are looked up in the directories above it. */
  lemma {:induction false} VisitedPlain(at: Place, parts: seq<string>)
    requires AllOrdinary(parts)
    ensures Visited(at, parts) <= Above(at + parts)
    decreases |parts|
  {
    if parts != [] {
      assert Ordinary(parts[0]);
      VisitedPlain(at + [parts[0]], parts[1..]);
      assert at + [parts[0]] + parts[1..] == at + parts;
      AboveIff(at + parts, at);
    }
  }

  // ---------- Changes that keep a tree sound ----------

  lemma AddDirs(cwd: Place, t: Tree, more: set<Place>)
    requires Sound(cwd, t) && more !! t.files.Keys && forall q :: q in more ==> Above(q) <= t.dirs + more
    ensures Sound(cwd, t.(dirs := t.dirs + more))
  {
    var t' := t.(dirs := t.dirs + more);
    forall p | p in Listed(t') ensures Above(p) <= t'.dirs {
      if p in Listed(t) { assert Above(p) <= t.dirs; }
    }
  }

  lemma AddFile(cwd: Place, t: Tree, p: Place, b: Bytes)
    requires Sound(cwd, t) && p !in t.dirs && Above(p) <= t.dirs
    ensures Sound(cwd, t.(files := t.files[p := b]))
  {
    var t' := t.(files := t.files[p := b]);
    forall q | q in Listed(t') ensures Above(q) <= t'.dirs {
      if q != p { assert q in Listed(t); }
    }
  }

  lemma DropFile(cwd: Place, t: Tree, p: Place)
    requires Sound(cwd, t)
    ensures Sound(cwd, t.(files := t.files - {p}))
  {
    var t' := t.(files := t.files - {p});
    forall q | q in Listed(t') ensures Above(q) <= t'.dirs { assert q in Listed(t); }
  }

  lemma DropDir(cwd: Place, t: Tree, dir: Place)
    requires Sound(cwd, t) && dir != cwd && Empty(t, dir)
    ensures Sound(cwd, t.(dirs := t.dirs - {dir}))
  {
    var t' := t.(dirs := t.dirs - {dir});
    forall q | q in Listed(t') ensures Above(q) <= t'.dirs { assert q in Listed(t); }
  }
}
