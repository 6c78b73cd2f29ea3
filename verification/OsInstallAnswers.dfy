/** What install streams answer, and which names they refuse. */
module OsInstallAnswers {
  import opened Delimited
  import opened FilePath
  import opened FileTree
  import opened Options
  import opened OsInstall
  import opened OsInstallDisk

  // ---------- Names ----------

  /** A stream that sends this one message. */
  function OneMessage(v: string, m: Message): seq<Action> { [Call, First(v, Ready), Next(m)] }

  lemma RunOneMessage(cfg: Config, s: State, v: string, m: Message)
    requires v != "" && s.stream.Idle?
    ensures var begun := s.(stream := Busy(cfg.dir + "/" + v, false));
            var (t, log) := Run(cfg, s, OneMessage(v, m));
            |log| == 3 && (t, log[2].event) == StepMessage(cfg, begun, m)
  {
    RunSnoc(cfg, s, [], Call);
    RunSnoc(cfg, s, [] + [Call], First(v, Ready));
    RunSnoc(cfg, s, [] + [Call] + [First(v, Ready)], Next(m));
    assert OneMessage(v, m) == [] + [Call] + [First(v, Ready)] + [Next(m)];
  }

  /** A chunk is refused, and nothing is different, whenever the text of the place its version leads
      to does not begin with that of the directory. */
  lemma ChunkRefused(cfg: Config, s: State, ds: Place, v: string, m: Message)
    requires AllOrdinary(ds) && cfg.dir == Render(true, ds) && v != "" && s.stream.Idle? && m.Content?
    requires !(cfg.dir <= PlaceText(ds, v))
    ensures var (t, log) := Run(cfg, s, OneMessage(v, m));
            t == s && |log| == 3 && log[2].event == Ended(Aborted)
  {
    RunOneMessage(cfg, s, v, m);
    SafeText(cfg, ds, v);
  }

  lemma JoinSameStart(l: seq<string>, x: string, y: string)
    requires Render(true, l + [x]) <= Render(true, l + [y])
    ensures x <= y
  {
    RenderLast(l, x);
    RenderLast(l, y);
    CancelStart(Lead(l), x, y);
  }

  /** So a version that goes up is refused, unless it comes down by a name that begins with the last
      one of the directory. */
  lemma TraversalRefused(cfg: Config, s: State, ds: Place, n: string, m: Message)
    requires AllOrdinary(ds) && ds != [] && cfg.dir == Render(true, ds) && Ordinary(n) && !(ds[|ds| - 1] <= n)
    requires s.stream.Idle? && m.Content?
    ensures var (t, log) := Run(cfg, s, OneMessage("../" + n, m));
            t == s && |log| == 3 && log[2].event == Ended(Aborted)
  {
    var l, d := ds[..|ds| - 1], ds[|ds| - 1];
    assert l + [d] == ds;
    UpAndDown(n);
    if cfg.dir <= PlaceText(ds, "../" + n) { JoinSameStart(l, d, n); }
    ChunkRefused(cfg, s, ds, "../" + n, m);
  }

  /** The place of an image and everything above it is free for a file. */
  predicate FreeFor(t: Tree, p: Place) {
    p !in t.dirs && forall q :: q in t.files ==> !(q < p)
  }

  lemma FreeIff(t: Tree, p: Place)
    ensures FreeFor(t, p) <==> p !in t.dirs && !Blocked(t.files, p)
  {
    forall q ensures q in Above(p) <==> q < p { AboveIff(p, q); }
    if Blocked(t.files, p) {
      var q :| q in t.files && q in Above(p);
      assert q < p;
    }
  }

  lemma StepTaken(cfg: Config, s: State, chunk: Bytes)
    requires s.stream.Busy? && !s.stream.initiated
    ensures var (t, e) := StepContent(cfg, s, Content(chunk, Written, true));
            var img := s.stream.img;
            var z, safe := Target(cfg, img), SafePath(cfg.dir, img);
            && (e.Progress? <==> cfg.dir <= safe && !Exists(cfg, s.tree, img) && z !in s.tree.dirs && !Blocked(s.tree.files, z))
            && (e.Progress? ==>
                  && e.path == safe && e.n == ((if safe in s.totals then s.totals[safe] else 0) + |chunk|) % 0x1_0000_0000_0000_0000
                  && t.tree == Tree(s.tree.files[z := (if z in s.tree.files then s.tree.files[z] else []) + chunk], s.tree.dirs + Above(z))
                  && t.stream == Busy(img, true))
  {
  }

  /** A first chunk that can be written, for an image whose chunks go to this place. */
  ghost predicate Taken(cfg: Config, s: State, v: string, chunk: Bytes, p: Place, text: string) {
    var (t, log) := Run(cfg, s, OneMessage(v, Content(chunk, Written, true)));
    && |log| == 3
    && (log[2].event.Progress? <==> cfg.dir <= text && !Exists(cfg, s.tree, cfg.dir + "/" + v) && FreeFor(s.tree, p))
    && (log[2].event.Progress? ==>
          && log[2].event.path == text
          && log[2].event.n == ((if text in s.totals then s.totals[text] else 0) + |chunk|) % 0x1_0000_0000_0000_0000
          && t.tree == Tree(s.tree.files[p := (if p in s.tree.files then s.tree.files[p] else []) + chunk], s.tree.dirs + Above(p))
          && t.stream == Busy(cfg.dir + "/" + v, true))
  }

  lemma TakenAt(cfg: Config, s: State, v: string, chunk: Bytes, p: Place, text: string)
    requires v != "" && s.stream.Idle?
    requires Target(cfg, cfg.dir + "/" + v) == p && SafePath(cfg.dir, cfg.dir + "/" + v) == text
    ensures Taken(cfg, s, v, chunk, p, text)
  {
    RunOneMessage(cfg, s, v, Content(chunk, Written, true));
    FreeIff(s.tree, p);
    StepTaken(cfg, s.(stream := Busy(cfg.dir + "/" + v, false)), chunk);
  }

  /** Exactly when a first chunk that can be written is taken: the text test passes, the image is not
      there, and nothing is in the way. The chunk is then at the end of that file, the directories
      above it are there, nothing else is different, and the count is that of the name so far. */
  lemma ChunkTakenIff(cfg: Config, s: State, ds: Place, v: string, chunk: Bytes)
    requires AllOrdinary(ds) && cfg.dir == Render(true, ds) && v != "" && s.stream.Idle?
    ensures Taken(cfg, s, v, chunk, Reach(ds, StepsOf(Split(v, '/'))), PlaceText(ds, v))
  {
    SafeText(cfg, ds, v);
    TakenAt(cfg, s, v, chunk, Reach(ds, StepsOf(Split(v, '/'))), PlaceText(ds, v));
  }

  // ---------- Failures ----------

  /** The bytes of a chunk that a failed or successful write leaves in the file; None if the file is
      not even opened. */
  function Remains(chunk: Bytes, o: Outcome): Option<Bytes> {
    match o
    case MkdirFails(_) => None
    case OpenFails => None
    case WriteFails(kept) => Some(if kept <= |chunk| then chunk[..kept] else chunk)
    case CloseFails => Some(chunk)
    case Written => Some(chunk)
  }

  /** A version with a final slash, whose file is not found again, shows what a chunk leaves: the
      bytes that got written, and the directories that were made before a failure. */
  lemma SlashKeeps(cfg: Config, s: State, ds: Place, x: string, m: Message)
    requires AllOrdinary(ds) && cfg.dir == Render(true, ds) && Ordinary(x) && m.Content?
    requires s.stream.Idle? && Sound(cfg.cwd, s.tree) && ds in s.tree.dirs && ds + [x] !in s.tree.dirs
    ensures var t := Run(cfg, s, OneMessage(x + "/", m)).0;
            var w, r := ds + [x], Remains(m.chunk, m.outcome);
            && t.tree.dirs == s.tree.dirs
            && t.tree.files == if r.Some? then s.tree.files[w := (if w in s.tree.files then s.tree.files[w] else []) + r.value] else s.tree.files
  {
    var img, w := ImageOf(cfg, x + "/"), ds + [x];
    RunOneMessage(cfg, s, x + "/", m);
    SlashedImage(cfg, ds, x);
    SlashedInside(cfg, ds, x);
    SoundPath(cfg.cwd, s.tree, ds);
    AboveOne(ds, x);
    NotAbove(w);
    FoundIs(cfg, s.tree.dirs, img);
    MadeSound(cfg.cwd, s.tree, w, m.outcome);
    assert s.tree.dirs + Made(w, m.outcome) == s.tree.dirs;
    var begun := s.(stream := Busy(img, false));
    var next := Chunked(cfg, begun, m);
    assert m.chunk[..|m.chunk|] == m.chunk;
    assert !Blocked(s.tree.files, w);
    assert next.tree.dirs == s.tree.dirs && Found(cfg, next.tree.dirs, img) == None;
    assert Discard(cfg, next).tree == next.tree == StepContent(cfg, begun, m).0.tree;
  }

  /** The directories that a chunk makes stay: all above its file, or the first levels of them if
      that fails on the way. */
  lemma DirsStay(cfg: Config, s: State, ds: Place, x: string, m: Message)
    requires AllOrdinary(ds) && cfg.dir == Render(true, ds) && Ordinary(x) && m.Content?
    requires s.stream.Idle? && Sound(cfg.cwd, s.tree) && FreeFor(s.tree, ds + [x]) && ds + [x] !in s.tree.files
    ensures var t := Run(cfg, s, OneMessage(x, m)).0;
            forall q :: q in t.tree.dirs <==> q in s.tree.dirs || (q <= ds && (m.outcome.MkdirFails? ==> |q| <= m.outcome.made))
  {
    var img, w := ImageOf(cfg, x), ds + [x];
    RunOneMessage(cfg, s, x, m);
    PlainTidy(cfg, ds, x);
    PlainInside(cfg, ds, x);
    TargetIsImage(cfg, img);
    FreeIff(s.tree, w);
    var begun := s.(stream := Busy(img, false));
    FoundIs(cfg, s.tree.dirs, img);
    WriteMissing(cfg, s.tree.files, s.tree, img, m.chunk, m.outcome);
    WriteSound(cfg, s.tree, img, m.chunk, m.outcome);
    DiscardHolds(cfg, s.tree.files, Chunked(cfg, begun, m), Kept(m.chunk, m.outcome));
    forall q ensures q in Made(w, m.outcome) <==> q <= ds && (m.outcome.MkdirFails? ==> |q| <= m.outcome.made) {
      MadeIff(ds, x, m.outcome, q);
    }
  }

  lemma MadeIff(ds: Place, x: string, o: Outcome, q: Place)
    ensures q in Made(ds + [x], o) <==> q <= ds && (o.MkdirFails? ==> |q| <= o.made)
  {
    var w := ds + [x];
    AboveOne(ds, x);
    AboveIff(ds, q);
    if o.MkdirFails? {
      if q in Levels(w, o.made) {
        LevelsClosed(w, o.made, q);
        var i :| 0 <= i < |w| && i <= o.made && q == w[..i];
      }
      if q <= ds && |q| <= o.made { assert q == w[..|q|]; }
    }
  }

  lemma PlainInside(cfg: Config, ds: Place, x: string)
    requires AllOrdinary(ds) && cfg.dir == Render(true, ds) && Ordinary(x)
    ensures Inside(cfg, ImageOf(cfg, x))
  {
    SafeText(cfg, ds, x);
    SplitFree(x, '/');
    assert [x][..0] == [];
    assert StepsOf([x]) == Steps(0, [x]);
    assert ds[..|ds| - 0] + [x] == ds + [x];
    JoinMore(ds, x);
  }

  // ---------- Empty directories ----------

  function Slashes(k: nat): string { seq(k, _ => '/') }

  lemma {:induction false} SlashesSplit(a: string, k: nat)
    ensures LastPart(Split(a + Slashes(k), '/')) == LastPart(Split(a, '/'))
  {
    if k == 0 {
      assert a + Slashes(0) == a;
    } else {
      SlashesSplit(a, k - 1);
      assert a + Slashes(k) == (a + Slashes(k - 1)) + ['/'] + "";
      SplitAppend(a + Slashes(k - 1), "", '/');
      assert Split("", '/') == [""];
      var l := Split(a + Slashes(k - 1), '/');
      assert (l + [""])[..|l|] == l;
    }
  }

  /** The last part of a name, whatever slashes follow. */
  lemma LastPartIs(a: string, n: string, k: nat)
    requires n != "" && '/' !in n
    ensures LastPart(Split(a + "/" + n + Slashes(k), '/')) == n
  {
    SlashesSplit(a + "/" + n, k);
    assert a + "/" + n == a + ['/'] + n;
    SplitAppend(a, n, '/');
    SplitFree(n, '/');
    var l := Split(a, '/');
    assert (l + [n])[|l|] == n;
  }

  /** A transfer without a chunk that ends badly removes what its name is found to be: a file, or a
      directory with nothing in it that is neither the root nor the working directory and is not
      named as `.`; nothing else. */
  lemma EmptyTransferRemoves(cfg: Config, s: State, v: string, w: Place)
    requires v != "" && s.stream.Idle? && Sound(cfg.cwd, s.tree) && Found(cfg, s.tree.dirs, cfg.dir + "/" + v) == Some(w)
    ensures var t := Run(cfg, s, OneMessage(v, End(false, true))).0;
            && t.tree.files == s.tree.files - {w}
            && t.tree.dirs ==
               if w != [] && w != cfg.cwd && (forall p :: p in s.tree.files.Keys + s.tree.dirs ==> !(w < p)) && LastPart(Split(v, '/')) != "." &&
                  !(LastPart(Split(v, '/')) == "" && LastPart(Split(cfg.dir, '/')) == ".")
               then s.tree.dirs - {w} else s.tree.dirs
  {
    RunOneMessage(cfg, s, v, End(false, true));
    var img := cfg.dir + "/" + v;
    assert img == cfg.dir + ['/'] + v;
    SplitAppend(cfg.dir, v, '/');
    LastPartAppend(Split(cfg.dir, '/'), Split(v, '/'));
    EmptyIff(s.tree, w);
    assert w in s.tree.files ==> w !in s.tree.dirs;
    assert w !in s.tree.files ==> s.tree.files - {w} == s.tree.files;
    assert w !in s.tree.dirs ==> s.tree.dirs - {w} == s.tree.dirs;
  }

  lemma EmptyIff(t: Tree, w: Place)
    ensures Empty(t, w) <==> forall p :: p in t.files.Keys + t.dirs ==> !(w < p)
  {
    assert Listed(t) == t.files.Keys + t.dirs;
    if Empty(t, w) {
      forall p | p in t.files.Keys + t.dirs ensures !(w < p) {
        assert p in Listed(t);
        AboveIff(p, w);
      }
    } else {
      var p :| p in Listed(t) && w in Above(p);
      AboveIff(p, w);
    }
  }

  lemma {:induction false} LastPartAppend(l: seq<string>, m: seq<string>)
    ensures LastPart(l + m) == if LastPart(m) != "" then LastPart(m) else LastPart(l)
    decreases |m|
  {
    if m == [] {
      assert l + m == l;
    } else {
      LastPartAppend(l, m[..|m| - 1]);
      assert (l + m)[..|l + m| - 1] == l + m[..|m| - 1];
    }
  }

  // ---------- Answers ----------

  predicate Says(e: Event, status: Status) {
    (e.Ended? && e.status == status) || (e.HandedOver? && e.status == status) || (e.Lost? && status == Aborted)
  }

  /** A call is answered Ok in two cases only: its client went away before asking for anything, or
      the backend accepted the image and the client was told. */
  lemma OkIff(cfg: Config, s: State, a: Action)
    ensures Says(Step(cfg, s, a).1, Ok) <==>
            || (s.stream.Waiting? && a.First? && a.opening.Eof?)
            || (s.stream.Busy? && a.Next? && a.m.End? && a.m.accepted && a.m.delivered)
  {
  }

  /** A request out of turn, or none at the start, is an invalid argument; a backend without the
      service is unimplemented. */
  lemma RefusalIff(cfg: Config, s: State, a: Action)
    ensures Says(Step(cfg, s, a).1, InvalidArgument) <==>
            || (s.stream.Waiting? && a.First? && a.opening.NotRequest?)
            || (s.stream.Busy? && a.Next? && a.m.Request?)
    ensures Says(Step(cfg, s, a).1, Unimplemented) <==>
            s.stream.Waiting? && a.First? && a.opening.Unsupported? && a.version != ""
  {
  }

  /** A stream that is open goes on in three cases only; in every other it ends, and the lock is
      free again. */
  lemma GoesOnIff(cfg: Config, s: State, a: Action)
    requires !s.stream.Idle?
    ensures !Step(cfg, s, a).0.stream.Idle? <==>
            || a.Call?
            || (if s.stream.Waiting? then !a.First? || (a.opening.Ready? && a.version != "") else !a.Next? || Step(cfg, s, a).1.Progress?)
    ensures a.Call? ==> Step(cfg, s, a) == (s, Rejected)
  {
  }
}
