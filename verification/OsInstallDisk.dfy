/** What install streams do to the disk: which names they write and remove, and what is left. */
module OsInstallDisk {
  import opened Delimited
  import opened FilePath
  import opened FileTree
  import opened Options
  import opened OsInstall

  // ---------- Where the image is ----------

  function ImageOf(cfg: Config, v: string): string { cfg.dir + "/" + v }

  /** The image directory is a rooted name, or empty, which makes every image name rooted. */
  predicate Absolute(dir: string) { dir == "" || Rooted(dir) }

  lemma TargetIsImage(cfg: Config, img: string)
    requires Rooted(img)
    ensures Target(cfg, img) == Named(cfg, img)
  {
    NamesOfRender(Names(img));
  }

  lemma NamedReach(cfg: Config, p: string)
    requires AllOrdinary(cfg.cwd) && !Rooted(p)
    ensures Named(cfg, p) == Reach(cfg.cwd, StepsOf(Split(p, '/')))
  {
    SplitSlashFree(p);
    WalkReaches(cfg.cwd, Split(p, '/'));
  }

  /** Where the directory leads, and where it leads from there once more. */
  function Once(cfg: Config): Place { Reach(cfg.cwd, StepsOf(Split(cfg.dir, '/'))) }
  function Twice(cfg: Config): Place { Reach(Once(cfg), StepsOf(Split(cfg.dir, '/'))) }

  /** Under a relative directory the image is reached by the steps of the directory and then of
      the version. */
  lemma RelativeImage(cfg: Config, v: string)
    requires AllOrdinary(cfg.cwd) && !Absolute(cfg.dir)
    ensures Named(cfg, ImageOf(cfg, v)) == Reach(Once(cfg), StepsOf(Split(v, '/')))
  {
    assert ImageOf(cfg, v) == cfg.dir + ['/'] + v;
    SplitAppend(cfg.dir, v, '/');
    SplitSlashFree(cfg.dir);
    SplitSlashFree(v);
    ReachAppend(cfg.cwd, Split(cfg.dir, '/'), Split(v, '/'));
    NamedReach(cfg, ImageOf(cfg, v));
  }

  /** The chunks go through the directory twice. */
  lemma RelativeTarget(cfg: Config, v: string)
    requires AllOrdinary(cfg.cwd) && !Absolute(cfg.dir)
    ensures Target(cfg, ImageOf(cfg, v)) == Reach(Twice(cfg), StepsOf(Split(v, '/')))
  {
    var img, ds, vs, cwd := ImageOf(cfg, v), Split(cfg.dir, '/'), Split(v, '/'), cfg.cwd;
    assert img == cfg.dir + ['/'] + v;
    SplitAppend(cfg.dir, v, '/');
    CleanKeepsSteps(img);
    var c := Clean(img);
    assert cfg.dir + "/" + c == cfg.dir + ['/'] + c;
    SplitAppend(cfg.dir, c, '/');
    CleanKeepsSteps(cfg.dir + "/" + c);
    var safe := SafePath(cfg.dir, img);
    assert StepsOf(Split(safe, '/')) == StepsOf(ds + Split(c, '/'));
    SplitSlashFree(cfg.dir);
    SplitSlashFree(v);
    SplitSlashFree(c);
    ReachAppend(cwd, ds, Split(c, '/'));
    ReachAppend(Once(cfg), ds, vs);
    NamedReach(cfg, safe);
  }

  /** Taking these steps once more, `depth` levels below the root, leads nowhere else. */
  predicate Returns(d: Steps, depth: nat) { d.ups == |d.names| || (|d.names| < d.ups && depth <= d.ups) }

  lemma ReturnsIff(cwd: Place, d: Steps)
    ensures var once := Reach(cwd, d);
            && (Reach(once, d) == once <==> Returns(d, |cwd|))
            && (|Reach(once, d)| == |once| <==> Returns(d, |cwd|))
  {
    var once := Reach(cwd, d);
    if d.ups == |d.names| {
      assert once[..|once| - d.ups] + d.names == once;
    }
  }

  lemma ReachSameIff(a: Place, b: Place, r: Steps)
    requires |a| == |b| ==> a == b
    ensures Reach(a, r) == Reach(b, r) <==> a == b || (|a| <= r.ups && |b| <= r.ups)
  {
    var u, v := if r.ups <= |a| then |a| - r.ups else 0, if r.ups <= |b| then |b| - r.ups else 0;
    assert |Reach(a, r)| == u + |r.names| && |Reach(b, r)| == v + |r.names|;
  }

  /** What is written is what is later looked for exactly when the directory is absolute, or is
      relative and leads back to itself, or the version goes up to the root either way. */
  lemma TargetIsImageIff(cfg: Config, v: string)
    requires AllOrdinary(cfg.cwd)
    ensures var ups := StepsOf(Split(v, '/')).ups;
            Target(cfg, ImageOf(cfg, v)) == Named(cfg, ImageOf(cfg, v)) <==>
            || Absolute(cfg.dir) || Returns(StepsOf(Split(cfg.dir, '/')), |cfg.cwd|)
            || (|Once(cfg)| <= ups && |Twice(cfg)| <= ups)
  {
    if Absolute(cfg.dir) {
      TargetIsImage(cfg, ImageOf(cfg, v));
    } else {
      RelativeImage(cfg, v);
      RelativeTarget(cfg, v);
      ReturnsIff(cfg.cwd, StepsOf(Split(cfg.dir, '/')));
      ReachSameIff(Once(cfg), Twice(cfg), StepsOf(Split(v, '/')));
    }
  }

  /** The text of the place that a version leads to from a plain directory. */
  function PlaceText(ds: Place, v: string): string { Render(true, Reach(ds, StepsOf(Split(v, '/')))) }

  lemma SafeText(cfg: Config, ds: Place, v: string)
    requires AllOrdinary(ds) && cfg.dir == Render(true, ds)
    ensures var img := cfg.dir + "/" + v;
            && Rooted(img) && SafePath(cfg.dir, img) == PlaceText(ds, v)
            && Target(cfg, img) == Named(cfg, img) == Reach(ds, StepsOf(Split(v, '/')))
  {
    var img := cfg.dir + "/" + v;
    NamesOfRender(ds);
    NamesFrom(cfg.dir, v);
    CleanIdempotent(img);
    TargetIsImage(cfg, img);
  }

  // ---------- Finding the image ----------

  /** The places at which the system looks up a part of the image's name. */
  function Stops(cfg: Config, img: string): set<Place> { Visited(Origin(cfg, img), Split(img, '/')) }

  lemma FoundIs(cfg: Config, dirs: set<Place>, img: string)
    ensures Found(cfg, dirs, img) == if Stops(cfg, img) <= dirs then Some(Named(cfg, img)) else None
  {
    ResolveIs(dirs, Origin(cfg, img), Split(img, '/'));
  }

  /** The name leads through directories above the image or the working directory only. */
  predicate Direct(cfg: Config, img: string) { Stops(cfg, img) <= Path(cfg.cwd) + Above(Named(cfg, img)) }

  /** The name is that of the working directory or of one above it, whatever else there is. */
  predicate AlwaysThere(cfg: Config, img: string) {
    Named(cfg, img) in Path(cfg.cwd) && Stops(cfg, img) <= Path(cfg.cwd)
  }

  /** Chunks go where the name leads, and it can be followed once they are there. */
  predicate Straight(cfg: Config, img: string) { Target(cfg, img) == Named(cfg, img) && Direct(cfg, img) }

  /** What is written is found again; or else nothing is ever written, because the code refuses the
      name, or it is taken by a directory that is always there. */
  predicate Tidy(cfg: Config, img: string) {
    Straight(cfg, img) || !Inside(cfg, img) || Target(cfg, img) in Path(cfg.cwd) || AlwaysThere(cfg, img)
  }

  ghost predicate AllTidy(cfg: Config, actions: seq<Action>) {
    forall i :: 0 <= i < |actions| && actions[i].First? ==> Tidy(cfg, ImageOf(cfg, actions[i].version))
  }

  lemma AlwaysExists(cfg: Config, t: Tree, img: string)
    requires Sound(cfg.cwd, t) && AlwaysThere(cfg, img)
    ensures Exists(cfg, t, img) && Named(cfg, img) in t.dirs
  {
    SoundPath(cfg.cwd, t, cfg.cwd);
    FoundIs(cfg, t.dirs, img);
  }

  /** A direct name can be followed once the directories above the image are there. */
  lemma DirectFound(cfg: Config, t: Tree, img: string)
    requires Sound(cfg.cwd, t) && Direct(cfg, img) && Above(Named(cfg, img)) <= t.dirs
    ensures Found(cfg, t.dirs, img) == Some(Named(cfg, img))
  {
    SoundPath(cfg.cwd, t, cfg.cwd);
    FoundIs(cfg, t.dirs, img);
  }

  /** So if the image is not there, neither is anything else at its place. */
  lemma DirectMissing(cfg: Config, t: Tree, img: string)
    requires Sound(cfg.cwd, t) && Direct(cfg, img) && !Exists(cfg, t, img)
    ensures Named(cfg, img) !in Listed(t)
  {
    if Named(cfg, img) in Listed(t) { DirectFound(cfg, t, img); }
  }

  // ---------- The tree stays sound ----------

  lemma RemoveSound(cfg: Config, t: Tree, img: string)
    requires Sound(cfg.cwd, t)
    ensures Sound(cfg.cwd, Remove(cfg, t, img))
  {
    var w := Found(cfg, t.dirs, img);
    if w.Some? {
      if w.value in t.files { DropFile(cfg.cwd, t, w.value); }
      else if Removable(cfg, t, img, w.value) { DropDir(cfg.cwd, t, w.value); }
    }
  }

  lemma MadeSound(cwd: Place, t: Tree, z: Place, o: Outcome)
    requires Sound(cwd, t) && !Blocked(t.files, z)
    ensures Sound(cwd, t.(dirs := t.dirs + Made(z, o))) && Made(z, o) <= Above(z)
  {
    forall q | q in Made(z, o) ensures q in Above(z) && Above(q) <= t.dirs + Made(z, o) {
      if o.MkdirFails? { LevelsClosed(z, o.made, q); } else { AboveTransitive(z, q); }
    }
    AddDirs(cwd, t, Made(z, o));
  }

  lemma NotAbove(z: Place)
    ensures z !in Above(z)
  {
    AboveIff(z, z);
  }

  lemma WriteSound(cfg: Config, t: Tree, img: string, chunk: Bytes, o: Outcome)
    requires Sound(cfg.cwd, t)
    ensures Sound(cfg.cwd, WriteChunk(cfg, t, img, chunk, o))
  {
    var z := Target(cfg, img);
    if Inside(cfg, img) && !Blocked(t.files, z) {
      MadeSound(cfg.cwd, t, z, o);
      NotAbove(z);
      var t' := t.(dirs := t.dirs + Made(z, o));
      if Opens(cfg, t, img, o) { AddFile(cfg.cwd, t', z, Append(t.files, z, Kept(chunk, o))[z]); }
    }
  }

  lemma FinishSound(cfg: Config, s: State)
    requires Sound(cfg.cwd, s.tree)
    ensures Sound(cfg.cwd, Finish(cfg, s).tree)
  {
    if s.stream.Busy? { RemoveSound(cfg, s.tree, s.stream.img); }
  }

  lemma DiscardSound(cfg: Config, s: State)
    requires Sound(cfg.cwd, s.tree) && s.stream.Busy?
    ensures Sound(cfg.cwd, Discard(cfg, s).tree)
  {
    RemoveSound(cfg, s.tree, s.stream.img);
    FinishSound(cfg, s.(tree := Remove(cfg, s.tree, s.stream.img)));
  }

  lemma StepSound(cfg: Config, s: State, a: Action)
    requires Sound(cfg.cwd, s.tree)
    ensures Sound(cfg.cwd, Step(cfg, s, a).0.tree)
  {
    if a.Next? && s.stream.Busy? {
      FinishSound(cfg, s);
      DiscardSound(cfg, s);
      if a.m.Content? {
        WriteSound(cfg, s.tree, s.stream.img, a.m.chunk, a.m.outcome);
        DiscardSound(cfg, Chunked(cfg, s, a.m));
      }
    }
  }

  lemma {:induction false} RunSound(cfg: Config, s: State, actions: seq<Action>)
    requires Sound(cfg.cwd, s.tree)
    ensures Sound(cfg.cwd, Run(cfg, s, actions).0.tree)
  {
    if actions != [] {
      var n := |actions| - 1;
      RunSound(cfg, s, actions[..n]);
      StepSound(cfg, Run(cfg, s, actions[..n]).0, actions[n]);
    }
  }

  // ---------- What is dropped ----------

  /** A transfer that ended badly without a chunk: what was there before goes with it. */
  predicate Drops(log: seq<Entry>, last: Entry) {
    last.event.HandedOver? && last.event.status.Aborted? && Received(log).None?
  }

  /** The place whose file goes with this entry, or else the directory there if it is empty. */
  function Gone(cfg: Config, log: seq<Entry>, last: Entry, file: bool): set<Place> {
    if Drops(log, last) && last.event.image.Some? == file then {Named(cfg, Image(log))} else {}
  }

  function Dropped(cfg: Config, log: seq<Entry>, file: bool): set<Place> {
    if log == [] then {}
    else
      var before, last := log[..|log| - 1], log[|log| - 1];
      Dropped(cfg, before, file) + Gone(cfg, before, last, file)
  }

  // ---------- Every run ----------

  /** The image is on the disk with these contents, over what was there. */
  ghost predicate Filled(cfg: Config, base: Files, t: Tree, img: string, b: Bytes) {
    var w := Named(cfg, img);
    Straight(cfg, img) && w !in base && Above(w) <= t.dirs && t.files == base[w := b]
  }

  ghost predicate Missing(cfg: Config, base: Files, t: Tree, img: string) { t.files == base && !Exists(cfg, t, img) }

  /** Between streams the files are `base`; during one there is also the image as received so far. */
  ghost predicate Holds(cfg: Config, base: Files, s: State, log: seq<Entry>) {
    && Sound(cfg.cwd, s.tree)
    && match s.stream
       case Busy(img, initiated) =>
         && img == Image(log) && Tidy(cfg, img)
         && Received(log).Some? == initiated
         && (if initiated then Filled(cfg, base, s.tree, img, Received(log).value) else s.tree.files == base)
       case _ => s.tree.files == base
  }

  lemma RemoveFilled(cfg: Config, base: Files, t: Tree, img: string, b: Bytes)
    requires Sound(cfg.cwd, t) && Filled(cfg, base, t, img, b)
    ensures Remove(cfg, t, img) == Tree(base, t.dirs) && Missing(cfg, base, Tree(base, t.dirs), img)
  {
    var w := Named(cfg, img);
    DirectFound(cfg, t, img);
    assert w in t.files && w !in t.dirs;
    assert base[w := b] - {w} == base;
  }

  lemma RemoveMissing(cfg: Config, base: Files, t: Tree, img: string)
    requires Missing(cfg, base, t, img)
    ensures Remove(cfg, t, img) == t
  {
  }

  /** A stream that tried to write and is given up leaves no file. */
  lemma DiscardHolds(cfg: Config, base: Files, s: State, b: Bytes)
    requires Sound(cfg.cwd, s.tree) && s.stream.Busy? && s.stream.initiated
    requires Filled(cfg, base, s.tree, s.stream.img, b) || Missing(cfg, base, s.tree, s.stream.img)
    ensures Discard(cfg, s).tree == Finish(cfg, s).tree == Tree(base, s.tree.dirs)
  {
    var img := s.stream.img;
    if Filled(cfg, base, s.tree, img, b) {
      RemoveFilled(cfg, base, s.tree, img, b);
      RemoveMissing(cfg, base, Tree(base, s.tree.dirs), img);
    } else {
      RemoveMissing(cfg, base, s.tree, img);
    }
  }

  lemma WriteFilled(cfg: Config, base: Files, t: Tree, img: string, b: Bytes, chunk: Bytes, o: Outcome)
    requires Sound(cfg.cwd, t) && Filled(cfg, base, t, img, b)
    ensures var t' := WriteChunk(cfg, t, img, chunk, o);
            Filled(cfg, base, t', img, if Opens(cfg, t, img, o) then b + Kept(chunk, o) else b)
  {
  }

  /** A first chunk that is not taken leaves the image missing, and one that is makes it. */
  lemma WriteMissing(cfg: Config, base: Files, t: Tree, img: string, chunk: Bytes, o: Outcome)
    requires Sound(cfg.cwd, t) && Tidy(cfg, img) && Missing(cfg, base, t, img)
    ensures var t' := WriteChunk(cfg, t, img, chunk, o);
            if Opens(cfg, t, img, o) then Filled(cfg, base, t', img, Kept(chunk, o)) else Missing(cfg, base, t', img)
  {
    var z := Target(cfg, img);
    if AlwaysThere(cfg, img) { AlwaysExists(cfg, t, img); }
    SoundPath(cfg.cwd, t, cfg.cwd);
    if Inside(cfg, img) && !Blocked(t.files, z) {
      MadeSound(cfg.cwd, t, z, o);
      if Straight(cfg, img) {
        DirectMissing(cfg, t, img);
        NotAbove(z);
        FoundIs(cfg, t.dirs + Made(z, o), img);
        assert [] + Kept(chunk, o) == Kept(chunk, o);
      } else {
        assert z in t.dirs;
        SoundPath(cfg.cwd, t, z);
        assert t.dirs + Made(z, o) == t.dirs;
      }
    }
  }

  lemma ContentHolds(cfg: Config, base: Files, s: State, log: seq<Entry>, m: Message)
    requires Holds(cfg, base, s, log) && s.stream.Busy? && m.Content?
    ensures var (t, e) := StepContent(cfg, s, m);
            Holds(cfg, base, t, log + [Entry(Next(m), e)]) && s.tree.dirs <= t.tree.dirs
  {
    var img := s.stream.img;
    var (t, e) := StepContent(cfg, s, m);
    var log' := log + [Entry(Next(m), e)];
    assert log'[..|log|] == log;
    if s.stream.initiated || !Exists(cfg, s.tree, img) {
      var had := if s.stream.initiated then Received(log).value else [];
      var next := Chunked(cfg, s, m);
      var b := if Opens(cfg, s.tree, img, m.outcome) then had + Kept(m.chunk, m.outcome) else had;
      if s.stream.initiated { WriteFilled(cfg, base, s.tree, img, had, m.chunk, m.outcome); }
      else { WriteMissing(cfg, base, s.tree, img, m.chunk, m.outcome); assert [] + Kept(m.chunk, m.outcome) == Kept(m.chunk, m.outcome); }
      WriteSound(cfg, s.tree, img, m.chunk, m.outcome);
      if !e.Progress? {
        DiscardHolds(cfg, base, next, b);
        DiscardSound(cfg, next);
      }
    }
  }

  lemma FinishHolds(cfg: Config, base: Files, s: State, log: seq<Entry>, log': seq<Entry>)
    requires Holds(cfg, base, s, log) && s.stream.Busy?
    ensures Holds(cfg, base, Finish(cfg, s), log') && s.tree.dirs == Finish(cfg, s).tree.dirs
    ensures s.stream.initiated ==> Discard(cfg, s) == Finish(cfg, s)
  {
    FinishSound(cfg, s);
    if s.stream.initiated { DiscardHolds(cfg, base, s, Received(log).value); }
  }

  lemma EndHolds(cfg: Config, base: Files, s: State, log: seq<Entry>, log': seq<Entry>, m: Message)
    requires Holds(cfg, base, s, log) && s.stream.Busy? && m.End?
    ensures var (t, e) := StepMessage(cfg, s, m);
            && Holds(cfg, base - Gone(cfg, log, Entry(Next(m), e), true), t, log')
            && s.tree.dirs - Gone(cfg, log, Entry(Next(m), e), false) <= t.tree.dirs
  {
    FinishHolds(cfg, base, s, log, log');
    DiscardSound(cfg, s);
    FoundIs(cfg, s.tree.dirs, s.stream.img);
    assert base - {} == base;
  }

  lemma MessageHolds(cfg: Config, base: Files, s: State, log: seq<Entry>, m: Message)
    requires Holds(cfg, base, s, log) && s.stream.Busy?
    ensures var (t, e) := StepMessage(cfg, s, m);
            && Holds(cfg, base - Gone(cfg, log, Entry(Next(m), e), true), t, log + [Entry(Next(m), e)])
            && s.tree.dirs - Gone(cfg, log, Entry(Next(m), e), false) <= t.tree.dirs
  {
    var log' := log + [Entry(Next(m), StepMessage(cfg, s, m).1)];
    assert base - {} == base;
    match m
    case Content(_, _, _) => ContentHolds(cfg, base, s, log, m);
    case End(_, _) => EndHolds(cfg, base, s, log, log', m);
    case _ => FinishHolds(cfg, base, s, log, log');
  }

  lemma StepHolds(cfg: Config, base: Files, s: State, log: seq<Entry>, a: Action)
    requires Holds(cfg, base, s, log) && (a.First? ==> Tidy(cfg, ImageOf(cfg, a.version)))
    ensures var (t, e) := Step(cfg, s, a);
            && Holds(cfg, base - Gone(cfg, log, Entry(a, e), true), t, log + [Entry(a, e)])
            && s.tree.dirs - Gone(cfg, log, Entry(a, e), false) <= t.tree.dirs
  {
    if a.Next? && s.stream.Busy? {
      MessageHolds(cfg, base, s, log, a.m);
    } else {
      assert (log + [Entry(a, Step(cfg, s, a).1)])[..|log|] == log;
      assert base - {} == base;
    }
  }

  lemma DroppedMore(cfg: Config, log: seq<Entry>, e: Entry, file: bool)
    ensures Dropped(cfg, log + [e], file) == Dropped(cfg, log, file) + Gone(cfg, log, e, file)
  {
    assert (log + [e])[..|log|] == log;
  }

  lemma TakenMore(files: Files, some: set<Place>, more: set<Place>)
    ensures files - some - more == files - (some + more)
  {
  }

  lemma {:induction false} RunHolds(cfg: Config, s: State, actions: seq<Action>)
    requires AllTidy(cfg, actions) && s.stream.Idle? && Sound(cfg.cwd, s.tree)
    ensures var (t, log) := Run(cfg, s, actions);
            && Holds(cfg, s.tree.files - Dropped(cfg, log, true), t, log)
            && s.tree.dirs - Dropped(cfg, log, false) <= t.tree.dirs
  {
    if actions == [] {
      assert s.tree.files - {} == s.tree.files;
    } else {
      var n := |actions| - 1;
      RunHolds(cfg, s, actions[..n]);
      var (before, log) := Run(cfg, s, actions[..n]);
      var e := Entry(actions[n], Step(cfg, before, actions[n]).1);
      StepHolds(cfg, s.tree.files - Dropped(cfg, log, true), before, log, actions[n]);
      DroppedMore(cfg, log, e, true);
      DroppedMore(cfg, log, e, false);
      TakenMore(s.tree.files, Dropped(cfg, log, true), Gone(cfg, log, e, true));
    }
  }

  /** Once no stream is writing, the files are those of the start but for the dropped ones, and no
      directory is missing but for dropped ones. */
  ghost predicate Restores(cfg: Config, s: State, actions: seq<Action>) {
    var (t, log) := Run(cfg, s, actions);
    && (!(t.stream.Busy? && t.stream.initiated) ==> t.tree.files == s.tree.files - Dropped(cfg, log, true))
    && s.tree.dirs - Dropped(cfg, log, false) <= t.tree.dirs
  }

  /** Whatever streams were opened, and however they ended. */
  lemma DiskIsRestored(cfg: Config, s: State, actions: seq<Action>)
    requires AllTidy(cfg, actions) && s.stream.Idle? && Sound(cfg.cwd, s.tree)
    ensures Restores(cfg, s, actions)
  {
    RunHolds(cfg, s, actions);
  }

  // ---------- Exactly which versions are cleaned up ----------

  /** The least disk: the working directory and those above it. */
  function Least(cfg: Config): Tree { Tree(map[], Path(cfg.cwd)) }

  lemma LeastSound(cfg: Config)
    ensures Sound(cfg.cwd, Least(cfg))
  {
    forall p | p in Path(cfg.cwd) ensures Above(p) <= Path(cfg.cwd) {
      if p in Above(cfg.cwd) { AboveTransitive(cfg.cwd, p); }
    }
  }

  /** A stream that sends one chunk. */
  function OneChunk(v: string, chunk: Bytes): seq<Action> { [Call, First(v, Ready), Next(Content(chunk, Written, true))] }

  lemma RunOneChunk(cfg: Config, s: State, v: string, chunk: Bytes)
    requires v != "" && s.stream.Idle?
    ensures var t := s.(stream := Busy(ImageOf(cfg, v), false));
            Run(cfg, s, OneChunk(v, chunk)).0 == StepContent(cfg, t, Content(chunk, Written, true)).0
  {
    var m := Content(chunk, Written, true);
    RunSnoc(cfg, s, [], Call);
    RunSnoc(cfg, s, [] + [Call], First(v, Ready));
    RunSnoc(cfg, s, [] + [Call] + [First(v, Ready)], Next(m));
    assert OneChunk(v, chunk) == [] + [Call] + [First(v, Ready)] + [Next(m)];
  }

  /** A chunk for an image that is not found and whose file can be made. */
  lemma ChunkWritten(cfg: Config, s: State, v: string, chunk: Bytes)
    requires v != "" && s.stream.Idle?
    requires var img := ImageOf(cfg, v); !Exists(cfg, s.tree, img) && Opens(cfg, s.tree, img, Written)
    ensures var img := ImageOf(cfg, v);
            var t := Run(cfg, s, OneChunk(v, chunk)).0;
            && t.stream == Busy(img, true)
            && t.tree == Tree(Append(s.tree.files, Target(cfg, img), chunk), s.tree.dirs + Above(Target(cfg, img)))
  {
    RunOneChunk(cfg, s, v, chunk);
  }

  lemma ChunkThenClosed(cfg: Config, s: State, v: string, chunk: Bytes)
    requires Run(cfg, s, OneChunk(v, chunk)).0.stream == Busy(ImageOf(cfg, v), true)
    ensures var (t, t') := (Run(cfg, s, OneChunk(v, chunk)).0, Run(cfg, s, OneChunk(v, chunk) + [Next(Closed)]).0);
            t'.stream.Idle? && t'.tree == Remove(cfg, t.tree, ImageOf(cfg, v))
  {
    RunSnoc(cfg, s, OneChunk(v, chunk), Next(Closed));
  }

  lemma RemoveOther(cfg: Config, t: Tree, img: string, p: Place)
    requires Found(cfg, t.dirs, img) != Some(p) && p in t.files
    ensures var t' := Remove(cfg, t, img); p in t'.files && t'.files[p] == t.files[p]
  {
  }

  /** Some chunk can be written for the image. */
  predicate Writes(cfg: Config, img: string) {
    Inside(cfg, img) && Target(cfg, img) !in Path(cfg.cwd) && !AlwaysThere(cfg, img)
  }

  lemma LeastOpens(cfg: Config, img: string)
    requires Writes(cfg, img)
    ensures !Exists(cfg, Least(cfg), img) && Opens(cfg, Least(cfg), img, Written)
  {
    FoundIs(cfg, Path(cfg.cwd), img);
  }

  /** Only this version is asked for. */
  ghost predicate OnlyVersion(actions: seq<Action>, v: string) {
    forall i :: 0 <= i < |actions| && actions[i].First? ==> actions[i].version == v
  }

  /** A run for one version, from any disk. */
  ghost predicate RunOf(cfg: Config, s: State, actions: seq<Action>, v: string) {
    s.stream.Idle? && Sound(cfg.cwd, s.tree) && OnlyVersion(actions, v)
  }

  lemma UntidyStays(cfg: Config, v: string)
    requires v != "" && !Tidy(cfg, ImageOf(cfg, v))
    ensures var s, run := State(Least(cfg), map[], Idle), OneChunk(v, []) + [Next(Closed)];
            RunOf(cfg, s, run, v) && !Restores(cfg, s, run)
  {
    var s, img, run := State(Least(cfg), map[], Idle), ImageOf(cfg, v), OneChunk(v, []) + [Next(Closed)];
    var z := Target(cfg, img);
    LeastSound(cfg);
    LeastOpens(cfg, img);
    ChunkWritten(cfg, s, v, []);
    ChunkThenClosed(cfg, s, v, []);
    var t := Run(cfg, s, OneChunk(v, [])).0;
    FoundIs(cfg, t.tree.dirs, img);
    RemoveOther(cfg, t.tree, img, z);
    assert z in Run(cfg, s, run).0.tree.files;
  }

  lemma TidyRestores(cfg: Config, s: State, actions: seq<Action>, v: string)
    requires Tidy(cfg, ImageOf(cfg, v)) && RunOf(cfg, s, actions, v)
    ensures Restores(cfg, s, actions)
  {
    DiskIsRestored(cfg, s, actions);
  }

  /** Every run for a version restores the disk exactly when the version is tidy: otherwise a single
      chunk stays behind. */
  lemma RestoredIff(cfg: Config, v: string)
    requires v != ""
    ensures Tidy(cfg, ImageOf(cfg, v)) <==> forall s: State, actions :: RunOf(cfg, s, actions, v) ==> Restores(cfg, s, actions)
  {
    if Tidy(cfg, ImageOf(cfg, v)) {
      forall s: State, actions | RunOf(cfg, s, actions, v) ensures Restores(cfg, s, actions) { TidyRestores(cfg, s, actions, v); }
    } else {
      UntidyStays(cfg, v);
    }
  }

  // ---------- Plain versions, and one with a final slash ----------

  lemma DirStops(ds: Place)
    requires AllOrdinary(ds)
    ensures Visited([], Split(Render(true, ds), '/')) <= Path(ds) && Walk(true, [], Split(Render(true, ds), '/')) == ds
  {
    var p := Render(true, ds);
    NamesOfRender(ds);
    assert p == "" + ['/'] + Join(ds, '/');
    SplitAppend("", Join(ds, '/'), '/');
    assert Split("", '/') == [""];
    VisitedAppend([], [""], Split(Join(ds, '/'), '/'));
    assert Walk(true, [], [""]) == [] && Visited([], [""]) == {[]};
    AboveIff(ds, []);
    if ds != [] {
      SplitOrdinary(ds);
      VisitedPlain([], ds);
      assert [] + ds == ds;
    } else {
      assert Split(Join(ds, '/'), '/') == [""];
    }
  }

  /** Where the name of an image in a plain directory leads, and by which places. */
  lemma PlainDir(cfg: Config, ds: Place, v: string)
    requires AllOrdinary(ds) && cfg.dir == Render(true, ds)
    ensures var img := ImageOf(cfg, v);
            && Rooted(img) && Named(cfg, img) == Walk(true, ds, Split(v, '/'))
            && Visited(ds, Split(v, '/')) <= Stops(cfg, img) <= Path(ds) + Visited(ds, Split(v, '/'))
  {
    var img := ImageOf(cfg, v);
    assert img == cfg.dir + ['/'] + v && img[0] == cfg.dir[0];
    SplitAppend(cfg.dir, v, '/');
    DirStops(ds);
    WalkAppend(true, [], Split(cfg.dir, '/'), Split(v, '/'));
    VisitedAppend([], Split(cfg.dir, '/'), Split(v, '/'));
  }

  lemma AboveOne(ds: Place, x: string)
    ensures Above(ds + [x]) == Path(ds)
  {
    forall q ensures q in Above(ds + [x]) <==> q in Path(ds) {
      AboveIff(ds + [x], q);
      AboveIff(ds, q);
    }
  }

  /** In a plain absolute directory every plain version is cleaned up after. */
  lemma PlainTidy(cfg: Config, ds: Place, x: string)
    requires AllOrdinary(ds) && cfg.dir == Render(true, ds) && Ordinary(x)
    ensures Tidy(cfg, ImageOf(cfg, x)) && Named(cfg, ImageOf(cfg, x)) == ds + [x]
  {
    PlainDir(cfg, ds, x);
    SplitFree(x, '/');
    assert [x][1..] == [];
    assert Walk(true, ds, [x]) == ds + [x] && Visited(ds, [x]) == {ds};
    AboveOne(ds, x);
    TargetIsImage(cfg, ImageOf(cfg, x));
  }

  lemma SlashedImage(cfg: Config, ds: Place, x: string)
    requires AllOrdinary(ds) && cfg.dir == Render(true, ds) && Ordinary(x)
    ensures var img := ImageOf(cfg, x + "/");
            && Rooted(img) && Named(cfg, img) == Target(cfg, img) == ds + [x] && ds + [x] in Stops(cfg, img)
  {
    PlainDir(cfg, ds, x + "/");
    assert x + "/" == x + ['/'] + "";
    SplitAppend(x, "", '/');
    SplitFree(x, '/');
    assert Split("", '/') == [""];
    assert [x] + [""] == [x, ""] && [x, ""][1..] == [""];
    assert Visited(ds + [x], [""]) == {ds + [x]} && Walk(true, ds + [x], [""]) == ds + [x];
    TargetIsImage(cfg, ImageOf(cfg, x + "/"));
  }

  lemma {:induction false} JoinMore(ds: Place, x: string)
    ensures Render(true, ds) <= Render(true, ds + [x])
  {
    if ds != [] { JoinAppend(ds, [x], '/'); }
  }

  lemma SlashedInside(cfg: Config, ds: Place, x: string)
    requires AllOrdinary(ds) && cfg.dir == Render(true, ds) && Ordinary(x)
    ensures Inside(cfg, ImageOf(cfg, x + "/"))
  {
    SlashedImage(cfg, ds, x);
    JoinMore(ds, x);
  }

  /** With a final slash the name is cleaned where it is written and followed as it is elsewhere,
      which takes a directory: an image that is there is not seen, the chunk is added to it, and it
      stays when the stream ends. */
  lemma SlashStays(cfg: Config, s: State, ds: Place, x: string, chunk: Bytes)
    requires AllOrdinary(ds) && cfg.dir == Render(true, ds) && Ordinary(x)
    requires s.stream.Idle? && Sound(cfg.cwd, s.tree) && ds in s.tree.dirs && ds + [x] !in s.tree.dirs
    ensures !Tidy(cfg, ImageOf(cfg, x + "/"))
    ensures var t := Run(cfg, s, OneChunk(x + "/", chunk) + [Next(Closed)]).0;
            t.stream.Idle? && t.tree == Tree(Append(s.tree.files, ds + [x], chunk), s.tree.dirs)
  {
    var img, w := ImageOf(cfg, x + "/"), ds + [x];
    SlashedImage(cfg, ds, x);
    SlashedInside(cfg, ds, x);
    SoundPath(cfg.cwd, s.tree, cfg.cwd);
    SoundPath(cfg.cwd, s.tree, ds);
    AboveOne(ds, x);
    NotAbove(w);
    FoundIs(cfg, s.tree.dirs, img);
    ChunkWritten(cfg, s, x + "/", chunk);
    assert s.tree.dirs + Above(w) == s.tree.dirs;
    ChunkThenClosed(cfg, s, x + "/", chunk);
  }

  // ---------- What the backend sees ----------

  function FileAt(files: Files, p: Place): Option<Bytes> { if p in files then Some(files[p]) else None }

  lemma HandsOver(cfg: Config, s: State, a: Action)
    requires Step(cfg, s, a).1.HandedOver?
    ensures s.stream.Busy? && a.Next? && a.m.End? && Step(cfg, s, a).1.image == Contents(cfg, s.tree, s.stream.img)
  {
  }

  lemma HoldsImage(cfg: Config, base: Files, s: State, log: seq<Entry>)
    requires Holds(cfg, base, s, log) && s.stream.Busy?
    ensures Contents(cfg, s.tree, s.stream.img) ==
            if Received(log).Some? then Received(log)
            else if Stops(cfg, Image(log)) <= s.tree.dirs then FileAt(base, Named(cfg, Image(log))) else None
  {
    FoundIs(cfg, s.tree.dirs, s.stream.img);
    if s.stream.initiated { DirectFound(cfg, s.tree, s.stream.img); }
  }

  /** The backend is handed the chunks of its own stream, in order and nothing else; with no
      chunk, the file that is there, if the name can be followed. */
  lemma BackendSeesImage(cfg: Config, s: State, actions: seq<Action>, a: Action)
    requires AllTidy(cfg, actions) && s.stream.Idle? && Sound(cfg.cwd, s.tree)
    requires Step(cfg, Run(cfg, s, actions).0, a).1.HandedOver?
    ensures var (t, log) := Run(cfg, s, actions);
            Step(cfg, t, a).1.image ==
            if Received(log).Some? then Received(log)
            else if Stops(cfg, Image(log)) <= t.tree.dirs then FileAt(s.tree.files - Dropped(cfg, log, true), Named(cfg, Image(log)))
            else None
  {
    RunHolds(cfg, s, actions);
    var (t, log) := Run(cfg, s, actions);
    HandsOver(cfg, t, a);
    HoldsImage(cfg, s.tree.files - Dropped(cfg, log, true), t, log);
  }
}
