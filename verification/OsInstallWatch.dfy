/** Which images install streams drop, and which places they touch at all. */
module OsInstallWatch {
  import opened Delimited
  import opened FilePath
  import opened FileTree
  import opened Options
  import opened OsInstall
  import opened OsInstallDisk

  // ---------- The images dropped, without the run ----------

  /** How far the open stream has got. */
  datatype Phase = NoStream | Asked | Begun(img: string) | Filling(img: string)

  datatype Watching = Watching(phase: Phase, dirs: set<Place>, gone: set<Place>)

  function Blank(names: set<Place>): Files { map p | p in names :: [] }

  /** What is there, as far as it can be told without the contents. */
  function Skeleton(names: set<Place>, w: Watching): Tree { Tree(Blank(names - w.gone), w.dirs) }

  function NextChunk(cfg: Config, t: Tree, w: Watching, img: string, m: Message): Watching
    requires m.Content?
  {
    Watching(if Takes(cfg, t, img, m.outcome) && m.delivered then Filling(img) else NoStream,
             WriteChunk(cfg, t, img, [], m.outcome).dirs, w.gone)
  }

  function NextBegun(cfg: Config, t: Tree, w: Watching, img: string, m: Message): Watching {
    if m.Content? && !Exists(cfg, t, img) then NextChunk(cfg, t, w, img, m)
    else if m.End? && !(m.accepted && m.delivered) then
      Watching(NoStream, Remove(cfg, t, img).dirs, w.gone + if Contents(cfg, t, img).Some? then {Named(cfg, img)} else {})
    else w.(phase := NoStream)
  }

  function NextWatch(cfg: Config, names: set<Place>, w: Watching, a: Action): Watching {
    match a
    case Call => if w.phase.NoStream? then w.(phase := Asked) else w
    case First(v, o) =>
      if !w.phase.Asked? then w else w.(phase := if o.Ready? && v != "" then Begun(ImageOf(cfg, v)) else NoStream)
    case Next(m) =>
      match w.phase
      case Begun(img) => NextBegun(cfg, Skeleton(names, w), w, img, m)
      case Filling(img) => if m.Content? then NextChunk(cfg, Skeleton(names, w), w, img, m) else w.(phase := NoStream)
      case _ => w
  }

  /** The phase and directories after some actions, and the places whose image has been dropped:
      this needs only the names that were there at the start. */
  function Watch(cfg: Config, names: set<Place>, dirs: set<Place>, actions: seq<Action>): Watching {
    if actions == [] then Watching(NoStream, dirs, {})
    else NextWatch(cfg, names, Watch(cfg, names, dirs, actions[..|actions| - 1]), actions[|actions| - 1])
  }

  function PhaseOf(stream: Stream): Phase {
    match stream
    case Idle => NoStream
    case Waiting => Asked
    case Busy(img, initiated) => if initiated then Filling(img) else Begun(img)
  }

  /** Contents make no difference to what is found, taken or made. */
  lemma BlankSame(cfg: Config, t: Tree, img: string, chunk: Bytes, o: Outcome)
    ensures var b := Tree(Blank(t.files.Keys), t.dirs);
            && Exists(cfg, t, img) == Exists(cfg, b, img) && Contents(cfg, t, img).Some? == Contents(cfg, b, img).Some?
            && Takes(cfg, t, img, o) == Takes(cfg, b, img, o)
            && WriteChunk(cfg, t, img, chunk, o).dirs == WriteChunk(cfg, b, img, [], o).dirs
  {
    var b := Tree(Blank(t.files.Keys), t.dirs);
    assert Listed(t) == Listed(b);
    assert Blocked(t.files, Target(cfg, img)) == Blocked(b.files, Target(cfg, img));
  }

  lemma BlankRemove(cfg: Config, t: Tree, img: string)
    ensures Remove(cfg, t, img).dirs == Remove(cfg, Tree(Blank(t.files.Keys), t.dirs), img).dirs
  {
    var b := Tree(Blank(t.files.Keys), t.dirs);
    assert Listed(t) == Listed(b);
  }

  /** Nor does the image of the open stream. */
  lemma FilledSame(cfg: Config, base: Files, t: Tree, img: string, b: Bytes, chunk: Bytes, o: Outcome)
    requires Filled(cfg, base, t, img, b)
    ensures Takes(cfg, t, img, o) == Takes(cfg, Tree(base, t.dirs), img, o)
    ensures WriteChunk(cfg, t, img, chunk, o).dirs == WriteChunk(cfg, Tree(base, t.dirs), img, chunk, o).dirs
  {
    var w := Named(cfg, img);
    NotAbove(w);
    assert Blocked(t.files, w) == Blocked(base, w);
  }

  lemma WatchChunk(cfg: Config, base: Files, s: State, log: seq<Entry>, m: Message, w: Watching)
    requires Holds(cfg, base, s, log) && s.stream.Busy? && m.Content? && (!s.stream.initiated ==> !Exists(cfg, s.tree, s.stream.img))
    ensures var t := StepContent(cfg, s, m).0;
            NextChunk(cfg, Tree(Blank(base.Keys), s.tree.dirs), w, s.stream.img, m) == Watching(PhaseOf(t.stream), t.tree.dirs, w.gone)
  {
    var img, b := s.stream.img, Tree(base, s.tree.dirs);
    var had := if s.stream.initiated then Received(log).value else [];
    BlankSame(cfg, b, img, m.chunk, m.outcome);
    if s.stream.initiated {
      FilledSame(cfg, base, s.tree, img, had, m.chunk, m.outcome);
      WriteFilled(cfg, base, s.tree, img, had, m.chunk, m.outcome);
    } else {
      WriteMissing(cfg, base, s.tree, img, m.chunk, m.outcome);
    }
    WriteSound(cfg, s.tree, img, m.chunk, m.outcome);
    var next := Chunked(cfg, s, m);
    var kept := Kept(m.chunk, m.outcome);
    var full := if !Opens(cfg, s.tree, img, m.outcome) then had else if s.stream.initiated then had + kept else kept;
    DiscardHolds(cfg, base, next, full);
  }

  lemma WatchBegun(cfg: Config, base: Files, s: State, log: seq<Entry>, m: Message, w: Watching)
    requires Holds(cfg, base, s, log) && s.stream.Busy? && !s.stream.initiated
    requires w.phase == Begun(s.stream.img) && w.dirs == s.tree.dirs
    ensures var (t, e) := StepMessage(cfg, s, m);
            NextBegun(cfg, Tree(Blank(base.Keys), s.tree.dirs), w, s.stream.img, m) ==
            Watching(PhaseOf(t.stream), t.tree.dirs, w.gone + Gone(cfg, log, Entry(Next(m), e), true))
  {
    var img := s.stream.img;
    assert w.gone + {} == w.gone;
    BlankSame(cfg, s.tree, img, [], Written);
    BlankRemove(cfg, s.tree, img);
    if m.Content? && !Exists(cfg, s.tree, img) {
      WatchChunk(cfg, base, s, log, m, w);
    }
  }

  lemma WatchFilling(cfg: Config, base: Files, s: State, log: seq<Entry>, m: Message, w: Watching)
    requires Holds(cfg, base, s, log) && s.stream.Busy? && s.stream.initiated
    requires w.phase == Filling(s.stream.img) && w.dirs == s.tree.dirs
    ensures var (t, e) := StepMessage(cfg, s, m);
            (if m.Content? then NextChunk(cfg, Tree(Blank(base.Keys), s.tree.dirs), w, s.stream.img, m) else w.(phase := NoStream)) ==
            Watching(PhaseOf(t.stream), t.tree.dirs, w.gone + Gone(cfg, log, Entry(Next(m), e), true))
  {
    assert w.gone + {} == w.gone;
    if m.Content? { WatchChunk(cfg, base, s, log, m, w); } else { FinishHolds(cfg, base, s, log, log); }
  }

  lemma NextWatchIs(cfg: Config, base: Files, s: State, log: seq<Entry>, a: Action, names: set<Place>, gone: set<Place>)
    requires Holds(cfg, base, s, log) && base.Keys == names - gone
    ensures var (t, e) := Step(cfg, s, a);
            NextWatch(cfg, names, Watching(PhaseOf(s.stream), s.tree.dirs, gone), a) ==
            Watching(PhaseOf(t.stream), t.tree.dirs, gone + Gone(cfg, log, Entry(a, e), true))
  {
    var w := Watching(PhaseOf(s.stream), s.tree.dirs, gone);
    assert gone + {} == gone;
    assert Skeleton(names, w) == Tree(Blank(base.Keys), s.tree.dirs);
    if a.Next? && s.stream.Busy? {
      if s.stream.initiated { WatchFilling(cfg, base, s, log, a.m, w); } else { WatchBegun(cfg, base, s, log, a.m, w); }
    }
  }

  lemma {:induction false} WatchIs(cfg: Config, s: State, actions: seq<Action>)
    requires AllTidy(cfg, actions) && s.stream.Idle? && Sound(cfg.cwd, s.tree)
    ensures var (t, log) := Run(cfg, s, actions);
            Watch(cfg, s.tree.files.Keys, s.tree.dirs, actions) == Watching(PhaseOf(t.stream), t.tree.dirs, Dropped(cfg, log, true))
  {
    if actions != [] {
      var n := |actions| - 1;
      var init, a := actions[..n], actions[n];
      WatchIs(cfg, s, init);
      RunHolds(cfg, s, init);
      var (before, log) := Run(cfg, s, init);
      var gone := Dropped(cfg, log, true);
      DroppedMore(cfg, log, Entry(a, Step(cfg, before, a).1), true);
      NextWatchIs(cfg, s.tree.files - gone, before, log, a, s.tree.files.Keys, gone);
    }
  }

  /** The files are as at the start exactly when no empty transfer for an image that was there
      ended badly. */
  lemma DiskIsSameIff(cfg: Config, s: State, actions: seq<Action>)
    requires AllTidy(cfg, actions) && s.stream.Idle? && Sound(cfg.cwd, s.tree)
    ensures var t := Run(cfg, s, actions).0;
            var w := Watch(cfg, s.tree.files.Keys, s.tree.dirs, actions);
            !w.phase.Filling? ==> (t.tree.files == s.tree.files <==> s.tree.files.Keys !! w.gone)
  {
    RunHolds(cfg, s, actions);
    WatchIs(cfg, s, actions);
    var gone := Watch(cfg, s.tree.files.Keys, s.tree.dirs, actions).gone;
    if p :| p in s.tree.files && p in gone {
      assert p !in s.tree.files - gone;
    } else {
      assert s.tree.files - gone == s.tree.files;
    }
  }

  // ---------- Staying in the image directory ----------

  /** The place of the image directory. */
  function Base(cfg: Config): Place { if cfg.dir == "" then [] else Named(cfg, cfg.dir) }

  /** The version goes up no further than it comes down again by the same names. */
  predicate Contained(ds: Place, v: string) {
    var r := StepsOf(Split(v, '/'));
    (if r.ups <= |ds| then ds[|ds| - r.ups..] else ds) <= r.names
  }

  lemma ImageFromBase(cfg: Config, v: string)
    requires AllOrdinary(cfg.cwd)
    ensures Named(cfg, ImageOf(cfg, v)) == Reach(Base(cfg), StepsOf(Split(v, '/')))
  {
    if cfg.dir == "" {
      RootImage(v);
      assert ImageOf(cfg, v) == "/" + v;
    } else if Rooted(cfg.dir) {
      NamesFrom(cfg.dir, v);
    } else {
      RelativeImage(cfg, v);
      NamedReach(cfg, cfg.dir);
    }
  }

  lemma RootImage(v: string)
    ensures Rooted("/" + v) && Walk(true, [], Split("/" + v, '/')) == Reach([], StepsOf(Split(v, '/')))
  {
    assert "/" + v == "" + ['/'] + v;
    SplitAppend("", v, '/');
    assert Split("", '/') == [""];
    WalkAppend(true, [], [""], Split(v, '/'));
    assert Walk(true, [], [""]) == [];
    SplitSlashFree(v);
    WalkReaches([], Split(v, '/'));
  }

  lemma ReachBelow(ds: Place, r: Steps)
    ensures ds <= Reach(ds, r) <==> (if r.ups <= |ds| then ds[|ds| - r.ups..] else ds) <= r.names
  {
    var up := if r.ups <= |ds| then |ds| - r.ups else 0;
    var at := Reach(ds, r);
    assert at == ds[..up] + r.names && ds == ds[..up] + ds[up..];
    if ds <= at { assert ds[up..] == at[up..|ds|]; }
    if ds[up..] <= r.names { assert ds == at[..|ds|]; }
  }

  /** The name of an image leads into the directory or below it exactly when the version is
      contained. */
  lemma BelowIff(cfg: Config, v: string)
    requires AllOrdinary(cfg.cwd)
    ensures Base(cfg) <= Named(cfg, ImageOf(cfg, v)) <==> Contained(Base(cfg), v)
  {
    ImageFromBase(cfg, v);
    ReachBelow(Base(cfg), StepsOf(Split(v, '/')));
  }

  /** Some file can be removed under this name: what it leads through does not lie at or below it. */
  predicate Removes(cfg: Config, img: string) {
    forall q :: q in Stops(cfg, img) + {cfg.cwd} ==> Named(cfg, img) !in Path(q)
  }

  /** The places that streams for an image can change. */
  predicate Touches(cfg: Config, img: string, p: Place) {
    (p == Target(cfg, img) && Writes(cfg, img)) || (p == Named(cfg, img) && Removes(cfg, img))
  }

  lemma RemoveTouches(cfg: Config, t: Tree, img: string, p: Place)
    requires Sound(cfg.cwd, t) && FileAt(t.files, p) != FileAt(Remove(cfg, t, img).files, p)
    ensures Touches(cfg, img, p)
  {
    var w := Named(cfg, img);
    FoundIs(cfg, t.dirs, img);
    forall q | q in Stops(cfg, img) + {cfg.cwd} ensures w !in Path(q) { SoundPath(cfg.cwd, t, q); }
  }

  lemma WriteTouches(cfg: Config, t: Tree, img: string, chunk: Bytes, o: Outcome, p: Place)
    requires Sound(cfg.cwd, t) && !AlwaysThere(cfg, img)
    requires FileAt(t.files, p) != FileAt(WriteChunk(cfg, t, img, chunk, o).files, p)
    ensures p == Target(cfg, img) && Writes(cfg, img)
  {
    SoundPath(cfg.cwd, t, cfg.cwd);
  }

  lemma FinishTouches(cfg: Config, s: State, p: Place)
    requires Sound(cfg.cwd, s.tree) && s.stream.Busy? && !Touches(cfg, s.stream.img, p)
    ensures FileAt(Finish(cfg, s).tree.files, p) == FileAt(s.tree.files, p) == FileAt(Discard(cfg, s).tree.files, p)
  {
    var img := s.stream.img;
    var t := Remove(cfg, s.tree, img);
    RemoveSound(cfg, s.tree, img);
    if FileAt(s.tree.files, p) != FileAt(t.files, p) { RemoveTouches(cfg, s.tree, img, p); }
    if FileAt(t.files, p) != FileAt(Remove(cfg, t, img).files, p) { RemoveTouches(cfg, t, img, p); }
  }

  /** What the disk is right after a chunk, before anything is removed. */
  function AfterWrite(cfg: Config, s: State, m: Message): Tree
    requires s.stream.Busy? && m.Content?
  {
    if !s.stream.initiated && Exists(cfg, s.tree, s.stream.img) then s.tree else Chunked(cfg, s, m).tree
  }

  /** A stream that has written is not for a directory that is always there. */
  ghost predicate Sane(cfg: Config, s: State, v: string) {
    && Sound(cfg.cwd, s.tree)
    && (s.stream.Busy? ==> s.stream.img == ImageOf(cfg, v) && (s.stream.initiated ==> !AlwaysThere(cfg, s.stream.img)))
  }

  lemma AfterWriteTouches(cfg: Config, s: State, v: string, m: Message, p: Place)
    requires Sane(cfg, s, v) && s.stream.Busy? && m.Content?
    requires FileAt(s.tree.files, p) != FileAt(AfterWrite(cfg, s, m).files, p)
    ensures p == Target(cfg, ImageOf(cfg, v)) && Writes(cfg, ImageOf(cfg, v))
  {
    if AlwaysThere(cfg, s.stream.img) { AlwaysExists(cfg, s.tree, s.stream.img); }
    WriteTouches(cfg, s.tree, s.stream.img, m.chunk, m.outcome, p);
  }

  lemma ContentTouches(cfg: Config, s: State, v: string, m: Message, p: Place)
    requires Sane(cfg, s, v) && s.stream.Busy? && m.Content? && !Touches(cfg, ImageOf(cfg, v), p)
    ensures FileAt(StepContent(cfg, s, m).0.tree.files, p) == FileAt(s.tree.files, p)
  {
    if s.stream.initiated || !Exists(cfg, s.tree, s.stream.img) {
      var next := Chunked(cfg, s, m);
      if FileAt(s.tree.files, p) != FileAt(next.tree.files, p) { AfterWriteTouches(cfg, s, v, m, p); }
      WriteSound(cfg, s.tree, s.stream.img, m.chunk, m.outcome);
      FinishTouches(cfg, next, p);
    }
  }

  lemma StepTouches(cfg: Config, s: State, v: string, a: Action, p: Place)
    requires Sane(cfg, s, v) && !Touches(cfg, ImageOf(cfg, v), p)
    ensures FileAt(Step(cfg, s, a).0.tree.files, p) == FileAt(s.tree.files, p)
  {
    if a.Next? && s.stream.Busy? {
      if a.m.Content? { ContentTouches(cfg, s, v, a.m, p); } else { FinishTouches(cfg, s, p); }
    }
  }

  lemma StepSane(cfg: Config, s: State, v: string, a: Action)
    requires Sane(cfg, s, v) && (a.First? ==> a.version == v)
    ensures Sane(cfg, Step(cfg, s, a).0, v)
  {
    StepSound(cfg, s, a);
    if s.stream.Busy? && AlwaysThere(cfg, s.stream.img) { AlwaysExists(cfg, s.tree, s.stream.img); }
  }

  lemma {:induction false} RunSane(cfg: Config, s: State, actions: seq<Action>, v: string)
    requires RunOf(cfg, s, actions, v)
    ensures Sane(cfg, Run(cfg, s, actions).0, v)
  {
    if actions != [] {
      var n := |actions| - 1;
      RunSane(cfg, s, actions[..n], v);
      StepSane(cfg, Run(cfg, s, actions[..n]).0, v, actions[n]);
    }
  }

  /** A run changes nothing but these places. */
  lemma {:induction false} RunTouches(cfg: Config, s: State, actions: seq<Action>, v: string, p: Place)
    requires RunOf(cfg, s, actions, v) && !Touches(cfg, ImageOf(cfg, v), p)
    ensures FileAt(Run(cfg, s, actions).0.tree.files, p) == FileAt(s.tree.files, p)
  {
    if actions != [] {
      var n := |actions| - 1;
      RunTouches(cfg, s, actions[..n], v, p);
      RunSane(cfg, s, actions[..n], v);
      StepTouches(cfg, Run(cfg, s, actions[..n]).0, v, actions[n], p);
    }
  }

  /** Everything that is different is below this place. */
  ghost predicate OnlyBelow(base: Place, f: Files, f': Files) {
    forall p :: FileAt(f, p) != FileAt(f', p) ==> base <= p
  }

  /** A stream without a chunk whose end fails. */
  function EmptyTransfer(v: string): seq<Action> { [Call, First(v, Ready), Next(End(false, true))] }

  lemma RunEmptyTransfer(cfg: Config, s: State, v: string)
    requires v != "" && s.stream.Idle?
    ensures Run(cfg, s, EmptyTransfer(v)).0.tree == Remove(cfg, s.tree, ImageOf(cfg, v))
  {
    RunSnoc(cfg, s, [], Call);
    RunSnoc(cfg, s, [] + [Call], First(v, Ready));
    RunSnoc(cfg, s, [] + [Call] + [First(v, Ready)], Next(End(false, true)));
    assert EmptyTransfer(v) == [] + [Call] + [First(v, Ready)] + [Next(End(false, true))];
  }

  /** The directories that the name leads through, with all above them. */
  function Ways(cfg: Config, img: string): set<Place> {
    (set q, r | q in Stops(cfg, img) + {cfg.cwd} && r in Path(q) :: r) + Above(Named(cfg, img))
  }

  /** A disk on which the image is there and found. */
  function Holding(cfg: Config, img: string): Tree { Tree(map[Named(cfg, img) := []], Ways(cfg, img)) }

  lemma HoldingSound(cfg: Config, img: string)
    requires Removes(cfg, img)
    ensures Sound(cfg.cwd, Holding(cfg, img)) && Found(cfg, Ways(cfg, img), img) == Some(Named(cfg, img))
  {
    var w, dirs := Named(cfg, img), Ways(cfg, img);
    forall p | p in dirs ensures Above(p) <= dirs {
      if p in Above(w) {
        AboveTransitive(w, p);
      } else {
        var q :| q in Stops(cfg, img) + {cfg.cwd} && p in Path(q);
        if p != q { AboveTransitive(q, p); }
        assert Above(p) <= Path(q);
      }
    }
    NotAbove(w);
    assert forall q :: q in Stops(cfg, img) + {cfg.cwd} ==> q in Path(q);
    FoundIs(cfg, dirs, img);
  }

  lemma WritesElsewhere(cfg: Config, v: string)
    requires v != "" && Writes(cfg, ImageOf(cfg, v)) && !(Base(cfg) <= Target(cfg, ImageOf(cfg, v)))
    ensures var s := State(Least(cfg), map[], Idle);
            RunOf(cfg, s, OneChunk(v, []), v)
            && !OnlyBelow(Base(cfg), s.tree.files, Run(cfg, s, OneChunk(v, [])).0.tree.files)
  {
    var s, z := State(Least(cfg), map[], Idle), Target(cfg, ImageOf(cfg, v));
    LeastSound(cfg);
    LeastOpens(cfg, ImageOf(cfg, v));
    ChunkWritten(cfg, s, v, []);
    assert FileAt(s.tree.files, z) != FileAt(Run(cfg, s, OneChunk(v, [])).0.tree.files, z);
  }

  lemma RemoveFound(cfg: Config, t: Tree, img: string, w: Place)
    requires Found(cfg, t.dirs, img) == Some(w) && w in t.files
    ensures FileAt(t.files, w).Some? && FileAt(Remove(cfg, t, img).files, w) == None
  {
  }

  lemma NotOnlyBelow(base: Place, f: Files, f': Files, p: Place)
    requires FileAt(f, p) != FileAt(f', p) && !(base <= p)
    ensures !OnlyBelow(base, f, f')
  {
  }

  lemma RemovesElsewhere(cfg: Config, v: string)
    requires v != "" && Removes(cfg, ImageOf(cfg, v)) && !(Base(cfg) <= Named(cfg, ImageOf(cfg, v)))
    ensures var s := State(Holding(cfg, ImageOf(cfg, v)), map[], Idle);
            RunOf(cfg, s, EmptyTransfer(v), v)
            && !OnlyBelow(Base(cfg), s.tree.files, Run(cfg, s, EmptyTransfer(v)).0.tree.files)
  {
    var img := ImageOf(cfg, v);
    var s, w := State(Holding(cfg, img), map[], Idle), Named(cfg, img);
    HoldingSound(cfg, img);
    RunEmptyTransfer(cfg, s, v);
    RemoveFound(cfg, s.tree, img, w);
    NotOnlyBelow(Base(cfg), s.tree.files, Run(cfg, s, EmptyTransfer(v)).0.tree.files, w);
  }

  ghost predicate RunsBelow(cfg: Config, s: State, actions: seq<Action>) {
    OnlyBelow(Base(cfg), s.tree.files, Run(cfg, s, actions).0.tree.files)
  }

  /** All runs for a version change only what is in the image directory or below it exactly when
      the place that chunks can go to is, and the place where a file can be removed is. */
  lemma StaysBelowIff(cfg: Config, v: string)
    requires v != ""
    ensures var img := ImageOf(cfg, v);
            (Writes(cfg, img) ==> Base(cfg) <= Target(cfg, img)) && (Removes(cfg, img) ==> Base(cfg) <= Named(cfg, img)) <==>
            forall s: State, actions :: RunOf(cfg, s, actions, v) ==> RunsBelow(cfg, s, actions)
  {
    var img := ImageOf(cfg, v);
    if Writes(cfg, img) && !(Base(cfg) <= Target(cfg, img)) {
      WritesElsewhere(cfg, v);
      assert !RunsBelow(cfg, State(Least(cfg), map[], Idle), OneChunk(v, []));
    } else if Removes(cfg, img) && !(Base(cfg) <= Named(cfg, img)) {
      RemovesElsewhere(cfg, v);
      assert !RunsBelow(cfg, State(Holding(cfg, img), map[], Idle), EmptyTransfer(v));
    } else {
      forall s: State, actions | RunOf(cfg, s, actions, v) ensures RunsBelow(cfg, s, actions) {
        forall p | FileAt(s.tree.files, p) != FileAt(Run(cfg, s, actions).0.tree.files, p) ensures Base(cfg) <= p {
          if !Touches(cfg, img, p) { RunTouches(cfg, s, actions, v, p); }
        }
      }
    }
  }

  /** A chunk that comes after these actions is written below the image directory, if at all. */
  ghost predicate ChunkBelow(cfg: Config, s: State, actions: seq<Action>, m: Message) {
    var t := Run(cfg, s, actions).0;
    t.stream.Busy? && m.Content? ==> OnlyBelow(Base(cfg), t.tree.files, AfterWrite(cfg, t, m).files)
  }

  lemma ChunkElsewhere(cfg: Config, v: string)
    requires v != "" && Writes(cfg, ImageOf(cfg, v)) && !(Base(cfg) <= Target(cfg, ImageOf(cfg, v)))
    ensures var s, actions := State(Least(cfg), map[], Idle), [Call, First(v, Ready)];
            RunOf(cfg, s, actions, v) && !ChunkBelow(cfg, s, actions, Content([], Written, true))
  {
    var s, actions, m := State(Least(cfg), map[], Idle), [Call, First(v, Ready)], Content([], Written, true);
    var z := Target(cfg, ImageOf(cfg, v));
    LeastSound(cfg);
    LeastOpens(cfg, ImageOf(cfg, v));
    RunSnoc(cfg, s, [], Call);
    RunSnoc(cfg, s, [] + [Call], First(v, Ready));
    assert actions == [] + [Call] + [First(v, Ready)];
    var t := Run(cfg, s, actions).0;
    assert t == s.(stream := Busy(ImageOf(cfg, v), false));
    assert FileAt(t.tree.files, z) != FileAt(AfterWrite(cfg, t, m).files, z);
  }

  /** Chunks alone stay below exactly when the place they can go to is there. */
  lemma ChunksBelowIff(cfg: Config, v: string)
    requires v != ""
    ensures var img := ImageOf(cfg, v);
            (Writes(cfg, img) ==> Base(cfg) <= Target(cfg, img)) <==>
            forall s: State, actions, m :: RunOf(cfg, s, actions, v) ==> ChunkBelow(cfg, s, actions, m)
  {
    var img := ImageOf(cfg, v);
    if Writes(cfg, img) && !(Base(cfg) <= Target(cfg, img)) {
      ChunkElsewhere(cfg, v);
    } else {
      forall s: State, actions, m | RunOf(cfg, s, actions, v) ensures ChunkBelow(cfg, s, actions, m) {
        RunSane(cfg, s, actions, v);
        var t := Run(cfg, s, actions).0;
        if t.stream.Busy? && m.Content? {
          forall p | FileAt(t.tree.files, p) != FileAt(AfterWrite(cfg, t, m).files, p) ensures Base(cfg) <= p {
            AfterWriteTouches(cfg, t, v, m, p);
          }
        }
      }
    }
  }

  // ---------- A sibling of the directory ----------

  /** A sibling of the directory whose name goes on from that of the directory. */
  function Sibling(ds: Place): string
    requires ds != []
  {
    "../" + (ds[|ds| - 1] + "x")
  }

  lemma OrdinaryLonger(x: string)
    requires Ordinary(x)
    ensures Ordinary(x + "x") && x != x + "x"
  {
    var y := x + "x";
    assert |y| == |x| + 1 && y[|x|] == 'x';
  }

  lemma SiblingSteps(ds: Place)
    requires AllOrdinary(ds) && ds != []
    ensures Reach(ds, StepsOf(Split(Sibling(ds), '/'))) == ds[..|ds| - 1] + [ds[|ds| - 1] + "x"]
  {
    var n := |ds| - 1;
    assert Ordinary(ds[n]);
    OrdinaryLonger(ds[n]);
    UpAndDown(ds[n] + "x");
  }

  lemma LongerText(l: seq<string>, x: string)
    ensures Render(true, l + [x]) <= Render(true, l + [x + "x"])
  {
    RenderLast(l, x);
    RenderLast(l, x + "x");
    assert Lead(l) + (x + "x") == (Lead(l) + x) + "x";
  }

  lemma SiblingText(cfg: Config, ds: Place, text: string)
    requires AllOrdinary(ds) && ds != [] && cfg.dir == Render(true, ds) && PlaceText(ds, Sibling(ds)) == text
    ensures cfg.dir <= text
  {
    SiblingSteps(ds);
    LongerText(ds[..|ds| - 1], ds[|ds| - 1]);
    assert ds[..|ds| - 1] + [ds[|ds| - 1]] == ds;
  }

  /** The check of the code compares text, so it also passes such a sibling, which is not below the
      directory. */
  lemma SiblingPasses(cfg: Config, ds: Place)
    requires AllOrdinary(ds) && ds != [] && cfg.dir == Render(true, ds)
    ensures var img := ImageOf(cfg, Sibling(ds)); Inside(cfg, img) && !(Base(cfg) <= Target(cfg, img))
  {
    var n, img := |ds| - 1, ImageOf(cfg, Sibling(ds));
    SafeText(cfg, ds, Sibling(ds));
    SiblingText(cfg, ds, PlaceText(ds, Sibling(ds)));
    NamesOfRender(ds);
    SiblingSteps(ds);
    OrdinaryLonger(ds[n]);
    assert Target(cfg, img)[n] != ds[n];
  }
}
