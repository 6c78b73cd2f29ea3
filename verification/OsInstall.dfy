/** The install service: one image at a time is streamed into the image directory, handed to the
    backend, and removed. Any number of clients may call at once; their steps interleave. */
module OsInstall {
  import opened Delimited
  import opened FilePath
  import opened FileTree
  import opened Options
  import opened Words

  datatype Status = Ok | Aborted | InvalidArgument | Unimplemented

  /** How receiving and answering the transfer request goes. */
  datatype Opening = Eof | RecvFails | NotRequest | Unsupported | SendFails | Refused | Ready

  /** How writing one chunk goes; making the directories may fail after some levels, and a failed
      write may leave some of its bytes. */
  datatype Outcome = MkdirFails(made: nat) | OpenFails | WriteFails(kept: nat) | CloseFails | Written

  datatype Message =
    | Closed
    | Broken
    | Request
    | Content(chunk: Bytes, outcome: Outcome, delivered: bool)
    | End(accepted: bool, delivered: bool)

  datatype Action = Call | First(version: string, opening: Opening) | Next(m: Message)

  datatype Event =
    | Silent
    | Rejected
    | Started(img: string)
    | Progress(path: string, n: nat)
    | Lost(path: string, n: nat)
    | Ended(status: Status)
    | HandedOver(image: Option<Bytes>, status: Status)

  datatype Entry = Entry(action: Action, event: Event)

  datatype Stream = Idle | Waiting | Busy(img: string, initiated: bool)

  datatype Config = Config(cwd: Place, dir: string)

  type Totals = map<string, nat>

  datatype State = State(tree: Tree, totals: Totals, stream: Stream)

  // ---------- Names and places ----------

  function Origin(cfg: Config, p: string): Place { if Rooted(p) then [] else cfg.cwd }

  /** The place that the parts of a name lead to. */
  function Named(cfg: Config, p: string): Place { Walk(true, Origin(cfg, p), Split(p, '/')) }

  /** The place at which the system finds a name, if it can follow it. */
  function Found(cfg: Config, dirs: set<Place>, p: string): Option<Place> { Resolve(dirs, Origin(cfg, p), Split(p, '/')) }

  predicate Exists(cfg: Config, t: Tree, img: string) {
    var w := Found(cfg, t.dirs, img);
    w.Some? && w.value in Listed(t)
  }

  function Contents(cfg: Config, t: Tree, img: string): Option<Bytes> {
    var w := Found(cfg, t.dirs, img);
    if w.Some? && w.value in t.files then Some(t.files[w.value]) else None
  }

  /** The last part of a name, final slashes aside. */
  function LastPart(parts: seq<string>): string {
    if parts == [] then "" else if parts[|parts| - 1] != "" then parts[|parts| - 1] else LastPart(parts[..|parts| - 1])
  }

  /** An empty directory can be removed, except as `.`, and except the working directory. */
  predicate Removable(cfg: Config, t: Tree, img: string, w: Place) {
    w in t.dirs && w != [] && w != cfg.cwd && LastPart(Split(img, '/')) != "." && Empty(t, w)
  }

  /** Removes what the name is found to be, if that can be removed. */
  function Remove(cfg: Config, t: Tree, img: string): Tree {
    match Found(cfg, t.dirs, img)
    case None => t
    case Some(w) =>
      if w in t.files then t.(files := t.files - {w})
      else if Removable(cfg, t, img, w) then t.(dirs := t.dirs - {w})
      else t
  }

  // ---------- One chunk ----------

  /** The name that a chunk is written to. */
  function SafePath(dir: string, img: string): string {
    var p := Clean(img);
    if Rooted(p) then p else JoinPath(dir, p)
  }

  function Target(cfg: Config, img: string): Place { Named(cfg, SafePath(cfg.dir, img)) }

  function Get(totals: Totals, path: string): nat { if path in totals then totals[path] else 0 }

  function Append(files: Files, p: Place, b: Bytes): Files {
    files[p := (if p in files then files[p] else []) + b]
  }

  function Kept(chunk: Bytes, o: Outcome): Bytes {
    if o.WriteFails? && o.kept < |chunk| then chunk[..o.kept] else chunk
  }

  predicate Inside(cfg: Config, img: string) { cfg.dir <= SafePath(cfg.dir, img) }

  /** A file is where a directory is needed. */
  predicate Blocked(files: Files, z: Place) { exists q :: q in files && q in Above(z) }

  /** The directories that get made: all above the file, or only the first levels of them. */
  function Made(z: Place, o: Outcome): set<Place> {
    if o.MkdirFails? then Levels(z, o.made) else Above(z)
  }

  /** Whether the file can be opened. */
  predicate Opens(cfg: Config, t: Tree, img: string, o: Outcome) {
    && Inside(cfg, img) && !Blocked(t.files, Target(cfg, img)) && Target(cfg, img) !in t.dirs
    && !o.MkdirFails? && !o.OpenFails?
  }

  /** Whether the chunk is taken and a progress reply made. */
  predicate Takes(cfg: Config, t: Tree, img: string, o: Outcome) { Opens(cfg, t, img, o) && o.Written? }

  function WriteChunk(cfg: Config, t: Tree, img: string, chunk: Bytes, o: Outcome): Tree {
    var z := Target(cfg, img);
    if !Inside(cfg, img) || Blocked(t.files, z) then t
    else Tree(if Opens(cfg, t, img, o) then Append(t.files, z, Kept(chunk, o)) else t.files, t.dirs + Made(z, o))
  }

  function Count(cfg: Config, t: Tree, totals: Totals, img: string, chunk: Bytes, o: Outcome): Totals {
    var safe := SafePath(cfg.dir, img);
    if Takes(cfg, t, img, o) then totals[safe := Wrap(Get(totals, safe) + |chunk|)] else totals
  }

  // ---------- One step ----------

  /** A stream that wrote something removes the image when it ends. */
  function Finish(cfg: Config, s: State): State {
    State(if s.stream.Busy? && s.stream.initiated then Remove(cfg, s.tree, s.stream.img) else s.tree, s.totals, Idle)
  }

  /** Where something fails, the image is removed first in any case. */
  function Discard(cfg: Config, s: State): State
    requires s.stream.Busy?
  {
    Finish(cfg, s.(tree := Remove(cfg, s.tree, s.stream.img)))
  }

  function OpeningStatus(version: string, o: Opening): Status {
    match o
    case Eof => Ok
    case NotRequest => InvalidArgument
    case Unsupported => if version == "" then Aborted else Unimplemented
    case _ => Aborted
  }

  /** The state once a chunk has been dealt with, before anything is removed. */
  function Chunked(cfg: Config, s: State, m: Message): State
    requires s.stream.Busy? && m.Content?
  {
    var img := s.stream.img;
    State(WriteChunk(cfg, s.tree, img, m.chunk, m.outcome),
          Count(cfg, s.tree, s.totals, img, m.chunk, m.outcome), Busy(img, true))
  }

  function StepContent(cfg: Config, s: State, m: Message): (State, Event)
    requires s.stream.Busy? && m.Content?
  {
    var img := s.stream.img;
    if !s.stream.initiated && Exists(cfg, s.tree, img) then (Finish(cfg, s), Ended(Aborted))
    else
      var next, safe := Chunked(cfg, s, m), SafePath(cfg.dir, img);
      if !Takes(cfg, s.tree, img, m.outcome) then (Discard(cfg, next), Ended(Aborted))
      else if m.delivered then (next, Progress(safe, Get(next.totals, safe)))
      else (Discard(cfg, next), Lost(safe, Get(next.totals, safe)))
  }

  function StepMessage(cfg: Config, s: State, m: Message): (State, Event)
    requires s.stream.Busy?
  {
    match m
    case Closed => (Finish(cfg, s), Ended(Aborted))
    case Broken => (Finish(cfg, s), Ended(Aborted))
    case Request => (Finish(cfg, s), Ended(InvalidArgument))
    case Content(_, _, _) => StepContent(cfg, s, m)
    case End(accepted, delivered) =>
      var image := Contents(cfg, s.tree, s.stream.img);
      if accepted && delivered then (Finish(cfg, s), HandedOver(image, Ok))
      else (Discard(cfg, s), HandedOver(image, Aborted))
  }

  /** A call while a stream holds the lock is turned away; the rest are steps of the stream that
      holds it. A step nobody can take changes nothing. */
  function Step(cfg: Config, s: State, a: Action): (State, Event) {
    match a
    case Call => if s.stream.Idle? then (s.(stream := Waiting), Silent) else (s, Rejected)
    case First(version, o) =>
      if !s.stream.Waiting? then (s, Silent)
      else if o.Ready? && version != ""
      then (s.(stream := Busy(cfg.dir + "/" + version, false)), Started(cfg.dir + "/" + version))
      else (s.(stream := Idle), Ended(OpeningStatus(version, o)))
    case Next(m) => if s.stream.Busy? then StepMessage(cfg, s, m) else (s, Silent)
  }

  // ---------- Runs ----------

  function Run(cfg: Config, s: State, actions: seq<Action>): (State, seq<Entry>) {
    if actions == [] then (s, [])
    else
      var n := |actions| - 1;
      var (before, log) := Run(cfg, s, actions[..n]);
      var (after, e) := Step(cfg, before, actions[n]);
      (after, log + [Entry(actions[n], e)])
  }

  lemma RunSnoc(cfg: Config, s: State, actions: seq<Action>, a: Action)
    ensures var (before, log) := Run(cfg, s, actions);
            var (after, e) := Step(cfg, before, a);
            Run(cfg, s, actions + [a]) == (after, log + [Entry(a, e)])
  {
    assert (actions + [a])[..|actions|] == actions;
  }

  /** The image that the last stream to start is for. */
  function Image(log: seq<Entry>): string {
    if log == [] then ""
    else
      var last := log[|log| - 1];
      if last.event.Started? then last.event.img else Image(log[..|log| - 1])
  }

  /** Everything up to the start of that stream. */
  function Before(log: seq<Entry>): seq<Entry> {
    if log == [] then []
    else if log[|log| - 1].event.Started? then log
    else Before(log[..|log| - 1])
  }

  predicate Wrote(e: Entry) { (e.event.Progress? || e.event.Lost?) && e.action.Next? && e.action.m.Content? }

  /** The chunks written since the last stream started, in order; None if there are none. */
  function Received(log: seq<Entry>): Option<Bytes> {
    if log == [] then None
    else
      var before, last := Received(log[..|log| - 1]), log[|log| - 1];
      if last.event.Started? then None
      else if Wrote(last) then Some((if before.Some? then before.value else []) + last.action.m.chunk)
      else before
  }

  /** How many bytes were written under a name, whichever streams they came from. */
  function Counted(log: seq<Entry>, path: string): nat {
    if log == [] then 0
    else
      var last := log[|log| - 1];
      Counted(log[..|log| - 1], path) + (if Wrote(last) && last.event.path == path then |last.action.m.chunk| else 0)
  }

  // ---------- Progress ----------

  function Size(b: Option<Bytes>): nat { if b.Some? then |b.value| else 0 }

  lemma WrapSum(x: nat, z: nat)
    ensures Wrap(Wrap(x) + z) == Wrap(x + z)
  {
  }

  lemma WrapExact(x: nat, n: nat)
    requires n < WORD
    ensures Wrap(x + n) == n <==> Wrap(x) == 0
  {
  }

  /** The stored count of a name is what it was plus what has been written under it. */
  ghost predicate Tallied(start: Totals, totals: Totals, log: seq<Entry>, p: string) {
    Get(totals, p) == Wrap(Get(start, p) + Counted(log, p))
  }

  /** Since the last stream started, the name has had just what the stream received. */
  ghost predicate Added(log: seq<Entry>, p: string) {
    Counted(log, p) == Counted(Before(log), p) + Size(Received(log))
  }

  /** What a step does to the counts: the one for the chunk's name grows, to the number replied. */
  ghost predicate Counts(totals: Totals, totals': Totals, e: Entry) {
    if Wrote(e)
    then totals' == totals[e.event.path := Wrap(Get(totals, e.event.path) + |e.action.m.chunk|)]
         && e.event.n == totals'[e.event.path]
    else totals' == totals
  }

  lemma ContentCounts(cfg: Config, s: State, m: Message)
    requires s.stream.Busy? && m.Content?
    ensures var (t, e) := StepContent(cfg, s, m);
            && Counts(s.totals, t.totals, Entry(Next(m), e))
            && (e.Progress? || e.Lost? ==> e.path == SafePath(cfg.dir, s.stream.img))
            && (t.stream.Busy? ==> t.stream.img == s.stream.img)
  {
  }

  lemma NextTallied(start: Totals, totals: Totals, totals': Totals, log: seq<Entry>, e: Entry, p: string)
    requires Tallied(start, totals, log, p) && Counts(totals, totals', e)
    ensures Tallied(start, totals', log + [e], p)
  {
    assert (log + [e])[..|log|] == log;
    if Wrote(e) { WrapSum(Get(start, p) + Counted(log, p), |e.action.m.chunk|); }
  }

  lemma NextAdded(log: seq<Entry>, e: Entry, p: string)
    requires if e.event.Started? then true else Added(log, p) && (Wrote(e) ==> e.event.path == p)
    ensures Added(log + [e], p)
  {
    assert (log + [e])[..|log|] == log;
  }

  lemma StepCounts(cfg: Config, s: State, a: Action)
    ensures var (t, e) := Step(cfg, s, a); Counts(s.totals, t.totals, Entry(a, e))
  {
    if a.Next? && s.stream.Busy? && a.m.Content? { ContentCounts(cfg, s, a.m); }
  }

  lemma StepAdded(cfg: Config, s: State, log: seq<Entry>, a: Action)
    requires s.stream.Busy? ==> Added(log, SafePath(cfg.dir, s.stream.img))
    ensures var (t, e) := Step(cfg, s, a);
            t.stream.Busy? ==> Added(log + [Entry(a, e)], SafePath(cfg.dir, t.stream.img))
  {
    var (t, e) := Step(cfg, s, a);
    if a.Next? && s.stream.Busy? && a.m.Content? { ContentCounts(cfg, s, a.m); }
    if t.stream.Busy? { NextAdded(log, Entry(a, e), SafePath(cfg.dir, t.stream.img)); }
  }

  lemma {:induction false} RunTallied(cfg: Config, s: State, actions: seq<Action>, p: string)
    requires s.stream.Idle? && Get(s.totals, p) < WORD
    ensures var (t, log) := Run(cfg, s, actions); Tallied(s.totals, t.totals, log, p)
  {
    if actions != [] {
      var n := |actions| - 1;
      RunTallied(cfg, s, actions[..n], p);
      var (before, log) := Run(cfg, s, actions[..n]);
      var (after, e) := Step(cfg, before, actions[n]);
      StepCounts(cfg, before, actions[n]);
      NextTallied(s.totals, before.totals, after.totals, log, Entry(actions[n], e), p);
    }
  }

  lemma {:induction false} RunAdded(cfg: Config, s: State, actions: seq<Action>)
    requires s.stream.Idle?
    ensures var (t, log) := Run(cfg, s, actions); t.stream.Busy? ==> Added(log, SafePath(cfg.dir, t.stream.img))
  {
    if actions != [] {
      var n := |actions| - 1;
      RunAdded(cfg, s, actions[..n]);
      var (before, log) := Run(cfg, s, actions[..n]);
      StepAdded(cfg, before, log, actions[n]);
    }
  }

  /** A count is the size of the image so far exactly when what earlier streams left in it comes
      to zero. */
  ghost predicate Meaning(start: Totals, log: seq<Entry>, p: string, n: nat) {
    && n == Wrap(Get(start, p) + Counted(log, p))
    && (Size(Received(log)) < WORD ==>
          (n == Size(Received(log)) <==> Wrap(Get(start, p) + Counted(Before(log), p)) == 0))
  }

  lemma TallyMeans(start: Totals, totals: Totals, log: seq<Entry>, p: string)
    requires Tallied(start, totals, log, p) && Added(log, p)
    ensures Meaning(start, log, p, Get(totals, p))
  {
    var x, n := Get(start, p) + Counted(Before(log), p), Size(Received(log));
    assert Get(start, p) + Counted(log, p) == x + n;
    if n < WORD { WrapExact(x, n); }
  }

  lemma ProgressStep(cfg: Config, s: State, a: Action)
    requires Step(cfg, s, a).1.Progress?
    ensures var (t, e) := Step(cfg, s, a);
            t.stream.Busy? && e.path == SafePath(cfg.dir, t.stream.img) && e.n == Get(t.totals, e.path)
  {
    if a.Next? && s.stream.Busy? && a.m.Content? { ContentCounts(cfg, s, a.m); }
  }

  /** Each progress reply of each run is the number of bytes ever written under the image's name,
      over all streams, in 64 bits. */
  lemma ProgressCounts(cfg: Config, s: State, actions: seq<Action>, e: Event)
    requires s.stream.Idle? && actions != [] && e.Progress? && Get(s.totals, e.path) < WORD
    requires e == Step(cfg, Run(cfg, s, actions[..|actions| - 1]).0, actions[|actions| - 1]).1
    ensures Meaning(s.totals, Run(cfg, s, actions).1, e.path, e.n)
  {
    var (t, log) := Run(cfg, s, actions);
    ProgressStep(cfg, Run(cfg, s, actions[..|actions| - 1]).0, actions[|actions| - 1]);
    RunTallied(cfg, s, actions, e.path);
    RunAdded(cfg, s, actions);
    TallyMeans(s.totals, t.totals, log, e.path);
  }

  // ---------- The service ----------

  function Nexts(ms: seq<Message>): seq<Action> { seq(|ms|, i requires 0 <= i < |ms| => Next(ms[i])) }

  lemma NextsMore(begun: seq<Action>, ms: seq<Message>, k: nat)
    requires k < |ms|
    ensures begun + Nexts(ms[..k + 1]) == begun + Nexts(ms[..k]) + [Next(ms[k])]
  {
    var l, m := Nexts(ms[..k]), Nexts(ms[..k + 1]);
    assert m == l + [Next(ms[k])];
    assert begun + (l + [Next(ms[k])]) == begun + l + [Next(ms[k])];
  }

  lemma RunNext(cfg: Config, s: State, begun: seq<Action>, ms: seq<Message>, k: nat, v: State, log: seq<Entry>, after: State, e: Event)
    requires k < |ms|
    ensures v.stream.Busy? && (v, log) == Run(cfg, s, begun + Nexts(ms[..k])) && (after, e) == StepMessage(cfg, v, ms[k]) ==>
              (after, log + [Entry(Next(ms[k]), e)]) == Run(cfg, s, begun + Nexts(ms[..k + 1]))
  {
    NextsMore(begun, ms, k);
    RunSnoc(cfg, s, begun + Nexts(ms[..k]), Next(ms[k]));
  }

  class OSServer {
    const cfg: Config
    var files: Files
    var dirs: set<Place>
    var totals: Totals
    var stream: Stream

    function Disk(): Tree reads this`files, this`dirs { Tree(files, dirs) }

    ghost function View(): State reads this { State(Disk(), totals, stream) }

    constructor (cfg: Config, t: Tree)
      ensures this.cfg == cfg && View() == State(t, map[], Idle)
    {
      this.cfg := cfg;
      files, dirs := t.files, t.dirs;
      totals := map[];
      stream := Idle;
    }

    method ImageExists(img: string) returns (there: bool)
      ensures there <==> Exists(cfg, Disk(), img)
    {
      var w := Found(cfg, dirs, img);
      there := w.Some? && (w.value in files || w.value in dirs);
    }

    method RemoveIncompleteTransfer(img: string)
      modifies this`files, this`dirs
      ensures Disk() == Remove(cfg, old(Disk()), img)
    {
      var there := ImageExists(img);
      if there {
        var w := Found(cfg, dirs, img).value;
        if w in files {
          files := files - {w};
        } else if Removable(cfg, Disk(), img, w) {
          dirs := dirs - {w};
        }
      }
    }

    method AppendTo(p: Place, b: Bytes)
      modifies this`files
      ensures files == Append(old(files), p, b)
    {
      if p !in files { files := files[p := []]; }
      files := files[p := files[p] + b];
    }

    method AddBytes(safe: string, size: nat) returns (n: nat)
      modifies this`totals
      ensures totals == old(totals)[safe := Wrap(Get(old(totals), safe) + size)] && n == totals[safe]
    {
      if safe !in totals { totals := totals[safe := 0]; }
      totals := totals[safe := Wrap(totals[safe] + size)];
      n := totals[safe];
    }

    method ProcessTransferContent(chunk: Bytes, img: string, o: Outcome) returns (n: Option<nat>)
      modifies this`files, this`dirs, this`totals
      ensures Disk() == WriteChunk(cfg, old(Disk()), img, chunk, o)
      ensures totals == Count(cfg, old(Disk()), old(totals), img, chunk, o)
      ensures n == if Takes(cfg, old(Disk()), img, o) then Some(Get(totals, SafePath(cfg.dir, img))) else None
    {
      var safe := SafePath(cfg.dir, img);
      var z := Named(cfg, safe);
      if !(cfg.dir <= safe) || Blocked(files, z) { return None; }
      var isDir := z in dirs;
      dirs := dirs + Made(z, o);
      if o.MkdirFails? || isDir || o.OpenFails? { return None; }
      AppendTo(z, Kept(chunk, o));
      if !o.Written? { return None; }
      var total := AddBytes(safe, |chunk|);
      n := Some(total);
    }

    /** The end of a stream: the image is removed if this stream wrote it. */
    method Close()
      requires stream.Busy?
      modifies this
      ensures View() == Finish(cfg, old(View()))
    {
      if stream.initiated { RemoveIncompleteTransfer(stream.img); }
      stream := Idle;
    }

    method Chunk(m: Message) returns (e: Event)
      requires stream.Busy? && m.Content?
      modifies this
      ensures (View(), e) == StepContent(cfg, old(View()), m)
    {
      var img := stream.img;
      var there := ImageExists(img);
      if !stream.initiated && there {
        Close();
        return Ended(Aborted);
      }
      stream := Busy(img, true);
      var n := ProcessTransferContent(m.chunk, img, m.outcome);
      if n.Some? && m.delivered {
        return Progress(SafePath(cfg.dir, img), n.value);
      }
      RemoveIncompleteTransfer(img);
      Close();
      e := if n.Some? then Lost(SafePath(cfg.dir, img), n.value) else Ended(Aborted);
    }

    method Receive(m: Message) returns (e: Event)
      requires stream.Busy?
      modifies this
      ensures stream.Idle? || stream.Busy?
      ensures (View(), e) == StepMessage(cfg, old(View()), m)
    {
      match m
      case Closed => Close(); e := Ended(Aborted);
      case Broken => Close(); e := Ended(Aborted);
      case Request => Close(); e := Ended(InvalidArgument);
      case Content(_, _, _) => e := Chunk(m);
      case End(accepted, delivered) =>
        var image := Contents(cfg, Disk(), stream.img);
        if !(accepted && delivered) { RemoveIncompleteTransfer(stream.img); }
        Close();
        e := HandedOver(image, if accepted && delivered then Ok else Aborted);
    }

    /** Taking the lock, and the exchange before the transfer. */
    method Open(version: string, opening: Opening) returns (log: seq<Entry>)
      requires stream.Idle?
      modifies this`stream
      ensures stream.Idle? || stream.Busy?
      ensures (View(), log) == Run(cfg, old(View()), [Call, First(version, opening)])
    {
      RunSnoc(cfg, View(), [], Call);
      RunSnoc(cfg, View(), [] + [Call], First(version, opening));
      assert [Call, First(version, opening)] == [] + [Call] + [First(version, opening)];
      log := [] + [Entry(Call, Silent)];
      if opening.Ready? && version != "" {
        stream := Busy(cfg.dir + "/" + version, false);
        log := log + [Entry(First(version, opening), Started(cfg.dir + "/" + version))];
      } else {
        log := log + [Entry(First(version, opening), Ended(OpeningStatus(version, opening)))];
      }
    }

    /** One call: turned away if another stream is open; otherwise it takes messages until one
        ends it, or none is left and it waits for more. */
    method Install(version: string, opening: Opening, ms: seq<Message>) returns (log: seq<Entry>, used: nat)
      modifies this
      ensures used <= |ms| && (used < |ms| ==> old(!stream.Idle?) || stream.Idle?)
      ensures old(!stream.Idle?) ==> View() == old(View()) && log == [Entry(Call, Rejected)]
      ensures old(stream.Idle?) ==>
                (View(), log) == Run(cfg, old(View()), [Call, First(version, opening)] + Nexts(ms[..used]))
    {
      used := 0;
      if !stream.Idle? { return [Entry(Call, Rejected)], 0; }
      log := Open(version, opening);
      ghost var begun := [Call, First(version, opening)];
      assert begun + Nexts(ms[..0]) == begun;
      while used < |ms| && stream.Busy?
        invariant used <= |ms| && (stream.Idle? || stream.Busy?)
        invariant (View(), log) == Run(cfg, old(View()), begun + Nexts(ms[..used]))
      {
        ghost var v, l := View(), log;
        var e := Receive(ms[used]);
        RunNext(cfg, old(View()), begun, ms, used, v, l, View(), e);
        log := log + [Entry(Next(ms[used]), e)];
        used := used + 1;
      }
    }
  }
}
