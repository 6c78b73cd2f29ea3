/** The gate before the sync response of a streaming subscription: the subscriptions run side
    by side and each signals once that its first data is queued; the main routine waits for
    all of them. Every interleaving of their steps is a sequence of steps here. */
module SyncGate {
  import opened Options

  /** What each subscription turns out to be: a sampling interval that is refused, a single or
      multiple field, whole tables, or a mode that is not supported. */
  datatype Kind = BadInterval | Fields | Tables | Unsupported

  datatype Phase = NotStarted | Started | Queued(ends: bool) | Streaming | Ended

  datatype Main = Adding(next: nat) | Waiting | Synced | GaveUp

  datatype Message = Data(sub: nat) | Fatal(sub: nat) | SyncResponse

  /** `signals` counts how often each subscription has signalled, `flags` is the note a table
      subscription keeps of that, `pending` is the wait group. */
  datatype State = State(
    main: Main,
    phases: seq<Phase>,
    flags: seq<bool>,
    signals: seq<nat>,
    pending: int,
    queue: seq<Message>,
    disposed: bool)

  datatype Step =
    | Add
    | Refuse
    | AllAdded
    | Sync
    | First(sub: nat, ok: bool)
    | Signal(sub: nat)
    | Send(sub: nat)
    | Fail(sub: nat)
    | Stop(sub: nat)
    | Dispose

  ghost function Init(n: nat): State {
    State(Adding(0), seq(n, i => NotStarted), seq(n, i => false), seq(n, i => 0), 0, [], false)
  }

  predicate Shaped(s: State, n: nat) {
    |s.phases| == n && |s.flags| == n && |s.signals| == n
  }

  predicate Enabled(kinds: seq<Kind>, s: State, e: Step) {
    && Shaped(s, |kinds|)
    && match e
       case Add => s.main.Adding? && s.main.next < |kinds| && kinds[s.main.next] != Unsupported
       case Refuse => s.main.Adding? && s.main.next < |kinds| && kinds[s.main.next] == Unsupported
       case AllAdded => s.main == Adding(|kinds|)
       case Sync => s.main == Waiting && s.pending == 0
       case First(i, _) => i < |kinds| && s.phases[i] == Started
       case Signal(i) => i < |kinds| && s.phases[i].Queued?
       case Send(i) => i < |kinds| && s.phases[i] == Streaming
       case Fail(i) => i < |kinds| && s.phases[i] == Streaming
       case Stop(i) => i < |kinds| && s.phases[i] == Streaming
       case Dispose => true
  }

  /** Puts a message on the queue, unless the queue has been disposed of. */
  function Put(s: State, m: Message): State {
    if s.disposed then s else s.(queue := s.queue + [m])
  }

  /** One signal to the wait group. */
  function Done(s: State, i: nat): State
    requires i < |s.signals|
  {
    s.(signals := s.signals[i := s.signals[i] + 1], pending := s.pending - 1)
  }

  /** A table subscription signals only if it has not done so. */
  function SignalSync(s: State, i: nat): State
    requires i < |s.signals| && i < |s.flags|
  {
    if s.flags[i] then s else Done(s, i).(flags := s.flags[i := true])
  }

  function Next(kinds: seq<Kind>, s: State, e: Step): State
    requires Enabled(kinds, s, e)
  {
    match e
    case Add =>
      var i := s.main.next;
      s.(main := Adding(i + 1), phases := s.phases[i := Started], pending := s.pending + 1)
    case Refuse => Put(s, Fatal(s.main.next)).(main := GaveUp)
    case AllAdded => s.(main := Waiting)
    case Sync => Put(s, SyncResponse).(main := Synced)
    case First(i, ok) =>
      var good := ok && kinds[i] != BadInterval;
      Put(s, if good then Data(i) else Fatal(i)).(phases := s.phases[i := Queued(!good || s.disposed)])
    case Signal(i) =>
      var t := if kinds[i] == Tables then SignalSync(s, i) else Done(s, i);
      t.(phases := s.phases[i := if s.phases[i].ends then Ended else Streaming])
    case Send(i) => Put(s, Data(i))
    case Fail(i) =>
      var t := if kinds[i] == Tables then SignalSync(Put(s, Fatal(i)), i) else Put(s, Fatal(i));
      t.(phases := s.phases[i := Ended])
    case Stop(i) => s.(phases := s.phases[i := Ended])
    case Dispose => s.(disposed := true)
  }

  /** The state after a sequence of steps, if each was possible in its turn. */
  ghost function Run(kinds: seq<Kind>, steps: seq<Step>): Option<State> {
    if steps == [] then Some(Init(|kinds|))
    else
      match Run(kinds, steps[..|steps| - 1])
      case None => None
      case Some(s) =>
        if Enabled(kinds, s, steps[|steps| - 1]) then Some(Next(kinds, s, steps[|steps| - 1])) else None
  }

  // ---------- What every interleaving keeps ----------

  predicate Open(p: Phase) { p == Started || p.Queued? }

  predicate Past(p: Phase) { p == Streaming || p == Ended }

  /** How many subscriptions have yet to signal. */
  function OpenCount(phases: seq<Phase>): nat {
    if phases == [] then 0 else OpenCount(phases[..|phases| - 1]) + if Open(phases[|phases| - 1]) then 1 else 0
  }

  lemma {:induction false} OpenCountUpdate(phases: seq<Phase>, i: nat, p: Phase)
    requires i < |phases|
    ensures OpenCount(phases[i := p]) == OpenCount(phases) - (if Open(phases[i]) then 1 else 0) + (if Open(p) then 1 else 0)
  {
    var n := |phases| - 1;
    if i == n {
      assert phases[i := p][..n] == phases[..n];
    } else {
      assert phases[i := p][..n] == phases[..n][i := p];
      OpenCountUpdate(phases[..n], i, p);
    }
  }

  lemma {:induction false} OpenCountZero(phases: seq<Phase>)
    ensures OpenCount(phases) == 0 <==> forall i :: 0 <= i < |phases| ==> !Open(phases[i])
  {
    if phases != [] {
      var n := |phases| - 1;
      OpenCountZero(phases[..n]);
      assert forall i :: 0 <= i < n ==> phases[..n][i] == phases[i];
    }
  }

  /** A subscription has put something on the queue. */
  ghost predicate Heard(queue: seq<Message>, i: nat) { Data(i) in queue || Fatal(i) in queue }

  ghost predicate SubOk(kinds: seq<Kind>, s: State, i: nat)
    requires Shaped(s, |kinds|) && i < |kinds|
  {
    && s.signals[i] == (if Past(s.phases[i]) then 1 else 0)
    && (kinds[i] == Tables ==> (s.flags[i] <==> Past(s.phases[i])))
    && (s.phases[i] == NotStarted || s.phases[i] == Started || s.disposed || Heard(s.queue, i))
    && (match s.main case Adding(next) => (s.phases[i] == NotStarted <==> next <= i) case GaveUp => true case _ => s.phases[i] != NotStarted)
  }

  /** A sync response has everything the subscriptions had to say first before it. */
  ghost predicate QueueOk(kinds: seq<Kind>, s: State) {
    forall k :: 0 <= k < |s.queue| && s.queue[k] == SyncResponse ==>
      s.main == Synced && forall i :: 0 <= i < |kinds| ==> Heard(s.queue[..k], i)
  }

  ghost predicate Inv(kinds: seq<Kind>, s: State) {
    && Shaped(s, |kinds|)
    && (s.main.Adding? ==> s.main.next <= |kinds|)
    && s.pending == OpenCount(s.phases)
    && (forall i :: 0 <= i < |kinds| ==> SubOk(kinds, s, i))
    && QueueOk(kinds, s)
    && (forall j, k :: 0 <= j < k < |s.queue| ==> s.queue[j] != SyncResponse || s.queue[k] != SyncResponse)
    && (s.main == Synced ==> OpenCount(s.phases) == 0)
  }

  lemma QueueGrows(kinds: seq<Kind>, s: State, m: Message)
    requires Inv(kinds, s) && m != SyncResponse
    ensures var t := Put(s, m);
            && QueueOk(kinds, t) && t.disposed == s.disposed
            && (forall j, k :: 0 <= j < k < |t.queue| ==> t.queue[j] != SyncResponse || t.queue[k] != SyncResponse)
            && (forall i: nat :: Heard(s.queue, i) ==> Heard(t.queue, i))
            && (forall i: nat :: m == Data(i) || m == Fatal(i) ==> t.disposed || Heard(t.queue, i))
  {
    var t := Put(s, m);
    forall k | 0 <= k < |t.queue| && t.queue[k] == SyncResponse ensures k < |s.queue| && t.queue[..k] == s.queue[..k] { }
  }

  lemma SyncIsLast(kinds: seq<Kind>, s: State)
    requires Inv(kinds, s) && Enabled(kinds, s, Sync)
    ensures Inv(kinds, Next(kinds, s, Sync))
  {
    OpenCountZero(s.phases);
    var t := Next(kinds, s, Sync);
    assert forall k :: 0 <= k < |s.queue| ==> s.queue[k] != SyncResponse && t.queue[k] == s.queue[k];
    assert forall k :: 0 <= k < |t.queue| && t.queue[k] == SyncResponse ==> k == |s.queue| && t.queue[..k] == s.queue;
    forall i | 0 <= i < |kinds| ensures SubOk(kinds, t, i) { assert SubOk(kinds, s, i); }
    forall i | 0 <= i < |kinds| && !s.disposed ensures Heard(s.queue, i) { assert SubOk(kinds, s, i); }
  }

  lemma MainStepKeeps(kinds: seq<Kind>, s: State, e: Step)
    requires Inv(kinds, s) && Enabled(kinds, s, e) && (e.Add? || e.Refuse? || e.AllAdded? || e.Dispose?)
    ensures Inv(kinds, Next(kinds, s, e))
  {
    var t := Next(kinds, s, e);
    if e.Add? { OpenCountUpdate(s.phases, s.main.next, Started); assert SubOk(kinds, s, s.main.next); }
    if e.Refuse? { QueueGrows(kinds, s, Fatal(s.main.next)); }
    forall i | 0 <= i < |kinds| ensures SubOk(kinds, t, i) { assert SubOk(kinds, s, i); }
  }

  predicate SubStep(e: Step) { e.First? || e.Signal? || e.Send? || e.Fail? || e.Stop? }

  lemma SubStepQueue(kinds: seq<Kind>, s: State, e: Step)
    requires Inv(kinds, s) && Enabled(kinds, s, e) && SubStep(e)
    ensures var t := Next(kinds, s, e);
            && QueueOk(kinds, t) && t.disposed == s.disposed && t.main == s.main
            && (forall j, k :: 0 <= j < k < |t.queue| ==> t.queue[j] != SyncResponse || t.queue[k] != SyncResponse)
            && (forall i: nat :: Heard(s.queue, i) ==> Heard(t.queue, i))
            && (e.First? ==> t.disposed || Heard(t.queue, e.sub))
  {
    var t := Next(kinds, s, e);
    if !s.disposed && |t.queue| > |s.queue| { QueueGrows(kinds, s, t.queue[|s.queue|]); }
  }

  lemma SubStepSub(kinds: seq<Kind>, s: State, e: Step, i: nat)
    requires Inv(kinds, s) && Enabled(kinds, s, e) && SubStep(e) && i < |kinds|
    ensures Shaped(Next(kinds, s, e), |kinds|) && SubOk(kinds, Next(kinds, s, e), i)
  {
    assert SubOk(kinds, s, i);
    SubStepQueue(kinds, s, e);
  }

  lemma SubStepKeeps(kinds: seq<Kind>, s: State, e: Step)
    requires Inv(kinds, s) && Enabled(kinds, s, e) && SubStep(e)
    ensures Inv(kinds, Next(kinds, s, e))
  {
    var t := Next(kinds, s, e);
    OpenCountUpdate(s.phases, e.sub, t.phases[e.sub]);
    OpenCountZero(s.phases);
    assert SubOk(kinds, s, e.sub);
    SubStepQueue(kinds, s, e);
    forall i | 0 <= i < |kinds| ensures Shaped(t, |kinds|) && SubOk(kinds, t, i) { SubStepSub(kinds, s, e, i); }
  }

  /** Every interleaving keeps the invariant. */
  lemma {:induction false} RunKeeps(kinds: seq<Kind>, steps: seq<Step>)
    requires Run(kinds, steps).Some?
    ensures Inv(kinds, Run(kinds, steps).value)
  {
    if steps == [] {
      OpenCountZero(Init(|kinds|).phases);
    } else {
      var init, e := steps[..|steps| - 1], steps[|steps| - 1];
      RunKeeps(kinds, init);
      var s := Run(kinds, init).value;
      if e.Sync? { SyncIsLast(kinds, s); }
      else if SubStep(e) { SubStepKeeps(kinds, s, e); }
      else { MainStepKeeps(kinds, s, e); }
    }
  }

  /** Each subscription signals at most once, and has done so exactly when it is past its first
      message, also when it fails later; the wait group is never short. */
  lemma SignalsOnce(kinds: seq<Kind>, steps: seq<Step>, i: nat)
    requires Run(kinds, steps).Some? && i < |kinds|
    ensures var s := Run(kinds, steps).value;
            && Shaped(s, |kinds|) && s.pending >= 0
            && s.signals[i] == if Past(s.phases[i]) then 1 else 0
  {
    RunKeeps(kinds, steps);
    assert SubOk(kinds, Run(kinds, steps).value, i);
  }

  /** The sync response is queued at most once, and only after every subscription has queued
      its first data or a fatal message. */
  lemma SyncAfterAll(kinds: seq<Kind>, steps: seq<Step>, k: nat, i: nat)
    requires Run(kinds, steps).Some? && i < |kinds|
    requires k < |Run(kinds, steps).value.queue| && Run(kinds, steps).value.queue[k] == SyncResponse
    ensures var q := Run(kinds, steps).value.queue;
            && Heard(q[..k], i)
            && forall j :: 0 <= j < |q| && j != k ==> q[j] != SyncResponse
  {
    RunKeeps(kinds, steps);
  }

  /** Once all subscriptions are past their first message, the waiting main routine can go on. */
  lemma WaitEnds(kinds: seq<Kind>, steps: seq<Step>)
    requires Run(kinds, steps).Some? && Run(kinds, steps).value.main == Waiting
    ensures var s := Run(kinds, steps).value;
            Enabled(kinds, s, Sync) <==> forall i :: 0 <= i < |kinds| ==> Past(s.phases[i])
  {
    RunKeeps(kinds, steps);
    var s := Run(kinds, steps).value;
    OpenCountZero(s.phases);
    forall i | 0 <= i < |kinds| ensures s.phases[i] != NotStarted { assert SubOk(kinds, s, i); }
  }

  // ---------- What each subscription says ----------

  /** A refused interval sends no data; one that streams has sent some. */
  ghost predicate Says(kinds: seq<Kind>, s: State, i: nat)
    requires Shaped(s, |kinds|) && i < |kinds|
  {
    && (kinds[i] == BadInterval ==> Data(i) !in s.queue && s.phases[i] != Streaming && (s.phases[i].Queued? ==> s.phases[i].ends))
    && (s.phases[i] == Streaming || (s.phases[i].Queued? && !s.phases[i].ends) ==> Data(i) in s.queue)
  }

  /** How far the main routine has got says which modes it has met. */
  ghost predicate Met(kinds: seq<Kind>, main: Main) {
    match main
    case Adding(next) => next <= |kinds| && forall j :: 0 <= j < next ==> kinds[j] != Unsupported
    case GaveUp => Unsupported in kinds
    case _ => Unsupported !in kinds
  }

  lemma NextSays(kinds: seq<Kind>, s: State, e: Step, i: nat)
    requires Shaped(s, |kinds|) && i < |kinds| && Says(kinds, s, i) && Enabled(kinds, s, e)
    ensures Shaped(Next(kinds, s, e), |kinds|) && Says(kinds, Next(kinds, s, e), i)
  {
  }

  lemma NextMet(kinds: seq<Kind>, s: State, e: Step)
    requires Met(kinds, s.main) && Enabled(kinds, s, e)
    ensures Met(kinds, Next(kinds, s, e).main)
  {
    if e.Refuse? { assert kinds[s.main.next] in kinds; }
  }

  lemma {:induction false} RunSays(kinds: seq<Kind>, steps: seq<Step>)
    requires Run(kinds, steps).Some?
    ensures var s := Run(kinds, steps).value;
            Shaped(s, |kinds|) && Met(kinds, s.main) && forall i :: 0 <= i < |kinds| ==> Says(kinds, s, i)
  {
    if steps != [] {
      var init, e := steps[..|steps| - 1], steps[|steps| - 1];
      RunSays(kinds, init);
      var s := Run(kinds, init).value;
      NextMet(kinds, s, e);
      forall i | 0 <= i < |kinds| ensures Shaped(Next(kinds, s, e), |kinds|) && Says(kinds, Next(kinds, s, e), i) { NextSays(kinds, s, e, i); }
    }
  }

  lemma RunMore(kinds: seq<Kind>, steps: seq<Step>, e: Step)
    requires Run(kinds, steps).Some? && Enabled(kinds, Run(kinds, steps).value, e)
    ensures Run(kinds, steps + [e]) == Some(Next(kinds, Run(kinds, steps).value, e))
  {
    assert (steps + [e])[..|steps|] == steps;
  }

  lemma RunInit(kinds: seq<Kind>, steps: seq<Step>, more: seq<Step>)
    requires more != [] && Run(kinds, steps + more).Some?
    ensures var init, e := more[..|more| - 1], more[|more| - 1];
            && Run(kinds, steps + init).Some? && Enabled(kinds, Run(kinds, steps + init).value, e)
            && Run(kinds, steps + more) == Some(Next(kinds, Run(kinds, steps + init).value, e))
  {
    var all := steps + more;
    assert all[..|all| - 1] == steps + more[..|more| - 1] && all[|all| - 1] == more[|more| - 1];
  }

  // ---------- Ending ----------

  ghost predicate Silent(queue: seq<Message>, from: nat, i: nat) {
    forall k :: from <= k < |queue| ==> queue[k] != Data(i) && queue[k] != Fatal(i)
  }

  /** The subscription has ended, and all it had to say is in the first part of the queue. */
  ghost predicate Quiet(t: State, i: nat, before: seq<Message>, said: nat) {
    i < |t.phases| && t.phases[i] == Ended && before <= t.queue && said <= |t.queue| && Silent(t.queue, said, i)
  }

  lemma EndsQuiet(kinds: seq<Kind>, s: State, e: Step)
    requires (e.Stop? || e.Fail?) && Enabled(kinds, s, e)
    ensures Quiet(Next(kinds, s, e), e.sub, s.queue, |s.queue| + if e.Fail? && !s.disposed then 1 else 0)
  {
  }

  lemma StaysQuiet(kinds: seq<Kind>, s: State, e: Step, i: nat, before: seq<Message>, said: nat)
    requires Inv(kinds, s) && Enabled(kinds, s, e) && i < |kinds| && Quiet(s, i, before, said)
    ensures Quiet(Next(kinds, s, e), i, before, said)
  {
    assert SubOk(kinds, s, i);
    if e.Add? { assert SubOk(kinds, s, s.main.next); }
    if e.Refuse? { assert SubOk(kinds, s, s.main.next); }
  }

  /** After it was stopped, or has failed, a subscription puts nothing more on the queue. */
  lemma {:induction false} EndedSilent(kinds: seq<Kind>, steps: seq<Step>, e: Step, more: seq<Step>)
    requires (e.Stop? || e.Fail?) && Run(kinds, steps).Some? && Run(kinds, steps + [e] + more).Some?
    ensures var s := Run(kinds, steps).value;
            Quiet(Run(kinds, steps + [e] + more).value, e.sub, s.queue, |s.queue| + if e.Fail? && !s.disposed then 1 else 0)
    decreases |more|
  {
    var s := Run(kinds, steps).value;
    if more == [] {
      assert steps + [e] + [] == steps + [e];
      RunInit(kinds, steps, [e]);
      assert steps + [e][..0] == steps;
      EndsQuiet(kinds, s, e);
    } else {
      var init := more[..|more| - 1];
      RunInit(kinds, steps + [e], more);
      EndedSilent(kinds, steps, e, init);
      RunKeeps(kinds, steps + [e] + init);
      var t := Run(kinds, steps + [e] + init).value;
      StaysQuiet(kinds, t, more[|more| - 1], e.sub, s.queue, |s.queue| + if e.Fail? && !s.disposed then 1 else 0);
    }
  }

  /** The queue can be disposed of at any time, and a subscription that streams can be stopped. */
  lemma CanEnd(kinds: seq<Kind>, steps: seq<Step>, i: nat)
    requires Run(kinds, steps).Some?
    ensures Run(kinds, steps + [Dispose]).Some?
    ensures i < |kinds| && i < |Run(kinds, steps).value.phases| && Run(kinds, steps).value.phases[i] == Streaming ==> Run(kinds, steps + [Stop(i)]).Some?
  {
    RunKeeps(kinds, steps);
    RunMore(kinds, steps, Dispose);
    if i < |kinds| && Run(kinds, steps).value.phases[i] == Streaming { RunMore(kinds, steps, Stop(i)); }
  }

  /** Once the queue has been disposed of it does not change. */
  lemma {:induction false} DisposedSilent(kinds: seq<Kind>, steps: seq<Step>, more: seq<Step>)
    requires Run(kinds, steps).Some? && Run(kinds, steps + [Dispose] + more).Some?
    ensures var s, t := Run(kinds, steps).value, Run(kinds, steps + [Dispose] + more).value;
            t.disposed && t.queue == s.queue
    decreases |more|
  {
    if more == [] {
      assert steps + [Dispose] + [] == steps + [Dispose];
      RunInit(kinds, steps, [Dispose]);
      assert steps + [Dispose][..0] == steps;
    } else {
      RunInit(kinds, steps + [Dispose], more);
      DisposedSilent(kinds, steps, more[..|more| - 1]);
    }
  }

  // ---------- The gate opens ----------

  function PhaseLeft(p: Phase): nat { match p case Started => 2 case Queued(_) => 1 case _ => 0 }

  function PhasesLeft(phases: seq<Phase>): nat {
    if phases == [] then 0 else PhasesLeft(phases[..|phases| - 1]) + PhaseLeft(phases[|phases| - 1])
  }

  lemma {:induction false} PhasesLeftUpdate(phases: seq<Phase>, i: nat, p: Phase)
    requires i < |phases|
    ensures PhasesLeft(phases[i := p]) == PhasesLeft(phases) - PhaseLeft(phases[i]) + PhaseLeft(p)
  {
    var n := |phases| - 1;
    if i == n {
      assert phases[i := p][..n] == phases[..n];
    } else {
      assert phases[i := p][..n] == phases[..n][i := p];
      PhasesLeftUpdate(phases[..n], i, p);
    }
  }

  /** What is left to do before the main routine is past the gate. */
  function Left(n: nat, s: State): int {
    PhasesLeft(s.phases) + match s.main case Adding(next) => 3 * (n - next) + 2 case Waiting => 1 case _ => 0
  }

  /** While the main routine is before the gate, some step brings it nearer. */
  lemma StepNearer(kinds: seq<Kind>, s: State) returns (e: Step)
    requires Inv(kinds, s) && (s.main.Adding? || s.main.Waiting?)
    ensures Enabled(kinds, s, e) && Left(|kinds|, Next(kinds, s, e)) < Left(|kinds|, s)
    ensures Next(kinds, s, e).disposed == s.disposed
  {
    if s.main.Adding? && s.main.next < |kinds| {
      var i := s.main.next;
      assert SubOk(kinds, s, i);
      e := if kinds[i] == Unsupported then Refuse else Add;
      PhasesLeftUpdate(s.phases, i, Started);
    } else if s.main.Adding? {
      e := AllAdded;
    } else if s.pending == 0 {
      e := Sync;
    } else {
      OpenCountZero(s.phases);
      var i :| 0 <= i < |kinds| && Open(s.phases[i]);
      e := if s.phases[i] == Started then First(i, true) else Signal(i);
      PhasesLeftUpdate(s.phases, i, Next(kinds, s, e).phases[i]);
    }
  }

  /** The main routine is past the gate: it has given up exactly when some mode is not supported, and
      otherwise the queue ends with the sync response, if it was not disposed of. */
  ghost predicate Passed(kinds: seq<Kind>, t: State) {
    && t.main == (if Unsupported in kinds then GaveUp else Synced)
    && (t.main == Synced && !t.disposed ==> t.queue != [] && t.queue[|t.queue| - 1] == SyncResponse)
    && (t.main == GaveUp ==> SyncResponse !in t.queue)
  }

  lemma GateNow(kinds: seq<Kind>, s: State, e: Step)
    requires Inv(kinds, s) && (s.main.Adding? || s.main.Waiting?) && Enabled(kinds, s, e)
    requires var t := Next(kinds, s, e); !t.main.Adding? && !t.main.Waiting? && Met(kinds, t.main)
    ensures Passed(kinds, Next(kinds, s, e))
  {
    assert e.Sync? || e.Refuse?;
  }

  lemma RunJoin(steps: seq<Step>, e: Step, rest: seq<Step>)
    ensures steps + ([e] + rest) == steps + [e] + rest
  {
  }

  /** From every point of every interleaving before the gate the main routine can get past it. */
  lemma {:induction false} GateOpens(kinds: seq<Kind>, steps: seq<Step>) returns (more: seq<Step>)
    requires Run(kinds, steps).Some? && (Run(kinds, steps).value.main.Adding? || Run(kinds, steps).value.main.Waiting?)
    ensures Run(kinds, steps + more).Some? && Passed(kinds, Run(kinds, steps + more).value)
    ensures Run(kinds, steps + more).value.disposed == Run(kinds, steps).value.disposed
    decreases Left(|kinds|, Run(kinds, steps).value)
  {
    RunKeeps(kinds, steps);
    var s := Run(kinds, steps).value;
    var e := StepNearer(kinds, s);
    RunMore(kinds, steps, e);
    var t := Next(kinds, s, e);
    if t.main.Adding? || t.main.Waiting? {
      RunKeeps(kinds, steps + [e]);
      LeftIsNatural(kinds, t);
      var rest := GateOpens(kinds, steps + [e]);
      more := [e] + rest;
      RunJoin(steps, e, rest);
    } else {
      RunSays(kinds, steps + [e]);
      GateNow(kinds, s, e);
      more := [e];
    }
  }

  lemma LeftIsNatural(kinds: seq<Kind>, s: State)
    requires Inv(kinds, s)
    ensures Left(|kinds|, s) >= 0
  {
  }
}
