/** Polling the application database: each poll sends the paths that have data and a delete for
    each path whose data has gone. */
module AppDbPoll {

  /** What one poll finds at a path: a value, nothing, or an error that ends the subscription. */
  datatype Reading = Found(value: string) | Absent | Broken

  type Poll = map<string, Reading>

  type Known = map<string, string>

  datatype Message = Updated(path: string, value: string) | Deleted(path: string) | SyncResponse

  function Apply(known: Known, m: Message): Known {
    match m
    case Updated(p, v) => known[p := v]
    case Deleted(p) => known - {p}
    case SyncResponse => known
  }

  /** What a client knows after replaying the messages. */
  function Replay(msgs: seq<Message>): Known {
    if msgs == [] then map[] else Apply(Replay(msgs[..|msgs| - 1]), msgs[|msgs| - 1])
  }

  /** How often the client is told that a path has gone. */
  function Deletes(msgs: seq<Message>, p: string): nat {
    if msgs == [] then 0 else Deletes(msgs[..|msgs| - 1], p) + if msgs[|msgs| - 1] == Deleted(p) then 1 else 0
  }

  lemma ReplayAppend(msgs: seq<Message>, m: Message, p: string)
    ensures Replay(msgs + [m]) == Apply(Replay(msgs), m)
    ensures Deletes(msgs + [m], p) == Deletes(msgs, p) + if m == Deleted(p) then 1 else 0
  {
    assert (msgs + [m])[..|msgs|] == msgs;
  }

  // ---------- One poll ----------

  /** The messages sent so far and, per path, whether the last poll sent an update. */
  datatype State = State(msgs: seq<Message>, sentLast: map<string, bool>)

  predicate SentLast(s: State, p: string) { p in s.sentLast && s.sentLast[p] }

  function PollPath(s: State, p: string, r: Reading): State {
    match r
    case Found(v) => State(s.msgs + [Updated(p, v)], s.sentLast[p := true])
    case Absent => if SentLast(s, p) then State(s.msgs + [Deleted(p)], s.sentLast[p := false]) else s
    case Broken => s
  }

  /** The paths in the given order, up to the first error. */
  function Sweep(s: State, order: seq<string>, poll: Poll): State {
    if order == [] then s
    else
      var n := |order| - 1;
      var t := Sweep(s, order[..n], poll);
      if Clean(order[..n], poll) && order[n] in poll then PollPath(t, order[n], poll[order[n]]) else t
  }

  predicate Clean(order: seq<string>, poll: Poll) {
    forall p :: p in order ==> p in poll && !poll[p].Broken?
  }

  /** A poll that meets no error ends with a sync response. */
  function PollAll(s: State, order: seq<string>, poll: Poll): State {
    var t := Sweep(s, order, poll);
    if Clean(order, poll) then t.(msgs := t.msgs + [SyncResponse]) else t
  }

  ghost predicate Enumerates(order: seq<string>, paths: set<string>) {
    && (forall p :: p in order <==> p in paths)
    && (forall i, j :: 0 <= i < j < |order| ==> order[i] != order[j])
  }

  // ---------- What the client knows ----------

  /** The server's note of what it sent is what the client knows. */
  ghost predicate InStep(s: State) {
    forall p :: SentLast(s, p) <==> p in Replay(s.msgs)
  }

  /** After sweeping `order`: those paths as polled, the others as before. */
  ghost predicate Swept(s: State, t: State, order: seq<string>, poll: Poll) {
    && InStep(t)
    && (forall p :: p in order && p in poll ==> (p in Replay(t.msgs) <==> poll[p].Found?))
    && (forall p :: p in order && p in poll && poll[p].Found? ==> p in Replay(t.msgs) && Replay(t.msgs)[p] == poll[p].value)
    && (forall p :: p !in order ==> (p in Replay(t.msgs) <==> p in Replay(s.msgs)))
    && (forall p :: p !in order && p in Replay(t.msgs) && p in Replay(s.msgs) ==> Replay(t.msgs)[p] == Replay(s.msgs)[p])
    && (forall p :: Deletes(t.msgs, p) == Deletes(s.msgs, p) + if p in order && p in poll && p in Replay(s.msgs) && poll[p].Absent? then 1 else 0)
  }

  lemma {:induction false} SweepSends(s: State, order: seq<string>, poll: Poll)
    requires InStep(s) && Clean(order, poll)
    requires forall i, j :: 0 <= i < j < |order| ==> order[i] != order[j]
    ensures Swept(s, Sweep(s, order, poll), order, poll)
  {
    if order != [] {
      var n := |order| - 1;
      var init, p := order[..n], order[n];
      assert order == init + [p];
      assert p !in init;
      SweepSends(s, init, poll);
      PollPathSends(s, Sweep(s, init, poll), init, p, poll);
      assert Swept(s, Sweep(s, order, poll), init + [p], poll);
    }
  }

  lemma PollPathSends(s: State, t: State, order: seq<string>, p: string, poll: Poll)
    requires InStep(s) && Swept(s, t, order, poll) && p !in order && p in poll && !poll[p].Broken?
    ensures Swept(s, PollPath(t, p, poll[p]), order + [p], poll)
  {
    var u := PollPath(t, p, poll[p]);
    var m := if poll[p].Found? then Updated(p, poll[p].value) else Deleted(p);
    forall q
      ensures Replay(t.msgs + [m]) == Apply(Replay(t.msgs), m)
      ensures Deletes(t.msgs + [m], q) == Deletes(t.msgs, q) + if m == Deleted(q) then 1 else 0
    {
      ReplayAppend(t.msgs, m, q);
    }
    assert forall q :: q in order + [p] <==> q in order || q == p;
  }

  /** The paths that have data, with their values. */
  ghost predicate IsPresent(known: Known, poll: Poll) {
    && (forall p :: p in known <==> p in poll && poll[p].Found?)
    && (forall p :: p in known ==> known[p] == poll[p].value)
  }

  /** A poll over all subscribed paths, in any order, that meets no error. */
  lemma PollShowsPresent(s: State, order: seq<string>, poll: Poll)
    requires InStep(s) && Enumerates(order, poll.Keys) && Clean(order, poll)
    requires forall p :: p in Replay(s.msgs) ==> p in poll
    ensures var t := PollAll(s, order, poll);
            && InStep(t) && IsPresent(Replay(t.msgs), poll)
            && t.msgs != [] && t.msgs[|t.msgs| - 1] == SyncResponse
            && forall p :: Deletes(t.msgs, p) == Deletes(s.msgs, p) + if p in Replay(s.msgs) && poll[p].Absent? then 1 else 0
  {
    SweepSends(s, order, poll);
    var t := Sweep(s, order, poll);
    forall q
      ensures Replay(t.msgs + [SyncResponse]) == Replay(t.msgs)
      ensures Deletes(t.msgs + [SyncResponse], q) == Deletes(t.msgs, q)
    {
      ReplayAppend(t.msgs, SyncResponse, q);
    }
  }

  // ---------- Whole runs ----------

  datatype Round = Round(order: seq<string>, poll: Poll)

  function RunAll(rounds: seq<Round>): State {
    if rounds == [] then State([], map[])
    else
      var n := |rounds| - 1;
      PollAll(RunAll(rounds[..n]), rounds[n].order, rounds[n].poll)
  }

  /** Every round polls the same paths and meets no error. */
  ghost predicate Regular(rounds: seq<Round>, paths: set<string>) {
    forall i :: 0 <= i < |rounds| ==>
      rounds[i].poll.Keys == paths && Enumerates(rounds[i].order, paths) && Clean(rounds[i].order, rounds[i].poll)
  }

  /** How often a path that had data in one round has none in the next. */
  function Losses(rounds: seq<Round>, p: string): nat {
    if |rounds| < 2 then 0
    else
      var n := |rounds| - 1;
      Losses(rounds[..n], p)
      + if p in rounds[n - 1].poll && rounds[n - 1].poll[p].Found? && p in rounds[n].poll && rounds[n].poll[p].Absent? then 1 else 0
  }

  /** After every run of polls, replaying the messages gives exactly the paths that had data in
      the last poll, with their values; and a path is deleted once for each time its data went
      away, never otherwise. */
  lemma {:induction false} RunShowsPresent(rounds: seq<Round>, paths: set<string>)
    requires Regular(rounds, paths) && rounds != []
    ensures var s := RunAll(rounds);
            && InStep(s) && IsPresent(Replay(s.msgs), rounds[|rounds| - 1].poll)
            && s.msgs[|s.msgs| - 1] == SyncResponse
            && forall p :: Deletes(s.msgs, p) == Losses(rounds, p)
  {
    var n := |rounds| - 1;
    var init := rounds[..n];
    if n > 0 {
      assert forall i :: 0 <= i < n ==> init[i] == rounds[i];
      RunShowsPresent(init, paths);
      assert init[|init| - 1] == rounds[n - 1];
    }
    PollShowsPresent(RunAll(init), rounds[n].order, rounds[n].poll);
  }

  // ---------- The client ----------

  class DbClient {
    const paths: set<string>
    var sentLast: map<string, bool>
    var queue: seq<Message>

    constructor (paths: set<string>)
      ensures this.paths == paths && View() == State([], map[])
    {
      this.paths := paths;
      sentLast, queue := map[], [];
    }

    ghost function View(): State
      reads this
    {
      State(queue, sentLast)
    }

    /** One poll: the paths come in an arbitrary order, and an error ends the subscription
        without a sync response. */
    method PollOnce(poll: Poll) returns (more: bool, ghost order: seq<string>)
      requires poll.Keys == paths
      modifies this
      ensures View() == PollAll(old(View()), order, poll)
      ensures more <==> Clean(order, poll)
      ensures more ==> Enumerates(order, paths)
    {
      order := [];
      var todo := paths;
      while todo != {}
        invariant todo <= paths
        invariant forall p :: p in order <==> p in paths - todo
        invariant forall i, j :: 0 <= i < j < |order| ==> order[i] != order[j]
        invariant Clean(order, poll)
        invariant View() == Sweep(old(View()), order, poll)
      {
        var p :| p in todo;
        todo := todo - {p};
        ghost var before := order;
        order := order + [p];
        assert order[..|order| - 1] == before;
        match poll[p] {
          case Absent =>
            if p in sentLast && sentLast[p] {
              queue := queue + [Deleted(p)];
              sentLast := sentLast[p := false];
            }
          case Broken =>
            assert p in order;
            return false, order;
          case Found(v) =>
            queue := queue + [Updated(p, v)];
            sentLast := sentLast[p := true];
        }
      }
      queue := queue + [SyncResponse];
      more := true;
    }
  }
}
