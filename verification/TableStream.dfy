/** A subscription to whole tables: updates arrive one by one and are sent at once, or gathered
    and sent when the interval ticks. */
module TableStream {

  /** Entries by key, each as its text; an update replaces the entries it names. */
  type Table = map<string, string>

  datatype Event = Update(table: Table) | Tick

  datatype Mode = Sample | SampleUpdates | OnChange

  /** What is held back for the next tick, and the messages sent so far. */
  datatype State = State(held: Table, sent: seq<Table>)

  function Start(initial: Table, mode: Mode): State {
    State(if mode == Sample then initial else map[], [initial])
  }

  function Step(s: State, e: Event, mode: Mode): State {
    match e
    case Update(t) =>
      if mode == OnChange then s.(sent := s.sent + [t]) else s.(held := s.held + t)
    case Tick =>
      if mode == OnChange then s
      else State(if mode == SampleUpdates then map[] else s.held, s.sent + [s.held])
  }

  function Run(initial: Table, events: seq<Event>, mode: Mode): State {
    if events == [] then Start(initial, mode)
    else Step(Run(initial, events[..|events| - 1], mode), events[|events| - 1], mode)
  }

  /** The tables themselves: the initial contents with every update applied. */
  function Contents(initial: Table, events: seq<Event>): Table {
    if events == [] then initial
    else
      var before := Contents(initial, events[..|events| - 1]);
      match events[|events| - 1] case Update(t) => before + t case Tick => before
  }

  /** What a client knows after folding the messages. */
  function View(sent: seq<Table>): Table {
    if sent == [] then map[] else View(sent[..|sent| - 1]) + sent[|sent| - 1]
  }

  lemma ViewAppend(sent: seq<Table>, t: Table)
    ensures View(sent + [t]) == View(sent) + t
  {
    assert (sent + [t])[..|sent|] == sent;
  }

  lemma Merge(a: Table, b: Table, c: Table)
    ensures (a + b) + c == a + (b + c) && (a + b) + b == a + b && a + map[] == a
  {
  }

  /** In every mode the view together with what is held back is the contents; full messages are
      the contents, and on-change messages hold nothing back. */
  lemma {:induction false} ViewPlusHeld(initial: Table, events: seq<Event>, mode: Mode)
    ensures View(Run(initial, events, mode).sent) + Run(initial, events, mode).held == Contents(initial, events)
    ensures mode == Sample ==> Run(initial, events, mode).held == Contents(initial, events)
    ensures mode == OnChange ==> Run(initial, events, mode).held == map[]
  {
    if events == [] {
      ViewAppend([], initial);
      assert [] + [initial] == [initial];
      assert map[] + initial == initial;
      Merge(map[], initial, initial);
    } else {
      var init, e := events[..|events| - 1], events[|events| - 1];
      ViewPlusHeld(initial, init, mode);
      var s := Run(initial, init, mode);
      assert Run(initial, events, mode) == Step(s, e, mode);
      StepViewHeld(s, e, mode, Contents(initial, init));
    }
  }

  lemma StepViewHeld(s: State, e: Event, mode: Mode, contents: Table)
    requires View(s.sent) + s.held == contents
    requires mode == Sample ==> s.held == contents
    requires mode == OnChange ==> s.held == map[]
    ensures var t := Step(s, e, mode);
            View(t.sent) + t.held == if e.Update? then contents + e.table else contents
  {
    ViewAppend(s.sent, s.held);
    if e.Update? {
      ViewAppend(s.sent, e.table);
      Merge(View(s.sent), s.held, e.table);
      Merge(View(s.sent), e.table, e.table);
    } else {
      Merge(View(s.sent), s.held, s.held);
      Merge(View(s.sent) + s.held, s.held, s.held);
    }
  }

  /** After every tick a client that gets updates only has the contents, which is also the full
      message sent at that tick. */
  lemma TickShowsContents(initial: Table, events: seq<Event>, mode: Mode)
    requires events != [] && events[|events| - 1] == Tick && mode != OnChange
    ensures var s := Run(initial, events, mode);
            View(s.sent) == Contents(initial, events)
    ensures var full := Run(initial, events, Sample);
            full.sent[|full.sent| - 1] == Contents(initial, events)
  {
    var init := events[..|events| - 1];
    ViewPlusHeld(initial, init, mode);
    ViewPlusHeld(initial, init, Sample);
    var s := Run(initial, init, mode);
    ViewAppend(s.sent, s.held);
  }

  /** An on-change client has the contents after every event. */
  lemma OnChangeShowsContents(initial: Table, events: seq<Event>)
    ensures View(Run(initial, events, OnChange).sent) == Contents(initial, events)
  {
    ViewPlusHeld(initial, events, OnChange);
    var view := View(Run(initial, events, OnChange).sent);
    assert view + map[] == view;
  }

  /** The loop of the subscription: `interval` zero means on change. */
  method Subscribe(initial: Table, events: seq<Event>, interval: nat, updateOnly: bool) returns (sent: seq<Table>)
    ensures sent == Run(initial, events, if interval == 0 then OnChange else if updateOnly then SampleUpdates else Sample).sent
  {
    ghost var mode := if interval == 0 then OnChange else if updateOnly then SampleUpdates else Sample;
    var all := initial;
    sent := [all];
    if updateOnly || interval == 0 {
      all := map[];
    }
    var i := 0;
    while i < |events|
      invariant 0 <= i <= |events|
      invariant State(all, sent) == Run(initial, events[..i], mode)
    {
      assert events[..i + 1][..i] == events[..i];
      match events[i] {
        case Update(t) =>
          if interval == 0 {
            sent := sent + [t];
          } else {
            all := all + t;
          }
        case Tick =>
          if interval > 0 {
            sent := sent + [all];
            if updateOnly {
              all := map[];
            }
          }
      }
      i := i + 1;
    }
    assert events[..i] == events;
  }
}
