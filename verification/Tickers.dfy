/** The timers of a stream of subscriptions: subscriptions with the same interval share a ticker,
    and waiting on all tickers at once picks the subscriptions to sample. */
module Tickers {
  import opened Options
  import opened Words

  const SECOND := 1_000_000_000

  /** An unsigned number of 64 bits. */
  type Word = n: nat | n < WORD

  datatype Mode = TargetDefined | OnChange | Sample | Undefined

  datatype Subscription = Subscription(mode: Mode, sample: Word, heartbeat: Word, suppress: bool)

  /** What the backend says of one subscribed path. */
  datatype Info = Info(id: nat, path: string, onChange: bool, prefersOnChange: bool, minimum: int)

  datatype Timer = Timer(interval: int, path: string, suppress: bool, heartbeat: bool)

  datatype TickerInfo = TickerInfo(ticker: nat, timer: Timer)

  // ---------- Which timers a subscription asks for ----------

  /** The same bits as a signed number. */
  function ToInt(n: Word): int { if n <= MAX_INT then n else n - WORD }

  function Seconds(info: Info, default: nat): int {
    (if info.minimum <= 0 then default else info.minimum) * SECOND
  }

  function EffectiveMode(sub: Subscription, info: Info): Mode {
    match sub.mode
    case TargetDefined => if info.onChange && info.prefersOnChange then OnChange else Sample
    case OnChange => if info.onChange then OnChange else Undefined
    case m => m
  }

  function Heartbeats(sub: Subscription, info: Info): seq<Timer> {
    if sub.heartbeat > 0 then [Timer(ToInt(sub.heartbeat), info.path, sub.suppress, true)] else []
  }

  /** The timers of one path; None if the subscription is refused. */
  function TimersOf(sub: Subscription, info: Info, default: nat): Option<seq<Timer>> {
    var mode := EffectiveMode(sub, info);
    var min := Seconds(info, default);
    if mode.Undefined? || 0 < sub.heartbeat < min then None
    else if mode.OnChange? then Some(Heartbeats(sub, info))
    else
      var interval := if ToInt(sub.sample) == 0 then min else ToInt(sub.sample);
      if interval < min then None
      else Some([Timer(interval, info.path, sub.suppress, false)] +
                if sub.suppress then Heartbeats(sub, info) else [])
  }

  /** Which timers a path gets, from the messages: a sampled path one at the interval asked for, or
      at the least one if none was; a heartbeat if it is on change or suppressed; and when it is
      refused. Intervals are taken as signed numbers. */
  lemma TimersAre(sub: Subscription, info: Info, default: nat)
    ensures var watched := info.onChange && (sub.mode == OnChange || (sub.mode == TargetDefined && info.prefersOnChange));
            var sampled := sub.mode == Sample || (sub.mode == TargetDefined && !watched);
            var least := 1_000_000_000 * if info.minimum > 0 then info.minimum else default;
            var asked, beat := Signed(sub.sample), Timer(Signed(sub.heartbeat), info.path, sub.suppress, true);
            var beats := if sub.heartbeat > 0 && (watched || sub.suppress) then [beat] else [];
            TimersOf(sub, info, default) ==
            if (!watched && !sampled) || 0 < sub.heartbeat < least || (sampled && asked != 0 && asked < least) then None
            else if watched then Some(beats)
            else Some([Timer(if asked == 0 then least else asked, info.path, sub.suppress, false)] + beats)
  {
  }

  function Signed(n: Word): int { if n < 0x8000_0000_0000_0000 then n else n - 0x1_0000_0000_0000_0000 }

  /** Every path belongs to a subscription. */
  predicate Belongs(subs: seq<Subscription>, infos: seq<Info>) {
    forall i :: 0 <= i < |infos| ==> infos[i].id < |subs|
  }

  predicate AllPositive(h: seq<Timer>) { forall i :: 0 <= i < |h| ==> h[i].interval > 0 }

  /** The timers before the first that cannot be made: an interval that is not positive panics,
      which ends the subscription. */
  function Makeable(ts: seq<Timer>): seq<Timer> {
    if ts == [] || ts[0].interval <= 0 then [] else [ts[0]] + Makeable(ts[1..])
  }

  /** The timers of the paths in order, up to the first that is refused or cannot be made. */
  function Plan(subs: seq<Subscription>, infos: seq<Info>, default: nat): (seq<Timer>, bool)
    requires Belongs(subs, infos)
  {
    if infos == [] then ([], true)
    else
      var n := |infos| - 1;
      var (h, ok) := Plan(subs, infos[..n], default);
      if !ok then (h, false)
      else
        match TimersOf(subs[infos[n].id], infos[n], default)
        case None => (h, false)
        case Some(ts) => (h + Makeable(ts), AllPositive(ts))
  }

  /** A subscription that is not refused never asks for a timer faster than the least interval
      of its path, except for a heartbeat beyond the signed range, which has a negative one. */
  lemma TimersRespectMinimum(sub: Subscription, info: Info, default: nat, i: nat)
    requires default > 0 && TimersOf(sub, info, default).Some? && i < |TimersOf(sub, info, default).value|
    ensures var timer := TimersOf(sub, info, default).value[i];
            if timer.heartbeat && sub.heartbeat > MAX_INT then timer.interval < 0
            else timer.interval >= Seconds(info, default) > 0
  {
  }

  /** The path asks for a heartbeat timer, and its interval is beyond the signed range. */
  predicate Oversized(sub: Subscription, info: Info) {
    sub.heartbeat > MAX_INT && (EffectiveMode(sub, info).OnChange? || sub.suppress)
  }

  /** A path that is not refused fails exactly when its heartbeat is oversized. */
  lemma MakeableIff(sub: Subscription, info: Info, default: nat)
    requires default > 0 && TimersOf(sub, info, default).Some?
    ensures AllPositive(TimersOf(sub, info, default).value) <==> !Oversized(sub, info)
  {
    var ts := TimersOf(sub, info, default).value;
    if Oversized(sub, info) {
      assert ts[|ts| - 1].interval < 0;
    } else {
      forall i | 0 <= i < |ts| ensures ts[i].interval > 0 { TimersRespectMinimum(sub, info, default, i); }
    }
  }

  /** The subscription is set up exactly when no path is refused and no heartbeat is oversized. */
  lemma {:induction false} PlanSucceedsIff(subs: seq<Subscription>, infos: seq<Info>, default: nat)
    requires Belongs(subs, infos) && default > 0
    ensures Plan(subs, infos, default).1 <==>
            forall i :: 0 <= i < |infos| ==> TimersOf(subs[infos[i].id], infos[i], default).Some? && !Oversized(subs[infos[i].id], infos[i])
  {
    if infos != [] {
      var n := |infos| - 1;
      PlanSucceedsIff(subs, infos[..n], default);
      if TimersOf(subs[infos[n].id], infos[n], default).Some? { MakeableIff(subs[infos[n].id], infos[n], default); }
      assert forall i :: 0 <= i < n ==> infos[..n][i] == infos[i];
    }
  }

  lemma {:induction false} MakeablePositive(ts: seq<Timer>)
    ensures AllPositive(Makeable(ts)) && (AllPositive(ts) ==> Makeable(ts) == ts)
  {
    if ts != [] && ts[0].interval > 0 {
      MakeablePositive(ts[1..]);
      if AllPositive(ts) {
        assert AllPositive(ts[1..]);
        assert ts == [ts[0]] + ts[1..];
      }
    }
  }

  /** Every interval that reaches a ticker is positive, whatever was asked for. */
  lemma {:induction false} PlanPositive(subs: seq<Subscription>, infos: seq<Info>, default: nat)
    requires Belongs(subs, infos)
    ensures AllPositive(Plan(subs, infos, default).0)
  {
    if infos != [] {
      var n := |infos| - 1;
      PlanPositive(subs, infos[..n], default);
      var ts := TimersOf(subs[infos[n].id], infos[n], default);
      if ts.Some? { MakeablePositive(ts.value); }
    }
  }

  // ---------- The table ----------

  datatype Table = Table(tickers: map<int, seq<TickerInfo>>, cases: seq<nat>, casesMap: map<int, int>, made: nat)

  const EMPTY := Table(map[], [], map[], 0)

  function Add(t: Table, timer: Timer): Table {
    var k := timer.interval;
    if k in t.tickers && t.tickers[k] != []
    then t.(tickers := t.tickers[k := t.tickers[k] + [TickerInfo(t.tickers[k][0].ticker, timer)]])
    else Table(t.tickers[k := [TickerInfo(t.made, timer)]], t.cases + [t.made], t.casesMap[|t.cases| := k], t.made + 1)
  }

  function AddAll(h: seq<Timer>): Table {
    if h == [] then EMPTY else Add(AddAll(h[..|h| - 1]), h[|h| - 1])
  }

  /** The subscriptions that the chosen case runs; a case that is not in the map looks up 0. */
  function Chosen(t: Table, i: nat): seq<TickerInfo> {
    var k := if i in t.casesMap then t.casesMap[i] else 0;
    if k in t.tickers then t.tickers[k] else []
  }

  function At(h: seq<Timer>, k: int): seq<Timer> {
    if h == [] then []
    else
      var init, last := At(h[..|h| - 1], k), h[|h| - 1];
      if last.interval == k then init + [last] else init
  }

  function Timed(l: seq<TickerInfo>): seq<Timer> { seq(|l|, i requires 0 <= i < |l| => l[i].timer) }

  predicate Uses(l: seq<TickerInfo>, ticker: nat) { forall j :: 0 <= j < |l| ==> l[j].ticker == ticker }

  /** Cases and intervals correspond one to one, and each case waits on a ticker of its own. */
  ghost predicate Matched(t: Table) {
    && |t.cases| == t.made
    && (forall i :: 0 <= i < |t.cases| ==> t.cases[i] == i)
    && (forall i :: i in t.casesMap <==> 0 <= i < |t.cases|)
    && (forall i :: 0 <= i < |t.cases| ==> t.casesMap[i] in t.tickers)
    && (forall i, j :: 0 <= i < j < |t.cases| ==> t.casesMap[i] != t.casesMap[j])
    && (forall k :: k in t.tickers ==> HasCase(t, k))
  }

  ghost predicate HasCase(t: Table, k: int) { exists i :: 0 <= i < |t.cases| && i in t.casesMap && t.casesMap[i] == k }

  /** The entries of an interval are the timers added with it, in order. */
  ghost predicate Kept(t: Table, h: seq<Timer>) {
    && (forall k :: k in t.tickers ==> t.tickers[k] != [] && Timed(t.tickers[k]) == At(h, k))
    && (forall k :: k !in t.tickers ==> At(h, k) == [])
  }

  /** All entries of an interval are on the ticker that its case waits on. */
  ghost predicate Shared(t: Table) {
    forall i :: 0 <= i < |t.cases| && i in t.casesMap && t.casesMap[i] in t.tickers ==>
      Uses(t.tickers[t.casesMap[i]], t.cases[i])
  }

  ghost predicate Inv(t: Table, h: seq<Timer>) { Matched(t) && Kept(t, h) && Shared(t) }

  lemma AddMatched(t: Table, timer: Timer)
    requires Matched(t) && (timer.interval in t.tickers ==> t.tickers[timer.interval] != [])
    ensures Matched(Add(t, timer))
  {
    var t', k := Add(t, timer), timer.interval;
    if k !in t.tickers { assert t'.casesMap[|t.cases|] == k; }
    forall x | x in t'.tickers && (k in t.tickers || x != k) ensures HasCase(t', x) {
      assert HasCase(t, x);
      var i :| 0 <= i < |t.cases| && i in t.casesMap && t.casesMap[i] == x;
      assert t'.casesMap[i] == x;
    }
  }

  lemma AddKept(t: Table, h: seq<Timer>, timer: Timer)
    requires Kept(t, h)
    ensures Kept(Add(t, timer), h + [timer])
  {
    var t', h', k := Add(t, timer), h + [timer], timer.interval;
    assert h'[..|h|] == h;
    if k in t.tickers { assert Timed(t'.tickers[k]) == Timed(t.tickers[k]) + [timer]; }
    else { assert Timed(t'.tickers[k]) == [timer]; }
  }

  lemma AddKeepsShared(t: Table, timer: Timer)
    requires Matched(t) && Shared(t) && (timer.interval in t.tickers ==> t.tickers[timer.interval] != [])
    ensures Shared(Add(t, timer))
  {
    var t', k := Add(t, timer), timer.interval;
    forall i | 0 <= i < |t'.cases| && i in t'.casesMap && t'.casesMap[i] in t'.tickers
      ensures Uses(t'.tickers[t'.casesMap[i]], t'.cases[i])
    {
      if i < |t.cases| { assert Uses(t.tickers[t.casesMap[i]], t.cases[i]); }
    }
  }

  lemma {:induction false} AddAllInv(h: seq<Timer>)
    ensures Inv(AddAll(h), h)
  {
    if h != [] {
      var init, last := h[..|h| - 1], h[|h| - 1];
      AddAllInv(init);
      assert init + [last] == h;
      AddMatched(AddAll(init), last);
      AddKept(AddAll(init), init, last);
      AddKeepsShared(AddAll(init), last);
    }
  }

  // ---------- What each case runs ----------

  /** Each interval asked for has exactly one case, which runs the timers of that interval in the
      order they were added, all on the case's own ticker; the stop case after them runs none. */
  lemma CaseRunsItsInterval(h: seq<Timer>, i: nat)
    requires AllPositive(h)
    ensures var t := AddAll(h);
            if i < |t.cases|
            then i in t.casesMap && Timed(Chosen(t, i)) == At(h, t.casesMap[i]) != [] && Uses(Chosen(t, i), t.cases[i])
            else Chosen(t, i) == []
  {
    AddAllInv(h);
    var t := AddAll(h);
    if i >= |t.cases| && 0 in t.tickers {
      assert Timed(t.tickers[0]) == At(h, 0);
      assert |Timed(t.tickers[0])| > 0;
      NothingAt(h, 0);
    }
  }

  lemma {:induction false} NothingAt(h: seq<Timer>, k: int)
    requires forall i :: 0 <= i < |h| ==> h[i].interval != k
    ensures At(h, k) == []
  {
    if h != [] { NothingAt(h[..|h| - 1], k); }
  }

  lemma {:induction false} SomethingAt(h: seq<Timer>, j: nat)
    requires j < |h|
    ensures h[j] in At(h, h[j].interval)
  {
    var n := |h| - 1;
    if j < n { SomethingAt(h[..n], j); }
  }

  predicate Runs(t: Table, i: nat, timer: Timer) { i < |t.cases| && timer in Timed(Chosen(t, i)) }

  /** Every timer added is run by exactly one case. */
  lemma OneCase(h: seq<Timer>, j: nat)
    requires AllPositive(h) && j < |h|
    ensures exists i :: Runs(AddAll(h), i, h[j])
    ensures forall i, i' :: Runs(AddAll(h), i, h[j]) && Runs(AddAll(h), i', h[j]) ==> i == i'
  {
    var t, k := AddAll(h), h[j].interval;
    AddAllInv(h);
    SomethingAt(h, j);
    assert HasCase(t, k);
    var c :| 0 <= c < |t.cases| && c in t.casesMap && t.casesMap[c] == k;
    assert Runs(t, c, h[j]);
    forall i | Runs(t, i, h[j]) ensures i == c {
      AtInterval(h, t.casesMap[i], h[j]);
    }
  }

  lemma {:induction false} AtInterval(h: seq<Timer>, k: int, timer: Timer)
    requires timer in At(h, k)
    ensures timer.interval == k
  {
    if timer in At(h[..|h| - 1], k) { AtInterval(h[..|h| - 1], k, timer); }
  }

  // ---------- One round ----------

  /** The timers run when the first `n` cases fire once each. */
  function Round(t: Table, n: nat): seq<Timer> {
    if n == 0 then [] else Round(t, n - 1) + Timed(Chosen(t, n - 1))
  }

  function Among(h: seq<Timer>, ks: set<int>): seq<Timer> {
    if h == [] then []
    else
      var init, last := Among(h[..|h| - 1], ks), h[|h| - 1];
      if last.interval in ks then init + [last] else init
  }

  lemma {:induction false} AmongOneMore(h: seq<Timer>, ks: set<int>, k: int)
    requires k !in ks
    ensures multiset(Among(h, ks + {k})) == multiset(Among(h, ks)) + multiset(At(h, k))
  {
    if h != [] { AmongOneMore(h[..|h| - 1], ks, k); }
  }

  lemma {:induction false} AmongAll(h: seq<Timer>, ks: set<int>)
    requires forall i :: 0 <= i < |h| ==> h[i].interval in ks
    ensures Among(h, ks) == h
  {
    if h != [] {
      AmongAll(h[..|h| - 1], ks);
      assert h == h[..|h| - 1] + [h[|h| - 1]];
    }
  }

  function Intervals(t: Table, n: nat): set<int> {
    set i | 0 <= i < n && i in t.casesMap :: t.casesMap[i]
  }

  lemma {:induction false} RoundIs(t: Table, h: seq<Timer>, n: nat)
    requires Inv(t, h) && n <= |t.cases|
    ensures multiset(Round(t, n)) == multiset(Among(h, Intervals(t, n)))
  {
    if n == 0 {
      assert Intervals(t, 0) == {};
      AmongNone(h);
    } else {
      RoundIs(t, h, n - 1);
      var k := t.casesMap[n - 1];
      assert Intervals(t, n) == Intervals(t, n - 1) + {k};
      assert k !in Intervals(t, n - 1);
      assert Round(t, n) == Round(t, n - 1) + At(h, k);
      AmongOneMore(h, Intervals(t, n - 1), k);
    }
  }

  lemma {:induction false} AmongNone(h: seq<Timer>)
    ensures Among(h, {}) == []
  {
    if h != [] { AmongNone(h[..|h| - 1]); }
  }

  /** When every case has fired once, every timer that was added has been run once, no more and
      no less. */
  lemma RoundRunsAll(h: seq<Timer>)
    ensures multiset(Round(AddAll(h), |AddAll(h).cases|)) == multiset(h)
  {
    AddAllInv(h);
    var t := AddAll(h);
    forall j | 0 <= j < |h| ensures h[j].interval in Intervals(t, |t.cases|) {
      SomethingAt(h, j);
      assert HasCase(t, h[j].interval);
    }
    AmongAll(h, Intervals(t, |t.cases|));
    RoundIs(t, h, |t.cases|);
  }

  // ---------- The loops ----------

  datatype SampleCall = SampleCall(path: string, filterDups: bool)

  lemma AddAllMore(h: seq<Timer>, ts: seq<Timer>, i: nat)
    requires i < |ts|
    ensures AddAll(h + ts[..i + 1]) == Add(AddAll(h + ts[..i]), ts[i])
  {
    var l := h + ts[..i + 1];
    assert l[..|l| - 1] == h + ts[..i];
  }

  lemma PlanMore(subs: seq<Subscription>, infos: seq<Info>, default: nat, i: nat)
    requires Belongs(subs, infos) && i < |infos| && Plan(subs, infos[..i], default).1
    ensures var h := Plan(subs, infos[..i], default).0;
            Plan(subs, infos[..i + 1], default) ==
            match TimersOf(subs[infos[i].id], infos[i], default)
            case None => (h, false)
            case Some(ts) => (h + Makeable(ts), AllPositive(ts))
  {
    assert infos[..i + 1][..i] == infos[..i];
  }

  class Schedule {
    var tickers: map<int, seq<TickerInfo>>
    var cases: seq<nat>
    var casesMap: map<int, int>
    var made: nat

    ghost function View(): Table reads this { Table(tickers, cases, casesMap, made) }

    constructor ()
      ensures View() == EMPTY
    {
      tickers, cases, casesMap, made := map[], [], map[], 0;
    }

    /** Adds a timer; one whose interval is not positive cannot be made. */
    method AddTimer(timer: Timer) returns (ok: bool)
      modifies this
      ensures ok <==> timer.interval > 0
      ensures View() == if ok then Add(old(View()), timer) else old(View())
    {
      if timer.interval <= 0 {
        return false;
      }
      var k := timer.interval;
      if k !in tickers || tickers[k] == [] {
        tickers := tickers[k := [TickerInfo(made, timer)]];
        casesMap := casesMap[|cases| := k];
        cases := cases + [made];
        made := made + 1;
      } else {
        tickers := tickers[k := tickers[k] + [TickerInfo(tickers[k][0].ticker, timer)]];
      }
      ok := true;
    }

    /** The timers of all subscriptions, up to the first that is refused or cannot be made. */
    method Subscribe(subs: seq<Subscription>, infos: seq<Info>, default: nat) returns (ok: bool)
      requires Belongs(subs, infos) && View() == EMPTY
      modifies this
      ensures View() == AddAll(Plan(subs, infos, default).0) && ok == Plan(subs, infos, default).1
    {
      var i := 0;
      while i < |infos|
        invariant 0 <= i <= |infos|
        invariant Plan(subs, infos[..i], default).1
        invariant View() == AddAll(Plan(subs, infos[..i], default).0)
      {
        PlanMore(subs, infos, default, i);
        ghost var h := Plan(subs, infos[..i], default).0;
        match TimersOf(subs[infos[i].id], infos[i], default) {
          case None =>
            PlanStops(subs, infos, default, i + 1);
            return false;
          case Some(ts) =>
            ok := AddEach(h, ts);
            if !ok {
              PlanStops(subs, infos, default, i + 1);
              return;
            }
        }
        i := i + 1;
      }
      assert infos[..i] == infos;
      ok := true;
    }

    method AddEach(ghost h: seq<Timer>, ts: seq<Timer>) returns (ok: bool)
      requires View() == AddAll(h)
      modifies this
      ensures View() == AddAll(h + Makeable(ts)) && ok == AllPositive(ts)
    {
      assert h + ts[..0] == h;
      for i := 0 to |ts|
        invariant View() == AddAll(h + ts[..i]) && AllPositive(ts[..i])
      {
        ok := AddTimer(ts[i]);
        if !ok {
          MakeableStops(ts, i);
          return;
        }
        AddAllMore(h, ts, i);
        assert ts[..i + 1] == ts[..i] + [ts[i]];
      }
      MakeablePositive(ts);
      assert ts[..|ts|] == ts;
      ok := true;
    }

    /** What is sampled when a case is chosen: duplicates are left out for a path that suppresses
        them, except on its heartbeat. */
    method Fire(chosen: nat) returns (calls: seq<SampleCall>)
      ensures |calls| == |Chosen(View(), chosen)|
      ensures forall j :: 0 <= j < |calls| ==>
                var timer := Chosen(View(), chosen)[j].timer;
                calls[j].path == timer.path && (calls[j].filterDups <==> timer.suppress && !timer.heartbeat)
    {
      var k := if chosen in casesMap then casesMap[chosen] else 0;
      var l := if k in tickers then tickers[k] else [];
      calls := [];
      for j := 0 to |l|
        invariant |calls| == j
        invariant forall x :: 0 <= x < j ==>
                    calls[x].path == l[x].timer.path && (calls[x].filterDups <==> l[x].timer.suppress && !l[x].timer.heartbeat)
      {
        var timer := l[j].timer;
        calls := calls + [SampleCall(timer.path, !timer.heartbeat && timer.suppress)];
      }
    }
  }

  lemma {:induction false} MakeableStops(ts: seq<Timer>, i: nat)
    requires i < |ts| && AllPositive(ts[..i]) && ts[i].interval <= 0
    ensures Makeable(ts) == ts[..i] && !AllPositive(ts)
    decreases i
  {
    if i > 0 {
      assert ts[..i][0] == ts[0];
      assert ts[1..][..i - 1] == ts[..i][1..];
      MakeableStops(ts[1..], i - 1);
      assert ts[..i] == [ts[0]] + ts[1..][..i - 1];
    }
  }

  lemma {:induction false} PlanStops(subs: seq<Subscription>, infos: seq<Info>, default: nat, i: nat)
    requires Belongs(subs, infos) && i <= |infos| && !Plan(subs, infos[..i], default).1
    ensures Plan(subs, infos, default) == Plan(subs, infos[..i], default)
    decreases |infos| - i
  {
    if i < |infos| {
      assert infos[..i + 1][..i] == infos[..i];
      PlanStops(subs, infos, default, i + 1);
    } else {
      assert infos[..i] == infos;
    }
  }
}
