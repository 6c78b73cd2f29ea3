/** A subscription to one field in many tables: full messages, updates-only messages and
    on-change messages, and the view a client gets by folding them. */
module FieldStream {
  import opened Options

  /** A field of one table and the name under which it appears in messages. */
  datatype TablePath = TablePath(table: string, field: string, jsonKey: string, jsonField: string)

  /** What reading a field from the database gives. */
  datatype Reading = Found(value: string) | Missing | Failed

  type Readings = TablePath -> Reading

  datatype FieldValue = FieldValue(field: string, value: string)

  type Message = map<string, FieldValue>

  /** A missing field of a virtual path is skipped; otherwise a missing or unreadable field
      counts as empty. */
  function Effective(p: TablePath, r: Reading): Option<string> {
    match r
    case Found(v) => Some(v)
    case Missing => if p.jsonField != "" then None else Some("")
    case Failed => Some("")
  }

  /** The sequence of modes a subscription can run in. */
  datatype Mode = Sample | SampleUpdates | OnChange

  predicate Suppresses(mode: Mode) { mode != Sample }

  type Saved = map<TablePath, string>

  /** One field of a reading: left out when it is skipped, or suppressed as unchanged. */
  predicate Sends(p: TablePath, r: Reading, saved: Saved, mode: Mode) {
    && Effective(p, r).Some?
    && !(Suppresses(mode) && p in saved && saved[p] == Effective(p, r).value)
  }

  /** The message and the saved values after reading the paths in order. */
  function ReadAll(paths: seq<TablePath>, rd: Readings, saved: Saved, mode: Mode): (Message, Saved) {
    if paths == [] then (map[], saved)
    else
      var n := |paths| - 1;
      var (msg, sv) := ReadAll(paths[..n], rd, saved, mode);
      var p := paths[n];
      if Sends(p, rd(p), sv, mode)
      then (msg[p.jsonKey := FieldValue(p.jsonField, Effective(p, rd(p)).value)], sv[p := Effective(p, rd(p)).value])
      else (msg, sv)
  }

  method ReadVal(paths: seq<TablePath>, rd: Readings, saved: Saved, mode: Mode) returns (msg: Message, sv: Saved)
    ensures (msg, sv) == ReadAll(paths, rd, saved, mode)
  {
    msg, sv := map[], saved;
    var i := 0;
    while i < |paths|
      invariant 0 <= i <= |paths|
      invariant (msg, sv) == ReadAll(paths[..i], rd, saved, mode)
    {
      var p := paths[i];
      assert paths[..i + 1][..i] == paths[..i];
      var val := Effective(p, rd(p));
      if val.Some? && !(Suppresses(mode) && p in sv && val.value == sv[p]) {
        sv := sv[p := val.value];
        msg := msg[p.jsonKey := FieldValue(p.jsonField, val.value)];
      }
      i := i + 1;
    }
    assert paths[..i] == paths;
  }

  // ---------- A whole run ----------

  /** The messages sent for a sequence of readings, one slot per reading. The first is always
      sent; later an empty on-change message is not. */
  function Messages(paths: seq<TablePath>, rds: seq<Readings>, mode: Mode): seq<Option<Message>> {
    if rds == [] then []
    else
      var n := |rds| - 1;
      var msg := ReadAll(paths, rds[n], SavedAfter(paths, rds[..n], mode), mode).0;
      Messages(paths, rds[..n], mode) + [if n > 0 && mode == OnChange && msg == map[] then None else Some(msg)]
  }

  function SavedAfter(paths: seq<TablePath>, rds: seq<Readings>, mode: Mode): Saved {
    if rds == [] then map[]
    else
      var n := |rds| - 1;
      ReadAll(paths, rds[n], SavedAfter(paths, rds[..n], mode), mode).1
  }

  /** Runs a subscription over a sequence of readings. */
  method Subscribe(paths: seq<TablePath>, rds: seq<Readings>, mode: Mode) returns (msgs: seq<Option<Message>>)
    ensures msgs == Messages(paths, rds, mode)
  {
    msgs := [];
    var saved: Saved := map[];
    var i := 0;
    while i < |rds|
      invariant 0 <= i <= |rds|
      invariant msgs == Messages(paths, rds[..i], mode) && saved == SavedAfter(paths, rds[..i], mode)
    {
      assert rds[..i + 1][..i] == rds[..i];
      var msg, sv := ReadVal(paths, rds[i], saved, mode);
      saved := sv;
      msgs := msgs + [if i > 0 && mode == OnChange && |msg| == 0 then None else Some(msg)];
      i := i + 1;
    }
    assert rds[..i] == rds;
  }

  /** What a client knows after folding the messages. */
  function View(msgs: seq<Option<Message>>): Message {
    if msgs == [] then map[]
    else
      var n := |msgs| - 1;
      match msgs[n] case Some(m) => View(msgs[..n]) + m case None => View(msgs[..n])
  }

  // ---------- Suppression does not show ----------

  /** No two different paths share a name; a path may be listed twice. */
  predicate Distinct(paths: seq<TablePath>) {
    forall p, q :: p in paths && q in paths && p.jsonKey == q.jsonKey ==> p == q
  }

  /** The view that the saved values amount to. */
  ghost predicate Reflects(view: Message, saved: Saved, paths: seq<TablePath>) {
    && (forall p :: p in saved ==> p in paths)
    && (forall p :: p in saved ==> p.jsonKey in view && view[p.jsonKey] == FieldValue(p.jsonField, saved[p]))
    && (forall k :: k in view ==> exists p :: p in saved && p.jsonKey == k)
  }

  /** The saved values after a reading: the readings that gave a value, over the old ones. */
  lemma {:induction false} SavedAt(paths: seq<TablePath>, rd: Readings, saved: Saved, mode: Mode, p: TablePath)
    ensures var sv := ReadAll(paths, rd, saved, mode).1;
            && (p in sv <==> p in saved || (p in paths && Effective(p, rd(p)).Some?))
            && (p in sv ==> sv[p] == if p in paths && Effective(p, rd(p)).Some? then Effective(p, rd(p)).value else saved[p])
  {
    if paths != [] {
      var n := |paths| - 1;
      SavedAt(paths[..n], rd, saved, mode, p);
      assert paths == paths[..n] + [paths[n]];
    }
  }

  /** The saved values do not depend on suppression. */
  lemma SavedSame(paths: seq<TablePath>, rd: Readings, saved: Saved, mode: Mode)
    ensures ReadAll(paths, rd, saved, mode).1 == ReadAll(paths, rd, saved, Sample).1
  {
    var a, b := ReadAll(paths, rd, saved, mode).1, ReadAll(paths, rd, saved, Sample).1;
    forall p ensures (p in a <==> p in b) && (p in a ==> a[p] == b[p]) {
      SavedAt(paths, rd, saved, mode, p);
      SavedAt(paths, rd, saved, Sample, p);
    }
  }

  /** The message of a reading holds exactly the fields that are sent. */
  lemma {:induction false} MessageAt(paths: seq<TablePath>, rd: Readings, saved: Saved, mode: Mode, p: TablePath)
    requires Distinct(paths) && p in paths
    ensures var msg := ReadAll(paths, rd, saved, mode).0;
            && (p.jsonKey in msg <==> Sends(p, rd(p), saved, mode))
            && (p.jsonKey in msg ==> msg[p.jsonKey] == FieldValue(p.jsonField, Effective(p, rd(p)).value))
  {
    var n := |paths| - 1;
    var init, last := paths[..n], paths[n];
    assert paths == init + [last];
    SavedAt(init, rd, saved, mode, last);
    if p in init {
      MessageAt(init, rd, saved, mode, p);
    } else {
      forall q | q in init ensures q.jsonKey != p.jsonKey { assert q in paths; }
      NoSuchKey(init, rd, saved, mode, p.jsonKey);
    }
  }

  lemma {:induction false} NoSuchKey(paths: seq<TablePath>, rd: Readings, saved: Saved, mode: Mode, k: string)
    requires forall p :: p in paths ==> p.jsonKey != k
    ensures k !in ReadAll(paths, rd, saved, mode).0
  {
    if paths != [] {
      var n := |paths| - 1;
      assert paths[n] in paths;
      NoSuchKey(paths[..n], rd, saved, mode, k);
    }
  }

  /** Every entry of a message comes from a path whose value is saved. */
  lemma MessageNamed(paths: seq<TablePath>, rd: Readings, saved: Saved, mode: Mode, k: string)
    requires Distinct(paths) && k in ReadAll(paths, rd, saved, mode).0
    ensures exists p :: p in ReadAll(paths, rd, saved, mode).1 && p.jsonKey == k
  {
    if forall p :: p in paths ==> p.jsonKey != k {
      NoSuchKey(paths, rd, saved, mode, k);
    } else {
      var p :| p in paths && p.jsonKey == k;
      MessageAt(paths, rd, saved, mode, p);
      SavedAt(paths, rd, saved, mode, p);
    }
  }

  /** One reading keeps the view in step with the saved values, suppressed or not. */
  lemma ReadReflects(paths: seq<TablePath>, rd: Readings, saved: Saved, mode: Mode, view: Message)
    requires Distinct(paths) && Reflects(view, saved, paths)
    ensures var (msg, sv) := ReadAll(paths, rd, saved, mode);
            Reflects(view + msg, sv, paths)
  {
    var (msg, sv) := ReadAll(paths, rd, saved, mode);
    forall p ensures p in sv ==> p in paths { SavedAt(paths, rd, saved, mode, p); }
    forall p | p in sv
      ensures p.jsonKey in view + msg && (view + msg)[p.jsonKey] == FieldValue(p.jsonField, sv[p])
    {
      SavedShows(paths, rd, saved, mode, view, p);
    }
    forall k | k in view + msg ensures exists p :: p in sv && p.jsonKey == k {
      if k in msg {
        MessageNamed(paths, rd, saved, mode, k);
      } else {
        var p :| p in saved && p.jsonKey == k;
        SavedAt(paths, rd, saved, mode, p);
      }
    }
  }

  lemma SavedShows(paths: seq<TablePath>, rd: Readings, saved: Saved, mode: Mode, view: Message, p: TablePath)
    requires Distinct(paths) && Reflects(view, saved, paths) && p in ReadAll(paths, rd, saved, mode).1
    ensures var (msg, sv) := ReadAll(paths, rd, saved, mode);
            p.jsonKey in view + msg && (view + msg)[p.jsonKey] == FieldValue(p.jsonField, sv[p])
  {
    SavedAt(paths, rd, saved, mode, p);
    MessageAt(paths, rd, saved, mode, p);
  }

  lemma ReflectsUnique(v: Message, w: Message, saved: Saved, paths: seq<TablePath>)
    requires Reflects(v, saved, paths) && Reflects(w, saved, paths)
    ensures v == w
  {
    forall k ensures (k in v <==> k in w) && (k in v ==> v[k] == w[k]) {
      if k in v { var p :| p in saved && p.jsonKey == k; }
      if k in w { var p :| p in saved && p.jsonKey == k; }
    }
  }

  lemma {:induction false} ViewReflects(paths: seq<TablePath>, rds: seq<Readings>, mode: Mode)
    requires Distinct(paths)
    ensures Reflects(View(Messages(paths, rds, mode)), SavedAfter(paths, rds, mode), paths)
  {
    if rds != [] {
      var n := |rds| - 1;
      ViewReflects(paths, rds[..n], mode);
      ViewStep(paths, rds[..n], rds[n], mode);
      assert rds == rds[..n] + [rds[n]];
      ReadReflects(paths, rds[n], SavedAfter(paths, rds[..n], mode), mode, View(Messages(paths, rds[..n], mode)));
    }
  }

  /** What a path last had: a field that could not be read counts as empty, and so does a missing one
      unless the path is virtual. */
  function LastValue(p: TablePath, rds: seq<Readings>): Option<string> {
    if rds == [] then None
    else
      var n := |rds| - 1;
      match rds[n](p)
      case Found(v) => Some(v)
      case Failed => Some("")
      case Missing => if p.jsonField == "" then Some("") else LastValue(p, rds[..n])
  }

  lemma {:induction false} SavedIsLast(paths: seq<TablePath>, rds: seq<Readings>, mode: Mode, p: TablePath)
    requires p in paths
    ensures var sv := SavedAfter(paths, rds, mode);
            (if p in sv then Some(sv[p]) else None) == LastValue(p, rds)
  {
    if rds != [] {
      var n := |rds| - 1;
      SavedIsLast(paths, rds[..n], mode, p);
      SavedAt(paths, rds[n], SavedAfter(paths, rds[..n], mode), mode, p);
    }
  }

  /** In every mode, a client that folds the messages knows for each path what it last had. */
  lemma ViewIsLastValue(paths: seq<TablePath>, rds: seq<Readings>, mode: Mode, p: TablePath)
    requires Distinct(paths) && p in paths
    ensures var view := View(Messages(paths, rds, mode));
            && (p.jsonKey in view <==> LastValue(p, rds).Some?)
            && (p.jsonKey in view ==> view[p.jsonKey] == FieldValue(p.jsonField, LastValue(p, rds).value))
  {
    ViewReflects(paths, rds, mode);
    SavedIsLast(paths, rds, mode, p);
    var view, saved := View(Messages(paths, rds, mode)), SavedAfter(paths, rds, mode);
    if p.jsonKey in view {
      var q :| q in saved && q.jsonKey == p.jsonKey;
      assert q == p;
    }
  }

  lemma ViewSnoc(ms: seq<Option<Message>>, m: Message, sent: bool)
    requires !sent ==> m == map[]
    ensures View(ms + [if sent then Some(m) else None]) == View(ms) + m
  {
    var all := ms + [if sent then Some(m) else None];
    assert all[..|all| - 1] == ms;
    assert View(ms) + map[] == View(ms);
  }

  lemma MessagesSnoc(paths: seq<TablePath>, rds: seq<Readings>, rd: Readings, mode: Mode)
    ensures var m := ReadAll(paths, rd, SavedAfter(paths, rds, mode), mode).0;
            Messages(paths, rds + [rd], mode) ==
            Messages(paths, rds, mode) + [if |rds| > 0 && mode == OnChange && m == map[] then None else Some(m)]
    ensures SavedAfter(paths, rds + [rd], mode) == ReadAll(paths, rd, SavedAfter(paths, rds, mode), mode).1
  {
    assert (rds + [rd])[..|rds|] == rds;
  }

  /** One more reading adds its message to the view, also when an empty one is not sent. */
  lemma ViewStep(paths: seq<TablePath>, rds: seq<Readings>, rd: Readings, mode: Mode)
    ensures View(Messages(paths, rds + [rd], mode))
            == View(Messages(paths, rds, mode)) + ReadAll(paths, rd, SavedAfter(paths, rds, mode), mode).0
    ensures SavedAfter(paths, rds + [rd], mode) == ReadAll(paths, rd, SavedAfter(paths, rds, mode), mode).1
  {
    MessagesSnoc(paths, rds, rd, mode);
    var m := ReadAll(paths, rd, SavedAfter(paths, rds, mode), mode).0;
    ViewSnoc(Messages(paths, rds, mode), m, !(|rds| > 0 && mode == OnChange && m == map[]));
  }

  lemma {:induction false} SavedAfterSame(paths: seq<TablePath>, rds: seq<Readings>, mode: Mode)
    ensures SavedAfter(paths, rds, mode) == SavedAfter(paths, rds, Sample)
  {
    if rds != [] {
      var n := |rds| - 1;
      SavedAfterSame(paths, rds[..n], mode);
      SavedSame(paths, rds[n], SavedAfter(paths, rds[..n], mode), mode);
    }
  }

  /** After every reading, whatever the readings were, a client that gets updates only or
      on-change messages has the same view as one that gets full messages. */
  lemma UpdatesRefineFull(paths: seq<TablePath>, rds: seq<Readings>, mode: Mode)
    requires Distinct(paths)
    ensures View(Messages(paths, rds, mode)) == View(Messages(paths, rds, Sample))
  {
    ViewReflects(paths, rds, mode);
    ViewReflects(paths, rds, Sample);
    SavedAfterSame(paths, rds, mode);
    ReflectsUnique(View(Messages(paths, rds, mode)), View(Messages(paths, rds, Sample)), SavedAfter(paths, rds, mode), paths);
  }

  /** A suppressed message holds exactly the fields of the full message that differ from what
      the client knows. */
  lemma UpdateIsDifference(paths: seq<TablePath>, rds: seq<Readings>, rd: Readings, mode: Mode, k: string)
    requires Distinct(paths) && Suppresses(mode)
    ensures var saved := SavedAfter(paths, rds, mode);
            var full := ReadAll(paths, rd, saved, Sample).0;
            var delta := ReadAll(paths, rd, saved, mode).0;
            var view := View(Messages(paths, rds, mode));
            && (k in delta <==> k in full && (k !in view || view[k] != full[k]))
            && (k in delta ==> delta[k] == full[k])
  {
    var saved := SavedAfter(paths, rds, mode);
    ViewReflects(paths, rds, mode);
    if forall p :: p in paths ==> p.jsonKey != k {
      NoSuchKey(paths, rd, saved, mode, k);
      NoSuchKey(paths, rd, saved, Sample, k);
    } else {
      var p :| p in paths && p.jsonKey == k;
      MessageAt(paths, rd, saved, mode, p);
      MessageAt(paths, rd, saved, Sample, p);
      var view := View(Messages(paths, rds, mode));
      if k in view {
        var q :| q in saved && q.jsonKey == k;
        assert q in paths;
      }
    }
  }

  /** A full message covers the view if every field seen before still has a value. */
  lemma FullCovers(paths: seq<TablePath>, rd: Readings, saved: Saved, view: Message)
    requires Distinct(paths) && Reflects(view, saved, paths)
    requires forall p :: p in saved ==> Effective(p, rd(p)).Some?
    ensures var full := ReadAll(paths, rd, saved, Sample).0; view + full == full
  {
    var full := ReadAll(paths, rd, saved, Sample).0;
    forall k | k in view ensures k in full {
      var p :| p in saved && p.jsonKey == k;
      MessageAt(paths, rd, saved, Sample, p);
    }
  }

  /** A field that has gone missing is in the view and not in the message. */
  lemma MissingStays(paths: seq<TablePath>, rd: Readings, saved: Saved, view: Message, p: TablePath)
    requires Distinct(paths) && Reflects(view, saved, paths) && p in saved && Effective(p, rd(p)).None?
    ensures var full := ReadAll(paths, rd, saved, Sample).0; view + full != full
  {
    MessageAt(paths, rd, saved, Sample, p);
    assert p.jsonKey in view + ReadAll(paths, rd, saved, Sample).0;
  }

  /** The view is the last full message exactly when no field that was seen before has gone
      missing from it; a field that goes missing stays in the view. */
  lemma ViewIsLastFull(paths: seq<TablePath>, rds: seq<Readings>, rd: Readings)
    requires Distinct(paths)
    ensures var saved := SavedAfter(paths, rds, Sample);
            View(Messages(paths, rds + [rd], Sample)) == ReadAll(paths, rd, saved, Sample).0 <==>
            forall p :: p in saved ==> Effective(p, rd(p)).Some?
  {
    var saved, view := SavedAfter(paths, rds, Sample), View(Messages(paths, rds, Sample));
    ViewStep(paths, rds, rd, Sample);
    ViewReflects(paths, rds, Sample);
    if forall p :: p in saved ==> Effective(p, rd(p)).Some? {
      FullCovers(paths, rd, saved, view);
    } else {
      var p :| p in saved && Effective(p, rd(p)).None?;
      MissingStays(paths, rd, saved, view, p);
    }
  }

  // ---------- Shared names ----------

  /** Every field reads "0", except that `p` reads `v`. */
  ghost function AllBut(p: TablePath, v: string): Readings {
    q => Found(if q == p then v else "0")
  }

  /** When every path has a value, the last path of a name decides its entry in a full message. */
  lemma {:induction false} LastOfName(paths: seq<TablePath>, rd: Readings, saved: Saved, m: nat)
    requires m < |paths| && forall l :: m < l < |paths| ==> paths[l].jsonKey != paths[m].jsonKey
    requires forall p :: Effective(p, rd(p)).Some?
    ensures var msg := ReadAll(paths, rd, saved, Sample).0;
            paths[m].jsonKey in msg && msg[paths[m].jsonKey].value == Effective(paths[m], rd(paths[m])).value
    decreases |paths|
  {
    var n := |paths| - 1;
    if m < n {
      assert paths[..n][m] == paths[m];
      LastOfName(paths[..n], rd, saved, m);
    }
  }

  lemma {:induction false} LastIndex(paths: seq<TablePath>, j: nat) returns (m: nat)
    requires j < |paths|
    ensures j <= m < |paths| && paths[m].jsonKey == paths[j].jsonKey
    ensures forall l :: m < l < |paths| ==> paths[l].jsonKey != paths[m].jsonKey
    decreases |paths| - j
  {
    m := j;
    if l :| j < l < |paths| && paths[l].jsonKey == paths[j].jsonKey {
      m := LastIndex(paths, l);
    }
  }

  /** A suppressed message after a reading in which only path `p` changed. */
  lemma {:induction false} OnlyOneSent(paths: seq<TablePath>, saved: Saved, p: TablePath, mode: Mode)
    requires Suppresses(mode) && forall q :: q in paths ==> q in saved && saved[q] == "0"
    ensures var msg := ReadAll(paths, AllBut(p, "1"), saved, mode).0;
            if p in paths then p.jsonKey in msg && msg[p.jsonKey].value == "1" else msg == map[]
  {
    if paths != [] {
      var n := |paths| - 1;
      var init, last := paths[..n], paths[n];
      assert paths == init + [last];
      OnlyOneSent(init, saved, p, mode);
      SavedAt(init, AllBut(p, "1"), saved, mode, last);
    }
  }

  /** If two paths share a name, suppressed messages and full messages lead to different views for
      some readings. */
  lemma SharedNameDiverges(paths: seq<TablePath>, mode: Mode) returns (rds: seq<Readings>)
    requires Suppresses(mode) && !Distinct(paths)
    ensures View(Messages(paths, rds, mode)) != View(Messages(paths, rds, Sample))
  {
    var a, b :| a in paths && b in paths && a.jsonKey == b.jsonKey && a != b;
    var j :| 0 <= j < |paths| && paths[j] == a;
    var m := LastIndex(paths, j);
    var p := if paths[m] == a then b else a;
    rds := Diverges(paths, mode, p, m);
  }

  /** The path that comes last under the name decides the full message; another one of that name
      decides the suppressed message when it alone changes. */
  lemma Diverges(paths: seq<TablePath>, mode: Mode, p: TablePath, m: nat) returns (rds: seq<Readings>)
    requires Suppresses(mode) && p in paths && m < |paths| && paths[m] != p && paths[m].jsonKey == p.jsonKey
    requires forall l :: m < l < |paths| ==> paths[l].jsonKey != paths[m].jsonKey
    ensures View(Messages(paths, rds, mode)) != View(Messages(paths, rds, Sample))
  {
    var rd0, rd1 := AllBut(p, "0"), AllBut(p, "1");
    rds := [rd0] + [rd1];
    SavedAfterSame(paths, [rd0], mode);
    var saved := SavedAfter(paths, [rd0], mode);
    assert [rd0][..0] == [];
    forall q | q in paths ensures q in saved && saved[q] == "0" { SavedAt(paths, rd0, map[], mode, q); }
    ViewStep(paths, [rd0], rd1, mode);
    ViewStep(paths, [rd0], rd1, Sample);
    OnlyOneSent(paths, saved, p, mode);
    LastOfName(paths, rd1, saved, m);
  }

  /** Suppression never shows exactly when no two different paths share a name. */
  lemma RefinesIffDistinct(paths: seq<TablePath>, mode: Mode)
    requires Suppresses(mode)
    ensures (forall rds :: View(Messages(paths, rds, mode)) == View(Messages(paths, rds, Sample))) <==> Distinct(paths)
  {
    if Distinct(paths) {
      forall rds ensures View(Messages(paths, rds, mode)) == View(Messages(paths, rds, Sample)) {
        UpdatesRefineFull(paths, rds, mode);
      }
    } else {
      var rds := SharedNameDiverges(paths, mode);
    }
  }
}
