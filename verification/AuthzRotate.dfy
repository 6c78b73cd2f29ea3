/** The authz Rotate stream: the policy file, the version metadata in memory and its two
    database rows move together or not at all. */
module AuthzRotate {
  import opened Options

  /** The freshness of the policy, kept in memory and in each of the two tables. */
  datatype Row = Row(version: string, createdOn: string)

  /** How saving the policy went: the last failure comes after the file was replaced. */
  datatype SaveResult = Saved | NotSaved | SavedButFailed

  /** An upload. `valid` says whether the policy text is JSON; `dbWrites` how many of its four
      database writes succeed. */
  datatype Upload = Upload(policy: string, valid: bool, row: Row, force: bool, dbWrites: nat, save: SaveResult)

  datatype Event = Eof | RecvError | Finalize | OtherRequest | Request(upload: Upload, sendOk: bool)

  datatype Ending = Aborted | Finalized

  datatype State = State(
    file: Option<string>,
    backup: Option<string>,
    meta: Row,
    copy: Row,
    p4rt: Row,
    gnxi: Row,
    saved: Option<Row>)

  // ---------- The stream as a function ----------

  function Checkpoint(s: State): State {
    s.(copy := s.meta, backup := if s.file.Some? then s.file else s.backup)
  }

  /** How many of the two writes of each field succeed in a rollback; the fields are written
      independently of each other. */
  datatype Writes = Writes(version: nat, createdOn: nat)

  predicate AllWritten(w: Writes) { w.version >= 2 && w.createdOn >= 2 }

  /** One field goes to the first table, then to the second and to memory. */
  function WriteVersion(s: State, val: string, n: nat): State {
    s.(p4rt := if n >= 1 then s.p4rt.(version := val) else s.p4rt,
       gnxi := if n >= 2 then s.gnxi.(version := val) else s.gnxi,
       meta := if n >= 2 then s.meta.(version := val) else s.meta)
  }

  function WriteCreatedOn(s: State, val: string, n: nat): State {
    s.(p4rt := if n >= 1 then s.p4rt.(createdOn := val) else s.p4rt,
       gnxi := if n >= 2 then s.gnxi.(createdOn := val) else s.gnxi,
       meta := if n >= 2 then s.meta.(createdOn := val) else s.meta)
  }

  function Revert(s: State, w: Writes): State {
    var s' := s.(file := if s.backup.Some? then s.backup else s.file);
    WriteCreatedOn(WriteVersion(s', s.copy.version, w.version), s.copy.createdOn, w.createdOn)
  }

  function Finish(s: State): State {
    s.(backup := if s.file.Some? then None else s.backup, saved := Some(s.meta))
  }

  predicate Considers(s: State, u: Upload) {
    u.policy != "" && u.row.version != "" && u.valid && s.file.Some? && (s.meta.version != u.row.version || u.force)
  }

  predicate Accepts(s: State, u: Upload) {
    Considers(s, u) && u.dbWrites >= 4 && u.save == Saved
  }

  /** The first `n` of the four writes of an upload. */
  function WriteRows(s: State, row: Row, n: nat): State {
    var s' := WriteVersion(s, row.version, n);
    if n < 2 then s' else WriteCreatedOn(s', row.createdOn, n - 2)
  }

  function Process(s: State, u: Upload): State {
    if !Considers(s, u) then s
    else
      var s' := WriteRows(s, u.row, u.dbWrites);
      if u.dbWrites >= 4 && u.save != NotSaved then s'.(file := Some(u.policy)) else s'
  }

  function Serve(s: State, events: seq<Event>, w: Writes): (State, Ending)
    decreases |events|
  {
    if events == [] then (Revert(s, w), Aborted)
    else match events[0]
      case Eof => (Revert(s, w), Aborted)
      case RecvError => (Revert(s, w), Aborted)
      case OtherRequest => (Revert(s, w), Aborted)
      case Finalize => (Finish(s), Finalized)
      case Request(u, sendOk) =>
        if Accepts(s, u) && sendOk then Serve(Process(s, u), events[1..], w) else (Revert(Process(s, u), w), Aborted)
  }

  function RotateState(s: State, events: seq<Event>, w: Writes): (State, Ending) {
    Serve(Checkpoint(s), events, w)
  }

  // ---------- What a stream leaves behind ----------

  /** Memory and both tables agree. */
  predicate Agree(s: State) { s.p4rt == s.meta && s.gnxi == s.meta }

  predicate Tries(version: string, u: Upload) {
    u.policy != "" && u.row.version != "" && u.valid && (version != u.row.version || u.force)
  }

  predicate Completes(u: Upload) { u.dbWrites >= 4 && u.save == Saved }

  /** The uploads tried before the stream ends: all but the last were accepted. */
  function Tried(version: string, events: seq<Event>): seq<Upload>
    decreases |events|
  {
    if events == [] || !events[0].Request? || !Tries(version, events[0].upload) then []
    else
      var u := events[0].upload;
      [u] + if Completes(u) && events[0].sendOk then Tried(u.row.version, events[1..]) else []
  }

  /** The last upload of which the first `k` of the four writes were made. */
  function LastWith(us: seq<Upload>, k: nat): Option<Upload> {
    if us == [] then None
    else if us[|us| - 1].dbWrites >= k then Some(us[|us| - 1])
    else LastWith(us[..|us| - 1], k)
  }

  function VersionOf(u: Option<Upload>, or: string): string { if u.Some? then u.value.row.version else or }
  function CreatedOnOf(u: Option<Upload>, or: string): string { if u.Some? then u.value.row.createdOn else or }

  /** What the uploads leave in the first table, and in the second one and in memory. */
  function FirstRow(us: seq<Upload>, row: Row): Row {
    Row(VersionOf(LastWith(us, 1), row.version), CreatedOnOf(LastWith(us, 3), row.createdOn))
  }

  function SecondRow(us: seq<Upload>, row: Row): Row {
    Row(VersionOf(LastWith(us, 2), row.version), CreatedOnOf(LastWith(us, 4), row.createdOn))
  }

  lemma {:induction false} LastWithMore(u: Upload, us: seq<Upload>, k: nat)
    ensures LastWith([u] + us, k) == if LastWith(us, k).Some? then LastWith(us, k) else if u.dbWrites >= k then Some(u) else None
  {
    var all := [u] + us;
    if us == [] {
      assert all[..0] == [];
    } else {
      assert all[..|all| - 1] == [u] + us[..|us| - 1];
      LastWithMore(u, us[..|us| - 1], k);
    }
  }

  lemma LastOfOne(u: Upload, k: nat)
    ensures LastWith([u], k) == if u.dbWrites >= k then Some(u) else None
  {
    assert [u][..0] == [];
    assert LastWith([], k) == None;
  }

  lemma RowsOf(u: Upload, row: Row)
    ensures FirstRow([u], row) == Row(if u.dbWrites >= 1 then u.row.version else row.version, if u.dbWrites >= 3 then u.row.createdOn else row.createdOn)
    ensures SecondRow([u], row) == Row(if u.dbWrites >= 2 then u.row.version else row.version, if u.dbWrites >= 4 then u.row.createdOn else row.createdOn)
  {
    LastOfOne(u, 1);
    LastOfOne(u, 2);
    LastOfOne(u, 3);
    LastOfOne(u, 4);
  }

  lemma RowsMore(u: Upload, us: seq<Upload>, row: Row, row': Row)
    ensures row' == FirstRow([u], row) ==> FirstRow(us, row') == FirstRow([u] + us, row)
    ensures row' == SecondRow([u], row) ==> SecondRow(us, row') == SecondRow([u] + us, row)
  {
    LastWithMore(u, us, 1);
    LastWithMore(u, us, 2);
    LastWithMore(u, us, 3);
    LastWithMore(u, us, 4);
    RowsOf(u, row);
  }

  lemma RowsOfOne(s: State, u: Upload)
    requires Considers(s, u)
    ensures var t := Process(s, u);
            t.p4rt == FirstRow([u], s.p4rt) && t.gnxi == SecondRow([u], s.gnxi) && t.meta == SecondRow([u], s.meta)
  {
    RowsOf(u, s.p4rt);
    RowsOf(u, s.gnxi);
    RowsOf(u, s.meta);
  }

  /** The state in which a stream ends, given how it began. */
  predicate Ends(t: State, s: State, us: seq<Upload>, ending: Ending, w: Writes) {
    var p4rt, gnxi, meta := FirstRow(us, s.p4rt), SecondRow(us, s.gnxi), SecondRow(us, s.meta);
    if ending == Finalized then t.p4rt == p4rt && t.gnxi == gnxi && t.meta == meta
    else
      && t.p4rt == Row(if w.version >= 1 then s.copy.version else p4rt.version, if w.createdOn >= 1 then s.copy.createdOn else p4rt.createdOn)
      && t.gnxi == Row(if w.version >= 2 then s.copy.version else gnxi.version, if w.createdOn >= 2 then s.copy.createdOn else gnxi.createdOn)
      && t.meta == Row(if w.version >= 2 then s.copy.version else meta.version, if w.createdOn >= 2 then s.copy.createdOn else meta.createdOn)
  }

  /** The rows are those that the uploads leave. */
  predicate Follows(s': State, s: State, us: seq<Upload>) {
    s'.p4rt == FirstRow(us, s.p4rt) && s'.gnxi == SecondRow(us, s.gnxi) && s'.meta == SecondRow(us, s.meta) && s'.copy == s.copy
  }

  lemma EndsNow(s': State, s: State, us: seq<Upload>, w: Writes)
    requires Follows(s', s, us)
    ensures Ends(Revert(s', w), s, us, Aborted, w) && Ends(Finish(s'), s, us, Finalized, w)
  {
  }

  lemma EndsMore(t: State, s': State, s: State, u: Upload, us: seq<Upload>, ending: Ending, w: Writes)
    requires Follows(s', s, [u]) && Ends(t, s', us, ending, w)
    ensures Ends(t, s, [u] + us, ending, w)
  {
    RowsMore(u, us, s.p4rt, s'.p4rt);
    RowsMore(u, us, s.gnxi, s'.gnxi);
    RowsMore(u, us, s.meta, s'.meta);
  }

  /** Every stream, whatever it writes and fails to write: the rows follow from the uploads that
      were tried and from the writes of the rollback. */
  lemma {:induction false} ServeRows(s: State, events: seq<Event>, w: Writes)
    requires s.file.Some?
    ensures var (t, ending) := Serve(s, events, w); Ends(t, s, Tried(s.meta.version, events), ending, w)
    decreases |events|
  {
    if events != [] && events[0].Request? && Considers(s, events[0].upload) {
      var u := events[0].upload;
      var s' := Process(s, u);
      RowsOfOne(s, u);
      if Accepts(s, u) && events[0].sendOk {
        ServeRows(s', events[1..], w);
        var (t, ending) := Serve(s', events[1..], w);
        EndsMore(t, s', s, u, Tried(u.row.version, events[1..]), ending, w);
      } else {
        EndsNow(s', s, [u], w);
      }
    } else {
      EndsNow(s, s, [], w);
    }
  }

  /** The last upload accepted before the stream ends. */
  function LastAccepted(s: State, events: seq<Event>, last: Option<Upload>): Option<Upload>
    decreases |events|
  {
    if events == [] || !events[0].Request? || !Accepts(s, events[0].upload) || !events[0].sendOk then last
    else LastAccepted(Process(s, events[0].upload), events[1..], Some(events[0].upload))
  }

  /** While serving: the checkpoint is in place and the last accepted upload shows everywhere. */
  predicate Serving(s: State, start: State, last: Option<Upload>) {
    && s.file.Some? && start.file.Some? && s.copy == start.meta && s.backup == start.file && s.saved == start.saved
    && (last.None? ==> s.file == start.file && s.meta == start.meta && s.p4rt == start.p4rt && s.gnxi == start.gnxi)
    && (last.Some? ==> Agree(s) && s.file == Some(last.value.policy) && s.meta == last.value.row)
  }

  /** The policy file after a stream, and after Finalize the metadata, too. */
  lemma {:induction false} ServeEnds(s: State, start: State, events: seq<Event>, last: Option<Upload>, w: Writes)
    requires Serving(s, start, last)
    ensures var (t, ending) := Serve(s, events, w);
            && (ending == Aborted ==> t.file == start.file && t.backup == start.file && t.saved == start.saved)
            && (ending == Finalized ==>
                  && t.backup == None && t.saved == Some(t.meta)
                  && match LastAccepted(s, events, last)
                     case None => t.file == start.file && t.meta == start.meta && t.p4rt == start.p4rt && t.gnxi == start.gnxi
                     case Some(u) => t.file == Some(u.policy) && t.meta == u.row && Agree(t))
    decreases |events|
  {
    if events != [] && events[0].Request? {
      var u := events[0].upload;
      if Accepts(s, u) && events[0].sendOk {
        assert Process(s, u).meta == u.row;
        ServeEnds(Process(s, u), start, events[1..], Some(u), w);
      }
    }
  }

  /** A field is as before: it was written back, or the last upload that wrote it carries the same. */
  predicate VersionKept(us: seq<Upload>, row: Row, k: nat) { VersionOf(LastWith(us, k), row.version) == row.version }
  predicate CreatedOnKept(us: seq<Upload>, row: Row, k: nat) { CreatedOnOf(LastWith(us, k), row.createdOn) == row.createdOn }

  /** From an existing policy file, every stream that is not finalized brings the file back. It
      leaves memory and both tables as they were exactly when each field was written back, or is
      the same in the last upload that wrote it. */
  lemma AbortRestoresIff(s: State, events: seq<Event>, w: Writes)
    requires Agree(s) && s.file.Some? && RotateState(s, events, w).1 == Aborted
    ensures var t, us := RotateState(s, events, w).0, Tried(s.meta.version, events);
            && t.file == s.file && t.saved == s.saved && t.backup == s.file
            && (t.meta == s.meta && t.gnxi == s.gnxi <==>
                  (w.version >= 2 || VersionKept(us, s.meta, 2)) && (w.createdOn >= 2 || CreatedOnKept(us, s.meta, 4)))
            && (t.p4rt == s.p4rt <==>
                  (w.version >= 1 || VersionKept(us, s.meta, 1)) && (w.createdOn >= 1 || CreatedOnKept(us, s.meta, 3)))
  {
    ServeEnds(Checkpoint(s), s, events, None, w);
    ServeRows(Checkpoint(s), events, w);
  }

  /** So whatever upload, write or connection failed, a rollback whose own writes succeed leaves
      file, memory and both tables as they were. */
  lemma AbortRestores(s: State, events: seq<Event>, w: Writes)
    requires Agree(s) && s.file.Some? && AllWritten(w) && RotateState(s, events, w).1 == Aborted
    ensures var t := RotateState(s, events, w).0;
            t.file == s.file && t.meta == s.meta && t.p4rt == s.p4rt && t.gnxi == s.gnxi && t.saved == s.saved && t.backup == s.file
  {
    AbortRestoresIff(s, events, w);
  }

  /** A finalized stream leaves the last accepted policy and its version everywhere, also in
      the saved metadata, and no backup. Tables that did not agree before it do so after it. */
  lemma FinalizeKeepsLast(s: State, events: seq<Event>, w: Writes)
    requires s.file.Some? && RotateState(s, events, w).1 == Finalized
    ensures var t := RotateState(s, events, w).0;
            && t.backup == None && t.saved == Some(t.meta)
            && match LastAccepted(Checkpoint(s), events, None)
               case None => t.file == s.file && t.meta == s.meta && t.p4rt == s.p4rt && t.gnxi == s.gnxi
               case Some(u) => t.file == Some(u.policy) && t.meta == u.row && t.p4rt == u.row && t.gnxi == u.row
  {
    ServeEnds(Checkpoint(s), s, events, None, w);
  }

  /** Without a policy file no upload is considered; an abort then brings back the backup that
      an earlier aborted stream left behind, if there is one. */
  lemma MissingFile(s: State, events: seq<Event>, w: Writes)
    requires Agree(s) && s.file.None?
    ensures var (t, ending) := RotateState(s, events, w);
            && Agree(t) && t.meta == s.meta && t.backup == s.backup
            && t.file == if ending == Aborted then s.backup else None
  {
  }

  datatype Stream = Stream(events: seq<Event>, rollback: Writes)

  function RotateAll(s: State, streams: seq<Stream>): State {
    if streams == [] then s
    else
      var last := streams[|streams| - 1];
      RotateState(RotateAll(s, streams[..|streams| - 1]), last.events, last.rollback).0
  }

  /** Over every sequence of streams a policy file that was there stays there; and as long as
      rollbacks can write, memory and tables keep agreeing. */
  lemma {:induction false} StreamsKeepAgreement(s: State, streams: seq<Stream>)
    ensures s.file.Some? ==> RotateAll(s, streams).file.Some?
    ensures Agree(s) && (forall i :: 0 <= i < |streams| ==> AllWritten(streams[i].rollback)) ==> Agree(RotateAll(s, streams))
  {
    if streams != [] {
      var init, last := streams[..|streams| - 1], streams[|streams| - 1];
      StreamsKeepAgreement(s, init);
      var t := RotateAll(s, init);
      if t.file.Some? {
        ServeEnds(Checkpoint(t), t, last.events, None, last.rollback);
        if Agree(t) && RotateState(t, last.events, last.rollback).1 == Aborted && AllWritten(last.rollback) {
          AbortRestores(t, last.events, last.rollback);
        }
      } else if Agree(t) {
        MissingFile(t, last.events, last.rollback);
      }
    }
  }

  // ---------- The server ----------

  datatype Field = Version | CreatedOn

  function SetField(r: Row, f: Field, val: string): Row {
    match f case Version => r.(version := val) case CreatedOn => r.(createdOn := val)
  }

  class AuthzServer {
    var file: Option<string>
    var backup: Option<string>
    var meta: Row
    var copy: Row
    var p4rt: Row
    var gnxi: Row
    var saved: Option<Row>

    ghost function View(): State
      reads this
    {
      State(file, backup, meta, copy, p4rt, gnxi, saved)
    }

    /** Starts from the saved metadata, if any, and writes it to both tables. */
    constructor (file: Option<string>, backup: Option<string>, saved: Option<Row>, p4rt: Row, gnxi: Row, w: Writes)
      ensures this.file == file && this.backup == backup && this.saved == saved
      ensures meta == copy == if saved.Some? then saved.value else Row("unknown", "0")
      ensures this.p4rt == Row(if w.version >= 1 then meta.version else p4rt.version, if w.createdOn >= 1 then meta.createdOn else p4rt.createdOn)
      ensures this.gnxi == Row(if w.version >= 2 then meta.version else gnxi.version, if w.createdOn >= 2 then meta.createdOn else gnxi.createdOn)
    {
      this.file, this.backup, this.saved := file, backup, saved;
      meta := if saved.Some? then saved.value else Row("unknown", "0");
      copy := meta;
      this.p4rt, this.gnxi := p4rt, gnxi;
      new;
      var _ := WriteMetadata(Version, meta.version, w.version);
      var _ := WriteMetadata(CreatedOn, meta.createdOn, w.createdOn);
    }

    /** Writes one field to both tables and then to memory; `writes` of the two succeed. */
    method WriteMetadata(f: Field, val: string, writes: nat) returns (ok: bool)
      modifies this`p4rt, this`gnxi, this`meta
      ensures ok <==> writes >= 2
      ensures p4rt == if writes >= 1 then SetField(old(p4rt), f, val) else old(p4rt)
      ensures gnxi == if ok then SetField(old(gnxi), f, val) else old(gnxi)
      ensures meta == if ok then SetField(old(meta), f, val) else old(meta)
    {
      if writes < 1 {
        return false;
      }
      p4rt := SetField(p4rt, f, val);
      if writes < 2 {
        return false;
      }
      gnxi := SetField(gnxi, f, val);
      meta := SetField(meta, f, val);
      ok := true;
    }

    method RevertAll(w: Writes)
      modifies this
      ensures View() == Revert(old(View()), w)
    {
      if backup.Some? {
        file := backup;
      }
      var _ := WriteMetadata(Version, copy.version, w.version);
      var _ := WriteMetadata(CreatedOn, copy.createdOn, w.createdOn);
    }

    method ProcessRequest(u: Upload) returns (ok: bool)
      modifies this
      ensures View() == Process(old(View()), u)
      ensures ok <==> Accepts(old(View()), u)
    {
      if u.policy == "" || u.row.version == "" || !u.valid || file.None? {
        return false;
      }
      if meta.version == u.row.version && !u.force {
        return false;
      }
      ok := WriteMetadata(Version, u.row.version, u.dbWrites);
      if !ok {
        return;
      }
      ok := WriteMetadata(CreatedOn, u.row.createdOn, u.dbWrites - 2);
      if !ok {
        return;
      }
      if u.save != NotSaved {
        file := Some(u.policy);
      }
      ok := u.save == Saved;
    }

    /** Runs one stream; running out of events is the end of the stream. */
    method Rotate(events: seq<Event>, w: Writes) returns (ending: Ending)
      modifies this
      ensures (View(), ending) == RotateState(old(View()), events, w)
    {
      copy := meta;
      if file.Some? {
        backup := file;
      }
      var i := 0;
      while i < |events|
        invariant 0 <= i <= |events|
        invariant Serve(View(), events[i..], w) == RotateState(old(View()), events, w)
      {
        assert events[i..][1..] == events[i + 1..];
        match events[i] {
          case Finalize =>
            if file.Some? {
              backup := None;
            }
            saved := Some(meta);
            return Finalized;
          case Request(u, sendOk) =>
            var ok := ProcessRequest(u);
            if !ok || !sendOk {
              RevertAll(w);
              return Aborted;
            }
          case _ =>
            RevertAll(w);
            return Aborted;
        }
        i := i + 1;
      }
      RevertAll(w);
      return Aborted;
    }
  }
}
