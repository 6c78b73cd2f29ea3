/** The pathz Rotate stream: checkpoint, uploads, then Finalize or a rollback. */
module PathzRotate {
  import opened Options
  import opened PathzPolicy
  import opened PathzProcessor

  // ---------- Streams ----------

  datatype Upload = Upload(version: string, createdOn: nat, policy: Option<Policy>)

  /** How writing the policy file went; a failed write leaves no file or some remains. */
  datatype WriteResult = Written | Failed(left: Option<string>)

  /** How saving the metadata to its file went; after a failure the file may hold none. */
  datatype SaveResult = Saved | NotSaved(left: Option<Meta>)

  /** `dbWrites` of the two fields of the row are written when a stream is finalized. */
  datatype Event =
    | Eof
    | RecvError
    | Finalize(dbWrites: nat, save: SaveResult)
    | OtherRequest
    | Request(upload: Upload, force: bool, write: WriteResult, sendOk: bool)

  datatype Meta = Meta(version: string, createdOn: nat)

  datatype Ending = NotFound | Reverted | Committed | CommitFailed

  type Marshal = Option<Policy> -> string

  type Unmarshal = string -> Option<Policy>

  /** The server as a value: the policy in force, the policy file and its backup, the metadata
      in memory, in the database and in its file, and what the checkpoint remembers. The checkpoint's copy
      of the metadata is the live record itself, so it has no value of its own. */
  datatype State = State(
    policy: Option<Policy>,
    file: Option<string>,
    backup: Option<string>,
    meta: Meta,
    db: Meta,
    saved: Option<Meta>,
    copy: Option<Policy>,
    updated: bool)

  function MetaOf(u: Upload): Meta { Meta(u.version, u.createdOn) }

  function Checkpoint(s: State): State {
    s.(copy := s.policy, updated := false, backup := s.file)
  }

  ghost function Revert(s: State): State {
    if s.updated && !Loadable(s.copy) then s.(updated := false, backup := None)
    else s.(policy := if s.updated then s.copy else s.policy, updated := false, file := s.backup, backup := None)
  }

  /** An upload is looked at when it has a version, and a new one unless forced. */
  predicate Considers(meta: Meta, e: Event) {
    e.Request? && e.upload.version != "" && (e.upload.version != meta.version || e.force)
  }

  ghost predicate Accepts(meta: Meta, e: Event) {
    Considers(meta, e) && e.write == Written && Loadable(e.upload.policy)
  }

  ghost function Process(s: State, e: Event, marshal: Marshal): State {
    if !Considers(s.meta, e) then s
    else
      var s' := s.(meta := MetaOf(e.upload),
                   file := if e.write == Written then Some(marshal(e.upload.policy)) else e.write.left);
      if Accepts(s.meta, e) then s'.(policy := e.upload.policy, updated := true) else s'
  }

  /** The first `n` of the two writes: the version, then the creation time. */
  function WriteRow(db: Meta, meta: Meta, n: nat): Meta {
    Meta(if n >= 1 then meta.version else db.version, if n >= 2 then meta.createdOn else db.createdOn)
  }

  function Commit(s: State, n: nat, save: SaveResult): (State, Ending) {
    var s' := s.(db := WriteRow(s.db, s.meta, n));
    if n < 2 then (s', CommitFailed)
    else
      match save
      case NotSaved(left) => (s'.(saved := left), CommitFailed)
      case Saved => (s'.(saved := Some(s.meta), backup := None), Committed)
  }

  /** The rest of a stream after the checkpoint. */
  ghost function Serve(s: State, events: seq<Event>, marshal: Marshal): (State, Ending)
    decreases |events|
  {
    if events == [] then (Revert(s), Reverted)
    else match events[0]
      case Finalize(n, save) => if !s.updated then (Revert(s), Reverted) else Commit(s, n, save)
      case Eof => (Revert(s), Reverted)
      case RecvError => (Revert(s), Reverted)
      case OtherRequest => (Revert(s), Reverted)
      case Request(_, _, _, sendOk) =>
        var s' := Process(s, events[0], marshal);
        if Accepts(s.meta, events[0]) && sendOk then Serve(s', events[1..], marshal)
        else (Revert(s'), Reverted)
  }

  ghost function RotateState(s: State, events: seq<Event>, marshal: Marshal): (State, Ending) {
    if s.file.None? then (s, NotFound) else Serve(Checkpoint(s), events, marshal)
  }

  // ---------- What a stream leaves behind ----------

  /** The uploads accepted before the stream ends. */
  ghost function Accepted(meta: Meta, events: seq<Event>): seq<Upload>
    decreases |events|
  {
    if events == [] || !Accepts(meta, events[0]) then []
    else [events[0].upload] + (if events[0].sendOk then Accepted(MetaOf(events[0].upload), events[1..]) else [])
  }

  ghost function LastOr(uploads: seq<Upload>, p: Option<Policy>): Option<Policy> {
    if uploads == [] then p else uploads[|uploads| - 1].policy
  }

  lemma LastOrStep(u: Upload, rest: seq<Upload>, p: Option<Policy>)
    ensures LastOr([u] + rest, p) == LastOr(rest, u.policy)
  {
  }

  /** The uploads looked at before the stream ends, whether or not they were accepted. */
  ghost function Considered(meta: Meta, events: seq<Event>): seq<Upload>
    decreases |events|
  {
    if events == [] || !Considers(meta, events[0]) then []
    else
      var u := events[0].upload;
      [u] + if Accepts(meta, events[0]) && events[0].sendOk then Considered(MetaOf(u), events[1..]) else []
  }

  /** The request that finalizes the stream, if it gets that far. */
  ghost function Closing(meta: Meta, events: seq<Event>): Option<Event>
    decreases |events|
  {
    if events == [] then None
    else if events[0].Finalize? then Some(events[0])
    else if Accepts(meta, events[0]) && events[0].sendOk then Closing(MetaOf(events[0].upload), events[1..])
    else None
  }

  /** Between the checkpoint and the end: the backup is the file of the checkpoint, and the
      policy in force is the last accepted one, which the file then holds. */
  ghost predicate Serving(s: State, start: State, marshal: Marshal) {
    && s.copy == start.policy && s.backup == start.file && s.db == start.db && s.saved == start.saved && start.file.Some?
    && (!s.updated ==> s.policy == start.policy && s.file == start.file)
    && (s.updated ==> Loadable(s.policy) && s.file == Some(marshal(s.policy)))
  }

  /** Every ending of a stream, given how it began. */
  lemma {:induction false} ServeEnds(s: State, start: State, events: seq<Event>, marshal: Marshal)
    requires Serving(s, start, marshal) && (start.policy.Some? ==> Loadable(start.policy))
    ensures var (t, ending) := Serve(s, events, marshal);
            var last := LastOr(Accepted(s.meta, events), s.policy);
            && ending != NotFound
            && (ending == Reverted ==>
                  && t.backup == None && t.db == start.db && t.saved == start.saved
                  && if start.policy.Some? || (!s.updated && Accepted(s.meta, events) == [])
                     then t.policy == start.policy && t.file == start.file
                     else t.policy == last)
            && (ending != Reverted ==>
                  && (s.updated || Accepted(s.meta, events) != [])
                  && Loadable(last) && t.policy == last && t.file == Some(marshal(last))
                  && t.backup == (if ending == Committed then None else start.file)
                  && Closing(s.meta, events).Some? && Closing(s.meta, events).value.Finalize?
                  && var end := Closing(s.meta, events).value;
                  && t.db == WriteRow(start.db, t.meta, end.dbWrites)
                  && t.saved == (if end.dbWrites < 2 then start.saved
                                 else if end.save.NotSaved? then end.save.left else Some(t.meta))
                  && (ending == Committed <==> end.dbWrites >= 2 && end.save.Saved?))
    decreases |events|
  {
    if events != [] && (events[0].OtherRequest? || events[0].Request?) {
      var s' := Process(s, events[0], marshal);
      if Accepts(s.meta, events[0]) {
        var rest := if events[0].sendOk then Accepted(MetaOf(events[0].upload), events[1..]) else [];
        LastOrStep(events[0].upload, rest, s.policy);
        if events[0].sendOk {
          ServeEnds(s', start, events[1..], marshal);
        }
      }
    }
  }

  /** What an upload that is looked at leaves in the file. */
  function TextOf(e: Event, marshal: Marshal): Option<string>
    requires e.Request?
  {
    if e.write == Written then Some(marshal(e.upload.policy)) else e.write.left
  }

  /** The text that the last upload looked at leaves, or the one that was there. */
  ghost function LastText(meta: Meta, events: seq<Event>, file: Option<string>, marshal: Marshal): Option<string>
    decreases |events|
  {
    if events == [] || !Considers(meta, events[0]) then file
    else
      var text := TextOf(events[0], marshal);
      if Accepts(meta, events[0]) && events[0].sendOk then LastText(MetaOf(events[0].upload), events[1..], text, marshal) else text
  }

  /** If no policy was loaded, a stream that is given up after an accepted upload leaves the file. */
  lemma {:induction false} UnloadedFile(s: State, events: seq<Event>, marshal: Marshal)
    requires !Loadable(s.copy) && (s.updated || Accepted(s.meta, events) != [])
    ensures var (t, ending) := Serve(s, events, marshal); ending == Reverted ==> t.file == LastText(s.meta, events, s.file, marshal)
    decreases |events|
  {
    if events != [] && Accepts(s.meta, events[0]) && events[0].sendOk {
      UnloadedFile(Process(s, events[0], marshal), events[1..], marshal);
    }
  }

  /** A stream that does not commit leaves the policy in force as it was exactly when a policy
      was loaded at its start or no upload was accepted; the file is then as it was, too, and
      otherwise exactly when the last upload looked at left the same text. */
  lemma RevertedStreamRestores(s: State, events: seq<Event>, marshal: Marshal)
    requires s.file.Some? && (s.policy.Some? ==> Loadable(s.policy))
    requires RotateState(s, events, marshal).1 == Reverted
    ensures var t := RotateState(s, events, marshal).0;
            && (t.policy == s.policy <==> s.policy.Some? || Accepted(s.meta, events) == [])
            && (t.file == s.file <==>
                  s.policy.Some? || Accepted(s.meta, events) == [] || LastText(s.meta, events, s.file, marshal) == s.file)
            && t.backup == None && t.db == s.db && t.saved == s.saved
  {
    ServeEnds(Checkpoint(s), s, events, marshal);
    LastAcceptedLoads(s.meta, events);
    if s.policy.None? && Accepted(s.meta, events) != [] { UnloadedFile(Checkpoint(s), events, marshal); }
  }

  lemma {:induction false} LastAcceptedLoads(meta: Meta, events: seq<Event>)
    ensures Accepted(meta, events) != [] ==> Loadable(LastOr(Accepted(meta, events), None))
    decreases |events|
  {
    if events != [] && Accepts(meta, events[0]) {
      var u := events[0].upload;
      var rest := if events[0].sendOk then Accepted(MetaOf(u), events[1..]) else [];
      if events[0].sendOk { LastAcceptedLoads(MetaOf(u), events[1..]); }
      LastOrStep(u, rest, None);
    }
  }

  /** A committed stream leaves the last accepted upload in force and in the file, its version
      in the database, and no backup. */
  lemma CommittedStreamKeepsLast(s: State, events: seq<Event>, marshal: Marshal)
    requires s.file.Some? && (s.policy.Some? ==> Loadable(s.policy))
    requires RotateState(s, events, marshal).1 == Committed
    ensures var t := RotateState(s, events, marshal).0;
            && Accepted(s.meta, events) != []
            && t.policy == LastOr(Accepted(s.meta, events), None) && Loadable(t.policy)
            && t.file == Some(marshal(t.policy)) && t.backup == None
            && t.db == t.meta && t.saved == Some(t.meta)
  {
    ServeEnds(Checkpoint(s), s, events, marshal);
  }

  /** Exactly which uploads can be committed: those with a version, not the one in force unless
      forced, whose file is written, whose policy can be loaded, and whose reply is sent. What is
      committed is then in force, in the file, in memory, in the row and in the saved metadata. */
  lemma CommitsIff(s: State, e: Event, marshal: Marshal)
    requires s.file.Some? && e.Request?
    ensures var (t, ending) := RotateState(s, [e, Finalize(2, Saved)], marshal);
            && (ending == Committed <==>
                  && e.upload.version != "" && (e.upload.version != s.meta.version || e.force)
                  && e.write == Written && Loadable(e.upload.policy) && e.sendOk)
            && (ending == Committed ==>
                  && t.policy == e.upload.policy && t.file == Some(marshal(e.upload.policy)) && t.backup == None
                  && t.meta == t.db == Meta(e.upload.version, e.upload.createdOn) && t.saved == Some(t.meta))
  {
    assert [e, Finalize(2, Saved)][1..] == [Finalize(2, Saved)];
    var s' := Process(Checkpoint(s), e, marshal);
    assert s'.updated ==> Serve(s', [Finalize(2, Saved)], marshal) == Commit(s', 2, Saved);
  }

  /** Without an upload there is nothing to commit. */
  lemma NothingToCommit(s: State, n: nat, save: SaveResult, rest: seq<Event>, marshal: Marshal)
    requires s.file.Some?
    ensures RotateState(s, [Finalize(n, save)] + rest, marshal).1 == Reverted
  {
  }

  /** The policy file holds the policy in force. */
  ghost predicate InSync(s: State, marshal: Marshal) {
    Loadable(s.policy) && s.file == Some(marshal(s.policy))
  }

  ghost function RotateAll(s: State, streams: seq<seq<Event>>, marshal: Marshal): State {
    if streams == [] then s
    else RotateState(RotateAll(s, streams[..|streams| - 1], marshal), streams[|streams| - 1], marshal).0
  }

  /** Over every sequence of streams, however each of them ends, the file keeps holding the
      policy in force. */
  lemma {:induction false} StaysInSync(s: State, streams: seq<seq<Event>>, marshal: Marshal)
    requires InSync(s, marshal)
    ensures InSync(RotateAll(s, streams, marshal), marshal)
  {
    if streams != [] {
      var init, last := streams[..|streams| - 1], streams[|streams| - 1];
      StaysInSync(s, init, marshal);
      var t := RotateAll(s, init, marshal);
      ServeEnds(Checkpoint(t), t, last, marshal);
    }
  }

  // ---------- The version metadata ----------

  ghost function LastMeta(uploads: seq<Upload>, meta: Meta): Meta {
    if uploads == [] then meta else MetaOf(uploads[|uploads| - 1])
  }

  lemma {:induction false} ServeMeta(s: State, events: seq<Event>, marshal: Marshal)
    ensures Serve(s, events, marshal).0.meta == LastMeta(Considered(s.meta, events), s.meta)
    decreases |events|
  {
    if events != [] && Considers(s.meta, events[0]) {
      var u := events[0].upload;
      if Accepts(s.meta, events[0]) && events[0].sendOk {
        ServeMeta(Process(s, events[0], marshal), events[1..], marshal);
        var rest := Considered(MetaOf(u), events[1..]);
        assert rest != [] ==> ([u] + rest)[|rest|] == rest[|rest| - 1];
      }
    }
  }

  /** The version metadata is not part of the rollback. However a stream ends, memory has the
      metadata of the last upload that was looked at, accepted or not; so it is as it was exactly
      when none was, or the last one carries the same. */
  lemma MetaKeptIff(s: State, events: seq<Event>, marshal: Marshal)
    requires s.file.Some?
    ensures var t := RotateState(s, events, marshal).0;
            var us := Considered(s.meta, events);
            && t.meta == LastMeta(us, s.meta)
            && (t.meta == s.meta <==> us == [] || MetaOf(us[|us| - 1]) == s.meta)
  {
    ServeMeta(Checkpoint(s), events, marshal);
  }

  /** An aborted upload is refused when it is sent again. */
  lemma AbortKeepsVersion(s: State, e: Event, marshal: Marshal)
    requires s.file.Some? && Accepts(s.meta, e) && e.sendOk && !e.force
    ensures var (t, ending) := RotateState(s, [e, Eof], marshal);
            && ending == Reverted && t.meta == MetaOf(e.upload)
            && !Considers(t.meta, e) && Accepted(t.meta, [e, Finalize(2, Saved)]) == []
  {
    assert [e, Eof][1..] == [Eof];
    assert Serve(Process(Checkpoint(s), e, marshal), [Eof], marshal).1 == Reverted;
  }

  /** A commit that fails leaves the row neither as it was nor as the last upload has it exactly
      when the second write failed and both fields differ. */
  lemma MixedRowIff(s: State, events: seq<Event>, marshal: Marshal)
    requires s.file.Some? && (s.policy.Some? ==> Loadable(s.policy))
    requires RotateState(s, events, marshal).1 == CommitFailed
    ensures Closing(s.meta, events).Some? && Closing(s.meta, events).value.Finalize?
    ensures var t, n, meta := RotateState(s, events, marshal).0, Closing(s.meta, events).value.dbWrites, LastMeta(Considered(s.meta, events), s.meta);
            && t.meta == meta
            && (t.db !in {s.db, meta} <==> n == 1 && s.db.version != meta.version && s.db.createdOn != meta.createdOn)
  {
    ServeEnds(Checkpoint(s), s, events, marshal);
    MetaKeptIff(s, events, marshal);
  }

  /** The least such stream: one upload, and a commit that writes one field. */
  lemma MixedRow(s: State, e: Event, marshal: Marshal)
    requires s.file.Some? && Accepts(s.meta, e) && e.sendOk
    requires s.db.version != e.upload.version && s.db.createdOn != e.upload.createdOn
    ensures var (t, ending) := RotateState(s, [e, Finalize(1, Saved)], marshal);
            ending == CommitFailed && t.db == Meta(e.upload.version, s.db.createdOn) && t.db !in {s.db, MetaOf(e.upload)}
  {
    assert [e, Finalize(1, Saved)][1..] == [Finalize(1, Saved)];
    var s' := Process(Checkpoint(s), e, marshal);
    assert Serve(s', [Finalize(1, Saved)], marshal) == Commit(s', 1, Saved);
  }

  // ---------- Restarting ----------

  /** A policy that is read from the file at the start is loaded if it can be. */
  ghost function Loaded(file: Option<string>, enabled: bool, unmarshal: Unmarshal): Option<Policy> {
    if enabled && file.Some? && Loadable(unmarshal(file.value)) then unmarshal(file.value) else None
  }

  /** A new server on what another one left on the disk and in the database. */
  ghost function Restart(s: State, enabled: bool, n: nat, unmarshal: Unmarshal): State {
    var meta := if s.saved.Some? then s.saved.value else Meta("unknown", 0);
    State(Loaded(s.file, enabled, unmarshal), s.file, s.backup, meta, WriteRow(s.db, meta, n), s.saved, None, false)
  }

  /** A restart without saved metadata knows no version; a policy file is loaded exactly if that is
      enabled and it can be; the row gets the metadata as far as it can be written. */
  lemma RestartIs(s: State, enabled: bool, n: nat, unmarshal: Unmarshal)
    ensures var r := Restart(s, enabled, n, unmarshal);
            && (s.saved.None? ==> r.meta == Meta("unknown", 0)) && (s.saved.Some? ==> r.meta == s.saved.value)
            && (r.policy.Some? <==> enabled && s.file.Some? && Loadable(unmarshal(s.file.value)))
            && (r.policy.Some? ==> r.policy == unmarshal(s.file.value))
            && (n >= 2 ==> r.db == r.meta) && (n == 1 ==> r.db == Meta(r.meta.version, s.db.createdOn)) && (n == 0 ==> r.db == s.db)
            && r.file == s.file && r.backup == s.backup && r.saved == s.saved
  {
  }

  /** What a committed stream put in force survives a restart; after a stream that was given up
      the restart also brings back the version that was saved last. */
  lemma RestartKeeps(s: State, events: seq<Event>, n: nat, marshal: Marshal, unmarshal: Unmarshal)
    requires InSync(s, marshal) && n >= 2 && forall p :: unmarshal(marshal(p)) == p
    ensures var (t, ending) := RotateState(s, events, marshal);
            var r := Restart(t, true, n, unmarshal);
            && r.policy == t.policy && r.file == t.file && r.db == r.meta
            && (ending == Committed ==> r.meta == t.meta)
            && (ending == Reverted && s.saved.Some? ==> r.meta == s.saved.value)
  {
    ServeEnds(Checkpoint(s), s, events, marshal);
  }

  // ---------- The server ----------

  class Metadata {
    var version: string
    var createdOn: nat

    constructor (version: string, createdOn: nat)
      ensures Value() == Meta(version, createdOn)
    {
      this.version, this.createdOn := version, createdOn;
    }

    function Value(): Meta
      reads this
    {
      Meta(version, createdOn)
    }
  }

  class PathzServer {
    const processor: Processor
    const marshal: Marshal
    var metadata: Metadata
    var metadataCopy: Metadata
    var policyCopy: Option<Policy>
    var policyUpdated: bool
    var file: Option<string>
    var backup: Option<string>
    var db: Meta
    var saved: Option<Meta>

    ghost predicate Valid()
      reads this, processor, processor.nodes
    {
      processor.Valid()
    }

    ghost function View(): State
      reads this, processor, metadata
    {
      State(processor.policy, file, backup, metadata.Value(), db, saved, policyCopy, policyUpdated)
    }

    /** Starts from the metadata and, if enabled, the policy that the files hold; `n` of the two
        writes to the row succeed. */
    constructor (marshal: Marshal, unmarshal: Unmarshal, ghost was: State, file: Option<string>, backup: Option<string>,
                 db: Meta, saved: Option<Meta>, enabled: bool, n: nat)
      requires file == was.file && backup == was.backup && db == was.db && saved == was.saved
      ensures Valid() && fresh(processor) && fresh(processor.nodes) && fresh(metadata)
      ensures this.marshal == marshal && View() == Restart(was, enabled, n, unmarshal)
    {
      processor := new Processor();
      this.marshal := marshal;
      var meta := if saved.Some? then saved.value else Meta("unknown", 0);
      var m := new Metadata(meta.version, meta.createdOn);
      metadata, metadataCopy := m, m;
      policyCopy, policyUpdated := None, false;
      this.file, this.backup, this.saved := file, backup, saved;
      this.db := db;
      new;
      this.db := WriteRow(db, metadata.Value(), n);
      if enabled && file.Some? {
        var ok := processor.UpdatePolicyFromProto(unmarshal(file.value));
      }
    }

    /** Remembers the policy, the file and, by reference, the metadata. */
    method CreateCheckpoint()
      modifies this
      ensures View() == Checkpoint(old(View())) && metadataCopy == metadata == old(metadata)
    {
      policyCopy := processor.policy;
      policyUpdated := false;
      metadataCopy := metadata;
      backup := file;
    }

    /** Reloads the remembered policy if an upload replaced it; when that is refused the
        backup is dropped and the file stays. */
    method RevertPolicy()
      requires Valid() && metadataCopy == metadata
      modifies this, processor
      ensures Valid() && View() == Revert(old(View())) && metadata == old(metadata)
    {
      if policyUpdated {
        policyUpdated := false;
        var ok := processor.UpdatePolicyFromProto(policyCopy);
        if !ok {
          backup := None;
          return;
        }
      }
      metadata := metadataCopy;
      file, backup := backup, None;
    }

    /** Saves the policy to the file, then loads it. */
    method UpdatePolicy(p: Option<Policy>, write: WriteResult) returns (ok: bool)
      requires Valid()
      modifies this`file, processor
      ensures Valid()
      ensures ok <==> write == Written && Loadable(p)
      ensures processor.policy == if ok then p else old(processor.policy)
      ensures file == if write == Written then Some(marshal(p)) else write.left
    {
      match write {
        case Failed(left) =>
          file := left;
          return false;
        case Written =>
          file := Some(marshal(p));
      }
      ok := processor.UpdatePolicyFromProto(p);
    }

    /** Checks an upload, notes its version, then updates the policy. */
    method ProcessRequest(e: Event) returns (ok: bool)
      requires Valid()
      modifies this`file, this`policyUpdated, processor, metadata
      ensures Valid() && View() == Process(old(View()), e, marshal)
      ensures ok <==> Accepts(old(metadata.Value()), e)
    {
      if !e.Request? || e.upload.version == "" {
        return false;
      }
      if metadata.version == e.upload.version && !e.force {
        return false;
      }
      metadata.version := e.upload.version;
      metadata.createdOn := e.upload.createdOn;
      ok := UpdatePolicy(e.upload.policy, e.write);
      if ok {
        policyUpdated := true;
      }
    }

    /** Writes the row field by field, then the metadata file. */
    method CommitChanges(n: nat, save: SaveResult) returns (ending: Ending)
      modifies this`db, this`saved
      ensures db == WriteRow(old(db), metadata.Value(), n)
      ensures ending == if n >= 2 && save.Saved? then Committed else CommitFailed
      ensures saved == if n < 2 then old(saved) else if save.NotSaved? then save.left else Some(metadata.Value())
    {
      if n < 1 {
        return CommitFailed;
      }
      db := db.(version := metadata.version);
      if n < 2 {
        return CommitFailed;
      }
      db := db.(createdOn := metadata.createdOn);
      match save {
        case NotSaved(left) =>
          saved := left;
          return CommitFailed;
        case Saved =>
          saved := Some(metadata.Value());
      }
      return Committed;
    }

    /** Runs one stream; running out of events is the end of the stream. */
    method Rotate(events: seq<Event>) returns (ending: Ending)
      requires Valid()
      modifies this, processor, metadata
      ensures Valid() && metadata == old(metadata)
      ensures (View(), ending) == RotateState(old(View()), events, marshal)
    {
      if file.None? {
        return NotFound;
      }
      CreateCheckpoint();
      var i := 0;
      while i < |events|
        invariant 0 <= i <= |events|
        invariant Valid() && metadata == metadataCopy == old(metadata)
        invariant Serve(View(), events[i..], marshal) == RotateState(old(View()), events, marshal)
      {
        var e := events[i];
        assert events[i..][1..] == events[i + 1..];
        if e.Eof? || e.RecvError? {
          RevertPolicy();
          return Reverted;
        }
        if e.Finalize? {
          if !policyUpdated {
            RevertPolicy();
            return Reverted;
          }
          ending := CommitChanges(e.dbWrites, e.save);
          if ending == Committed {
            backup := None;
          }
          return;
        }
        var ok := ProcessRequest(e);
        if !ok || !e.sendOk {
          RevertPolicy();
          return Reverted;
        }
        i := i + 1;
      }
      RevertPolicy();
      return Reverted;
    }
  }
}
