/** Certificate rotation as a state machine: for each kind of credential the active and the
    last entity, the files, links or directories it lives in, and its freshness row. */
module CertzState {
  import opened Options
  import opened FilePath
  import opened CrlFiles

  // ---------- Data ----------

  /** A file name. Uploaded files carry the time of upload, which never repeats. */
  datatype File = Configured(name: string) | CertFile(serial: nat) | KeyFile(serial: nat) | BundleFile(serial: nat)

  const NO_FILE := Configured("")
  const CRL_DIR := Configured("crl")
  const AUTH_FILE := Configured("auth")

  datatype Entity = Entity(createdOn: nat, version: string, certPath: File, keyPath: File, final: bool)

  datatype Row = Row(version: string, createdOn: nat)

  function RowOf(e: Entity): Row { Row(e.version, e.createdOn) }

  /** The active entity of one kind, the last one, and the freshness row. */
  datatype Slot = Slot(active: Entity, last: Entity, row: Row)

  /** The server's certificate and key with the links that lead to them. */
  datatype CertPart = CertPart(slot: Slot, srvCert: Option<File>, srvKey: Option<File>)

  /** The trust bundle with its link. */
  datatype BundlePart = BundlePart(slot: Slot, caCert: Option<File>)

  /** The revocation lists: the configured directory, in which the live one and its flush copy
      are, and the files on the disk. */
  datatype CrlPart = CrlPart(slot: Slot, base: Place, disk: Disk)

  /** The authentication policy: its file and the backup. */
  datatype AuthPart = AuthPart(slot: Slot, file: Option<string>, backup: Option<string>)

  datatype Saved = Saved(cert: Entity, bundle: Entity, crl: Entity, auth: Entity)

  datatype State = State(
    cert: CertPart,
    bundle: BundlePart,
    crl: CrlPart,
    auth: AuthPart,
    files: set<File>,
    clock: nat,
    saved: Option<Saved>)

  // ---------- One kind ----------

  /** Until the stream ends, `last` keeps the final entity that was replaced first. */
  function Activate(s: Slot, e: Entity): Slot {
    Slot(e, if s.active.final then s.active else s.last, RowOf(e))
  }

  function RevertSlot(s: Slot): Slot { s.(active := s.last, row := RowOf(s.last)) }

  function FinalizeSlot(s: Slot): Slot {
    var e := s.active.(final := true);
    s.(active := e, last := e)
  }

  // ---------- Links ----------

  /** The step of replacing a pair of links that fails; removing a link that is not there
      cannot fail, and the restoring steps do not. */
  datatype PairFault = NoFault | RmCertFails | RmKeyFails | LinkCertFails | LinkKeyFails

  datatype CaFault = NoCaFault | RmCaFails | LinkCaFails

  /** Puts a removed link back, if there was one and its target is still there. */
  function RestoreLink(was: Option<File>, now: Option<File>, files: set<File>): Option<File> {
    if was.None? || was.value !in files then now else was
  }

  /** Points the certificate and key links at a new pair, or tries to put both back. */
  function SetPair(p: CertPart, files: set<File>, cert: File, key: File, fault: PairFault): (CertPart, bool) {
    if fault == RmCertFails && p.srvCert.Some? then (p, false)
    else if fault == RmKeyFails && p.srvKey.Some? then (p.(srvCert := RestoreLink(p.srvCert, None, files)), false)
    else if fault == LinkCertFails then
      (p.(srvCert := RestoreLink(p.srvCert, None, files), srvKey := RestoreLink(p.srvKey, None, files)), false)
    else if fault == LinkKeyFails then
      (p.(srvCert := RestoreLink(p.srvCert, Some(cert), files), srvKey := RestoreLink(p.srvKey, None, files)), false)
    else (p.(srvCert := Some(cert), srvKey := Some(key)), true)
  }

  function SetCa(p: BundlePart, files: set<File>, ca: File, fault: CaFault): (BundlePart, bool) {
    if fault == RmCaFails && p.caCert.Some? then (p, false)
    else if fault == LinkCaFails then (p.(caCert := RestoreLink(p.caCert, None, files)), false)
    else (p.(caCert := Some(ca)), true)
  }

  /** A link that is there has a target. */
  predicate Intact(link: Option<File>, files: set<File>) { link.None? || link.value in files }

  // ---------- Uploads ----------

  datatype CertSave = CertInvalid | KeyWriteFails | CertWriteFails | CertSaved

  /** What an upload message carries, with the outcome of the steps the server cannot foresee. */
  datatype Body =
    | CertBody(save: CertSave, link: PairFault)
    | BundleBody(bundleSaved: bool, caLink: CaFault)
    | CrlBody(configured: bool, crls: seq<Crl>)
    | AuthBody(policy: string, policyWritten: bool)
    | NoBody

  datatype Msg = Msg(createdOn: nat, version: string, body: Body)

  function CertEntity(m: Msg, n: nat): Entity { Entity(m.createdOn, m.version, CertFile(n), KeyFile(n), false) }
  function BundleEntity(m: Msg, n: nat): Entity { Entity(m.createdOn, m.version, BundleFile(n), NO_FILE, false) }
  function CrlEntity(m: Msg): Entity { Entity(m.createdOn, m.version, CRL_DIR, NO_FILE, false) }
  function AuthEntity(m: Msg): Entity { Entity(m.createdOn, m.version, AUTH_FILE, NO_FILE, false) }

  /** The files that exist after saving a certificate and key. */
  function SaveCert(files: set<File>, save: CertSave, n: nat): set<File> {
    match save
    case CertWriteFails => files + {KeyFile(n)}
    case CertSaved => files + {KeyFile(n), CertFile(n)}
    case _ => files
  }

  function UploadCert(p: CertPart, files: set<File>, m: Msg, n: nat): (CertPart, bool)
    requires m.body.CertBody?
  {
    if m.body.save != CertSaved then (p, false)
    else
      var (q, ok) := SetPair(p, SaveCert(files, CertSaved, n), CertFile(n), KeyFile(n), m.body.link);
      if ok then (q.(slot := Activate(q.slot, CertEntity(m, n))), true) else (q, false)
  }

  function UploadBundle(p: BundlePart, files: set<File>, m: Msg, n: nat): (BundlePart, bool)
    requires m.body.BundleBody?
  {
    if !m.body.bundleSaved then (p, false)
    else
      var (q, ok) := SetCa(p, files + {BundleFile(n)}, BundleFile(n), m.body.caLink);
      if ok then (q.(slot := Activate(q.slot, BundleEntity(m, n))), true) else (q, false)
  }

  function UploadCrl(p: CrlPart, m: Msg): (CrlPart, bool)
    requires m.body.CrlBody?
  {
    var (disk, ok) := RotateCrl(p.base, p.disk, m.body.crls);
    if ok then (p.(disk := disk, slot := Activate(p.slot, CrlEntity(m))), true) else (p.(disk := disk), false)
  }

  /** The first policy of a stream moves the old one to the backup; a failed write moves it back. */
  function UploadAuth(p: AuthPart, m: Msg): (AuthPart, bool)
    requires m.body.AuthBody?
  {
    if p.backup.None? && p.file.None? then (p, false)
    else
      var backup := if p.backup.None? then p.file else p.backup;
      if m.body.policyWritten
      then (p.(file := Some(m.body.policy), backup := backup, slot := Activate(p.slot, AuthEntity(m))), true)
      else (p.(file := backup, backup := None), false)
  }

  function ActiveVersion(s: State, b: Body): string {
    match b
    case CertBody(_, _) => s.cert.slot.active.version
    case BundleBody(_, _) => s.bundle.slot.active.version
    case CrlBody(_, _) => s.crl.slot.active.version
    case AuthBody(_, _) => s.auth.slot.active.version
    case NoBody => ""
  }

  /** The checks made before anything is saved. */
  predicate Considers(s: State, m: Msg, overwrite: bool) {
    && m.createdOn != 0 && m.version != "" && m.body != NoBody
    && (m.body.CrlBody? ==> m.body.configured)
    && (overwrite || m.version != ActiveVersion(s, m.body))
  }

  /** Saves and activates what a message carries; its files are named after the time. */
  function SaveOne(s: State, m: Msg): (State, bool) {
    var n := s.clock;
    match m.body
    case CertBody(save, _) =>
      var (p, ok) := UploadCert(s.cert, s.files, m, n);
      (s.(clock := n + 1, cert := p, files := SaveCert(s.files, save, n)), ok)
    case BundleBody(saved, _) =>
      var (p, ok) := UploadBundle(s.bundle, s.files, m, n);
      (s.(clock := n + 1, bundle := p, files := if saved then s.files + {BundleFile(n)} else s.files), ok)
    case CrlBody(_, _) =>
      var (p, ok) := UploadCrl(s.crl, m);
      (s.(clock := n + 1, crl := p), ok)
    case AuthBody(_, _) =>
      var (p, ok) := UploadAuth(s.auth, m);
      (s.(clock := n + 1, auth := p), ok)
    case NoBody => (s, false)
  }

  function UploadOne(s: State, m: Msg, overwrite: bool): (State, bool) {
    if Considers(s, m, overwrite) then SaveOne(s, m) else (s, false)
  }

  /** The messages of one request in order, up to the first that fails. */
  function UploadMsgs(s: State, msgs: seq<Msg>, overwrite: bool): (State, bool)
    decreases |msgs|
  {
    if msgs == [] then (s, true)
    else
      var (s', ok) := UploadOne(s, msgs[0], overwrite);
      if ok then UploadMsgs(s', msgs[1..], overwrite) else (s', false)
  }

  function DoUpload(s: State, msgs: seq<Msg>, overwrite: bool): (State, bool) {
    if msgs == [] then (s, false) else UploadMsgs(s, msgs, overwrite)
  }

  // ---------- Ending a stream ----------

  /** The files of a certificate entity, and of a trust bundle. */
  function PairFiles(e: Entity): set<File> { {e.certPath, e.keyPath} }
  function BundleFiles(e: Entity): set<File> { {e.certPath} }

  /** Points the links back to the last entity. */
  function RevertCert(p: CertPart, files: set<File>, fault: PairFault): CertPart {
    if p.slot.active.final then p
    else
      var q := SetPair(p, files, p.slot.last.certPath, p.slot.last.keyPath, fault).0;
      q.(slot := RevertSlot(q.slot))
  }

  function RevertBundle(p: BundlePart, files: set<File>, fault: CaFault): BundlePart {
    if p.slot.active.final then p
    else
      var q := SetCa(p, files, p.slot.last.certPath, fault).0;
      q.(slot := RevertSlot(q.slot))
  }

  function RevertCrl(p: CrlPart): CrlPart {
    if p.slot.active.final then p
    else p.(disk := Copy(p.disk, FlushDir(p.base), LiveDir(p.base)), slot := RevertSlot(p.slot))
  }

  function RevertAuth(p: AuthPart): AuthPart {
    if p.slot.active.final then p
    else p.(file := if p.backup.Some? then p.backup else p.file, backup := None, slot := RevertSlot(p.slot))
  }

  /** The files of an entity that is given up go, also when a link could not be pointed back. */
  function RevertProfile(s: State, pair: PairFault, ca: CaFault): State {
    var files1 := if s.cert.slot.active.final then s.files else s.files - PairFiles(s.cert.slot.active);
    var files2 := if s.bundle.slot.active.final then files1 else files1 - BundleFiles(s.bundle.slot.active);
    s.(cert := RevertCert(s.cert, s.files, pair), bundle := RevertBundle(s.bundle, files1, ca),
       crl := RevertCrl(s.crl), auth := RevertAuth(s.auth), files := files2)
  }

  function FinalizeCrl(p: CrlPart): CrlPart {
    if p.slot.active.final then p
    else p.(disk := Copy(p.disk, LiveDir(p.base), FlushDir(p.base)), slot := FinalizeSlot(p.slot))
  }

  function FinalizeAuth(p: AuthPart): AuthPart {
    p.(backup := if p.slot.active.final then p.backup else None, slot := FinalizeSlot(p.slot))
  }

  /** The files of the entities that were replaced go. */
  function FinalizeProfile(s: State): State {
    var files1 := if s.cert.slot.active.final then s.files else s.files - PairFiles(s.cert.slot.last);
    var files2 := if s.bundle.slot.active.final then files1 else files1 - BundleFiles(s.bundle.slot.last);
    var cert := s.cert.(slot := FinalizeSlot(s.cert.slot));
    var bundle := s.bundle.(slot := FinalizeSlot(s.bundle.slot));
    var crl, auth := FinalizeCrl(s.crl), FinalizeAuth(s.auth);
    State(cert, bundle, crl, auth, files2, s.clock,
          Some(Saved(cert.slot.active, bundle.slot.active, crl.slot.active, auth.slot.active)))
  }

  // ---------- Streams ----------

  const DEFAULT_PROFILE := "gnxi"

  datatype Event =
    | Eof
    | RecvError
    | Finalize
    | OtherRequest
    | GenerateCsr(profile: string, generated: bool, sendOk: bool)
    | Certificates(profile: string, msgs: seq<Msg>, overwrite: bool, sendOk: bool)

  datatype Ending = Reverted | Finalized | NothingToFinalize

  /** The first request of a stream names the profile; no name means the default one, and there
      is no other. */
  predicate Known(bound: bool, profile: string) { bound || profile == "" || profile == DEFAULT_PROFILE }

  /** What a request does; a request that generates a signing request changes nothing here. */
  function Handle(s: State, e: Event): (State, bool) {
    match e
    case GenerateCsr(_, generated, sendOk) => (s, generated && sendOk)
    case Certificates(_, msgs, overwrite, sendOk) => var (s', ok) := DoUpload(s, msgs, overwrite); (s', ok && sendOk)
    case _ => (s, false)
  }

  predicate KnownRequest(bound: bool, e: Event) {
    match e
    case GenerateCsr(profile, _, _) => Known(bound, profile)
    case Certificates(profile, _, _, _) => Known(bound, profile)
    case _ => true
  }

  /** The rest of a stream; `bound` says whether its profile has been named, and the faults are
      those met when the links are pointed back. */
  function Serve(s: State, bound: bool, events: seq<Event>, pair: PairFault, ca: CaFault): (State, Ending)
    decreases |events|
  {
    if events == [] then (RevertProfile(s, pair, ca), Reverted)
    else if events[0] == Finalize then
      if bound then (FinalizeProfile(s), Finalized) else (s, NothingToFinalize)
    else if !KnownRequest(bound, events[0]) then (s, Reverted)
    else
      var (s', ok) := Handle(s, events[0]);
      if ok then Serve(s', true, events[1..], pair, ca) else (RevertProfile(s', pair, ca), Reverted)
  }

  function RotateState(s: State, events: seq<Event>, pair: PairFault, ca: CaFault): (State, Ending) {
    Serve(s, false, events, pair, ca)
  }
}
