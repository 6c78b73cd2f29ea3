/** The certificate server: the steps of a rotation stream on its fields, each proved to be the
    step of the state machine. */
module CertzServer {
  import opened Options
  import opened FilePath
  import opened CrlFiles
  import opened CertzState

  /** Empties a directory and copies another one into it, file by file in any order. */
  method CopyDir(disk: Disk, from: Place, to: Place) returns (d: Disk)
    ensures d == Copy(disk, from, to)
  {
    var names := NamesIn(disk, from);
    d := Outside(disk, to);
    var todo := names;
    assert d == Outside(disk, to) + Moved(disk, {}, from, to);
    while todo != {}
      invariant todo <= names
      invariant d == Outside(disk, to) + Moved(disk, names - todo, from, to)
    {
      var n :| n in todo;
      NamesInIff(disk, from, n);
      MovedMore(disk, names - todo, n, from, to);
      OverLast(Outside(disk, to), Moved(disk, names - todo, from, to), to + [n], disk[from + [n]]);
      assert names - (todo - {n}) == (names - todo) + {n};
      d := d[to + [n] := disk[from + [n]]];
      todo := todo - {n};
    }
    assert names - todo == names;
  }

  class Server {
    var certSlot: Slot
    var bundleSlot: Slot
    var crlSlot: Slot
    var authSlot: Slot
    var srvCert: Option<File>
    var srvKey: Option<File>
    var caCert: Option<File>
    const crlBase: Place
    var crlDisk: Disk
    var authFile: Option<string>
    var authBackup: Option<string>
    var files: set<File>
    var clock: nat
    var saved: Option<Saved>

    ghost function Cert(): CertPart reads this { CertPart(certSlot, srvCert, srvKey) }
    ghost function Bundle(): BundlePart reads this { BundlePart(bundleSlot, caCert) }
    ghost function Crls(): CrlPart reads this { CrlPart(crlSlot, crlBase, crlDisk) }
    ghost function Auth(): AuthPart reads this { AuthPart(authSlot, authFile, authBackup) }

    ghost function View(): State
      reads this
    {
      State(Cert(), Bundle(), Crls(), Auth(), files, clock, saved)
    }

    constructor (s: State)
      ensures View() == s
    {
      certSlot, srvCert, srvKey := s.cert.slot, s.cert.srvCert, s.cert.srvKey;
      bundleSlot, caCert := s.bundle.slot, s.bundle.caCert;
      crlSlot, crlBase, crlDisk := s.crl.slot, s.crl.base, s.crl.disk;
      authSlot, authFile, authBackup := s.auth.slot, s.auth.file, s.auth.backup;
      files, clock, saved := s.files, s.clock, s.saved;
    }

    /** Replaces both links one step after the other; a failing step puts back what it can. */
    method AtomicSetSrvCertKeyPair(cert: File, key: File, fault: PairFault) returns (ok: bool)
      modifies this`srvCert, this`srvKey
      ensures (Cert(), ok) == SetPair(old(Cert()), files, cert, key, fault)
    {
      var oldCert := srvCert;
      if srvCert.Some? {
        if fault == RmCertFails {
          return false;
        }
        srvCert := None;
      }
      var oldKey := srvKey;
      if srvKey.Some? {
        if fault == RmKeyFails {
          srvCert := RestoreLink(oldCert, srvCert, files);
          return false;
        }
        srvKey := None;
      }
      if fault == LinkCertFails {
        srvCert := RestoreLink(oldCert, srvCert, files);
        srvKey := RestoreLink(oldKey, srvKey, files);
        return false;
      }
      srvCert := Some(cert);
      if fault == LinkKeyFails {
        srvCert := RestoreLink(oldCert, srvCert, files);
        srvKey := RestoreLink(oldKey, srvKey, files);
        return false;
      }
      srvKey := Some(key);
      ok := true;
    }

    method AtomicSetCaCert(ca: File, fault: CaFault) returns (ok: bool)
      modifies this`caCert
      ensures (Bundle(), ok) == SetCa(old(Bundle()), files, ca, fault)
    {
      var oldCa := caCert;
      if caCert.Some? {
        if fault == RmCaFails {
          return false;
        }
        caCert := None;
      }
      if fault == LinkCaFails {
        caCert := RestoreLink(oldCa, caCert, files);
        return false;
      }
      caCert := Some(ca);
      ok := true;
    }

    /** Writes the lists one by one, after checking them the first time. */
    method WriteLists(crls: seq<Crl>, again: bool) returns (ok: bool)
      modifies this`crlDisk
      ensures (crlDisk, ok) == WritePass(crlBase, old(crlDisk), crls, again)
    {
      var i := 0;
      while i < |crls|
        invariant 0 <= i <= |crls|
        invariant WritePass(crlBase, crlDisk, crls[i..], again) == WritePass(crlBase, old(crlDisk), crls, again)
      {
        assert crls[i..][1..] == crls[i + 1..];
        var c := crls[i];
        if !Passes(crlBase, c, again) {
          if !c.check.Invalid? {
            crlDisk := crlDisk - {PlaceOf(crlBase, c)};
          }
          return false;
        }
        crlDisk := crlDisk[PlaceOf(crlBase, c) := c.body];
        i := i + 1;
      }
      ok := true;
    }

    /** Checks and writes the lists; when all are good, empties the live directory and writes
        them again. */
    method RotateCrlBundle(crls: seq<Crl>) returns (ok: bool)
      modifies this`crlDisk
      ensures (crlDisk, ok) == RotateCrl(crlBase, old(crlDisk), crls)
    {
      if |crls| == 0 {
        return false;
      }
      ok := WriteLists(crls, false);
      if !ok {
        return;
      }
      crlDisk := Outside(crlDisk, LiveDir(crlBase));
      ok := WriteLists(crls, true);
    }

    method UploadCertMsg(m: Msg, n: nat) returns (ok: bool)
      requires m.body.CertBody?
      modifies this`files, this`srvCert, this`srvKey, this`certSlot
      ensures files == SaveCert(old(files), m.body.save, n)
      ensures (Cert(), ok) == UploadCert(old(Cert()), old(files), m, n)
    {
      match m.body.save {
        case CertInvalid => return false;
        case KeyWriteFails => return false;
        case CertWriteFails =>
          files := files + {KeyFile(n)};
          return false;
        case CertSaved =>
          files := files + {KeyFile(n), CertFile(n)};
      }
      ok := AtomicSetSrvCertKeyPair(CertFile(n), KeyFile(n), m.body.link);
      if ok {
        certSlot := Activate(certSlot, CertEntity(m, n));
      }
    }

    method UploadBundleMsg(m: Msg, n: nat) returns (ok: bool)
      requires m.body.BundleBody?
      modifies this`files, this`caCert, this`bundleSlot
      ensures files == if m.body.bundleSaved then old(files) + {BundleFile(n)} else old(files)
      ensures (Bundle(), ok) == UploadBundle(old(Bundle()), old(files), m, n)
    {
      if !m.body.bundleSaved {
        return false;
      }
      files := files + {BundleFile(n)};
      ok := AtomicSetCaCert(BundleFile(n), m.body.caLink);
      if ok {
        bundleSlot := Activate(bundleSlot, BundleEntity(m, n));
      }
    }

    method UploadAuthMsg(m: Msg) returns (ok: bool)
      requires m.body.AuthBody?
      modifies this`authFile, this`authBackup, this`authSlot
      ensures (Auth(), ok) == UploadAuth(old(Auth()), m)
    {
      if authBackup.None? {
        if authFile.None? {
          return false;
        }
        authFile, authBackup := None, authFile;
      }
      if !m.body.policyWritten {
        authFile, authBackup := authBackup, None;
        return false;
      }
      authFile := Some(m.body.policy);
      authSlot := Activate(authSlot, AuthEntity(m));
      ok := true;
    }

    method UploadCrlMsg(m: Msg) returns (ok: bool)
      requires m.body.CrlBody?
      modifies this`crlDisk, this`crlSlot
      ensures (Crls(), ok) == UploadCrl(old(Crls()), m)
    {
      ok := RotateCrlBundle(m.body.crls);
      if ok {
        crlSlot := Activate(crlSlot, CrlEntity(m));
      }
    }

    /** The checks made before anything is saved. */
    method CheckMsg(m: Msg, overwrite: bool) returns (ok: bool)
      ensures ok <==> Considers(View(), m, overwrite)
    {
      if m.createdOn == 0 || m.version == "" || m.body == NoBody || (m.body.CrlBody? && !m.body.configured) {
        return false;
      }
      var active := match m.body
        case CertBody(_, _) => certSlot.active.version
        case BundleBody(_, _) => bundleSlot.active.version
        case CrlBody(_, _) => crlSlot.active.version
        case AuthBody(_, _) => authSlot.active.version;
      ok := overwrite || m.version != active;
    }

    method SaveFiles(m: Msg) returns (ok: bool)
      requires m.body.CertBody? || m.body.BundleBody?
      modifies this`clock, this`files, this`srvCert, this`srvKey, this`certSlot, this`caCert, this`bundleSlot
      ensures (View(), ok) == SaveOne(old(View()), m)
    {
      var n := clock;
      clock := clock + 1;
      if m.body.CertBody? { ok := UploadCertMsg(m, n); } else { ok := UploadBundleMsg(m, n); }
    }

    method SaveRest(m: Msg) returns (ok: bool)
      requires m.body.CrlBody? || m.body.AuthBody?
      modifies this`clock, this`crlDisk, this`crlSlot, this`authFile, this`authBackup, this`authSlot
      ensures (View(), ok) == SaveOne(old(View()), m)
    {
      clock := clock + 1;
      if m.body.CrlBody? { ok := UploadCrlMsg(m); } else { ok := UploadAuthMsg(m); }
    }

    method UploadMsg(m: Msg, overwrite: bool) returns (ok: bool)
      modifies this
      ensures (View(), ok) == UploadOne(old(View()), m, overwrite)
    {
      ok := CheckMsg(m, overwrite);
      if ok && (m.body.CertBody? || m.body.BundleBody?) {
        ok := SaveFiles(m);
      } else if ok {
        ok := SaveRest(m);
      }
    }

    method Upload(msgs: seq<Msg>, overwrite: bool) returns (ok: bool)
      modifies this
      ensures (View(), ok) == DoUpload(old(View()), msgs, overwrite)
    {
      if |msgs| == 0 {
        return false;
      }
      var i := 0;
      while i < |msgs|
        invariant 0 <= i <= |msgs|
        invariant UploadMsgs(View(), msgs[i..], overwrite) == UploadMsgs(old(View()), msgs, overwrite)
      {
        assert msgs[i..][1..] == msgs[i + 1..];
        ok := UploadMsg(msgs[i], overwrite);
        if !ok {
          return;
        }
        i := i + 1;
      }
      ok := true;
    }

    method RevertCerts(pair: PairFault)
      modifies this`srvCert, this`srvKey, this`files, this`certSlot
      ensures Cert() == RevertCert(old(Cert()), old(files), pair)
      ensures files == if old(certSlot.active.final) then old(files) else old(files) - PairFiles(old(certSlot.active))
    {
      if !certSlot.active.final {
        var _ := AtomicSetSrvCertKeyPair(certSlot.last.certPath, certSlot.last.keyPath, pair);
        files := files - PairFiles(certSlot.active);
        certSlot := RevertSlot(certSlot);
      }
    }

    method RevertBundles(ca: CaFault)
      modifies this`caCert, this`files, this`bundleSlot
      ensures Bundle() == RevertBundle(old(Bundle()), old(files), ca)
      ensures files == if old(bundleSlot.active.final) then old(files) else old(files) - BundleFiles(old(bundleSlot.active))
    {
      if !bundleSlot.active.final {
        var _ := AtomicSetCaCert(bundleSlot.last.certPath, ca);
        files := files - BundleFiles(bundleSlot.active);
        bundleSlot := RevertSlot(bundleSlot);
      }
    }

    method RevertCrls()
      modifies this`crlDisk, this`crlSlot
      ensures Crls() == RevertCrl(old(Crls()))
    {
      if !crlSlot.active.final {
        crlDisk := CopyDir(crlDisk, FlushDir(crlBase), LiveDir(crlBase));
        crlSlot := RevertSlot(crlSlot);
      }
    }

    method RevertPolicies()
      modifies this`authFile, this`authBackup, this`authSlot
      ensures Auth() == RevertAuth(old(Auth()))
    {
      if !authSlot.active.final {
        if authBackup.Some? {
          authFile, authBackup := authBackup, None;
        }
        authSlot := RevertSlot(authSlot);
      }
    }

    method RevertFiles(pair: PairFault, ca: CaFault)
      modifies this`srvCert, this`srvKey, this`caCert, this`files, this`certSlot, this`bundleSlot
      ensures Cert() == RevertCert(old(Cert()), old(files), pair)
      ensures var files1 := if old(certSlot.active.final) then old(files) else old(files) - PairFiles(old(certSlot.active));
              && Bundle() == RevertBundle(old(Bundle()), files1, ca)
              && files == if old(bundleSlot.active.final) then files1 else files1 - BundleFiles(old(bundleSlot.active))
    {
      RevertCerts(pair);
      RevertBundles(ca);
    }

    method Revert(pair: PairFault, ca: CaFault)
      modifies this
      ensures View() == RevertProfile(old(View()), pair, ca)
    {
      RevertFiles(pair, ca);
      RevertCrls();
      RevertPolicies();
    }

    method FinalizeFiles()
      modifies this`files, this`certSlot, this`bundleSlot
      ensures var files1 := if old(certSlot.active.final) then old(files) else old(files) - PairFiles(old(certSlot.last));
              files == if old(bundleSlot.active.final) then files1 else files1 - BundleFiles(old(bundleSlot.last))
      ensures certSlot == FinalizeSlot(old(certSlot)) && bundleSlot == FinalizeSlot(old(bundleSlot))
    {
      if !certSlot.active.final {
        files := files - PairFiles(certSlot.last);
      }
      certSlot := FinalizeSlot(certSlot);
      if !bundleSlot.active.final {
        files := files - BundleFiles(bundleSlot.last);
      }
      bundleSlot := FinalizeSlot(bundleSlot);
    }

    method FinalizeCrls()
      modifies this`crlDisk, this`crlSlot
      ensures Crls() == FinalizeCrl(old(Crls()))
    {
      if !crlSlot.active.final {
        crlDisk := CopyDir(crlDisk, LiveDir(crlBase), FlushDir(crlBase));
        crlSlot := FinalizeSlot(crlSlot);
      }
    }

    method FinalizePolicies()
      modifies this`authBackup, this`authSlot
      ensures Auth() == FinalizeAuth(old(Auth()))
    {
      if !authSlot.active.final {
        authBackup := None;
      }
      authSlot := FinalizeSlot(authSlot);
    }

    method FinalizeAll()
      modifies this
      ensures View() == FinalizeProfile(old(View()))
    {
      FinalizeFiles();
      FinalizeCrls();
      FinalizePolicies();
      saved := Some(Saved(certSlot.active, bundleSlot.active, crlSlot.active, authSlot.active));
    }

    method HandleRequest(e: Event) returns (ok: bool)
      modifies this
      ensures (View(), ok) == Handle(old(View()), e)
    {
      match e {
        case GenerateCsr(_, generated, sendOk) =>
          ok := generated && sendOk;
        case Certificates(_, msgs, overwrite, sendOk) =>
          ok := Upload(msgs, overwrite);
          ok := ok && sendOk;
        case _ =>
          ok := false;
      }
    }

    /** Runs one stream; running out of events is the end of the stream. */
    method Rotate(events: seq<Event>, pair: PairFault, ca: CaFault) returns (ending: Ending)
      modifies this
      ensures (View(), ending) == RotateState(old(View()), events, pair, ca)
    {
      var bound := false;
      var i := 0;
      while i < |events|
        invariant 0 <= i <= |events|
        invariant Serve(View(), bound, events[i..], pair, ca) == RotateState(old(View()), events, pair, ca)
      {
        assert events[i..][1..] == events[i + 1..];
        var e := events[i];
        if e.Finalize? {
          if !bound {
            return NothingToFinalize;
          }
          FinalizeAll();
          return Finalized;
        }
        if !KnownRequest(bound, e) {
          return Reverted;
        }
        var ok := HandleRequest(e);
        if !ok {
          Revert(pair, ca);
          return Reverted;
        }
        bound := true;
        i := i + 1;
      }
      Revert(pair, ca);
      return Reverted;
    }
  }
}
