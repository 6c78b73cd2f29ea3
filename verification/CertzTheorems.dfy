/** What every run of certificate rotation streams keeps. */
module CertzTheorems {
  import opened Options
  import opened CertzState

  // ---------- Entities and rows ----------

  /** One kind during a stream: untouched, or replaced with the final entity of the start kept;
      the row is always that of the active entity. */
  predicate Tracks(s: Slot, start: Slot) {
    && start.active.final && start.row == RowOf(start.active) && s.row == RowOf(s.active)
    && (if s.active.final then s.active == start.active else s.last == start.active)
  }

  predicate TracksAll(s: State, start: State) {
    && Tracks(s.cert.slot, start.cert.slot) && Tracks(s.bundle.slot, start.bundle.slot)
    && Tracks(s.crl.slot, start.crl.slot) && Tracks(s.auth.slot, start.auth.slot)
  }

  /** Nothing of this kind is pending and the row is up to date. */
  predicate Settled(s: Slot) { s.active.final && s.row == RowOf(s.active) }

  predicate AllSettled(s: State) {
    Settled(s.cert.slot) && Settled(s.bundle.slot) && Settled(s.crl.slot) && Settled(s.auth.slot)
  }

  predicate SameActive(s: State, t: State) {
    && s.cert.slot.active == t.cert.slot.active && s.bundle.slot.active == t.bundle.slot.active
    && s.crl.slot.active == t.crl.slot.active && s.auth.slot.active == t.auth.slot.active
  }

  predicate SameRows(s: State, t: State) {
    s.cert.slot.row == t.cert.slot.row && s.bundle.slot.row == t.bundle.slot.row
    && s.crl.slot.row == t.crl.slot.row && s.auth.slot.row == t.auth.slot.row
  }

  lemma UploadOneTracks(s: State, m: Msg, overwrite: bool, start: State)
    requires TracksAll(s, start)
    ensures TracksAll(UploadOne(s, m, overwrite).0, start) && UploadOne(s, m, overwrite).0.saved == s.saved
  {
  }

  lemma {:induction false} UploadMsgsTracks(s: State, msgs: seq<Msg>, overwrite: bool, start: State)
    requires TracksAll(s, start)
    ensures TracksAll(UploadMsgs(s, msgs, overwrite).0, start) && UploadMsgs(s, msgs, overwrite).0.saved == s.saved
    decreases |msgs|
  {
    if msgs != [] {
      UploadOneTracks(s, msgs[0], overwrite, start);
      var (s', ok) := UploadOne(s, msgs[0], overwrite);
      if ok { UploadMsgsTracks(s', msgs[1..], overwrite, start); }
    }
  }

  lemma HandleTracks(s: State, e: Event, start: State)
    requires TracksAll(s, start)
    ensures TracksAll(Handle(s, e).0, start) && Handle(s, e).0.saved == s.saved
  {
    if e.Certificates? { UploadMsgsTracks(s, e.msgs, e.overwrite, start); }
  }

  lemma RevertRestores(s: State, start: State, pair: PairFault, ca: CaFault)
    requires TracksAll(s, start)
    ensures var t := RevertProfile(s, pair, ca);
            AllSettled(t) && SameActive(t, start) && SameRows(t, start) && t.saved == s.saved
  {
  }

  /** The rest of a stream restores the four active entities and their rows unless it is
      finalized, and leaves nothing pending. */
  lemma {:induction false} ServeEntities(s: State, bound: bool, events: seq<Event>, pair: PairFault, ca: CaFault, start: State)
    requires TracksAll(s, start) && (!bound ==> SameActive(s, start))
    ensures var (t, ending) := Serve(s, bound, events, pair, ca);
            && AllSettled(t)
            && (ending != Finalized ==> SameActive(t, start) && SameRows(t, start) && t.saved == s.saved)
    decreases |events|
  {
    if events == [] {
      RevertRestores(s, start, pair, ca);
    } else if events[0] != Finalize && KnownRequest(bound, events[0]) {
      HandleTracks(s, events[0], start);
      var (s', ok) := Handle(s, events[0]);
      if ok { ServeEntities(s', true, events[1..], pair, ca, start); } else { RevertRestores(s', start, pair, ca); }
    }
  }

  // ---------- Links and files ----------

  predicate Older(f: File, clock: nat) { f.Configured? || f.serial < clock }

  /** The files the server may still need: those of the active entity and, while it is
      pending, those of the last one. */
  function PairNeeds(s: Slot): set<File> { PairFiles(s.active) + if s.active.final then {} else PairFiles(s.last) }
  function BundleNeeds(s: Slot): set<File> { BundleFiles(s.active) + if s.active.final then {} else BundleFiles(s.last) }

  /** A link has a target, which is the active file or one the server does not manage. */
  predicate LinkOk(link: Option<File>, own: File, files: set<File>, needs: set<File>) {
    link.Some? ==> link.value in files && (link.value == own || link.value !in needs)
  }

  predicate CertOk(p: CertPart, files: set<File>, needs: set<File>) {
    && LinkOk(p.srvCert, p.slot.active.certPath, files, needs)
    && LinkOk(p.srvKey, p.slot.active.keyPath, files, needs)
    && (!p.slot.active.final ==>
          && p.slot.last.final && PairFiles(p.slot.active) !! PairFiles(p.slot.last)
          && p.srvCert == Some(p.slot.active.certPath) && p.srvKey == Some(p.slot.active.keyPath))
  }

  predicate BundleOk(p: BundlePart, files: set<File>, needs: set<File>) {
    && LinkOk(p.caCert, p.slot.active.certPath, files, needs)
    && (!p.slot.active.final ==>
          && p.slot.last.final && BundleFiles(p.slot.active) !! BundleFiles(p.slot.last)
          && p.caCert == Some(p.slot.active.certPath))
  }

  /** Everything needed exists, the two kinds do not share files, and the links are in order. */
  predicate Live(s: State) {
    var needs := PairNeeds(s.cert.slot) + BundleNeeds(s.bundle.slot);
    && needs <= s.files && PairNeeds(s.cert.slot) !! BundleNeeds(s.bundle.slot)
    && CertOk(s.cert, s.files, needs) && BundleOk(s.bundle, s.files, needs)
    && forall f :: f in s.files ==> Older(f, s.clock)
  }

  /** No link dangles. */
  predicate NoDangling(s: State) {
    Intact(s.cert.srvCert, s.files) && Intact(s.cert.srvKey, s.files) && Intact(s.bundle.caCert, s.files)
  }

  /** When a failed replacement leaves both links as they were. */
  lemma FailedPairRestores(p: CertPart, files: set<File>, cert: File, key: File, fault: PairFault)
    requires !SetPair(p, files, cert, key, fault).1
    ensures SetPair(p, files, cert, key, fault).0 == p <==>
            match fault
            case RmCertFails => true
            case RmKeyFails => Intact(p.srvCert, files)
            case LinkCertFails => Intact(p.srvCert, files) && Intact(p.srvKey, files)
            case LinkKeyFails =>
              && p.srvCert.Some? && (p.srvCert.value in files || p.srvCert.value == cert)
              && Intact(p.srvKey, files)
            case NoFault => false
  {
  }

  /** The same for the link of a trust bundle; a link that is not put back is gone. */
  lemma FailedCaRestores(p: BundlePart, files: set<File>, ca: File, fault: CaFault)
    requires !SetCa(p, files, ca, fault).1
    ensures SetCa(p, files, ca, fault).0 == p <==> fault == RmCaFails || Intact(p.caCert, files)
    ensures SetCa(p, files, ca, fault).0 != p ==> SetCa(p, files, ca, fault).0 == BundlePart(p.slot, None)
  {
  }

  lemma UploadCertLive(s: State, m: Msg)
    requires Live(s) && m.body.CertBody?
    ensures var n := s.clock;
            Live(s.(clock := n + 1, cert := UploadCert(s.cert, s.files, m, n).0, files := SaveCert(s.files, m.body.save, n)))
  {
    var n := s.clock;
    assert CertFile(n) !in s.files && KeyFile(n) !in s.files;
    var files := SaveCert(s.files, m.body.save, n);
    forall f | f in files ensures Older(f, n + 1) { }
    var p := UploadCert(s.cert, s.files, m, n).0;
    var needs := PairNeeds(s.cert.slot) + BundleNeeds(s.bundle.slot);
    var needs' := PairNeeds(p.slot) + BundleNeeds(s.bundle.slot);
    assert needs' <= needs + {CertFile(n), KeyFile(n)};
  }

  lemma UploadBundleLive(s: State, m: Msg)
    requires Live(s) && m.body.BundleBody?
    ensures var n := s.clock;
            Live(s.(clock := n + 1, bundle := UploadBundle(s.bundle, s.files, m, n).0,
                    files := if m.body.bundleSaved then s.files + {BundleFile(n)} else s.files))
  {
    var n := s.clock;
    assert BundleFile(n) !in s.files;
    var p := UploadBundle(s.bundle, s.files, m, n).0;
    var needs := PairNeeds(s.cert.slot) + BundleNeeds(s.bundle.slot);
    var needs' := PairNeeds(s.cert.slot) + BundleNeeds(p.slot);
    assert needs' <= needs + {BundleFile(n)};
  }

  lemma UploadOneLive(s: State, m: Msg, overwrite: bool)
    requires Live(s)
    ensures Live(UploadOne(s, m, overwrite).0)
  {
    if Considers(s, m, overwrite) {
      match m.body
      case CertBody(_, _) => UploadCertLive(s, m);
      case BundleBody(_, _) => UploadBundleLive(s, m);
      case CrlBody(_, _) =>
      case AuthBody(_, _) =>
    }
  }

  lemma {:induction false} UploadMsgsLive(s: State, msgs: seq<Msg>, overwrite: bool)
    requires Live(s)
    ensures Live(UploadMsgs(s, msgs, overwrite).0)
    decreases |msgs|
  {
    if msgs != [] {
      UploadOneLive(s, msgs[0], overwrite);
      var (s', ok) := UploadOne(s, msgs[0], overwrite);
      if ok { UploadMsgsLive(s', msgs[1..], overwrite); }
    }
  }

  lemma RevertLive(s: State)
    requires Live(s)
    ensures Live(RevertProfile(s, NoFault, NoCaFault))
  {
  }

  lemma FinalizeLive(s: State)
    requires Live(s)
    ensures Live(FinalizeProfile(s))
  {
  }

  /** If the links cannot be pointed back when a pending certificate is given up, its files are
      removed under them: no link dangles afterwards exactly when nothing was pending or the
      links were replaced. */
  lemma RevertDanglesIffFault(s: State, pair: PairFault, ca: CaFault)
    requires Live(s)
    ensures NoDangling(RevertProfile(s, pair, ca)) <==>
            && (s.cert.slot.active.final || pair == NoFault)
            && (s.bundle.slot.active.final || ca == NoCaFault)
  {
  }

  /** Removing the files of a pending certificate takes none that a link leads to at that point:
      its own links lead to the last entity again, and the other link never led there. */
  lemma RevertRemovesNoLiveFile(s: State)
    requires Live(s) && !s.cert.slot.active.final
    ensures var q := RevertCert(s.cert, s.files, NoFault);
            && q.srvCert == Some(s.cert.slot.last.certPath) && q.srvKey == Some(s.cert.slot.last.keyPath)
            && forall link :: link in {q.srvCert, q.srvKey, s.bundle.caCert} && link.Some? ==> link.value !in PairFiles(s.cert.slot.active)
  {
  }

  /** The same for a pending trust bundle, whose turn comes when the certificate has been given up. */
  lemma RevertRemovesNoLiveBundle(s: State)
    requires Live(s) && !s.bundle.slot.active.final
    ensures var p := RevertCert(s.cert, s.files, NoFault);
            var q := RevertBundle(s.bundle, if s.cert.slot.active.final then s.files else s.files - PairFiles(s.cert.slot.active), NoCaFault);
            && q.caCert == Some(s.bundle.slot.last.certPath)
            && forall link :: link in {p.srvCert, p.srvKey, q.caCert} && link.Some? ==> link.value !in BundleFiles(s.bundle.slot.active)
  {
  }

  /** Finalizing removes only files that no link leads to. */
  lemma FinalizeRemovesNoLiveFile(s: State)
    requires Live(s)
    ensures var gone := (if s.cert.slot.active.final then {} else PairFiles(s.cert.slot.last)) +
                        (if s.bundle.slot.active.final then {} else BundleFiles(s.bundle.slot.last));
            && FinalizeProfile(s).files == s.files - gone
            && forall link :: link in {s.cert.srvCert, s.cert.srvKey, s.bundle.caCert} && link.Some? ==> link.value !in gone
  {
  }

  lemma HandleLive(s: State, e: Event)
    requires Live(s)
    ensures Live(Handle(s, e).0)
  {
    if e.Certificates? { UploadMsgsLive(s, e.msgs, e.overwrite); }
  }

  /** A stream keeps every link on an existing file, as long as the links can be pointed back. */
  lemma {:induction false} ServeLive(s: State, bound: bool, events: seq<Event>)
    requires Live(s)
    ensures Live(Serve(s, bound, events, NoFault, NoCaFault).0)
    decreases |events|
  {
    if events == [] {
      RevertLive(s);
    } else if events[0] == Finalize {
      FinalizeLive(s);
    } else if KnownRequest(bound, events[0]) {
      HandleLive(s, events[0]);
      var (s', ok) := Handle(s, events[0]);
      if ok { ServeLive(s', true, events[1..]); } else { RevertLive(s'); }
    }
  }

  // ---------- The files a stream leaves ----------

  /** What a stream has uploaded: every file saved, and the time of the last certificate and of the
      last trust bundle that became active. */
  datatype Uploads = Uploads(saved: set<File>, cert: Option<nat>, bundle: Option<nat>)

  const NO_UPLOADS := Uploads({}, None, None)

  function Noted(s: State, m: Msg, overwrite: bool, u: Uploads): Uploads {
    var n, ok := s.clock, UploadOne(s, m, overwrite).1;
    if !Considers(s, m, overwrite) then u
    else match m.body
      case CertBody(save, _) => u.(saved := SaveCert(u.saved, save, n), cert := if ok then Some(n) else u.cert)
      case BundleBody(saved, _) =>
        u.(saved := if saved then u.saved + {BundleFile(n)} else u.saved, bundle := if ok then Some(n) else u.bundle)
      case _ => u
  }

  function UploadsOfMsgs(s: State, msgs: seq<Msg>, overwrite: bool, u: Uploads): Uploads
    decreases |msgs|
  {
    if msgs == [] then u
    else
      var u' := Noted(s, msgs[0], overwrite, u);
      var (s', ok) := UploadOne(s, msgs[0], overwrite);
      if ok then UploadsOfMsgs(s', msgs[1..], overwrite, u') else u'
  }

  function UploadsOf(s: State, bound: bool, events: seq<Event>, u: Uploads): Uploads
    decreases |events|
  {
    if events == [] || events[0] == Finalize || !KnownRequest(bound, events[0]) then u
    else
      var u' := if events[0].Certificates? then UploadsOfMsgs(s, events[0].msgs, events[0].overwrite, u) else u;
      var (s', ok) := Handle(s, events[0]);
      if ok then UploadsOf(s', true, events[1..], u') else u'
  }

  function PairOf(n: Option<nat>): set<File> { if n.Some? then {CertFile(n.value), KeyFile(n.value)} else {} }
  function BundleOf(n: Option<nat>): set<File> { if n.Some? then {BundleFile(n.value)} else {} }

  /** While a stream is served nothing is removed. */
  predicate Saving(s: State, start: State, u: Uploads) {
    && s.files == start.files + u.saved
    && (u.cert.None? <==> s.cert.slot.active.final) && (u.bundle.None? <==> s.bundle.slot.active.final)
    && (u.cert.Some? ==> PairFiles(s.cert.slot.active) == PairOf(u.cert) && s.cert.slot.last == start.cert.slot.active)
    && (u.bundle.Some? ==> BundleFiles(s.bundle.slot.active) == BundleOf(u.bundle) && s.bundle.slot.last == start.bundle.slot.active)
    && (u.cert.None? ==> s.cert.slot.active == start.cert.slot.active)
    && (u.bundle.None? ==> s.bundle.slot.active == start.bundle.slot.active)
  }

  lemma CertSaves(s: State, m: Msg, start: State, u: Uploads)
    requires Saving(s, start, u) && m.body.CertBody? && Considers(s, m, true)
    ensures Saving(SaveOne(s, m).0, start, Noted(s, m, true, u))
  {
    assert SaveCert(start.files + u.saved, m.body.save, s.clock) == start.files + SaveCert(u.saved, m.body.save, s.clock);
  }

  lemma UploadOneSaves(s: State, m: Msg, overwrite: bool, start: State, u: Uploads)
    requires Saving(s, start, u)
    ensures Saving(UploadOne(s, m, overwrite).0, start, Noted(s, m, overwrite, u))
  {
    if Considers(s, m, overwrite) && m.body.CertBody? { CertSaves(s, m, start, u); }
  }

  lemma {:induction false} UploadMsgsSaves(s: State, msgs: seq<Msg>, overwrite: bool, start: State, u: Uploads)
    requires Saving(s, start, u)
    ensures Saving(UploadMsgs(s, msgs, overwrite).0, start, UploadsOfMsgs(s, msgs, overwrite, u))
    decreases |msgs|
  {
    if msgs != [] {
      UploadOneSaves(s, msgs[0], overwrite, start, u);
      var (s', ok) := UploadOne(s, msgs[0], overwrite);
      if ok { UploadMsgsSaves(s', msgs[1..], overwrite, start, Noted(s, msgs[0], overwrite, u)); }
    }
  }

  /** The files that the end of a stream removes: with Finalize those that were replaced, without
      it those that were active last. */
  function Gone(start: State, u: Uploads, ending: Ending): set<File> {
    if ending == Finalized
    then (if u.cert.Some? then PairFiles(start.cert.slot.active) else {}) + (if u.bundle.Some? then BundleFiles(start.bundle.slot.active) else {})
    else PairOf(u.cert) + BundleOf(u.bundle)
  }

  lemma EndFiles(s: State, pair: PairFault, ca: CaFault, start: State, u: Uploads)
    requires Saving(s, start, u)
    ensures RevertProfile(s, pair, ca).files == (start.files + u.saved) - Gone(start, u, Reverted)
    ensures FinalizeProfile(s).files == (start.files + u.saved) - Gone(start, u, Finalized)
  {
  }

  /** Exactly the files a stream leaves: those of the start and all it saved, less those its end
      removes. The files of an upload that a later one of the same stream superseded stay. */
  lemma {:induction false} ServeFiles(s: State, bound: bool, events: seq<Event>, pair: PairFault, ca: CaFault, start: State, u: Uploads)
    requires Saving(s, start, u) && (!bound ==> u.cert.None? && u.bundle.None?)
    ensures var (t, ending) := Serve(s, bound, events, pair, ca);
            var u' := UploadsOf(s, bound, events, u);
            t.files == (start.files + u'.saved) - Gone(start, u', ending)
    decreases |events|
  {
    if events == [] || events[0] == Finalize {
      EndFiles(s, pair, ca, start, u);
    } else if KnownRequest(bound, events[0]) {
      var e := events[0];
      var (s', ok) := Handle(s, e);
      var u' := if e.Certificates? then UploadsOfMsgs(s, e.msgs, e.overwrite, u) else u;
      if e.Certificates? { UploadMsgsSaves(s, e.msgs, e.overwrite, start, u); }
      if ok { ServeFiles(s', true, events[1..], pair, ca, start, u'); } else { EndFiles(s', pair, ca, start, u'); }
    }
  }

  predicate GoodCert(s: State, m: Msg) { m.body == CertBody(CertSaved, NoFault) && Considers(s, m, false) }

  lemma TwoCerts(s: State, m: Msg, m': Msg)
    requires GoodCert(s, m) && GoodCert(s, m') && m.version != m'.version
    ensures UploadMsgs(s, [m, m'], false).1
    ensures UploadsOfMsgs(s, [m, m'], false, NO_UPLOADS) == Uploads(PairOf(Some(s.clock)) + PairOf(Some(s.clock + 1)), Some(s.clock + 1), None)
  {
    var s1 := UploadOne(s, m, false).0;
    assert [m, m'][1..] == [m'];
    assert UploadMsgs(s1, [m'], false).1;
    var u := Uploads(PairOf(Some(s.clock)), Some(s.clock), None);
    assert Noted(s, m, false, NO_UPLOADS) == u;
    assert Noted(s1, m', false, u) == Uploads(PairOf(Some(s.clock)) + PairOf(Some(s.clock + 1)), Some(s.clock + 1), None);
    assert UploadsOfMsgs(s1, [m'], false, u) == Noted(s1, m', false, u);
  }

  /** Two certificates in one stream: the first pair stays on the disk for good, however the
      stream ends. */
  lemma SupersededStays(s: State, m: Msg, m': Msg, pair: PairFault, ca: CaFault, finalize: bool)
    requires Live(s) && s.cert.slot.active.final && s.bundle.slot.active.final
    requires GoodCert(s, m) && GoodCert(s, m') && m.version != m'.version
    ensures var events := [Certificates("", [m, m'], false, true)] + if finalize then [Finalize] else [];
            var (t, ending) := RotateState(s, events, pair, ca);
            && ending == (if finalize then Finalized else Reverted)
            && PairOf(Some(s.clock)) <= t.files
  {
    var e, rest := Certificates("", [m, m'], false, true), if finalize then [Finalize] else [];
    var events := [e] + rest;
    assert events[0] == e && events[1..] == rest;
    TwoCerts(s, m, m');
    ServeFiles(s, false, events, pair, ca, s, NO_UPLOADS);
    assert PairFiles(s.cert.slot.active) <= s.files && PairOf(Some(s.clock)) !! s.files;
  }

  // ---------- The authentication policy ----------

  lemma EndParts(s: State, pair: PairFault, ca: CaFault)
    ensures RevertProfile(s, pair, ca).auth == RevertAuth(s.auth) && RevertProfile(s, pair, ca).crl == RevertCrl(s.crl)
    ensures FinalizeProfile(s).crl == FinalizeCrl(s.crl)
  {
  }

  /** The last policy accepted among these messages. */
  function PolicyOfMsgs(s: State, msgs: seq<Msg>, overwrite: bool, last: Option<string>): Option<string>
    decreases |msgs|
  {
    if msgs == [] || !UploadOne(s, msgs[0], overwrite).1 then last
    else PolicyOfMsgs(UploadOne(s, msgs[0], overwrite).0, msgs[1..], overwrite,
                      if msgs[0].body.AuthBody? then Some(msgs[0].body.policy) else last)
  }

  function PolicyOf(s: State, bound: bool, events: seq<Event>, last: Option<string>): Option<string>
    decreases |events|
  {
    if events == [] || events[0] == Finalize || !KnownRequest(bound, events[0]) || !Handle(s, events[0]).1 then last
    else PolicyOf(Handle(s, events[0]).0, true, events[1..],
                  if events[0].Certificates? then PolicyOfMsgs(s, events[0].msgs, events[0].overwrite, last) else last)
  }

  /** During a stream: the file holds the last accepted policy and the backup the one before
      the stream; or nothing was uploaded. */
  predicate PolicyServing(p: AuthPart, start: AuthPart, last: Option<string>) {
    && start.backup.None?
    && (last.None? ==> p.slot.active.final && p.file == start.file && p.backup.None?)
    && (last.Some? ==> !p.slot.active.final && start.file.Some? && p.file == last && p.backup == start.file)
  }

  /** Giving up now brings the policy before the stream back. */
  predicate Restorable(p: AuthPart, start: AuthPart) {
    RevertAuth(p).file == start.file && RevertAuth(p).backup.None?
  }

  lemma UploadOnePolicy(s: State, m: Msg, overwrite: bool, start: AuthPart, last: Option<string>)
    requires PolicyServing(s.auth, start, last)
    ensures var (t, ok) := UploadOne(s, m, overwrite);
            && Restorable(t.auth, start)
            && (ok ==> PolicyServing(t.auth, start, if m.body.AuthBody? then Some(m.body.policy) else last))
  {
  }

  lemma {:induction false} UploadMsgsPolicy(s: State, msgs: seq<Msg>, overwrite: bool, start: AuthPart, last: Option<string>)
    requires PolicyServing(s.auth, start, last)
    ensures var (t, ok) := UploadMsgs(s, msgs, overwrite);
            Restorable(t.auth, start) && (ok ==> PolicyServing(t.auth, start, PolicyOfMsgs(s, msgs, overwrite, last)))
    decreases |msgs|
  {
    if msgs != [] {
      UploadOnePolicy(s, msgs[0], overwrite, start, last);
      var (s', ok) := UploadOne(s, msgs[0], overwrite);
      if ok {
        UploadMsgsPolicy(s', msgs[1..], overwrite, start, if msgs[0].body.AuthBody? then Some(msgs[0].body.policy) else last);
      }
    }
  }

  lemma HandlePolicy(s: State, e: Event, start: AuthPart, last: Option<string>)
    requires PolicyServing(s.auth, start, last)
    ensures var (t, ok) := Handle(s, e);
            var last' := if e.Certificates? then PolicyOfMsgs(s, e.msgs, e.overwrite, last) else last;
            Restorable(t.auth, start) && (ok ==> PolicyServing(t.auth, start, last'))
  {
    if e.Certificates? { UploadMsgsPolicy(s, e.msgs, e.overwrite, start, last); }
  }

  /** The policy when a stream ends. */
  predicate PolicyEnds(t: AuthPart, start: AuthPart, last: Option<string>, ending: Ending) {
    && t.backup.None?
    && t.file == if ending == Finalized && last.Some? then last else start.file
  }

  lemma EndPolicy(s: State, pair: PairFault, ca: CaFault, start: AuthPart, last: Option<string>)
    ensures Restorable(s.auth, start) ==> PolicyEnds(RevertProfile(s, pair, ca).auth, start, last, Reverted)
    ensures PolicyServing(s.auth, start, last) ==> PolicyEnds(FinalizeProfile(s).auth, start, last, Finalized)
  {
    EndParts(s, pair, ca);
  }

  /** However many policies a stream uploads, without Finalize the one before it comes back, and
      with Finalize the last one stays; no backup is left. */
  lemma {:induction false} ServePolicy(s: State, bound: bool, events: seq<Event>, pair: PairFault, ca: CaFault, start: AuthPart, last: Option<string>)
    requires PolicyServing(s.auth, start, last) && (!bound ==> last.None?)
    ensures var (t, ending) := Serve(s, bound, events, pair, ca);
            PolicyEnds(t.auth, start, PolicyOf(s, bound, events, last), ending)
    decreases |events|
  {
    if events == [] || events[0] == Finalize {
      EndPolicy(s, pair, ca, start, last);
    } else if KnownRequest(bound, events[0]) {
      var e := events[0];
      var (s', ok) := Handle(s, e);
      HandlePolicy(s, e, start, last);
      var last' := if e.Certificates? then PolicyOfMsgs(s, e.msgs, e.overwrite, last) else last;
      if ok { ServePolicy(s', true, events[1..], pair, ca, start, last'); } else { EndPolicy(s', pair, ca, start, last); }
    }
  }

  // ---------- Whole runs ----------

  datatype Stream = Stream(events: seq<Event>, pair: PairFault, ca: CaFault)

  function RotateAll(s: State, streams: seq<Stream>): State {
    if streams == [] then s
    else
      var last := streams[|streams| - 1];
      RotateState(RotateAll(s, streams[..|streams| - 1]), last.events, last.pair, last.ca).0
  }

  /** Over every sequence of streams, whatever fails in them: between streams the four active
      entities are final and their rows current, and no policy backup is left. */
  lemma {:induction false} StreamsSettle(s: State, streams: seq<Stream>)
    requires AllSettled(s) && s.auth.backup.None?
    ensures AllSettled(RotateAll(s, streams)) && RotateAll(s, streams).auth.backup.None?
  {
    if streams != [] {
      var init, last := streams[..|streams| - 1], streams[|streams| - 1];
      StreamsSettle(s, init);
      var t := RotateAll(s, init);
      ServeEntities(t, false, last.events, last.pair, last.ca, t);
      ServePolicy(t, false, last.events, last.pair, last.ca, t.auth, None);
    }
  }

  /** As long as the links can be pointed back, no link ever dangles between streams. */
  lemma {:induction false} StreamsStayLive(s: State, streams: seq<Stream>)
    requires Live(s) && forall i :: 0 <= i < |streams| ==> streams[i].pair == NoFault && streams[i].ca == NoCaFault
    ensures Live(RotateAll(s, streams)) && NoDangling(RotateAll(s, streams))
  {
    if streams != [] {
      var init, last := streams[..|streams| - 1], streams[|streams| - 1];
      StreamsStayLive(s, init);
      ServeLive(RotateAll(s, init), false, last.events);
    }
  }
}
