/** Versions and creation times over rotation streams, told from the messages: what is active, what
    the freshness rows say, and which messages are accepted. */
module CertzFreshness {
  import opened Options
  import opened FilePath
  import opened CrlFiles
  import opened CertzState

  datatype Kind = CertKind | BundleKind | CrlKind | AuthKind

  predicate IsKind(b: Body, k: Kind) {
    match k
    case CertKind => b.CertBody?
    case BundleKind => b.BundleBody?
    case CrlKind => b.CrlBody?
    case AuthKind => b.AuthBody?
  }

  function SlotOf(s: State, k: Kind): Slot {
    match k
    case CertKind => s.cert.slot
    case BundleKind => s.bundle.slot
    case CrlKind => s.crl.slot
    case AuthKind => s.auth.slot
  }

  // ---------- The last accepted message ----------

  function LastOfMsgs(s: State, msgs: seq<Msg>, overwrite: bool, k: Kind, last: Option<Msg>): Option<Msg>
    decreases |msgs|
  {
    if msgs == [] || !UploadOne(s, msgs[0], overwrite).1 then last
    else LastOfMsgs(UploadOne(s, msgs[0], overwrite).0, msgs[1..], overwrite, k,
                    if IsKind(msgs[0].body, k) then Some(msgs[0]) else last)
  }

  function LastOf(s: State, bound: bool, events: seq<Event>, k: Kind, last: Option<Msg>): Option<Msg>
    decreases |events|
  {
    if events == [] || events[0] == Finalize || !KnownRequest(bound, events[0]) then last
    else
      var last' := if events[0].Certificates? then LastOfMsgs(s, events[0].msgs, events[0].overwrite, k, last) else last;
      var (s', ok) := Handle(s, events[0]);
      if ok then LastOf(s', true, events[1..], k, last') else last'
  }

  // ---------- Versions and rows ----------

  /** Active entity and row carry this version and creation time. */
  predicate Shows(s: Slot, version: string, createdOn: nat) {
    (s.active.version, s.active.createdOn, s.row.version, s.row.createdOn) == (version, createdOn, version, createdOn)
  }

  /** The same as another slot. */
  predicate ShowsSame(s: Slot, start: Slot) { Shows(s, start.active.version, start.active.createdOn) }

  predicate ShowsLast(s: Slot, start: Slot, last: Option<Msg>) {
    if last.Some? then Shows(s, last.value.version, last.value.createdOn) else ShowsSame(s, start)
  }

  /** During a stream: untouched, or pending with what was there kept aside. */
  predicate Fresh(s: Slot, start: Slot, last: Option<Msg>) {
    && ShowsLast(s, start, last) && (last.None? <==> s.active.final)
    && (last.Some? ==> (s.last.version, s.last.createdOn) == (start.active.version, start.active.createdOn))
  }

  lemma UploadOneFresh(s: State, m: Msg, overwrite: bool, k: Kind, start: Slot, last: Option<Msg>)
    requires Fresh(SlotOf(s, k), start, last)
    ensures var (t, ok) := UploadOne(s, m, overwrite);
            Fresh(SlotOf(t, k), start, if ok && IsKind(m.body, k) then Some(m) else last)
  {
  }

  lemma {:induction false} UploadMsgsFresh(s: State, msgs: seq<Msg>, overwrite: bool, k: Kind, start: Slot, last: Option<Msg>)
    requires Fresh(SlotOf(s, k), start, last)
    ensures Fresh(SlotOf(UploadMsgs(s, msgs, overwrite).0, k), start, LastOfMsgs(s, msgs, overwrite, k, last))
    decreases |msgs|
  {
    if msgs != [] {
      UploadOneFresh(s, msgs[0], overwrite, k, start, last);
      var (s', ok) := UploadOne(s, msgs[0], overwrite);
      if ok { UploadMsgsFresh(s', msgs[1..], overwrite, k, start, if IsKind(msgs[0].body, k) then Some(msgs[0]) else last); }
    }
  }

  lemma HandleFresh(s: State, e: Event, k: Kind, start: Slot, last: Option<Msg>)
    requires Fresh(SlotOf(s, k), start, last)
    ensures var last' := if e.Certificates? then LastOfMsgs(s, e.msgs, e.overwrite, k, last) else last;
            Fresh(SlotOf(Handle(s, e).0, k), start, last')
  {
    if e.Certificates? { UploadMsgsFresh(s, e.msgs, e.overwrite, k, start, last); }
  }

  lemma EndFresh(s: State, pair: PairFault, ca: CaFault, k: Kind, start: Slot, last: Option<Msg>)
    requires Fresh(SlotOf(s, k), start, last)
    ensures ShowsSame(SlotOf(RevertProfile(s, pair, ca), k), start)
    ensures ShowsLast(SlotOf(FinalizeProfile(s), k), start, last)
  {
  }

  /** How a kind stands after a stream. */
  predicate Ends(t: Slot, start: Slot, last: Option<Msg>, ending: Ending) {
    ShowsLast(t, start, if ending == Finalized then last else None)
  }

  lemma ServeEnd(s: State, bound: bool, events: seq<Event>, pair: PairFault, ca: CaFault, k: Kind, start: Slot, last: Option<Msg>)
    requires Fresh(SlotOf(s, k), start, last) && (!bound ==> last.None?)
    requires events == [] || events[0] == Finalize || !KnownRequest(bound, events[0])
    ensures var (t, ending) := Serve(s, bound, events, pair, ca); Ends(SlotOf(t, k), start, last, ending)
    ensures LastOf(s, bound, events, k, last) == last
  {
    EndFresh(s, pair, ca, k, start, last);
  }

  lemma ServeOn(s: State, bound: bool, events: seq<Event>, pair: PairFault, ca: CaFault, k: Kind, last: Option<Msg>)
    requires events != [] && events[0] != Finalize && KnownRequest(bound, events[0])
    ensures var e := events[0];
            var (s', ok) := Handle(s, e);
            var last' := if e.Certificates? then LastOfMsgs(s, e.msgs, e.overwrite, k, last) else last;
            && Serve(s, bound, events, pair, ca) == (if ok then Serve(s', true, events[1..], pair, ca) else (RevertProfile(s', pair, ca), Reverted))
            && LastOf(s, bound, events, k, last) == (if ok then LastOf(s', true, events[1..], k, last') else last')
  {
  }

  /** From any point of a stream, for each kind: with Finalize the active entity and its row have the
      version and the creation time of the last accepted message of that kind; without, and if there
      was none, those of the start. */
  lemma {:induction false} ServeShows(s: State, bound: bool, events: seq<Event>, pair: PairFault, ca: CaFault, k: Kind, start: Slot, last: Option<Msg>)
    requires Fresh(SlotOf(s, k), start, last) && (!bound ==> last.None?)
    ensures var (t, ending) := Serve(s, bound, events, pair, ca);
            Ends(SlotOf(t, k), start, LastOf(s, bound, events, k, last), ending)
    decreases |events|
  {
    if events == [] || events[0] == Finalize || !KnownRequest(bound, events[0]) {
      ServeEnd(s, bound, events, pair, ca, k, start, last);
    } else {
      var e := events[0];
      var (s', ok) := Handle(s, e);
      var last' := if e.Certificates? then LastOfMsgs(s, e.msgs, e.overwrite, k, last) else last;
      ServeOn(s, bound, events, pair, ca, k, last);
      HandleFresh(s, e, k, start, last);
      if ok { ServeShows(s', true, events[1..], pair, ca, k, start, last'); } else { EndFresh(s', pair, ca, k, start, last'); }
    }
  }

  /** A whole stream. */
  lemma RotateShows(s: State, events: seq<Event>, pair: PairFault, ca: CaFault, k: Kind)
    requires SlotOf(s, k).active.final && ShowsSame(SlotOf(s, k), SlotOf(s, k))
    ensures var (t, ending) := RotateState(s, events, pair, ca);
            Ends(SlotOf(t, k), SlotOf(s, k), LastOf(s, false, events, k, None), ending)
  {
    ServeShows(s, false, events, pair, ca, k, SlotOf(s, k), None);
  }

  // ---------- Which messages are accepted ----------

  /** The steps that an upload of this kind takes all succeed; a link that is not there cannot fail
      to be removed. */
  predicate Succeeds(s: State, b: Body) {
    match b
    case CertBody(save, link) =>
      && save == CertSaved && link != LinkCertFails && link != LinkKeyFails
      && (s.cert.srvCert.Some? ==> link != RmCertFails) && (s.cert.srvKey.Some? ==> link != RmKeyFails)
    case BundleBody(saved, link) => saved && link != LinkCaFails && (s.bundle.caCert.Some? ==> link != RmCaFails)
    case CrlBody(configured, crls) => configured && AllGood(s.crl.base, crls)
    case AuthBody(_, written) => written && (s.auth.file.Some? || s.auth.backup.Some?)
    case NoBody => false
  }

  /** There are lists, all are good, and none leads to a directory. */
  predicate AllGood(base: Place, crls: seq<Crl>) {
    && crls != []
    && forall i :: 0 <= i < |crls| ==> crls[i].check == Good && !(PlaceOf(base, crls[i]) <= base + ["crl"]) && !(PlaceOf(base, crls[i]) <= base + ["crl_flush"])
  }

  lemma {:induction false} FailingNone(base: Place, crls: seq<Crl>)
    ensures Failing(base, crls, true).None? <==> crls == [] || AllGood(base, crls)
    decreases |crls|
  {
    if crls != [] {
      FailingNone(base, crls[1..]);
      if AllGood(base, crls) {
        assert Passes(base, crls[0], true);
        if crls[1..] != [] { assert forall i :: 0 <= i < |crls[1..]| ==> crls[1..][i] == crls[i + 1]; }
      } else if Passes(base, crls[0], true) && AllGood(base, crls[1..]) {
        forall i | 0 <= i < |crls| ensures Passes(base, crls[i], true) { if i > 0 { assert crls[i] == crls[1..][i - 1]; } }
      }
    }
  }

  lemma GoodBundleIff(base: Place, d: Disk, crls: seq<Crl>)
    ensures RotateCrl(base, d, crls).1 <==> AllGood(base, crls)
  {
    AcceptedIff(base, d, crls);
    FailingNone(base, crls);
    if crls != [] && Failing(base, crls, true).None? { TwiceIsOnce(base, crls); }
  }

  /** Exactly which messages are accepted. */
  lemma AcceptedMsgIff(s: State, m: Msg, overwrite: bool, k: Kind)
    requires IsKind(m.body, k)
    ensures UploadOne(s, m, overwrite).1 <==>
            && m.createdOn != 0 && m.version != "" && (overwrite || m.version != SlotOf(s, k).active.version)
            && Succeeds(s, m.body)
  {
    if m.body.CrlBody? { GoodBundleIff(s.crl.base, s.crl.disk, m.body.crls); }
  }

  /** A request that is empty, that carries no credential, or that names another profile ends the
      stream and leaves everything as it was. */
  lemma RefusedRequest(s: State, profile: string, msgs: seq<Msg>, overwrite: bool, sendOk: bool, pair: PairFault, ca: CaFault)
    requires s.cert.slot.active.final && s.bundle.slot.active.final && s.crl.slot.active.final && s.auth.slot.active.final
    requires msgs == [] || msgs[0].body == NoBody || (profile != "" && profile != "gnxi")
    ensures RotateState(s, [Certificates(profile, msgs, overwrite, sendOk)], pair, ca) == (s, Reverted)
  {
  }

  /** The least finalized stream: one message, and its version and time are in force and in the row. */
  lemma OneMessage(s: State, m: Msg, overwrite: bool, pair: PairFault, ca: CaFault, k: Kind)
    requires IsKind(m.body, k) && SlotOf(s, k).active.final && ShowsSame(SlotOf(s, k), SlotOf(s, k))
    requires m.createdOn != 0 && m.version != "" && m.version != SlotOf(s, k).active.version && Succeeds(s, m.body)
    ensures var (t, ending) := RotateState(s, [Certificates("", [m], overwrite, true), Finalize], pair, ca);
            ending == Finalized && Shows(SlotOf(t, k), m.version, m.createdOn)
  {
    var e := Certificates("", [m], overwrite, true);
    assert [e, Finalize][1..] == [Finalize] && [m][1..] == [];
    AcceptedMsgIff(s, m, overwrite, k);
    var s' := UploadOne(s, m, overwrite).0;
    assert UploadMsgs(s, [m], overwrite) == (s', true);
    assert Serve(s', true, [Finalize], pair, ca) == (FinalizeProfile(s'), Finalized);
    UploadOneFresh(s, m, overwrite, k, SlotOf(s, k), None);
    EndFresh(s', pair, ca, k, SlotOf(s, k), Some(m));
  }

  // ---------- How a stream goes on ----------

  /** A request for the default profile may name it. */
  lemma DefaultProfile(s: State, e: Event, rest: seq<Event>, pair: PairFault, ca: CaFault)
    requires e.Certificates? || e.GenerateCsr?
    ensures RotateState(s, [e.(profile := "gnxi")] + rest, pair, ca) == RotateState(s, [e.(profile := "")] + rest, pair, ca)
  {
  }

  /** A stream that has begun goes on after a request exactly when it could be carried out and its
      reply was sent; otherwise everything is given up. */
  lemma GoesOnIff(s: State, e: Event, rest: seq<Event>, pair: PairFault, ca: CaFault)
    requires e != Finalize
    ensures var goesOn :=
              match e
              case GenerateCsr(_, generated, sendOk) => generated && sendOk
              case Certificates(_, msgs, overwrite, sendOk) => msgs != [] && UploadMsgs(s, msgs, overwrite).1 && sendOk
              case _ => false;
            var s' := if e.Certificates? && e.msgs != [] then UploadMsgs(s, e.msgs, e.overwrite).0 else s;
            Serve(s, true, [e] + rest, pair, ca) == if goesOn then Serve(s', true, rest, pair, ca) else (RevertProfile(s', pair, ca), Reverted)
  {
    assert ([e] + rest)[1..] == rest;
  }

  /** What a finalized stream saves are the four active entities. */
  lemma {:induction false} SavedIsActive(s: State, bound: bool, events: seq<Event>, pair: PairFault, ca: CaFault)
    requires Serve(s, bound, events, pair, ca).1 == Finalized
    ensures var t := Serve(s, bound, events, pair, ca).0;
            t.saved.Some? && t.saved.value.cert == t.cert.slot.active && t.saved.value.bundle == t.bundle.slot.active
            && t.saved.value.crl == t.crl.slot.active && t.saved.value.auth == t.auth.slot.active
    decreases |events|
  {
    if events[0] != Finalize { SavedIsActive(Handle(s, events[0]).0, true, events[1..], pair, ca); }
  }
}
