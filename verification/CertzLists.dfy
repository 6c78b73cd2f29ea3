/** What rotation streams leave of the revocation lists. */
module CertzLists {
  import opened Options
  import opened FilePath
  import opened CrlFiles
  import opened CertzState
  import opened CertzTheorems

  // ---------- The bundles of a stream ----------

  /** The bundles activated by these messages, before the first that fails. */
  function BundlesOfMsgs(s: State, msgs: seq<Msg>, overwrite: bool, before: seq<seq<Crl>>): seq<seq<Crl>>
    decreases |msgs|
  {
    if msgs == [] || !UploadOne(s, msgs[0], overwrite).1 then before
    else BundlesOfMsgs(UploadOne(s, msgs[0], overwrite).0, msgs[1..], overwrite,
                       if msgs[0].body.CrlBody? then before + [msgs[0].body.crls] else before)
  }

  /** The bundle that is rejected among these messages, if that is what fails. */
  function RejectedOfMsgs(s: State, msgs: seq<Msg>, overwrite: bool): Option<seq<Crl>>
    decreases |msgs|
  {
    if msgs == [] then None
    else if UploadOne(s, msgs[0], overwrite).1 then RejectedOfMsgs(UploadOne(s, msgs[0], overwrite).0, msgs[1..], overwrite)
    else if Considers(s, msgs[0], overwrite) && msgs[0].body.CrlBody? then Some(msgs[0].body.crls)
    else None
  }

  /** The bundles that a stream activates. */
  function BundlesOf(s: State, bound: bool, events: seq<Event>, before: seq<seq<Crl>>): seq<seq<Crl>>
    decreases |events|
  {
    if events == [] || events[0] == Finalize || !KnownRequest(bound, events[0]) then before
    else
      var before' := if events[0].Certificates? then BundlesOfMsgs(s, events[0].msgs, events[0].overwrite, before) else before;
      var (s', ok) := Handle(s, events[0]);
      if ok then BundlesOf(s', true, events[1..], before') else before'
  }

  /** The bundle whose rejection ends a stream. */
  function RejectedOf(s: State, bound: bool, events: seq<Event>): Option<seq<Crl>>
    decreases |events|
  {
    if events == [] || events[0] == Finalize || !KnownRequest(bound, events[0]) then None
    else
      var (s', ok) := Handle(s, events[0]);
      if ok then RejectedOf(s', true, events[1..])
      else if events[0].Certificates? then RejectedOfMsgs(s, events[0].msgs, events[0].overwrite)
      else None
  }

  // ---------- The disk of a stream ----------

  /** The disk after these bundles were accepted one after the other. */
  function Served(base: Place, d: Disk, bundles: seq<seq<Crl>>): Disk
    decreases |bundles|
  {
    if bundles == [] then d
    else Outside(Served(base, d, bundles[..|bundles| - 1]), LiveDir(base)) + Listed(base, bundles[|bundles| - 1], true)
  }

  /** The same, with one that was rejected after them. */
  function Left(base: Place, d: Disk, bundles: seq<seq<Crl>>, rejected: Option<seq<Crl>>): Disk {
    var d' := Served(base, d, bundles);
    if rejected.Some? then RotateCrl(base, d', rejected.value).0 else d'
  }

  predicate CrlServing(p: CrlPart, start: CrlPart, bundles: seq<seq<Crl>>, rejected: Option<seq<Crl>>) {
    && p.base == start.base && (bundles != [] <==> !p.slot.active.final)
    && p.disk == Left(start.base, start.disk, bundles, rejected)
  }

  lemma ServedMore(base: Place, d: Disk, bundles: seq<seq<Crl>>, crls: seq<Crl>)
    ensures Served(base, d, bundles + [crls]) == Outside(Served(base, d, bundles), LiveDir(base)) + Listed(base, crls, true)
  {
    assert (bundles + [crls])[..|bundles|] == bundles;
  }

  lemma UploadOneCrl(s: State, m: Msg, overwrite: bool, start: CrlPart, bundles: seq<seq<Crl>>)
    requires CrlServing(s.crl, start, bundles, None)
    ensures var (t, ok) := UploadOne(s, m, overwrite);
            if ok then CrlServing(t.crl, start, if m.body.CrlBody? then bundles + [m.body.crls] else bundles, None)
            else CrlServing(t.crl, start, bundles, if Considers(s, m, overwrite) && m.body.CrlBody? then Some(m.body.crls) else None)
  {
    if m.body.CrlBody? && RotateCrl(s.crl.base, s.crl.disk, m.body.crls).1 {
      AcceptedIs(s.crl.base, s.crl.disk, m.body.crls);
      ServedMore(start.base, start.disk, bundles, m.body.crls);
    }
  }

  lemma {:induction false} UploadMsgsCrl(s: State, msgs: seq<Msg>, overwrite: bool, start: CrlPart, bundles: seq<seq<Crl>>)
    requires CrlServing(s.crl, start, bundles, None)
    ensures var (t, ok) := UploadMsgs(s, msgs, overwrite);
            CrlServing(t.crl, start, BundlesOfMsgs(s, msgs, overwrite, bundles), RejectedOfMsgs(s, msgs, overwrite))
            && (ok ==> RejectedOfMsgs(s, msgs, overwrite).None?)
    decreases |msgs|
  {
    if msgs != [] {
      UploadOneCrl(s, msgs[0], overwrite, start, bundles);
      var (s', ok) := UploadOne(s, msgs[0], overwrite);
      if ok {
        UploadMsgsCrl(s', msgs[1..], overwrite, start, if msgs[0].body.CrlBody? then bundles + [msgs[0].body.crls] else bundles);
      }
    }
  }

  /** The end of a stream: if a bundle is pending, the live directory is copied to the flush copy
      or back. */
  function Closed(base: Place, d: Disk, pending: bool, finalized: bool): Disk {
    if !pending then d
    else if finalized then Copy(d, LiveDir(base), FlushDir(base)) else Copy(d, FlushDir(base), LiveDir(base))
  }

  function Ended(base: Place, d: Disk, bundles: seq<seq<Crl>>, rejected: Option<seq<Crl>>, finalized: bool): Disk {
    Closed(base, Left(base, d, bundles, rejected), bundles != [], finalized)
  }

  predicate CrlEnds(t: CrlPart, start: CrlPart, bundles: seq<seq<Crl>>, rejected: Option<seq<Crl>>, ending: Ending) {
    && t.base == start.base && t.disk == Ended(start.base, start.disk, bundles, rejected, ending == Finalized)
    && (ending == Finalized ==> rejected.None?)
  }

  lemma RevertPart(p: CrlPart)
    ensures RevertCrl(p).base == p.base && RevertCrl(p).disk == Closed(p.base, p.disk, !p.slot.active.final, false)
  {
  }

  lemma FinalizePart(p: CrlPart)
    ensures FinalizeCrl(p).base == p.base && FinalizeCrl(p).disk == Closed(p.base, p.disk, !p.slot.active.final, true)
  {
  }

  lemma EndCrl(s: State, pair: PairFault, ca: CaFault, start: CrlPart, bundles: seq<seq<Crl>>, rejected: Option<seq<Crl>>)
    requires CrlServing(s.crl, start, bundles, rejected)
    ensures CrlEnds(RevertProfile(s, pair, ca).crl, start, bundles, rejected, Reverted)
    ensures rejected.None? ==> CrlEnds(FinalizeProfile(s).crl, start, bundles, rejected, Finalized)
  {
    EndParts(s, pair, ca);
    RevertPart(s.crl);
    FinalizePart(s.crl);
  }

  lemma {:induction false} ServeCrl(s: State, bound: bool, events: seq<Event>, pair: PairFault, ca: CaFault, start: CrlPart, bundles: seq<seq<Crl>>)
    requires CrlServing(s.crl, start, bundles, None) && (!bound ==> bundles == [])
    ensures var (t, ending) := Serve(s, bound, events, pair, ca);
            CrlEnds(t.crl, start, BundlesOf(s, bound, events, bundles), RejectedOf(s, bound, events), ending)
    decreases |events|
  {
    if events == [] || events[0] == Finalize {
      EndCrl(s, pair, ca, start, bundles, None);
    } else if KnownRequest(bound, events[0]) {
      var e := events[0];
      var (s', ok) := Handle(s, e);
      var bundles' := if e.Certificates? then BundlesOfMsgs(s, e.msgs, e.overwrite, bundles) else bundles;
      if e.Certificates? { UploadMsgsCrl(s, e.msgs, e.overwrite, start, bundles); }
      if ok { ServeCrl(s', true, events[1..], pair, ca, start, bundles'); }
      else { EndCrl(s', pair, ca, start, bundles', if e.Certificates? then RejectedOfMsgs(s, e.msgs, e.overwrite) else None); }
    }
  }

  // ---------- What that means ----------

  /** Everything these bundles write, over one another. */
  function AllListed(base: Place, bundles: seq<seq<Crl>>): Disk
    decreases |bundles|
  {
    if bundles == [] then map[]
    else AllListed(base, bundles[..|bundles| - 1]) + Listed(base, bundles[|bundles| - 1], true)
  }

  /** The disk with everything a stream wrote on it, nothing being emptied. */
  function WrittenOver(base: Place, d: Disk, bundles: seq<seq<Crl>>, rejected: Option<seq<Crl>>): Disk {
    var d' := d + AllListed(base, bundles);
    if rejected.Some? then Drop(base, d' + Put(base, rejected.value), Fails(base, rejected.value)) else d'
  }

  lemma OverAt(d: Disk, all: Disk, last: Disk, p: Place)
    ensures FileAt(d + (all + last), p) == if p in last then Some(last[p]) else FileAt(d + all, p)
  {
  }

  lemma OutsideAt(d: Disk, last: Disk, dir: Place, p: Place)
    requires !In(dir, p)
    ensures FileAt(Outside(d, dir) + last, p) == if p in last then Some(last[p]) else FileAt(d, p)
  {
  }

  lemma {:induction false} ServedElsewhere(base: Place, d: Disk, bundles: seq<seq<Crl>>, p: Place)
    requires !In(LiveDir(base), p)
    ensures FileAt(Served(base, d, bundles), p) == FileAt(d + AllListed(base, bundles), p)
    decreases |bundles|
  {
    if bundles == [] {
      assert d + map[] == d;
    } else {
      var init, last := bundles[..|bundles| - 1], Listed(base, bundles[|bundles| - 1], true);
      ServedElsewhere(base, d, init, p);
      OverAt(d, AllListed(base, init), last, p);
      OutsideAt(Served(base, d, init), last, LiveDir(base), p);
    }
  }

  lemma AddedAt(d: Disk, d': Disk, more: Disk, p: Place)
    requires FileAt(d, p) == FileAt(d', p)
    ensures FileAt(d + more, p) == FileAt(d' + more, p)
  {
  }

  /** Outside the live directory, everything written stays. */
  lemma LeftElsewhere(base: Place, d: Disk, bundles: seq<seq<Crl>>, rejected: Option<seq<Crl>>, p: Place)
    requires !In(LiveDir(base), p)
    ensures FileAt(Left(base, d, bundles, rejected), p) == FileAt(WrittenOver(base, d, bundles, rejected), p)
  {
    var d1, d2 := Served(base, d, bundles), d + AllListed(base, bundles);
    ServedElsewhere(base, d, bundles, p);
    if rejected.Some? {
      RotateElsewhere(base, d1, rejected.value, p);
      AddedAt(d1, d2, Put(base, rejected.value), p);
      DropAt(base, d1 + Put(base, rejected.value), d2 + Put(base, rejected.value), Fails(base, rejected.value), p);
    }
  }

  lemma DirsApart(base: Place)
    ensures LiveDir(base) != FlushDir(base)
  {
    assert LiveDir(base)[|base|] == "crl" && FlushDir(base)[|base|] == "crl_flush";
  }

  lemma SameFlush(base: Place, d: Disk, bundles: seq<seq<Crl>>, rejected: Option<seq<Crl>>)
    ensures SameLists(Left(base, d, bundles, rejected), FlushDir(base), WrittenOver(base, d, bundles, rejected), FlushDir(base))
  {
    var flush := FlushDir(base);
    DirsApart(base);
    forall n ensures FileAt(Left(base, d, bundles, rejected), flush + [n]) == FileAt(WrittenOver(base, d, bundles, rejected), flush + [n]) {
      Unlike(LiveDir(base), flush, n);
      LeftElsewhere(base, d, bundles, rejected, flush + [n]);
    }
  }

  lemma OutsideAdded(d: Disk, lists: Disk, dir: Place)
    ensures SameLists(Outside(d, dir) + lists, dir, lists, dir)
  {
    forall n ensures FileAt(Outside(d, dir) + lists, dir + [n]) == FileAt(lists, dir + [n]) { InNamed(dir, dir + [n]); }
  }

  lemma ServedLive(base: Place, d: Disk, bundles: seq<seq<Crl>>)
    requires bundles != []
    ensures SameLists(Served(base, d, bundles), LiveDir(base), Listed(base, bundles[|bundles| - 1], true), LiveDir(base))
  {
    OutsideAdded(Served(base, d, bundles[..|bundles| - 1]), Listed(base, bundles[|bundles| - 1], true), LiveDir(base));
  }

  /** What a stream leaves, in terms of what it uploaded. With Finalize, both directories hold the
      lists of the last activated bundle. Without, if any bundle was activated both hold the flush
      copy, with whatever was written into that; if none was, the live directory keeps what a
      rejected one left. */
  ghost predicate ListsEnd(base: Place, d: Disk, t: Disk, bundles: seq<seq<Crl>>, rejected: Option<seq<Crl>>, finalized: bool) {
    var live, flush := LiveDir(base), FlushDir(base);
    && (bundles != [] ==> SameLists(t, live, t, flush))
    && (bundles != [] && finalized ==> SameLists(t, live, Listed(base, bundles[|bundles| - 1], true), live))
    && (bundles == [] || !finalized ==> SameLists(t, flush, WrittenOver(base, d, bundles, rejected), flush))
    && (bundles == [] ==> SameLists(t, live, if rejected.Some? then RotateCrl(base, d, rejected.value).0 else d, live))
  }

  lemma EndFinalized(base: Place, d: Disk, bundles: seq<seq<Crl>>)
    requires bundles != []
    ensures ListsEnd(base, d, Ended(base, d, bundles, None, true), bundles, None, true)
  {
    var d', live, flush := Served(base, d, bundles), LiveDir(base), FlushDir(base);
    var t, last := Copy(d', live, flush), Listed(base, bundles[|bundles| - 1], true);
    DirsApart(base);
    CopyIs(d', live, flush, live);
    ServedLive(base, d, bundles);
    SameListsVia(t, live, d', live, last, live);
    SameListsBack(t, flush, d', live);
    SameListsVia(t, live, d', live, t, flush);
  }

  lemma EndReverted(base: Place, d: Disk, bundles: seq<seq<Crl>>, rejected: Option<seq<Crl>>)
    requires bundles != []
    ensures ListsEnd(base, d, Ended(base, d, bundles, rejected, false), bundles, rejected, false)
  {
    var d', live, flush := Left(base, d, bundles, rejected), LiveDir(base), FlushDir(base);
    var t := Copy(d', flush, live);
    DirsApart(base);
    CopyIs(d', flush, live, flush);
    SameFlush(base, d, bundles, rejected);
    SameListsVia(t, flush, d', flush, WrittenOver(base, d, bundles, rejected), flush);
    SameListsBack(t, flush, d', flush);
    SameListsVia(t, live, d', flush, t, flush);
  }

  lemma EndLists(base: Place, d: Disk, bundles: seq<seq<Crl>>, rejected: Option<seq<Crl>>, finalized: bool)
    requires finalized ==> rejected.None?
    ensures ListsEnd(base, d, Ended(base, d, bundles, rejected, finalized), bundles, rejected, finalized)
  {
    if bundles == [] { SameFlush(base, d, bundles, rejected); }
    else if finalized { EndFinalized(base, d, bundles); }
    else { EndReverted(base, d, bundles, rejected); }
  }

  /** What was written outside both directories stays, however the stream ends. */
  lemma EndElsewhere(base: Place, d: Disk, bundles: seq<seq<Crl>>, rejected: Option<seq<Crl>>, finalized: bool, p: Place)
    requires !In(LiveDir(base), p) && !In(FlushDir(base), p)
    ensures FileAt(Ended(base, d, bundles, rejected, finalized), p) == FileAt(WrittenOver(base, d, bundles, rejected), p)
  {
    LeftElsewhere(base, d, bundles, rejected, p);
    CopyElsewhere(Left(base, d, bundles, rejected), LiveDir(base), FlushDir(base), p);
    CopyElsewhere(Left(base, d, bundles, rejected), FlushDir(base), LiveDir(base), p);
  }

  // ---------- Whole streams ----------

  /** The live lists of one state are those of another, and so are the flush copies. */
  ghost predicate SameLive(p: CrlPart, q: CrlPart) { SameLists(p.disk, LiveDir(p.base), q.disk, LiveDir(q.base)) }
  ghost predicate SameCopy(p: CrlPart, q: CrlPart) { SameLists(p.disk, FlushDir(p.base), q.disk, FlushDir(q.base)) }

  /** Live lists and flush copy agree. */
  ghost predicate InStep(p: CrlPart) { SameLists(p.disk, LiveDir(p.base), p.disk, FlushDir(p.base)) }

  /** The lists after a whole stream. */
  lemma RotateLists(s: State, events: seq<Event>, pair: PairFault, ca: CaFault)
    requires s.crl.slot.active.final
    ensures var (t, ending) := RotateState(s, events, pair, ca);
            && t.crl.base == s.crl.base
            && ListsEnd(s.crl.base, s.crl.disk, t.crl.disk, BundlesOf(s, false, events, []), RejectedOf(s, false, events), ending == Finalized)
  {
    ServeCrl(s, false, events, pair, ca, s.crl, []);
    var ending := RotateState(s, events, pair, ca).1;
    EndLists(s.crl.base, s.crl.disk, BundlesOf(s, false, events, []), RejectedOf(s, false, events), ending == Finalized);
  }

  /** A file outside both directories after a whole stream. */
  lemma RotateElsewhereStays(s: State, events: seq<Event>, pair: PairFault, ca: CaFault, p: Place)
    requires s.crl.slot.active.final && !In(LiveDir(s.crl.base), p) && !In(FlushDir(s.crl.base), p)
    ensures FileAt(RotateState(s, events, pair, ca).0.crl.disk, p) ==
            FileAt(WrittenOver(s.crl.base, s.crl.disk, BundlesOf(s, false, events, []), RejectedOf(s, false, events)), p)
  {
    ServeCrl(s, false, events, pair, ca, s.crl, []);
    var ending := RotateState(s, events, pair, ca).1;
    EndElsewhere(s.crl.base, s.crl.disk, BundlesOf(s, false, events, []), RejectedOf(s, false, events), ending == Finalized, p);
  }

  lemma {:induction false} RejectedOfMsgsFails(s: State, msgs: seq<Msg>, overwrite: bool, base: Place)
    requires RejectedOfMsgs(s, msgs, overwrite).Some? && s.crl.base == base
    ensures var crls := RejectedOfMsgs(s, msgs, overwrite).value; crls == [] || Fails(base, crls).Some?
    decreases |msgs|
  {
    var (s', ok) := UploadOne(s, msgs[0], overwrite);
    if ok { RejectedOfMsgsFails(s', msgs[1..], overwrite, base); } else { AcceptedIff(base, s.crl.disk, msgs[0].body.crls); }
  }

  lemma {:induction false} MsgsKeepBase(s: State, msgs: seq<Msg>, overwrite: bool)
    ensures UploadMsgs(s, msgs, overwrite).0.crl.base == s.crl.base
    decreases |msgs|
  {
    if msgs != [] && UploadOne(s, msgs[0], overwrite).1 { MsgsKeepBase(UploadOne(s, msgs[0], overwrite).0, msgs[1..], overwrite); }
  }

  lemma {:induction false} RejectedFails(s: State, bound: bool, events: seq<Event>, crls: seq<Crl>)
    requires RejectedOf(s, bound, events) == Some(crls)
    ensures crls == [] || Fails(s.crl.base, crls).Some?
    decreases |events|
  {
    var (s', ok) := Handle(s, events[0]);
    if ok {
      if events[0].Certificates? { MsgsKeepBase(s, events[0].msgs, events[0].overwrite); }
      RejectedFails(s', true, events[1..], crls);
    } else {
      RejectedOfMsgsFails(s, events[0].msgs, events[0].overwrite, s.crl.base);
    }
  }

  /** A bundle that is rejected partway is not rolled back. A stream that is not finalized leaves
      the live lists as they were exactly when, having activated a bundle, the flush copy with what
      was written into it is the same, and otherwise when a rejected bundle left them alone. */
  lemma AbortKeepsListsIff(s: State, events: seq<Event>, pair: PairFault, ca: CaFault)
    requires s.crl.slot.active.final && RotateState(s, events, pair, ca).1 != Finalized
    ensures var t, base := RotateState(s, events, pair, ca).0, s.crl.base;
            var bundles, rejected := BundlesOf(s, false, events, []), RejectedOf(s, false, events);
            SameLive(t.crl, s.crl) <==>
            if bundles != [] then SameLists(WrittenOver(base, s.crl.disk, bundles, rejected), FlushDir(base), s.crl.disk, LiveDir(base))
            else rejected.Some? ==> LeavesAlone(base, s.crl.disk, rejected.value)
  {
    RotateLists(s, events, pair, ca);
    var t, bundles, rejected := RotateState(s, events, pair, ca).0, BundlesOf(s, false, events, []), RejectedOf(s, false, events);
    if bundles != [] {
      ActivatedSameIff(s.crl.base, s.crl.disk, t.crl.disk, WrittenOver(s.crl.base, s.crl.disk, bundles, rejected));
    } else if rejected.Some? {
      RejectedFails(s, false, events, rejected.value);
      RejectedLists(s.crl.base, s.crl.disk, rejected.value, t.crl.disk);
    }
  }

  lemma ActivatedSameIff(base: Place, d: Disk, t: Disk, w: Disk)
    requires SameLists(t, LiveDir(base), t, FlushDir(base)) && SameLists(t, FlushDir(base), w, FlushDir(base))
    ensures SameLists(t, LiveDir(base), d, LiveDir(base)) <==> SameLists(w, FlushDir(base), d, LiveDir(base))
  {
    var live, flush := LiveDir(base), FlushDir(base);
    SameListsVia(t, live, t, flush, w, flush);
    if SameLists(w, flush, d, live) { SameListsVia(t, live, w, flush, d, live); }
    if SameLists(t, live, d, live) {
      SameListsBack(t, live, w, flush);
      SameListsVia(w, flush, t, live, d, live);
    }
  }

  lemma RejectedLists(base: Place, d: Disk, crls: seq<Crl>, t: Disk)
    requires (crls == [] || Fails(base, crls).Some?) && SameLists(t, LiveDir(base), RotateCrl(base, d, crls).0, LiveDir(base))
    ensures SameLists(t, LiveDir(base), d, LiveDir(base)) <==> LeavesAlone(base, d, crls)
  {
    AcceptedIff(base, d, crls);
    RejectedSameIff(base, d, crls);
    WithinSameIff(t, RotateCrl(base, d, crls).0, LiveDir(base));
    WithinSameIff(t, d, LiveDir(base));
  }

  /** The least such stream: one message, which is rejected. */
  lemma RejectedBundleStays(s: State, m: Msg, pair: PairFault, ca: CaFault)
    requires s.crl.slot.active.final && m.body.CrlBody? && Considers(s, m, false) && !RotateCrl(s.crl.base, s.crl.disk, m.body.crls).1
    ensures var (t, ending) := RotateState(s, [Certificates("", [m], false, true)], pair, ca);
            && ending == Reverted && t.crl.disk == RotateCrl(s.crl.base, s.crl.disk, m.body.crls).0
            && (SameLive(t.crl, s.crl) <==> LeavesAlone(s.crl.base, s.crl.disk, m.body.crls))
  {
    assert !UploadOne(s, m, false).1;
    assert UploadMsgs(s, [m], false).0 == UploadOne(s, m, false).0;
    AcceptedIff(s.crl.base, s.crl.disk, m.body.crls);
    RejectedLists(s.crl.base, s.crl.disk, m.body.crls, RotateCrl(s.crl.base, s.crl.disk, m.body.crls).0);
  }

  lemma OneListed(base: Place, n: string, body: string)
    requires Ordinary(n)
    ensures var c := Crl(n, body, Good);
            Listed(base, [c], true) == map[base + ["crl", n] := body] && Fails(base, [c]).None?
  {
    var c := Crl(n, body, Good);
    PlainList(base, n, body, Good);
    assert [c][1..] == [] && Passes(base, c, false) && Passes(base, c, true);
    assert Failing(base, [], false) == None && Failing(base, [], true) == None;
    assert Failing(base, [c], false) == Failing(base, [c][1..], false);
    assert Failing(base, [c], true) == Failing(base, [c][1..], true);
    assert Listed(base, [], true) == map[] && Listed(base, [c], true) == map[PlaceOf(base, c) := body] + Listed(base, [c][1..], true);
  }

  lemma OneBundle(s: State, m: Msg, pair: PairFault, ca: CaFault)
    requires m.body.CrlBody? && m.body.crls != [] && Fails(s.crl.base, m.body.crls).None? && Considers(s, m, false)
    ensures var events := [Certificates("", [m], false, true), Finalize];
            RotateState(s, events, pair, ca).1 == Finalized && BundlesOf(s, false, events, []) == [m.body.crls]
  {
    var e := Certificates("", [m], false, true);
    var events := [e, Finalize];
    assert events[1..] == [Finalize] && [m][1..] == [];
    AcceptedIff(s.crl.base, s.crl.disk, m.body.crls);
    var s' := UploadOne(s, m, false).0;
    assert UploadMsgs(s, [m], false) == (s', true);
    assert Serve(s', true, [Finalize], pair, ca).1 == Finalized;
    assert BundlesOfMsgs(s, [m], false, []) == BundlesOfMsgs(s', [], false, [] + [m.body.crls]) == [m.body.crls];
    assert BundlesOf(s', true, [Finalize], [m.body.crls]) == [m.body.crls];
  }

  /** A bundle of one plain list and Finalize: the directories `crl` and `crl_flush` hold that list
      and no other. */
  lemma OneList(s: State, m: Msg, n: string, body: string, pair: PairFault, ca: CaFault, x: string)
    requires s.crl.slot.active.final && Ordinary(n) && m.body == CrlBody(true, [Crl(n, body, Good)]) && Considers(s, m, false)
    ensures var t, base := RotateState(s, [Certificates("", [m], false, true), Finalize], pair, ca).0, s.crl.base;
            FileAt(t.crl.disk, base + ["crl", x]) == FileAt(t.crl.disk, base + ["crl_flush", x]) == if x == n then Some(body) else None
  {
    var base, events := s.crl.base, [Certificates("", [m], false, true), Finalize];
    OneListed(base, n, body);
    OneBundle(s, m, pair, ca);
    RotateLists(s, events, pair, ca);
    var t := RotateState(s, events, pair, ca).0;
    assert base + ["crl", x] == LiveDir(base) + [x] && base + ["crl_flush", x] == FlushDir(base) + [x];
    assert FileAt(t.crl.disk, LiveDir(base) + [x]) == FileAt(Listed(base, [Crl(n, body, Good)], true), LiveDir(base) + [x]);
    assert base + ["crl", x] == base + ["crl", n] ==> (base + ["crl", x])[|base| + 1] == n;
  }

  // ---------- The flush copy over all streams ----------

  /** None of these lists is written into the flush copy. */
  predicate Apart(base: Place, crls: seq<Crl>) {
    forall i :: 0 <= i < |crls| ==> !In(FlushDir(base), PlaceOf(base, crls[i]))
  }

  predicate AllApart(base: Place, bundles: seq<seq<Crl>>) { forall i :: 0 <= i < |bundles| ==> Apart(base, bundles[i]) }

  predicate MsgsApart(base: Place, msgs: seq<Msg>) {
    forall i :: 0 <= i < |msgs| && msgs[i].body.CrlBody? ==> Apart(base, msgs[i].body.crls)
  }

  predicate EventsApart(base: Place, events: seq<Event>) {
    forall i :: 0 <= i < |events| && events[i].Certificates? ==> MsgsApart(base, events[i].msgs)
  }

  lemma {:induction false} ListedApart(base: Place, crls: seq<Crl>, again: bool, p: Place)
    requires Apart(base, crls) && In(FlushDir(base), p)
    ensures p !in Listed(base, crls, again)
    ensures var c := Failing(base, crls, again); c.Some? ==> PlaceOf(base, c.value) != p
    decreases |crls|
  {
    if crls != [] && Passes(base, crls[0], again) { ListedApart(base, crls[1..], again, p); }
  }

  lemma {:induction false} AllListedApart(base: Place, bundles: seq<seq<Crl>>, p: Place)
    requires AllApart(base, bundles) && In(FlushDir(base), p)
    ensures p !in AllListed(base, bundles)
    decreases |bundles|
  {
    if bundles != [] {
      AllListedApart(base, bundles[..|bundles| - 1], p);
      ListedApart(base, bundles[|bundles| - 1], true, p);
    }
  }

  lemma WrittenApart(base: Place, d: Disk, bundles: seq<seq<Crl>>, rejected: Option<seq<Crl>>)
    requires AllApart(base, bundles) && (rejected.Some? ==> Apart(base, rejected.value))
    ensures SameLists(WrittenOver(base, d, bundles, rejected), FlushDir(base), d, FlushDir(base))
  {
    var flush := FlushDir(base);
    forall n ensures FileAt(WrittenOver(base, d, bundles, rejected), flush + [n]) == FileAt(d, flush + [n]) {
      InNamed(flush, flush + [n]);
      AllListedApart(base, bundles, flush + [n]);
      if rejected.Some? {
        ListedApart(base, rejected.value, false, flush + [n]);
        ListedApart(base, rejected.value, true, flush + [n]);
      }
    }
  }

  lemma {:induction false} BundlesOfMsgsApart(s: State, msgs: seq<Msg>, overwrite: bool, before: seq<seq<Crl>>, base: Place)
    requires MsgsApart(base, msgs) && AllApart(base, before)
    ensures AllApart(base, BundlesOfMsgs(s, msgs, overwrite, before))
    ensures var r := RejectedOfMsgs(s, msgs, overwrite); r.Some? ==> Apart(base, r.value)
    decreases |msgs|
  {
    if msgs != [] {
      var (s', ok) := UploadOne(s, msgs[0], overwrite);
      if ok { BundlesOfMsgsApart(s', msgs[1..], overwrite, if msgs[0].body.CrlBody? then before + [msgs[0].body.crls] else before, base); }
    }
  }

  lemma {:induction false} BundlesOfApart(s: State, bound: bool, events: seq<Event>, before: seq<seq<Crl>>, base: Place)
    requires EventsApart(base, events) && AllApart(base, before)
    ensures AllApart(base, BundlesOf(s, bound, events, before))
    ensures var r := RejectedOf(s, bound, events); r.Some? ==> Apart(base, r.value)
    decreases |events|
  {
    if events != [] && events[0] != Finalize && KnownRequest(bound, events[0]) {
      var e := events[0];
      var (s', ok) := Handle(s, e);
      if e.Certificates? { BundlesOfMsgsApart(s, e.msgs, e.overwrite, before, base); }
      var before' := if e.Certificates? then BundlesOfMsgs(s, e.msgs, e.overwrite, before) else before;
      if ok { BundlesOfApart(s', true, events[1..], before', base); }
    }
  }

  /** The bundle that a stream makes final. */
  function FinalBundle(s: State, st: Stream): Option<seq<Crl>> {
    var bundles := BundlesOf(s, false, st.events, []);
    if bundles != [] && RotateState(s, st.events, st.pair, st.ca).1 == Finalized then Some(bundles[|bundles| - 1]) else None
  }

  /** The flush copy holds the lists of this bundle for the live directory; if there is none, it is
      that of the start. */
  ghost predicate Flushed(t: CrlPart, start: CrlPart, final: Option<seq<Crl>>) {
    && t.base == start.base
    && if final.Some? then SameLists(t.disk, FlushDir(t.base), Listed(t.base, final.value, true), LiveDir(t.base))
       else SameCopy(t, start)
  }

  lemma FlushAfter(base: Place, d: Disk, t: Disk, bundles: seq<seq<Crl>>, rejected: Option<seq<Crl>>, finalized: bool)
    requires ListsEnd(base, d, t, bundles, rejected, finalized)
    requires AllApart(base, bundles) && (rejected.Some? ==> Apart(base, rejected.value))
    ensures if bundles != [] && finalized then SameLists(t, FlushDir(base), Listed(base, bundles[|bundles| - 1], true), LiveDir(base))
            else SameLists(t, FlushDir(base), d, FlushDir(base))
  {
    var live, flush := LiveDir(base), FlushDir(base);
    if bundles != [] && finalized {
      SameListsBack(t, live, t, flush);
      SameListsVia(t, flush, t, live, Listed(base, bundles[|bundles| - 1], true), live);
    } else {
      WrittenApart(base, d, bundles, rejected);
      SameListsVia(t, flush, WrittenOver(base, d, bundles, rejected), flush, d, flush);
    }
  }

  /** One stream whose lists stay out of the flush copy: the copy changes with Finalize only. */
  lemma RotateFlush(s: State, st: Stream)
    requires s.crl.slot.active.final && EventsApart(s.crl.base, st.events)
    ensures Flushed(RotateState(s, st.events, st.pair, st.ca).0.crl, s.crl, FinalBundle(s, st))
  {
    RotateLists(s, st.events, st.pair, st.ca);
    BundlesOfApart(s, false, st.events, [], s.crl.base);
    var (t, ending) := RotateState(s, st.events, st.pair, st.ca);
    FlushAfter(s.crl.base, s.crl.disk, t.crl.disk, BundlesOf(s, false, st.events, []), RejectedOf(s, false, st.events), ending == Finalized);
  }

  lemma FlushedMore(t: CrlPart, mid: CrlPart, start: CrlPart, earlier: Option<seq<Crl>>, final: Option<seq<Crl>>)
    requires Flushed(mid, start, earlier) && Flushed(t, mid, final)
    ensures Flushed(t, start, if final.Some? then final else earlier)
  {
    if final.None? {
      var flush := FlushDir(t.base);
      if earlier.Some? { SameListsVia(t.disk, flush, mid.disk, flush, Listed(t.base, earlier.value, true), LiveDir(t.base)); }
      else { SameListsVia(t.disk, flush, mid.disk, flush, start.disk, flush); }
    }
  }

  /** The last bundle made final by a sequence of streams. */
  function LastFinal(s: State, streams: seq<Stream>): Option<seq<Crl>>
    decreases |streams|
  {
    if streams == [] then None
    else
      var init, last := streams[..|streams| - 1], streams[|streams| - 1];
      var final := FinalBundle(RotateAll(s, init), last);
      if final.Some? then final else LastFinal(s, init)
  }

  /** Over every sequence of streams, the flush copy holds the last bundle that was made final. */
  lemma {:induction false} StreamsFlush(s: State, streams: seq<Stream>)
    requires AllSettled(s) && s.auth.backup.None?
    requires forall i :: 0 <= i < |streams| ==> EventsApart(s.crl.base, streams[i].events)
    ensures Flushed(RotateAll(s, streams).crl, s.crl, LastFinal(s, streams))
    decreases |streams|
  {
    if streams != [] {
      var init, last := streams[..|streams| - 1], streams[|streams| - 1];
      StreamsFlush(s, init);
      StreamsSettle(s, init);
      var mid := RotateAll(s, init);
      RotateFlush(mid, last);
      FlushedMore(RotateAll(s, streams).crl, mid.crl, s.crl, LastFinal(s, init), FinalBundle(mid, last));
    }
  }

  lemma InStepIff(t: CrlPart, start: CrlPart)
    requires t.base == start.base && InStep(start) && SameCopy(t, start)
    ensures InStep(t) <==> SameLive(t, start)
  {
    var live, flush := LiveDir(t.base), FlushDir(t.base);
    SameListsBack(t.disk, flush, start.disk, flush);
    SameListsBack(start.disk, live, start.disk, flush);
    if InStep(t) {
      SameListsVia(t.disk, live, t.disk, flush, start.disk, flush);
      SameListsVia(t.disk, live, start.disk, flush, start.disk, live);
    }
    if SameLive(t, start) {
      SameListsVia(t.disk, live, start.disk, live, start.disk, flush);
      SameListsVia(t.disk, live, start.disk, flush, t.disk, flush);
    }
  }

  /** If live lists and flush copy agreed before a stream, they agree after it exactly when it
      activated a bundle, or rejected none, or rejected one that left the live lists alone. */
  lemma AgreeIff(s: State, events: seq<Event>, pair: PairFault, ca: CaFault)
    requires s.crl.slot.active.final && EventsApart(s.crl.base, events) && InStep(s.crl)
    ensures var rejected := RejectedOf(s, false, events);
            InStep(RotateState(s, events, pair, ca).0.crl) <==>
            || BundlesOf(s, false, events, []) != [] || rejected.None?
            || LeavesAlone(s.crl.base, s.crl.disk, rejected.value)
  {
    var t, rejected := RotateState(s, events, pair, ca).0, RejectedOf(s, false, events);
    RotateLists(s, events, pair, ca);
    if BundlesOf(s, false, events, []) == [] {
      RotateFlush(s, Stream(events, pair, ca));
      InStepIff(t.crl, s.crl);
      if rejected.Some? {
        RejectedFails(s, false, events, rejected.value);
        RejectedLists(s.crl.base, s.crl.disk, rejected.value, t.crl.disk);
      }
    }
  }
}
