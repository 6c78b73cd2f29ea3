/** The files of revocation lists: the live directory, its flush copy beside it, and whatever else
    an identifier leads to. */
module CrlFiles {
  import opened Delimited
  import opened FilePath
  import opened Options

  type Disk = map<Place, string>

  function LiveDir(base: Place): Place { base + ["crl"] }
  function FlushDir(base: Place): Place { base + ["crl_flush"] }

  /** How a list fares: it is refused, cannot be written when it is checked, or cannot be written
      again once all have been checked. */
  datatype Check = Good | Invalid | Unwritable | Unrewritable

  datatype Crl = Crl(id: string, body: string, check: Check)

  /** Where a list is written: its identifier is followed from the live directory. */
  function PlaceOf(base: Place, c: Crl): Place { Reach(LiveDir(base), StepsOf(Split(c.id, '/'))) }

  /** A file directly in the directory. */
  predicate In(dir: Place, p: Place) { |p| == |dir| + 1 && p[..|dir|] == dir }

  function Within(d: Disk, dir: Place): Disk { map p | p in d && In(dir, p) :: d[p] }
  function Outside(d: Disk, dir: Place): Disk { map p | p in d && !In(dir, p) :: d[p] }

  function FileAt(d: Disk, p: Place): Option<string> { if p in d then Some(d[p]) else None }

  // ---------- Writing ----------

  /** The place is one of the two directories or above them, so it cannot be written. */
  predicate IsDirectory(base: Place, p: Place) { p <= LiveDir(base) || p <= FlushDir(base) }

  predicate Passes(base: Place, c: Crl, again: bool) {
    !IsDirectory(base, PlaceOf(base, c)) && (c.check.Good? || (!again && c.check.Unrewritable?))
  }

  /** What is left when this list fails: a failed write removes the file. */
  function Without(base: Place, d: Disk, c: Crl): Disk { if c.check.Invalid? then d else d - {PlaceOf(base, c)} }

  /** One pass over a bundle: the lists are written one by one up to the first that fails. */
  function WritePass(base: Place, d: Disk, crls: seq<Crl>, again: bool): (Disk, bool)
    decreases |crls|
  {
    if crls == [] then (d, true)
    else if Passes(base, crls[0], again) then WritePass(base, d[PlaceOf(base, crls[0]) := crls[0].body], crls[1..], again)
    else (Without(base, d, crls[0]), false)
  }

  /** A bundle is checked and written; if all goes well the live directory is emptied and the
      bundle written again. */
  function RotateCrl(base: Place, d: Disk, crls: seq<Crl>): (Disk, bool) {
    if crls == [] then (d, false)
    else
      var (d', ok) := WritePass(base, d, crls, false);
      if ok then WritePass(base, Outside(d', LiveDir(base)), crls, true) else (d', false)
  }

  // ---------- Copying ----------

  function NamesIn(d: Disk, dir: Place): set<string> { set p {:trigger In(dir, p)} | p in d && In(dir, p) :: p[|p| - 1] }

  lemma InNamed(dir: Place, p: Place)
    ensures In(dir, p) <==> p != [] && p == dir + [p[|p| - 1]]
  {
    if In(dir, p) { assert p == p[..|dir|] + [p[|dir|]]; }
  }

  lemma NamesInIff(d: Disk, dir: Place, n: string)
    ensures n in NamesIn(d, dir) <==> dir + [n] in d
  {
    var q := dir + [n];
    if n in NamesIn(d, dir) {
      var p :| p in d && In(dir, p) && p[|p| - 1] == n;
      InNamed(dir, p);
    }
    if q in d { assert In(dir, q) && q[|q| - 1] == n; }
  }

  function PlacesOf(names: set<string>, to: Place): set<Place> { set n | n in names :: to + [n] }

  lemma PlacesOfIff(names: set<string>, to: Place, p: Place)
    ensures p in PlacesOf(names, to) <==> In(to, p) && p[|p| - 1] in names
  {
    InNamed(to, p);
    if p in PlacesOf(names, to) {
      var n :| n in names && p == to + [n];
      assert p[|p| - 1] == n && p[..|to|] == to;
    }
  }

  /** The lists with these names in one directory, as files of another one. */
  function Moved(d: Disk, names: set<string>, from: Place, to: Place): Disk {
    map p | p in PlacesOf(names, to) && p != [] && from + [p[|p| - 1]] in d :: d[from + [p[|p| - 1]]]
  }

  lemma MovedMore(d: Disk, names: set<string>, n: string, from: Place, to: Place)
    requires from + [n] in d
    ensures Moved(d, names + {n}, from, to) == Moved(d, names, from, to)[to + [n] := d[from + [n]]]
  {
    var q := to + [n];
    assert q[|q| - 1] == n;
    forall p ensures p in PlacesOf(names + {n}, to) <==> p in PlacesOf(names, to) || p == q {
      PlacesOfIff(names, to, p);
      PlacesOfIff(names + {n}, to, p);
      InNamed(to, p);
    }
  }

  lemma OverLast(d: Disk, lists: Disk, p: Place, body: string)
    ensures (d + lists)[p := body] == d + lists[p := body]
  {
  }

  /** A directory is emptied and filled with the files of another one. */
  function Copy(d: Disk, from: Place, to: Place): Disk { Outside(d, to) + Moved(d, NamesIn(d, from), from, to) }

  /** One directory has the lists of another one. */
  ghost predicate SameLists(d: Disk, dir: Place, d': Disk, dir': Place) {
    forall n :: FileAt(d, dir + [n]) == FileAt(d', dir' + [n])
  }

  lemma CopyAt(d: Disk, from: Place, to: Place, n: string)
    ensures FileAt(Copy(d, from, to), to + [n]) == FileAt(d, from + [n])
  {
    var q := to + [n];
    assert In(to, q) && q[|q| - 1] == n;
    PlacesOfIff(NamesIn(d, from), to, q);
    NamesInIff(d, from, n);
  }

  lemma CopyElsewhere(d: Disk, from: Place, to: Place, p: Place)
    requires !In(to, p)
    ensures FileAt(Copy(d, from, to), p) == FileAt(d, p)
  {
    PlacesOfIff(NamesIn(d, from), to, p);
  }

  lemma Unlike(dir: Place, dir': Place, n: string)
    requires dir != dir'
    ensures !In(dir, dir' + [n])
  {
    InNamed(dir, dir' + [n]);
    assert (dir' + [n])[..|dir'|] == dir';
  }

  /** A copied directory has the lists of the other one, and no other directory changes. */
  lemma CopyIs(d: Disk, from: Place, to: Place, dir: Place)
    ensures SameLists(Copy(d, from, to), to, d, from)
    ensures dir != to ==> SameLists(Copy(d, from, to), dir, d, dir)
  {
    forall n ensures FileAt(Copy(d, from, to), to + [n]) == FileAt(d, from + [n]) { CopyAt(d, from, to, n); }
    if dir != to {
      forall n ensures FileAt(Copy(d, from, to), dir + [n]) == FileAt(d, dir + [n]) {
        Unlike(to, dir, n);
        CopyElsewhere(d, from, to, dir + [n]);
      }
    }
  }

  lemma WithinAt(d: Disk, dir: Place, p: Place)
    ensures FileAt(Within(d, dir), p) == if In(dir, p) then FileAt(d, p) else None
  {
  }

  lemma SameDisk(d: Disk, d': Disk)
    requires forall p :: FileAt(d, p) == FileAt(d', p)
    ensures d == d'
  {
    forall p ensures p in d <==> p in d' { assert FileAt(d, p) == FileAt(d', p); }
    forall p | p in d ensures d[p] == d'[p] { assert FileAt(d, p) == FileAt(d', p); }
  }

  /** A directory is its files. */
  lemma WithinSameIff(d: Disk, d': Disk, dir: Place)
    ensures SameLists(d, dir, d', dir) <==> Within(d, dir) == Within(d', dir)
  {
    if SameLists(d, dir, d', dir) {
      forall p ensures FileAt(Within(d, dir), p) == FileAt(Within(d', dir), p) {
        InNamed(dir, p);
        WithinAt(d, dir, p);
        WithinAt(d', dir, p);
        if In(dir, p) { assert FileAt(d, dir + [p[|p| - 1]]) == FileAt(d', dir + [p[|p| - 1]]); }
      }
      SameDisk(Within(d, dir), Within(d', dir));
    }
    if Within(d, dir) == Within(d', dir) {
      forall n ensures FileAt(d, dir + [n]) == FileAt(d', dir + [n]) {
        InNamed(dir, dir + [n]);
        WithinAt(d, dir, dir + [n]);
        WithinAt(d', dir, dir + [n]);
      }
    }
  }

  lemma SameListsVia(d: Disk, dir: Place, d': Disk, dir': Place, d'': Disk, dir'': Place)
    requires SameLists(d, dir, d', dir') && SameLists(d', dir', d'', dir'')
    ensures SameLists(d, dir, d'', dir'')
  {
    forall n ensures FileAt(d, dir + [n]) == FileAt(d'', dir'' + [n]) { assert FileAt(d', dir' + [n]) == FileAt(d'', dir'' + [n]); }
  }

  lemma SameListsBack(d: Disk, dir: Place, d': Disk, dir': Place)
    requires SameLists(d, dir, d', dir')
    ensures SameLists(d', dir', d, dir)
  {
  }

  // ---------- What a bundle writes ----------

  /** The lists of a bundle before the first that fails in a pass, the later of two at one place. */
  function Listed(base: Place, crls: seq<Crl>, again: bool): Disk {
    if crls == [] || !Passes(base, crls[0], again) then map[]
    else map[PlaceOf(base, crls[0]) := crls[0].body] + Listed(base, crls[1..], again)
  }

  function Failing(base: Place, crls: seq<Crl>, again: bool): Option<Crl> {
    if crls == [] then None
    else if Passes(base, crls[0], again) then Failing(base, crls[1..], again) else Some(crls[0])
  }

  function Drop(base: Place, d: Disk, c: Option<Crl>): Disk { if c.Some? then Without(base, d, c.value) else d }

  lemma OverOne(d: Disk, p: Place, body: string, lists: Disk)
    ensures d[p := body] + lists == d + (map[p := body] + lists)
  {
  }

  /** A pass puts its lists over what is there; the list that fails may take one away. */
  lemma {:induction false} WritePassIs(base: Place, d: Disk, crls: seq<Crl>, again: bool)
    ensures WritePass(base, d, crls, again) ==
            (Drop(base, d + Listed(base, crls, again), Failing(base, crls, again)), Failing(base, crls, again).None?)
    decreases |crls|
  {
    assert d + map[] == d;
    if crls != [] && Passes(base, crls[0], again) {
      var p, body := PlaceOf(base, crls[0]), crls[0].body;
      WritePassIs(base, d[p := body], crls[1..], again);
      OverOne(d, p, body, Listed(base, crls[1..], again));
    }
  }

  /** A bundle that passes twice has passed once with the same lists. */
  lemma {:induction false} TwiceIsOnce(base: Place, crls: seq<Crl>)
    requires Failing(base, crls, true).None?
    ensures Failing(base, crls, false).None? && Listed(base, crls, false) == Listed(base, crls, true)
  {
    if crls != [] { TwiceIsOnce(base, crls[1..]); }
  }

  lemma OutsideOver(d: Disk, l: Disk, dir: Place)
    ensures Outside(d + l, dir) + l == Outside(d, dir) + l
  {
  }

  /** A bundle that is accepted replaces the live directory, and puts the lists that lead elsewhere
      over what is there. */
  lemma AcceptedIs(base: Place, d: Disk, crls: seq<Crl>)
    requires RotateCrl(base, d, crls).1
    ensures RotateCrl(base, d, crls).0 == Outside(d, LiveDir(base)) + Listed(base, crls, true)
  {
    var l := Listed(base, crls, false);
    WritePassIs(base, d, crls, false);
    WritePassIs(base, Outside(d + l, LiveDir(base)), crls, true);
    TwiceIsOnce(base, crls);
    OutsideOver(d, l, LiveDir(base));
  }

  /** Everything that a rejected bundle writes, over the passes it takes part in, and the list that
      ends it. */
  function Put(base: Place, crls: seq<Crl>): Disk {
    Listed(base, crls, false) + if Failing(base, crls, false).None? then Listed(base, crls, true) else map[]
  }

  function Fails(base: Place, crls: seq<Crl>): Option<Crl> {
    if Failing(base, crls, false).Some? then Failing(base, crls, false) else Failing(base, crls, true)
  }

  /** Whether a bundle is accepted depends on it alone. */
  lemma AcceptedIff(base: Place, d: Disk, crls: seq<Crl>)
    ensures RotateCrl(base, d, crls).1 <==> crls != [] && Fails(base, crls).None?
  {
    WritePassIs(base, d, crls, false);
    WritePassIs(base, Outside(WritePass(base, d, crls, false).0, LiveDir(base)), crls, true);
  }

  /** What a bundle leaves: the first list that fails ends it, in the first pass or in the second. */
  lemma RotateIs(base: Place, d: Disk, crls: seq<Crl>)
    ensures crls == [] ==> RotateCrl(base, d, crls).0 == d
    ensures crls != [] && Failing(base, crls, false).Some? ==>
              RotateCrl(base, d, crls).0 == Without(base, d + Listed(base, crls, false), Failing(base, crls, false).value)
    ensures crls != [] && Failing(base, crls, false).None? ==>
              RotateCrl(base, d, crls).0 ==
              Drop(base, Outside(d + Listed(base, crls, false), LiveDir(base)) + Listed(base, crls, true), Failing(base, crls, true))
  {
    WritePassIs(base, d, crls, false);
    WritePassIs(base, Outside(WritePass(base, d, crls, false).0, LiveDir(base)), crls, true);
  }

  lemma TakenAt(d: Disk, gone: set<Place>, p: Place)
    ensures FileAt(d - gone, p) == if p in gone then None else FileAt(d, p)
  {
  }

  lemma OutsideOverAt(d: Disk, first: Disk, second: Disk, dir: Place, p: Place)
    requires !In(dir, p)
    ensures FileAt(Outside(d + first, dir) + second, p) == FileAt(d + (first + second), p)
  {
  }

  lemma DropAt(base: Place, d: Disk, d': Disk, c: Option<Crl>, p: Place)
    requires FileAt(d, p) == FileAt(d', p)
    ensures FileAt(Drop(base, d, c), p) == FileAt(Drop(base, d', c), p)
  {
    if c.Some? {
      TakenAt(d, {PlaceOf(base, c.value)}, p);
      TakenAt(d', {PlaceOf(base, c.value)}, p);
    }
  }

  /** Outside the live directory a bundle, accepted or not, leaves what it wrote. */
  lemma RotateElsewhere(base: Place, d: Disk, crls: seq<Crl>, p: Place)
    requires !In(LiveDir(base), p)
    ensures FileAt(RotateCrl(base, d, crls).0, p) == FileAt(Drop(base, d + Put(base, crls), Fails(base, crls)), p)
  {
    var first, second := Listed(base, crls, false), Listed(base, crls, true);
    RotateIs(base, d, crls);
    if crls == [] {
      assert Put(base, crls) == map[] && Fails(base, crls).None?;
    } else if Failing(base, crls, false).Some? {
      assert Put(base, crls) == first;
    } else {
      OutsideOverAt(d, first, second, LiveDir(base), p);
      DropAt(base, Outside(d + first, LiveDir(base)) + second, d + (first + second), Failing(base, crls, true), p);
    }
  }

  lemma WithinTaken(d: Disk, p: Place, dir: Place)
    ensures Within(d - {p}, dir) == Within(d, dir) - {p}
  {
  }

  lemma WithinOver(d: Disk, first: Disk, second: Disk, dir: Place)
    ensures Within(d + first, dir) == Within(d, dir) + Within(first, dir)
    ensures Within(Outside(d + first, dir) + second, dir) == Within(second, dir)
  {
  }

  /** The lists in the live directory after a bundle that the first pass, or the second, rejects. */
  lemma RotateWithin(base: Place, d: Disk, crls: seq<Crl>)
    requires crls != [] && Fails(base, crls).Some?
    ensures var live := LiveDir(base);
            Within(RotateCrl(base, d, crls).0, live) ==
            if Failing(base, crls, false).Some?
            then Without(base, Within(d, live) + Within(Listed(base, crls, false), live), Failing(base, crls, false).value)
            else Without(base, Within(Listed(base, crls, true), live), Failing(base, crls, true).value)
  {
    var live, first, second := LiveDir(base), Listed(base, crls, false), Listed(base, crls, true);
    var p := PlaceOf(base, Fails(base, crls).value);
    RotateIs(base, d, crls);
    WithinOver(d, first, second, live);
    WithinTaken(d + first, p, live);
    WithinTaken(Outside(d + first, live) + second, p, live);
  }

  // ---------- When a rejected bundle changes nothing ----------

  /** The directory has every one of these lists already. */
  predicate Has(d: Disk, lists: Disk) { forall p :: p in lists ==> p in d && d[p] == lists[p] }

  lemma OverSameIff(d: Disk, lists: Disk)
    ensures d + lists == d <==> Has(d, lists)
  {
    if d + lists == d {
      forall p | p in lists ensures p in d && d[p] == lists[p] { assert p in d + lists; }
    }
  }

  lemma OverWithoutSameIff(d: Disk, lists: Disk, p: Place)
    ensures (d + lists) - {p} == d <==> p !in d && Has(d, lists - {p})
  {
    var d' := (d + lists) - {p};
    if d' == d {
      forall x | x in lists - {p} ensures x in d && d[x] == lists[x] { assert x in d' && d'[x] == lists[x]; }
    }
  }

  /** A rejected bundle leaves the live directory alone: what was written of it there was there
      already, and nothing was there under the name of a list that could not be written; or, if
      the second pass failed, the directory was just the lists before that one. */
  predicate LeavesAlone(base: Place, d: Disk, crls: seq<Crl>) {
    var live := Within(d, LiveDir(base));
    match Failing(base, crls, false)
    case Some(c) =>
      var lists := Within(Listed(base, crls, false), LiveDir(base));
      if c.check.Invalid? then Has(live, lists)
      else PlaceOf(base, c) !in live && Has(live, lists - {PlaceOf(base, c)})
    case None =>
      match Failing(base, crls, true)
      case Some(c) => live == Within(Listed(base, crls, true), LiveDir(base)) - {PlaceOf(base, c)}
      case None => true
  }

  lemma {:induction false} SecondFailure(base: Place, crls: seq<Crl>)
    requires Failing(base, crls, false).None? && Failing(base, crls, true).Some?
    ensures !Failing(base, crls, true).value.check.Invalid?
  {
    if Passes(base, crls[0], true) { SecondFailure(base, crls[1..]); }
  }

  /** Exactly which rejected bundles leave the live directory alone. */
  lemma RejectedSameIff(base: Place, d: Disk, crls: seq<Crl>)
    requires !RotateCrl(base, d, crls).1
    ensures Within(RotateCrl(base, d, crls).0, LiveDir(base)) == Within(d, LiveDir(base)) <==> LeavesAlone(base, d, crls)
  {
    AcceptedIff(base, d, crls);
    if crls != [] {
      RotateWithin(base, d, crls);
      var live, lists := Within(d, LiveDir(base)), Within(Listed(base, crls, false), LiveDir(base));
      OverSameIff(live, lists);
      OverWithoutSameIff(live, lists, PlaceOf(base, Fails(base, crls).value));
      if Failing(base, crls, false).None? { SecondFailure(base, crls); }
    }
  }

  /** A list that passes the first time and cannot be written again leaves the live directory empty,
      while one that cannot be written at all takes away its own file only. */
  lemma LateFailure(base: Place, d: Disk, c: Crl)
    requires In(LiveDir(base), PlaceOf(base, c)) && c.check != Good && c.check != Invalid
    ensures !RotateCrl(base, d, [c]).1
    ensures Within(RotateCrl(base, d, [c]).0, LiveDir(base)) ==
            if c.check == Unrewritable then map[] else Within(d, LiveDir(base)) - {PlaceOf(base, c)}
  {
    var live, p := LiveDir(base), PlaceOf(base, c);
    assert |p| == |base| + 2 && |live| == |FlushDir(base)| == |base| + 1;
    assert [c][1..] == [];
    RotateWithin(base, d, [c]);
    AcceptedIff(base, d, [c]);
    assert Listed(base, [c], true) == map[];
    assert c.check != Unrewritable ==> Listed(base, [c], false) == map[];
  }

  // ---------- Which identifiers are written inside ----------

  /** A list is written in the live directory exactly when its identifier comes down again by the
      names it went up, and then takes one more. */
  lemma InsideIff(base: Place, c: Crl)
    ensures var dir, r := LiveDir(base), StepsOf(Split(c.id, '/'));
            In(dir, PlaceOf(base, c)) <==>
            r.names != [] && r.names[..|r.names| - 1] == if r.ups <= |dir| then dir[|dir| - r.ups..] else dir
  {
    var dir, r := LiveDir(base), StepsOf(Split(c.id, '/'));
    var up := if r.ups <= |dir| then |dir| - r.ups else 0;
    var p := PlaceOf(base, c);
    assert p == dir[..up] + r.names && dir == dir[..up] + dir[up..];
    if In(dir, p) {
      assert |r.names| == |dir| - up + 1;
      assert p[..|dir|] == dir[..up] + r.names[..|r.names| - 1];
      assert r.names[..|r.names| - 1] == p[..|dir|][up..];
    }
    if r.names != [] && r.names[..|r.names| - 1] == dir[up..] {
      assert p[..|dir|] == dir[..up] + r.names[..|r.names| - 1];
    }
  }

  /** A plain name is a file of the directory `crl`. */
  lemma PlainList(base: Place, n: string, body: string, check: Check)
    requires Ordinary(n)
    ensures PlaceOf(base, Crl(n, body, check)) == base + ["crl", n] && !IsDirectory(base, base + ["crl", n])
  {
    SplitFree(n, '/');
    assert [n][..0] == [];
    assert StepsOf([n]) == Steps(0, [n]);
    assert LiveDir(base)[..|LiveDir(base)| - 0] + [n] == base + ["crl", n];
  }

  /** An identifier that goes up leads out: the list is written beside the live directory, which
      is left alone, and stays there when the bundle is rejected. */
  lemma EscapingList(base: Place, d: Disk, n: string, body: string, bad: Crl)
    requires Ordinary(n) && n != "crl" && n != "crl_flush" && bad.check.Invalid?
    ensures var bundle := [Crl("../" + n, body, Good), bad];
            var d' := RotateCrl(base, d, bundle).0;
            && !RotateCrl(base, d, bundle).1 && LeavesAlone(base, d, bundle)
            && d' == d[base + [n] := body]
  {
    var c := Crl("../" + n, body, Good);
    var bundle := [c, bad];
    UpAndDown(n);
    assert LiveDir(base)[..|base|] == base;
    assert PlaceOf(base, c) == base + [n];
    assert (base + [n])[|base|] == n && LiveDir(base)[|base|] == "crl" && FlushDir(base)[|base|] == "crl_flush";
    assert Passes(base, c, false) && bundle[1..] == [bad] && !Passes(base, bad, false);
    assert WritePass(base, d[base + [n] := body], [bad], false) == (d[base + [n] := body], false);
    assert Listed(base, [bad], false) == map[];
    assert Failing(base, bundle, false) == Failing(base, [bad], false) == Some(bad);
    assert Listed(base, bundle, false) == map[base + [n] := body] + map[];
    assert !In(LiveDir(base), base + [n]);
  }
}
