/** A configuration entry and its form in the database, where every field is a string: a list is
    stored under its name with "@" appended, its items joined by commas. */
module RedisEntry {
  import opened Delimited
  import opened JsonDocument

  type Row = map<string, string>

  predicate CommaFree(s: string) { ',' !in s }

  // ---------- The two forms ----------

  /** The string items of a list; others are skipped. */
  function Strings(l: seq<Json>): seq<string> {
    if l == [] then []
    else
      var init := Strings(l[..|l| - 1]);
      if l[|l| - 1].Str? then init + [l[|l| - 1].s] else init
  }

  function Wrap(l: seq<string>): seq<Json> { seq(|l|, i requires 0 <= i < |l| => Str(l[i])) }

  predicate EndsAt(s: string) { s != "" && s[|s| - 1] == '@' }

  /** A field of the entry that is written as `f`, with value `v`. */
  ghost predicate Writes(e: Map, f: string, v: string) {
    || (f in e && e[f] == Str(v))
    || (EndsAt(f) && f[..|f| - 1] in e && e[f[..|f| - 1]].List? && v == Join(Strings(e[f[..|f| - 1]].items), ','))
  }

  /** `row` is the entry written in some order: it has every field that is written and nothing
      else; where two fields claim a name, either value. */
  ghost predicate Encodes(e: Map, row: Row) {
    && (forall f :: f in row ==> Writes(e, f, row[f]))
    && (forall f, v :: Writes(e, f, v) ==> f in row)
  }

  /** A field of the row that is read as `k`, with value `v`. */
  ghost predicate Reads(row: Row, k: string, v: Json) {
    || (k in row && k != "NULL" && !EndsAt(k) && v == Str(row[k]))
    || (k + "@" in row && v == List(Wrap(Split(row[k + "@"], ','))))
  }

  ghost predicate Decodes(row: Row, e: Map) {
    && (forall k :: k in e ==> Reads(row, k, e[k]))
    && (forall k, v :: Reads(row, k, v) ==> k in e)
  }

  // ---------- In so many words ----------

  lemma TwoItems(a: string, b: string)
    ensures Join(Strings([Str(a), Str(b)]), ',') == a + "," + b
    ensures CommaFree(a) && CommaFree(b) ==> Split(a + "," + b, ',') == [a, b]
  {
    var l := [Str(a), Str(b)];
    assert l[..1] == [Str(a)] && l[..1][..0] == [];
    assert Strings([Str(a)]) == [a] && Strings(l) == [a, b];
    assert [a, b][1..] == [b];
    assert a + "," + b == a + [','] + b;
    SplitAppend(a, b, ',');
    if CommaFree(a) && CommaFree(b) {
      SplitFree(a, ',');
      SplitFree(b, ',');
    }
  }

  /** A string is written under its name and a list under its name and "@", with commas between its
      items; "NULL" stands for no field at all. */
  lemma Written(k: string, v: string, a: string, b: string, row: Row)
    ensures Encodes(map[k := Str(v)], row) <==> row == map[k := v]
    ensures Encodes(map[k := List([Str(a), Str(b)])], row) <==> row == map[k + "@" := a + "," + b]
    ensures Encodes(map[], row) <==> row == map[]
  {
    var f := k + "@";
    assert EndsAt(f) && f[..|f| - 1] == k;
    TwoItems(a, b);
    var e: Map := map[k := List([Str(a), Str(b)])];
    assert Writes(e, f, a + "," + b);
    forall g, w | Writes(e, g, w) ensures g == f && w == a + "," + b { assert g == g[..|g| - 1] + "@"; }
    assert Writes(map[k := Str(v)], k, v);
    assert forall g, w :: Writes(map[k := Str(v)], g, w) ==> g == k && w == v;
  }

  lemma Read(k: string, v: string, a: string, b: string, e: Map)
    requires CommaFree(a) && CommaFree(b)
    ensures k != "NULL" && !EndsAt(k) ==> (Decodes(map[k := v], e) <==> e == map[k := Str(v)])
    ensures Decodes(map[k + "@" := a + "," + b], e) <==> e == map[k := List([Str(a), Str(b)])]
    ensures Decodes(map["NULL" := v], e) <==> e == map[]
  {
    var f := k + "@";
    TwoItems(a, b);
    assert EndsAt(f) && f[..|f| - 1] == k;
    assert Wrap([a, b]) == [Str(a), Str(b)];
    var row: Row := map[f := a + "," + b];
    assert Reads(row, k, List([Str(a), Str(b)]));
    forall g, w | Reads(row, g, w) ensures g == k && w == List([Str(a), Str(b)]) { assert (g + "@")[..|g|] == g; }
    forall g: string ensures g + "@" != "NULL" { assert EndsAt(g + "@") && !EndsAt("NULL"); }
    if k != "NULL" && !EndsAt(k) {
      assert Reads(map[k := v], k, Str(v));
      forall g, w | Reads(map[k := v], g, w) ensures g == k && w == Str(v) { assert g + "@" == k ==> EndsAt(k); }
    }
  }

  // ---------- The loops ----------

  method ConvertDbEntry(e: Map) returns (row: Row)
    ensures Encodes(e, row)
  {
    row := map[];
    var todo := e.Keys;
    ghost var done: Map := map[];
    while todo != {}
      invariant todo <= e.Keys && done.Keys == e.Keys - todo
      invariant forall k :: k in done ==> done[k] == e[k]
      invariant Encodes(done, row)
    {
      var k :| k in todo;
      todo := todo - {k};
      ghost var before, wrote := done, row;
      done := done[k := e[k]];
      match e[k] {
        case Str(s) =>
          row := row[k := s];
          EncodeStr(before, wrote, k, s);
        case List(l) =>
          var slice := [];
          var i := 0;
          while i < |l|
            invariant 0 <= i <= |l|
            invariant slice == Strings(l[..i])
          {
            assert l[..i + 1][..i] == l[..i];
            if l[i].Str? {
              slice := slice + [l[i].s];
            }
            i := i + 1;
          }
          assert l[..i] == l;
          row := row[k + "@" := Join(slice, ',')];
          EncodeList(before, wrote, k, l);
        case _ =>
          EncodeOther(before, wrote, k, e[k]);
      }
    }
    assert done == e;
  }

  lemma EncodeStr(e: Map, row: Row, k: string, s: string)
    requires Encodes(e, row) && k !in e
    ensures Encodes(e[k := Str(s)], row[k := s])
  {
    var e', row' := e[k := Str(s)], row[k := s];
    forall f | f in row' ensures Writes(e', f, row'[f]) { if f != k { assert Writes(e, f, row[f]); } }
    forall f, v | Writes(e', f, v) ensures f in row' { if f != k { assert Writes(e, f, v); } }
  }

  lemma EncodeList(e: Map, row: Row, k: string, l: seq<Json>)
    requires Encodes(e, row) && k !in e
    ensures Encodes(e[k := List(l)], row[k + "@" := Join(Strings(l), ',')])
  {
    var f0 := k + "@";
    assert f0[..|f0| - 1] == k;
    var e', row' := e[k := List(l)], row[f0 := Join(Strings(l), ',')];
    forall f | f in row' ensures Writes(e', f, row'[f]) { if f != f0 { assert Writes(e, f, row[f]); } }
    forall f, v | Writes(e', f, v) ensures f in row' {
      if EndsAt(f) && f[..|f| - 1] == k { assert f == f[..|f| - 1] + "@"; }
      else { assert Writes(e, f, v); }
    }
  }

  lemma EncodeOther(e: Map, row: Row, k: string, v: Json)
    requires Encodes(e, row) && k !in e && !v.Str? && !v.List?
    ensures Encodes(e[k := v], row)
  {
    var e' := e[k := v];
    forall f | f in row ensures Writes(e', f, row[f]) { assert Writes(e, f, row[f]); }
    forall f, w | Writes(e', f, w) ensures f in row { assert Writes(e, f, w); }
  }

  method MakeJson(row: Row) returns (e: Map)
    ensures Decodes(row, e)
  {
    e := map[];
    var todo := row.Keys;
    ghost var done: Row := map[];
    while todo != {}
      invariant todo <= row.Keys && done.Keys == row.Keys - todo
      invariant forall f :: f in done ==> done[f] == row[f]
      invariant Decodes(done, e)
    {
      var f :| f in todo;
      todo := todo - {f};
      ghost var before, read := done, e;
      done := done[f := row[f]];
      if f == "NULL" {
        DecodeNull(before, read, row[f]);
      } else if |f| > 0 && f[|f| - 1] == '@' {
        var k := f[..|f| - 1];
        e := e[k := List(Wrap(Split(row[f], ',')))];
        assert f == k + "@";
        DecodeList(before, read, k, row[f]);
      } else {
        e := e[f := Str(row[f])];
        DecodeStr(before, read, f, row[f]);
      }
    }
    assert done == row;
  }

  lemma DecodeNull(row: Row, e: Map, v: string)
    requires Decodes(row, e) && "NULL" !in row
    ensures Decodes(row["NULL" := v], e)
  {
    var row' := row["NULL" := v];
    forall k ensures k + "@" != "NULL" { assert (k + "@")[|k|] == '@'; }
    forall k | k in e ensures Reads(row', k, e[k]) { assert Reads(row, k, e[k]); }
    forall k, w | Reads(row', k, w) ensures k in e { assert Reads(row, k, w); }
  }

  lemma DecodeList(row: Row, e: Map, k: string, v: string)
    requires Decodes(row, e) && k + "@" !in row
    ensures Decodes(row[k + "@" := v], e[k := List(Wrap(Split(v, ',')))])
  {
    var row', e' := row[k + "@" := v], e[k := List(Wrap(Split(v, ',')))];
    assert EndsAt(k + "@");
    forall x | x + "@" == k + "@" ensures x == k { assert x == (x + "@")[..|x|] && k == (k + "@")[..|k|]; }
    forall x | x in e' ensures Reads(row', x, e'[x]) { if x != k { assert Reads(row, x, e[x]); } }
    forall x, w | Reads(row', x, w) ensures x in e' { if x != k { assert Reads(row, x, w); } }
  }

  lemma DecodeStr(row: Row, e: Map, f: string, v: string)
    requires Decodes(row, e) && f !in row && f != "NULL" && !EndsAt(f)
    ensures Decodes(row[f := v], e[f := Str(v)])
  {
    var row', e' := row[f := v], e[f := Str(v)];
    forall x ensures x + "@" != f { assert EndsAt(x + "@"); }
    forall x | x in e' ensures Reads(row', x, e'[x]) { if x != f { assert Reads(row, x, e[x]); } }
    forall x, w | Reads(row', x, w) ensures x in e' { if x != f { assert Reads(row, x, w); } }
  }

  // ---------- The round trip ----------

  predicate GoodItem(j: Json) { j.Str? && CommaFree(j.s) }

  /** A field that survives: a string under an ordinary name, or a non-empty list of strings
      without commas. */
  predicate Survives(k: string, v: Json) {
    match v
    case Str(_) => k != "NULL" && !EndsAt(k)
    case List(l) => l != [] && forall i :: 0 <= i < |l| ==> GoodItem(l[i])
    case _ => false
  }

  predicate WellFormed(e: Map) { forall k :: k in e ==> Survives(k, e[k]) }

  lemma {:induction false} StringsOfGood(l: seq<Json>)
    requires forall i :: 0 <= i < |l| ==> GoodItem(l[i])
    ensures Wrap(Strings(l)) == l && forall s :: s in Strings(l) ==> CommaFree(s)
  {
    if l != [] {
      var n := |l| - 1;
      StringsOfGood(l[..n]);
      assert l == l[..n] + [l[n]];
      assert GoodItem(l[n]);
    }
  }

  lemma ListRoundTrip(l: seq<Json>)
    requires l != [] && forall i :: 0 <= i < |l| ==> GoodItem(l[i])
    ensures Wrap(Split(Join(Strings(l), ','), ',')) == l
  {
    StringsOfGood(l);
    SplitJoin(Strings(l), ',');
  }

  /** What a decoded field looks like. */
  lemma ReadsSurvives(row: Row, k: string, v: Json)
    requires Reads(row, k, v)
    ensures Survives(k, v)
  {
    if v.List? {
      var l := Split(row[k + "@"], ',');
      forall i | 0 <= i < |v.items| ensures GoodItem(v.items[i]) { SplitPieces(row[k + "@"], ',', i); }
    }
  }

  lemma SameField(e: Map, row: Row, k: string, v: Json)
    requires WellFormed(e) && Encodes(e, row)
    ensures Reads(row, k, v) <==> k in e && e[k] == v
  {
    var f := k + "@";
    assert EndsAt(f) && f[..|f| - 1] == k;
    if k in e && e[k].Str? {
      assert Writes(e, k, e[k].s);
    }
    if k in e && e[k].List? {
      assert Writes(e, f, Join(Strings(e[k].items), ','));
      ListRoundTrip(e[k].items);
    }
    if k in row { assert Writes(e, k, row[k]); }
    if f in row { assert Writes(e, f, row[f]); }
    if f in e { assert Survives(f, e[f]); }
    if k in e { assert Survives(k, e[k]); }
  }

  /** Encoding and decoding, each in whatever order, gives the entry back exactly when each of
      its fields survives. */
  lemma RoundTrip(e: Map, row: Row, back: Map)
    requires Encodes(e, row) && Decodes(row, back)
    ensures back == e <==> WellFormed(e)
  {
    if WellFormed(e) {
      forall k ensures (k in back <==> k in e) && (k in e ==> back[k] == e[k]) {
        if k in back { assert Reads(row, k, back[k]); SameField(e, row, k, back[k]); }
        if k in e { SameField(e, row, k, e[k]); assert Reads(row, k, e[k]); }
      }
    } else if back == e {
      forall k | k in e ensures Survives(k, e[k]) { ReadsSurvives(row, k, back[k]); }
    }
  }
}
