/** A configuration document edited by path: tables of entries of fields, where a field is a
    string or a list. */
module JsonDocument {
  import opened Options
  import opened Words

  datatype Json = Str(s: string) | List(items: seq<Json>) | Obj(fields: map<string, Json>) | Other(text: string)

  type Map = map<string, Json>

  // ---------- Paths ----------

  /** Replaces each "~1" by "/", from left to right. */
  function Unescape(s: string): string {
    if |s| < 2 then s
    else if s[0] == '~' && s[1] == '1' then "/" + Unescape(s[2..])
    else [s[0]] + Unescape(s[1..])
  }

  /** The usual escaping of a name: each slash becomes "~1". */
  function Escape(s: string): string {
    if s == [] then [] else (if s[0] == '/' then "~1" else [s[0]]) + Escape(s[1..])
  }

  /** A name without escapes of its own is read back from its escaped form. */
  lemma {:induction false} UnescapeEscape(s: string)
    requires !Escaped(s)
    ensures Unescape(Escape(s)) == s
  {
    if s != [] {
      assert !Escaped(s[1..]) by {
        forall i | 0 <= i < |s[1..]| - 1 ensures !(s[1..][i] == '~' && s[1..][i + 1] == '1') { assert !(s[i + 1] == '~' && s[i + 2] == '1'); }
      }
      UnescapeEscape(s[1..]);
      var rest := Escape(s[1..]);
      if s[0] == '/' {
        assert Escape(s)[2..] == rest;
      } else {
        assert Escape(s)[1..] == rest;
        if s[0] == '~' && |s| > 1 { assert !(s[0] == '~' && s[0 + 1] == '1'); }
      }
      assert s == [s[0]] + s[1..];
    }
  }

  predicate Escaped(s: string) {
    exists i :: 0 <= i < |s| - 1 && s[i] == '~' && s[i + 1] == '1'
  }

  /** An unescaped string starts with a '1' only if the string did. */
  lemma {:induction false} UnescapeFirst(s: string)
    ensures s == [] <==> Unescape(s) == []
    ensures s != [] && Unescape(s)[0] == '1' ==> s[0] == '1'
  {
  }

  lemma {:induction false} UnescapeClean(s: string)
    ensures !Escaped(Unescape(s))
  {
    if |s| >= 2 {
      var rest := if s[0] == '~' && s[1] == '1' then s[2..] else s[1..];
      UnescapeClean(rest);
      UnescapeFirst(rest);
      var u := Unescape(s);
      assert u[1..] == Unescape(rest);
      forall i | 0 <= i < |u| - 1 ensures !(u[i] == '~' && u[i + 1] == '1') {
        if i > 0 { assert u[i] == Unescape(rest)[i - 1] && u[i + 1] == Unescape(rest)[i]; }
      }
    }
  }

  lemma {:induction false} UnescapeFixes(s: string)
    requires !Escaped(s)
    ensures Unescape(s) == s
  {
    if |s| >= 2 {
      assert !(s[0] == '~' && s[0 + 1] == '1');
      forall i | 0 <= i < |s[1..]| - 1 ensures !(s[1..][i] == '~' && s[1..][i + 1] == '1') {
        assert !(s[i + 1] == '~' && s[i + 2] == '1');
      }
      UnescapeFixes(s[1..]);
    }
  }

  /** The entry name of a path is unescaped; doing so again changes nothing. */
  function Fix(path: seq<string>): seq<string> {
    if |path| >= 2 then path[1 := Unescape(path[1])] else path
  }

  lemma FixIdempotent(path: seq<string>)
    ensures Fix(Fix(path)) == Fix(path)
  {
    if |path| >= 2 {
      UnescapeClean(path[1]);
      UnescapeFixes(Unescape(path[1]));
    }
  }

  // ---------- Indices ----------

  predicate Digits(s: string) {
    forall c :: c in s ==> '0' <= c <= '9'
  }

  function DigitValue(c: char): nat {
    if '0' <= c <= '9' then (c - '0') as nat else 0
  }

  function Number(s: string): nat {
    if s == [] then 0 else Number(s[..|s| - 1]) * 10 + DigitValue(s[|s| - 1])
  }

  /** A decimal number with an optional sign, within 64 bits. */
  function Atoi(s: string): Option<int> {
    var signed := s != [] && (s[0] == '+' || s[0] == '-');
    var body := if signed then s[1..] else s;
    if body == [] || !Digits(body) then None
    else
      var n: int := if s[0] == '-' then -(Number(body) as int) else Number(body);
      if -MAX_INT - 1 <= n <= MAX_INT then Some(n) else None
  }

  const DIGITS := "0123456789"

  /** The usual text of a number. */
  function Decimal(n: nat): string {
    if n < 10 then [DIGITS[n]] else Decimal(n / 10) + [DIGITS[n % 10]]
  }

  lemma DigitIs(i: nat)
    requires i < 10
    ensures '0' <= DIGITS[i] <= '9' && DigitValue(DIGITS[i]) == i
  {
  }

  lemma {:induction false} DecimalIs(n: nat)
    ensures Decimal(n) != [] && Digits(Decimal(n)) && Number(Decimal(n)) == n
  {
    if n < 10 {
      DigitIs(n);
      assert Decimal(n)[..0] == [];
    } else {
      DecimalIs(n / 10);
      DigitIs(n % 10);
      assert Decimal(n)[..|Decimal(n)| - 1] == Decimal(n / 10);
    }
  }

  /** A text means the number it is the text of, if that fits; a sign in front is heeded. */
  lemma AtoiDecimal(n: nat)
    ensures Atoi(Decimal(n)) == Atoi("+" + Decimal(n)) == if n <= MAX_INT then Some(n) else None
    ensures Atoi("-" + Decimal(n)) == if n <= MAX_INT + 1 then Some(-(n as int)) else None
  {
    DecimalIs(n);
    assert Decimal(n)[0] in Decimal(n);
    assert ("+" + Decimal(n))[1..] == Decimal(n) && ("-" + Decimal(n))[1..] == Decimal(n);
  }

  function Zeros(k: nat): string { seq(k, _ => '0') }

  lemma {:induction false} ZerosFirst(k: nat, s: string)
    ensures Number(Zeros(k) + s) == Number(s)
    decreases |s|, k
  {
    var z := Zeros(k) + s;
    if s != [] {
      ZerosFirst(k, s[..|s| - 1]);
      assert z[..|z| - 1] == Zeros(k) + s[..|s| - 1];
    } else if k > 0 {
      ZerosFirst(k - 1, []);
      assert z[..|z| - 1] == Zeros(k - 1) + [];
    }
  }

  /** Leading zeros make no difference. */
  lemma AtoiZeros(k: nat, n: nat)
    ensures Atoi(Zeros(k) + Decimal(n)) == Atoi(Decimal(n))
  {
    DecimalIs(n);
    ZerosFirst(k, Decimal(n));
    var s := Zeros(k) + Decimal(n);
    assert Digits(s) && s[0] in s && Decimal(n)[0] in Decimal(n);
  }

  /** Anything but digits after an optional sign is no number. */
  lemma AtoiRefuses(s: string, i: nat)
    requires i < |s| && !('0' <= s[i] <= '9') && (i > 0 || (s[0] != '+' && s[0] != '-'))
    ensures Atoi(s) == None
  {
    if s[0] == '+' || s[0] == '-' { assert s[1..][i - 1] in s[1..]; } else { assert s[i] in s; }
  }

  // ---------- Looking things up ----------

  /** The object stored under a name. */
  function Child(m: Map, name: string): Option<Map> {
    if name in m && m[name].Obj? then Some(m[name].fields) else None
  }

  /** The string or list stored under a name. */
  function Field(m: Map, name: string): Option<Json> {
    if name in m && (m[name].Str? || m[name].List?) then Some(m[name]) else None
  }

  function Entry(doc: Map, t: string, e: string): Option<Map> {
    match Child(doc, t) case Some(table) => Child(table, e) case None => None
  }

  function FieldAt(doc: Map, t: string, e: string, f: string): Option<Json> {
    match Entry(doc, t, e) case Some(entry) => Field(entry, f) case None => None
  }

  /** The string at an index of a list. */
  function Item(list: seq<Json>, index: string): Option<int> {
    match Atoi(index)
    case Some(id) => if 0 <= id < |list| && list[id].Str? then Some(id) else None
    case None => None
  }

  function Get(doc: Map, path: seq<string>): Option<Json> {
    var p := Fix(path);
    if |p| == 0 then Some(Obj(doc))
    else if |p| == 1 then match Child(doc, p[0]) case Some(t) => Some(Obj(t)) case None => None
    else if |p| == 2 then match Entry(doc, p[0], p[1]) case Some(e) => Some(Obj(e)) case None => None
    else if |p| == 3 then FieldAt(doc, p[0], p[1], p[2])
    else if |p| == 4 then
      match FieldAt(doc, p[0], p[1], p[2])
      case Some(List(l)) => (match Item(l, p[3]) case Some(id) => Some(l[id]) case None => None)
      case _ => None
    else None
  }

  // ---------- Removing ----------

  /** Stores an object, or drops its name when it has become empty. */
  function Store(m: Map, name: string, child: Map): Map {
    if child == map[] then m - {name} else m[name := Obj(child)]
  }

  function StoreEntry(doc: Map, table: Map, t: string, e: string, entry: Map): Map {
    Store(doc, t, Store(table, e, entry))
  }

  function RemoveAt(list: seq<Json>, id: nat): seq<Json>
    requires id < |list|
  {
    list[..id] + list[id + 1..]
  }

  /** Removes what the path names and whatever becomes empty by that; fails, changing nothing,
      when it is not there. */
  function Remove(doc: Map, path: seq<string>): Option<Map> {
    var p := Fix(path);
    if |p| == 1 then
      if Child(doc, p[0]).Some? then Some(doc - {p[0]}) else None
    else if |p| < 1 || |p| > 4 then None
    else match Child(doc, p[0])
      case None => None
      case Some(table) =>
        match Child(table, p[1])
        case None => None
        case Some(entry) =>
          if |p| == 2 then Some(Store(doc, p[0], table - {p[1]}))
          else match Field(entry, p[2])
            case None => None
            case Some(field) =>
              if |p| == 3 then Some(StoreEntry(doc, table, p[0], p[1], entry - {p[2]}))
              else if field.Str? then None
              else match Item(field.items, p[3])
                case None => None
                case Some(id) =>
                  var list := RemoveAt(field.items, id);
                  Some(StoreEntry(doc, table, p[0], p[1], if list == [] then entry - {p[2]} else entry[p[2] := List(list)]))
  }

  // ---------- Adding ----------

  function ChildOrNew(m: Map, name: string): Map {
    match Child(m, name) case Some(c) => c case None => map[]
  }

  /** The document with a table, and with an entry in it, made where they are missing. */
  function WithTable(doc: Map, t: string): Map { doc[t := Obj(ChildOrNew(doc, t))] }

  function PutEntry(doc: Map, t: string, e: string, entry: Map): Map {
    doc[t := Obj(ChildOrNew(doc, t)[e := Obj(entry)])]
  }

  function WithEntry(doc: Map, t: string, e: string): Map {
    PutEntry(doc, t, e, ChildOrNew(ChildOrNew(doc, t), e))
  }

  function PutField(doc: Map, t: string, e: string, f: string, v: Json): Map {
    PutEntry(doc, t, e, ChildOrNew(ChildOrNew(doc, t), e)[f := v])
  }

  /** The list after making room at `id`: the element there is doubled, or an empty string
      appended. */
  function MakeRoom(list: seq<Json>, id: nat): seq<Json>
    requires id <= |list|
  {
    if id == |list| then list + [Str("")] else list[..id + 1] + list[id..]
  }

  function ListOf(field: Option<Json>): seq<Json> {
    if field.Some? && field.value.List? then field.value.items else []
  }

  /** Adds a value, which is `None` when it cannot be parsed. A failed addition may have made a
      table, an entry or a list, or room in a list, by then. */
  function Add(doc: Map, path: seq<string>, value: Option<Json>): (Map, bool) {
    var p := Fix(path);
    if |p| == 1 then
      if value.Some? && value.value.Obj? then (doc[p[0] := value.value], true) else (doc, false)
    else if |p| == 2 then
      if value.Some? && value.value.Obj? then (PutEntry(doc, p[0], p[1], value.value.fields), true)
      else (WithTable(doc, p[0]), false)
    else if |p| == 3 then
      if value.Some? && (value.value.Str? || value.value.List?) then (PutField(doc, p[0], p[1], p[2], value.value), true)
      else (WithEntry(doc, p[0], p[1]), false)
    else if |p| == 4 then
      match Atoi(p[3])
      case None => (doc, false)
      case Some(id) =>
        var field := FieldAt(doc, p[0], p[1], p[2]);
        if field.Some? && field.value.Str? then (WithEntry(doc, p[0], p[1]), false)
        else
          var list := ListOf(field);
          if id < 0 || id > |list| then (PutField(doc, p[0], p[1], p[2], List(list)), false)
          else
            var room := MakeRoom(list, id);
            match value
            case None => (PutField(doc, p[0], p[1], p[2], List(room)), false)
            case Some(v) => (PutField(doc, p[0], p[1], p[2], List(room[id := v])), true)
    else (doc, false)
  }

  /** A replacement removes and then adds. */
  function Replace(doc: Map, path: seq<string>, value: Option<Json>): (Map, bool) {
    match Remove(doc, path)
    case None => (doc, false)
    case Some(d) => Add(d, path, value)
  }

  // ---------- Which edits succeed ----------

  /** Names are escaped in paths: the second part of every path is read unescaped, the others as
      they are. */
  lemma EscapedPath(path: seq<string>)
    requires |path| >= 2 && !Escaped(path[1])
    ensures Fix(path[1 := Escape(path[1])]) == path == Fix(path)
  {
    UnescapeEscape(path[1]);
    UnescapeFixes(path[1]);
    assert path[1 := Escape(path[1])][1 := path[1]] == path;
  }

  /** A removal succeeds exactly when there is something at the path, which is not the document. */
  lemma RemoveIff(doc: Map, path: seq<string>)
    ensures Remove(doc, path).Some? <==> path != [] && Get(doc, path).Some?
  {
  }

  function Count(field: Option<Json>): nat { if field.Some? && field.value.List? then |field.value.items| else 0 }

  /** An addition succeeds exactly when there is a value of the sort the path takes, and an index is
      a number within the list, or just behind it, and not of a string. */
  lemma AddIff(doc: Map, path: seq<string>, value: Option<Json>)
    ensures var p := Fix(path);
            Add(doc, path, value).1 <==>
            value.Some? &&
            if |path| == 1 || |path| == 2 then value.value.Obj?
            else if |path| == 3 then value.value.Str? || value.value.List?
            else
              |path| == 4 && Atoi(p[3]).Some?
              && var field := FieldAt(doc, p[0], p[1], p[2]);
              !(field.Some? && field.value.Str?) && 0 <= Atoi(p[3]).value <= Count(field)
  {
  }
}
