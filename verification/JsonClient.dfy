/** The client that holds a document and edits it in place. */
module JsonClient {
  import opened Options
  import opened JsonDocument

  /** Unescapes the entry name in the caller's own path. */
  method FixPath(path: array<string>)
    modifies path
    ensures path[..] == Fix(old(path[..]))
  {
    if path.Length >= 2 {
      path[1] := Unescape(path[1]);
    }
  }

  /** Moves the items from `id` on up by one within the array, all at once. */
  method OpenGap(a: array<Json>, n: nat, id: nat)
    requires id <= n < a.Length && a[n] == Str("")
    modifies a
    ensures a[..n + 1] == MakeRoom(old(a[..n]), id)
  {
    ghost var b := a[..n];
    forall i | id < i <= n { a[i] := a[i - 1]; }
    if id == n { assert a[..n + 1] == b + [Str("")]; } else { assert a[..n + 1] == b[..id + 1] + b[id..]; }
  }

  /** Moves the items after `id` down by one within the array, all at once. */
  method CloseGap(a: array<Json>, n: nat, id: nat)
    requires id < n <= a.Length
    modifies a
    ensures a[..n - 1] == RemoveAt(old(a[..n]), id)
  {
    ghost var b := a[..n];
    forall i | id <= i < n - 1 { a[i] := a[i + 1]; }
    assert a[..n - 1] == b[..id] + b[id + 1..];
  }

  method WithRoom(list: seq<Json>, id: nat) returns (l: seq<Json>)
    requires id <= |list|
    ensures l == MakeRoom(list, id)
  {
    var a := new Json[|list| + 1](i requires 0 <= i <= |list| => if i < |list| then list[i] else Str(""));
    assert a[..|list|] == list;
    OpenGap(a, |list|, id);
    l := a[..|list| + 1];
  }

  method WithoutItem(list: seq<Json>, id: nat) returns (l: seq<Json>)
    requires id < |list|
    ensures l == RemoveAt(list, id)
  {
    var a := new Json[|list|](i requires 0 <= i < |list| => list[i]);
    assert a[..|list|] == list;
    CloseGap(a, |list|, id);
    l := a[..|list| - 1];
  }

  /** Stores an object, and drops it again if it is empty. */
  method PutOrDrop(m: Map, name: string, child: Map) returns (r: Map)
    ensures r == Store(m, name, child)
  {
    r := m[name := Obj(child)];
    if |child| == 0 {
      r := r - {name};
      assert r == m - {name};
    }
  }

  class Client {
    var doc: Map

    constructor (doc: Map)
      ensures this.doc == doc
    {
      this.doc := doc;
    }

    method GetPath(path: array<string>) returns (v: Option<Json>)
      modifies path
      ensures v == Get(doc, old(path[..]))
    {
      FixPath(path);
      if path.Length == 0 {
        return Some(Obj(doc));
      }
      if path.Length > 4 {
        return None;
      }
      var table := Child(doc, path[0]);
      if table.None? || path.Length == 1 {
        return if table.None? then None else Some(Obj(table.value));
      }
      var entry := Child(table.value, path[1]);
      if entry.None? || path.Length == 2 {
        return if entry.None? then None else Some(Obj(entry.value));
      }
      var field := Field(entry.value, path[2]);
      if field.None? || path.Length == 3 {
        return field;
      }
      if field.value.Str? {
        return None;
      }
      var id := Item(field.value.items, path[3]);
      return if id.None? then None else Some(field.value.items[id.value]);
    }

    /** Stores a changed entry, dropping the entry and the table when they are empty. */
    method Prune(t: string, table: Map, e: string, entry: Map)
      modifies this
      ensures doc == StoreEntry(old(doc), table, t, e, entry)
    {
      var tbl := PutOrDrop(table, e, entry);
      doc := PutOrDrop(doc, t, tbl);
    }

    method RemovePath(path: array<string>) returns (ok: bool)
      modifies this, path
      ensures path[..] == Fix(old(path[..]))
      ensures ok <==> Remove(old(doc), old(path[..])).Some?
      ensures doc == if ok then Remove(old(doc), old(path[..])).value else old(doc)
    {
      FixPath(path);
      if path.Length < 1 || path.Length > 4 {
        return false;
      }
      var table := Child(doc, path[0]);
      if table.None? {
        return false;
      }
      if path.Length == 1 {
        doc := doc - {path[0]};
        return true;
      }
      var entry := Child(table.value, path[1]);
      if entry.None? {
        return false;
      }
      if path.Length == 2 {
        doc := PutOrDrop(doc, path[0], table.value - {path[1]});
        return true;
      }
      var field := Field(entry.value, path[2]);
      if field.None? {
        return false;
      }
      if path.Length == 3 {
        Prune(path[0], table.value, path[1], entry.value - {path[2]});
        return true;
      }
      if field.value.Str? {
        return false;
      }
      var id := Item(field.value.items, path[3]);
      if id.None? {
        return false;
      }
      var list := WithoutItem(field.value.items, id.value);
      var ent := entry.value[path[2] := List(list)];
      if |list| == 0 {
        ent := ent - {path[2]};
        assert ent == entry.value - {path[2]};
      }
      Prune(path[0], table.value, path[1], ent);
      ok := true;
    }

    /** Makes the table and the entry where they are missing. */
    method Ensure(t: string, e: string) returns (table: Map, entry: Map)
      modifies this
      ensures table == ChildOrNew(old(doc), t) && entry == ChildOrNew(table, e)
      ensures doc == WithEntry(old(doc), t, e)
    {
      table := ChildOrNew(doc, t);
      entry := ChildOrNew(table, e);
      doc := doc[t := Obj(table[e := Obj(entry)])];
    }

    method AddPath(path: array<string>, value: Option<Json>) returns (ok: bool)
      modifies this, path
      ensures path[..] == Fix(old(path[..]))
      ensures (doc, ok) == Add(old(doc), old(path[..]), value)
    {
      FixPath(path);
      if path.Length == 1 {
        if value.None? || !value.value.Obj? {
          return false;
        }
        doc := doc[path[0] := value.value];
        return true;
      }
      if path.Length == 2 {
        var table := ChildOrNew(doc, path[0]);
        doc := doc[path[0] := Obj(table)];
        if value.None? || !value.value.Obj? {
          return false;
        }
        doc := doc[path[0] := Obj(table[path[1] := value.value])];
        assert doc == PutEntry(old(doc), path[0], path[1], value.value.fields);
        return true;
      }
      if path.Length == 3 {
        var table, entry := Ensure(path[0], path[1]);
        if value.None? || !(value.value.Str? || value.value.List?) {
          return false;
        }
        doc := doc[path[0] := Obj(table[path[1] := Obj(entry[path[2] := value.value])])];
        assert doc == PutField(old(doc), path[0], path[1], path[2], value.value);
        return true;
      }
      if path.Length == 4 {
        ok := AddItem(path[0], path[1], path[2], path[3], value, old(path[..]));
        return;
      }
      ok := false;
    }

    /** Makes room in the list, also when the value then turns out bad. */
    method AddItem(t: string, e: string, f: string, index: string, value: Option<Json>, ghost path: seq<string>) returns (ok: bool)
      requires |path| == 4 && Fix(path) == [t, e, f, index]
      modifies this
      ensures (doc, ok) == Add(old(doc), path, value)
    {
      var id := Atoi(index);
      if id.None? {
        return false;
      }
      var table, entry := Ensure(t, e);
      var field := Field(entry, f);
      assert field == FieldAt(old(doc), t, e, f);
      if field.Some? && field.value.Str? {
        return false;
      }
      var list := if field.Some? then field.value.items else [];
      doc := doc[t := Obj(table[e := Obj(entry[f := List(list)])])];
      assert doc == PutField(old(doc), t, e, f, List(list));
      if id.value < 0 || id.value > |list| {
        return false;
      }
      list := WithRoom(list, id.value);
      doc := doc[t := Obj(table[e := Obj(entry[f := List(list)])])];
      assert doc == PutField(old(doc), t, e, f, List(list));
      if value.None? {
        return false;
      }
      list := list[id.value := value.value];
      doc := doc[t := Obj(table[e := Obj(entry[f := List(list)])])];
      assert doc == PutField(old(doc), t, e, f, List(list));
      ok := true;
    }

    /** Removes, then adds along the path that the removal has already unescaped. */
    method ReplacePath(path: array<string>, value: Option<Json>) returns (ok: bool)
      modifies this, path
      ensures (doc, ok) == Replace(old(doc), old(path[..]), value)
    {
      FixIdempotent(path[..]);
      ok := RemovePath(path);
      if !ok {
        return;
      }
      ok := AddPath(path, value);
    }
  }
}
