/** What the editing operations keep and undo. */
module JsonTheorems {
  import opened Options
  import opened JsonDocument

  // ---------- Pruning and rebuilding ----------

  lemma PutBack(m: Map, name: string, v: Json)
    ensures (m - {name})[name := v] == m[name := v]
    ensures m - {name} == map[] ==> map[name := v] == m[name := v]
  {
    if m - {name} == map[] {
      forall k | k in m ensures k == name { assert k == name || k in m - {name}; }
    }
  }

  /** Storing an entry that may have been pruned away, then putting fields into it again,
      replaces the entry and nothing else. */
  lemma Rebuild(doc: Map, t: string, e: string, table: Map, entry': Map, entry'': Map)
    requires Child(doc, t) == Some(table)
    ensures PutEntry(StoreEntry(doc, table, t, e, entry'), t, e, entry'') == doc[t := Obj(table[e := Obj(entry'')])]
  {
    var table' := Store(table, e, entry');
    var doc' := Store(doc, t, table');
    PutBack(doc, t, Obj(table[e := Obj(entry'')]));
    PutBack(table, e, Obj(entry''));
    assert ChildOrNew(doc', t) == table';
    assert table'[e := Obj(entry'')] == table[e := Obj(entry'')];
    assert doc'[t := Obj(table[e := Obj(entry'')])] == doc[t := Obj(table[e := Obj(entry'')])];
  }

  /** What is left of the entry in a document it was stored into. */
  lemma StoredEntry(doc: Map, t: string, e: string, table: Map, entry': Map)
    requires Child(doc, t) == Some(table)
    ensures ChildOrNew(ChildOrNew(StoreEntry(doc, table, t, e, entry'), t), e) == entry'
  {
  }

  // ---------- Replacing ----------

  /** The document with one field set: a pointwise update. */
  function SetField(doc: Map, t: string, e: string, f: string, v: Json): Map
    requires Entry(doc, t, e).Some?
  {
    var table := Child(doc, t).value;
    doc[t := Obj(table[e := Obj(Child(table, e).value[f := v])])]
  }

  /** Replacing an existing field by a string or a list sets that field and changes nothing
      else, also when removing it empties its entry and table. */
  lemma ReplaceField(doc: Map, path: seq<string>, v: Json)
    requires |path| == 3 && (v.Str? || v.List?)
    requires var p := Fix(path);
             FieldAt(doc, p[0], p[1], p[2]).Some?
    ensures var p := Fix(path);
            Replace(doc, path, Some(v)) == (SetField(doc, p[0], p[1], p[2], v), true)
  {
    var p := Fix(path);
    var table := Child(doc, p[0]).value;
    var entry := Child(table, p[1]).value;
    var entry' := entry - {p[2]};
    StoredEntry(doc, p[0], p[1], table, entry');
    Rebuild(doc, p[0], p[1], table, entry', entry'[p[2] := v]);
    PutBack(entry, p[2], v);
  }

  /** Replacing an existing string item of a list sets that item and changes nothing else, also
      when the list held only that item. */
  lemma ReplaceItem(doc: Map, path: seq<string>, v: Json)
    requires |path| == 4
    requires var p := Fix(path);
             var field := FieldAt(doc, p[0], p[1], p[2]);
             field.Some? && field.value.List? && Item(field.value.items, p[3]).Some?
    ensures var p := Fix(path);
            var list := FieldAt(doc, p[0], p[1], p[2]).value.items;
            Replace(doc, path, Some(v)) == (SetField(doc, p[0], p[1], p[2], List(list[Item(list, p[3]).value := v])), true)
  {
    var p := Fix(path);
    var table := Child(doc, p[0]).value;
    var entry := Child(table, p[1]).value;
    var list := entry[p[2]].items;
    var id := Item(list, p[3]).value;
    var list' := RemoveAt(list, id);
    var entry' := if list' == [] then entry - {p[2]} else entry[p[2] := List(list')];
    var d := StoreEntry(doc, table, p[0], p[1], entry');
    StoredEntry(doc, p[0], p[1], table, entry');
    assert Remove(doc, path) == Some(d);
    StoredField(d, p[0], p[1], p[2], entry');
    assert ListOf(FieldAt(d, p[0], p[1], p[2])) == list';
    RoomForItem(list, id, v);
    var list'' := list[id := v];
    assert Atoi(p[3]) == Some(id) && id <= |list'|;
    assert Add(d, path, Some(v)) == (PutField(d, p[0], p[1], p[2], List(list'')), true);
    PutBack(entry, p[2], List(list''));
    assert entry'[p[2] := List(list'')] == entry[p[2] := List(list'')];
    Rebuild(doc, p[0], p[1], table, entry', entry'[p[2] := List(list'')]);
  }

  lemma StoredField(d: Map, t: string, e: string, f: string, entry: Map)
    requires ChildOrNew(ChildOrNew(d, t), e) == entry
    ensures FieldAt(d, t, e, f) == Field(entry, f)
  {
  }

  /** Taking an item out and making room for another puts it in its place. */
  lemma RoomForItem(list: seq<Json>, id: nat, v: Json)
    requires id < |list|
    ensures MakeRoom(RemoveAt(list, id), id)[id := v] == list[id := v]
  {
  }

  /** Replacing a table or an entry by an object sets it and changes nothing else. */
  lemma ReplaceTable(doc: Map, path: seq<string>, v: Json)
    requires |path| == 1 && v.Obj? && Get(doc, path).Some?
    ensures Replace(doc, path, Some(v)) == (doc[path[0] := v], true)
  {
    PutBack(doc, path[0], v);
  }

  lemma ReplaceEntry(doc: Map, path: seq<string>, v: Json)
    requires |path| == 2 && v.Obj? && Get(doc, path).Some?
    ensures var p := Fix(path);
            Replace(doc, path, Some(v)) == (doc[p[0] := Obj(Child(doc, p[0]).value[p[1] := v])], true)
  {
    var p := Fix(path);
    var table := Child(doc, p[0]).value;
    var d := Store(doc, p[0], table - {p[1]});
    PutBack(table, p[1], v);
    PutBack(doc, p[0], Obj(table[p[1] := v]));
    assert ChildOrNew(d, p[0]) == table - {p[1]};
    assert d[p[0] := Obj(table[p[1] := v])] == doc[p[0] := Obj(table[p[1] := v])];
  }

  /** Reading back what was put there; an item is read back if it is a string. */
  lemma GetAfterReplace(doc: Map, path: seq<string>, v: Json)
    requires path != [] && Get(doc, path).Some? && FitsPath(|path|, Some(v))
    ensures Replace(doc, path, Some(v)).1
    ensures Get(Replace(doc, path, Some(v)).0, path) == if |path| == 4 && !v.Str? then None else Some(v)
  {
    if |path| == 1 { ReplaceTable(doc, path, v); }
    else if |path| == 2 { ReplaceEntry(doc, path, v); }
    else if |path| == 3 { ReplaceField(doc, path, v); }
    else { ReplaceItem(doc, path, v); }
  }

  // ---------- Replacements that fail ----------

  /** The values that fit a path of this length. */
  predicate FitsPath(n: nat, value: Option<Json>) {
    && value.Some?
    && (n <= 2 ==> value.value.Obj?)
    && (n == 3 ==> value.value.Str? || value.value.List?)
  }

  /** What takes the place of an item when its replacement fails: its neighbour once more, or an
      empty string at the end. */
  function StandIn(list: seq<Json>, id: nat): Json
    requires id < |list|
  {
    if id + 1 < |list| then list[id + 1] else Str("")
  }

  lemma RoomOfItem(list: seq<Json>, id: nat)
    requires id < |list|
    ensures MakeRoom(RemoveAt(list, id), id) == list[id := StandIn(list, id)]
  {
  }

  lemma FailedReplaceField(doc: Map, path: seq<string>, value: Option<Json>)
    requires |path| == 3 && Get(doc, path).Some? && !FitsPath(3, value)
    ensures !Replace(doc, path, value).1 && Get(Replace(doc, path, value).0, path).None?
  {
    var p := Fix(path);
    var table := Child(doc, p[0]).value;
    var entry' := Child(table, p[1]).value - {p[2]};
    var d := StoreEntry(doc, table, p[0], p[1], entry');
    StoredEntry(doc, p[0], p[1], table, entry');
    StoredField(WithEntry(d, p[0], p[1]), p[0], p[1], p[2], entry');
  }

  lemma FailedReplaceItem(doc: Map, path: seq<string>)
    requires |path| == 4 && Get(doc, path).Some?
    ensures var p := Fix(path);
            var list := FieldAt(doc, p[0], p[1], p[2]).value.items;
            var id := Item(list, p[3]).value;
            Replace(doc, path, None) == (SetField(doc, p[0], p[1], p[2], List(list[id := StandIn(list, id)])), false)
  {
    var p := Fix(path);
    var list := FieldAt(doc, p[0], p[1], p[2]).value.items;
    var id := Item(list, p[3]).value;
    var table := Child(doc, p[0]).value;
    var entry := Child(table, p[1]).value;
    var list' := RemoveAt(list, id);
    var entry' := if list' == [] then entry - {p[2]} else entry[p[2] := List(list')];
    var d := StoreEntry(doc, table, p[0], p[1], entry');
    StoredEntry(doc, p[0], p[1], table, entry');
    assert Remove(doc, path) == Some(d);
    StoredField(d, p[0], p[1], p[2], entry');
    assert ListOf(FieldAt(d, p[0], p[1], p[2])) == list';
    RoomOfItem(list, id);
    var list'' := list[id := StandIn(list, id)];
    assert Add(d, path, None) == (PutField(d, p[0], p[1], p[2], List(list'')), false);
    PutBack(entry, p[2], List(list''));
    assert entry'[p[2] := List(list'')] == entry[p[2] := List(list'')];
    Rebuild(doc, p[0], p[1], table, entry', entry'[p[2] := List(list'')]);
  }

  lemma SetFieldSame(doc: Map, t: string, e: string, f: string, v: Json)
    requires FieldAt(doc, t, e, f).Some?
    ensures SetField(doc, t, e, f, v) == doc <==> FieldAt(doc, t, e, f).value == v
  {
    var table := Child(doc, t).value;
    var entry := Child(table, e).value;
    if entry[f] == v {
      assert entry[f := v] == entry && table[e := Obj(entry)] == table && doc[t := Obj(table)] == doc;
    } else {
      assert SetField(doc, t, e, f, v)[t].fields[e].fields[f] == v;
    }
  }

  /** A replacement of something that is there succeeds exactly when the value fits. If it fails,
      a table, entry or field is lost, and an item gives way to its stand-in: the document is as
      it was exactly when it had an item like its stand-in there. */
  lemma FailedReplaceIff(doc: Map, path: seq<string>, value: Option<Json>)
    requires path != [] && Get(doc, path).Some?
    ensures var (d, ok) := Replace(doc, path, value);
            && (ok <==> FitsPath(|path|, value))
            && (!ok && |path| <= 3 ==> Get(d, path).None?)
            && (!ok ==> (d == doc <==> |path| == 4 && KeepsItem(doc, Fix(path))))
  {
    var p := Fix(path);
    var (d, ok) := Replace(doc, path, value);
    if |path| == 3 {
      if FitsPath(3, value) { ReplaceField(doc, path, value.value); } else { FailedReplaceField(doc, path, value); }
    } else if |path| == 4 {
      if value.Some? { ReplaceItem(doc, path, value.value); } else {
        FailedReplaceItem(doc, path);
        var list := FieldAt(doc, p[0], p[1], p[2]).value.items;
        var id := Item(list, p[3]).value;
        SetFieldSame(doc, p[0], p[1], p[2], List(list[id := StandIn(list, id)]));
        assert list[id := StandIn(list, id)] == list <==> list[id] == StandIn(list, id);
      }
    }
  }

  /** The item named is like its stand-in. */
  predicate KeepsItem(doc: Map, p: seq<string>) {
    && |p| == 4
    && match FieldAt(doc, p[0], p[1], p[2])
       case Some(List(l)) => Item(l, p[3]).Some? && l[Item(l, p[3]).value] == StandIn(l, Item(l, p[3]).value)
       case _ => false
  }

  /** In all other cases a replacement changes nothing. */
  lemma MissingReplace(doc: Map, path: seq<string>, value: Option<Json>)
    requires path == [] || Get(doc, path).None?
    ensures Replace(doc, path, value) == (doc, false)
  {
  }

  // ---------- Adding and removing a list item ----------

  /** Adding a string to a list and removing it again gives the document back exactly when the
      list was not empty; an empty list is pruned. */
  lemma AddThenRemove(doc: Map, path: seq<string>, s: string)
    requires |path| == 4
    requires var p := Fix(path);
             var field := FieldAt(doc, p[0], p[1], p[2]);
             field.Some? && field.value.List? && Atoi(p[3]).Some? && 0 <= Atoi(p[3]).value <= |field.value.items|
    ensures var p := Fix(path);
            var (d, ok) := Add(doc, path, Some(Str(s)));
            ok && Remove(d, path).Some?
            && (Remove(d, path).value == doc <==> FieldAt(doc, p[0], p[1], p[2]).value.items != [])
  {
    var p := Fix(path);
    var table := Child(doc, p[0]).value;
    var entry := Child(table, p[1]).value;
    var list := entry[p[2]].items;
    var id := Atoi(p[3]).value;
    var more := MakeRoom(list, id)[id := Str(s)];
    var d := PutField(doc, p[0], p[1], p[2], List(more));
    assert Add(doc, path, Some(Str(s))) == (d, true);
    assert RemoveAt(more, id) == list;
    var entry1 := entry[p[2] := List(more)];
    var table1 := table[p[1] := Obj(entry1)];
    assert d == doc[p[0] := Obj(table1)];
    if list == [] {
      var r := Remove(d, path).value;
      assert r == StoreEntry(d, table1, p[0], p[1], entry1 - {p[2]});
      StoredEntry(d, p[0], p[1], table1, entry1 - {p[2]});
      StoredField(r, p[0], p[1], p[2], entry1 - {p[2]});
    } else {
      assert entry1[p[2] := List(list)] == entry;
      assert table1[p[1] := Obj(entry)] == table;
      assert d[p[0] := Obj(table)] == doc;
      assert entry != map[] && table != map[];
    }
  }

  // ---------- Removing ----------

  /** The same except possibly under one name. */
  ghost predicate SameBut(m: Map, m': Map, name: string) {
    forall k :: k != name ==> (k in m' <==> k in m) && (k in m ==> m'[k] == m[k])
  }

  /** A removal leaves every other table, every other entry of the table, and every other field
      of the entry as it was, and takes away exactly what was named. */
  lemma RemoveFrame(doc: Map, path: seq<string>)
    requires Remove(doc, path).Some?
    ensures var p := Fix(path);
            var d := Remove(doc, path).value;
            && SameBut(doc, d, p[0])
            && (|p| >= 2 ==> SameBut(ChildOrNew(doc, p[0]), ChildOrNew(d, p[0]), p[1]))
            && (|p| >= 3 ==> SameBut(ChildOrNew(ChildOrNew(doc, p[0]), p[1]), ChildOrNew(ChildOrNew(d, p[0]), p[1]), p[2]))
            && (|p| <= 3 ==> Get(d, path) == None)
            && (|p| == 4 ==>
                  var list := FieldAt(doc, p[0], p[1], p[2]).value.items;
                  ListOf(FieldAt(d, p[0], p[1], p[2])) == RemoveAt(list, Item(list, p[3]).value))
  {
    var p := Fix(path);
    if |p| >= 2 {
      var table := Child(doc, p[0]).value;
      var entry := Child(table, p[1]).value;
      if |p| >= 3 {
        var entry' := if |p| == 3 then entry - {p[2]}
                      else
                        var list := entry[p[2]].items;
                        var list' := RemoveAt(list, Item(list, p[3]).value);
                        if list' == [] then entry - {p[2]} else entry[p[2] := List(list')];
        var d := StoreEntry(doc, table, p[0], p[1], entry');
        assert Remove(doc, path) == Some(d);
        StoredEntry(doc, p[0], p[1], table, entry');
        StoredField(d, p[0], p[1], p[2], entry');
      }
    }
  }

  predicate LeanField(v: Json) { v.List? ==> v.items != [] }

  predicate LeanEntry(v: Json) {
    v.Obj? ==> v.fields != map[] && forall f :: f in v.fields ==> LeanField(v.fields[f])
  }

  predicate LeanTable(v: Json) {
    v.Obj? ==> v.fields != map[] && forall e :: e in v.fields ==> LeanEntry(v.fields[e])
  }

  /** No empty table, entry or list anywhere. */
  predicate Lean(doc: Map) {
    forall t :: t in doc ==> LeanTable(doc[t])
  }

  lemma StoreEntryLean(doc: Map, t: string, e: string, table: Map, entry': Map)
    requires Lean(doc) && Child(doc, t) == Some(table)
    requires forall f :: f in entry' ==> LeanField(entry'[f])
    ensures Lean(StoreEntry(doc, table, t, e, entry'))
  {
    assert LeanTable(doc[t]);
    var table' := Store(table, e, entry');
    forall k | k in table' ensures LeanEntry(table'[k]) {
      if k != e { assert k in table; }
    }
  }

  /** A removal brings in no empty table, entry or list. */
  lemma RemoveKeepsLean(doc: Map, path: seq<string>)
    requires Lean(doc) && Remove(doc, path).Some?
    ensures Lean(Remove(doc, path).value)
  {
    var p := Fix(path);
    if |p| >= 2 {
      var table := Child(doc, p[0]).value;
      var entry := Child(table, p[1]).value;
      assert LeanTable(doc[p[0]]) && LeanEntry(table[p[1]]);
      if |p| == 2 {
        forall e | e in table - {p[1]} ensures LeanEntry(table[e]) { }
      } else if |p| == 3 {
        StoreEntryLean(doc, p[0], p[1], table, entry - {p[2]});
      } else {
        var list := entry[p[2]].items;
        var list' := RemoveAt(list, Item(list, p[3]).value);
        StoreEntryLean(doc, p[0], p[1], table, if list' == [] then entry - {p[2]} else entry[p[2] := List(list')]);
      }
    }
  }

  // ---------- Failed additions ----------

  /** A failing addition on this path leaves the document alone. */
  predicate FailsCleanly(doc: Map, path: seq<string>) {
    var p := Fix(path);
    if |p| == 2 then Child(doc, p[0]).Some?
    else if |p| == 3 then Entry(doc, p[0], p[1]).Some?
    else if |p| == 4 then
      match (Atoi(p[3]), FieldAt(doc, p[0], p[1], p[2]))
      case (None, _) => true
      case (_, Some(Str(_))) => true
      case (Some(id), Some(List(l))) => id < 0 || id > |l|
      case _ => false
    else true
  }

  /** Exactly when a failed addition leaves the document as it was; otherwise it has made a
      table, an entry or a list, or lengthened one. */
  lemma FailedAdd(doc: Map, path: seq<string>, value: Option<Json>)
    requires !Add(doc, path, value).1
    ensures Add(doc, path, value).0 == doc <==> FailsCleanly(doc, path)
  {
    var p := Fix(path);
    if |p| == 3 {
      EntryThere(doc, p[0], p[1]);
    } else if |p| == 4 && Atoi(p[3]).Some? {
      FailedAddItem(doc, p[0], p[1], p[2], Atoi(p[3]).value);
    }
  }

  lemma EntryThere(doc: Map, t: string, e: string)
    ensures WithEntry(doc, t, e) == doc <==> Entry(doc, t, e).Some?
  {
    var d := WithEntry(doc, t, e);
    if Entry(doc, t, e).Some? {
      var table := Child(doc, t).value;
      assert table[e := table[e]] == table;
      assert doc[t := doc[t]] == doc;
    } else {
      assert Entry(d, t, e).Some?;
    }
  }

  lemma PutFieldThere(doc: Map, t: string, e: string, f: string, v: Json)
    requires v.List?
    ensures FieldAt(PutField(doc, t, e, f, v), t, e, f) == Some(v)
    ensures FieldAt(doc, t, e, f) == Some(v) ==> PutField(doc, t, e, f, v) == doc
  {
    if FieldAt(doc, t, e, f) == Some(v) {
      var table := Child(doc, t).value;
      var entry := Child(table, e).value;
      assert entry[f := entry[f]] == entry;
      assert table[e := table[e]] == table;
      assert doc[t := doc[t]] == doc;
    }
  }

  lemma FailedAddItem(doc: Map, t: string, e: string, f: string, id: int)
    ensures var field := FieldAt(doc, t, e, f);
            var list := ListOf(field);
            && (field.Some? && field.value.Str? ==> WithEntry(doc, t, e) == doc)
            && (field.None? ==> PutField(doc, t, e, f, List([])) != doc)
            && (field.Some? && field.value.List? ==> PutField(doc, t, e, f, List(list)) == doc)
            && (0 <= id <= |list| ==> PutField(doc, t, e, f, List(MakeRoom(list, id))) != doc)
  {
    var field := FieldAt(doc, t, e, f);
    var list := ListOf(field);
    EntryThere(doc, t, e);
    PutFieldThere(doc, t, e, f, List(list));
    if 0 <= id <= |list| { PutFieldThere(doc, t, e, f, List(MakeRoom(list, id))); }
  }
}
