/** The pathz policy messages and the token view of a gNMI path. */
module PathzPolicy {
  import opened SortedStrings

  const WILDCARD := "*"

  datatype Action = Unspecified | Permit | Deny

  /** `OtherMode` stands for every mode number outside the declared ones. */
  datatype Mode = ModeUnspecified | Read | Write | OtherMode

  datatype Principal = NoPrincipal | User(user: string) | Group(group: string)

  datatype PathElem = PathElem(name: string, keys: map<string, string>)

  type Path = seq<PathElem>

  datatype Rule = Rule(id: string, principal: Principal, path: Path, action: Action, mode: Mode)

  datatype GroupDef = GroupDef(name: string, users: seq<string>)

  datatype Policy = Policy(rules: seq<Rule>, groups: seq<GroupDef>)

  /** A path is walked one token at a time: an element's name, then its keys in
      ascending order of key name. */
  datatype Token = Name(n: string) | Key(k: string, v: string)

  function Value(m: map<string, string>, k: string): string {
    if k in m then m[k] else ""
  }

  function KeyTokens(m: map<string, string>, keys: seq<string>): seq<Token> {
    if keys == [] then [] else [Key(keys[0], Value(m, keys[0]))] + KeyTokens(m, keys[1..])
  }

  ghost function ElemTokens(e: PathElem): seq<Token> {
    [Name(e.name)] + KeyTokens(e.keys, Ascending(e.keys.Keys))
  }

  ghost function Tokens(path: Path): seq<Token> {
    if path == [] then [] else ElemTokens(path[0]) + Tokens(path[1..])
  }

  /** Where a walk over `path` stands: before element `nameIdx`, or, when `keys` is
      not empty, inside that element before key `keyIdx`. */
  ghost predicate ValidCursor(path: Path, nameIdx: nat, keys: seq<string>, keyIdx: nat) {
    && nameIdx <= |path|
    && (keys == [] ==> keyIdx == 0)
    && (keys != [] ==> nameIdx < |path| && keys == Ascending(path[nameIdx].keys.Keys) && keyIdx < |keys|)
  }

  /** The tokens still to be walked. */
  ghost function Remaining(path: Path, nameIdx: nat, keys: seq<string>, keyIdx: nat): seq<Token>
    requires ValidCursor(path, nameIdx, keys, keyIdx)
  {
    if keys == [] then Tokens(path[nameIdx..])
    else KeyTokens(path[nameIdx].keys, keys[keyIdx..]) + Tokens(path[nameIdx + 1..])
  }

  lemma TokensAt(path: Path, nameIdx: nat)
    requires nameIdx < |path|
    ensures Tokens(path[nameIdx..]) == ElemTokens(path[nameIdx]) + Tokens(path[nameIdx + 1..])
  {
    assert path[nameIdx..][1..] == path[nameIdx + 1..];
  }

  /** Past a name the cursor stands before the element's keys, or before the next element. */
  lemma StepName(path: Path, nameIdx: nat)
    requires nameIdx < |path|
    ensures var keys := Ascending(path[nameIdx].keys.Keys);
            && (keys == [] <==> path[nameIdx].keys == map[])
            && Remaining(path, nameIdx, [], 0) ==
               [Name(path[nameIdx].name)] + Remaining(path, if keys == [] then nameIdx + 1 else nameIdx, keys, 0)
  {
    TokensAt(path, nameIdx);
    var e := path[nameIdx];
    var keys := Ascending(e.keys.Keys);
    var ks, rest := KeyTokens(e.keys, keys), Tokens(path[nameIdx + 1..]);
    assert [Name(e.name)] + ks + rest == [Name(e.name)] + (ks + rest);
    assert keys == [] ==> ks + rest == rest;
    assert keys[0..] == keys;
  }

  /** Past a key the cursor stands before the next key, or before the next element. */
  lemma StepKey(path: Path, nameIdx: nat, keys: seq<string>, keyIdx: nat)
    requires ValidCursor(path, nameIdx, keys, keyIdx) && keys != []
    ensures keys[keyIdx] in path[nameIdx].keys
    ensures Remaining(path, nameIdx, keys, keyIdx) ==
            [Key(keys[keyIdx], Value(path[nameIdx].keys, keys[keyIdx]))] +
            if keyIdx + 1 == |keys| then Remaining(path, nameIdx + 1, [], 0) else Remaining(path, nameIdx, keys, keyIdx + 1)
  {
    var m := path[nameIdx].keys;
    var tok, rest, after := Key(keys[keyIdx], Value(m, keys[keyIdx])), KeyTokens(m, keys[keyIdx + 1..]), Tokens(path[nameIdx + 1..]);
    AscendingElements(m.Keys, keys[keyIdx]);
    assert keys[keyIdx..][1..] == keys[keyIdx + 1..];
    assert KeyTokens(m, keys[keyIdx..]) == [tok] + rest;
    assert ([tok] + rest) + after == [tok] + (rest + after);
    assert rest == [] ==> rest + after == after;
  }

  /** The text of a path. */
  function PrintKeys(m: map<string, string>, keys: seq<string>): string {
    if keys == [] then "" else "[" + keys[0] + "=" + Value(m, keys[0]) + "]" + PrintKeys(m, keys[1..])
  }

  ghost function PrintElems(path: Path): string {
    if path == [] then ""
    else "/" + path[0].name + PrintKeys(path[0].keys, Ascending(path[0].keys.Keys)) + PrintElems(path[1..])
  }

  ghost function PrintPath(path: Path): (s: string)
    ensures s != ""
  {
    var s := PrintElems(path);
    if s == "" then "/" else s
  }
}
