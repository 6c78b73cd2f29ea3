/** Reading a path back: from its tokens, and from its text. */
module PathzReading {
  import opened SortedStrings
  import opened PathzPolicy

  // ---------- From tokens ----------

  function LeadingKeys(toks: seq<Token>): (n: nat)
    ensures n <= |toks|
  {
    if toks == [] || toks[0].Name? then 0 else 1 + LeadingKeys(toks[1..])
  }

  function KeyMap(toks: seq<Token>): map<string, string> {
    if toks == [] || toks[0].Name? then map[] else KeyMap(toks[1..])[toks[0].k := toks[0].v]
  }

  function ReadTokens(toks: seq<Token>): Path
    decreases |toks|
  {
    if toks == [] || toks[0].Key? then []
    else
      var n := LeadingKeys(toks[1..]);
      [PathElem(toks[0].n, KeyMap(toks[1..][..n]))] + ReadTokens(toks[1..][n..])
  }

  lemma {:induction false} LeadingKeysAre(m: map<string, string>, keys: seq<string>, rest: seq<Token>)
    requires rest == [] || rest[0].Name?
    ensures |KeyTokens(m, keys)| == |keys| == LeadingKeys(KeyTokens(m, keys) + rest)
    decreases |keys|
  {
    var ks := KeyTokens(m, keys);
    if keys == [] {
      assert ks + rest == rest;
    } else {
      LeadingKeysAre(m, keys[1..], rest);
      assert (ks + rest)[1..] == KeyTokens(m, keys[1..]) + rest;
    }
  }

  lemma {:induction false} KeyMapAt(m: map<string, string>, keys: seq<string>, k: string)
    requires forall x :: x in keys ==> x in m
    ensures k in KeyMap(KeyTokens(m, keys)) <==> k in keys
    ensures k in keys ==> KeyMap(KeyTokens(m, keys))[k] == m[k]
    decreases |keys|
  {
    if keys != [] {
      assert keys[0] in keys && keys == [keys[0]] + keys[1..];
      KeyMapAt(m, keys[1..], k);
      assert KeyTokens(m, keys)[1..] == KeyTokens(m, keys[1..]);
    }
  }

  lemma KeyMapIs(m: map<string, string>)
    ensures KeyMap(KeyTokens(m, Ascending(m.Keys))) == m
  {
    var keys := Ascending(m.Keys);
    forall k ensures k in keys <==> k in m { AscendingElements(m.Keys, k); }
    forall k ensures k in KeyMap(KeyTokens(m, keys)) <==> k in m { KeyMapAt(m, keys, k); }
    forall k | k in m ensures KeyMap(KeyTokens(m, keys))[k] == m[k] { KeyMapAt(m, keys, k); }
  }

  lemma ReadElem(n: string, m: map<string, string>, rest: seq<Token>)
    requires rest == [] || rest[0].Name?
    ensures ReadTokens([Name(n)] + (KeyTokens(m, Ascending(m.Keys)) + rest)) == [PathElem(n, m)] + ReadTokens(rest)
  {
    var ks := KeyTokens(m, Ascending(m.Keys));
    var toks := [Name(n)] + (ks + rest);
    LeadingKeysAre(m, Ascending(m.Keys), rest);
    KeyMapIs(m);
    assert toks[1..] == ks + rest;
    assert (ks + rest)[..|ks|] == ks && (ks + rest)[|ks|..] == rest;
  }

  lemma Reassociate(a: seq<Token>, b: seq<Token>, c: seq<Token>)
    ensures (a + b) + c == a + (b + c)
  {
  }

  lemma TokensStart(path: Path)
    ensures Tokens(path) == [] || Tokens(path)[0].Name?
  {
    if path != [] { assert ElemTokens(path[0])[0] == Name(path[0].name); }
  }

  lemma TokensSplit(path: Path)
    requires path != []
    ensures Tokens(path) == [Name(path[0].name)] + (KeyTokens(path[0].keys, Ascending(path[0].keys.Keys)) + Tokens(path[1..]))
  {
    Reassociate([Name(path[0].name)], KeyTokens(path[0].keys, Ascending(path[0].keys.Keys)), Tokens(path[1..]));
  }

  /** Tokens say all there is to a path. */
  lemma {:induction false} ReadBack(path: Path)
    ensures ReadTokens(Tokens(path)) == path
  {
    if path != [] {
      ReadBack(path[1..]);
      TokensSplit(path);
      TokensStart(path[1..]);
      ReadElem(path[0].name, path[0].keys, Tokens(path[1..]));
      assert PathElem(path[0].name, path[0].keys) == path[0];
      assert [path[0]] + path[1..] == path;
    }
  }

  /** So different paths have different tokens. */
  lemma TokensInjective(p: Path, q: Path)
    requires Tokens(p) == Tokens(q)
    ensures p == q
  {
    ReadBack(p);
    ReadBack(q);
  }

  lemma {:induction false} KeyTokensHave(m: map<string, string>, keys: seq<string>, k: string)
    requires k in keys && k in m
    ensures Key(k, m[k]) in KeyTokens(m, keys)
    decreases |keys|
  {
    if keys[0] != k { KeyTokensHave(m, keys[1..], k); }
  }

  /** Every key of an element is among its tokens, with its own value. */
  lemma KeyIsToken(e: PathElem, k: string)
    requires k in e.keys
    ensures Key(k, e.keys[k]) in Tokens([e])
  {
    AscendingElements(e.keys.Keys, k);
    KeyTokensHave(e.keys, Ascending(e.keys.Keys), k);
    assert Tokens([e]) == ElemTokens(e) + [];
  }

  // ---------- From text ----------

  /** How far the text goes without one of these characters. */
  function Span(s: string, stops: set<char>): (n: nat)
    ensures n <= |s|
  {
    if s == [] || s[0] in stops then 0 else 1 + Span(s[1..], stops)
  }

  predicate Free(s: string, stops: set<char>) { forall c :: c in s ==> c !in stops }

  predicate Stops(s: string, stops: set<char>) { s == [] || s[0] in stops }

  lemma {:induction false} SpanIs(a: string, b: string, stops: set<char>)
    requires Free(a, stops) && Stops(b, stops)
    ensures Span(a + b, stops) == |a|
    decreases |a|
  {
    if a == [] {
      assert a + b == b;
    } else {
      assert (a + b)[1..] == a[1..] + b && a[0] in a;
      SpanIs(a[1..], b, stops);
    }
  }

  const NAME_ENDS := {'/', '['}

  /** The tokens of a text: names after slashes, keys in brackets. */
  function ReadText(s: string): seq<Token>
    decreases |s|
  {
    if s == [] then []
    else if s[0] == '/' then
      var n := Span(s[1..], NAME_ENDS);
      [Name(s[1..][..n])] + ReadText(s[1..][n..])
    else if s[0] == '[' then
      var n := Span(s[1..], {'='});
      var v := s[1..][n..];
      if v == [] then []
      else
        var m := Span(v[1..], {']'});
        if m == |v[1..]| then [] else [Key(s[1..][..n], v[1..][..m])] + ReadText(v[1..][m + 1..])
    else []
  }

  function Text(tok: Token): string {
    match tok
    case Name(n) => "/" + n
    case Key(k, v) => "[" + k + "=" + v + "]"
  }

  function TokensText(toks: seq<Token>): string {
    if toks == [] then "" else Text(toks[0]) + TokensText(toks[1..])
  }

  /** The characters that end a part do not occur in it. */
  predicate Plain(tok: Token) {
    match tok
    case Name(n) => Free(n, NAME_ENDS)
    case Key(k, v) => Free(k, {'='}) && Free(v, {']'})
  }

  lemma ReadName(n: string, rest: string)
    requires Free(n, NAME_ENDS) && Stops(rest, NAME_ENDS)
    ensures ReadText("/" + n + rest) == [Name(n)] + ReadText(rest)
  {
    var s := "/" + n + rest;
    assert s[0] == '/' && s[1..] == n + rest;
    SpanIs(n, rest, NAME_ENDS);
    assert (n + rest)[..|n|] == n && (n + rest)[|n|..] == rest;
  }

  lemma KeyParts(k: string, v: string, rest: string)
    ensures var s := "[" + k + "=" + v + "]" + rest;
            s[0] == '[' && s[1..] == k + ("=" + (v + ("]" + rest)))
  {
  }

  lemma Cut(a: string, b: string)
    ensures (a + b)[..|a|] == a && (a + b)[|a|..] == b
  {
  }

  lemma ReadKey(k: string, v: string, rest: string)
    requires Free(k, {'='}) && Free(v, {']'})
    ensures ReadText("[" + k + "=" + v + "]" + rest) == [Key(k, v)] + ReadText(rest)
  {
    var after := "]" + rest;
    var value := "=" + (v + after);
    KeyParts(k, v, rest);
    SpanIs(k, value, {'='});
    Cut(k, value);
    assert value[1..] == v + after;
    SpanIs(v, after, {']'});
    Cut(v, after);
    assert (v + after)[|v| + 1..] == (v + after)[|v|..][1..] == rest;
  }

  lemma TextStops(toks: seq<Token>)
    ensures Stops(TokensText(toks), NAME_ENDS)
  {
  }

  lemma {:induction false} ReadTokensText(toks: seq<Token>)
    requires forall t :: t in toks ==> Plain(t)
    ensures ReadText(TokensText(toks)) == toks
    decreases |toks|
  {
    if toks != [] {
      var rest := TokensText(toks[1..]);
      assert toks[0] in toks;
      ReadTokensText(toks[1..]);
      TextStops(toks[1..]);
      match toks[0]
      case Name(n) => ReadName(n, rest);
      case Key(k, v) => ReadKey(k, v, rest);
      assert [toks[0]] + toks[1..] == toks;
    }
  }

  lemma {:induction false} TokensTextAppend(a: seq<Token>, b: seq<Token>)
    ensures TokensText(a + b) == TokensText(a) + TokensText(b)
    decreases |a|
  {
    if a == [] {
      assert a + b == b;
    } else {
      assert (a + b)[1..] == a[1..] + b;
      TokensTextAppend(a[1..], b);
      Regroup(Text(a[0]), TokensText(a[1..]), TokensText(b));
    }
  }

  lemma Regroup(a: string, b: string, c: string)
    ensures a + (b + c) == (a + b) + c
  {
  }

  lemma {:induction false} KeysText(m: map<string, string>, keys: seq<string>)
    ensures TokensText(KeyTokens(m, keys)) == PrintKeys(m, keys)
    decreases |keys|
  {
    if keys != [] {
      KeysText(m, keys[1..]);
      assert KeyTokens(m, keys)[1..] == KeyTokens(m, keys[1..]);
    }
  }

  lemma ElemText(e: PathElem)
    ensures TokensText(ElemTokens(e)) == "/" + e.name + PrintKeys(e.keys, Ascending(e.keys.Keys))
  {
    var keys := Ascending(e.keys.Keys);
    KeysText(e.keys, keys);
    assert ElemTokens(e)[1..] == KeyTokens(e.keys, keys);
  }

  lemma {:induction false} PrintIsText(path: Path)
    ensures PrintElems(path) == TokensText(Tokens(path))
  {
    if path != [] {
      ElemText(path[0]);
      PrintIsText(path[1..]);
      TokensTextAppend(ElemTokens(path[0]), Tokens(path[1..]));
    }
  }

  /** The text of a path whose parts hold none of the characters that end them is read back to the
      path. Only the empty path is written like a path with one empty name. */
  lemma PrintReadsBack(path: Path)
    requires path != [] && forall t :: t in Tokens(path) ==> Plain(t)
    ensures ReadTokens(ReadText(PrintPath(path))) == path
  {
    PrintIsText(path);
    ReadTokensText(Tokens(path));
    ReadBack(path);
    assert PrintElems(path) != "";
  }

  /** The empty path is written as a slash. */
  lemma PrintEmpty()
    ensures PrintPath([]) == "/"
  {
  }
}
