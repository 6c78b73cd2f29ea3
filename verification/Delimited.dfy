/** Text cut at a separator, and put together again. */
module Delimited {
  function Join(l: seq<string>, sep: char): string {
    if |l| == 0 then "" else if |l| == 1 then l[0] else l[0] + [sep] + Join(l[1..], sep)
  }

  /** Put one character before a list of pieces: a new piece if it is the separator. */
  function Before(c: char, l: seq<string>, sep: char): (r: seq<string>)
    requires l != []
    ensures r != []
  {
    if c == sep then [""] + l else [[c] + l[0]] + l[1..]
  }

  function Split(s: string, sep: char): (l: seq<string>)
    ensures l != []
  {
    if s == "" then [""] else Before(s[0], Split(s[1..], sep), sep)
  }

  lemma BeforeAppend(c: char, l: seq<string>, m: seq<string>, sep: char)
    requires l != []
    ensures Before(c, l + m, sep) == Before(c, l, sep) + m
  {
    if c != sep { assert (l + m)[1..] == l[1..] + m; }
  }

  lemma {:induction false} SplitFree(s: string, sep: char)
    requires sep !in s
    ensures Split(s, sep) == [s]
  {
    if s != "" {
      SplitFree(s[1..], sep);
      assert s == [s[0]] + s[1..];
    }
  }

  /** Cutting at one separator leaves the pieces on each side as they are. */
  lemma {:induction false} SplitAppend(s: string, t: string, sep: char)
    ensures Split(s + [sep] + t, sep) == Split(s, sep) + Split(t, sep)
  {
    var whole := s + [sep] + t;
    if s == "" {
      assert whole[0] == sep && whole[1..] == t;
    } else {
      var tail := s[1..];
      assert whole[0] == s[0] && whole[1..] == tail + [sep] + t;
      SplitAppend(tail, t, sep);
      BeforeAppend(s[0], Split(tail, sep), Split(t, sep), sep);
    }
  }

  lemma {:induction false} SplitJoin(l: seq<string>, sep: char)
    requires l != [] && forall s :: s in l ==> sep !in s
    ensures Split(Join(l, sep), sep) == l
  {
    assert l[0] in l;
    SplitFree(l[0], sep);
    if |l| > 1 {
      SplitAppend(l[0], Join(l[1..], sep), sep);
      SplitJoin(l[1..], sep);
    }
  }

  lemma {:induction false} SplitPieces(s: string, sep: char, i: nat)
    requires i < |Split(s, sep)|
    ensures sep !in Split(s, sep)[i]
  {
    if s != "" {
      SplitPieces(s[1..], sep, 0);
      if i > 0 { SplitPieces(s[1..], sep, if s[0] == sep then i - 1 else i); }
    }
  }

  lemma {:induction false} JoinAppend(l: seq<string>, m: seq<string>, sep: char)
    requires l != [] && m != []
    ensures Join(l + m, sep) == Join(l, sep) + [sep] + Join(m, sep)
  {
    assert (l + m)[1..] == l[1..] + m;
    if |l| > 1 { JoinAppend(l[1..], m, sep); }
  }
}
