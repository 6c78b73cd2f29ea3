/** Sorted enumeration of a finite set of strings: what collecting the keys of a
    map in any order and sorting them yields. */
module SortedStrings {

  /** Lexicographic order by code point, which is also the order of the UTF-8 bytes. */
  predicate LexLeq(a: string, b: string) {
    if a == [] then true
    else if b == [] then false
    else if a[0] != b[0] then a[0] < b[0]
    else LexLeq(a[1..], b[1..])
  }

  lemma {:induction false} LexTotal(a: string, b: string)
    ensures LexLeq(a, b) || LexLeq(b, a)
    ensures LexLeq(a, b) && LexLeq(b, a) ==> a == b
  {
    if a != [] && b != [] && a[0] == b[0] {
      LexTotal(a[1..], b[1..]);
      assert a == [a[0]] + a[1..] && b == [b[0]] + b[1..];
    }
  }

  lemma {:induction false} LexTransitive(a: string, b: string, c: string)
    requires LexLeq(a, b) && LexLeq(b, c)
    ensures LexLeq(a, c)
  {
    if a != [] && b != [] && c != [] && a[0] == b[0] == c[0] {
      LexTransitive(a[1..], b[1..], c[1..]);
    }
  }

  /** `a` comes first where it ends within `b`, or has the smaller character at the first difference. */
  lemma {:induction false} LexLeqIff(a: string, b: string)
    ensures LexLeq(a, b) <==> a <= b || exists i :: 0 <= i < |a| && i < |b| && a[..i] == b[..i] && a[i] < b[i]
  {
    if a != [] && b != [] && a[0] == b[0] {
      LexLeqIff(a[1..], b[1..]);
      assert a == [a[0]] + a[1..] && b == [b[0]] + b[1..];
      if i :| 0 <= i < |a| && i < |b| && a[..i] == b[..i] && a[i] < b[i] {
        assert i > 0 && a[1..][..i - 1] == a[..i][1..] == b[..i][1..] == b[1..][..i - 1];
        assert a[1..][i - 1] < b[1..][i - 1];
      }
      if i :| 0 <= i < |a[1..]| && i < |b[1..]| && a[1..][..i] == b[1..][..i] && a[1..][i] < b[1..][i] {
        assert a[..i + 1] == [a[0]] + a[1..][..i] && b[..i + 1] == [b[0]] + b[1..][..i];
        assert a[i + 1] < b[i + 1];
      }
    } else if a != [] && b != [] && a[0] < b[0] {
      assert a[..0] == b[..0];
    }
  }

  ghost function Least(s: set<string>): (m: string)
    requires s != {}
    ensures m in s
    ensures forall x :: x in s ==> LexLeq(m, x)
  {
    var x :| x in s;
    LexTotal(x, x);
    if s == {x} then x
    else
      assert s == (s - {x}) + {x};
      var r := Least(s - {x});
      LexTotal(x, r);
      assert LexLeq(x, r) ==> forall y :: y in s - {x} ==> LexLeq(x, y) by {
        forall y | LexLeq(x, r) && y in s - {x} ensures LexLeq(x, y) { LexTransitive(x, r, y); }
      }
      if LexLeq(x, r) then x else r
  }

  /** The elements of `s` in ascending order. */
  ghost function Ascending(s: set<string>): (q: seq<string>)
    ensures q == [] <==> s == {}
  {
    if s == {} then []
    else
      var m := Least(s);
      [m] + Ascending(s - {m})
  }

  lemma {:induction false} AscendingElements(s: set<string>, x: string)
    ensures x in Ascending(s) <==> x in s
  {
    if s != {} { AscendingElements(s - {Least(s)}, x); }
  }

  ghost predicate IsAscending(q: seq<string>) {
    forall i, j :: 0 <= i < j < |q| ==> LexLeq(q[i], q[j]) && q[i] != q[j]
  }

  /** `Ascending(s)` is the only strictly ascending sequence with the elements of `s`. */
  lemma {:induction false} AscendingUnique(s: set<string>, q: seq<string>)
    requires IsAscending(q)
    requires forall x :: x in q <==> x in s
    ensures q == Ascending(s)
  {
    if q == [] {
      assert s == {} by { assert forall x :: x in s ==> x in q; }
    } else {
      assert q[0] in s;
      var m := Least(s);
      var i :| 0 <= i < |q| && q[i] == m;
      LexTotal(m, q[0]);
      assert i == 0;
      assert forall x :: x in q[1..] <==> x in s - {m} by {
        forall x ensures x in q[1..] <==> x in s - {m} {
          if x in q[1..] { var j :| 0 <= j < |q| - 1 && q[1..][j] == x; assert q[j + 1] == x; assert x in q; }
          if x in s - {m} { assert x in q; var j :| 0 <= j < |q| && q[j] == x; assert q[1..][j - 1] == x; }
        }
      }
      AscendingUnique(s - {m}, q[1..]);
      assert q == [q[0]] + q[1..];
    }
  }

  lemma PrependAscending(m: string, t: seq<string>)
    requires IsAscending(t)
    requires forall x :: x in t ==> LexLeq(m, x) && m != x
    ensures IsAscending([m] + t)
  {
    var q := [m] + t;
    forall i, j | 0 <= i < j < |q| ensures LexLeq(q[i], q[j]) && q[i] != q[j] {
      assert q[j] == t[j - 1];
      if i > 0 { assert q[i] == t[i - 1]; }
    }
  }

  lemma {:induction false} AscendingIsAscending(s: set<string>)
    ensures IsAscending(Ascending(s))
  {
    if s != {} {
      var m := Least(s);
      AscendingIsAscending(s - {m});
      forall x | x in Ascending(s - {m}) ensures LexLeq(m, x) && m != x { AscendingElements(s - {m}, x); }
      PrependAscending(m, Ascending(s - {m}));
    }
  }

  /** One step of insertion sort. */
  function InsertSorted(q: seq<string>, x: string): seq<string> {
    if q == [] || LexLeq(x, q[0]) then [x] + q else [q[0]] + InsertSorted(q[1..], x)
  }

  lemma {:induction false} InsertSortedElements(q: seq<string>, x: string, y: string)
    ensures y in InsertSorted(q, x) <==> y == x || y in q
  {
    if q == [] || LexLeq(x, q[0]) {
    } else {
      InsertSortedElements(q[1..], x, y);
      assert q == [q[0]] + q[1..];
    }
  }

  lemma {:induction false} InsertSortedAscending(q: seq<string>, x: string)
    requires IsAscending(q) && x !in q
    ensures IsAscending(InsertSorted(q, x))
  {
    if q == [] {
    } else if LexLeq(x, q[0]) {
      forall y | y in q ensures LexLeq(x, y) && x != y {
        if y != q[0] { LexTransitive(x, q[0], y); }
      }
      PrependAscending(x, q);
    } else {
      LexTotal(x, q[0]);
      InsertSortedAscending(q[1..], x);
      forall y | y in InsertSorted(q[1..], x) ensures LexLeq(q[0], y) && q[0] != y {
        InsertSortedElements(q[1..], x, y);
      }
      PrependAscending(q[0], InsertSorted(q[1..], x));
    }
  }

  lemma InsertSortedIsAscendingOf(s: set<string>, x: string)
    requires x !in s
    ensures InsertSorted(Ascending(s), x) == Ascending(s + {x})
  {
    AscendingIsAscending(s);
    AscendingElements(s, x);
    InsertSortedAscending(Ascending(s), x);
    forall y ensures y in InsertSorted(Ascending(s), x) <==> y in s + {x} {
      InsertSortedElements(Ascending(s), x, y);
      AscendingElements(s, y);
    }
    AscendingUnique(s + {x}, InsertSorted(Ascending(s), x));
  }

  /** Collects the keys of a map in an arbitrary order and sorts them: the order of
      collection does not show in the result. */
  method SortKeys(m: map<string, string>) returns (keys: seq<string>)
    ensures keys == Ascending(m.Keys)
  {
    keys := [];
    var rest := m.Keys;
    ghost var done: set<string> := {};
    while rest != {}
      invariant done !! rest && done + rest == m.Keys
      invariant keys == Ascending(done)
    {
      var k :| k in rest;
      InsertSortedIsAscendingOf(done, k);
      keys := InsertSorted(keys, k);
      rest := rest - {k};
      done := done + {k};
    }
  }
}
