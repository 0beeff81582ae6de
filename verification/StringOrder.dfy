/** Byte order of strings and `sort.Strings`. On valid UTF-8 the byte order is the code point order. */
module StringOrder {

  predicate AtMost(a: string, b: string) {
    if a == "" then true
    else if b == "" then false
    else if a[0] == b[0] then AtMost(a[1..], b[1..])
    else a[0] < b[0]
  }

  predicate Sorted(xs: seq<string>) {
    forall i, j :: 0 <= i < j < |xs| ==> AtMost(xs[i], xs[j])
  }

  function Insert(x: string, xs: seq<string>): seq<string> {
    if xs == [] || AtMost(x, xs[0]) then [x] + xs else [xs[0]] + Insert(x, xs[1..])
  }

  function Sort(xs: seq<string>): seq<string> {
    if xs == [] then [] else Insert(xs[0], Sort(xs[1..]))
  }

  /** `xs` lists the elements of `s`, each once. */
  ghost predicate Enumerates(xs: seq<string>, s: set<string>) {
    && (forall x :: x in xs <==> x in s)
    && forall i, j :: 0 <= i < j < |xs| ==> xs[i] != xs[j]
  }

  /** The first difference of two strings is that the first has the lower character. */
  ghost predicate LowerAt(a: string, b: string, i: int) {
    0 <= i < |a| && i < |b| && a[..i] == b[..i] && a[i] < b[i]
  }

  lemma LowerInTail(c: char, t: string, u: string, i: int)
    ensures LowerAt(t, u, i) <==> LowerAt([c] + t, [c] + u, i + 1) && i >= 0
  {
    if 0 <= i < |t| && i < |u| {
      assert ([c] + t)[..i + 1] == [c] + t[..i] && ([c] + u)[..i + 1] == [c] + u[..i];
      assert ([c] + t[..i])[1..] == t[..i] && ([c] + u[..i])[1..] == u[..i];
    }
  }

  lemma LowerAtHead(a: string, b: string)
    requires a != "" && b != "" && a[0] != b[0]
    ensures (exists i :: LowerAt(a, b, i)) <==> a[0] < b[0]
  {
    assert a[..0] == b[..0];
    if a[0] < b[0] {
      assert LowerAt(a, b, 0);
    }
    forall i | 0 < i < |a| && i < |b| ensures a[..i] != b[..i] {
      assert a[..i][0] == a[0] && b[..i][0] == b[0];
    }
  }

  /** The order is lexicographic: a prefix comes first, otherwise the first difference decides. */
  lemma {:induction false} AtMostIsLexicographic(a: string, b: string)
    ensures AtMost(a, b) <==> a <= b || exists i :: LowerAt(a, b, i)
  {
    if a != "" && b != "" {
      if a[0] == b[0] {
        var t, u := a[1..], b[1..];
        assert a == [a[0]] + t && b == [a[0]] + u;
        AtMostIsLexicographic(t, u);
        forall i ensures LowerAt(t, u, i) <==> LowerAt(a, b, i + 1) && i >= 0 {
          LowerInTail(a[0], t, u, i);
        }
        if i :| LowerAt(a, b, i) {
          assert i > 0 && LowerAt(t, u, i - 1);
        }
      } else {
        LowerAtHead(a, b);
      }
    }
  }

  lemma {:induction false} AtMostTotal(a: string, b: string)
    ensures AtMost(a, b) || AtMost(b, a)
  {
    if a != "" && b != "" {
      AtMostTotal(a[1..], b[1..]);
    }
  }

  lemma {:induction false} AtMostAntisymmetric(a: string, b: string)
    requires AtMost(a, b) && AtMost(b, a)
    ensures a == b
  {
    if a != "" && b != "" {
      AtMostAntisymmetric(a[1..], b[1..]);
      assert a == [a[0]] + a[1..] && b == [b[0]] + b[1..];
    }
  }

  lemma {:induction false} AtMostTransitive(a: string, b: string, c: string)
    requires AtMost(a, b) && AtMost(b, c)
    ensures AtMost(a, c)
  {
    if a != "" && b != "" && c != "" && a[0] == b[0] == c[0] {
      AtMostTransitive(a[1..], b[1..], c[1..]);
    }
  }

  lemma {:induction false} InsertSorts(x: string, xs: seq<string>, s: set<string>)
    requires Sorted(xs) && Enumerates(xs, s) && x !in s
    ensures Sorted(Insert(x, xs)) && Enumerates(Insert(x, xs), s + {x})
  {
    if xs == [] {
    } else if AtMost(x, xs[0]) {
      forall i | 0 <= i < |xs| ensures AtMost(x, xs[i]) {
        if i > 0 {
          AtMostTransitive(x, xs[0], xs[i]);
        }
      }
    } else {
      AtMostTotal(x, xs[0]);
      var rest, s' := xs[1..], s - {xs[0]};
      assert forall y :: y in xs <==> y == xs[0] || y in rest;
      InsertSorts(x, rest, s');
      var ys := Insert(x, rest);
      forall y | y in ys ensures AtMost(xs[0], y) && y != xs[0] {
        assert y in s' + {x};
      }
      assert s' + {x} + {xs[0]} == s + {x};
    }
  }

  lemma {:induction false} SortSorts(xs: seq<string>, s: set<string>)
    requires Enumerates(xs, s)
    ensures Sorted(Sort(xs)) && Enumerates(Sort(xs), s)
  {
    if xs != [] {
      var s' := s - {xs[0]};
      assert forall y :: y in xs <==> y == xs[0] || y in xs[1..];
      SortSorts(xs[1..], s');
      InsertSorts(xs[0], Sort(xs[1..]), s');
      assert s' + {xs[0]} == s;
    }
  }

  /** A set has one sorted enumeration. */
  lemma {:induction false} SortedEnumerationIsUnique(xs: seq<string>, ys: seq<string>, s: set<string>)
    requires Sorted(xs) && Sorted(ys) && Enumerates(xs, s) && Enumerates(ys, s)
    ensures xs == ys
  {
    assert xs != [] ==> xs[0] in ys;
    assert ys != [] ==> ys[0] in xs;
    if xs != [] {
      assert xs[0] == ys[0] by {
        var i :| 0 <= i < |xs| && xs[i] == ys[0];
        var j :| 0 <= j < |ys| && ys[j] == xs[0];
        if i > 0 && j > 0 {
          AtMostAntisymmetric(xs[0], ys[0]);
        }
      }
      assert forall y :: y in xs <==> y == xs[0] || y in xs[1..];
      assert forall y :: y in ys <==> y == ys[0] || y in ys[1..];
      SortedEnumerationIsUnique(xs[1..], ys[1..], s - {xs[0]});
    }
  }

  lemma EnumerateOneMore(xs: seq<string>, s: set<string>, x: string)
    requires Enumerates(xs, s) && x !in s
    ensures Enumerates(xs + [x], s + {x})
  {
    forall y ensures y in xs + [x] <==> y in s + {x} {
    }
  }

  lemma {:induction false} EnumerationExists(s: set<string>)
    ensures exists xs :: Enumerates(xs, s)
  {
    if s == {} {
      assert Enumerates([], s);
    } else {
      var x :| x in s;
      EnumerationExists(s - {x});
      var xs :| Enumerates(xs, s - {x});
      EnumerateOneMore(xs, s - {x}, x);
      assert s - {x} + {x} == s;
    }
  }

  /** The elements of a set in ascending order. */
  ghost function SortedKeys(s: set<string>): seq<string> {
    EnumerationExists(s);
    var xs :| Enumerates(xs, s);
    Sort(xs)
  }

  /** Sorting makes the order in which a set was listed irrelevant. */
  lemma SortForgetsOrder(xs: seq<string>, s: set<string>)
    requires Enumerates(xs, s)
    ensures Sort(xs) == SortedKeys(s)
    ensures Sorted(SortedKeys(s)) && Enumerates(SortedKeys(s), s)
  {
    EnumerationExists(s);
    var ys :| Enumerates(ys, s) && SortedKeys(s) == Sort(ys);
    SortSorts(xs, s);
    SortSorts(ys, s);
    SortedEnumerationIsUnique(Sort(xs), Sort(ys), s);
  }
}
