/**
 The escape shared by the repository's two name mappings: a "wide" character becomes two "narrow"
 ones, a narrow character stays one, and the reverse mapping reads pairs of narrow characters from
 the left. Domain names use it with wide '-' and narrow '.', Kubernetes role names with wide '_'
 and narrow '-'.
 */
module DashCodec {
  import opened GoStrings

  function Widen(s: string, wide: char, narrow: char): string {
    ReplaceAll(s, [wide], [narrow, narrow])
  }

  function Collapse(t: string, wide: char, narrow: char): string {
    ReplaceAll(t, [narrow, narrow], [wide])
  }

  /** No narrow character is directly followed by a narrow or a wide one. */
  predicate Tight(s: string, wide: char, narrow: char) {
    forall i :: 0 <= i < |s| - 1 && s[i] == narrow ==> s[i + 1] != narrow && s[i + 1] != wide
  }

  lemma TightHead(s: string, wide: char, narrow: char)
    requires s != ""
    ensures Tight(s, wide, narrow) <==>
            && Tight(s[1..], wide, narrow)
            && (|s| > 1 && s[0] == narrow ==> s[1] != narrow && s[1] != wide)
  {
    if Tight(s[1..], wide, narrow) && (|s| > 1 && s[0] == narrow ==> s[1] != narrow && s[1] != wide) {
      forall i | 0 <= i < |s| - 1 && s[i] == narrow ensures s[i + 1] != narrow && s[i + 1] != wide {
        if i > 0 {
          assert s[1..][i - 1] == narrow && s[1..][i] == s[i + 1];
        }
      }
    }
    if Tight(s, wide, narrow) {
      forall i | 0 <= i < |s[1..]| - 1 && s[1..][i] == narrow
        ensures s[1..][i + 1] != narrow && s[1..][i + 1] != wide
      {
        assert s[i + 1] == narrow && s[i + 2] == s[1..][i + 1];
      }
    }
  }

  lemma WidenHead(s: string, wide: char, narrow: char)
    requires s != ""
    ensures Widen(s, wide, narrow) ==
            (if s[0] == wide then [narrow, narrow] else [s[0]]) + Widen(s[1..], wide, narrow)
  {
    ReplaceCharHead(s, wide, [narrow, narrow]);
  }

  /** Reading a string that starts with a pair of narrow characters. */
  lemma CollapsePair(t: string, wide: char, narrow: char)
    ensures Collapse([narrow, narrow] + t, wide, narrow) == [wide] + Collapse(t, wide, narrow)
  {
    assert ([narrow, narrow] + t)[..2] == [narrow, narrow];
    assert ([narrow, narrow] + t)[2..] == t;
  }

  /** Reading a string that does not. */
  lemma CollapseSingle(c: char, t: string, wide: char, narrow: char)
    requires c != narrow || t == "" || t[0] != narrow
    ensures Collapse([c] + t, wide, narrow) == [c] + Collapse(t, wide, narrow)
  {
    var u := [c] + t;
    assert u[1..] == t;
    if |u| >= 2 {
      assert u[0] == c && u[1] == t[0];
      assert u[..2] == [c, t[0]];
      assert u[..1] == [c];
    }
  }

  /** Decoding undoes encoding on exactly the tight strings. */
  lemma {:induction false} CollapseWiden(s: string, wide: char, narrow: char)
    requires wide != narrow
    ensures Collapse(Widen(s, wide, narrow), wide, narrow) == s <==> Tight(s, wide, narrow)
  {
    if s != "" {
      var rest := s[1..];
      var w := Widen(rest, wide, narrow);
      assert s == [s[0]] + rest;
      CollapseWiden(rest, wide, narrow);
      TightHead(s, wide, narrow);
      WidenHead(s, wide, narrow);
      if rest != "" {
        WidenHead(rest, wide, narrow);
      }
      if s[0] == wide {
        CollapsePair(w, wide, narrow);
      } else if s[0] == narrow && rest != "" && (rest[0] == narrow || rest[0] == wide) {
        assert [narrow] + w == [narrow, narrow] + w[1..];
        CollapsePair(w[1..], wide, narrow);
        assert Collapse(Widen(s, wide, narrow), wide, narrow)[0] == wide;
      } else {
        CollapseSingle(s[0], w, wide, narrow);
      }
    }
  }

  /** Encoding undoes decoding on exactly the strings without the wide character. */
  lemma {:induction false} WidenCollapse(t: string, wide: char, narrow: char)
    requires wide != narrow
    ensures Widen(Collapse(t, wide, narrow), wide, narrow) == t <==> wide !in t
  {
    if t != "" {
      if |t| >= 2 && t[0] == narrow && t[1] == narrow {
        var rest := t[2..];
        WidenCollapse(rest, wide, narrow);
        assert t == [narrow, narrow] + rest;
        CollapsePair(rest, wide, narrow);
        WidenHead([wide] + Collapse(rest, wide, narrow), wide, narrow);
        assert ([wide] + Collapse(rest, wide, narrow))[1..] == Collapse(rest, wide, narrow);
      } else {
        var rest := t[1..];
        WidenCollapse(rest, wide, narrow);
        assert t == [t[0]] + rest;
        CollapseSingle(t[0], rest, wide, narrow);
        WidenHead([t[0]] + Collapse(rest, wide, narrow), wide, narrow);
        assert ([t[0]] + Collapse(rest, wide, narrow))[1..] == Collapse(rest, wide, narrow);
      }
    }
  }

  /** Whatever is decoded from a string without the wide character is tight. */
  lemma CollapseIsTight(t: string, wide: char, narrow: char)
    requires wide != narrow && wide !in t
    ensures Tight(Collapse(t, wide, narrow), wide, narrow)
  {
    WidenCollapse(t, wide, narrow);
    CollapseWiden(Collapse(t, wide, narrow), wide, narrow);
  }
}
