/** The operations of Go's `strings` package that the controllers use, on strings as sequences of code points. */
module GoStrings {
  import opened Sequences

  /** `strings.Replace(s, from, to, -1)`: left to right, occurrences do not overlap. */
  function ReplaceAll(s: string, from: string, to: string): string
    requires from != ""
  {
    if |s| < |from| then s
    else if s[..|from|] == from then to + ReplaceAll(s[|from|..], from, to)
    else s[..1] + ReplaceAll(s[1..], from, to)
  }

  predicate HasPrefix(s: string, prefix: string) {
    prefix <= s
  }

  predicate HasSuffix(s: string, suffix: string) {
    |suffix| <= |s| && s[|s| - |suffix|..] == suffix
  }

  function TrimPrefix(s: string, prefix: string): string {
    if HasPrefix(s, prefix) then s[|prefix|..] else s
  }

  /** Index of the first `c` in `s`, or `|s|` when there is none. */
  function FirstIndex(s: string, c: char): (k: nat)
    ensures k <= |s| && c !in s[..k] && (k < |s| ==> s[k] == c)
  {
    if s == "" || s[0] == c then 0
    else
      var k := 1 + FirstIndex(s[1..], c);
      assert s[..k] == s[..1] + s[1..][..k - 1];
      k
  }

  /** `strings.LastIndex(s[..n], [c])`: the last position of `c` before `n`, or -1. */
  function LastIndex(s: string, c: char, n: nat): (k: int)
    requires n <= |s|
    ensures -1 <= k < n
    ensures k >= 0 ==> s[k] == c
    ensures forall j :: k < j < n ==> s[j] != c
  {
    if n == 0 then -1
    else if s[n - 1] == c then n - 1
    else LastIndex(s, c, n - 1)
  }

  /** `strings.Split(s, [sep])`. */
  function Split(s: string, sep: char): (fields: seq<string>)
    ensures fields != [] && fields[0] == s[..FirstIndex(s, sep)]
    ensures |fields| == 1 <==> sep !in s
    decreases |s|
  {
    var k := FirstIndex(s, sep);
    assert s[..k] + s[k..] == s;
    if k == |s| then [s[..k]] else [s[..k]] + Split(s[k + 1..], sep)
  }

  function FirstField(s: string, sep: char): string {
    Split(s, sep)[0]
  }

  /** Two fields without the separator come back from their join. */
  lemma SplitOfTwo(a: string, b: string, sep: char)
    requires sep !in a && sep !in b
    ensures Split(a + [sep] + b, sep) == [a, b]
  {
    var s := a + [sep] + b;
    var k := FirstIndex(s, sep);
    assert forall i :: 0 <= i < |a| ==> s[i] == a[i] && s[i] != sep;
    assert forall i :: 0 <= i < k ==> s[i] == s[..k][i] && s[i] != sep;
    assert s[|a|] == sep;
    assert k == |a| && s[..k] == a && s[k + 1..] == b;
    assert FirstIndex(b, sep) == |b| && b[..|b|] == b;
  }

  /** Every code point whose upper case is an ASCII letter; other code points never reach the
      ASCII names that the callers compare with, so they are left alone. */
  function UpperChar(c: char): char {
    if 'a' <= c <= 'z' then (c as int - 32) as char
    else if c == '\U{0131}' then 'I'
    else if c == '\U{017F}' then 'S'
    else c
  }

  function ToUpper(s: string): string {
    seq(|s|, i requires 0 <= i < |s| => UpperChar(s[i]))
  }

  lemma AlphabetsCount()
    ensures forall i :: 0 <= i < 26 ==> "abcdefghijklmnopqrstuvwxyz"[i] as int == 97 + i
    ensures forall i :: 0 <= i < 26 ==> "ABCDEFGHIJKLMNOPQRSTUVWXYZ"[i] as int == 65 + i
  {
  }

  /** Letters are raised to the letter at their place in the alphabet, and no other ASCII character changes. */
  lemma LettersAreRaised(s: string, k: nat)
    requires k < |s|
    ensures |ToUpper(s)| == |s|
    ensures forall i :: 0 <= i < 26 && s[k] == "abcdefghijklmnopqrstuvwxyz"[i] ==>
              ToUpper(s)[k] == "ABCDEFGHIJKLMNOPQRSTUVWXYZ"[i]
    ensures s[k] < '\U{0080}' && s[k] !in "abcdefghijklmnopqrstuvwxyz" ==> ToUpper(s)[k] == s[k]
  {
    AlphabetsCount();
    if 'a' <= s[k] <= 'z' {
      assert "abcdefghijklmnopqrstuvwxyz"[s[k] as int - 97] == s[k];
    }
  }

  lemma ReplaceCharHead(s: string, c: char, to: string)
    requires s != ""
    ensures ReplaceAll(s, [c], to) == (if s[0] == c then to else [s[0]]) + ReplaceAll(s[1..], [c], to)
  {
    assert s[..1] == [s[0]];
  }

  lemma ReplaceCharFirst(first: char, rest: string, c: char, to: string)
    ensures ReplaceAll([first] + rest, [c], to) == (if first == c then to else [first]) + ReplaceAll(rest, [c], to)
  {
    ReplaceCharHead([first] + rest, c, to);
    assert ([first] + rest)[1..] == rest;
  }

  lemma ReplaceConcatStep(first: char, a: string, b: string, c: char, to: string)
    requires ReplaceAll(a + b, [c], to) == ReplaceAll(a, [c], to) + ReplaceAll(b, [c], to)
    ensures ReplaceAll([first] + a + b, [c], to) == ReplaceAll([first] + a, [c], to) + ReplaceAll(b, [c], to)
  {
    AppendIsAssociative([first], a, b);
    ReplaceCharFirst(first, a, c, to);
    ReplaceCharFirst(first, a + b, c, to);
    AppendIsAssociative(if first == c then to else [first], ReplaceAll(a, [c], to), ReplaceAll(b, [c], to));
  }

  /** Replacing a single character acts character by character. */
  lemma {:induction false} ReplaceCharConcat(a: string, b: string, c: char, to: string)
    ensures ReplaceAll(a + b, [c], to) == ReplaceAll(a, [c], to) + ReplaceAll(b, [c], to)
  {
    if a == "" {
      assert a + b == b;
    } else {
      ReplaceCharConcat(a[1..], b, c, to);
      ReplaceConcatStep(a[0], a[1..], b, c, to);
      assert [a[0]] + a[1..] == a;
    }
  }
}
