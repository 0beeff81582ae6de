/**
 The part of Go's `regexp` package (RE2 syntax, leftmost-first matching) that the repository's
 expressions need: concatenations of single characters, greedy stars, greedy options and the two
 text anchors. A match is the first one a backtracking search would find.
 */
module Regex {

  datatype CharClass =
    | AnyButNewline        // .
    | Exactly(c: char)     // a literal
    | AllBut(c: char)      // [^c]

  datatype Node =
    | BeginText                          // \A, and ^ outside multi-line mode
    | EndText                            // \z, and $ outside multi-line mode
    | One(class_: CharClass)
    | Maybe(class_: CharClass)
    | Many(class_: CharClass, group: string)  // greedy star; a named group, or "" for none

  type Captures = map<string, string>
  datatype MatchResult = NoMatch | Matched(captures: Captures)

  predicate Accepts(k: CharClass, c: char) {
    match k
    case AnyButNewline => c != '\n'
    case Exactly(d) => c == d
    case AllBut(d) => c != d
  }

  /** Where the longest run of accepted characters from `i` ends. */
  function RunEnd(k: CharClass, s: string, i: nat): (j: nat)
    requires i <= |s|
    ensures i <= j <= |s|
    ensures forall x :: i <= x < j ==> Accepts(k, s[x])
    ensures j < |s| ==> !Accepts(k, s[j])
    decreases |s| - i
  {
    if i < |s| && Accepts(k, s[i]) then RunEnd(k, s, i + 1) else i
  }

  /** The preferred match of `re` against `s` that starts at `i`. */
  function MatchAt(re: seq<Node>, s: string, i: nat): MatchResult
    requires i <= |s|
    decreases |re|, |s| + 1
  {
    if re == [] then Matched(map[])
    else match re[0]
      case BeginText => if i == 0 then MatchAt(re[1..], s, i) else NoMatch
      case EndText => if i == |s| then MatchAt(re[1..], s, i) else NoMatch
      case One(k) => if i < |s| && Accepts(k, s[i]) then MatchAt(re[1..], s, i + 1) else NoMatch
      case Maybe(k) =>
        var taken := if i < |s| && Accepts(k, s[i]) then MatchAt(re[1..], s, i + 1) else NoMatch;
        if taken.Matched? then taken else MatchAt(re[1..], s, i)
      case Many(k, group) => MatchManyUpTo(re, s, i, RunEnd(k, s, i))
  }

  /** A star gives characters back one at a time until the rest matches. */
  function MatchManyUpTo(re: seq<Node>, s: string, i: nat, j: nat): MatchResult
    requires re != [] && re[0].Many? && i <= j <= |s|
    decreases |re|, j
  {
    var rest := MatchAt(re[1..], s, j);
    if rest.Matched? then
      Matched(if re[0].group == "" then rest.captures else rest.captures[re[0].group := s[i..j]])
    else if i < j then MatchManyUpTo(re, s, i, j - 1)
    else NoMatch
  }

  /** `FindStringSubmatch`: the leftmost start that matches at or after `from`. */
  function Find(re: seq<Node>, s: string, from: nat): MatchResult
    requires from <= |s|
    decreases |s| - from
  {
    var here := MatchAt(re, s, from);
    if here.Matched? || from == |s| then here else Find(re, s, from + 1)
  }

  /** `MatchString`. */
  predicate MatchString(re: seq<Node>, s: string) {
    Find(re, s, 0).Matched?
  }

  /** An expression anchored at the beginning can only match there. */
  lemma {:induction false} AnchoredFindsNothingLater(re: seq<Node>, s: string, from: nat)
    requires re != [] && re[0].BeginText? && 0 < from <= |s|
    ensures Find(re, s, from) == NoMatch
    decreases |s| - from
  {
    if from < |s| {
      AnchoredFindsNothingLater(re, s, from + 1);
    }
  }

  lemma AnchoredFind(re: seq<Node>, s: string)
    requires re != [] && re[0].BeginText?
    ensures Find(re, s, 0) == MatchAt(re[1..], s, 0)
  {
    if |s| > 0 {
      AnchoredFindsNothingLater(re, s, 1);
    }
  }

  /** Which part of a run a star keeps: the longest one after which the rest matches. */
  lemma {:induction false} ManyTakesLongest(re: seq<Node>, s: string, i: nat, j: nat, k: nat)
    requires re != [] && re[0].Many? && i <= k <= j <= |s|
    requires MatchAt(re[1..], s, k).Matched?
    requires forall x :: k < x <= j ==> MatchAt(re[1..], s, x).NoMatch?
    ensures MatchManyUpTo(re, s, i, j) == MatchManyUpTo(re, s, i, k)
    decreases j
  {
    if k < j {
      ManyTakesLongest(re, s, i, j - 1, k);
    }
  }

  /** The rest of an expression matches from some position of a range. */
  ghost predicate MatchesFromSome(re: seq<Node>, s: string, i: nat, j: nat)
    requires i <= j <= |s|
  {
    exists x :: i <= x <= j && MatchAt(re, s, x).Matched?
  }

  /** A star fails only when the rest matches after no part of the run. */
  lemma {:induction false} ManyMatchesIff(re: seq<Node>, s: string, i: nat, j: nat)
    requires re != [] && re[0].Many? && i <= j <= |s|
    ensures MatchManyUpTo(re, s, i, j).Matched? <==> MatchesFromSome(re[1..], s, i, j)
    decreases j
  {
    var tail := re[1..];
    if MatchAt(tail, s, j).Matched? {
      assert i <= j <= j && MatchAt(tail, s, j).Matched?;
    } else if i < j {
      ManyMatchesIff(re, s, i, j - 1);
    }
  }
}
