/** Assertion resources `<domain>:svc.<service>[:<path>]`: pkg/istio/rbac/common/util.go, `ParseAssertionResource`. */
module AssertionResource {
  import opened AthenzData
  import opened Regex
  import opened Sequences

  datatype ResourceError = ForeignDomain | NoService
  datatype Target = Target(svc: string, path: string)

  const DOMAIN := "domain"
  const SVC := "svc"
  const PATH := "path"

  /** `\A(?P<domain>.*):svc.(?P<svc>[^:]*)[:]?(?P<path>.*)\z` */
  const RESOURCE_REGEX: seq<Node> := [BeginText] + AFTER_BEGIN
  const AFTER_BEGIN: seq<Node> := [Many(AnyButNewline, DOMAIN)] + AFTER_DOMAIN
  const AFTER_DOMAIN: seq<Node> :=
    [One(Exactly(':')), One(Exactly('s')), One(Exactly('v')), One(Exactly('c')), One(AnyButNewline)] + AFTER_MARK
  const AFTER_MARK: seq<Node> := [Many(AllBut(':'), SVC)] + AFTER_SVC
  const AFTER_SVC: seq<Node> := [Maybe(Exactly(':'))] + AFTER_COLON
  const AFTER_COLON: seq<Node> := [Many(AnyButNewline, PATH), EndText]

  /** `:svc` and one more character that is not a newline stand at position `k`. */
  predicate MarkAt(r: string, k: int) {
    0 <= k && k + 5 <= |r| && r[k] == ':' && r[k + 1] == 's' && r[k + 2] == 'v' && r[k + 3] == 'c' && r[k + 4] != '\n'
  }

  /** The last mark at or before `n`, or -1. */
  function LastMark(r: string, n: int): (k: int)
    ensures -1 <= k <= n || k == -1
    ensures k >= 0 ==> MarkAt(r, k)
    ensures forall x :: k < x <= n ==> !MarkAt(r, x)
    decreases n + 1
  {
    if n < 0 then -1 else if MarkAt(r, n) then n else LastMark(r, n - 1)
  }

  /** Where the service segment that starts at `y` ends: at the next colon or at the end. */
  function SvcEnd(r: string, y: nat): (q: nat)
    requires y <= |r|
    ensures y <= q <= |r|
  {
    RunEnd(AllBut(':'), r, y)
  }

  function PathStart(r: string, y: nat): (z: nat)
    requires y <= |r|
    ensures y <= z <= |r|
  {
    var q := SvcEnd(r, y);
    if q < |r| then q + 1 else q
  }

  /** What the part of the expression after the mark yields at `y`. */
  function AfterMark(r: string, y: nat): MatchResult
    requires y <= |r|
  {
    var z := PathStart(r, y);
    if '\n' in r[z..] then NoMatch else Matched(map[PATH := r[z..]][SVC := r[y..SvcEnd(r, y)]])
  }

  lemma PathMatch(r: string, z: nat)
    requires z <= |r|
    ensures MatchAt(AFTER_COLON, r, z) == if '\n' in r[z..] then NoMatch else Matched(map[PATH := r[z..]])
  {
    var re := AFTER_COLON;
    var end := RunEnd(AnyButNewline, r, z);
    assert re[1..] == [EndText] && re[1..][1..] == [];
    if '\n' in r[z..] {
      var i :| 0 <= i < |r[z..]| && r[z..][i] == '\n';
      assert r[z + i] == '\n';
      assert end < |r|;
      ManyMatchesIff(re, r, z, end);
    } else {
      assert forall i :: z <= i < |r| ==> r[i] == r[z..][i - z] && r[i] != '\n';
      assert r[z..end] == r[z..];
      assert MatchAt([EndText], r, |r|) == Matched(map[]);
    }
  }

  lemma MaybeMatch(re: seq<Node>, r: string, x: nat)
    requires x <= |r| && re != [] && re[0].Maybe?
    ensures var here := MatchAt(re[1..], r, x);
            MatchAt(re, r, x) ==
            if x < |r| && Accepts(re[0].class_, r[x]) && MatchAt(re[1..], r, x + 1).Matched?
            then MatchAt(re[1..], r, x + 1) else here
  {
  }

  lemma NewlineFrom(r: string, x: nat)
    requires x < |r|
    ensures '\n' in r[x..] <==> r[x] == '\n' || '\n' in r[x + 1..]
  {
    assert r[x..] == [r[x]] + r[x + 1..];
  }

  /** The optional colon is taken whenever it is there; giving it back never helps. */
  lemma ColonMatch(r: string, x: nat)
    requires x <= |r|
    ensures var z := if x < |r| && r[x] == ':' then x + 1 else x;
            MatchAt(AFTER_SVC, r, x) == if '\n' in r[z..] then NoMatch else Matched(map[PATH := r[z..]])
  {
    assert AFTER_SVC[1..] == AFTER_COLON && AFTER_SVC[0] == Maybe(Exactly(':'));
    MaybeMatch(AFTER_SVC, r, x);
    PathMatch(r, x);
    if x < |r| {
      PathMatch(r, x + 1);
      NewlineFrom(r, x);
    }
  }

  /** A newline in the path rules out every shorter segment too. */
  lemma NewlineBarsTail(r: string, y: nat)
    requires y <= |r| && '\n' in r[PathStart(r, y)..]
    ensures MatchManyUpTo(AFTER_MARK, r, y, SvcEnd(r, y)).NoMatch?
  {
    var q, z := SvcEnd(r, y), PathStart(r, y);
    assert AFTER_MARK[1..] == AFTER_SVC;
    forall x | y <= x <= q ensures MatchAt(AFTER_SVC, r, x).NoMatch? {
      ColonMatch(r, x);
      assert r[x..] == r[x..z] + r[z..];
    }
    ManyMatchesIff(AFTER_MARK, r, y, q);
  }

  /** After the mark the longest service segment is the only one that can lead to a match. */
  lemma TailMatch(r: string, y: nat)
    requires y <= |r|
    ensures MatchAt(AFTER_MARK, r, y) == AfterMark(r, y)
  {
    var q, z := SvcEnd(r, y), PathStart(r, y);
    assert MatchAt(AFTER_MARK, r, y) == MatchManyUpTo(AFTER_MARK, r, y, q);
    if '\n' in r[z..] {
      NewlineBarsTail(r, y);
    } else {
      assert AFTER_MARK[1..] == AFTER_SVC;
      ColonMatch(r, q);
    }
  }

  lemma OneMatch(re: seq<Node>, r: string, x: nat)
    requires x <= |r| && re != [] && re[0].One?
    ensures MatchAt(re, r, x) ==
            if x < |r| && Accepts(re[0].class_, r[x]) then MatchAt(re[1..], r, x + 1) else NoMatch
  {
  }

  /** The literal part of the expression accepts exactly a mark. */
  lemma MarkMatch(r: string, x: nat)
    requires x <= |r|
    ensures MatchAt(AFTER_DOMAIN, r, x) == if MarkAt(r, x) then AfterMark(r, x + 5) else NoMatch
  {
    var re0 := AFTER_DOMAIN;
    var re1, re2 := re0[1..], re0[2..];
    var re3, re4 := re0[3..], re0[4..];
    assert re1[1..] == re2 && re2[1..] == re3 && re3[1..] == re4 && re4[1..] == AFTER_MARK;
    if x + 5 <= |r| {
      TailMatch(r, x + 5);
      OneMatch(re4, r, x + 4);
      OneMatch(re3, r, x + 3);
      OneMatch(re2, r, x + 2);
      OneMatch(re1, r, x + 1);
    } else {
      if x + 4 <= |r| {
        OneMatch(re4, r, x + 4);
        OneMatch(re3, r, x + 3);
      }
      if x + 3 <= |r| {
        OneMatch(re3, r, x + 3);
        OneMatch(re2, r, x + 2);
      }
      if x + 2 <= |r| {
        OneMatch(re2, r, x + 2);
        OneMatch(re1, r, x + 1);
      }
      if x + 1 <= |r| {
        OneMatch(re1, r, x + 1);
      }
    }
    OneMatch(re0, r, x);
  }

  /** A newline that spoils the path after one mark spoils it after every earlier mark. */
  lemma NewlineSpoilsEarlierMarks(r: string, x: nat, k: nat)
    requires x <= k && k + 5 <= |r| && AfterMark(r, k + 5).NoMatch?
    ensures AfterMark(r, x + 5).NoMatch?
  {
    var z, z' := PathStart(r, k + 5), PathStart(r, x + 5);
    var q := SvcEnd(r, k + 5);
    assert q < |r| && r[q] == ':';
    assert z' <= z;
    assert r[z'..] == r[z'..z] + r[z..];
  }

  /** Where the last mark leads nowhere, no mark does. */
  lemma NoMarkLeadsOn(r: string, j: nat)
    requires j <= |r|
    requires var k := LastMark(r, j); k < 0 || AfterMark(r, k + 5).NoMatch?
    ensures MatchManyUpTo(AFTER_BEGIN, r, 0, j).NoMatch?
  {
    forall x | 0 <= x <= j ensures MatchAt(AFTER_DOMAIN, r, x).NoMatch? {
      MarkMatch(r, x);
      if MarkAt(r, x) {
        NewlineSpoilsEarlierMarks(r, x, LastMark(r, j));
      }
    }
    assert AFTER_BEGIN[1..] == AFTER_DOMAIN;
    ManyMatchesIff(AFTER_BEGIN, r, 0, j);
  }

  /** Where the last mark leads to a match, no later position does. */
  lemma LastMarkLeadsOn(r: string, j: nat)
    requires j <= |r|
    requires var k := LastMark(r, j); k >= 0 && AfterMark(r, k + 5).Matched?
    ensures var k := LastMark(r, j);
            MatchManyUpTo(AFTER_BEGIN, r, 0, j) == Matched(AfterMark(r, k + 5).captures[DOMAIN := r[..k]])
  {
    var k := LastMark(r, j);
    MarkMatch(r, k);
    forall x | k < x <= j ensures MatchAt(AFTER_DOMAIN, r, x).NoMatch? {
      MarkMatch(r, x);
    }
    assert AFTER_BEGIN[1..] == AFTER_DOMAIN;
    ManyTakesLongest(AFTER_BEGIN, r, 0, j, k);
    assert r[0..k] == r[..k];
  }

  lemma ResourceFind(r: string)
    ensures Find(RESOURCE_REGEX, r, 0) == MatchManyUpTo(AFTER_BEGIN, r, 0, RunEnd(AnyButNewline, r, 0))
  {
    assert RESOURCE_REGEX[1..] == AFTER_BEGIN;
    AnchoredFind(RESOURCE_REGEX, r);
  }

  /** What the last mark up to `j` leads to. */
  function AtLastMark(r: string, j: nat): MatchResult
    requires j <= |r|
  {
    var k := LastMark(r, j);
    if k < 0 || AfterMark(r, k + 5).NoMatch? then NoMatch
    else Matched(AfterMark(r, k + 5).captures[DOMAIN := r[..k]])
  }

  lemma UpToLastMark(r: string, j: nat)
    requires j <= |r|
    ensures MatchManyUpTo(AFTER_BEGIN, r, 0, j) == AtLastMark(r, j)
  {
    var k := LastMark(r, j);
    if k < 0 || AfterMark(r, k + 5).NoMatch? {
      NoMarkLeadsOn(r, j);
    } else {
      LastMarkLeadsOn(r, j);
    }
  }

  /** The greedy search settles on the last mark that a newline-free prefix reaches. */
  lemma RegexMeaning(r: string)
    ensures Find(RESOURCE_REGEX, r, 0) == AtLastMark(r, RunEnd(AnyButNewline, r, 0))
  {
    ResourceFind(r);
    UpToLastMark(r, RunEnd(AnyButNewline, r, 0));
  }

  /** The outcome of parsing a resource in the context of a domain. */
  function ParseResource(domain: string, r: string): Result<Target, ResourceError> {
    var k := LastMark(r, RunEnd(AnyButNewline, r, 0));
    if k < 0 || AfterMark(r, k + 5).NoMatch? then Err(NoService)
    else if r[..k] != domain then Err(ForeignDomain)
    else
      var svc := r[k + 5..SvcEnd(r, k + 5)];
      if svc == "" then Err(NoService) else Ok(Target(svc, r[PathStart(r, k + 5)..]))
  }

  /** `ParseAssertionResource`: the submatches are collected in a map and visited in any order. */
  method ParseAssertionResource(domain: string, assertion: Assertion) returns (r: Result<Target, ResourceError>)
    ensures r == ParseResource(domain, assertion.resource)
  {
    var resource := assertion.resource;
    RegexMeaning(resource);
    var found := Find(RESOURCE_REGEX, resource, 0);
    var results: map<string, string> := map[];
    if found.Matched? {
      results := found.captures["" := resource];
    }
    var svc, path := "", "";
    var names := results.Keys;
    while names != {}
      invariant names <= results.Keys
      invariant DOMAIN in results && DOMAIN !in names ==> results[DOMAIN] == domain
      invariant svc == if SVC in results && SVC !in names then results[SVC] else ""
      invariant path == if PATH in results && PATH !in names then results[PATH] else ""
      decreases names
    {
      var name :| name in names;
      names := names - {name};
      if name == DOMAIN {
        if results[name] != domain {
          return Err(ForeignDomain);
        }
      } else if name == SVC {
        svc := results[name];
      } else if name == PATH {
        path := results[name];
      }
    }
    if svc == "" {
      return Err(NoService);
    }
    return Ok(Target(svc, path));
  }

  /** The colon-free text from `y` on, up to the first colon. */
  predicate SegmentThenPath(r: string, y: nat, t: Target)
    requires y <= |r|
  {
    && ':' !in t.svc
    && (r[y..] == t.svc + ":" + t.path || (r[y..] == t.svc && t.path == ""))
  }

  lemma SegmentIsUnique(r: string, y: nat, t: Target)
    requires y <= |r| && SegmentThenPath(r, y, t)
    ensures t.svc == r[y..SvcEnd(r, y)] && t.path == r[PathStart(r, y)..]
  {
    var q, n := SvcEnd(r, y), |t.svc|;
    forall i | 0 <= i < n ensures r[y + i] == t.svc[i] {
      assert r[y..][i] == t.svc[i];
    }
    assert forall i :: y <= i < y + n ==> r[i] == t.svc[i - y] && r[i] != ':';
    if y + n < |r| {
      assert r[y + n] == r[y..][n] == ':';
    }
    assert q == y + n;
    assert r[y..q] == r[y..][..n];
    if q < |r| {
      assert r[q + 1..] == r[y..][n + 1..];
    }
  }

  lemma RestInTwoParts(r: string, y: nat, q: nat)
    requires y <= q <= |r|
    ensures r[y..] == r[y..q] + r[q..]
  {
  }

  lemma SegmentExists(r: string, y: nat)
    requires y <= |r|
    ensures SegmentThenPath(r, y, Target(r[y..SvcEnd(r, y)], r[PathStart(r, y)..]))
  {
    var q, z := SvcEnd(r, y), PathStart(r, y);
    var svc := r[y..q];
    assert forall i :: 0 <= i < |svc| ==> svc[i] == r[y + i] && svc[i] != ':';
    RestInTwoParts(r, y, q);
    if q < |r| {
      RestInTwoParts(r, q, z);
      assert r[q..z] == ":";
      AppendIsAssociative(svc, ":", r[z..]);
    }
  }

  lemma NewlineFreePrefix(r: string, x: nat)
    requires x <= |r|
    ensures '\n' !in r[..x] <==> x <= RunEnd(AnyButNewline, r, 0)
  {
    var j := RunEnd(AnyButNewline, r, 0);
    if x <= j {
      assert forall i :: 0 <= i < x ==> r[..x][i] == r[i];
    } else {
      assert r[..x][j] == '\n';
    }
  }

  /** Exactly when a resource is accepted for a domain, and with which parts: the domain is the longest
      newline-free prefix that a mark follows, the next colon-free segment is the non-empty service, and
      what follows its colon is the newline-free path. */
  lemma ResourceAcceptedIff(domain: string, r: string, t: Target)
    ensures ParseResource(domain, r) == Ok(t) <==>
            && domain <= r && '\n' !in domain && MarkAt(r, |domain|)
            && (forall x :: |domain| < x <= |r| && '\n' !in r[..x] ==> !MarkAt(r, x))
            && t.svc != "" && '\n' !in t.path
            && SegmentThenPath(r, |domain| + 5, t)
  {
    var j := RunEnd(AnyButNewline, r, 0);
    var k := LastMark(r, j);
    forall x | 0 <= x <= |r| ensures '\n' !in r[..x] <==> x <= j {
      NewlineFreePrefix(r, x);
    }
    if domain <= r && '\n' !in domain && MarkAt(r, |domain|) &&
       forall x :: |domain| < x <= |r| && '\n' !in r[..x] ==> !MarkAt(r, x) {
      assert r[..|domain|] == domain;
      assert k == |domain|;
      if SegmentThenPath(r, k + 5, t) {
        SegmentIsUnique(r, k + 5, t);
      }
    }
    if ParseResource(domain, r) == Ok(t) {
      assert domain == r[..k] && |domain| == k;
      SegmentExists(r, k + 5);
    }
  }

  /** No colon follows the one before a colon-free service. */
  lemma NoLaterColon(domain: string, svc: string, x: nat)
    requires ':' !in svc && |domain| < x
    ensures var r := domain + ":svc." + svc; x < |r| ==> r[x] != ':'
  {
    var r := domain + ":svc." + svc;
    if x < |domain| + 5 {
      assert r[x] == ":svc."[x - |domain|];
    } else if x < |r| {
      assert r[x] == svc[x - |domain| - 5];
    }
  }

  lemma MarksOfTail(head: string, tail: string, x: nat)
    requires |head| <= x
    ensures MarkAt(head + tail, x) <==> MarkAt(tail, x - |head|)
  {
    assert forall i :: 0 <= i < |tail| ==> (head + tail)[|head| + i] == tail[i];
  }

  lemma OwnMark(domain: string, rest: string)
    ensures MarkAt(domain + ":svc." + rest, |domain|)
  {
    var r := domain + ":svc." + rest;
    assert forall i :: 0 <= i < 5 ==> r[|domain| + i] == ":svc."[i];
  }

  /** The marks of a printed resource: its own, and those of the path with its colon. */
  lemma PrintedMarks(domain: string, svc: string, path: string)
    requires ':' !in svc
    ensures var r := domain + ":svc." + svc + ":" + path;
            var c := |domain| + 5 + |svc|;
            MarkAt(r, |domain|) && forall x :: |domain| < x ==> (MarkAt(r, x) <==> MarkAt(":" + path, x - c))
  {
    var head, tail := domain + ":svc." + svc, ":" + path;
    AppendIsAssociative(head, ":", path);
    AppendIsAssociative(domain + ":svc.", svc, tail);
    OwnMark(domain, svc + tail);
    forall x: nat | |domain| < x ensures MarkAt(head + tail, x) <==> MarkAt(tail, x - |head|) {
      if x < |head| {
        NoLaterColon(domain, svc, x);
        assert (head + tail)[x] == head[x];
      } else {
        MarksOfTail(head, tail, x);
      }
    }
  }

  lemma PrintedSegment(domain: string, svc: string, path: string)
    requires '\n' !in domain && '\n' !in svc && '\n' !in path && ':' !in svc
    ensures var r := domain + ":svc." + svc + ":" + path;
            '\n' !in r && domain <= r && SegmentThenPath(r, |domain| + 5, Target(svc, path))
  {
    var r := domain + ":svc." + svc + ":" + path;
    assert r[|domain| + 5..] == svc + ":" + path;
  }

  /** The marks of a printed resource after its own are those of the path with its colon. */
  lemma LaterMarks(domain: string, svc: string, path: string)
    requires '\n' !in domain && '\n' !in svc && '\n' !in path && ':' !in svc
    ensures var r := domain + ":svc." + svc + ":" + path;
            (forall x :: |domain| < x <= |r| && '\n' !in r[..x] ==> !MarkAt(r, x)) <==> forall x :: !MarkAt(":" + path, x)
  {
    var r, c := domain + ":svc." + svc + ":" + path, |domain| + 5 + |svc|;
    PrintedMarks(domain, svc, path);
    assert '\n' !in r;
    if x :| MarkAt(":" + path, x) {
      assert |domain| < x + c <= |r| && MarkAt(r, x + c);
    }
  }

  /** Printing a service and a path under a domain and parsing the text back gives the same parts
      exactly when no further mark begins at the colon of the path or later. */
  lemma ResourceRoundTrip(domain: string, svc: string, path: string)
    requires '\n' !in domain && '\n' !in svc && '\n' !in path
    requires svc != "" && ':' !in svc
    ensures ParseResource(domain, domain + ":svc." + svc + ":" + path) == Ok(Target(svc, path)) <==>
            forall x :: !MarkAt(":" + path, x)
  {
    ResourceAcceptedIff(domain, domain + ":svc." + svc + ":" + path, Target(svc, path));
    PrintedSegment(domain, svc, path);
    PrintedMarks(domain, svc, path);
    LaterMarks(domain, svc, path);
  }
}
