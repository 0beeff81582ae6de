/** The glob patterns of `assume_role` resources: pkg/athenz/model.go, `roleReplacer`. */
module RoleGlob {
  import opened Regex
  import opened Sequences

  /** The replacement `roleReplacer` makes for one character. */
  function ReplaceOne(c: char): string {
    if c == '*' then ".*"
    else if c == '?' then "."
    else if c in "^$.|[+\\(){" then ['\\', c]
    else [c]
  }

  function Replace(pattern: string): string {
    if pattern == "" then "" else ReplaceOne(pattern[0]) + Replace(pattern[1..])
  }

  /** The expression text handed to `regexp.MatchString`. */
  function ExpressionText(pattern: string): string {
    "^" + Replace(pattern) + "$"
  }

  datatype Parsed = SyntaxError | Program(nodes: seq<Node>)

  predicate IsWordChar(c: char) {
    'a' <= c <= 'z' || 'A' <= c <= 'Z' || '0' <= c <= '9'
  }

  /** One RE2 atom at the head of `text`, with the number of characters it takes. Character classes,
      groups, alternation and escapes with a meaning of their own lie outside the fragment. */
  function ParseAtom(text: string): (r: (Parsed, nat))
    requires text != ""
    ensures r.0.Program? ==> 0 < r.1 <= |text| && |r.0.nodes| == 1
  {
    var c := text[0];
    if c == '^' then (Program([BeginText]), 1)
    else if c == '$' then (Program([EndText]), 1)
    else if c == '.' then (Program([One(AnyButNewline)]), 1)
    else if c == '\\' then
      if |text| > 1 && text[1] < '\U{0080}' && !IsWordChar(text[1]) then (Program([One(Exactly(text[1]))]), 2)
      else (SyntaxError, 0)
    else if c in "|[(){+*?" then (SyntaxError, 0)
    else (Program([One(Exactly(c))]), 1)
  }

  function Prepend(n: Node, p: Parsed): Parsed {
    if p.SyntaxError? then SyntaxError else Program([n] + p.nodes)
  }

  /** The RE2 parser on the fragment: atoms, each with at most a greedy star. */
  function Parse(text: string): Parsed
    decreases |text|
  {
    if text == "" then Program([])
    else
      var (atom, n) := ParseAtom(text);
      if atom.SyntaxError? then SyntaxError
      else
        var rest := text[n..];
        if rest != "" && rest[0] in "+?{" then SyntaxError
        else if rest != "" && rest[0] == '*' then
          if !atom.nodes[0].One? || (|rest| > 1 && rest[1] in "*+?{") then SyntaxError
          else Prepend(Many(atom.nodes[0].class_, ""), Parse(rest[1..]))
        else Prepend(atom.nodes[0], Parse(rest))
  }

  /** What one pattern character stands for. */
  function Meaning(c: char): Node {
    if c == '*' then Many(AnyButNewline, "")
    else if c == '?' then One(AnyButNewline)
    else One(Exactly(c))
  }

  function Meanings(pattern: string): (re: seq<Node>)
    ensures |re| == |pattern|
  {
    seq(|pattern|, i requires 0 <= i < |pattern| => Meaning(pattern[i]))
  }

  /** The glob language itself. A `*` stands for any sequence and a `?` for any one character;
      the characters in `barred` are matched by neither. */
  predicate Glob(pattern: string, name: string, barred: set<char>)
    decreases |pattern| + |name|
  {
    if pattern == "" then name == ""
    else if pattern[0] == '*' then
      || Glob(pattern[1..], name, barred)
      || (name != "" && name[0] !in barred && Glob(pattern, name[1..], barred))
    else
      && name != ""
      && (if pattern[0] == '?' then name[0] !in barred else name[0] == pattern[0])
      && Glob(pattern[1..], name[1..], barred)
  }

  /** No replacement begins with a repetition operator, so none ever applies to a replacement before it. */
  lemma ReplacementsDoNotInterfere(pattern: string)
    ensures var text := Replace(pattern) + "$"; text != "" && text[0] !in "*+?{"
  {
  }

  /** What is written for one pattern character is one atom; a `*` follows it only for the star itself. */
  lemma ReplacementIsAtom(c: char, rest: string)
    requires rest != ""
    ensures c != '*' ==>
              && ParseAtom(ReplaceOne(c) + rest) == (Program([Meaning(c)]), |ReplaceOne(c)|)
              && (ReplaceOne(c) + rest)[|ReplaceOne(c)|..] == rest
    ensures c == '*' ==>
              && ParseAtom(ReplaceOne(c) + rest) == (Program([One(AnyButNewline)]), 1)
              && (ReplaceOne(c) + rest)[1..] == "*" + rest
              && ("*" + rest)[1..] == rest
  {
    var text := ReplaceOne(c) + rest;
    if c != '*' && c != '?' && c in "^$.|[+\\(){" {
      assert c < '\U{0080}' && !IsWordChar(c);
      assert text[0] == '\\' && text[1] == c;
    }
  }

  /** What is written for one pattern character parses to its meaning, whatever follows. */
  lemma ReplacementParses(c: char, rest: string, nodes: seq<Node>)
    requires rest != "" && rest[0] !in "*+?{" && Parse(rest) == Program(nodes)
    ensures Parse(ReplaceOne(c) + rest) == Program([Meaning(c)] + nodes)
  {
    ReplacementIsAtom(c, rest);
  }

  lemma NothingParses()
    ensures Parse(Replace("") + "$") == Program(Meanings("") + [EndText])
  {
    assert Replace("") + "$" == "$" && "$"[1..] == "";
    assert Meanings("") + [EndText] == [EndText];
  }

  lemma MeaningsHead(pattern: string)
    requires pattern != ""
    ensures Meanings(pattern) == [Meaning(pattern[0])] + Meanings(pattern[1..])
  {
    var tail := Meanings(pattern[1..]);
    forall i | 0 <= i < |pattern| ensures Meanings(pattern)[i] == ([Meaning(pattern[0])] + tail)[i] {
      if i > 0 {
        assert tail[i - 1] == Meaning(pattern[1..][i - 1]);
      }
    }
  }

  lemma HeadComesFirst(pattern: string)
    requires pattern != ""
    ensures Replace(pattern) + "$" == ReplaceOne(pattern[0]) + (Replace(pattern[1..]) + "$")
    ensures Meanings(pattern) + [EndText] == [Meaning(pattern[0])] + (Meanings(pattern[1..]) + [EndText])
  {
    AppendIsAssociative(ReplaceOne(pattern[0]), Replace(pattern[1..]), "$");
    MeaningsHead(pattern);
    AppendIsAssociative([Meaning(pattern[0])], Meanings(pattern[1..]), [EndText]);
  }

  lemma AnchoredProgram(body: seq<Node>, name: string)
    ensures Find([BeginText] + body + [EndText], name, 0) == MatchAt(body + [EndText], name, 0)
  {
    var re := [BeginText] + body + [EndText];
    assert re[1..] == body + [EndText];
    AnchoredFind(re, name);
  }

  /** The text written for the tail of a pattern parses to the tail's meaning. */
  lemma {:induction false} ReplacedTextParses(pattern: string)
    ensures Parse(Replace(pattern) + "$") == Program(Meanings(pattern) + [EndText])
  {
    if pattern == "" {
      NothingParses();
    } else {
      ReplacedTextParses(pattern[1..]);
      ReplacementsDoNotInterfere(pattern[1..]);
      ReplacementParses(pattern[0], Replace(pattern[1..]) + "$", Meanings(pattern[1..]) + [EndText]);
      HeadComesFirst(pattern);
    }
  }

  lemma BeginTextParses(rest: string)
    requires rest == "" || rest[0] !in "*+?{"
    ensures Parse("^" + rest) == Prepend(BeginText, Parse(rest))
  {
    assert ("^" + rest)[1..] == rest;
  }

  /** Every pattern compiles, and to the expected program. */
  lemma ExpressionParses(pattern: string)
    ensures Parse(ExpressionText(pattern)) == Program([BeginText] + Meanings(pattern) + [EndText])
  {
    AppendIsAssociative("^", Replace(pattern), "$");
    ReplacedTextParses(pattern);
    ReplacementsDoNotInterfere(pattern);
    BeginTextParses(Replace(pattern) + "$");
    AppendIsAssociative([BeginText], Meanings(pattern), [EndText]);
  }

  /** The rest of the pattern accepts the name from some position of a range. */
  ghost predicate AcceptsFromSome(rest: string, name: string, i: nat, j: nat)
    requires i <= j <= |name|
  {
    exists x :: i <= x <= j && Glob(rest, name[x..], {'\n'})
  }

  /** A star in the glob reaches any position of the run of accepted characters. */
  lemma {:induction false} StarMeetsGlob(rest: string, name: string, i: nat, j: nat)
    requires i <= j <= |name| && j == RunEnd(AnyButNewline, name, i)
    ensures Glob("*" + rest, name[i..], {'\n'}) <==> AcceptsFromSome(rest, name, i, j)
    decreases j - i
  {
    assert ("*" + rest)[1..] == rest;
    if i < j {
      StarMeetsGlob(rest, name, i + 1, j);
      assert name[i..][1..] == name[i + 1..];
    } else {
      assert i < |name| ==> name[i..][0] == name[i];
    }
  }

  /** A leading star: the program's longest-first search against the glob's choice of an end. */
  lemma ProgramStar(tail: seq<Node>, rest: string, name: string, i: nat, j: nat)
    requires i <= j <= |name|
    requires forall x :: i <= x <= j ==>
      (MatchAt(tail, name, x).Matched? <==> Glob(rest, name[x..], {'\n'}))
    ensures MatchesFromSome(tail, name, i, j) <==> AcceptsFromSome(rest, name, i, j)
  {
  }

  lemma {:induction false} ProgramMeetsGlob(pattern: string, name: string, i: nat)
    requires i <= |name|
    ensures MatchAt(Meanings(pattern) + [EndText], name, i).Matched? <==> Glob(pattern, name[i..], {'\n'})
    decreases |pattern|
  {
    var re := Meanings(pattern) + [EndText];
    if pattern == "" {
      assert re == [EndText];
      assert re[1..] == [];
    } else {
      var tail := Meanings(pattern[1..]) + [EndText];
      assert re[0] == Meaning(pattern[0]) && re[1..] == tail;
      forall x | i <= x <= |name|
        ensures MatchAt(tail, name, x).Matched? <==> Glob(pattern[1..], name[x..], {'\n'})
      {
        ProgramMeetsGlob(pattern[1..], name, x);
      }
      if pattern[0] == '*' {
        var j := RunEnd(AnyButNewline, name, i);
        ManyMatchesIff(re, name, i, j);
        StarMeetsGlob(pattern[1..], name, i, j);
        ProgramStar(tail, pattern[1..], name, i, j);
        assert pattern == "*" + pattern[1..];
      } else if i < |name| {
        assert name[i..][1..] == name[i + 1..];
      }
    }
  }

  /** `regexp.MatchString("^" + roleReplacer.Replace(pattern) + "$", name)`. */
  predicate RoleMatches(pattern: string, name: string) {
    var p := Parse(ExpressionText(pattern));
    p.Program? && MatchString(p.nodes, name)
  }

  /** Compilation never fails, and the compiled expression accepts exactly the names the glob accepts,
      where the wildcards leave out the newline. */
  lemma CompiledGlobMeaning(pattern: string, name: string)
    ensures Parse(ExpressionText(pattern)).Program?
    ensures RoleMatches(pattern, name) <==> Glob(pattern, name, {'\n'})
  {
    ExpressionParses(pattern);
    AnchoredProgram(Meanings(pattern), name);
    ProgramMeetsGlob(pattern, name, 0);
    assert name[0..] == name;
  }

  /** What one character of a pattern stands for in a name. */
  predicate Fits(c: char, part: string, barred: set<char>) {
    if c == '*' then forall x :: x in part ==> x !in barred
    else if c == '?' then |part| == 1 && part[0] !in barred
    else part == [c]
  }

  function Joined(parts: seq<string>): string {
    if parts == [] then "" else parts[0] + Joined(parts[1..])
  }

  /** The name falls into parts, one for each character of the pattern. */
  ghost predicate FallsInto(pattern: string, name: string, parts: seq<string>, barred: set<char>) {
    |parts| == |pattern| && Joined(parts) == name && forall i :: 0 <= i < |pattern| ==> Fits(pattern[i], parts[i], barred)
  }

  lemma OneMorePart(pattern: string, name: string, parts: seq<string>, barred: set<char>, c: char, part: string)
    requires FallsInto(pattern, name, parts, barred) && Fits(c, part, barred)
    ensures FallsInto([c] + pattern, part + name, [part] + parts, barred)
  {
    assert ([part] + parts)[1..] == parts;
  }

  lemma FirstPart(pattern: string, name: string, parts: seq<string>, barred: set<char>)
    requires pattern != "" && FallsInto(pattern, name, parts, barred)
    ensures parts[0] <= name && Fits(pattern[0], parts[0], barred)
    ensures FallsInto(pattern[1..], name[|parts[0]|..], parts[1..], barred)
  {
    assert name == parts[0] + Joined(parts[1..]);
  }

  /** A star may swallow one more character. */
  lemma LongerStar(pattern: string, name: string, parts: seq<string>, barred: set<char>, x: char)
    requires pattern != "" && pattern[0] == '*' && FallsInto(pattern, name, parts, barred) && x !in barred
    ensures FallsInto(pattern, [x] + name, [[x] + parts[0]] + parts[1..], barred)
  {
    var more := [[x] + parts[0]] + parts[1..];
    assert more[1..] == parts[1..];
    assert ([x] + parts[0]) + Joined(parts[1..]) == [x] + (parts[0] + Joined(parts[1..]));
  }

  lemma {:induction false} GlobFallsInto(pattern: string, name: string, barred: set<char>) returns (parts: seq<string>)
    requires Glob(pattern, name, barred)
    ensures FallsInto(pattern, name, parts, barred)
    decreases |pattern| + |name|
  {
    if pattern == "" {
      parts := [];
    } else {
      var c, tail := pattern[0], pattern[1..];
      assert pattern == [c] + tail;
      if c == '*' && Glob(tail, name, barred) {
        var rest := GlobFallsInto(tail, name, barred);
        OneMorePart(tail, name, rest, barred, c, "");
        assert "" + name == name;
        parts := [""] + rest;
      } else if c == '*' {
        assert name == [name[0]] + name[1..];
        var rest := GlobFallsInto(pattern, name[1..], barred);
        LongerStar(pattern, name[1..], rest, barred, name[0]);
        parts := [[name[0]] + rest[0]] + rest[1..];
      } else {
        assert name == [name[0]] + name[1..];
        var rest := GlobFallsInto(tail, name[1..], barred);
        OneMorePart(tail, name[1..], rest, barred, c, [name[0]]);
        parts := [[name[0]]] + rest;
      }
    }
  }

  lemma {:induction false} FallsIntoGlob(pattern: string, name: string, parts: seq<string>, barred: set<char>)
    requires FallsInto(pattern, name, parts, barred)
    ensures Glob(pattern, name, barred)
    decreases |pattern| + |name|
  {
    if pattern != "" {
      FirstPart(pattern, name, parts, barred);
      var part := parts[0];
      if pattern[0] == '*' && part != "" {
        var shorter := [part[1..]] + parts[1..];
        assert shorter[1..] == parts[1..] && name == part + name[|part|..];
        assert name[1..] == part[1..] + name[|part|..];
        assert FallsInto(pattern, name[1..], shorter, barred);
        FallsIntoGlob(pattern, name[1..], shorter, barred);
      } else {
        FallsIntoGlob(pattern[1..], name[|part|..], parts[1..], barred);
        assert name[0..] == name;
      }
    }
  }

  /** The glob language by its parts: a star stands for any part without barred characters, a question mark for one such
      character, any other character for itself. */
  lemma GlobMeaning(pattern: string, name: string, barred: set<char>)
    ensures Glob(pattern, name, barred) <==> exists parts :: FallsInto(pattern, name, parts, barred)
  {
    if Glob(pattern, name, barred) {
      var parts := GlobFallsInto(pattern, name, barred);
    }
    if parts :| FallsInto(pattern, name, parts, barred) {
      FallsIntoGlob(pattern, name, parts, barred);
    }
  }

  lemma {:induction false} BarringAbsentChar(pattern: string, name: string, c: char)
    requires c !in name
    ensures Glob(pattern, name, {c}) <==> Glob(pattern, name, {})
    decreases |pattern| + |name|
  {
    if pattern != "" {
      if pattern[0] == '*' {
        BarringAbsentChar(pattern[1..], name, c);
        if name != "" {
          BarringAbsentChar(pattern, name[1..], c);
        }
      } else if name != "" {
        BarringAbsentChar(pattern[1..], name[1..], c);
      }
    }
  }

  lemma {:induction false} StarMatchesAll(name: string)
    ensures Glob("*", name, {})
    ensures Glob("*", name, {'\n'}) <==> '\n' !in name
  {
    assert "*"[1..] == "";
    if name != "" {
      StarMatchesAll(name[1..]);
    }
  }

  /** For a given name the compiled expressions agree with the plain glob language on all patterns
      exactly when the name has no newline. */
  lemma PlainGlobMeaning(name: string)
    ensures (forall pattern :: RoleMatches(pattern, name) <==> Glob(pattern, name, {})) <==> '\n' !in name
  {
    forall pattern ensures RoleMatches(pattern, name) <==> Glob(pattern, name, {'\n'}) {
      CompiledGlobMeaning(pattern, name);
    }
    if '\n' !in name {
      forall pattern ensures RoleMatches(pattern, name) <==> Glob(pattern, name, {}) {
        BarringAbsentChar(pattern, name, '\n');
      }
    } else {
      StarMatchesAll(name);
      assert RoleMatches("*", name) != Glob("*", name, {});
    }
  }
}
