/** Which paths a .dockerignore file keeps out of the build context. */
module BuildContext {
  import opened Wrappers
  import opened Texts

  // ---------------------------------------------------------------- patterns as regexes

  /** The pieces of a translated pattern: `.*`, `[^/]*`, `[^/]` and an escaped character. */
  datatype Token = AnyPath | AnyName | AnyChar | Only(c: char)

  predicate SpansAt(pattern: string, index: nat) {
    index + 1 < |pattern| && pattern[index] == '*' && pattern[index + 1] == '*'
  }

  /** The translation, by its first piece. */
  function Tokens(pattern: string): seq<Token>
    decreases |pattern|
  {
    if pattern == "" then []
    else if SpansAt(pattern, 0) then [AnyPath] + Tokens(pattern[2..])
    else if pattern[0] == '*' then [AnyName] + Tokens(pattern[1..])
    else if pattern[0] == '?' then [AnyChar] + Tokens(pattern[1..])
    else [Only(pattern[0])] + Tokens(pattern[1..])
  }

  /** `_to_regex`. */
  method ToRegex(pattern: string) returns (out: seq<Token>)
    ensures out == Tokens(pattern)
  {
    out := [];
    var index := 0;
    while index < |pattern|
      invariant index <= |pattern| && out + Tokens(pattern[index..]) == Tokens(pattern)
    {
      var rest := pattern[index..];
      if SpansAt(pattern, index) {
        assert rest[2..] == pattern[index + 2..];
        out := out + [AnyPath];
        index := index + 2;
      } else {
        assert rest[1..] == pattern[index + 1..];
        var token := if pattern[index] == '*' then AnyName else if pattern[index] == '?' then AnyChar
          else Only(pattern[index]);
        assert Tokens(rest) == [token] + Tokens(rest[1..]);
        out := out + [token];
        index := index + 1;
      }
    }
  }

  /** The strings a piece matches; a dot matches no line break. */
  ghost predicate Piece(token: Token, s: string) {
    match token
    case AnyPath => Free(s, '\n')
    case AnyName => Free(s, '/')
    case AnyChar => |s| == 1 && s[0] != '/'
    case Only(c) => s == [c]
  }

  /** The whole of s is a piece of the first token, then the rest. */
  ghost predicate Matches(tokens: seq<Token>, s: string)
    decreases |tokens|
  {
    if tokens == [] then s == ""
    else exists k :: 0 <= k <= |s| && Piece(tokens[0], s[..k]) && Matches(tokens[1..], s[k..])
  }

  /** What a pattern means: `*` and `?` stop at a slash, `**` goes on across it. */
  predicate Glob(pattern: string, path: string)
    decreases |pattern|, |path|
  {
    if pattern == "" then path == ""
    else if |pattern| >= 2 && pattern[..2] == "**" then
      Glob(pattern[2..], path) || (path != "" && Glob(pattern, path[1..]))
    else if pattern[0] == '*' then
      Glob(pattern[1..], path) || (path != "" && path[0] != '/' && Glob(pattern, path[1..]))
    else if pattern[0] == '?' then path != "" && path[0] != '/' && Glob(pattern[1..], path[1..])
    else path != "" && path[0] == pattern[0] && Glob(pattern[1..], path[1..])
  }

  // ---------------------------------------------------------------- the translation is right

  predicate IsLoop(token: Token) {
    token.AnyPath? || token.AnyName?
  }

  lemma MatchesCuts(token: Token, rest: seq<Token>, s: string) returns (k: nat)
    requires Matches([token] + rest, s)
    ensures k <= |s| && Piece(token, s[..k]) && Matches(rest, s[k..])
  {
    var all := [token] + rest;
    assert all[0] == token && all[1..] == rest;
    k :| 0 <= k <= |s| && Piece(token, s[..k]) && Matches(rest, s[k..]);
  }

  lemma LoopShorter(token: Token, rest: seq<Token>, s: string)
    requires IsLoop(token) && Matches([token] + rest, s)
    ensures Matches(rest, s) || (s != "" && Piece(token, s[..1]) && Matches([token] + rest, s[1..]))
  {
    var k := MatchesCuts(token, rest, s);
    if k == 0 {
      assert s[0..] == s;
    } else {
      PieceSplits(token, s, k);
      assert s[1..][k - 1..] == s[k..];
    }
  }

  lemma PieceSplits(token: Token, s: string, k: nat)
    requires IsLoop(token) && 1 <= k <= |s| && Piece(token, s[..k])
    ensures Piece(token, s[..1]) && Piece(token, s[1..][..k - 1])
  {
    var u := s[..k];
    assert s[..1] == [u[0]] && s[1..][..k - 1] == u[1..];
  }

  lemma LoopLonger(token: Token, rest: seq<Token>, s: string)
    requires IsLoop(token) && s != "" && Piece(token, s[..1]) && Matches([token] + rest, s[1..])
    ensures Matches([token] + rest, s)
  {
    var t := s[1..];
    var k := MatchesCuts(token, rest, t);
    assert s[..k + 1] == s[..1] + t[..k] && s[k + 1..] == t[k..];
  }

  /** A piece of any length matches nothing, or one more character and the same again. */
  lemma MatchesLoop(token: Token, rest: seq<Token>, s: string)
    requires IsLoop(token)
    ensures Matches([token] + rest, s) <==>
            Matches(rest, s) || (s != "" && Piece(token, s[..1]) && Matches([token] + rest, s[1..]))
  {
    if Matches([token] + rest, s) {
      LoopShorter(token, rest, s);
    }
    if Matches(rest, s) {
      assert s[..0] == "" && s[0..] == s;
    }
    if s != "" && Piece(token, s[..1]) && Matches([token] + rest, s[1..]) {
      LoopLonger(token, rest, s);
    }
  }

  lemma MatchesOne(token: Token, rest: seq<Token>, s: string)
    requires token.AnyChar? || token.Only?
    ensures Matches([token] + rest, s) <==> s != "" && Piece(token, s[..1]) && Matches(rest, s[1..])
  {
    var all := [token] + rest;
    assert all[0] == token && all[1..] == rest;
    if Matches(all, s) {
      var k :| 0 <= k <= |s| && Piece(token, s[..k]) && Matches(rest, s[k..]);
      assert k == 1;
    }
  }

  /** On a path without a line break, or for a pattern without `**`, the regex accepts exactly
      what the pattern means. */
  lemma {:induction false} TranslationAgrees(pattern: string, path: string)
    requires Free(path, '\n') || AnyPath !in Tokens(pattern)
    ensures Matches(Tokens(pattern), path) <==> Glob(pattern, path)
    decreases |pattern|, |path|
  {
    if pattern != "" {
      var token := Tokens(pattern)[0];
      var after := if SpansAt(pattern, 0) then pattern[2..] else pattern[1..];
      assert Tokens(pattern) == [token] + Tokens(after);
      if token.AnyPath? || token.AnyName? {
        MatchesLoop(token, Tokens(after), path);
        TranslationAgrees(after, path);
        if path != "" {
          TranslationAgrees(pattern, path[1..]);
        }
      } else {
        MatchesOne(token, Tokens(after), path);
        if path != "" {
          TranslationAgrees(after, path[1..]);
        }
      }
    }
  }

  lemma {:induction false} StarsTakeAll(path: string)
    ensures Glob("**", path)
  {
    assert "**"[2..] == "";
    if path != "" {
      StarsTakeAll(path[1..]);
    }
  }

  /** The regexes of all patterns are right about a path exactly when it has no line break:
      `**` means any path, but its dot stops at one. */
  lemma RightUnlessALineBreak(path: string)
    ensures (forall pattern :: Matches(Tokens(pattern), path) <==> Glob(pattern, path)) <==> Free(path, '\n')
  {
    if Free(path, '\n') {
      forall pattern ensures Matches(Tokens(pattern), path) <==> Glob(pattern, path) {
        TranslationAgrees(pattern, path);
      }
    } else {
      StarsTakeAll(path);
      assert Matches(Tokens("**"), path) != Glob("**", path);
    }
  }

  function Slashes(s: string): nat {
    Occurrences(s, '/')
  }

  lemma {:induction false} GlobKeepsSlashes(pattern: string, path: string)
    requires AnyPath !in Tokens(pattern) && Glob(pattern, path)
    ensures Slashes(path) == Slashes(pattern)
    decreases |pattern|, |path|
  {
    if pattern != "" {
      assert Tokens(pattern)[0] in Tokens(pattern);
      var after := pattern[1..];
      assert Tokens(pattern) == [Tokens(pattern)[0]] + Tokens(after);
      if pattern[0] == '*' && Glob(after, path) {
        GlobKeepsSlashes(after, path);
      } else if pattern[0] == '*' {
        GlobKeepsSlashes(pattern, path[1..]);
      } else {
        GlobKeepsSlashes(after, path[1..]);
      }
    }
  }

  /** The regex of a pattern without `**` accepts only paths with as many slashes as the
      pattern has. */
  lemma SlashesAreCounted(pattern: string, path: string)
    requires AnyPath !in Tokens(pattern) && Matches(Tokens(pattern), path)
    ensures Slashes(path) == Slashes(pattern)
  {
    TranslationAgrees(pattern, path);
    GlobKeepsSlashes(pattern, path);
  }

  // ---------------------------------------------------------------- rules

  datatype Rule = Rule(tokens: seq<Token>, negated: bool)

  /** `lstrip("!")`. */
  function DropMarks(s: string): string {
    if s != "" && s[0] == '!' then DropMarks(s[1..]) else s
  }

  /** `rstrip("/")`. */
  function DropSlashes(s: string): string {
    if s != "" && s[|s| - 1] == '/' then DropSlashes(s[..|s| - 1]) else s
  }

  function RuleOf(raw: string): Option<Rule> {
    var line := Strip(raw);
    if line == "" || line[0] == '#' then None
    else Some(Rule(Tokens(DropSlashes(DropMarks(line))), line[0] == '!'))
  }

  function RulesOf(lines: seq<string>): seq<Rule> {
    if lines == [] then []
    else
      RulesOf(lines[..|lines| - 1])
      + (var r := RuleOf(lines[|lines| - 1]); if r.Some? then [r.value] else [])
  }

  /** `ignore_rules`, of the lines of the file. */
  method IgnoreRules(lines: seq<string>) returns (rules: seq<Rule>)
    ensures rules == RulesOf(lines)
  {
    rules := [];
    var i := 0;
    while i < |lines|
      invariant 0 <= i <= |lines| && rules == RulesOf(lines[..i])
    {
      assert lines[..i + 1][..i] == lines[..i];
      var line := Strip(lines[i]);
      if line != "" && line[0] != '#' {
        var negated := line[0] == '!';
        var tokens := ToRegex(DropSlashes(DropMarks(line)));
        rules := rules + [Rule(tokens, negated)];
      }
      i := i + 1;
    }
    assert lines[..i] == lines;
  }

  // ---------------------------------------------------------------- excluded paths

  /** The path itself, or a directory it lies under. */
  predicate IsAncestor(a: string, path: string) {
    a == path || (|a| < |path| && a == path[..|a|] && path[|a|] == '/')
  }

  function Candidates(parts: seq<string>): (r: seq<string>)
    ensures |r| == |parts| && forall n :: 0 <= n < |parts| ==> r[n] == Join(parts[..n + 1], '/')
  {
    seq(|parts|, n requires 0 <= n < |parts| => Join(parts[..n + 1], '/'))
  }

  lemma PrefixIsAncestor(parts: seq<string>, n: nat)
    requires 1 <= n <= |parts|
    ensures IsAncestor(Join(parts[..n], '/'), Join(parts, '/'))
  {
    if n == |parts| {
      assert parts[..n] == parts;
    } else {
      JoinAppends(parts[..n], parts[n..], '/');
      assert parts == parts[..n] + parts[n..];
    }
  }

  /** What the comprehension in `is_excluded` enumerates: the path and all its ancestors. */
  lemma CandidatesAreAncestors(path: string, a: string)
    ensures a in Candidates(Split(path, '/')) <==> IsAncestor(a, path)
  {
    var parts := Split(path, '/');
    JoinInvertsSplit(path, '/');
    if a in Candidates(parts) {
      var n :| 0 <= n < |parts| && a == Join(parts[..n + 1], '/');
      PrefixIsAncestor(parts, n + 1);
    }
    if IsAncestor(a, path) {
      AncestorIsCandidate(path, a);
    }
  }

  lemma AncestorIsCandidate(path: string, a: string)
    requires IsAncestor(a, path)
    ensures a in Candidates(Split(path, '/'))
  {
    var parts, n := Split(path, '/'), |Split(a, '/')|;
    JoinInvertsSplit(a, '/');
    if a != path {
      var rest := path[|a| + 1..];
      assert path == a + (['/'] + rest);
      SplitAtSeparator(a, rest, '/');
    }
    assert parts[..n] == Split(a, '/');
    assert Candidates(parts)[n - 1] == a;
  }

  /** The rule matches the path or a directory above it. */
  ghost predicate Applies(rule: Rule, path: string) {
    exists a :: IsAncestor(a, path) && Matches(rule.tokens, a)
  }

  /** The last rule that applies excludes. */
  ghost predicate LastExcludes(rules: seq<Rule>, path: string) {
    exists i :: 0 <= i < |rules| && Applies(rules[i], path) && !rules[i].negated
                && forall j :: i < j < |rules| ==> !Applies(rules[j], path)
  }

  lemma LastOfMore(rules: seq<Rule>, rule: Rule, path: string)
    ensures LastExcludes(rules + [rule], path) <==>
            if Applies(rule, path) then !rule.negated else LastExcludes(rules, path)
  {
    var all := rules + [rule];
    assert all[|rules|] == rule;
    if LastExcludes(rules, path) && !Applies(rule, path) {
      var i :| 0 <= i < |rules| && Applies(rules[i], path) && !rules[i].negated
               && forall j :: i < j < |rules| ==> !Applies(rules[j], path);
      assert all[i] == rules[i];
    }
    if LastExcludes(all, path) {
      var i :| 0 <= i < |all| && Applies(all[i], path) && !all[i].negated
               && forall j :: i < j < |all| ==> !Applies(all[j], path);
      if i < |rules| {
        assert !Applies(all[|rules|], path);
        assert rules[i] == all[i] && forall j :: i < j < |rules| ==> rules[j] == all[j];
      }
    }
  }

  /** `is_excluded`; `matches` is the regex engine. */
  method IsExcluded(path: string, rules: seq<Rule>, matches: (seq<Token>, string) -> bool) returns (excluded: bool)
    requires forall ts, s :: matches(ts, s) <==> Matches(ts, s)
    ensures excluded <==> LastExcludes(rules, path)
  {
    var candidates := Candidates(Split(path, '/'));
    excluded := false;
    var i := 0;
    while i < |rules|
      invariant 0 <= i <= |rules| && (excluded <==> LastExcludes(rules[..i], path))
    {
      ghost var before := rules[..i];
      LastOfMore(before, rules[i], path);
      assert rules[..i + 1] == before + [rules[i]];
      var any := AnyMatch(candidates, rules[i], matches);
      forall a ensures a in candidates <==> IsAncestor(a, path) {
        CandidatesAreAncestors(path, a);
      }
      if any {
        excluded := !rules[i].negated;
      }
      i := i + 1;
    }
    assert rules[..i] == rules;
  }

  /** `any(regex.match(candidate) for candidate in candidates)`. */
  function AnyMatch(candidates: seq<string>, rule: Rule, matches: (seq<Token>, string) -> bool): (any: bool)
    ensures any <==> exists a :: a in candidates && matches(rule.tokens, a)
  {
    candidates != [] && (matches(rule.tokens, candidates[0]) || AnyMatch(candidates[1..], rule, matches))
  }

  // ---------------------------------------------------------------- the file's lines

  /** A line that is neither blank nor a comment. */
  predicate Speaks(raw: string) {
    Strip(raw) != "" && Strip(raw)[0] != '#'
  }

  /** The pattern of a line, its marks and final slashes dropped. */
  function Cleaned(raw: string): string {
    DropSlashes(DropMarks(Strip(raw)))
  }

  /** A line is its exclamation marks, its pattern and its slashes; the pattern begins with no
      mark and ends with no slash. */
  lemma CleanedIsTheCore(raw: string) returns (marks: nat, slashes: nat)
    ensures Strip(raw) == Repeat('!', marks) + (Cleaned(raw) + Repeat('/', slashes))
    ensures Cleaned(raw) != "" ==> Cleaned(raw)[0] != '!' && Cleaned(raw)[|Cleaned(raw)| - 1] != '/'
  {
    marks := MarksDropped(Strip(raw));
    slashes := SlashesDropped(DropMarks(Strip(raw)));
  }

  function Repeat(c: char, n: nat): string {
    if n == 0 then "" else [c] + Repeat(c, n - 1)
  }

  lemma {:induction false} RepeatBack(c: char, n: nat)
    ensures Repeat(c, n) + [c] == [c] + Repeat(c, n)
  {
    if n > 0 {
      RepeatBack(c, n - 1);
      assert Repeat(c, n) + [c] == [c] + (Repeat(c, n - 1) + [c]);
    }
  }

  lemma {:induction false} MarksDropped(s: string) returns (n: nat)
    ensures s == Repeat('!', n) + DropMarks(s)
    ensures DropMarks(s) != "" ==> DropMarks(s)[0] != '!'
  {
    n := 0;
    if s != "" && s[0] == '!' {
      n := MarksDropped(s[1..]);
      n := n + 1;
      assert s == ['!'] + s[1..];
    }
  }

  lemma {:induction false} SlashesDropped(s: string) returns (n: nat)
    ensures s == DropSlashes(s) + Repeat('/', n) && DropSlashes(s) <= s
    ensures DropSlashes(s) != "" ==> DropSlashes(s)[|DropSlashes(s)| - 1] != '/'
  {
    n := 0;
    if s != "" && s[|s| - 1] == '/' {
      var front := s[..|s| - 1];
      n := SlashesDropped(front);
      RepeatBack('/', n);
      assert s == front + ['/'];
      assert s == DropSlashes(front) + (Repeat('/', n) + ['/']);
      n := n + 1;
    }
  }

  /** The line's pattern means the path or a directory above it. */
  ghost predicate Hits(raw: string, path: string) {
    Speaks(raw) && exists a :: IsAncestor(a, path) && Glob(Cleaned(raw), a)
  }

  /** The last line that hits the path does not re-include it. */
  ghost predicate Ignored(lines: seq<string>, path: string) {
    exists i :: 0 <= i < |lines| && Hits(lines[i], path) && Strip(lines[i])[0] != '!'
                && forall j :: i < j < |lines| ==> !Hits(lines[j], path)
  }

  lemma AncestorIsFree(a: string, path: string)
    requires IsAncestor(a, path) && Free(path, '\n')
    ensures Free(a, '\n')
  {
  }

  /** A rule applies where its line hits. */
  lemma RuleHits(raw: string, path: string)
    requires Speaks(raw) && Free(path, '\n')
    ensures RuleOf(raw).Some? && RuleOf(raw).value.negated == (Strip(raw)[0] == '!')
    ensures Applies(RuleOf(raw).value, path) <==> Hits(raw, path)
  {
    forall a | IsAncestor(a, path) ensures Matches(RuleOf(raw).value.tokens, a) <==> Glob(Cleaned(raw), a) {
      AncestorIsFree(a, path);
      TranslationAgrees(Cleaned(raw), a);
    }
  }

  lemma IgnoredByMore(lines: seq<string>, raw: string, path: string)
    ensures Ignored(lines + [raw], path) <==> if Hits(raw, path) then Strip(raw)[0] != '!' else Ignored(lines, path)
  {
    var all := lines + [raw];
    assert all[|lines|] == raw;
    if Ignored(lines, path) && !Hits(raw, path) {
      var i :| 0 <= i < |lines| && Hits(lines[i], path) && Strip(lines[i])[0] != '!'
               && forall j :: i < j < |lines| ==> !Hits(lines[j], path);
      assert all[i] == lines[i];
    }
    if Ignored(all, path) {
      var i :| 0 <= i < |all| && Hits(all[i], path) && Strip(all[i])[0] != '!'
               && forall j :: i < j < |all| ==> !Hits(all[j], path);
      if i < |lines| {
        assert !Hits(all[|lines|], path);
        assert lines[i] == all[i] && forall j :: i < j < |lines| ==> lines[j] == all[j];
      }
    }
  }

  /** What the rules of the file say of a path: it is excluded if and only if the last of its
      lines, blanks and comments apart, whose pattern means the path or a directory above it
      does not begin with an exclamation mark. */
  lemma {:induction false} RulesMeanTheLines(lines: seq<string>, path: string)
    requires Free(path, '\n')
    ensures LastExcludes(RulesOf(lines), path) <==> Ignored(lines, path)
  {
    if lines != [] {
      var front, raw := lines[..|lines| - 1], lines[|lines| - 1];
      RulesMeanTheLines(front, path);
      IgnoredByMore(front, raw, path);
      assert lines == front + [raw];
      if Speaks(raw) {
        RuleHits(raw, path);
        LastOfMore(RulesOf(front), RuleOf(raw).value, path);
      } else {
        assert RulesOf(lines) == RulesOf(front);
      }
    }
  }

  /** The two together, as the check of a COPY source uses them. */
  method ExcludedBy(path: string, lines: seq<string>, matches: (seq<Token>, string) -> bool) returns (excluded: bool)
    requires forall ts, s :: matches(ts, s) <==> Matches(ts, s)
    ensures Free(path, '\n') ==> (excluded <==> Ignored(lines, path))
  {
    var rules := IgnoreRules(lines);
    excluded := IsExcluded(path, rules, matches);
    if Free(path, '\n') {
      RulesMeanTheLines(lines, path);
    }
  }
}
