/**
 * The rule records of a robots.txt file and what their compiled patterns
 * denote (types.go).
 *
 * `member.compile` quotes every regular-expression metacharacter of the
 * path, anchors the result at the start, and turns each quoted `*` into
 * `.*` and each quoted `$` into `$`. Matching is Go's `MatchString`, which
 * accepts as soon as the pattern matches a prefix of the path. The model
 * states that meaning directly as `PathMatches` instead of building a
 * regular expression.
 */
module Types {
  import opened Sorting
  import opened Text

  /** A group-member record: one Allow (allow == true) or Disallow line. */
  datatype Member = Member(allow: bool, path: string)

  /** A user-agent name together with the group of rules that applies to it. */
  datatype Agent = Agent(name: string, group: seq<Member>)

  function PathLen(m: Member): nat { |m.path| }

  function NameLen(a: Agent): nat { |a.name| }

  /** True when `s` has neither of the two metacharacters `*` and `$`. */
  predicate Literal(s: string) {
    forall i :: 0 <= i < |s| ==> s[i] != '*' && s[i] != '$'
  }

  /**
   * What the compiled path pattern `^quote(pat)` (with `.*` for `*` and `$`
   * for `$`) accepts, `s` being the part of the path not yet consumed.
   * An exhausted pattern accepts whatever is left (prefix match); `*` is
   * `.*`, which in Go's syntax never crosses a newline; `$` requires the end
   * of the path wherever it stands in the pattern; every other character is
   * literal and compared exactly (case-sensitively).
   */
  predicate PathMatches(pat: string, s: string)
    decreases |pat|, |s|
  {
    if |pat| == 0 then true
    else if pat[0] == '*' then
      PathMatches(pat[1..], s) || (|s| > 0 && s[0] != '\n' && PathMatches(pat, s[1..]))
    else if pat[0] == '$' then
      |s| == 0 && PathMatches(pat[1..], s)
    else
      |s| > 0 && s[0] == pat[0] && PathMatches(pat[1..], s[1..])
  }

  /** member.match: whether the record's compiled path accepts `path`. */
  predicate MemberMatches(m: Member, path: string) {
    PathMatches(m.path, path)
  }

  /** A pattern without metacharacters matches exactly the paths it is a prefix of. */
  lemma {:induction false} LiteralIsPrefix(pat: string, s: string)
    requires Literal(pat)
    ensures PathMatches(pat, s) <==> pat <= s
  {
    if |pat| > 0 && |s| > 0 && s[0] == pat[0] {
      LiteralIsPrefix(pat[1..], s[1..]);
    }
  }

  /** A literal pattern followed by `$` matches exactly the path equal to it. */
  lemma {:induction false} LiteralThenEnd(pat: string, s: string)
    requires Literal(pat)
    ensures PathMatches(pat + "$", s) <==> s == pat
  {
    if |pat| == 0 {
      assert pat + "$" == "$";
      assert PathMatches("$"[1..], s);
    } else {
      assert (pat + "$")[0] == pat[0];
      assert (pat + "$")[1..] == pat[1..] + "$";
      if |s| > 0 && s[0] == pat[0] {
        LiteralThenEnd(pat[1..], s[1..]);
        assert s == [s[0]] + s[1..];
        assert pat == [pat[0]] + pat[1..];
      }
    }
  }

  /** `*` matches any run of characters (the empty one included) that holds no newline. */
  lemma {:induction false} StarSkips(rest: string, u: string, v: string)
    requires forall i :: 0 <= i < |u| ==> u[i] != '\n'
    requires PathMatches(rest, v)
    ensures PathMatches("*" + rest, u + v)
  {
    var pat := "*" + rest;
    assert pat[0] == '*' && pat[1..] == rest;
    if |u| > 0 {
      StarSkips(rest, u[1..], v);
      assert (u + v)[1..] == u[1..] + v;
    } else {
      assert u + v == v;
    }
  }

  /** A trailing `*` is redundant: `/fish*` and `/fish` accept the same paths. */
  lemma {:induction false} TrailingStarRedundant(pat: string, s: string)
    ensures PathMatches(pat + "*", s) <==> PathMatches(pat, s)
    decreases |pat|, |s|
  {
    var p := pat + "*";
    if |pat| == 0 {
      assert p == "*";
      assert PathMatches(p[1..], s);
    } else {
      assert p[0] == pat[0] && p[1..] == pat[1..] + "*";
      if pat[0] == '*' {
        TrailingStarRedundant(pat[1..], s);
        if |s| > 0 && s[0] != '\n' {
          TrailingStarRedundant(pat, s[1..]);
        }
      } else if pat[0] == '$' {
        TrailingStarRedundant(pat[1..], s);
      } else if |s| > 0 {
        TrailingStarRedundant(pat[1..], s[1..]);
      }
    }
  }

  /** A literal head is compared character by character, then the rest matches. */
  lemma {:induction false} LiteralThen(lit: string, pat: string, s: string)
    requires Literal(lit)
    ensures PathMatches(lit + pat, s) <==> lit <= s && PathMatches(pat, s[|lit|..])
  {
    if |lit| > 0 {
      assert (lit + pat)[0] == lit[0] && (lit + pat)[1..] == lit[1..] + pat;
      if |s| > 0 && s[0] == lit[0] {
        LiteralThen(lit[1..], pat, s[1..]);
        if |lit| <= |s| {
          assert s[1..][|lit| - 1..] == s[|lit|..];
        }
        assert lit <= s <==> lit[1..] <= s[1..];
      }
    } else {
      assert lit + pat == pat;
    }
  }

  /** `*` followed by `rest` matches when `rest` matches after some newline-free run. */
  lemma StarSplit(rest: string, s: string)
    ensures PathMatches("*" + rest, s) <==>
      exists k :: 0 <= k <= |s| && '\n' !in s[..k] && PathMatches(rest, s[k..])
  {
    if PathMatches("*" + rest, s) {
      var k := StarRun(rest, s);
    }
    if exists k :: 0 <= k <= |s| && '\n' !in s[..k] && PathMatches(rest, s[k..]) {
      var k :| 0 <= k <= |s| && '\n' !in s[..k] && PathMatches(rest, s[k..]);
      assert s == s[..k] + s[k..];
      StarSkips(rest, s[..k], s[k..]);
    }
  }

  /** A match of `*rest` names the run the star takes. */
  lemma {:induction false} StarRun(rest: string, s: string) returns (k: nat)
    requires PathMatches("*" + rest, s)
    ensures k <= |s| && '\n' !in s[..k] && PathMatches(rest, s[k..])
    decreases |s|
  {
    var pat := "*" + rest;
    assert pat[0] == '*' && pat[1..] == rest;
    if PathMatches(rest, s) {
      k := 0;
      assert s[..0] == [] && s[0..] == s;
    } else {
      var k' := StarRun(rest, s[1..]);
      k := k' + 1;
      assert s[..k] == [s[0]] + s[1..][..k'];
      assert s[k..] == s[1..][k'..];
    }
  }

  /** `*lit` matches when `lit` occurs after a newline-free run of the path. */
  lemma StarThenLiteral(lit: string, s: string)
    requires Literal(lit)
    ensures PathMatches("*" + lit, s) <==>
      exists k :: 0 <= k <= |s| && '\n' !in s[..k] && lit <= s[k..]
  {
    StarSplit(lit, s);
    forall k | 0 <= k <= |s| ensures PathMatches(lit, s[k..]) <==> lit <= s[k..] {
      LiteralIsPrefix(lit, s[k..]);
    }
  }

  /** `*lit` cannot match a path lacking one of the characters of `lit`. */
  lemma StarLiteralMissing(lit: string, s: string, c: char)
    requires Literal(lit) && c in lit && c !in s
    ensures !PathMatches("*" + lit, s)
  {
    StarThenLiteral(lit, s);
    var i :| 0 <= i < |lit| && lit[i] == c;
    forall k | 0 <= k <= |s| ensures !(lit <= s[k..]) {
      if k + i < |s| {
        assert s[k + i] in s;
        assert s[k..][i] == s[k + i];
      }
    }
  }

  /** `*lit$` cannot match a path that does not end the way `lit` ends. */
  lemma StarLiteralEndMismatch(lit: string, s: string)
    requires Literal(lit) && |lit| > 0
    requires |s| == 0 || s[|s| - 1] != lit[|lit| - 1]
    ensures !PathMatches("*" + (lit + "$"), s)
  {
    StarSplit(lit + "$", s);
    forall k | 0 <= k <= |s| ensures !PathMatches(lit + "$", s[k..]) {
      LiteralThenEnd(lit, s[k..]);
      if |s[k..]| == |lit| {
        assert s[k..][|lit| - 1] == s[|s| - 1];
      }
    }
  }

  /** `lit1*lit2` matches a path that is `lit1`, a newline-free run, then `lit2` and anything. */
  lemma StarHit(lit1: string, lit2: string, u: string, v: string)
    requires Literal(lit1) && Literal(lit2) && '\n' !in u && lit2 <= v
    ensures PathMatches(lit1 + ("*" + lit2), lit1 + (u + v))
  {
    LiteralThen(lit1, "*" + lit2, lit1 + (u + v));
    assert (lit1 + (u + v))[|lit1|..] == u + v;
    LiteralIsPrefix(lit2, v);
    StarSkips(lit2, u, v);
  }

  /** `lit1*lit2$` matches a path that is `lit1`, a newline-free run, then exactly `lit2`. */
  lemma StarEndHit(lit1: string, lit2: string, u: string)
    requires Literal(lit1) && Literal(lit2) && '\n' !in u
    ensures PathMatches(lit1 + ("*" + (lit2 + "$")), lit1 + (u + lit2))
  {
    LiteralThen(lit1, "*" + (lit2 + "$"), lit1 + (u + lit2));
    assert (lit1 + (u + lit2))[|lit1|..] == u + lit2;
    LiteralThenEnd(lit2, lit2);
    StarSkips(lit2 + "$", u, lit2);
  }

  /** `lit1*lit2` does not match `lit1` followed by a rest lacking a character of `lit2`. */
  lemma StarMiss(lit1: string, lit2: string, rest: string, c: char)
    requires Literal(lit1) && Literal(lit2) && c in lit2 && c !in rest
    ensures !PathMatches(lit1 + ("*" + lit2), lit1 + rest)
  {
    LiteralThen(lit1, "*" + lit2, lit1 + rest);
    assert (lit1 + rest)[|lit1|..] == rest;
    StarLiteralMissing(lit2, rest, c);
  }

  /** `lit1*lit2$` does not match `lit1` followed by a rest not ending as `lit2` ends. */
  lemma StarEndMiss(lit1: string, lit2: string, rest: string)
    requires Literal(lit1) && Literal(lit2) && |lit2| > 0
    requires |rest| == 0 || rest[|rest| - 1] != lit2[|lit2| - 1]
    ensures !PathMatches(lit1 + ("*" + (lit2 + "$")), lit1 + rest)
  {
    LiteralThen(lit1, "*" + (lit2 + "$"), lit1 + rest);
    assert (lit1 + rest)[|lit1|..] == rest;
    StarLiteralEndMismatch(lit2, rest);
  }

  /** TestPathMatching (robots_test.go:99-107): a literal specifier is a case-sensitive prefix. */
  lemma FishPrefixVectors(pat: string, s1: string, s2: string)
    requires pat == "/fish" && s1 == "/fishheads" && s2 == "/fish.php?id=anything"
    ensures PathMatches(pat, s1) && PathMatches(pat, s2)
  {
    LiteralIsPrefix(pat, s1);
    LiteralIsPrefix(pat, s2);
  }

  lemma FishNonPrefixVectors(pat: string, s1: string, s2: string, s3: string)
    requires pat == "/fish" && s1 == "/Fish.asp" && s2 == "/catfish" && s3 == "/?id=fish"
    ensures !PathMatches(pat, s1) && !PathMatches(pat, s2) && !PathMatches(pat, s3)
  {
    LiteralIsPrefix(pat, s1);
    assert s1[1] != pat[1];
    LiteralIsPrefix(pat, s2);
    assert s2[1] != pat[1];
    LiteralIsPrefix(pat, s3);
    assert s3[1] != pat[1];
  }

  /** TestPathMatching (robots_test.go:117-121): the trailing slash is part of the prefix. */
  lemma FishSlashVectors(pat: string, s1: string, s2: string)
    requires pat == "/fish/" && s1 == "/fish/salmon.htm" && s2 == "/fish"
    ensures PathMatches(pat, s1) && !PathMatches(pat, s2)
  {
    LiteralIsPrefix(pat, s1);
    LiteralIsPrefix(pat, s2);
  }

  /** TestPathMatching (robots_test.go:108-116): `/fish*` behaves like `/fish`. */
  lemma TrailingStarVectors(lit: string, s1: string, s2: string)
    requires lit == "/fish" && s1 == "/fishheads/yummy.html" && s2 == "/catfish"
    ensures PathMatches(lit + "*", s1) && !PathMatches(lit + "*", s2)
  {
    TrailingStarRedundant(lit, s1);
    TrailingStarRedundant(lit, s2);
    FishPrefixVectors(lit, "/fishheads", "/fish.php?id=anything");
    LiteralIsPrefix(lit, s1);
    LiteralIsPrefix(lit, s2);
    assert s2[1] != lit[1];
  }

  /** TestPathMatching (robots_test.go:123-129): a star matches any run, and case still counts. */
  lemma StarHitVector(lit1: string, lit2: string, u: string, v: string, s: string)
    requires lit1 == "/" && lit2 == ".php" && u == "folder/any" && v == ".php.file.html"
    requires s == "/folder/any.php.file.html"
    ensures PathMatches(lit1 + "*" + lit2, s)
  {
    assert lit1 + "*" + lit2 == lit1 + ("*" + lit2);
    assert s == lit1 + (u + v);
    StarHit(lit1, lit2, u, v);
  }

  lemma StarCaseVector(lit1: string, lit2: string, rest: string, s: string)
    requires lit1 == "/" && lit2 == ".php" && rest == "windows.PHP" && s == "/windows.PHP"
    ensures !PathMatches(lit1 + "*" + lit2, s)
  {
    assert lit1 + "*" + lit2 == lit1 + ("*" + lit2);
    assert s == lit1 + rest;
    assert lit2[1] == 'p';
    assert forall i :: 0 <= i < |rest| ==> rest[i] != 'p';
    StarMiss(lit1, lit2, rest, 'p');
  }

  /** TestPathMatching (robots_test.go:136-140): the star may match the empty run or a long one. */
  lemma InnerStarEmptyVector(lit1: string, lit2: string, s: string)
    requires lit1 == "/fish" && lit2 == ".php" && s == "/fish.php"
    ensures PathMatches(lit1 + "*" + lit2, s)
  {
    assert lit1 + "*" + lit2 == lit1 + ("*" + lit2);
    assert s == lit1 + ("" + lit2);
    StarHit(lit1, lit2, "", lit2);
  }

  lemma InnerStarVector(lit1: string, lit2: string, u: string, v: string, s: string)
    requires lit1 == "/fish" && lit2 == ".php" && u == "heads/catfish" && v == ".php?parameters"
    requires s == "/fishheads/catfish.php?parameters"
    ensures PathMatches(lit1 + "*" + lit2, s)
  {
    InnerStarSplit(lit1, u, v, s);
    assert lit1 + "*" + lit2 == lit1 + ("*" + lit2);
    StarHit(lit1, lit2, u, v);
  }

  /** The path of the vector above, cut where the star's run starts and ends. */
  lemma InnerStarSplit(lit1: string, u: string, v: string, s: string)
    requires lit1 == "/fish" && u == "heads/catfish" && v == ".php?parameters"
    requires s == "/fishheads/catfish.php?parameters"
    ensures s == lit1 + (u + v)
  {
  }

  /** TestPathMatching (robots_test.go:130-135): `$` anchors the end of the path. */
  lemma EndAnchorMatchVector(lit1: string, lit2: string, s: string)
    requires lit1 == "/" && lit2 == ".php" && s == "/folder/filename.php"
    ensures PathMatches(lit1 + "*" + lit2 + "$", s)
  {
    assert lit1 + "*" + lit2 + "$" == lit1 + ("*" + (lit2 + "$"));
    var u := "folder/filename";
    assert s == lit1 + (u + lit2);
    StarEndHit(lit1, lit2, u);
  }

  lemma EndAnchorMissVectors(lit1: string, lit2: string, r1: string, r2: string, r3: string)
    requires lit1 == "/" && lit2 == ".php"
    requires r1 == "folder/filename.php?parameters" && r2 == "filename.php/" && r3 == "filename.php5"
    ensures !PathMatches(lit1 + "*" + lit2 + "$", lit1 + r1)
    ensures !PathMatches(lit1 + "*" + lit2 + "$", lit1 + r2)
    ensures !PathMatches(lit1 + "*" + lit2 + "$", lit1 + r3)
  {
    EndAnchorMiss(lit1, lit2, r1, lit1 + r1);
    EndAnchorMiss(lit1, lit2, r2, lit1 + r2);
    EndAnchorMiss(lit1, lit2, r3, lit1 + r3);
  }

  /** `lit1*lit2$` with `lit1` the slash and `lit2` `.php` rejects the slash and a rest not ending in `p`. */
  lemma EndAnchorMiss(lit1: string, lit2: string, rest: string, s: string)
    requires lit1 == "/" && lit2 == ".php" && s == lit1 + rest
    requires |rest| == 0 || rest[|rest| - 1] != 'p'
    ensures !PathMatches(lit1 + "*" + lit2 + "$", s)
  {
    assert lit1 + "*" + lit2 + "$" == lit1 + ("*" + (lit2 + "$"));
    StarEndMiss(lit1, lit2, rest);
  }

  /**
   * agent.match: the compiled name accepts a candidate, which is lower-cased
   * first. The whole name `*` becomes `.*` and accepts everything; any other
   * name is quoted, so its `*` is literal, and the match is a prefix test of
   * the lower-cased name against the lower-cased candidate.
   */
  predicate AgentMatches(name: string, candidate: string) {
    name == "*" || Lower(name) <= Lower(candidate)
  }

  /** Agent matching does not depend on the case of the candidate. */
  lemma AgentMatchIgnoresCase(name: string, candidate: string)
    ensures AgentMatches(name, candidate) <==> AgentMatches(name, Lower(candidate))
  {
    assert Lower(Lower(candidate)) == Lower(candidate);
  }

  /** `*` matches every agent; a `*` inside a longer name is only a character. */
  lemma StarAgentMatchesAll(candidate: string)
    ensures AgentMatches("*", candidate)
  {
  }

  /** A `*` inside a longer agent name is an ordinary character. */
  lemma AgentInnerStarVectors()
    ensures !AgentMatches("google*", "googlebot")
  {
    assert Lower("googlebot")[6] == 'b';
  }

  /**
   * group.addMember: compile, append and re-sort by path length.
   * The pattern is a function of the path, so compiling adds nothing here.
   */
  method AddMember(members: seq<Member>, m: Member) returns (r: seq<Member>)
    ensures SortedDesc(r, PathLen)
    ensures multiset(r) == multiset(members) + multiset{m}
  {
    r := SortByKey(members + [m], PathLen);
  }

  /** Robots.addAgents: compile, append and re-sort by name length. */
  method AddAgents(agents: seq<Agent>, added: seq<Agent>) returns (r: seq<Agent>)
    ensures SortedDesc(r, NameLen)
    ensures multiset(r) == multiset(agents) + multiset(added)
  {
    r := SortByKey(agents + added, NameLen);
  }
}
