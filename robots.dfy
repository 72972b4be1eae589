/**
 * Answering queries against a parsed robots.txt file (robots.go, and the
 * `Tester`/`bestAgent` of types.go): the first agent, in stored order, whose
 * name matches; then the first of its rules, in stored order, whose path
 * matches; allowed by default at both levels.
 *
 * The stored orders are by non-increasing length, but because `sort.Slice`
 * is not stable they are fixed only up to ties; the second half of this
 * module shows that the answer nevertheless depends only on which agents
 * and rules there are whenever the longest matches agree.
 */
module Robots {
  import opened Wrappers
  import opened Sorting
  import opened Types

  /** bestAgent: the first agent of `r` whose name matches `a`, if any. */
  function BestAgent(r: seq<Agent>, a: string): (res: Option<Agent>)
    ensures res.None? <==> forall i :: 0 <= i < |r| ==> !AgentMatches(r[i].name, a)
    ensures res.Some? ==>
      exists k :: 0 <= k < |r| && r[k] == res.value && AgentMatches(r[k].name, a) &&
        forall j :: 0 <= j < k ==> !AgentMatches(r[j].name, a)
    decreases |r|
  {
    if |r| == 0 then None
    else if AgentMatches(r[0].name, a) then Some(r[0])
    else
      var res := BestAgent(r[1..], a);
      assert forall i :: 1 <= i < |r| ==> r[i] == r[1..][i - 1];
      if res.Some? then
        var k :| 0 <= k < |r[1..]| && r[1..][k] == res.value && AgentMatches(r[1..][k].name, a) &&
          forall j :: 0 <= j < k ==> !AgentMatches(r[1..][j].name, a);
        assert r[k + 1] == res.value;
        res
      else res
  }

  /** The first rule of `group` whose path matches `path`, if any. */
  function FirstMember(group: seq<Member>, path: string): (res: Option<Member>)
    ensures res.None? <==> forall i :: 0 <= i < |group| ==> !MemberMatches(group[i], path)
    ensures res.Some? ==>
      exists k :: 0 <= k < |group| && group[k] == res.value && MemberMatches(group[k], path) &&
        forall j :: 0 <= j < k ==> !MemberMatches(group[j], path)
    decreases |group|
  {
    if |group| == 0 then None
    else if MemberMatches(group[0], path) then Some(group[0])
    else
      var res := FirstMember(group[1..], path);
      assert forall i :: 1 <= i < |group| ==> group[i] == group[1..][i - 1];
      if res.Some? then
        var k :| 0 <= k < |group[1..]| && group[1..][k] == res.value && MemberMatches(group[1..][k], path) &&
          forall j :: 0 <= j < k ==> !MemberMatches(group[1..][j], path);
        assert group[k + 1] == res.value;
        res
      else res
  }

  /** The verdict of one agent's rules: the first matching rule decides, else allow. */
  function Allowed(group: seq<Member>, path: string): (allowed: bool)
    ensures (forall i :: 0 <= i < |group| ==> !MemberMatches(group[i], path)) ==> allowed
    ensures !allowed <==>
      exists k :: 0 <= k < |group| && MemberMatches(group[k], path) && !group[k].allow &&
        forall j :: 0 <= j < k ==> !MemberMatches(group[j], path)
  {
    match FirstMember(group, path)
    case None => true
    case Some(m) => m.allow
  }

  /**
   * robots.Tester: the predicate over raw paths for agent `a`; constantly true
   * when no agent matches, otherwise the verdict of the best agent's rules.
   */
  function Tester(r: seq<Agent>, a: string): (t: string -> bool)
    ensures BestAgent(r, a).None? ==> forall p :: t(p)
    ensures BestAgent(r, a).Some? ==> forall p :: t(p) == Allowed(BestAgent(r, a).value.group, p)
  {
    match BestAgent(r, a)
    case None => (_: string) => true
    case Some(best) => (p: string) => Allowed(best.group, p)
  }

  /** robots.Test: whether agent `a` may crawl path `p`. */
  function Test(r: seq<Agent>, a: string, p: string): (allowed: bool)
    ensures (forall i :: 0 <= i < |r| ==> !AgentMatches(r[i].name, a)) ==> allowed
    ensures allowed == Tester(r, a)(p)
  {
    Tester(r, a)(p)
  }

  /**
   * Robots.Tester of types.go: as `Tester`, but it first extracts the path
   * component with `pathOf` (Go's url.Parse); a string that does not parse
   * is allowed.
   */
  function TesterUrl(r: seq<Agent>, a: string, pathOf: string -> Option<string>): (t: string -> bool)
    ensures BestAgent(r, a).None? ==> forall p :: t(p)
    ensures forall p :: pathOf(p).None? ==> t(p)
    ensures forall p :: pathOf(p).Some? ==> t(p) == Test(r, a, pathOf(p).value)
  {
    match BestAgent(r, a)
    case None => (_: string) => true
    case Some(best) =>
      (p: string) => (match pathOf(p) case None => true case Some(path) => Allowed(best.group, path))
  }

  /** Robots.Test of types.go. */
  function TestUrl(r: seq<Agent>, a: string, p: string, pathOf: string -> Option<string>): (allowed: bool)
    ensures pathOf(p).None? ==> allowed
    ensures allowed == TesterUrl(r, a, pathOf)(p)
  {
    TesterUrl(r, a, pathOf)(p)
  }

  /** The two orderings the engine maintains: agents by name length, rules by path length. */
  ghost predicate WellOrdered(r: seq<Agent>) {
    SortedDesc(r, NameLen) && forall i :: 0 <= i < |r| ==> SortedDesc(r[i].group, PathLen)
  }

  /** With agents sorted, the agent chosen has the longest matching name. */
  lemma LongestAgentWins(r: seq<Agent>, a: string, j: nat)
    requires SortedDesc(r, NameLen)
    requires j < |r| && AgentMatches(r[j].name, a)
    ensures BestAgent(r, a).Some? && |r[j].name| <= |BestAgent(r, a).value.name|
  {
    var k :| 0 <= k < |r| && r[k] == BestAgent(r, a).value && AgentMatches(r[k].name, a) &&
      forall j' :: 0 <= j' < k ==> !AgentMatches(r[j'].name, a);
    assert k <= j;
    assert NameLen(r[k]) >= NameLen(r[j]);
  }

  /** With rules sorted, the rule that decides has the longest matching path. */
  lemma LongestMemberWins(group: seq<Member>, path: string, j: nat)
    requires SortedDesc(group, PathLen)
    requires j < |group| && MemberMatches(group[j], path)
    ensures FirstMember(group, path).Some? && |group[j].path| <= |FirstMember(group, path).value.path|
  {
    var k :| 0 <= k < |group| && group[k] == FirstMember(group, path).value && MemberMatches(group[k], path) &&
      forall j' :: 0 <= j' < k ==> !MemberMatches(group[j'], path);
    assert k <= j;
    assert PathLen(group[k]) >= PathLen(group[j]);
  }

  /** An agent with its rules taken as a multiset: what survives re-sorting. */
  datatype AgentKey = AgentKey(name: string, rules: multiset<Member>)

  function Key(a: Agent): AgentKey {
    AgentKey(a.name, multiset(a.group))
  }

  function Keys(r: seq<Agent>): multiset<AgentKey>
    decreases |r|
  {
    if |r| == 0 then multiset{} else multiset{Key(r[0])} + Keys(r[1..])
  }

  lemma {:induction false} KeysMember(r: seq<Agent>, k: AgentKey)
    ensures k in Keys(r) <==> exists i :: 0 <= i < |r| && Key(r[i]) == k
    decreases |r|
  {
    if |r| > 0 {
      KeysMember(r[1..], k);
      if k in Keys(r[1..]) {
        var i :| 0 <= i < |r[1..]| && Key(r[1..][i]) == k;
        assert r[1..][i] == r[i + 1];
      }
      if exists i :: 0 <= i < |r| && Key(r[i]) == k {
        var i :| 0 <= i < |r| && Key(r[i]) == k;
        if i > 0 {
          assert r[1..][i - 1] == r[i];
        }
      }
    }
  }

  lemma {:induction false} KeysAppend(r: seq<Agent>, s: seq<Agent>)
    ensures Keys(r + s) == Keys(r) + Keys(s)
    decreases |r|
  {
    if |r| == 0 {
      assert r + s == s;
    } else {
      assert (r + s)[1..] == r[1..] + s;
      KeysAppend(r[1..], s);
    }
  }

  lemma {:induction false} KeysRemove(s: seq<Agent>, j: nat)
    requires j < |s|
    ensures multiset(s[..j] + s[j + 1..]) == multiset(s) - multiset{s[j]}
    ensures Keys(s) == Keys(s[..j] + s[j + 1..]) + multiset{Key(s[j])}
  {
    var u, x, w := s[..j], s[j], s[j + 1..];
    assert s == u + [x] + w;
    assert multiset(s) == multiset(u) + multiset{x} + multiset(w);
    KeysAppend(u + [x], w);
    KeysAppend(u, [x]);
    KeysAppend(u, w);
    assert Keys([x]) == multiset{Key(x)} by {
      assert [x][1..] == [];
    }
  }

  /** Re-ordering the agents does not change their keys. */
  lemma {:induction false} KeysPermutation(r: seq<Agent>, s: seq<Agent>)
    requires multiset(r) == multiset(s)
    ensures Keys(r) == Keys(s)
    decreases |r|
  {
    if |r| == 0 {
      assert |s| == |multiset(s)| == 0;
    } else {
      var x, tail := r[0], r[1..];
      assert r == [x] + tail;
      assert multiset(r) == multiset{x} + multiset(tail);
      assert x in multiset(s);
      var j :| 0 <= j < |s| && s[j] == x;
      var rest := s[..j] + s[j + 1..];
      KeysRemove(s, j);
      assert multiset(tail) == multiset(rest);
      KeysPermutation(tail, rest);
      assert Keys(r) == multiset{Key(x)} + Keys(tail);
    }
  }

  /**
   * `v` is the verdict of every longest matching rule in `rules`
   * (or no rule matches and `v` is allow).
   */
  ghost predicate Decides(rules: multiset<Member>, path: string, v: bool) {
    ((forall m :: m in rules ==> !MemberMatches(m, path)) && v) ||
    (exists m :: m in rules && MemberMatches(m, path) && m.allow == v &&
       forall m' :: m' in rules && MemberMatches(m', path) && |m'.path| >= |m.path| ==> m'.allow == v)
  }

  /**
   * `v` is the answer of every longest matching agent in `keys` for `path`
   * (or no agent matches and `v` is allow).
   */
  ghost predicate TestDecides(keys: multiset<AgentKey>, a: string, path: string, v: bool) {
    ((forall k :: k in keys ==> !AgentMatches(k.name, a)) && v) ||
    (exists k :: k in keys && AgentMatches(k.name, a) &&
       forall k' :: k' in keys && AgentMatches(k'.name, a) && |k'.name| >= |k.name| ==> Decides(k'.rules, path, v))
  }

  /** Within sorted rules, the verdict is that of the longest matching rules. */
  lemma RulesDetermined(group: seq<Member>, path: string, v: bool)
    requires SortedDesc(group, PathLen)
    requires Decides(multiset(group), path, v)
    ensures Allowed(group, path) == v
  {
    if FirstMember(group, path).Some? {
      var first := FirstMember(group, path).value;
      assert first in multiset(group);
      if exists m :: (m in multiset(group) && MemberMatches(m, path) && m.allow == v &&
         forall m' :: m' in multiset(group) && MemberMatches(m', path) && |m'.path| >= |m.path| ==> m'.allow == v)
      {
        var m :| m in multiset(group) && MemberMatches(m, path) && m.allow == v &&
          forall m' :: m' in multiset(group) && MemberMatches(m', path) && |m'.path| >= |m.path| ==> m'.allow == v;
        var j :| 0 <= j < |group| && group[j] == m;
        LongestMemberWins(group, path, j);
      }
    } else {
      forall m | m in multiset(group) ensures !MemberMatches(m, path) {
        var j :| 0 <= j < |group| && group[j] == m;
      }
    }
  }

  /**
   * Longest match wins at both levels, regardless of how ties were ordered:
   * whenever the longest matching agents and, within them, the longest
   * matching rules agree on `v`, any well-ordered arrangement answers `v`.
   */
  lemma TestDetermined(r: seq<Agent>, a: string, p: string, v: bool)
    requires WellOrdered(r)
    requires TestDecides(Keys(r), a, p, v)
    ensures Test(r, a, p) == v
  {
    if BestAgent(r, a).Some? {
      var best := BestAgent(r, a).value;
      var b :| 0 <= b < |r| && r[b] == best && AgentMatches(r[b].name, a) &&
        forall j :: 0 <= j < b ==> !AgentMatches(r[j].name, a);
      KeysMember(r, Key(best));
      assert Key(best) in Keys(r);
      var k :| k in Keys(r) && AgentMatches(k.name, a) &&
        forall k' :: k' in Keys(r) && AgentMatches(k'.name, a) && |k'.name| >= |k.name| ==> Decides(k'.rules, p, v);
      KeysMember(r, k);
      var i :| 0 <= i < |r| && Key(r[i]) == k;
      LongestAgentWins(r, a, i);
      assert Decides(Key(best).rules, p, v);
      RulesDetermined(best.group, p, v);
    } else {
      forall k | k in Keys(r) ensures !AgentMatches(k.name, a) {
        KeysMember(r, k);
        var i :| 0 <= i < |r| && Key(r[i]) == k;
      }
    }
  }

  /** Which agent is chosen is fixed too, when the longest matching name is unique. */
  lemma BestAgentDetermined(r: seq<Agent>, a: string, k: AgentKey)
    requires SortedDesc(r, NameLen)
    requires k in Keys(r) && AgentMatches(k.name, a)
    requires forall k' :: k' in Keys(r) && AgentMatches(k'.name, a) && |k'.name| >= |k.name| ==> k'.name == k.name
    ensures BestAgent(r, a).Some? && BestAgent(r, a).value.name == k.name
  {
    KeysMember(r, k);
    var i :| 0 <= i < |r| && Key(r[i]) == k;
    LongestAgentWins(r, a, i);
    var best := BestAgent(r, a).value;
    var b :| 0 <= b < |r| && r[b] == best && AgentMatches(r[b].name, a) &&
      forall j :: 0 <= j < b ==> !AgentMatches(r[j].name, a);
    KeysMember(r, Key(best));
  }
}
