/**
 * Three table-driven tests of robots_test.go, stated over items: the
 * grouping test (which agents receive which rules, and the verdicts that
 * follow for any arrangement the parser may produce), the agent-precedence
 * test (which agent answers for which robot) and the member-precedence
 * test (what the fallback agent `*` allows). Their data files are not part
 * of this model; the items below are reconstructed to agree with the
 * tests' expectations, the `*` agent's rule under a stated condition. The
 * names and paths are parameters fixed by `requires`, which keeps the
 * solver from unfolding the functions on literal strings.
 */
module Scenarios {
  import opened Wrappers
  import opened Text
  import opened Sorting
  import opened Types
  import opened Robots
  import opened LexSpec
  import opened ParseSpec

  /** One rule decides alone: by its verdict if it matches, else allow. */
  lemma OneRule(m: Member, path: string)
    ensures Decides(multiset{m}, path, if MemberMatches(m, path) then m.allow else true)
  {
    if MemberMatches(m, path) {
      assert m in multiset{m};
    }
  }

  /** A user-agent item followed by `rest`: its agent gets the rules `rest` gives it. */
  lemma UserAgentFirst(it: Item, rest: seq<Item>)
    requires it.typ == ItemUserAgent
    ensures Reference([it] + rest) == [Agent(it.val, RulesAfter(rest, false))] + Reference(rest)
    ensures RulesAfter([it] + rest, true) == []
    ensures RulesAfter([it] + rest, false) == RulesAfter(rest, false)
  {
    assert ([it] + rest)[1..] == rest;
  }

  /** A rule item followed by `rest`: it opens no agent and belongs to the current one. */
  lemma RuleFirst(it: Item, rest: seq<Item>, seen: bool)
    requires IsRule(it)
    ensures Reference([it] + rest) == Reference(rest)
    ensures RulesAfter([it] + rest, seen) == [RuleOf(it)] + RulesAfter(rest, true)
  {
    assert ([it] + rest)[1..] == rest;
  }

  /** The agent named `name` whose one rule disallows `path`. */
  function Disallowing(name: string, path: string): Agent {
    Agent(name, [Member(false, path)])
  }

  /** Agent `j` is the only one of `agents` whose name matches the robot `a`. */
  ghost predicate SoleMatch(agents: seq<Agent>, a: string, j: nat) {
    j < |agents| && AgentMatches(agents[j].name, a) &&
    forall i :: 0 <= i < |agents| && i != j ==> !AgentMatches(agents[i].name, a)
  }

  /**
   * When agent `j` is the only one whose name matches the robot `a` and it
   * has a single rule, the verdict for `a` is that rule's.
   */
  lemma SoleOwner(r: seq<Agent>, agents: seq<Agent>, a: string, j: nat, query: string)
    requires WellOrdered(r) && Keys(r) == Keys(agents)
    requires SoleMatch(agents, a, j) && |agents[j].group| == 1
    ensures Test(r, a, query) == Allowed(agents[j].group, query)
  {
    var name, m := a, agents[j].group[0];
    var k := Key(agents[j]);
    assert agents[j].group == [m];
    assert k.rules == multiset{m};
    KeysMember(agents, k);
    forall k' | k' in Keys(r) && AgentMatches(k'.name, name) ensures k' == k {
      KeysMember(agents, k');
      var i :| 0 <= i < |agents| && Key(agents[i]) == k';
    }
    OneRule(m, query);
    var v := if MemberMatches(m, query) then m.allow else true;
    assert TestDecides(Keys(r), name, query, v);
    TestDetermined(r, name, query, v);
    assert FirstMember(agents[j].group, query) == (if MemberMatches(m, query) then Some(m) else None) by {
      assert agents[j].group[1..] == [];
    }
  }

  /** User-agent a, disallow c; b, disallow d; e and f sharing disallow g. */
  function GroupingItems(a: string, b: string, e: string, f: string, c: string, d: string, g: string): seq<Item> {
    [Item(ItemUserAgent, a), Item(ItemDisallow, c),
     Item(ItemUserAgent, b), Item(ItemDisallow, d),
     Item(ItemUserAgent, e), Item(ItemUserAgent, f), Item(ItemDisallow, g)]
  }

  /** The last three lines: e and f form one group that disallows g. */
  lemma GroupingTail(e: string, f: string, g: string)
    ensures Reference([Item(ItemUserAgent, e), Item(ItemUserAgent, f), Item(ItemDisallow, g)]) ==
      [Disallowing(e, g), Disallowing(f, g)]
    ensures RulesAfter([Item(ItemUserAgent, e), Item(ItemUserAgent, f), Item(ItemDisallow, g)], true) == []
  {
    var s6 := [Item(ItemDisallow, g)];
    var s5 := [Item(ItemUserAgent, f)] + s6;
    var s4 := [Item(ItemUserAgent, e)] + s5;
    assert s6 == [s6[0]] + [];
    RuleFirst(s6[0], [], false);
    assert RulesAfter(s6, false) == [Member(false, g)] && Reference(s6) == [];
    UserAgentFirst(s5[0], s6);
    UserAgentFirst(s4[0], s5);
    assert s4 == [Item(ItemUserAgent, e), Item(ItemUserAgent, f), Item(ItemDisallow, g)];
  }

  /** The parser gives each agent the rules of its own group, and e and f share theirs. */
  lemma GroupingGroups(a: string, b: string, e: string, f: string, c: string, d: string, g: string)
    ensures Groups(GroupingItems(a, b, e, f, c, d, g)) == GroupingAgents(a, b, e, f, c, d, g)
  {
    var s4 := [Item(ItemUserAgent, e), Item(ItemUserAgent, f), Item(ItemDisallow, g)];
    var s3 := [Item(ItemDisallow, d)] + s4;
    var s2 := [Item(ItemUserAgent, b)] + s3;
    var s1 := [Item(ItemDisallow, c)] + s2;
    var s0 := [Item(ItemUserAgent, a)] + s1;
    GroupingTail(e, f, g);
    RuleFirst(s3[0], s4, false);
    assert RulesAfter(s3, false) == [Member(false, d)];
    UserAgentFirst(s2[0], s3);
    RuleFirst(s1[0], s2, false);
    assert RulesAfter(s1, false) == [Member(false, c)];
    UserAgentFirst(s0[0], s1);
    assert Reference(s0) == GroupingAgents(a, b, e, f, c, d, g);
    assert s0 == GroupingItems(a, b, e, f, c, d, g);
    GroupsAreReference(s0);
  }

  /** Each of the names a, b, e and f matches itself and none of the others. */
  lemma GroupingNameFacts(a: string, b: string, e: string, f: string)
    requires a == "a" && b == "b" && e == "e" && f == "f"
    ensures AgentMatches(a, a) && !AgentMatches(b, a) && !AgentMatches(e, a) && !AgentMatches(f, a)
    ensures !AgentMatches(a, b) && AgentMatches(b, b) && !AgentMatches(e, b) && !AgentMatches(f, b)
    ensures !AgentMatches(a, e) && !AgentMatches(b, e) && AgentMatches(e, e) && !AgentMatches(f, e)
    ensures !AgentMatches(a, f) && !AgentMatches(b, f) && !AgentMatches(e, f) && AgentMatches(f, f)
  {
  }

  /** A single rule decides by its own verdict if it matches, else allows. */
  lemma OneRuleAllowed(m: Member, path: string)
    ensures Allowed([m], path) == (!MemberMatches(m, path) || m.allow)
  {
    assert [m][1..] == [];
  }

  /** Which of the paths /c, /d, /g and /q each rule matches. */
  lemma GroupingPathFacts()
    ensures MemberMatches(Member(false, "/c"), "/c") && !MemberMatches(Member(false, "/c"), "/d")
    ensures !MemberMatches(Member(false, "/c"), "/g")
    ensures !MemberMatches(Member(false, "/d"), "/c") && MemberMatches(Member(false, "/d"), "/d")
    ensures !MemberMatches(Member(false, "/d"), "/q")
    ensures !MemberMatches(Member(false, "/g"), "/c") && !MemberMatches(Member(false, "/g"), "/d")
    ensures MemberMatches(Member(false, "/g"), "/g")
  {
  }

  /** Verdicts of the one-rule groups disallowing /c, /d and /g. */
  lemma GroupingVerdicts(c: string, d: string, g: string, q: string)
    requires c == "/c" && d == "/d" && g == "/g" && q == "/q"
    ensures !Allowed([Member(false, c)], c) && Allowed([Member(false, c)], d) && Allowed([Member(false, c)], g)
    ensures Allowed([Member(false, d)], c) && !Allowed([Member(false, d)], d) && Allowed([Member(false, d)], q)
    ensures Allowed([Member(false, g)], c) && Allowed([Member(false, g)], d) && !Allowed([Member(false, g)], g)
  {
    GroupingPathFacts();
    forall m, p | m in [Member(false, c), Member(false, d), Member(false, g)] && p in [c, d, g, q]
      ensures Allowed([m], p) == (!MemberMatches(m, p) || m.allow)
    {
      OneRuleAllowed(m, p);
    }
  }

  function GroupingAgents(a: string, b: string, e: string, f: string, c: string, d: string, g: string): seq<Agent> {
    [Disallowing(a, c), Disallowing(b, d), Disallowing(e, g), Disallowing(f, g)]
  }

  /** In the grouping file, every agent's name matches only its own. */
  lemma GroupingSole(a: string, b: string, e: string, f: string, c: string, d: string, g: string, j: nat)
    requires a == "a" && b == "b" && e == "e" && f == "f" && j < 4
    ensures SoleMatch(GroupingAgents(a, b, e, f, c, d, g), GroupingAgents(a, b, e, f, c, d, g)[j].name, j)
  {
    GroupingNameFacts(a, b, e, f);
    var ag := GroupingAgents(a, b, e, f, c, d, g);
    assert ag[0].name == a && ag[1].name == b && ag[2].name == e && ag[3].name == f;
  }

  /** Agent a (robots_test.go:63-65): only /c is disallowed. */
  lemma GroupingAgentA(r: seq<Agent>, a: string, b: string, e: string, f: string, c: string, d: string, g: string)
    requires WellOrdered(r) && Keys(r) == Keys(Groups(GroupingItems(a, b, e, f, c, d, g)))
    requires a == "a" && b == "b" && e == "e" && f == "f" && c == "/c" && d == "/d" && g == "/g"
    ensures !Test(r, a, c) && Test(r, a, d) && Test(r, a, g)
  {
    GroupingGroups(a, b, e, f, c, d, g);
    GroupingVerdicts(c, d, g, "/q");
    GroupingSole(a, b, e, f, c, d, g, 0);
    SoleOwner(r, GroupingAgents(a, b, e, f, c, d, g), a, 0, c);
    SoleOwner(r, GroupingAgents(a, b, e, f, c, d, g), a, 0, d);
    SoleOwner(r, GroupingAgents(a, b, e, f, c, d, g), a, 0, g);
  }

  /** Agent b (robots_test.go:66-68): only /d is disallowed. */
  lemma GroupingAgentB(r: seq<Agent>, a: string, b: string, e: string, f: string, c: string, d: string, g: string, q: string)
    requires WellOrdered(r) && Keys(r) == Keys(Groups(GroupingItems(a, b, e, f, c, d, g)))
    requires a == "a" && b == "b" && e == "e" && f == "f" && c == "/c" && d == "/d" && g == "/g" && q == "/q"
    ensures Test(r, b, c) && !Test(r, b, d) && Test(r, b, q)
  {
    GroupingGroups(a, b, e, f, c, d, g);
    GroupingVerdicts(c, d, g, q);
    GroupingSole(a, b, e, f, c, d, g, 1);
    SoleOwner(r, GroupingAgents(a, b, e, f, c, d, g), b, 1, c);
    SoleOwner(r, GroupingAgents(a, b, e, f, c, d, g), b, 1, d);
    SoleOwner(r, GroupingAgents(a, b, e, f, c, d, g), b, 1, q);
  }

  /** Agents e and f (robots_test.go:69-74): one group, only /g is disallowed. */
  lemma GroupingAgentsEF(r: seq<Agent>, a: string, b: string, e: string, f: string, c: string, d: string, g: string)
    requires WellOrdered(r) && Keys(r) == Keys(Groups(GroupingItems(a, b, e, f, c, d, g)))
    requires a == "a" && b == "b" && e == "e" && f == "f" && c == "/c" && d == "/d" && g == "/g"
    ensures Test(r, e, c) && Test(r, e, d) && !Test(r, e, g)
    ensures Test(r, f, c) && Test(r, f, d) && !Test(r, f, g)
  {
    GroupingGroups(a, b, e, f, c, d, g);
    GroupingVerdicts(c, d, g, "/q");
    GroupingSole(a, b, e, f, c, d, g, 2);
    SoleOwner(r, GroupingAgents(a, b, e, f, c, d, g), e, 2, c);
    SoleOwner(r, GroupingAgents(a, b, e, f, c, d, g), e, 2, d);
    SoleOwner(r, GroupingAgents(a, b, e, f, c, d, g), e, 2, g);
    GroupingSole(a, b, e, f, c, d, g, 3);
    SoleOwner(r, GroupingAgents(a, b, e, f, c, d, g), f, 3, c);
    SoleOwner(r, GroupingAgents(a, b, e, f, c, d, g), f, 3, d);
    SoleOwner(r, GroupingAgents(a, b, e, f, c, d, g), f, 3, g);
  }

  /** Agents googlebot-news, googlebot and `*`, each with a group of its own. */
  function PrecedenceItems(n: string, g: string, s: string, p: string): seq<Item> {
    [Item(ItemUserAgent, n), Item(ItemDisallow, p),
     Item(ItemUserAgent, g), Item(ItemDisallow, p),
     Item(ItemUserAgent, s), Item(ItemDisallow, p)]
  }

  function PrecedenceAgents(n: string, g: string, s: string, p: string): seq<Agent> {
    [Disallowing(n, p), Disallowing(g, p), Disallowing(s, p)]
  }

  /** The three agents keep their own groups. */
  lemma PrecedenceGroups(n: string, g: string, s: string, p: string)
    ensures Groups(PrecedenceItems(n, g, s, p)) == PrecedenceAgents(n, g, s, p)
  {
    var s5 := [Item(ItemDisallow, p)];
    var s4 := [Item(ItemUserAgent, s)] + s5;
    var s3 := [Item(ItemDisallow, p)] + s4;
    var s2 := [Item(ItemUserAgent, g)] + s3;
    var s1 := [Item(ItemDisallow, p)] + s2;
    var s0 := [Item(ItemUserAgent, n)] + s1;
    var m := Member(false, p);
    assert s5 == [s5[0]] + [];
    RuleFirst(s5[0], [], false);
    assert RulesAfter(s5, false) == [m] && Reference(s5) == [];
    UserAgentFirst(s4[0], s5);
    assert Reference(s4) == [Disallowing(s, p)];
    RuleFirst(s3[0], s4, false);
    assert RulesAfter(s3, false) == [m];
    UserAgentFirst(s2[0], s3);
    assert Reference(s2) == [Disallowing(g, p), Disallowing(s, p)];
    RuleFirst(s1[0], s2, false);
    assert RulesAfter(s1, false) == [m];
    UserAgentFirst(s0[0], s1);
    assert Reference(s0) == PrecedenceAgents(n, g, s, p);
    assert s0 == PrecedenceItems(n, g, s, p);
    GroupsAreReference(s0);
  }

  /** `t` is `s` lower-cased. */
  lemma LowerIs(s: string, t: string)
    requires |s| == |t| && forall i :: 0 <= i < |s| ==> LowerChar(s[i]) == t[i]
    ensures Lower(s) == t
  {
  }

  /** Lower-casing the robot names of the precedence test. */
  lemma LowerNews(news: string, n: string)
    requires news == "Googlebot-News" && n == "googlebot-news"
    ensures Lower(news) == n && Lower(n) == n
  {
    LowerIs(news, n);
    LowerIs(n, n);
  }

  lemma LowerBot(bot: string, g: string)
    requires bot == "Googlebot" && g == "googlebot"
    ensures Lower(bot) == g && Lower(g) == g
  {
    LowerIs(bot, g);
    LowerIs(g, g);
  }

  lemma LowerImage(image: string, t: string)
    requires image == "Googlebot-Image" && t == "googlebot-image"
    ensures Lower(image) == t
  {
    LowerIs(image, t);
  }

  lemma LowerBing(bing: string, t: string)
    requires bing == "Bingbot" && t == "bingbot"
    ensures Lower(bing) == t
  {
    LowerIs(bing, t);
  }

  /** Which stored names match which robots, ignoring case. */
  lemma PrecedenceNameFacts(n: string, g: string, s: string, news: string, bot: string, image: string, bing: string)
    requires n == "googlebot-news" && g == "googlebot" && s == "*"
    requires news == "Googlebot-News" && bot == "Googlebot" && image == "Googlebot-Image" && bing == "Bingbot"
    ensures AgentMatches(n, news) && !AgentMatches(n, bot) && !AgentMatches(n, image) && !AgentMatches(n, bing)
    ensures AgentMatches(g, bot) && AgentMatches(g, image) && !AgentMatches(g, bing) && AgentMatches(s, bing)
  {
    LowerNews(news, n);
    LowerBot(bot, g);
    var li, lb := "googlebot-image", "bingbot";
    LowerImage(image, li);
    LowerBing(bing, lb);
    assert n[10] != li[10];
    assert g[0] != lb[0];
  }

  /** Agent `own` matches `a`, and no other agent with a name at least as long does. */
  ghost predicate LongestMatch(agents: seq<Agent>, a: string, own: nat) {
    own < |agents| && AgentMatches(agents[own].name, a) &&
    forall i :: 0 <= i < |agents| && i != own && |agents[i].name| >= |agents[own].name| ==>
      !AgentMatches(agents[i].name, a)
  }

  /** The agent chosen for `a`, when agent `own` of `agents` is the longest that matches. */
  lemma PrecedenceChoice(r: seq<Agent>, agents: seq<Agent>, a: string, own: nat)
    requires SortedDesc(r, NameLen) && Keys(r) == Keys(agents)
    requires LongestMatch(agents, a, own)
    ensures BestAgent(r, a).Some? && BestAgent(r, a).value.name == agents[own].name
  {
    var k := Key(agents[own]);
    KeysMember(agents, k);
    forall k' | k' in Keys(r) && AgentMatches(k'.name, a) && |k'.name| >= |k.name| ensures k'.name == k.name {
      KeysMember(agents, k');
      var i :| 0 <= i < |agents| && Key(agents[i]) == k';
    }
    BestAgentDetermined(r, a, k);
  }

  /** For each robot of the precedence test, the agent with the longest matching name. */
  lemma PrecedenceLongest(n: string, g: string, s: string, p: string,
                          news: string, bot: string, image: string, bing: string)
    requires n == "googlebot-news" && g == "googlebot" && s == "*"
    requires news == "Googlebot-News" && bot == "Googlebot" && image == "Googlebot-Image" && bing == "Bingbot"
    ensures LongestMatch(PrecedenceAgents(n, g, s, p), news, 0)
    ensures LongestMatch(PrecedenceAgents(n, g, s, p), bot, 1)
    ensures LongestMatch(PrecedenceAgents(n, g, s, p), image, 1)
    ensures LongestMatch(PrecedenceAgents(n, g, s, p), bing, 2)
  {
    PrecedenceNameFacts(n, g, s, news, bot, image, bing);
  }

  /**
   * TestAgentPrecedence (robots_test.go:33-36): the longest matching name
   * answers, ignoring case, and `*` only when nothing else matches.
   */
  lemma AgentPrecedence(r: seq<Agent>, n: string, g: string, s: string, p: string,
                        news: string, bot: string, image: string, bing: string)
    requires SortedDesc(r, NameLen) && Keys(r) == Keys(Groups(PrecedenceItems(n, g, s, p)))
    requires n == "googlebot-news" && g == "googlebot" && s == "*"
    requires news == "Googlebot-News" && bot == "Googlebot" && image == "Googlebot-Image" && bing == "Bingbot"
    ensures BestAgent(r, news).Some? && BestAgent(r, news).value.name == n
    ensures BestAgent(r, bot).Some? && BestAgent(r, bot).value.name == g
    ensures BestAgent(r, image).Some? && BestAgent(r, image).value.name == g
    ensures BestAgent(r, bing).Some? && BestAgent(r, bing).value.name == s
  {
    PrecedenceGroups(n, g, s, p);
    PrecedenceLongest(n, g, s, p, news, bot, image, bing);
    var agents := PrecedenceAgents(n, g, s, p);
    PrecedenceChoice(r, agents, news, 0);
    PrecedenceChoice(r, agents, bot, 1);
    PrecedenceChoice(r, agents, image, 1);
    PrecedenceChoice(r, agents, bing, 2);
  }

  /** Only the `*` agent of the precedence file matches the robot `crawler`. */
  lemma CrawlerSole(n: string, g: string, s: string, p: string, crawler: string)
    requires n == "googlebot-news" && g == "googlebot" && s == "*" && crawler == "crawler"
    ensures SoleMatch(PrecedenceAgents(n, g, s, p), crawler, 2)
  {
    var agents := PrecedenceAgents(n, g, s, p);
    assert agents[0].name == n && agents[1].name == g && agents[2].name == s;
    assert Lower(n)[0] == 'g' && Lower(g)[0] == 'g' && Lower(crawler)[0] == 'c';
    assert !AgentMatches(n, crawler) && !AgentMatches(g, crawler);
  }

  /**
   * TestMemberPrecedence (robots_test.go:168-172): the robot `crawler` falls
   * to the `*` agent and may crawl `/page`, `/folder/page` and `/`, given
   * that the `*` agent's rule `p` matches none of them.
   */
  lemma MemberPrecedence(r: seq<Agent>, n: string, g: string, s: string, p: string,
                         crawler: string, p1: string, p2: string, p3: string)
    requires WellOrdered(r) && Keys(r) == Keys(Groups(PrecedenceItems(n, g, s, p)))
    requires n == "googlebot-news" && g == "googlebot" && s == "*" && crawler == "crawler"
    requires p1 == "/page" && p2 == "/folder/page" && p3 == "/"
    requires !PathMatches(p, p1) && !PathMatches(p, p2) && !PathMatches(p, p3)
    ensures Test(r, crawler, p1) && Test(r, crawler, p2) && Test(r, crawler, p3)
  {
    PrecedenceGroups(n, g, s, p);
    CrawlerSole(n, g, s, p, crawler);
    var agents, m := PrecedenceAgents(n, g, s, p), Member(false, p);
    assert agents[2].group == [m];
    OneRuleAllowed(m, p1);
    OneRuleAllowed(m, p2);
    OneRuleAllowed(m, p3);
    SoleOwner(r, agents, crawler, 2, p1);
    SoleOwner(r, agents, crawler, 2, p2);
    SoleOwner(r, agents, crawler, 2, p3);
  }
}
