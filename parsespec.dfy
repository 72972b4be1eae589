/**
 * What the robots.txt parser (parse.go) computes, stated as pure functions.
 *
 * The parser reads the lexer's items one at a time. User-agent lines open
 * (or extend) a batch of agents; each allow or disallow line is added to
 * every agent of the open batch; a user-agent line that follows a rule
 * closes the batch and opens a new one. `Fold` is that process in file
 * order and without any sorting; `Reference` is an independent statement
 * of which rules each agent receives, and `GroupsAreReference` proves the
 * two agree.
 */
module ParseSpec {
  import opened Types
  import opened LexSpec

  /**
   * The parser between two items: the open batch, whether a rule has been
   * read since its last user-agent line (withinGroup), and the agents of
   * the batches already closed.
   */
  datatype PState = PState(batch: seq<Agent>, within: bool, closed: seq<Agent>)

  function Init(): PState {
    PState([], false, [])
  }

  predicate IsRule(it: Item) {
    it.typ == ItemDisallow || it.typ == ItemAllow
  }

  /** The rule a disallow or allow item stands for. */
  function RuleOf(it: Item): Member
    requires IsRule(it)
  {
    Member(it.typ == ItemAllow, it.val)
  }

  /** Every agent of `batch` with the rules `ms` appended to its own. */
  function Extend(batch: seq<Agent>, ms: seq<Member>): seq<Agent> {
    seq(|batch|, i requires 0 <= i < |batch| => Agent(batch[i].name, batch[i].group + ms))
  }

  /** The effect of one item (parseUserAgent, parseDisallow, parseAllow; others are skipped). */
  function Apply(st: PState, it: Item): PState {
    if it.typ == ItemUserAgent then
      if st.within then PState([Agent(it.val, [])], false, st.closed + st.batch)
      else PState(st.batch + [Agent(it.val, [])], false, st.closed)
    else if IsRule(it) then PState(Extend(st.batch, [RuleOf(it)]), true, st.closed)
    else st
  }

  function Fold(st: PState, items: seq<Item>): PState
    decreases |items|
  {
    if |items| == 0 then st else Fold(Apply(st, items[0]), items[1..])
  }

  /** Folding one more item is one more `Apply`. */
  lemma {:induction false} FoldSnoc(st: PState, items: seq<Item>, it: Item)
    ensures Fold(st, items + [it]) == Apply(Fold(st, items), it)
    decreases |items|
  {
    if |items| == 0 {
      assert items + [it] == [it] && [it][1..] == [];
    } else {
      assert (items + [it])[1..] == items[1..] + [it];
      FoldSnoc(Apply(st, items[0]), items[1..], it);
    }
  }

  /** The agents the parser collects from `items`, in file order, with their rules in file order. */
  function Groups(items: seq<Item>): seq<Agent> {
    var st := Fold(Init(), items);
    st.closed + st.batch
  }

  /**
   * The rules that an agent receives from the items after its user-agent
   * line: every rule up to the first user-agent line that comes after a
   * rule. `seen` says whether a rule has already been passed.
   */
  function RulesAfter(items: seq<Item>, seen: bool): seq<Member>
    decreases |items|
  {
    if |items| == 0 then []
    else if items[0].typ == ItemUserAgent then
      if seen then [] else RulesAfter(items[1..], seen)
    else if IsRule(items[0]) then [RuleOf(items[0])] + RulesAfter(items[1..], true)
    else RulesAfter(items[1..], seen)
  }

  /** One agent per user-agent line, in file order, each with the rules that follow its line. */
  function Reference(items: seq<Item>): seq<Agent>
    decreases |items|
  {
    if |items| == 0 then []
    else if items[0].typ == ItemUserAgent then
      [Agent(items[0].val, RulesAfter(items[1..], false))] + Reference(items[1..])
    else Reference(items[1..])
  }

  /** The values of the user-agent items, in order. */
  function AgentNames(items: seq<Item>): seq<string>
    decreases |items|
  {
    if |items| == 0 then []
    else if items[0].typ == ItemUserAgent then [items[0].val] + AgentNames(items[1..])
    else AgentNames(items[1..])
  }

  function Names(agents: seq<Agent>): seq<string> {
    seq(|agents|, i requires 0 <= i < |agents| => agents[i].name)
  }

  lemma ExtendNothing(batch: seq<Agent>)
    ensures Extend(batch, []) == batch
  {
    forall i | 0 <= i < |batch| ensures Extend(batch, [])[i] == batch[i] {
      assert batch[i].group + [] == batch[i].group;
    }
  }

  lemma ExtendTwice(batch: seq<Agent>, ms: seq<Member>, ns: seq<Member>)
    ensures Extend(Extend(batch, ms), ns) == Extend(batch, ms + ns)
  {
    forall i | 0 <= i < |batch| ensures Extend(Extend(batch, ms), ns)[i] == Extend(batch, ms + ns)[i] {
      assert batch[i].group + ms + ns == batch[i].group + (ms + ns);
    }
  }

  lemma ExtendAppend(batch: seq<Agent>, a: Agent, ms: seq<Member>)
    ensures Extend(batch + [a], ms) == Extend(batch, ms) + [Agent(a.name, a.group + ms)]
  {
  }

  /**
   * The invariant of the parse: from any state, the agents of the open
   * batch receive the rules that `RulesAfter` names, and every user-agent
   * line still to come contributes its `Reference` agent after them.
   */
  lemma {:induction false} FoldReference(st: PState, items: seq<Item>)
    ensures Fold(st, items).closed + Fold(st, items).batch ==
      st.closed + Extend(st.batch, RulesAfter(items, st.within)) + Reference(items)
    decreases |items|
  {
    if |items| == 0 {
      ExtendNothing(st.batch);
    } else {
      var it, rest := items[0], items[1..];
      var next := Apply(st, it);
      FoldReference(next, rest);
      var tail := RulesAfter(rest, false);
      if it.typ == ItemUserAgent && st.within {
        ExtendNothing(st.batch);
        assert [] + tail == tail;
        assert Extend([Agent(it.val, [])], tail)[0] == Agent(it.val, [] + tail);
      } else if it.typ == ItemUserAgent {
        ExtendAppend(st.batch, Agent(it.val, []), tail);
        assert [] + tail == tail;
      } else if IsRule(it) {
        ExtendTwice(st.batch, [RuleOf(it)], RulesAfter(rest, true));
      }
    }
  }

  /** The parser's grouping is the reference grouping. */
  lemma GroupsAreReference(items: seq<Item>)
    ensures Groups(items) == Reference(items)
  {
    FoldReference(Init(), items);
    assert Extend([], RulesAfter(items, false)) == [];
  }

  /** Exactly one agent per user-agent line, in file order. */
  lemma {:induction false} ReferenceNames(items: seq<Item>)
    ensures Names(Reference(items)) == AgentNames(items)
    decreases |items|
  {
    if |items| > 0 {
      ReferenceNames(items[1..]);
    }
  }

  /** Rules and other items before the first user-agent line are dropped. */
  lemma {:induction false} LeadingRulesDropped(pre: seq<Item>, items: seq<Item>)
    requires forall i :: 0 <= i < |pre| ==> pre[i].typ != ItemUserAgent
    ensures Reference(pre + items) == Reference(items)
    decreases |pre|
  {
    if |pre| > 0 {
      assert (pre + items)[1..] == pre[1..] + items && (pre + items)[0] == pre[0];
      assert forall i :: 0 <= i < |pre[1..]| ==> pre[1..][i] == pre[i + 1];
      LeadingRulesDropped(pre[1..], items);
      assert pre[0].typ != ItemUserAgent;
      assert Reference(pre + items) == Reference(pre[1..] + items);
    } else {
      assert pre + items == items;
    }
  }

  /** Sitemap and error items have no effect on any agent. */
  lemma {:induction false} OtherItemsIgnored(pre: seq<Item>, it: Item, post: seq<Item>, seen: bool)
    requires it.typ != ItemUserAgent && !IsRule(it)
    ensures RulesAfter(pre + [it] + post, seen) == RulesAfter(pre + post, seen)
    ensures Reference(pre + [it] + post) == Reference(pre + post)
    decreases |pre|
  {
    if |pre| == 0 {
      assert (pre + [it] + post)[1..] == post;
      assert pre + post == post;
    } else {
      assert (pre + [it] + post)[1..] == pre[1..] + [it] + post;
      assert (pre + post)[1..] == pre[1..] + post;
      OtherItemsIgnored(pre[1..], it, post, false);
      OtherItemsIgnored(pre[1..], it, post, true);
    }
  }

  /** Consecutive user-agent lines form one group: both agents receive the same rules. */
  lemma AdjacentAgentsShareRules(a: Item, b: Item, post: seq<Item>)
    requires a.typ == ItemUserAgent && b.typ == ItemUserAgent
    ensures Reference([a, b] + post) ==
      [Agent(a.val, RulesAfter(post, false)), Agent(b.val, RulesAfter(post, false))] + Reference(post)
  {
    assert ([a, b] + post)[1..] == [b] + post;
    assert ([b] + post)[1..] == post;
  }
}
