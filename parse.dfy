/**
 * The robots.txt parser of parse.go: a value holding the open batch of
 * agents, the withinGroup flag, the items still to read and the agents
 * collected so far, driven by parse functions that each return the next.
 * Every parse function is proved to keep the fields in step with the
 * pure `ParseSpec.Fold`, up to the order that sorting leaves open, so the
 * result is the reference grouping of the lexer's items.
 */
module Parse {
  import opened Wrappers
  import opened Sorting
  import opened Types
  import opened Robots
  import opened LexSpec
  import opened ParseSpec
  import Lex

  /**
   * The parse functions; Stop is the nil that ends the run, Crash the
   * index-out-of-range panic of parseStart on an empty item list.
   */
  datatype ParseFn = StartP | UserAgentP | DisallowP | AllowP | NextP | EndP | Stop | Crash

  /** Together with the number of items left, a bound that every parse function decreases. */
  function Rank(fn: ParseFn): nat {
    match fn
    case StartP => 4
    case UserAgentP => 3
    case DisallowP => 3
    case AllowP => 3
    case NextP => 2
    case EndP => 1
    case _ => 0
  }

  /** The parse function parseStart chooses for an item of kind `t`. */
  function Handler(t: FieldType): ParseFn {
    match t
    case ItemUserAgent => UserAgentP
    case ItemDisallow => DisallowP
    case ItemAllow => AllowP
    case _ => NextP
  }

  ghost predicate RulesSorted(r: seq<Agent>) {
    forall i :: 0 <= i < |r| ==> SortedDesc(r[i].group, PathLen)
  }

  /** Re-ordering agents keeps every agent's rules sorted. */
  lemma RulesSortedPermutation(r: seq<Agent>, s: seq<Agent>)
    requires RulesSorted(r) && multiset(s) == multiset(r)
    ensures RulesSorted(s)
  {
    forall i | 0 <= i < |s| ensures SortedDesc(s[i].group, PathLen) {
      assert s[i] in multiset(r);
      var j :| 0 <= j < |r| && r[j] == s[i];
    }
  }

  lemma RulesSortedAppend(r: seq<Agent>, s: seq<Agent>)
    requires RulesSorted(r) && RulesSorted(s)
    ensures RulesSorted(r + s)
  {
    forall i | 0 <= i < |r + s| ensures SortedDesc((r + s)[i].group, PathLen) {
      if i >= |r| {
        assert (r + s)[i] == s[i - |r|];
      }
    }
  }

  /** The same agents in the same order, each with the same rules up to their order. */
  ghost predicate SameAgents(a: seq<Agent>, b: seq<Agent>) {
    |a| == |b| &&
    forall i :: 0 <= i < |a| ==> a[i].name == b[i].name && multiset(a[i].group) == multiset(b[i].group)
  }

  /** Agents that agree on names and on rules up to order have the same keys. */
  lemma {:induction false} KeysPointwise(a: seq<Agent>, b: seq<Agent>)
    requires SameAgents(a, b)
    ensures Keys(a) == Keys(b)
    decreases |a|
  {
    if |a| > 0 {
      assert Key(a[0]) == Key(b[0]);
      KeysPointwise(a[1..], b[1..]);
    }
  }

  class Parser {
    var agents: seq<Agent>
    var withinGroup: bool
    var items: seq<Item>
    var robots: seq<Agent>

    constructor (items: seq<Item>)
      ensures this.items == items && agents == [] && !withinGroup && robots == []
    {
      this.items := items;
      agents := [];
      withinGroup := false;
      robots := [];
    }

    /**
     * The fields hold the abstract state `st`: the open batch agent by
     * agent with its rules sorted by path length, and the closed agents
     * sorted by name length, both up to the order of equal lengths.
     */
    ghost predicate Holds(st: PState)
      reads this
    {
      SameAgents(agents, st.batch) && RulesSorted(agents) && withinGroup == st.within &&
      WellOrdered(robots) && Keys(robots) == Keys(st.closed)
    }

    /** parseStart: picks the parse function for the first item; panics when there is none. */
    method ParseStart() returns (next: ParseFn)
      ensures |items| == 0 ==> next == Crash
      ensures |items| > 0 ==> next == Handler(items[0].typ)
    {
      if |items| == 0 {
        return Crash;
      }
      match items[0].typ {
        case ItemUserAgent => next := UserAgentP;
        case ItemDisallow => next := DisallowP;
        case ItemAllow => next := AllowP;
        case _ => next := NextP;
      }
    }

    /** parseUserAgent: a user-agent line after a rule closes the batch and opens a new one. */
    method ParseUserAgent(ghost st: PState) returns (next: ParseFn)
      requires |items| > 0 && items[0].typ == ItemUserAgent && Holds(st)
      modifies this`agents, this`withinGroup, this`robots
      ensures Holds(Apply(st, items[0])) && next == NextP
    {
      if withinGroup {
        NewBatch(items[0].val, st);
        return NextP;
      }
      agents := agents + [Agent(items[0].val, [])];
      return NextP;
    }

    /** The first branch of parseUserAgent: the batch is closed and `name` opens the next one. */
    method NewBatch(name: string, ghost st: PState)
      requires Holds(st) && st.within
      modifies this`agents, this`withinGroup, this`robots
      ensures Holds(PState([Agent(name, [])], false, st.closed + st.batch))
    {
      KeysPointwise(agents, st.batch);
      KeysAppend(st.closed, st.batch);
      AppendAgents();
      assert Keys(robots) == Keys(st.closed + st.batch);
      agents := [Agent(name, [])];
      withinGroup := false;
      FreshBatch(name);
    }

    /** A batch of one agent without rules is in order. */
    static lemma FreshBatch(name: string)
      ensures SameAgents([Agent(name, [])], [Agent(name, [])]) && RulesSorted([Agent(name, [])])
    {
    }

    /** appendAgents: the open batch joins the collected agents, re-sorted by name length. */
    method AppendAgents()
      requires WellOrdered(robots) && RulesSorted(agents)
      modifies this`robots
      ensures WellOrdered(robots) && Keys(robots) == Keys(old(robots)) + Keys(agents)
    {
      ghost var joined := robots + agents;
      RulesSortedAppend(robots, agents);
      robots := SortByKey(robots + agents, NameLen);
      RulesSortedPermutation(joined, robots);
      KeysPermutation(robots, joined);
      KeysAppend(old(robots), agents);
    }

    /** The loop of parseDisallow and parseAllow: `m` joins, in sorted place, the rules of every open agent. */
    method AddToBatch(m: Member)
      modifies this`agents
      ensures |agents| == |old(agents)| && RulesSorted(agents)
      ensures forall i :: 0 <= i < |agents| ==>
        agents[i].name == old(agents[i].name) &&
        multiset(agents[i].group) == multiset(old(agents[i].group)) + multiset{m}
    {
      var i := 0;
      while i < |agents|
        invariant 0 <= i <= |agents| == |old(agents)|
        invariant forall j :: 0 <= j < i ==>
          agents[j].name == old(agents[j].name) && SortedDesc(agents[j].group, PathLen) &&
          multiset(agents[j].group) == multiset(old(agents[j].group)) + multiset{m}
        invariant forall j :: i <= j < |agents| ==> agents[j] == old(agents[j])
      {
        var g := SortByKey(agents[i].group + [m], PathLen);
        agents := agents[i := Agent(agents[i].name, g)];
        i := i + 1;
      }
    }

    /** parseDisallow: the rule applies to every agent of the open batch. */
    method ParseDisallow(ghost st: PState) returns (next: ParseFn)
      requires |items| > 0 && items[0].typ == ItemDisallow && Holds(st)
      modifies this`agents, this`withinGroup
      ensures Holds(Apply(st, items[0])) && next == NextP
    {
      withinGroup := true;
      AddToBatch(Member(false, items[0].val));
      return NextP;
    }

    /** parseAllow: as parseDisallow, for an allow rule. */
    method ParseAllow(ghost st: PState) returns (next: ParseFn)
      requires |items| > 0 && items[0].typ == ItemAllow && Holds(st)
      modifies this`agents, this`withinGroup
      ensures Holds(Apply(st, items[0])) && next == NextP
    {
      withinGroup := true;
      AddToBatch(Member(true, items[0].val));
      return NextP;
    }

    /** parseNext: drops the item just handled. */
    method ParseNext() returns (next: ParseFn)
      requires |items| > 0
      modifies this`items
      ensures items == old(items)[1..]
      ensures next == (if |items| == 0 then EndP else StartP)
    {
      items := items[1..];
      if |items| == 0 {
        return EndP;
      }
      return StartP;
    }

    /** parseEnd: closes the last batch and sorts the agents once more. */
    method ParseEnd(ghost st: PState) returns (next: ParseFn)
      requires Holds(st)
      modifies this`robots
      ensures WellOrdered(robots) && Keys(robots) == Keys(st.closed + st.batch) && next == Stop
    {
      AppendAgents();
      KeysPointwise(agents, st.batch);
      KeysAppend(st.closed, st.batch);
      ghost var before := robots;
      robots := SortByKey(robots, NameLen);
      RulesSortedPermutation(before, robots);
      KeysPermutation(robots, before);
      return Stop;
    }

    /**
     * Where the run stands: `done` items of `input` have been read, the
     * fields hold the fold of the items read so far, and the next parse
     * function `fn` is the one the source would call.
     */
    ghost predicate Between(input: seq<Item>, fn: ParseFn, st: PState, done: nat)
      reads this
    {
      done <= |input| && items == input[done..] && (fn != Stop ==> Holds(st)) &&
      (fn == Stop ==> WellOrdered(robots) && Keys(robots) == Keys(Groups(input))) &&
      Phase(input, fn, st, done)
    }

    /** One rule or user-agent item: its parse function, then the fold takes that item. */
    method StepItem(ghost input: seq<Item>, fn: ParseFn, ghost st: PState, ghost done: nat)
      returns (next: ParseFn, ghost st': PState)
      requires Between(input, fn, st, done)
      requires fn == UserAgentP || fn == DisallowP || fn == AllowP
      modifies this`agents, this`withinGroup, this`robots
      ensures Between(input, next, st', done) && Rank(next) < Rank(fn) && |items| == old(|items|)
    {
      assert input[..done + 1] == input[..done] + [input[done]];
      FoldSnoc(Init(), input[..done], input[done]);
      st' := Apply(st, input[done]);
      match fn {
        case UserAgentP => next := ParseUserAgent(st);
        case DisallowP => next := ParseDisallow(st);
        case AllowP => next := ParseAllow(st);
      }
    }

    /** parseStart within the run; an item it skips leaves the fold as it was. */
    method StepStart(ghost input: seq<Item>, fn: ParseFn, ghost st: PState, ghost done: nat) returns (next: ParseFn)
      requires Between(input, fn, st, done) && fn == StartP
      ensures Between(input, next, st, done) && Rank(next) < Rank(fn) && |items| == old(|items|)
    {
      next := ParseStart();
      if done < |input| {
        assert items[0] == input[done];
      }
      StartPhase(input, st, done, next);
    }

    /** parseNext within the run: one more item read. */
    method StepNext(ghost input: seq<Item>, fn: ParseFn, ghost st: PState, ghost done: nat) returns (next: ParseFn)
      requires Between(input, fn, st, done) && fn == NextP
      modifies this`items
      ensures Between(input, next, st, done + 1) && |items| < old(|items|)
    {
      next := ParseNext();
    }

    /** parseEnd within the run: every item has been read. */
    method StepEnd(ghost input: seq<Item>, fn: ParseFn, ghost st: PState, ghost done: nat) returns (next: ParseFn)
      requires Between(input, fn, st, done) && fn == EndP
      modifies this`robots
      ensures Between(input, next, st, done) && Rank(next) < Rank(fn) && |items| == old(|items|)
    {
      assert input[..done] == input;
      next := ParseEnd(st);
    }

    /** Calls the parse function `fn` and returns the next one. */
    method Dispatch(ghost input: seq<Item>, fn: ParseFn, ghost st: PState, ghost done: nat)
      returns (next: ParseFn, ghost st': PState, ghost done': nat)
      requires Between(input, fn, st, done) && fn != Stop && fn != Crash
      modifies this
      ensures Between(input, next, st', done')
      ensures |items| < old(|items|) || (|items| == old(|items|) && Rank(next) < Rank(fn))
    {
      st', done' := st, done;
      match fn {
        case StartP => next := StepStart(input, fn, st, done);
        case NextP => next := StepNext(input, fn, st, done); done' := done + 1;
        case EndP => next := StepEnd(input, fn, st, done);
        case UserAgentP | DisallowP | AllowP => next, st' := StepItem(input, fn, st, done);
      }
    }
  }

  /** What the next parse function `fn` says about the items read and the fold so far. */
  ghost predicate Phase(input: seq<Item>, fn: ParseFn, st: PState, done: nat) {
    done <= |input| &&
    match fn
    case StartP => (done == 0 || done < |input|) && st == Fold(Init(), input[..done])
    case NextP => done < |input| && st == Fold(Init(), input[..done + 1])
    case UserAgentP | DisallowP | AllowP =>
      done < |input| && fn == Handler(input[done].typ) && st == Fold(Init(), input[..done])
    case EndP => done == |input| > 0 && st == Fold(Init(), input[..done])
    case Stop => |input| > 0
    case Crash => |input| == 0 && st == Fold(Init(), input[..done])
  }

  /** After parseStart: the item it skips (neither a user-agent line nor a rule) does not change the fold. */
  lemma StartPhase(input: seq<Item>, st: PState, done: nat, next: ParseFn)
    requires Phase(input, StartP, st, done)
    requires done == |input| ==> next == Crash
    requires done < |input| ==> next == Handler(input[done].typ)
    ensures Phase(input, next, st, done)
  {
    if next == NextP {
      assert input[..done + 1] == input[..done] + [input[done]];
      FoldSnoc(Init(), input[..done], input[done]);
    }
  }

  /**
   * The loop of parse: the parse functions from parseStart until one
   * returns nil. It panics on an empty item list; otherwise the agents are
   * ordered as `Tester` needs and are the parser's grouping of `items`.
   */
  method RunParser(items: seq<Item>) returns (r: Outcome<seq<Agent>>)
    ensures r.Panic? <==> |items| == 0
    ensures r.Done? ==> WellOrdered(r.value) && Keys(r.value) == Keys(Groups(items))
  {
    var p := new Parser(items);
    var fn := StartP;
    ghost var st := Init();
    ghost var done := 0;
    assert items[..0] == [];
    while fn != Stop && fn != Crash
      invariant p.Between(items, fn, st, done)
      decreases |p.items|, Rank(fn)
    {
      fn, st, done := p.Dispatch(items, fn, st, done);
    }
    if fn == Crash {
      return Panic("index out of range");
    }
    return Done(p.robots);
  }

  /**
   * parse: lexes `s` and parses the items. It panics exactly when the
   * lexer finds no item; otherwise the agents are the reference grouping
   * of the items, ordered as `Tester` needs.
   */
  method Parse(s: string) returns (r: Outcome<seq<Agent>>)
    ensures r.Panic? <==> Tokens(s) == []
    ensures r.Done? ==> WellOrdered(r.value) && Keys(r.value) == Keys(Reference(Tokens(s)))
  {
    var items := Lex.Lex(s);
    GroupsAreReference(items);
    r := RunParser(items);
  }

  /** As `Parse`, but a file without items gives no agents, which allows every path. */
  method ParseGuarded(s: string) returns (r: seq<Agent>)
    ensures WellOrdered(r) && Keys(r) == Keys(Reference(Tokens(s)))
  {
    var items := Lex.Lex(s);
    GroupsAreReference(items);
    if |items| == 0 {
      return [];
    }
    var o := RunParser(items);
    r := o.value;
  }

  /** The empty file has no items, so `Parse` panics on it. */
  lemma EmptyFileHasNoItems(s: string)
    requires s == ""
    ensures Tokens(s) == []
  {
    TraceUnfold(s, Initial(), StepResult(Lx(Halt, 0, 0, ItemError), []));
  }

  /** Nor has a file holding just one comment line, so `Parse` panics on it too. */
  lemma CommentOnlyFileHasNoItems(s: string, c: string)
    requires s == "#" + c && forall i :: 0 <= i < |c| ==> c[i] != '\n'
    ensures Tokens(s) == []
  {
    assert forall q :: 0 <= q < |s| ==> s[q] != '\n' by {
      assert s[0] == '#';
      assert forall q :: 1 <= q < |s| ==> s[q] == c[q - 1];
    }
    LineEndAt(s, 0, |s|);
    CommentLineSilent(s, 0, ItemError);
    TraceUnfold(s, Lx(StartFn, |s|, |s|, ItemError), StepResult(Lx(Halt, |s|, |s|, ItemError), []));
  }
}
