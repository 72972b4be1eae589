# robots.txt engine, modelled in Dafny

This project models the core of a Go robots.txt library and proves its
properties. The core works in three stages.

- **Lexer** (`lex.go`). A state machine over a cursor (`start`, `pos`,
  `width`) into the file's text.
  - It recognises the field names `user-agent`, `disallow`, `allow` and
    `sitemap` case-insensitively, then a `:` and a value.
  - It skips white space (any `unicode.IsSpace` character) and comments.
    A newline followed by a space or a tab continues the line. Control
    characters follow section 2.2 of RFC 1945 (`lex.go:205-212`).
  - It emits an error item for each line it cannot read, and goes on.
- **Pattern matching and ordered rule lists** (`types.go`).
  - A rule's path pattern matches paths from their start. `*` matches any
    run of characters without a newline, since a regular-expression `.*`
    does not cross one. `$` marks the end of the path wherever it appears.
    Every other character is literal and case-sensitive.
  - An agent name matches a robot whose lower-cased name it prefixes,
    case-insensitively. The name `*` matches every robot.
  - Rules are kept sorted by non-increasing path length, and agents by
    non-increasing name length.
- **Parser and queries** (`parse.go`, `robots.go`, `types.go`).
  - Consecutive user-agent lines form a batch. Each rule line goes to every
    agent of the batch. A user-agent line that comes after a rule closes
    the batch.
  - A query takes the first matching agent in stored order, then that
    agent's first matching rule. Both levels allow when nothing matches.

### Modules

| module | file | contents |
|---|---|---|
| `Wrappers` | `wrappers.dfy` | `Option`, and `Outcome` for a computation that may panic |
| `Text` | `text.dfy` | ASCII `strings.ToLower` and `strings.EqualFold`, and `unicode.IsSpace` |
| `Sorting` | `sorting.dfy` | Re-sorting by a length key: the result is sorted and a permutation. |
| `Types` | `types.dfy` | Rules, agents, the meaning of compiled patterns, `addMember`, `addAgents` |
| `Robots` | `robots.dfy` | `bestAgent`, `Tester` and `Test` of both `robots.go` and `types.go`, and longest-match lemmas |
| `LexSpec` | `lexspec.dfy` | Each lexer state function as a pure step, the trace of a run, and lemmas about tokens |
| `Lex` | `lex.dfy` | The imperative lexer, a class whose methods are proved equal to `LexSpec` |
| `ParseSpec` | `parsespec.dfy` | The parse as a fold over items, and an independent reference grouping |
| `Parse` | `parse.dfy` | The imperative parser, a class whose methods keep its fields in step with the fold |
| `Scenarios` | `scenarios.dfy` | The agent-precedence, member-precedence and grouping tests of `robots_test.go`, from reconstructed item lists |

### How the parts fit

- **Lexer.** Each method of `Lex.Lexer` is proved to have exactly the effect
  of the matching `LexSpec.Step`. So `Lex.Lex(s)` returns `LexSpec.Tokens(s)`.
  `Tokens` is total: each step lowers a measure, so the lexer stops on every
  input.
- **Parser step by step.** Each parse method keeps the parser's fields in
  step with `ParseSpec.Fold` over the items read so far. This holds up to the
  order `sort.Slice` leaves among equal lengths, shown as equal multisets of
  `Robots.Key`s.
- **Parser result.** `ParseSpec.GroupsAreReference` proves the fold equals
  `ParseSpec.Reference`, a direct description of which rules each agent
  receives.
- **Queries.** `Robots.TestDetermined` proves that the answer does not depend
  on how ties were ordered. It holds wherever the longest matching agents,
  and within them the longest matching rules, agree.

### One lexer behaviour worth knowing

This behaviour is reproduced, not fixed. `lexSep` does not check whether
`skipLWS` ended the line (`lex.go:154-160`).

- `Disallow:` followed by a newline and a line `/x` lexes to one Disallow
  item with value `/x` (`LexSpec.EmptyValueTakesNextLine`).
- `Disallow` without a colon, followed by a newline and a line `/x`, lexes
  to a single error item. The line `/x` is lost
  (`LexSpec.MissingSeparatorTakesNextLine`).

## Model

| member | source | states |
|---|---|---|
| Text.Lower | types.go:74 | Lower-casing keeps the length and lower-cases each character on its own. |
| Text.LowerChar | types.go:89 | `unicode.ToLower` on one character, ASCII only: `A`-`Z` map to `a`-`z` and every other character is kept. |
| Text.EqualFold | lex.go:134 | `strings.EqualFold`, ASCII only: equal lengths, and equal characters after lower-casing each. |
| Text.IsSpace | lex.go:120 | `unicode.IsSpace`: tab, newline, vertical tab, form feed, carriage return, space, U+0085, U+00A0, U+1680, U+2000-U+200A, U+2028, U+2029, U+202F, U+205F and U+3000. EOF is not a space. |
| Sorting.Insert | types.go:59-61 | Inserting into a sorted list keeps it sorted by non-increasing key, and adds exactly the new element. |
| Sorting.SortByKey | types.go:168-170 | The result is sorted by non-increasing key and is a permutation of the input. Tie order is left open. |
| Types.PathMatches | types.go:30-42 | What the compiled pattern accepts: matching starts at the path's start. `*` takes any newline-free run, `$` matches only at the end, other characters match themselves, and anything may follow the pattern's end. |
| Types.MemberMatches | types.go:21-23 | A rule matches a path exactly when its compiled pattern does. |
| Types.LiteralIsPrefix | types.go:32-33 | A pattern without `*` or `$` matches exactly the paths it is a prefix of. |
| Types.LiteralThenEnd | types.go:35 | A literal followed by `$` matches exactly the path equal to the literal. |
| Types.LiteralThen | types.go:32-33 | A literal head must prefix the path, and the rest of the pattern must match the rest of the path. |
| Types.StarSkips | types.go:34 | `*` may skip any newline-free run, the empty run included. |
| Types.TrailingStarRedundant | types.go:34 | `p*` and `p` match the same paths. |
| Types.StarSplit | types.go:34 | `*rest` matches exactly when `rest` matches after some newline-free prefix of the path. |
| Types.StarRun | types.go:34 | A match of `*rest` yields the newline-free run the star takes. |
| Types.StarThenLiteral | types.go:34 | `*lit` matches exactly when `lit` occurs after a newline-free prefix. |
| Types.StarLiteralMissing | types.go:32-34 | `*lit` does not match a path lacking a character of `lit`. |
| Types.StarLiteralEndMismatch | types.go:34-35 | `*lit$` does not match a path that does not end as `lit` ends. |
| Types.StarHit | types.go:32-34 | `lit1*lit2` matches `lit1`, any newline-free run, `lit2` and anything after. |
| Types.StarEndHit | types.go:32-35 | `lit1*lit2$` matches `lit1`, any newline-free run, then exactly `lit2`. |
| Types.StarMiss | types.go:32-34 | `lit1*lit2` does not match `lit1` followed by a rest lacking a character of `lit2`. |
| Types.StarEndMiss | types.go:32-35 | `lit1*lit2$` does not match `lit1` followed by a rest not ending as `lit2` ends. |
| Types.FishPrefixVectors | robots_test.go:102-104 | `/fish` matches `/fishheads` and `/fish.php?id=anything`. |
| Types.FishNonPrefixVectors | robots_test.go:105-107 | `/fish` does not match `/Fish.asp`, `/catfish` or `/?id=fish`. |
| Types.FishSlashVectors | robots_test.go:119-120 | `/fish/` matches `/fish/salmon.htm` and not `/fish`. |
| Types.TrailingStarVectors | robots_test.go:112-115 | `/fish*` matches `/fishheads/yummy.html` and not `/catfish`. |
| Types.StarHitVector | robots_test.go:126 | `/*.php` matches `/folder/any.php.file.html`. |
| Types.StarCaseVector | robots_test.go:129 | `/*.php` does not match `/windows.PHP`: case matters. |
| Types.InnerStarEmptyVector | robots_test.go:136 | `/fish*.php` matches `/fish.php`: the star takes the empty run. |
| Types.InnerStarVector | robots_test.go:137 | `/fish*.php` matches `/fishheads/catfish.php?parameters`. |
| Types.EndAnchorMatchVector | robots_test.go:131 | `/*.php$` matches `/folder/filename.php`. |
| Types.EndAnchorMissVectors | robots_test.go:132-134 | `/*.php$` matches none of `/folder/filename.php?parameters`, `/filename.php/` and `/filename.php5`. |
| Types.EndAnchorMiss | types.go:34-35 | `/*.php$` rejects a path that is `/` followed by a rest not ending in `p`. |
| Types.AgentMatches | types.go:73-96 | The name `*` matches every robot. Any other name matches when its lower-cased form is a prefix of the lower-cased robot name. |
| Types.AgentMatchIgnoresCase | types.go:73-75 | Agent matching gives the same answer for a robot name and its lower-cased form. |
| Types.StarAgentMatchesAll | types.go:85-87 | An agent named `*` matches every robot name. |
| Types.AgentInnerStarVectors | types.go:84-88 | A `*` inside a longer agent name is literal: `google*` does not match `googlebot`. |
| Types.AddMember | types.go:52-62 | The rules afterwards are the old rules plus the new one as a multiset, sorted by non-increasing path length. |
| Types.AddAgents | types.go:159-171 | The agents afterwards are old plus added as a multiset, sorted by non-increasing name length. |
| Robots.BestAgent | robots.go:78-85 | Returns none exactly when no agent matches. Otherwise returns the first matching agent in stored order. |
| Robots.FirstMember | robots.go:69-73 | Returns none exactly when no rule matches. Otherwise returns the first matching rule in stored order. |
| Robots.Allowed | robots.go:68-75 | Allows when no rule matches. Denies exactly when the first matching rule is a disallow. |
| Robots.Tester | robots.go:61-76 | Constantly true when no agent matches. Otherwise the verdict of the best agent's rules on the raw path. |
| Robots.Test | robots.go:57-59 | Equals `Tester(a)(p)`, and allows when no agent matches. |
| Robots.TesterUrl | types.go:132-153 | Constantly true when no agent matches, and true when the URL does not parse. Otherwise the raw-path test on the parsed path. |
| Robots.TestUrl | types.go:117-119 | Equals `Tester(a)(p)` of `types.go`, and allows an unparsable URL. |
| Robots.LongestAgentWins | types.go:103-107 | With agents sorted, the chosen agent's name is at least as long as any matching name. |
| Robots.LongestMemberWins | types.go:44-47 | With rules sorted, the deciding rule's path is at least as long as any matching path. |
| Robots.KeysPermutation | parse.go:55-57 | Re-ordering agents keeps the multiset of agents with their rule multisets. |
| Robots.RulesDetermined | types.go:44-47 | With rules sorted, the verdict is that of the longest matching rules, however ties were ordered. |
| Robots.TestDetermined | robots.go:57-85 | On any well-ordered arrangement, `Test` answers what the longest matching agents and rules agree on. |
| Robots.BestAgentDetermined | robots.go:78-85 | When the longest matching name is unique, every sorted arrangement chooses that agent. |
| LexSpec.IsCTL | lex.go:207-212 | A control character in the sense of section 2.2 of RFC 1945: a code below 32, or 127. EOF (-1) counts as one. |
| LexSpec.RuneAt | lex.go:48-57 | The rune `next` reads at a position: the character there, or `eof` = -1 at or past the end. |
| LexSpec.MatchFrom | lex.go:129-140 | Scans the field table from entry `i` and returns the first name that starts the text, compared case-insensitively over exactly its length. |
| LexSpec.MatchField | lex.go:129-140 | The field-table scan from its first entry. |
| LexSpec.TrimRight | lex.go:72 | `strings.TrimRightFunc` with `unicode.IsSpace`: drops trailing white-space characters. |
| LexSpec.MatchFromSpec | lex.go:129-139 | The field search finds nothing exactly when no remaining name starts the text. Otherwise it finds a name that does. |
| LexSpec.FieldNamesExclusive | lex.go:22-27 | No two of the four field names can both start the same text. |
| LexSpec.FieldOrderIrrelevant | lex.go:129-139 | Whichever field name starts the text is the one found, so map iteration order does not matter. |
| LexSpec.TrimRightSpec | lex.go:72 | Trimming keeps a prefix that does not end in white space, and drops only white space. |
| LexSpec.LWSEnd | lex.go:215-236 | `skipLWS` stops within the input, at a position where it stops reading. |
| LexSpec.LWSEndFirst | lex.go:218-231 | `skipLWS` does not stop at any position before the one it reaches. |
| LexSpec.LineEndedStop | lex.go:219-226 | When `skipLWS` reports that the line ended, the cursor is at the end or on the first character after a newline. That character is not a space, a tab or a newline. |
| LexSpec.Continuation | lex.go:219-230 | A newline followed by a space or a tab does not end the white space. |
| LexSpec.LineEnd | lex.go:147 | The first newline at or after the cursor, or the end of input. |
| LexSpec.LineEndFirst | lex.go:147 | There is no newline before the one `LineEnd` finds. |
| LexSpec.NextLinePos | lex.go:146-151 | The position after the next newline lies within the input. |
| LexSpec.ValueEnd | lex.go:164 | The value ends at a control character, a `#` or the end of input. |
| LexSpec.ValueEndFirst | lex.go:164 | The value holds no control character and no `#`. |
| LexSpec.StartStep | lex.go:113-126 | `lexStart` leaves a valid state and lowers the termination measure. |
| LexSpec.FieldStep | lex.go:128-144 | `lexField` leaves a valid state and lowers the measure. |
| LexSpec.NextLineStep | lex.go:146-151 | `lexNextLine` leaves a valid state and lowers the measure. |
| LexSpec.SepStep | lex.go:153-161 | `lexSep` leaves a valid state and lowers the measure. |
| LexSpec.ValueStep | lex.go:163-169 | `lexValue` leaves a valid state and lowers the measure. |
| LexSpec.CommentStep | lex.go:171-189 | `lexComment` leaves a valid state and lowers the measure. |
| LexSpec.EolStep | lex.go:191-203 | `lexEOL` leaves a valid state and lowers the measure. |
| LexSpec.Step | lex.go:111-203 | Each state function leaves a valid state and lowers the measure, so every run stops. |
| LexSpec.Trace | lex.go:92-96 | The items a run of the state functions emits from a state, in order, until a state function returns nil. |
| LexSpec.Tokens | lex.go:98-109 | The items `lex` collects: the trace from `lexStart` at position zero. |
| LexSpec.TraceStep | lex.go:93 | A step's output followed by the trace from its next state is the trace from the state before. |
| LexSpec.StepOk | lex.go:163-169 | Each item one state function emits is a clean value or one of the three error messages. |
| LexSpec.TraceOk | lex.go:92-96 | Every item of a run is a clean value or one of the three error messages. |
| LexSpec.TokensOk | lex.go:72 | Each emitted value has no control character, no `#` and no trailing white space. Each error carries one of the three messages. |
| LexSpec.CommentLineSilent | lex.go:118-119 | A line starting with `#` emits nothing. Lexing resumes after the next newline. |
| LexSpec.StartToField | lex.go:123-124 | `lexStart` on anything but the end, white space or `#` goes on to `lexField`. |
| LexSpec.FieldUnknown | lex.go:141-143 | Text that starts with no field name emits one error carrying the rest of the input, then goes on to `lexNextLine`. |
| LexSpec.FieldKnown | lex.go:134-138 | Text that starts with a field name goes on to `lexSep` just after the name, with that field's kind. |
| LexSpec.UnknownFieldLine | lex.go:128-151 | A line with no field name emits one error and no field token. Lexing resumes after the next newline. |
| LexSpec.FieldLineIsField | lex.go:113-139 | A line that starts with a field name is lexed as that field. |
| LexSpec.NextLineSilent | lex.go:146-151 | `lexNextLine` emits nothing and resumes just past the next newline. |
| LexSpec.SepMissing | lex.go:153-158 | A field without `:` after white space emits one error and no token. Lexing skips to the end of the line the cursor stopped on. |
| LexSpec.SepValue | lex.go:153-169 | A field followed by `:` emits one item of its kind. The value runs up to the first control character or `#`, trimmed. |
| LexSpec.CommentAtEnd | lex.go:171-176 | At the end of input the comment state emits nothing and the run stops. |
| LexSpec.DisallowFolds | lex.go:134 | `Disallow` equals `disallow` ignoring case. |
| LexSpec.DisallowMatches | lex.go:129-139 | Text starting with `Disallow` starts with the field name `disallow`. |
| LexSpec.FieldOpens | lex.go:113-139 | An input that starts with a field name is lexed from `lexSep` just after the name. |
| LexSpec.DisallowOpens | lex.go:113-139 | An input that starts with `Disallow` is lexed from `lexSep` with kind Disallow. |
| LexSpec.EmptyValueTakesNextLine | lex.go:154-160 | `Disallow:`, a newline and a line `v` lex to exactly one Disallow item with value `v`. |
| LexSpec.MissingSeparatorTakesNextLine | lex.go:154-157 | `Disallow`, a newline and a line `v` lex to exactly one error item. |
| Lex.Lexer.constructor | lex.go:99-102 | A fresh lexer over the input, with its cursor at zero and no items. |
| Lex.Lexer.Next | lex.go:48-57 | Reads the rune at the cursor and advances by its width. At the end it returns EOF with width zero. |
| Lex.Lexer.Backup | lex.go:59-61 | Moves the cursor back by the last width. |
| Lex.Lexer.Peek | lex.go:63-67 | Returns the rune at the cursor and leaves the cursor in place. |
| Lex.Lexer.Emit | lex.go:69-75 | Appends an item of the current kind holding the trimmed text since `start`, then sets `start` to the cursor. |
| Lex.Lexer.Ignore | lex.go:77-79 | Sets `start` to the cursor. |
| Lex.Lexer.Errorf | lex.go:85-90 | Appends one error item with the message. |
| Lex.Lexer.SkipLWS | lex.go:215-236 | Leaves the cursor at `LWSEnd`, with `start` on it. `more` is false exactly when a newline ended the line. |
| Lex.Lexer.LexStart | lex.go:113-126 | Has exactly the effect of `LexSpec.StartStep` on the cursor, the next state and the items. |
| Lex.Lexer.LexField | lex.go:128-144 | Has exactly the effect of `LexSpec.FieldStep`. |
| Lex.Lexer.LexNextLine | lex.go:146-151 | Has exactly the effect of `LexSpec.NextLineStep`. |
| Lex.Lexer.LexSep | lex.go:153-161 | Has exactly the effect of `LexSpec.SepStep`. |
| Lex.Lexer.LexValue | lex.go:163-169 | Has exactly the effect of `LexSpec.ValueStep`. |
| Lex.Lexer.LexComment | lex.go:171-189 | Has exactly the effect of `LexSpec.CommentStep`. |
| Lex.Lexer.LexEOL | lex.go:191-203 | Has exactly the effect of `LexSpec.EolStep`. |
| Lex.Lexer.Dispatch | lex.go:93 | Calling the current state function has exactly the effect of `LexSpec.Step`. |
| Lex.Lexer.Advance | lex.go:93 | One step lowers the measure and keeps the emitted items plus the trace still to come unchanged. |
| Lex.Lexer.Run | lex.go:92-96 | The items appended are the trace of the machine from `lexStart`. |
| Lex.Lex | lex.go:98-109 | Returns the items of the input in emission order, equal to `LexSpec.Tokens`. |
| ParseSpec.Apply | parse.go:24-98 | The effect of one item on the parser: a user-agent closes the batch after a rule and otherwise joins it. A rule goes to every batch agent and sets `withinGroup`. Other items change nothing. |
| ParseSpec.Fold | parse.go:24-98 | `Apply` over the items in order, as the parse functions consume them. |
| ParseSpec.FoldReference | parse.go:37-98 | From any parser state, the fold gives the closed agents, then the open batch extended by the rules still to come, then one reference agent per later user-agent line. |
| ParseSpec.GroupsAreReference | parse.go:37-98 | The parser's grouping equals the reference grouping: one agent per user-agent line, with the rules up to the next user-agent line that follows a rule. |
| ParseSpec.ReferenceNames | parse.go:37-51 | There is exactly one agent per user-agent line, in file order. |
| ParseSpec.LeadingRulesDropped | parse.go:60-62 | Rules before the first user-agent line reach no agent. |
| ParseSpec.OtherItemsIgnored | parse.go:32-33 | Sitemap and error items change no agent and no rule list. |
| ParseSpec.AdjacentAgentsShareRules | parse.go:37-72 | Two consecutive user-agent lines receive the same rules. |
| Parse.RulesSortedPermutation | parse.go:55-57 | Re-sorting the agents keeps every agent's rules sorted. |
| Parse.Handler | parse.go:24-34 | The parse function `parseStart` returns for an item's kind: user-agent, disallow and allow have their handlers, and every other kind goes to `parseNext`. |
| Parse.Parser.constructor | parse.go:16-18 | A parser over the items, with no agents, no batch and `withinGroup` false. |
| Parse.Parser.ParseStart | parse.go:24-35 | Chooses the handler for the first item's kind, and panics when there is no item. |
| Parse.Parser.ParseUserAgent | parse.go:37-51 | The fields afterwards hold the fold after this user-agent item. After a rule it closes the batch and opens a new one. Otherwise it extends the batch. |
| Parse.Parser.NewBatch | parse.go:38-45 | The closed batch joins the collected agents. The new batch is just this agent, and `withinGroup` is false. |
| Parse.Parser.AppendAgents | parse.go:53-58 | The collected agents afterwards are the old ones plus the batch as keys, kept sorted. |
| Parse.Parser.AddToBatch | parse.go:62-72 | Every agent of the batch gets the rule, kept sorted by path length. |
| Parse.Parser.ParseDisallow | parse.go:60-74 | The fields afterwards hold the fold after this disallow item. |
| Parse.Parser.ParseAllow | parse.go:76-90 | The fields afterwards hold the fold after this allow item. |
| Parse.Parser.ParseNext | parse.go:92-98 | Drops the first item, then goes to `parseEnd` when none are left and to `parseStart` otherwise. |
| Parse.Parser.ParseEnd | parse.go:100-109 | The collected agents are every agent seen, sorted by name length, each with sorted rules. |
| Parse.Parser.StepItem | parse.go:19 | Runs a user-agent or rule handler inside the run invariant. |
| Parse.Parser.StepStart | parse.go:19 | Runs `parseStart` inside the run invariant. |
| Parse.Parser.StepNext | parse.go:19 | Runs `parseNext` inside the run invariant, with one more item read. |
| Parse.Parser.StepEnd | parse.go:19 | Runs `parseEnd` inside the run invariant. |
| Parse.Parser.Dispatch | parse.go:19 | Each parse function call keeps the run invariant, and reads an item or lowers the rank. |
| Parse.StartPhase | parse.go:24-35 | The item `parseStart` skips leaves the fold unchanged. |
| Parse.RunParser | parse.go:16-21 | Panics exactly on an empty item list. Otherwise the agents are the fold's grouping, ordered as queries need. |
| Parse.Parse | parse.go:14-22 | Panics exactly when the lexer yields no item. Otherwise the agents are the reference grouping of the tokens, well-ordered. |
| Parse.ParseGuarded | parse.go:14-22 | As `Parse`, but a file without items gives no agents. |
| Parse.EmptyFileHasNoItems | parse.go:25 | The empty file lexes to no items, so `parse` panics on it. |
| Parse.CommentOnlyFileHasNoItems | parse.go:25 | A file holding one comment line lexes to no items, so `parse` panics on it. |
| Scenarios.SoleOwner | robots.go:57-85 | When agent `j` is the only one whose name matches robot `a` and it has one rule, that rule decides `a`'s queries on any well-ordered arrangement. |
| Scenarios.GroupingGroups | robots_test.go:63-74 | The grouping file's items give `a`, `b`, and `e` with `f` their own groups. `e` and `f` share the rule. |
| Scenarios.GroupingAgentA | robots_test.go:63-65 | `a` is denied `/c` and allowed `/d` and `/g`. |
| Scenarios.GroupingAgentB | robots_test.go:66-68 | `b` is allowed `/c` and `/q`, and denied `/d`. |
| Scenarios.GroupingAgentsEF | robots_test.go:69-74 | `e` and `f` are allowed `/c` and `/d`, and denied `/g`. |
| Scenarios.PrecedenceGroups | robots_test.go:33-36 | The precedence file's three agents each keep their own group. |
| Scenarios.PrecedenceChoice | types.go:176-183 | On a sorted arrangement, the agent with the longest matching name is chosen. |
| Scenarios.AgentPrecedence | robots_test.go:33-36 | `Googlebot-News` gets `googlebot-news`, and `Googlebot` and `Googlebot-Image` get `googlebot`. `Bingbot` gets `*`. |
| Scenarios.CrawlerSole | types.go:73-75 | Of the precedence file's agents, only `*` matches the robot `crawler`. |
| Scenarios.MemberPrecedence | robots_test.go:168-172 | `crawler` falls to the `*` agent and may crawl `/page`, `/folder/page` and `/` when that agent's rule matches none of them. |

## Left out

- `From` (`robots.go:15-21`) reads an `io.Reader`. This is I/O, so the model starts from the text.
- `Locate` (`robots.go:23-55`) is built on `net/url` and `idna`, which are foreign libraries.
- The goroutine and channel of `lex` and `run`: the items sent are modelled as a sequence the lexer appends to, in the order they are sent.
- `url.Parse` in the `Tester` of `types.go` is a parameter `pathOf` that may fail.
- The regular-expression engine and `compile`'s `fmt.Printf` error branch: `Types.PathMatches` and `Types.AgentMatches` state what a compiled pattern accepts. The error branch is not modelled: a quoted pattern with `.*` and `$` put back is always a valid expression.
- The `compile` loop of `parseEnd` (`parse.go:105-107`) and the `compile` calls in `addMember`, `addAgents`, `parseDisallow` and `parseAllow`: a pattern is a function of its string here, so compiling adds nothing.
- `Robots.Sitemaps`: `parse` never fills it, since sitemap items fall into `parseStart`'s default case.
- UTF-8 decoding: a character stands for one decoded rune of width one. The sort keys `PathLen` and `NameLen` therefore count characters, while Go sorts by `len(path)` and `len(name)` in bytes (`types.go:60`, `types.go:169`, `parse.go:56`, `parse.go:70`, `parse.go:86`, `parse.go:103`). Two patterns with non-ASCII characters can therefore swap precedence. `/*xy` (4 bytes) and `/üü` (5 bytes, 3 characters) both match `/üüxy`. The source tries `/üü` first, and the model tries `/*xy` first.
- Non-ASCII case folding: `strings.ToLower` and `strings.EqualFold` are ASCII only. This is exact for the four field names, but not for agent names with non-ASCII letters.
- Pointers: agents and rules are values, so the aliasing of `*agent` and `*member` is not modelled.
- Types.AddMember: works on a value and returns the new list, so the in-place update of `g.members` is not modelled.
- Types.AddAgents: works on a value and returns the new list, so the in-place update of `r.agents` is not modelled.
- Sorting.SortByKey: promises only a sorted permutation, because `sort.Slice` is not stable and its tie order is unspecified.
- Parse.Parser.AppendAgents: states the collected agents only as a multiset of agents with their rule multisets, for the same tie-order reason.
- Parse.RunParser: states the result up to the order of equal-length names and of equal-length paths, for the same reason.
- Parse.Parse: states the result up to the order of equal-length names and of equal-length paths, for the same reason.
- The item's `line` field is never set by the lexer, so it is left out.
- The data files `testdata/grouping.txt` and `testdata/agent_precedence.txt` are not part of this model. `Scenarios` starts from item lists consistent with the expectations of TestAgentPrecedence, TestGrouping and TestMemberPrecedence, rather than from the files' text. For TestMemberPrecedence, the rule `p` of the `*` agent is a parameter required to match none of the three paths. The test's own comment (`robots_test.go:169-170`) calls the `/folder/page` verdict undefined under the specification.
- The rest of `TestPathMatching` (`robots_test.go:95-138`) is covered by the general lemmas of `Types` rather than one lemma per row.
- `interface.go`, `example_test.go` and the other test files are not part of this model.

## Findings

| source | as written | input that shows it | evidently intended | confidence | as-written member | corrected member |
|---|---|---|---|---|---|---|
| parse.go:24-25 | `parseStart` reads `items[0]` without checking that an item exists. `parse` therefore panics with an index out of range on a file whose lexing yields no item. | The empty file `""`, or the file `"# comment"` holding only one comment line. | A file without rules gives no agents, and every path is allowed. | high; not executed | Parse.Parse | Parse.ParseGuarded |
