/**
 * What the robots.txt lexer (lex.go) computes, stated as pure functions.
 *
 * The lexer is a state machine: each state function reads from a cursor
 * (`start`, `pos`) into the input, may emit items, and names the next state.
 * `Step` is the effect of one state function, `Trace` the items emitted
 * from a state until the machine stops, and `Tokens` the items of a whole
 * input. The scanning loops of the cursor are specified by the position at
 * which they stop (`LWSEnd`, `LineEnd`, `ValueEnd`). The imperative lexer
 * in module `Lex` is proved to do exactly this.
 *
 * Characters stand for decoded runes, so each rune has width one; the end
 * of input is the rune -1.
 */
module LexSpec {
  import opened Wrappers
  import opened Text

  datatype FieldType = ItemError | ItemUserAgent | ItemDisallow | ItemAllow | ItemSitemap

  /** An emitted token: its kind and its value (or an error message). */
  datatype Item = Item(typ: FieldType, val: string)

  const EOF: int := -1

  /** The four recognised field names, lower-case, with their token kinds. */
  const FieldTable: seq<(string, FieldType)> :=
    [("user-agent", ItemUserAgent), ("disallow", ItemDisallow),
     ("allow", ItemAllow), ("sitemap", ItemSitemap)]

  const FieldError: string := "unexpected field type: "
  const SepError: string := "expected separator betweeen field and value"
  const EolError: string := "expected EOL"

  /** A control character in the sense of RFC 1945 section 2.2; the end of input counts as one. */
  predicate IsCTL(r: int) {
    r < 32 || r == 127
  }

  /** The rune at position `p`, or EOF past the end. */
  function RuneAt(s: string, p: nat): int {
    if p < |s| then s[p] as int else EOF
  }

  /** `s` starts with the field name `name`, compared case-insensitively. */
  predicate HasField(s: string, name: string) {
    |name| <= |s| && EqualFold(name, s[..|name|])
  }

  /** The first entry of the field table, from index `i` on, whose name starts `s`. */
  function MatchFrom(s: string, i: nat): Option<(string, FieldType)>
    requires i <= |FieldTable|
    decreases |FieldTable| - i
  {
    if i == |FieldTable| then None
    else if HasField(s, FieldTable[i].0) then Some(FieldTable[i])
    else MatchFrom(s, i + 1)
  }

  /** The field whose name starts `s`, if any. */
  function MatchField(s: string): Option<(string, FieldType)> {
    MatchFrom(s, 0)
  }

  /** The search finds nothing exactly when no remaining name starts `s`, and otherwise a name that does. */
  lemma {:induction false} MatchFromSpec(s: string, i: nat)
    requires i <= |FieldTable|
    ensures MatchFrom(s, i).None? <==> forall j :: i <= j < |FieldTable| ==> !HasField(s, FieldTable[j].0)
    ensures MatchFrom(s, i).Some? ==>
              exists j :: i <= j < |FieldTable| && MatchFrom(s, i).value == FieldTable[j] && HasField(s, FieldTable[j].0)
    decreases |FieldTable| - i
  {
    if i < |FieldTable| && !HasField(s, FieldTable[i].0) {
      MatchFromSpec(s, i + 1);
    }
  }

  /** No two field names can both start the same text: their first letters differ. */
  lemma FieldNamesExclusive(s: string, i: nat, j: nat)
    requires i < |FieldTable| && j < |FieldTable|
    requires HasField(s, FieldTable[i].0) && HasField(s, FieldTable[j].0)
    ensures i == j
  {
    assert LowerChar(FieldTable[i].0[0]) == LowerChar(s[0]) == LowerChar(FieldTable[j].0[0]);
    assert FieldTable[i].0[0] == "udas"[i] && FieldTable[j].0[0] == "udas"[j];
  }

  /**
   * The token kind does not depend on the order in which the field names are
   * tried: whichever name starts the text, the search finds that one.
   */
  lemma FieldOrderIrrelevant(s: string, j: nat)
    requires j < |FieldTable| && HasField(s, FieldTable[j].0)
    ensures MatchField(s) == Some(FieldTable[j])
  {
    var r := MatchField(s);
    MatchFromSpec(s, 0);
    var k :| 0 <= k < |FieldTable| && r.value == FieldTable[k] && HasField(s, FieldTable[k].0);
    FieldNamesExclusive(s, j, k);
  }

  /** strings.TrimRightFunc(s, unicode.IsSpace). */
  function TrimRight(s: string): string
  {
    if |s| == 0 || !IsSpace(s[|s| - 1] as int) then s else TrimRight(s[..|s| - 1])
  }

  /**
   * Trimming keeps a prefix that does not end in white space and drops only
   * white space.
   */
  lemma {:induction false} TrimRightSpec(s: string)
    ensures TrimRight(s) <= s
    ensures |TrimRight(s)| == 0 || !IsSpace(TrimRight(s)[|TrimRight(s)| - 1] as int)
    ensures forall i :: |TrimRight(s)| <= i < |s| ==> IsSpace(s[i] as int)
  {
    if |s| > 0 && IsSpace(s[|s| - 1] as int) {
      TrimRightSpec(s[..|s| - 1]);
    }
  }

  /** Position `p` directly follows a newline read since `p0`. */
  predicate AfterEOL(s: string, p0: nat, p: nat) {
    p0 < p <= |s| && s[p - 1] == '\n'
  }

  /**
   * skipLWS stops reading at `p` (started at `p0`): at the end of input, or
   * on a character that is not a newline and is either a non-space or,
   * right after a newline, anything but a space or tab.
   */
  predicate Stops(s: string, p0: nat, p: nat) {
    p >= |s| ||
    (s[p] != '\n' &&
     ((AfterEOL(s, p0, p) && s[p] != ' ' && s[p] != '\t') || !IsSpace(s[p] as int)))
  }

  /** Where skipLWS started at `p0` leaves the cursor: the first stop at or after `p`. */
  function LWSEnd(s: string, p0: nat, p: nat): (e: nat)
    requires p <= |s|
    ensures p <= e <= |s| && Stops(s, p0, e)
    decreases |s| - p
  {
    if Stops(s, p0, p) then p else LWSEnd(s, p0, p + 1)
  }

  /** skipLWS reads up to the first stop: no position before it stops. */
  lemma {:induction false} LWSEndFirst(s: string, p0: nat, p: nat)
    requires p <= |s|
    ensures forall q :: p <= q < LWSEnd(s, p0, p) ==> !Stops(s, p0, q)
    decreases |s| - p
  {
    if !Stops(s, p0, p) {
      LWSEndFirst(s, p0, p + 1);
    }
  }

  /** A stop with no stop before it is where skipLWS leaves the cursor. */
  lemma LWSEndAt(s: string, p0: nat, p: nat, e: nat)
    requires p <= e <= |s| && Stops(s, p0, e)
    requires forall q :: p <= q < e ==> !Stops(s, p0, q)
    ensures LWSEnd(s, p0, p) == e
  {
    LWSEndFirst(s, p0, p);
  }

  /** The first newline at or after `p`, or the end of input. */
  function LineEnd(s: string, p: nat): (e: nat)
    requires p <= |s|
    ensures p <= e <= |s| && (e == |s| || s[e] == '\n')
    decreases |s| - p
  {
    if p == |s| || s[p] == '\n' then p else LineEnd(s, p + 1)
  }

  /** There is no newline before the one LineEnd finds. */
  lemma {:induction false} LineEndFirst(s: string, p: nat)
    requires p <= |s|
    ensures forall q :: p <= q < LineEnd(s, p) ==> s[q] != '\n'
    decreases |s| - p
  {
    if p < |s| && s[p] != '\n' {
      LineEndFirst(s, p + 1);
    }
  }

  /** A newline (or the end) with none before it is where LineEnd stops. */
  lemma LineEndAt(s: string, p: nat, e: nat)
    requires p <= e <= |s| && (e == |s| || s[e] == '\n')
    requires forall q :: p <= q < e ==> s[q] != '\n'
    ensures LineEnd(s, p) == e
  {
    LineEndFirst(s, p);
  }

  /** Just past the first newline at or after `p`, or the end of input. */
  function NextLinePos(s: string, p: nat): (e: nat)
    requires p <= |s|
    ensures p <= e <= |s|
  {
    var e := LineEnd(s, p);
    if e < |s| then e + 1 else e
  }

  /** The first control character or `#` at or after `p`, or the end of input. */
  function ValueEnd(s: string, p: nat): (e: nat)
    requires p <= |s|
    ensures p <= e <= |s| && (e == |s| || IsCTL(s[e] as int) || s[e] == '#')
    decreases |s| - p
  {
    if p == |s| || IsCTL(s[p] as int) || s[p] == '#' then p else ValueEnd(s, p + 1)
  }

  /** The value holds no control character and no `#`. */
  lemma {:induction false} ValueEndFirst(s: string, p: nat)
    requires p <= |s|
    ensures forall q :: p <= q < ValueEnd(s, p) ==> !IsCTL(s[q] as int) && s[q] != '#'
    decreases |s| - p
  {
    if p < |s| && !IsCTL(s[p] as int) && s[p] != '#' {
      ValueEndFirst(s, p + 1);
    }
  }

  /** A control character or `#` with none before it ends the value. */
  lemma ValueEndAt(s: string, p: nat, e: nat)
    requires p <= e <= |s| && (e == |s| || IsCTL(s[e] as int) || s[e] == '#')
    requires forall q :: p <= q < e ==> !IsCTL(s[q] as int) && s[q] != '#'
    ensures ValueEnd(s, p) == e
  {
    ValueEndFirst(s, p);
  }

  /** The state functions lexStart … lexEOL; Halt is the nil state that ends the run. */
  datatype LexFn = StartFn | FieldFn | NextLineFn | SepFn | ValueFn | CommentFn | EolFn | Halt

  /** The lexer between two state functions: the next state, the cursor and the field kind. */
  datatype Lx = Lx(fn: LexFn, start: nat, pos: nat, typ: FieldType)

  /** What one state function emits, and the state it leaves. */
  datatype StepResult = StepResult(next: Lx, out: seq<Item>)

  /** The states the machine can be in before each state function. */
  predicate Ready(s: string, x: Lx) {
    x.start <= x.pos <= |s| &&
    (x.fn == StartFn || x.fn == ValueFn || x.fn == FieldFn ==> x.start == x.pos) &&
    (x.fn == FieldFn ==> x.pos < |s|) &&
    (x.fn == SepFn || x.fn == ValueFn ==> x.typ != ItemError)
  }

  /** A bound that every state function decreases: the run terminates. */
  function Measure(s: string, x: Lx): nat
    requires x.pos <= |s|
  {
    var r := |s| - x.pos;
    match x.fn
    case Halt => 0
    case StartFn => 10 * r + 5
    case FieldFn => 10 * r + 4
    case NextLineFn => if r == 0 then 9 else 10 * r - 1
    case SepFn => 10 * r + 12
    case ValueFn => 10 * r + 8
    case CommentFn => if r > 0 && s[x.pos] == '#' then 10 * r + 3 else 10 * r + 7
    case EolFn => 10 * r + 6
  }

  /** lexStart: the end of input, a comment, white space to skip, or a field. */
  function StartStep(s: string, x: Lx): (r: StepResult)
    requires Ready(s, x) && x.fn == StartFn
    ensures Ready(s, r.next) && Measure(s, r.next) < Measure(s, x)
  {
    if x.pos == |s| then StepResult(x.(fn := Halt), [])
    else if s[x.pos] == '#' then StepResult(x.(fn := CommentFn), [])
    else if IsSpace(s[x.pos] as int) then
      var p := LWSEnd(s, x.pos, x.pos);
      StepResult(Lx(StartFn, p, p, x.typ), [])
    else StepResult(x.(fn := FieldFn), [])
  }

  /** lexField: a field name starting the text, else an error carrying the rest of the input. */
  function FieldStep(s: string, x: Lx): (r: StepResult)
    requires Ready(s, x) && x.fn == FieldFn
    ensures Ready(s, r.next) && Measure(s, r.next) < Measure(s, x)
  {
    match MatchField(s[x.pos..])
    case Some(f) =>
      StepResult(Lx(SepFn, x.pos + |f.0|, x.pos + |f.0|, f.1), [])
    case None =>
      StepResult(x.(fn := NextLineFn), [Item(ItemError, FieldError + s[x.start..])])
  }

  /** lexNextLine: on to just past the next newline. */
  function NextLineStep(s: string, x: Lx): (r: StepResult)
    requires Ready(s, x) && x.fn == NextLineFn
    ensures Ready(s, r.next) && Measure(s, r.next) < Measure(s, x)
  {
    var p := NextLinePos(s, x.pos);
    StepResult(Lx(StartFn, p, p, x.typ), [])
  }

  /**
   * lexSep: white space, then `:` and white space before the value; the
   * rune read in place of a missing `:` is consumed.
   */
  function SepStep(s: string, x: Lx): (r: StepResult)
    requires Ready(s, x) && x.fn == SepFn
    ensures Ready(s, r.next) && Measure(s, r.next) < Measure(s, x)
  {
    var p1 := LWSEnd(s, x.pos, x.pos);
    if p1 < |s| && s[p1] == ':' then
      var p2 := LWSEnd(s, p1 + 1, p1 + 1);
      StepResult(Lx(ValueFn, p2, p2, x.typ), [])
    else
      StepResult(Lx(NextLineFn, p1, if p1 < |s| then p1 + 1 else p1, x.typ), [Item(ItemError, SepError)])
  }

  /** lexValue: the text up to a control character or `#`, emitted without trailing white space. */
  function ValueStep(s: string, x: Lx): (r: StepResult)
    requires Ready(s, x) && x.fn == ValueFn
    ensures Ready(s, r.next) && Measure(s, r.next) < Measure(s, x)
  {
    var e := ValueEnd(s, x.pos);
    StepResult(Lx(CommentFn, e, e, x.typ), [Item(x.typ, TrimRight(s[x.start..e]))])
  }

  /** lexComment: white space, then a `#` comment on the same line is skipped to its end. */
  function CommentStep(s: string, x: Lx): (r: StepResult)
    requires Ready(s, x) && x.fn == CommentFn
    ensures Ready(s, r.next) && Measure(s, r.next) < Measure(s, x)
  {
    var p1 := LWSEnd(s, x.pos, x.pos);
    if !AfterEOL(s, x.pos, p1) && p1 < |s| && s[p1] == '#' then
      var e := LineEnd(s, p1);
      StepResult(Lx(EolFn, e, e, x.typ), [])
    else
      StepResult(Lx(StartFn, p1, p1, x.typ), [])
  }

  /** lexEOL: a newline or the end of input, else an error. */
  function EolStep(s: string, x: Lx): (r: StepResult)
    requires Ready(s, x) && x.fn == EolFn
    ensures Ready(s, r.next) && Measure(s, r.next) < Measure(s, x)
  {
    if x.pos == |s| || s[x.pos] == '\n' then
      var p := if x.pos == |s| then x.pos else x.pos + 1;
      StepResult(Lx(StartFn, p, p, x.typ), [])
    else
      StepResult(x.(fn := NextLineFn, pos := x.pos + 1), [Item(ItemError, EolError)])
  }

  /** The effect of the state function `x.fn` of lex.go on input `s`. */
  function Step(s: string, x: Lx): (r: StepResult)
    requires Ready(s, x) && x.fn != Halt
    ensures Ready(s, r.next)
    ensures Measure(s, r.next) < Measure(s, x)
  {
    match x.fn
    case StartFn => StartStep(s, x)
    case FieldFn => FieldStep(s, x)
    case NextLineFn => NextLineStep(s, x)
    case SepFn => SepStep(s, x)
    case ValueFn => ValueStep(s, x)
    case CommentFn => CommentStep(s, x)
    case EolFn => EolStep(s, x)
  }

  /** The items emitted from state `x` until the machine stops. */
  function Trace(s: string, x: Lx): seq<Item>
    requires Ready(s, x)
    decreases Measure(s, x)
  {
    if x.fn == Halt then [] else
    var r := Step(s, x);
    r.out + Trace(s, r.next)
  }

  /** Emitting a step's items and going on from its next state accounts for the whole trace. */
  lemma TraceStep(s: string, x: Lx, before: seq<Item>, after: seq<Item>, y: Lx)
    requires Ready(s, x) && x.fn != Halt && y == Step(s, x).next && after == before + Step(s, x).out
    ensures Ready(s, y) && Measure(s, y) < Measure(s, x)
    ensures after + Trace(s, y) == before + Trace(s, x)
  {
    var r := Step(s, x);
    TraceUnfold(s, x, r);
    AppendAssoc(before, r.out, Trace(s, y));
  }

  lemma AppendAssoc(a: seq<Item>, b: seq<Item>, c: seq<Item>)
    ensures (a + b) + c == a + (b + c)
  {
  }

  lemma TraceUnfold(s: string, x: Lx, r: StepResult)
    requires Ready(s, x) && x.fn != Halt && Step(s, x) == r
    ensures Trace(s, x) == r.out + Trace(s, r.next)
  {
  }

  /** The state the lexer starts in. */
  function Initial(): Lx {
    Lx(StartFn, 0, 0, ItemError)
  }

  /** The items lex.go emits for `s`, in emission order. */
  function Tokens(s: string): seq<Item> {
    Trace(s, Initial())
  }

  /** A value as the lexer emits it: no control character, no `#`, no trailing white space. */
  predicate CleanValue(v: string) {
    (forall i :: 0 <= i < |v| ==> !IsCTL(v[i] as int) && v[i] != '#') &&
    (|v| == 0 || !IsSpace(v[|v| - 1] as int))
  }

  /** One of the three messages the lexer reports. */
  predicate ErrorMessage(v: string) {
    v == SepError || v == EolError || FieldError <= v
  }

  predicate ItemOk(it: Item) {
    if it.typ == ItemError then ErrorMessage(it.val) else CleanValue(it.val)
  }

  predicate ItemsOk(items: seq<Item>) {
    forall i :: 0 <= i < |items| ==> ItemOk(items[i])
  }

  /** Every item one state function emits is a clean value or one of the error messages. */
  lemma StepOk(s: string, x: Lx)
    requires Ready(s, x) && x.fn != Halt
    ensures ItemsOk(Step(s, x).out)
  {
    if x.fn == ValueFn {
      var e := ValueEnd(s, x.pos);
      ValueEndFirst(s, x.pos);
      var v := TrimRight(s[x.start..e]);
      TrimRightSpec(s[x.start..e]);
      forall i | 0 <= i < |v|
        ensures !IsCTL(v[i] as int) && v[i] != '#'
      {
        assert v[i] == s[x.pos + i];
      }
    }
  }

  lemma {:induction false} TraceOk(s: string, x: Lx)
    requires Ready(s, x)
    ensures ItemsOk(Trace(s, x))
    decreases Measure(s, x)
  {
    if x.fn != Halt {
      var r := Step(s, x);
      StepOk(s, x);
      TraceOk(s, r.next);
      assert Trace(s, x) == r.out + Trace(s, r.next);
    }
  }

  /**
   * Every value the lexer emits has no control character, no `#` and no
   * trailing white space; every error carries one of its three messages.
   */
  lemma TokensOk(s: string)
    ensures ItemsOk(Tokens(s))
  {
    TraceOk(s, Initial());
  }

  /** A line that starts with `#` emits nothing: lexing goes on at the next line. */
  lemma CommentLineSilent(s: string, p: nat, t: FieldType)
    requires p < |s| && s[p] == '#'
    ensures Trace(s, Lx(StartFn, p, p, t)) == Trace(s, Lx(StartFn, NextLinePos(s, p), NextLinePos(s, p), t))
  {
    var x1 := Lx(CommentFn, p, p, t);
    TraceUnfold(s, Lx(StartFn, p, p, t), StepResult(x1, []));
    LWSEndAt(s, p, p, p);
    var e := LineEnd(s, p);
    var x2 := Lx(EolFn, e, e, t);
    TraceUnfold(s, x1, StepResult(x2, []));
    var q := NextLinePos(s, p);
    TraceUnfold(s, x2, StepResult(Lx(StartFn, q, q, t), []));
  }

  /** lexStart on anything but the end, white space or `#` goes on to lexField. */
  lemma StartToField(s: string, p: nat, t: FieldType)
    requires p < |s| && s[p] != '#' && !IsSpace(s[p] as int)
    ensures Trace(s, Lx(StartFn, p, p, t)) == Trace(s, Lx(FieldFn, p, p, t))
  {
    TraceUnfold(s, Lx(StartFn, p, p, t), StepResult(Lx(FieldFn, p, p, t), []));
  }

  /** lexField on text that starts with no field name: one error, then lexNextLine. */
  lemma FieldUnknown(s: string, p: nat, t: FieldType)
    requires p < |s| && MatchField(s[p..]).None?
    ensures Trace(s, Lx(FieldFn, p, p, t)) == [Item(ItemError, FieldError + s[p..])] + Trace(s, Lx(NextLineFn, p, p, t))
  {
    TraceUnfold(s, Lx(FieldFn, p, p, t), StepResult(Lx(NextLineFn, p, p, t), [Item(ItemError, FieldError + s[p..])]));
  }

  /** lexField on text that starts with a field name: on to lexSep just after the name. */
  lemma FieldKnown(s: string, p: nat, t: FieldType, name: string, kind: FieldType)
    requires p < |s| && MatchField(s[p..]) == Some((name, kind))
    requires p + |name| <= |s| && kind != ItemError
    ensures Trace(s, Lx(FieldFn, p, p, t)) == Trace(s, Lx(SepFn, p + |name|, p + |name|, kind))
  {
    TraceUnfold(s, Lx(FieldFn, p, p, t), StepResult(Lx(SepFn, p + |name|, p + |name|, kind), []));
  }

  /**
   * A line that starts with no field name emits one error carrying the rest
   * of the input, and lexing goes on at the next line.
   */
  lemma UnknownFieldLine(s: string, p: nat, t: FieldType)
    requires p < |s| && s[p] != '#' && !IsSpace(s[p] as int)
    requires MatchField(s[p..]).None?
    ensures Trace(s, Lx(StartFn, p, p, t)) ==
            [Item(ItemError, FieldError + s[p..])] + Trace(s, Lx(StartFn, NextLinePos(s, p), NextLinePos(s, p), t))
  {
    StartToField(s, p, t);
    FieldUnknown(s, p, t);
    NextLineSilent(s, p, p, t);
  }

  /**
   * A line that starts with a field name is lexed as that field: it begins
   * with a letter, so it is neither white space nor a comment.
   */
  lemma FieldLineIsField(s: string, p: nat, t: FieldType, name: string, kind: FieldType)
    requires p < |s| && MatchField(s[p..]) == Some((name, kind))
    ensures kind != ItemError && p + |name| <= |s|
    ensures Trace(s, Lx(StartFn, p, p, t)) == Trace(s, Lx(SepFn, p + |name|, p + |name|, kind))
  {
    MatchFromSpec(s[p..], 0);
    var j :| 0 <= j < |FieldTable| && (name, kind) == FieldTable[j] && HasField(s[p..], FieldTable[j].0);
    assert LowerChar(s[p]) == LowerChar(FieldTable[j].0[0]) == "udas"[j];
    StartToField(s, p, t);
    FieldKnown(s, p, t, name, kind);
  }

  /** lexNextLine emits nothing: lexing goes on just past the next newline. */
  lemma NextLineSilent(s: string, a: nat, b: nat, t: FieldType)
    requires a <= b <= |s|
    ensures Trace(s, Lx(NextLineFn, a, b, t)) == Trace(s, Lx(StartFn, NextLinePos(s, b), NextLinePos(s, b), t))
  {
    var q := NextLinePos(s, b);
    TraceUnfold(s, Lx(NextLineFn, a, b, t), StepResult(Lx(StartFn, q, q, t), []));
  }

  /**
   * A field name not followed, after white space, by `:` emits one error,
   * and lexing skips to the end of the line the cursor stopped on. That is
   * a later line when the white space ran past a newline: lexSep ignores
   * whether skipLWS ended the line, and consumes the rune it read instead
   * of the `:`.
   */
  lemma SepMissing(s: string, p0: nat, t: FieldType, p1: nat)
    requires p0 <= |s| && t != ItemError && p1 == LWSEnd(s, p0, p0)
    requires !(p1 < |s| && s[p1] == ':')
    ensures var q := NextLinePos(s, if p1 < |s| then p1 + 1 else p1);
            Trace(s, Lx(SepFn, p0, p0, t)) == [Item(ItemError, SepError)] + Trace(s, Lx(StartFn, q, q, t))
  {
    var p3 := if p1 < |s| then p1 + 1 else p1;
    var x3 := Lx(NextLineFn, p1, p3, t);
    TraceUnfold(s, Lx(SepFn, p0, p0, t), StepResult(x3, [Item(ItemError, SepError)]));
    NextLineSilent(s, p1, p3, t);
  }

  /**
   * A field name followed by `:` emits one item of the field's kind. Its
   * value is the text after the `:` and the white space that follows it, up
   * to the first control character or `#`, without trailing white space.
   * That white space may run past a newline (lexSep ignores whether skipLWS
   * ended the line), so an empty value takes its text from the next line.
   */
  lemma SepValue(s: string, p0: nat, t: FieldType, p1: nat, p2: nat, e: nat)
    requires p0 <= |s| && t != ItemError && p1 == LWSEnd(s, p0, p0)
    requires p1 < |s| && s[p1] == ':' && p2 == LWSEnd(s, p1 + 1, p1 + 1) && e == ValueEnd(s, p2)
    ensures Trace(s, Lx(SepFn, p0, p0, t)) == [Item(t, TrimRight(s[p2..e]))] + Trace(s, Lx(CommentFn, e, e, t))
  {
    var x4 := Lx(ValueFn, p2, p2, t);
    TraceUnfold(s, Lx(SepFn, p0, p0, t), StepResult(x4, []));
    TraceUnfold(s, x4, StepResult(Lx(CommentFn, e, e, t), [Item(t, TrimRight(s[p2..e]))]));
  }

  /**
   * When skipLWS reports that the line ended, the cursor is at the end of
   * input or on the first character after the newline that is neither a
   * space, a tab nor another newline.
   */
  lemma LineEndedStop(s: string, p0: nat)
    requires p0 <= |s|
    ensures var e := LWSEnd(s, p0, p0);
            AfterEOL(s, p0, e) ==> e == |s| || (s[e] != ' ' && s[e] != '\t' && s[e] != '\n')
  {
  }

  /** A newline followed by a space or a tab does not end the white space: the line continues. */
  lemma Continuation(s: string, p0: nat, q: nat)
    requires p0 <= q && q + 1 < |s| && s[q] == '\n' && (s[q + 1] == ' ' || s[q + 1] == '\t')
    requires q < LWSEnd(s, p0, p0)
    ensures q + 1 < LWSEnd(s, p0, p0)
  {
    LWSEndFirst(s, p0, p0);
    assert !Stops(s, p0, q + 1);
  }

  /** At the end of input the comment state and then the start state stop the machine. */
  lemma CommentAtEnd(s: string, t: FieldType)
    ensures Trace(s, Lx(CommentFn, |s|, |s|, t)) == []
  {
    LWSEndAt(s, |s|, |s|, |s|);
    TraceUnfold(s, Lx(CommentFn, |s|, |s|, t), StepResult(Lx(StartFn, |s|, |s|, t), []));
    TraceUnfold(s, Lx(StartFn, |s|, |s|, t), StepResult(Lx(Halt, |s|, |s|, t), []));
  }

  /** `Disallow` is the field name `disallow` in another case. */
  lemma DisallowFolds()
    ensures EqualFold("disallow", "Disallow")
  {
    forall i | 0 <= i < 8
      ensures LowerChar("disallow"[i]) == LowerChar("Disallow"[i])
    {
      if i == 0 {
        assert LowerChar('D') == 'd';
      }
    }
  }

  /** Text that starts with `Disallow` starts with the field name `disallow`. */
  lemma DisallowMatches(s: string)
    requires 8 <= |s| && s[..8] == "Disallow"
    ensures MatchField(s) == Some(("disallow", ItemDisallow))
  {
    DisallowFolds();
    assert FieldTable[1].0 == "disallow";
    assert HasField(s, FieldTable[1].0);
    FieldOrderIrrelevant(s, 1);
  }

  /** Input that starts with `Disallow` is lexed from lexSep just after the name. */
  lemma DisallowOpens(s: string)
    requires 8 <= |s| && s[..8] == "Disallow"
    ensures Tokens(s) == Trace(s, Lx(SepFn, 8, 8, ItemDisallow))
  {
    DisallowMatches(s);
    FieldOpens(s, "disallow", ItemDisallow);
  }

  /** Input that starts with a field name is lexed from lexSep just after the name. */
  lemma FieldOpens(s: string, name: string, kind: FieldType)
    requires 0 < |s| && MatchField(s) == Some((name, kind))
    ensures Tokens(s) == Trace(s, Lx(SepFn, |name|, |name|, kind))
  {
    assert s[0..] == s;
    FieldLineIsField(s, 0, ItemError, name, kind);
  }

  /**
   * An empty Disallow value followed by a newline takes the next line as
   * its value: `Disallow:` and then a line `v` lex to one Disallow item
   * whose value is `v`, and nothing for `v` itself.
   */
  lemma EmptyValueTakesNextLine(s: string, v: string)
    requires s == "Disallow:\n" + v
    requires |v| > 0 && v[0] != ' ' && CleanValue(v)
    ensures Tokens(s) == [Item(ItemDisallow, v)]
  {
    assert s[..8] == "Disallow" && s[10..] == v;
    DisallowOpens(s);
    LWSEndAt(s, 8, 8, 8);
    assert !Stops(s, 9, 9) && Stops(s, 9, 10);
    LWSEndAt(s, 9, 9, 10);
    CleanRest(s, 10, v);
    SepValue(s, 8, ItemDisallow, 8, 10, |s|);
    CommentAtEnd(s, ItemDisallow);
    assert [Item(ItemDisallow, v)] + [] == [Item(ItemDisallow, v)];
  }

  /** A clean value that runs to the end of the input is emitted as it stands. */
  lemma CleanRest(s: string, p: nat, v: string)
    requires p <= |s| && s[p..] == v && CleanValue(v)
    ensures ValueEnd(s, p) == |s| && TrimRight(s[p..|s|]) == v
  {
    forall q | p <= q < |s|
      ensures !IsCTL(s[q] as int) && s[q] != '#'
    {
      assert s[q] == v[q - p];
    }
    ValueEndAt(s, p, |s|);
    assert s[p..|s|] == v;
    assert TrimRight(v) == v;
  }

  /**
   * A field name without `:` at the end of a line swallows the next line:
   * `Disallow` and then a line `v` lex to a single error, and nothing for `v`.
   */
  lemma MissingSeparatorTakesNextLine(s: string, v: string)
    requires s == "Disallow\n" + v
    requires |v| > 0 && v[0] != ' ' && v[0] != '\t' && v[0] != ':'
    requires forall i :: 0 <= i < |v| ==> v[i] != '\n'
    ensures Tokens(s) == [Item(ItemError, SepError)]
  {
    assert s[..8] == "Disallow" && s[9] == v[0];
    DisallowOpens(s);
    assert !Stops(s, 8, 8) && Stops(s, 8, 9);
    LWSEndAt(s, 8, 8, 9);
    SepMissing(s, 8, ItemDisallow, 9);
    forall q | 10 <= q < |s|
      ensures s[q] != '\n'
    {
      assert s[q] == v[q - 9];
    }
    LineEndAt(s, 10, |s|);
    TraceUnfold(s, Lx(StartFn, |s|, |s|, ItemDisallow), StepResult(Lx(Halt, |s|, |s|, ItemDisallow), []));
  }
}
