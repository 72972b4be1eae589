/**
 * The robots.txt lexer of lex.go: a cursor over the input whose state
 * functions scan it and append the items they emit. Every state function
 * is proved to have exactly the effect `LexSpec.Step` gives it, so `Lex`
 * returns `LexSpec.Tokens` of its input.
 */
module Lex {
  import opened Text
  import opened LexSpec

  class Lexer {
    var typ: FieldType
    const input: string
    var start: nat
    var pos: nat
    var width: nat
    var items: seq<Item>

    ghost predicate Valid()
      reads this
    {
      start <= pos <= |input|
    }

    /** The abstract lexer state, with `fn` the state function about to run. */
    ghost function State(fn: LexFn): Lx
      reads this
    {
      Lx(fn, start, pos, typ)
    }

    constructor (input: string)
      ensures this.input == input && typ == ItemError
      ensures start == 0 && pos == 0 && width == 0 && items == []
    {
      this.input := input;
      typ := ItemError;
      start := 0;
      pos := 0;
      width := 0;
      items := [];
    }

    /** Reads the rune at the cursor, or EOF (width 0) at the end of input. */
    method Next() returns (r: int)
      requires Valid()
      modifies this`pos, this`width
      ensures Valid() && r == RuneAt(input, old(pos))
      ensures old(pos) < |input| ==> pos == old(pos) + 1 && width == 1
      ensures old(pos) == |input| ==> pos == old(pos) && width == 0
    {
      if pos >= |input| {
        width := 0;
        return EOF;
      }
      r := input[pos] as int;
      width := 1;
      pos := pos + 1;
    }

    /** Steps back over the last rune read. */
    method Backup()
      requires Valid() && start + width <= pos
      modifies this`pos
      ensures Valid() && pos == old(pos) - width
    {
      pos := pos - width;
    }

    /** The rune at the cursor, leaving the cursor where it is. */
    method Peek() returns (r: int)
      requires Valid()
      modifies this`pos, this`width
      ensures Valid() && pos == old(pos) && r == RuneAt(input, pos)
    {
      r := Next();
      Backup();
    }

    /** Emits the text since `start`, without trailing white space, as an item of kind `typ`. */
    method Emit()
      requires Valid()
      modifies this`items, this`start
      ensures Valid() && start == pos
      ensures items == old(items) + [Item(typ, TrimRight(input[old(start)..pos]))]
    {
      items := items + [Item(typ, TrimRight(input[start..pos]))];
      start := pos;
    }

    /** Drops the text since `start`. */
    method Ignore()
      requires Valid()
      modifies this`start
      ensures Valid() && start == pos
    {
      start := pos;
    }

    /** Emits an error item; lexing goes on. */
    method Errorf(msg: string)
      modifies this`items
      ensures items == old(items) + [Item(ItemError, msg)]
    {
      items := items + [Item(ItemError, msg)];
    }

    /**
     * Skips linear white space. A newline is skipped; after it only a space
     * or a tab continues the line. `more` is false when the line ended.
     */
    method SkipLWS() returns (more: bool)
      requires Valid()
      modifies this`pos, this`width, this`start
      ensures Valid() && pos == LWSEnd(input, old(pos), old(pos)) && start == pos
      ensures more == !AfterEOL(input, old(pos), pos)
    {
      ghost var p0 := pos;
      var afterEOL := false;
      more := true;
      var c := Next();
      while true
        invariant Valid() && start <= p0 < pos + 1 && start + width <= pos
        invariant c == RuneAt(input, pos - width)
        invariant c == EOF ==> pos == |input| && width == 0
        invariant c != EOF ==> width == 1
        invariant p0 <= pos - width
        invariant forall q :: p0 <= q < pos - width ==> !Stops(input, p0, q)
        invariant afterEOL == AfterEOL(input, p0, pos - width)
        decreases |input| - pos, if c == EOF then 0 else 1
      {
        if c == '\n' as int {
          afterEOL := true;
        } else if afterEOL && !(c == ' ' as int || c == '\t' as int) {
          more := false;
          break;
        } else if !IsSpace(c) {
          break;
        } else {
          afterEOL := false;
        }
        c := Next();
      }
      Backup();
      Ignore();
      LWSEndAt(input, p0, p0, pos);
    }

    /** lexStart: end, comment, leading white space, or a field. */
    method LexStart() returns (next: LexFn)
      requires Valid() && Ready(input, State(StartFn))
      modifies this`pos, this`width, this`start
      ensures Valid() && State(next) == Step(input, old(State(StartFn))).next
      ensures items == old(items) + Step(input, old(State(StartFn))).out
    {
      var c := Peek();
      if c == EOF {
        return Halt;
      } else if c == '#' as int {
        return CommentFn;
      } else if IsSpace(c) {
        var _ := SkipLWS();
        return StartFn;
      }
      return FieldFn;
    }

    /** lexField: a field name, tried entry by entry, or an error for the rest of the input. */
    method LexField() returns (next: LexFn)
      requires Valid() && Ready(input, State(FieldFn))
      modifies this`typ, this`pos, this`start, this`items
      ensures Valid() && State(next) == Step(input, old(State(FieldFn))).next
      ensures items == old(items) + Step(input, old(State(FieldFn))).out
    {
      var i := 0;
      while i < |FieldTable|
        invariant i <= |FieldTable|
        invariant MatchField(input[start..]) == MatchFrom(input[start..], i)
      {
        var field := FieldTable[i].0;
        if |input[start..]| < |field| {
          i := i + 1;
          continue;
        }
        if EqualFold(field, input[start..start + |field|]) {
          assert HasField(input[start..], field);
          typ := FieldTable[i].1;
          pos := pos + |field|;
          Ignore();
          return SepFn;
        }
        i := i + 1;
      }
      Errorf(FieldError + input[start..]);
      return NextLineFn;
    }

    /** lexNextLine: skips to just past the next newline. */
    method LexNextLine() returns (next: LexFn)
      requires Valid() && Ready(input, State(NextLineFn))
      modifies this`pos, this`width, this`start
      ensures Valid() && State(next) == Step(input, old(State(NextLineFn))).next
      ensures items == old(items) + Step(input, old(State(NextLineFn))).out
    {
      ghost var p0 := pos;
      var c := Next();
      while c != '\n' as int && c != EOF
        invariant Valid() && p0 <= pos - width
        invariant c == RuneAt(input, pos - width)
        invariant c == EOF ==> pos == |input| && width == 0
        invariant c != EOF ==> width == 1
        invariant forall q :: p0 <= q < pos - width ==> input[q] != '\n'
        decreases |input| - pos, if c == EOF then 0 else 1
      {
        c := Next();
      }
      LineEndAt(input, p0, pos - width);
      Ignore();
      return StartFn;
    }

    /** lexSep: the `:` between field and value, with white space around it. */
    method LexSep() returns (next: LexFn)
      requires Valid() && Ready(input, State(SepFn))
      modifies this`pos, this`width, this`start, this`items
      ensures Valid() && State(next) == Step(input, old(State(SepFn))).next
      ensures items == old(items) + Step(input, old(State(SepFn))).out
    {
      var _ := SkipLWS();
      var c := Next();
      if c != ':' as int {
        Errorf(SepError);
        return NextLineFn;
      }
      var _ := SkipLWS();
      return ValueFn;
    }

    /** lexValue: everything up to a control character or `#`, emitted trimmed. */
    method LexValue() returns (next: LexFn)
      requires Valid() && Ready(input, State(ValueFn))
      modifies this`pos, this`width, this`start, this`items
      ensures Valid() && State(next) == Step(input, old(State(ValueFn))).next
      ensures items == old(items) + Step(input, old(State(ValueFn))).out
    {
      ghost var p0 := pos;
      var c := Next();
      while !IsCTL(c) && c != '#' as int && c != EOF
        invariant Valid() && start == p0 <= pos - width && items == old(items) && typ == old(typ)
        invariant c == RuneAt(input, pos - width)
        invariant c == EOF ==> pos == |input| && width == 0
        invariant c != EOF ==> width == 1
        invariant forall q :: p0 <= q < pos - width ==> !IsCTL(input[q] as int) && input[q] != '#'
        decreases |input| - pos, if c == EOF then 0 else 1
      {
        c := Next();
      }
      Backup();
      ValueEndAt(input, p0, pos);
      Emit();
      return CommentFn;
    }

    /** lexComment: after white space, either a new line, a comment to skip, or more text. */
    method LexComment() returns (next: LexFn)
      requires Valid() && Ready(input, State(CommentFn))
      modifies this`pos, this`width, this`start
      ensures Valid() && State(next) == Step(input, old(State(CommentFn))).next
      ensures items == old(items) + Step(input, old(State(CommentFn))).out
    {
      var more := SkipLWS();
      if !more {
        return StartFn;
      }
      var c := Peek();
      if c == '#' as int {
        ghost var p1 := pos;
        c := Next();
        while c != '\n' as int && c != EOF
          invariant Valid() && start == p1 <= pos - width
          invariant c == RuneAt(input, pos - width)
          invariant c == EOF ==> pos == |input| && width == 0
          invariant c != EOF ==> width == 1
          invariant forall q :: p1 <= q < pos - width ==> input[q] != '\n'
          decreases |input| - pos, if c == EOF then 0 else 1
        {
          c := Next();
        }
        Backup();
        LineEndAt(input, p1, pos);
        Ignore();
        return EolFn;
      }
      return StartFn;
    }

    /** lexEOL: the newline (or end of input) that must follow a comment. */
    method LexEOL() returns (next: LexFn)
      requires Valid() && Ready(input, State(EolFn))
      modifies this`pos, this`width, this`start, this`items
      ensures Valid() && State(next) == Step(input, old(State(EolFn))).next
      ensures items == old(items) + Step(input, old(State(EolFn))).out
    {
      var c := Next();
      if c == '\n' as int {
        Ignore();
        return StartFn;
      }
      if c == EOF {
        Ignore();
        return StartFn;
      }
      Errorf(EolError);
      return NextLineFn;
    }

    /** One state function, `fn`, chosen by name. */
    method Dispatch(fn: LexFn) returns (next: LexFn)
      requires Valid() && Ready(input, State(fn)) && fn != Halt
      modifies this
      ensures Valid() && State(next) == Step(input, old(State(fn))).next
      ensures items == old(items) + Step(input, old(State(fn))).out
    {
      match fn {
        case StartFn => next := LexStart();
        case FieldFn => next := LexField();
        case NextLineFn => next := LexNextLine();
        case SepFn => next := LexSep();
        case ValueFn => next := LexValue();
        case CommentFn => next := LexComment();
        case EolFn => next := LexEOL();
      }
    }

    /** One state function, accounted for as the first step of the trace from its state. */
    method Advance(fn: LexFn) returns (next: LexFn)
      requires Valid() && Ready(input, State(fn)) && fn != Halt
      modifies this
      ensures Valid() && Ready(input, State(next))
      ensures Measure(input, State(next)) < Measure(input, old(State(fn)))
      ensures items + Trace(input, State(next)) == old(items) + Trace(input, old(State(fn)))
    {
      ghost var x, before := State(fn), items;
      next := Dispatch(fn);
      TraceStep(input, x, before, items, State(next));
    }

    /** run: the state functions from lexStart until one returns nil. */
    method Run()
      requires Valid() && Ready(input, State(StartFn))
      modifies this
      ensures items == old(items) + Trace(input, old(State(StartFn)))
    {
      var fn := StartFn;
      while fn != Halt
        invariant Valid() && Ready(input, State(fn))
        invariant items + Trace(input, State(fn)) == old(items) + Trace(input, old(State(StartFn)))
        decreases Measure(input, State(fn))
      {
        fn := Advance(fn);
      }
      assert items + [] == items;
    }
  }

  /** lex: every item the lexer emits for `input`, in emission order. */
  method Lex(input: string) returns (items: seq<Item>)
    ensures items == Tokens(input)
  {
    var l := new Lexer(input);
    l.Run();
    items := l.items;
  }
}
