/** The converter itself, over its two buffers, against the scanner as a function. */
module PrivacyConverter {
  import opened Seqs
  import opened PrivacyScan
  import opened PrivacyText
  import opened PrivacyContext

  /** All that the conversion of a file saves and writes fits into buffers of these sizes, line by line. */
  ghost predicate FileFits(lines: seq<string>, ctx: Context, depth: nat, width: nat) {
    lines == [] ||
    (&& Depth(lines[0], 0, ctx, false) <= depth && OutputLength(lines[0], 0, ctx, false) < width
     && match ScanLine(lines[0], ctx)
        case Failed(_) => true
        case Scanned(next, _, _) => FileFits(lines[1..], next, depth, width))
  }

  lemma FitsOneMore(lines: seq<string>, k: nat, ctx: Context, depth: nat, width: nat)
    requires k < |lines| && FileFits(lines[k..], ctx, depth, width)
    ensures Depth(lines[k], 0, ctx, false) <= depth && OutputLength(lines[k], 0, ctx, false) < width
    ensures var r := ScanLine(lines[k], ctx);
      r.Scanned? ==> FileFits(lines[k + 1..], r.ctx, depth, width)
  {
    assert lines[k..][0] == lines[k] && lines[k..][1..] == lines[k + 1..];
  }

  /** Nowhere in the file are more than `d` brackets open. */
  ghost predicate AllWithinHeight(lines: seq<string>, from: Place, d: nat) {
    lines == [] ||
    (WithinHeight(lines[0], from, 0, d) && AllWithinHeight(lines[1..], After(lines[0], from, |lines[0]|), d))
  }

  /** What a file needs of the stack is the most brackets open at a time: so many must fit if the file is accepted. */
  lemma {:induction false} NeedIsHeight(lines: seq<string>, from: Place, ctx: Context, depth: nat, width: nat)
    requires Matches(ctx, from) && Accepted(lines, from)
    requires FileFits(lines, ctx, depth, width)
    ensures AllWithinHeight(lines, from, depth)
    decreases |lines|
  {
    if lines != [] {
      ScanAgrees(lines[0], from, 0, ctx, false);
      DepthIsReached(lines[0], from, 0, ctx, false, depth);
      NeedIsHeight(lines[1..], After(lines[0], from, |lines[0]|), ScanLine(lines[0], ctx).ctx, depth, width);
    }
  }

  /** And that is enough, for lines short enough to fit with a pair of quotes around every other character. */
  lemma {:induction false} HeightIsEnough(lines: seq<string>, from: Place, ctx: Context, depth: nat, width: nat)
    requires Matches(ctx, from) && AllWithinHeight(lines, from, depth)
    requires forall line :: line in lines ==> Most(|line|) < width
    ensures FileFits(lines, ctx, depth, width)
    decreases |lines|
  {
    if lines != [] {
      assert lines[0] in lines && forall line :: line in lines[1..] ==> line in lines;
      OutputIsBounded(lines[0], 0, ctx, false);
      DepthIsBounded(lines[0], from, 0, ctx, false, depth);
      ScanAgrees(lines[0], from, 0, ctx, false);
      var r := ScanLine(lines[0], ctx);
      if r.Scanned? {
        HeightIsEnough(lines[1..], After(lines[0], from, |lines[0]|), r.ctx, depth, width);
      }
    }
  }

  /** In the program, with a stack for 1000 flags and a buffer of 10000 characters, lines of 4999 characters fit. */
  lemma ProgramSizes(lines: seq<string>)
    requires AllWithinHeight(lines, StartPlace(), 1000) && forall line :: line in lines ==> |line| <= 4999
    ensures FileFits(lines, StartContext(), 1000, 10000)
  {
    StartMatches();
    HeightIsEnough(lines, StartPlace(), StartContext(), 1000, 10000);
  }

  /** A line of one more may be too long, in a slot list. */
  lemma ProgramOverflows(n: nat, ctx: Context)
    requires n == 5000 && ctx.nest.slot && !Quoting(ctx)
    ensures |Marks(n)| == n && OutputLength(Marks(n), 0, ctx, false) >= 10000
  {
    BoundIsTight(n, ctx);
    OutputIsRendered(Marks(n), 0, ctx, false);
  }

  /** What has been converted of a file: so much that the rest of the conversion is the rest of the result. */
  ghost predicate Converting(lines: seq<string>, start: Context, k: nat, ctx: Context, outs: seq<string>) {
    && k <= |lines|
    && match Convert(lines[k..], ctx, k)
       case GaveUp(n, f, more) => Convert(lines, start, 0) == GaveUp(n, f, outs + more)
       case Converted(last, more) =>
         var r := Convert(lines, start, 0);
         r.Converted? && r.ctx == last && r.outs == outs + more
  }

  lemma NoneConverted(lines: seq<string>, start: Context)
    ensures Converting(lines, start, 0, start, [])
  {
    assert lines[0..] == lines;
  }

  /** One line more. */
  lemma OneLineMore(lines: seq<string>, start: Context, k: nat, ctx: Context, outs: seq<string>)
    requires k < |lines| && Converting(lines, start, k, ctx, outs)
    ensures var r := ScanLine(lines[k], ctx);
      if r.Failed? then Convert(lines, start, 0) == GaveUp(k + 1, r.f, outs)
      else Converting(lines, start, k + 1, r.ctx, outs + [Render(r.pieces)])
  {
    var r := ScanLine(lines[k], ctx);
    assert lines[k..][0] == lines[k] && lines[k..][1..] == lines[k + 1..];
    if r.Scanned? {
      Associative(outs, [Render(r.pieces)], Convert(lines[k + 1..], r.ctx, k + 1).outs);
    }
  }

  /** An array stack as a list. */
  function TopFirst(s: seq<bool>): (l: List<bool>)
    ensures Length(l) == |s|
  {
    if s == [] then Nil else Cons(s[|s| - 1], TopFirst(s[..|s| - 1]))
  }

  class Converter {
    const stack: array<bool>
    var stackTop: nat
    const outLine: array<char>
    var outIdx: nat
    var lineNo: nat
    var inSlotList: bool
    var inSingleQuotes: bool
    var inDoubleQuotes: bool

    constructor (depth: nat, width: nat)
      ensures Valid() && fresh(stack) && fresh(outLine)
      ensures stack.Length == depth && outLine.Length == width
      ensures Saved() == Nil && Text() == "" && lineNo == 0
    {
      stack := new bool[depth];
      outLine := new char[width];
      stackTop, outIdx, lineNo := 0, 0, 0;
      inSlotList, inSingleQuotes, inDoubleQuotes := false, false, false;
    }

    predicate Valid()
      reads this
    {
      stackTop <= stack.Length && outIdx <= outLine.Length
    }

    ghost function Saved(): List<bool>
      requires Valid()
      reads this, stack
    {
      TopFirst(stack[..stackTop])
    }

    ghost function Text(): string
      requires Valid()
      reads this, outLine
    {
      outLine[..outIdx]
    }

    ghost function Current(): Context
      requires Valid()
      reads this, stack
    {
      Context(Nest(Saved(), inSlotList), inSingleQuotes, inDoubleQuotes)
    }

    method Push(e: bool)
      requires Valid() && stackTop < stack.Length
      modifies this`stackTop, stack
      ensures Valid() && Saved() == Cons(e, old(Saved()))
    {
      stack[stackTop] := e;
      stackTop := stackTop + 1;
      assert stack[..stackTop][..stackTop - 1] == old(stack[..stackTop]);
    }

    method Pop() returns (r: Option<bool>)
      requires Valid()
      modifies this`stackTop
      ensures Valid()
      ensures match old(Saved())
        case Nil => r == None
        case Cons(top, below) => r == Some(top) && Saved() == below
    {
      if stackTop == 0 {
        return None;
      }
      assert stack[..stackTop][..stackTop - 1] == stack[..stackTop - 1];
      stackTop := stackTop - 1;
      r := Some(stack[stackTop]);
    }

    method Output1(ch: char)
      requires Valid() && outIdx < outLine.Length
      modifies this`outIdx, outLine
      ensures Valid() && Text() == old(Text()) + [ch]
    {
      outLine[outIdx] := ch;
      outIdx := outIdx + 1;
    }

    method Output(str: string)
      requires Valid() && outIdx + |str| <= outLine.Length
      modifies this`outIdx, outLine
      ensures Valid() && Text() == old(Text()) + str
    {
      for k := 0 to |str|
        invariant Valid() && outIdx == old(outIdx) + k
        invariant Text() == old(Text()) + str[..k]
      {
        Output1(str[k]);
      }
    }

    /** There is room for what a step saves and writes. */
    ghost predicate CanHold(s: StepResult)
      reads this
    {
      s.Go? ==> Length(s.ctx.nest.stack) <= stack.Length && outIdx + |Rendered(s.piece)| <= outLine.Length
    }

    /** A bar flips the flag. */
    method Bar(line: string, i: nat, esc: bool) returns (failure: Option<Failure>)
      requires Valid() && i < |line| && line[i] == '|'
      modifies this`inSlotList
      ensures Did(line, i, old(Current()), esc, Current(), failure)
    {
      failure := None;
      if !inSingleQuotes && !inDoubleQuotes && IsLoneBar(line, i) {
        if esc {
          return Some(EscapeError(line[i]));
        }
        inSlotList := !inSlotList;
      }
    }

    /** An opening bracket saves the flag and clears it. */
    method Opening(line: string, i: nat, esc: bool) returns (failure: Option<Failure>)
      requires Valid() && i < |line| && IsOpening(line[i]) && CanHold(Step(line, i, Current(), esc))
      modifies this`inSlotList, this`stackTop, stack
      ensures Valid() && Did(line, i, old(Current()), esc, Current(), failure)
    {
      failure := None;
      if !inSingleQuotes && !inDoubleQuotes {
        if esc {
          return Some(EscapeError(line[i]));
        }
        Push(inSlotList);
        inSlotList := false;
      }
    }

    /** A closing one restores it. */
    method Closing(line: string, i: nat, esc: bool) returns (failure: Option<Failure>)
      requires Valid() && i < |line| && IsClosing(line[i])
      modifies this`inSlotList, this`stackTop
      ensures Valid() && Did(line, i, old(Current()), esc, Current(), failure)
    {
      failure := None;
      if !inSingleQuotes && !inDoubleQuotes {
        if esc {
          return Some(EscapeError(line[i]));
        }
        var top := Pop();
        if top == None {
          return Some(EmptyStack);
        }
        inSlotList := top.value;
      }
    }

    method Quote(line: string, i: nat, esc: bool)
      requires Valid() && i < |line| && line[i] in {'\'', '"'}
      modifies this`inSingleQuotes, this`inDoubleQuotes
      ensures Did(line, i, old(Current()), esc, Current(), None)
    {
      if line[i] == '\'' {
        if !inDoubleQuotes && !esc {
          inSingleQuotes := !inSingleQuotes;
        }
      } else if !inSingleQuotes && !esc {
        inDoubleQuotes := !inDoubleQuotes;
      }
    }

    /** A mark that may start a marker; `marker` is what was put between quotes. */
    method Mark(line: string, i: nat, esc: bool) returns (failure: Option<Failure>, marker: Option<Marker>)
      requires Valid() && i < |line| && IsMark(line[i]) && CanHold(Step(line, i, Current(), esc))
      modifies this`outIdx, outLine
      ensures Valid()
      ensures failure == if IsSensitive(line, i, Current()) && esc then Some(EscapeError(line[i])) else None
      ensures failure == None ==> marker == ToQuote(line, i, Current())
      ensures Text() == old(Text()) + if failure == None && marker.Some? then Rendered(Quoted(marker.value)) else ""
    {
      failure, marker := None, None;
      if inSlotList && !inSingleQuotes && !inDoubleQuotes {
        if esc {
          return Some(EscapeError(line[i])), None;
        }
        if CheckFor([line[i]], line, i) {
          marker := Some(One(line[i]));
          Output(Rendered(Quoted(marker.value)));
        } else if CheckFor([line[i], OtherMark(line[i])], line, i) {
          marker := Some(Two(line[i], OtherMark(line[i])));
          Output(Rendered(Quoted(marker.value)));
        }
      }
    }

    /** What the character at `i` does but for being copied; `marker` is what was put between quotes instead. */
    method Switch(line: string, i: nat, esc: bool) returns (failure: Option<Failure>, marker: Option<Marker>)
      requires Valid() && i < |line| && CanHold(Step(line, i, Current(), esc))
      modifies this`inSlotList, this`inSingleQuotes, this`inDoubleQuotes
      modifies this`stackTop, this`outIdx, stack, outLine
      ensures Valid()
      ensures match Step(line, i, old(Current()), esc)
        case Stop(f) => failure == Some(f)
        case Go(ctx, _, _, _) => failure == None && Current() == ctx && marker == ToQuote(line, i, old(Current()))
      ensures failure == None ==> Text() == old(Text()) + if marker.Some? then Rendered(Quoted(marker.value)) else ""
    {
      failure, marker := None, None;
      StepOf(line, i, Current(), esc);
      if line[i] == '\'' || line[i] == '"' {
        Quote(line, i, esc);
      } else if line[i] == '|' {
        failure := Bar(line, i, esc);
      } else if line[i] == '[' || line[i] == '(' {
        failure := Opening(line, i, esc);
      } else if line[i] == ']' || line[i] == ')' {
        failure := Closing(line, i, esc);
      } else if line[i] == '_' || line[i] == '^' {
        failure, marker := Mark(line, i, esc);
      }
    }

    /** One turn of the scanner. */
    method Character(line: string, i: nat, esc: bool) returns (failure: Option<Failure>, next: nat, escNext: bool)
      requires Valid() && i < |line| && CanHold(Step(line, i, Current(), esc))
      modifies this`inSlotList, this`inSingleQuotes, this`inDoubleQuotes
      modifies this`stackTop, this`outIdx, stack, outLine
      ensures Valid()
      ensures match Step(line, i, old(Current()), esc)
        case Stop(f) => failure == Some(f)
        case Go(ctx, esc', piece, _) =>
          && failure == None && Current() == ctx && escNext == esc' && next == i + Width(piece) <= |line|
          && Text() == old(Text()) + Rendered(piece)
    {
      ghost var was := Current();
      var marker;
      next, escNext := i, false;
      failure, marker := Switch(line, i, esc);
      if failure != None {
        return;
      }
      StepCopies(line, i, was, esc);
      if marker.Some? && marker.value.Two? {
        next := next + 1;
      }
      escNext := line[next] == '\\' && !esc;
      if marker == None {
        Output1(line[next]);
      }
      next := next + 1;
    }

    /** The converter stands at `i` in a line it began in `start`, and has room for what is to come. */
    ghost predicate InLine(line: string, start: Context, i: nat, esc: bool)
      reads this, stack, outLine
    {
      Valid() && Doing(line, start, i, Current(), esc, Text(), stack.Length, outLine.Length)
    }

    method Turn(line: string, i: nat, esc: bool, ghost start: Context)
      returns (failure: Option<Failure>, next: nat, escNext: bool)
      requires i < |line| && InLine(line, start, i, esc)
      modifies this`inSlotList, this`inSingleQuotes, this`inDoubleQuotes
      modifies this`stackTop, this`outIdx, stack, outLine
      ensures failure.Some? ==> ScanLine(line, start) == Failed(failure.value)
      ensures failure == None ==> i < next <= |line| && InLine(line, start, next, escNext)
    {
      DoOne(line, start, i, Current(), esc, Text(), stack.Length, outLine.Length);
      failure, next, escNext := Character(line, i, esc);
    }

    /** A line is scanned from its start; a failure ends the program. */
    method ProcessLine(line: string) returns (failure: Option<Failure>)
      requires Valid() && Depth(line, 0, Current(), false) <= stack.Length
      requires OutputLength(line, 0, Current(), false) < outLine.Length
      modifies this`inSlotList, this`inSingleQuotes, this`inDoubleQuotes
      modifies this`stackTop, this`outIdx, stack, outLine
      ensures failure == None ==> Valid()
      ensures match ScanLine(line, old(Current()))
        case Failed(f) => failure == Some(f)
        case Scanned(ctx, pieces, _) => failure == None && Current() == ctx && Text() == Render(pieces)
    {
      var i, esc := 0, false;
      outIdx := 0;
      failure := None;
      NoneScanned(line, Current());
      while i < |line|
        invariant i <= |line| && failure == None && InLine(line, old(Current()), i, esc)
      {
        failure, i, esc := Turn(line, i, esc, old(Current()));
        if failure != None {
          return;
        }
      }
      outLine[outIdx] := '\0';
    }

    /** The lines of one file. The quote flags and the slot-list flag start afresh, the stack does not. */
    method ProcessFile(lines: seq<string>) returns (outs: seq<string>, failure: Option<Failure>)
      requires Valid()
      requires FileFits(lines, Context(Nest(Saved(), false), false, false), stack.Length, outLine.Length)
      modifies this, stack, outLine
      ensures failure == None ==> Valid()
      ensures match Convert(lines, Context(Nest(old(Saved()), false), false, false), 0)
        case GaveUp(k, f, written) => failure == Some(f) && lineNo == k && outs == written
        case Converted(ctx, written) => failure == None && Current() == ctx && outs == written
    {
      inSlotList, inSingleQuotes, inDoubleQuotes, lineNo := false, false, false, 0;
      outs, failure := [], None;
      ghost var start := Current();
      NoneConverted(lines, start);
      while lineNo < |lines|
        invariant lineNo <= |lines| && Valid()
        invariant FileFits(lines[lineNo..], Current(), stack.Length, outLine.Length)
        invariant failure == None && Converting(lines, start, lineNo, Current(), outs)
      {
        OneLineMore(lines, start, lineNo, Current(), outs);
        FitsOneMore(lines, lineNo, Current(), stack.Length, outLine.Length);
        lineNo := lineNo + 1;
        failure := ProcessLine(lines[lineNo - 1]);
        if failure != None {
          return;
        }
        outs := outs + [outLine[..outIdx]];
      }
    }
  }

  /** What a character other than a mark does to the nesting and the quote flags. */
  ghost predicate Did(line: string, i: nat, was: Context, esc: bool, now: Context, failure: Option<Failure>)
    requires i < |line|
  {
    match Step(line, i, was, esc)
    case Stop(f) => failure == Some(f)
    case Go(ctx, _, piece, _) => failure == None && now == ctx && piece == Plain(line[i])
  }

  /** What a step needs, and what the rest of the line needs behind it. */
  lemma NeedOfStep(line: string, i: nat, ctx: Context, esc: bool)
    requires i < |line|
    ensures match Step(line, i, ctx, esc)
      case Stop(_) => true
      case Go(next, esc', piece, _) =>
        && 1 <= Width(piece) && i + Width(piece) <= |line|
        && Length(next.nest.stack) <= Depth(line, i + Width(piece), next, esc') <= Depth(line, i, ctx, esc)
        && Room(piece) + OutputLength(line, i + Width(piece), next, esc') == OutputLength(line, i, ctx, esc)
  {
    if Step(line, i, ctx, esc).Go? {
      StepFits(line, i, ctx, esc);
      OutputGoes(line, i, ctx, esc, Step(line, i, ctx, esc));
      DepthGoes(line, i, ctx, esc, Step(line, i, ctx, esc), Depth(line, i, ctx, esc));
    }
  }

  /** A mark does nothing to the nesting, and what is no quote, bar, bracket or mark nothing at all. */
  lemma StepOf(line: string, i: nat, ctx: Context, esc: bool)
    requires i < |line|
    ensures var s, c := Step(line, i, ctx, esc), line[i];
      && (IsMark(c) ==> if IsSensitive(line, i, ctx) && esc then s == Stop(EscapeError(c)) else s.Go? && s.ctx == ctx)
      && (!IsMark(c) ==> ToQuote(line, i, ctx) == None)
      && (!IsMark(c) && c != '|' && !IsOpening(c) && !IsClosing(c) && c != '\'' && c != '"' ==> s.Go? && s.ctx == ctx)
  {}

  /** A marker that is quoted contains no backslash. */
  lemma StepCopies(line: string, i: nat, ctx: Context, esc: bool)
    requires i < |line| && Step(line, i, ctx, esc).Go?
    ensures var s, m := Step(line, i, ctx, esc), ToQuote(line, i, ctx);
      match m
      case None => s.piece == Plain(line[i]) && s.esc == (line[i] == '\\' && !esc)
      case Some(m) =>
        && s.piece == Quoted(m) && !s.esc && i + Size(m) <= |line|
        && line[i] != '\\' && (m.Two? ==> line[i + 1] != '\\')
  {
    MarkerStands(line, i);
  }

  /** The output once the pieces `ps` follow `text`. */
  function Written(text: string, ps: List<Piece>): string
    decreases ps
  {
    match ps
    case Nil => text
    case Cons(p, rest) => Written(text + Rendered(p), rest)
  }

  lemma {:induction false} WrittenRenders(text: string, ps: List<Piece>)
    ensures Written(text, ps) == text + Render(ps)
    decreases ps
  {
    match ps
    case Nil =>
    case Cons(p, rest) =>
      WrittenRenders(text + Rendered(p), rest);
      Associative(text, Rendered(p), Render(rest));
  }

  /** `rest` is what is left of the result `whole` once `text` is written. */
  ghost predicate Completes(whole: ScanResult, text: string, rest: ScanResult) {
    match rest
    case Failed(f) => whole == Failed(f)
    case Scanned(last, ps, _) => whole.Scanned? && whole.ctx == last && Render(whole.pieces) == Written(text, ps)
  }

  lemma CompletesMore(whole: ScanResult, text: string, p: Piece, e: Option<Event>, rest: ScanResult)
    requires Completes(whole, text, Before(p, e, rest))
    ensures Completes(whole, text + Rendered(p), rest)
  {
  }

  ghost predicate Scanning(line: string, start: Context, i: nat, ctx: Context, esc: bool, text: string) {
    i <= |line| && Completes(ScanLine(line, start), text, Scan(line, i, ctx, esc))
  }

  /** So much of the line is done, and there is room for the rest. */
  ghost predicate Doing(
    line: string, start: Context, i: nat, ctx: Context, esc: bool, text: string, depth: nat, width: nat)
  {
    && Scanning(line, start, i, ctx, esc, text)
    && Depth(line, i, ctx, esc) <= depth && |text| + OutputLength(line, i, ctx, esc) < width
  }

  lemma DoOne(line: string, start: Context, i: nat, ctx: Context, esc: bool, text: string, depth: nat, width: nat)
    requires i < |line| && Doing(line, start, i, ctx, esc, text, depth, width)
    ensures match Step(line, i, ctx, esc)
      case Stop(f) => ScanLine(line, start) == Failed(f)
      case Go(next, esc', piece, _) =>
        && 1 <= Width(piece) && Length(next.nest.stack) <= depth && |text| + |Rendered(piece)| <= width
        && Doing(line, start, i + Width(piece), next, esc', text + Rendered(piece), depth, width)
  {
    OneMore(line, start, i, ctx, esc, text);
    NeedOfStep(line, i, ctx, esc);
    if Step(line, i, ctx, esc).Go? {
      RoomIsRendered(Step(line, i, ctx, esc).piece);
    }
  }

  lemma NoneScanned(line: string, start: Context)
    ensures Scanning(line, start, 0, start, false, "")
  {
    var r := ScanLine(line, start);
    if r.Scanned? {
      WrittenRenders("", r.pieces);
    }
  }

  /** One step more. */
  lemma OneMore(line: string, start: Context, i: nat, ctx: Context, esc: bool, text: string)
    requires i < |line| && Scanning(line, start, i, ctx, esc, text)
    ensures var s := Step(line, i, ctx, esc);
      if s.Stop? then ScanLine(line, start) == Failed(s.f) else
        Scanning(line, start, i + Width(s.piece), s.ctx, s.esc, text + Rendered(s.piece))
  {
    var s := Step(line, i, ctx, esc);
    if s.Go? {
      StepFits(line, i, ctx, esc);
      var q := Scan(line, i + Width(s.piece), s.ctx, s.esc);
      assert Scan(line, i, ctx, esc) == Before(s.piece, s.event, q);
      CompletesMore(ScanLine(line, start), text, s.piece, s.event, q);
    }
  }
}
