/**
 * The one-pass scanner of the privacy converter, as a function: each step consumes one character,
 * or a marker of two, and yields a piece of output.
 */
module PrivacyScan {
  import opened Seqs

  datatype List<+T> = Nil | Cons(head: T, tail: List<T>)

  function Length<T>(l: List<T>): nat {
    match l
    case Nil => 0
    case Cons(_, tail) => 1 + Length(tail)
  }

  function Nth<T>(l: List<T>, k: nat): T
    requires k < Length(l)
  {
    if k == 0 then l.head else Nth(l.tail, k - 1)
  }

  /** The slot-list flag, and those saved at the brackets that are open, the innermost first. */
  datatype Nest = Nest(stack: List<bool>, slot: bool)

  /** What is carried from line to line: the nesting and the two quote flags. */
  datatype Context = Context(nest: Nest, single: bool, double: bool)

  /** What the scanner makes of the brackets and bars that count. */
  datatype Event = Bar | Open | Close

  /** One mark, or one of each kind. */
  datatype Marker = One(mark: char) | Two(mark: char, other: char)

  /** A character copied, or a marker put between double quotes. */
  datatype Piece = Plain(c: char) | Quoted(marker: Marker)

  /** The two ways to give up. */
  datatype Failure = EscapeError(c: char) | EmptyStack

  datatype StepResult = Stop(f: Failure)
    | Go(ctx: Context, esc: bool, piece: Piece, event: Option<Event>)

  datatype ScanResult = Failed(f: Failure) | Scanned(ctx: Context, pieces: List<Piece>, events: List<Event>)

  function StartContext(): Context { Context(Nest(Nil, false), false, false) }

  predicate IsBlank(c: char) { c == ' ' || c == '\n' || c == '\t' }

  predicate IsOperator(c: char) {
    c in {'!', '@', '#', '$', '%', '^', '&', '*', '-', '+', '=', '~', '/', '?', '<', '>', ',', ';', '|', '`', '\\'}
  }

  predicate IsOpening(c: char) { c == '[' || c == '(' }
  predicate IsClosing(c: char) { c == ']' || c == ')' }
  predicate IsMark(c: char) { c == '_' || c == '^' }

  /** Not next to an operator character, so no part of a binary operator. */
  predicate IsLoneBar(line: string, i: nat)
    requires i < |line|
  {
    && line[i] == '|'
    && (i != 0 ==> !IsOperator(line[i - 1]))
    && (i + 1 < |line| ==> !IsOperator(line[i + 1]))
  }

  predicate CheckFor(target: string, line: string, i: nat) {
    var j := i + |target|;
    && j <= |line| && (forall k :: 0 <= k < |target| ==> line[i + k] == target[k])
    && (i != 0 ==> IsBlank(line[i - 1]))
    && (j < |line| ==> IsBlank(line[j]) || line[j] == '\\')
  }

  /** The other of the two mark characters. */
  function OtherMark(c: char): char { if c == '_' then '^' else '_' }

  function TextOf(m: Marker): string {
    match m
    case One(c) => [c]
    case Two(c, d) => [c, d]
  }

  /** The marker that stands at `i`, if one does: one mark, or two different ones. */
  function MarkerAt(line: string, i: nat): Option<Marker>
    requires i < |line|
  {
    if !IsMark(line[i]) then None
    else if CheckFor([line[i]], line, i) then Some(One(line[i]))
    else if CheckFor([line[i], OtherMark(line[i])], line, i) then Some(Two(line[i], OtherMark(line[i])))
    else None
  }

  predicate Quoting(ctx: Context) { ctx.single || ctx.double }

  /** The marker to be quoted at `i`: in a slot list, outside quotes. */
  function ToQuote(line: string, i: nat, ctx: Context): Option<Marker>
    requires i < |line|
  {
    if ctx.nest.slot && !Quoting(ctx) then MarkerAt(line, i) else None
  }

  /** The characters that must not be escaped here. */
  predicate IsSensitive(line: string, i: nat, ctx: Context)
    requires i < |line|
  {
    !Quoting(ctx) &&
    (IsLoneBar(line, i) || IsOpening(line[i]) || IsClosing(line[i]) || (IsMark(line[i]) && ctx.nest.slot))
  }

  function EventAt(line: string, i: nat, ctx: Context): Option<Event>
    requires i < |line|
  {
    if Quoting(ctx) then None
    else if IsLoneBar(line, i) then Some(Bar)
    else if IsOpening(line[i]) then Some(Open)
    else if IsClosing(line[i]) then Some(Close)
    else None
  }

  /** A bar flips the flag, an opening bracket saves and clears it, a closing one restores it. */
  function Apply(nest: Nest, e: Event): Option<Nest> {
    match e
    case Bar => Some(nest.(slot := !nest.slot))
    case Open => Some(Nest(Cons(nest.slot, nest.stack), false))
    case Close =>
      match nest.stack
      case Nil => None
      case Cons(top, below) => Some(Nest(below, top))
  }

  /** The effect of a step, which has one event at most. */
  function Effect(nest: Nest, event: Option<Event>): Option<Nest> {
    match event
    case None => Some(nest)
    case Some(e) => Apply(nest, e)
  }

  function ApplyQuote(c: char, ctx: Context, esc: bool): Context {
    if c == '\'' && !ctx.double && !esc then ctx.(single := !ctx.single)
    else if c == '"' && !ctx.single && !esc then ctx.(double := !ctx.double)
    else ctx
  }

  function Step(line: string, i: nat, ctx: Context, esc: bool): StepResult
    requires i < |line|
  {
    var event, marker, next := EventAt(line, i, ctx), ToQuote(line, i, ctx), ApplyQuote(line[i], ctx, esc);
    if IsSensitive(line, i, ctx) && esc then Stop(EscapeError(line[i]))
    else if marker.Some? then Go(next, false, Quoted(marker.value), event)
    else
      match Effect(ctx.nest, event)
      case None => Stop(EmptyStack)
      case Some(nest) => Go(next.(nest := nest), line[i] == '\\' && !esc, Plain(line[i]), event)
  }

  function Size(m: Marker): nat {
    if m.One? then 1 else 2
  }

  function Width(p: Piece): nat {
    match p
    case Plain(_) => 1
    case Quoted(m) => Size(m)
  }

  function Then(event: Option<Event>, es: List<Event>): List<Event> {
    match event
    case None => es
    case Some(e) => Cons(e, es)
  }

  /** The result with one step before it. */
  function Before(piece: Piece, event: Option<Event>, r: ScanResult): ScanResult {
    match r
    case Failed(f) => Failed(f)
    case Scanned(ctx, ps, es) => Scanned(ctx, Cons(piece, ps), Then(event, es))
  }

  /** The rest of the line, from position `i` on. */
  function Scan(line: string, i: nat, ctx: Context, esc: bool): ScanResult
    requires i <= |line|
    decreases |line| - i
  {
    if i == |line| then Scanned(ctx, Nil, Nil) else
    match Step(line, i, ctx, esc)
    case Stop(f) => Failed(f)
    case Go(next, esc', piece, event) =>
      Before(piece, event, Scan(line, i + Width(piece), next, esc'))
  }

  /** Every line starts unescaped. */
  function ScanLine(line: string, ctx: Context): ScanResult {
    Scan(line, 0, ctx, false)
  }

  function Rendered(p: Piece): string {
    match p
    case Plain(c) => [c]
    case Quoted(m) => "\"" + TextOf(m) + "\""
  }

  function Source(p: Piece): string {
    match p
    case Plain(c) => [c]
    case Quoted(m) => TextOf(m)
  }

  /** The output, and the output without the quotes put in. */
  function Render(ps: List<Piece>): string {
    match ps
    case Nil => ""
    case Cons(p, rest) => Rendered(p) + Render(rest)
  }

  function Original(ps: List<Piece>): string {
    match ps
    case Nil => ""
    case Cons(p, rest) => Source(p) + Original(rest)
  }

  /** A file: `line` counts from 1 and tells where the converter gave up; `outs` are the lines written until then. */
  datatype FileResult = GaveUp(line: nat, f: Failure, outs: seq<string>)
    | Converted(ctx: Context, outs: seq<string>)

  function Convert(lines: seq<string>, ctx: Context, n: nat): FileResult
    decreases |lines|
  {
    if lines == [] then Converted(ctx, []) else
    match ScanLine(lines[0], ctx)
    case Failed(f) => GaveUp(n + 1, f, [])
    case Scanned(next, pieces, _) =>
      match Convert(lines[1..], next, n + 1)
      case GaveUp(k, f, outs) => GaveUp(k, f, [Render(pieces)] + outs)
      case Converted(last, outs) => Converted(last, [Render(pieces)] + outs)
  }
}
