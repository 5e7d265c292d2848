/**
 * The bracket stack and the flags compute the right context. The reference looks at the text before
 * a position, backwards, and knows neither stack nor flags.
 */
module PrivacyContext {
  import opened Seqs
  import opened PrivacyScan
  import opened PrivacyText

  /**
   * Whether the bars are odd in number, `d` levels out from where `past` ends: those since the bracket
   * that opened that level, or the start of the file, that stand inside no inner bracket.
   */
  function Odd(past: List<Event>, d: nat): bool {
    match past
    case Nil => false
    case Cons(Bar, earlier) => if d == 0 then !Odd(earlier, 0) else Odd(earlier, d)
    case Cons(Close, earlier) => Odd(earlier, d + 1)
    case Cons(Open, earlier) => if d == 0 then false else Odd(earlier, d - 1)
  }

  /** Opening brackets less closing ones. */
  function Height(past: List<Event>): int {
    match past
    case Nil => 0
    case Cons(e, earlier) => Height(earlier) + match e case Bar => 0 case Open => 1 case Close => -1
  }

  /** At no time had more brackets been closed than opened. */
  ghost predicate NeverBelow(past: List<Event>) {
    past.Cons? ==> Height(past) >= 0 && NeverBelow(past.tail)
  }

  /** The flag and the saved flags are the parities at the current level and at those around it. */
  ghost predicate Tracks(past: List<Event>, nest: Nest) {
    && nest.slot == Odd(past, 0)
    && Length(nest.stack) == Height(past)
    && forall k :: 0 <= k < Length(nest.stack) ==> Nth(nest.stack, k) == Odd(past, k + 1)
  }

  lemma ApplyTracks(past: List<Event>, nest: Nest, e: Event, next: Nest)
    requires Tracks(past, nest) && Apply(nest, e) == Some(next)
    ensures Tracks(Cons(e, past), next)
  {
    assert e.Close? ==> Nth(nest.stack, 0) == Odd(past, 1);
    forall k | 0 <= k < Length(next.stack) ensures Nth(next.stack, k) == Odd(Cons(e, past), k + 1) {
      match e {
        case Bar =>
        case Open => if k > 0 { assert Nth(next.stack, k) == Nth(nest.stack, k - 1); }
        case Close => assert Nth(next.stack, k) == Nth(nest.stack, k + 1);
      }
    }
  }

  // ----- what the text before a position says -----

  /** The backslashes right before `p`. */
  function Backslashes(line: string, p: nat): nat
    requires p <= |line|
  {
    if p == 0 || line[p - 1] != '\\' then 0 else 1 + Backslashes(line, p - 1)
  }

  predicate Escaped(line: string, p: nat)
    requires p <= |line|
  {
    Backslashes(line, p) % 2 == 1
  }

  predicate IsQuote(c: char) { c == '\'' || c == '"' }

  /** Which quote is open, if one is, and the bars and brackets outside quotes, the latest first. */
  datatype Place = Place(open: Option<char>, past: List<Event>)

  function StartPlace(): Place { Place(None, Nil) }

  /** A quote closes the like one that is open, opens if none is, and is text otherwise or if escaped. */
  function QuoteBehind(open: Option<char>, c: char, escaped: bool): Option<char> {
    if !IsQuote(c) || escaped then open
    else if open == None then Some(c)
    else if open == Some(c) then None
    else open
  }

  /** A bar with none of the characters of a binary operator beside it. */
  predicate StandsAlone(line: string, p: nat)
    requires p < |line|
  {
    && line[p] == '|'
    && (p > 0 ==> line[p - 1] !in "!@#$%^&*-+=~/?<>,;|`\\")
    && (p + 1 < |line| ==> line[p + 1] !in "!@#$%^&*-+=~/?<>,;|`\\")
  }

  /** What the character at `p` is, outside quotes, to the nesting. */
  function EventHere(line: string, p: nat, at: Place): Option<Event>
    requires p < |line|
  {
    if at.open.Some? then None
    else if StandsAlone(line, p) then Some(Bar)
    else if line[p] == '(' || line[p] == '[' then Some(Open)
    else if line[p] == ')' || line[p] == ']' then Some(Close)
    else None
  }

  function Behind(past: List<Event>, event: Option<Event>): List<Event> {
    match event
    case None => past
    case Some(e) => Cons(e, past)
  }

  /** The place `p` characters into a line that starts at the place `from`. */
  function After(line: string, from: Place, p: nat): Place
    requires p <= |line|
  {
    if p == 0 then from else
    var was := After(line, from, p - 1);
    Place(QuoteBehind(was.open, line[p - 1], Escaped(line, p - 1)), Behind(was.past, EventHere(line, p - 1, was)))
  }

  /** The place behind all `lines`. */
  function AfterAll(lines: seq<string>, from: Place): Place {
    if lines == [] then from else AfterAll(lines[1..], After(lines[0], from, |lines[0]|))
  }

  /** The scanner must give up: an escaped character that counts, or a bracket that closes none. */
  ghost predicate Trouble(line: string, from: Place, p: nat)
    requires p < |line|
  {
    var at := After(line, from, p);
    && at.open == None
    && ((Escaped(line, p) &&
          (StandsAlone(line, p) || line[p] in {'(', '[', ')', ']'} || (line[p] in {'_', '^'} && Odd(at.past, 0))))
        || (line[p] in {')', ']'} && Height(at.past) <= 0))
  }

  // ----- the scanner agrees -----

  ghost predicate Matches(ctx: Context, at: Place) {
    && (ctx.single <==> at.open == Some('\''))
    && (ctx.double <==> at.open == Some('"'))
    && (at.open == None <==> !Quoting(ctx))
    && Tracks(at.past, ctx.nest) && NeverBelow(at.past)
  }

  /** The scanner at `i` has the context of that place. */
  ghost predicate StandsAt(line: string, from: Place, i: nat, ctx: Context, esc: bool) {
    i <= |line| && Matches(ctx, After(line, from, i)) && (esc <==> Escaped(line, i))
  }

  lemma MarksChangeNothing(line: string, from: Place, i: nat, m: Marker)
    requires Stands(m, line, i)
    ensures forall p :: i <= p <= i + Size(m) ==> After(line, from, p) == After(line, from, i)
    ensures !Escaped(line, i + Size(m))
  {
    assert After(line, from, i + 1) == After(line, from, i);
  }

  /** A step stops exactly at trouble, and otherwise leads to the next place. */
  lemma StepAgrees(line: string, from: Place, i: nat, ctx: Context, esc: bool)
    requires i < |line| && StandsAt(line, from, i, ctx, esc)
    ensures var s := Step(line, i, ctx, esc);
      if Trouble(line, from, i) then s.Stop? else
        && s.Go? && StandsAt(line, from, i + Width(s.piece), s.ctx, s.esc)
        && After(line, from, i + Width(s.piece)).past == Behind(After(line, from, i).past, s.event)
    ensures var s := Step(line, i, ctx, esc);
      s.Go? ==> forall p :: i < p < |line| && p < i + Width(s.piece) ==> !Trouble(line, from, p)
  {
    var at, s := After(line, from, i), Step(line, i, ctx, esc);
    if s.Go? && s.piece.Quoted? {
      QuotedStep(line, i, ctx, esc);
      MarksChangeNothing(line, from, i, s.piece.marker);
    } else if s.Go? {
      PlainAgrees(line, from, i, ctx, esc);
    }
  }

  lemma PlainAgrees(line: string, from: Place, i: nat, ctx: Context, esc: bool)
    requires i < |line| && StandsAt(line, from, i, ctx, esc)
    requires Step(line, i, ctx, esc).Go? && Step(line, i, ctx, esc).piece.Plain?
    ensures var s := Step(line, i, ctx, esc);
      StandsAt(line, from, i + 1, s.ctx, s.esc)
      && After(line, from, i + 1).past == Behind(After(line, from, i).past, s.event)
  {
    var at, next, s := After(line, from, i), After(line, from, i + 1), Step(line, i, ctx, esc);
    if s.event.Some? {
      ApplyTracks(at.past, ctx.nest, s.event.value, s.ctx.nest);
    }
    assert next.past == Behind(at.past, s.event);
  }

  /** The scan fails exactly if there is trouble somewhere ahead, and otherwise ends as the text says. */
  lemma {:induction false} ScanAgrees(line: string, from: Place, i: nat, ctx: Context, esc: bool)
    requires StandsAt(line, from, i, ctx, esc)
    ensures var r := Scan(line, i, ctx, esc);
      && (r.Failed? <==> exists p :: i <= p < |line| && Trouble(line, from, p))
      && (r.Scanned? ==> Matches(r.ctx, After(line, from, |line|)))
    decreases |line| - i
  {
    if i < |line| {
      StepAgrees(line, from, i, ctx, esc);
      var s := Step(line, i, ctx, esc);
      if s.Go? {
        StepFits(line, i, ctx, esc);
        ScanGoes(line, i, ctx, esc, s);
        ScanAgrees(line, from, i + Width(s.piece), s.ctx, s.esc);
      }
    }
  }

  /** The first trouble from `i` on is at `p`. */
  ghost predicate FirstTrouble(line: string, from: Place, i: nat, p: nat) {
    i <= p < |line| && Trouble(line, from, p) && forall q :: i <= q < p ==> !Trouble(line, from, q)
  }

  /** Why the converter gives up at `p`. */
  function FailureAt(line: string, p: nat): Failure
    requires p < |line|
  {
    if Escaped(line, p) then EscapeError(line[p]) else EmptyStack
  }

  lemma StepFails(line: string, from: Place, i: nat, ctx: Context, esc: bool)
    requires i < |line| && StandsAt(line, from, i, ctx, esc) && Step(line, i, ctx, esc).Stop?
    ensures Step(line, i, ctx, esc).f == FailureAt(line, i)
  {}

  /** A scan that fails does so at the first trouble ahead, and says which it is. */
  lemma {:induction false} ScanFails(line: string, from: Place, i: nat, ctx: Context, esc: bool) returns (p: nat)
    requires StandsAt(line, from, i, ctx, esc) && Scan(line, i, ctx, esc).Failed?
    ensures FirstTrouble(line, from, i, p) && Scan(line, i, ctx, esc).f == FailureAt(line, p)
    decreases |line| - i
  {
    StepAgrees(line, from, i, ctx, esc);
    var s := Step(line, i, ctx, esc);
    if s.Stop? {
      StepFails(line, from, i, ctx, esc);
      p := i;
    } else {
      StepFits(line, i, ctx, esc);
      ScanGoes(line, i, ctx, esc, s);
      p := ScanFails(line, from, i + Width(s.piece), s.ctx, s.esc);
    }
  }

  lemma StartMatches()
    ensures Matches(StartContext(), StartPlace())
  {}

  /** The lines of a file that the converter accepts: none holds trouble, given the lines before it. */
  ghost predicate Accepted(lines: seq<string>, from: Place) {
    lines == [] ||
    ((forall p :: 0 <= p < |lines[0]| ==> !Trouble(lines[0], from, p))
      && Accepted(lines[1..], After(lines[0], from, |lines[0]|)))
  }

  /** A file is converted exactly if it is accepted, and leaves the context that its text says. */
  lemma {:induction false} ConvertAgrees(lines: seq<string>, from: Place, ctx: Context, n: nat)
    requires Matches(ctx, from)
    ensures var r := Convert(lines, ctx, n);
      (r.Converted? <==> Accepted(lines, from)) && (r.Converted? ==> Matches(r.ctx, AfterAll(lines, from)))
    decreases |lines|
  {
    if lines != [] {
      var r := ScanLine(lines[0], ctx);
      ScanAgrees(lines[0], from, 0, ctx, false);
      if r.Scanned? {
        ConvertAgrees(lines[1..], After(lines[0], from, |lines[0]|), r.ctx, n + 1);
      }
    }
  }

  /**
   * A file that is not converted: the line number is that of the first line with trouble, the lines written
   * until then are the conversion of those before it, and the failure is that of the first trouble in it.
   */
  lemma {:induction false} ConvertFails(lines: seq<string>, from: Place, ctx: Context, n: nat) returns (i: nat, p: nat)
    requires Matches(ctx, from) && Convert(lines, ctx, n).GaveUp?
    ensures var r := Convert(lines, ctx, n);
      && i < |lines| && r.line == n + i + 1 && Accepted(lines[..i], from)
      && Convert(lines[..i], ctx, n).Converted? && r.outs == Convert(lines[..i], ctx, n).outs
      && FirstTrouble(lines[i], AfterAll(lines[..i], from), 0, p) && r.f == FailureAt(lines[i], p)
    decreases |lines|
  {
    var r := ScanLine(lines[0], ctx);
    if r.Failed? {
      i := 0;
      p := ScanFails(lines[0], from, 0, ctx, false);
    } else {
      ScanAgrees(lines[0], from, 0, ctx, false);
      i, p := ConvertFails(lines[1..], After(lines[0], from, |lines[0]|), r.ctx, n + 1);
      assert lines[..i + 1][0] == lines[0] && lines[..i + 1][1..] == lines[1..][..i];
      i := i + 1;
    }
  }

  /** Where the scan stands before its piece `k`, and in what context. */
  datatype Point = Point(pos: nat, ctx: Context, esc: bool)

  function PointAt(line: string, i: nat, ctx: Context, esc: bool, k: nat): Option<Point>
    requires i <= |line|
    decreases k
  {
    if k == 0 then Some(Point(i, ctx, esc))
    else if i == |line| then None
    else
      match Step(line, i, ctx, esc)
      case Stop(_) => None
      case Go(next, esc', piece, _) => PointAt(line, i + Width(piece), next, esc', k - 1)
  }

  /** How much of the line the first `k` pieces hold. */
  function Span(ps: List<Piece>, k: nat): nat
    requires k <= Length(ps)
  {
    if k == 0 then 0 else Width(ps.head) + Span(ps.tail, k - 1)
  }

  /** The piece that belongs at position `p`: in a slot list outside quotes a marker is quoted, all else is copied. */
  ghost function PieceFor(line: string, from: Place, p: nat): Piece
    requires p < |line|
  {
    var at, m := After(line, from, p), MarkerAt(line, p);
    if Odd(at.past, 0) && at.open == None && m.Some? then Quoted(m.value) else Plain(line[p])
  }

  /** At this point the scan has the context that the text says, and makes of it the piece that belongs there. */
  ghost predicate IsRight(line: string, from: Place, at: Point, piece: Piece) {
    at.pos < |line| && StandsAt(line, from, at.pos, at.ctx, at.esc) && piece == PieceFor(line, from, at.pos)
  }

  lemma StepPiece(line: string, from: Place, i: nat, ctx: Context, esc: bool)
    requires i < |line| && StandsAt(line, from, i, ctx, esc) && Step(line, i, ctx, esc).Go?
    ensures Step(line, i, ctx, esc).piece == PieceFor(line, from, i)
  {}

  lemma PointBehind(line: string, i: nat, n: nat, s: StepResult, ctx: Context, esc: bool, k: nat)
    requires i < n <= |line| && k > 0
    requires s == Step(line, i, ctx, esc) && s.Go? && n == i + Width(s.piece)
    ensures PointAt(line, i, ctx, esc, k) == PointAt(line, n, s.ctx, s.esc, k - 1)
  {}

  lemma StepLeads(line: string, from: Place, i: nat, ctx: Context, esc: bool)
    requires i < |line| && StandsAt(line, from, i, ctx, esc) && Step(line, i, ctx, esc).Go?
    ensures var s := Step(line, i, ctx, esc);
      StandsAt(line, from, i + Width(s.piece), s.ctx, s.esc) && s.piece == PieceFor(line, from, i)
  {
    StepAgrees(line, from, i, ctx, esc);
    StepPiece(line, from, i, ctx, esc);
  }

  /**
   * Before every piece, and at the end, the context is right; it stands behind the pieces before it, and
   * the piece is the one that belongs there.
   */
  lemma {:induction false} PointAgrees(line: string, from: Place, i: nat, ctx: Context, esc: bool, k: nat)
    requires StandsAt(line, from, i, ctx, esc) && Scan(line, i, ctx, esc).Scanned?
    requires k <= Length(Scan(line, i, ctx, esc).pieces)
    ensures var ps, at := Scan(line, i, ctx, esc).pieces, PointAt(line, i, ctx, esc, k);
      && at.Some? && at.value.pos == i + Span(ps, k)
      && StandsAt(line, from, at.value.pos, at.value.ctx, at.value.esc)
      && (k < Length(ps) ==> IsRight(line, from, at.value, Nth(ps, k)))
    decreases k
  {
    if k > 0 {
      var n, s, q := Onward(line, i, ctx, esc);
      StepLeads(line, from, i, ctx, esc);
      PointBehind(line, i, n, s, ctx, esc, k);
      PointAgrees(line, from, n, s.ctx, s.esc, k - 1);
    } else if i < |line| {
      var n, s, q := Onward(line, i, ctx, esc);
      StepLeads(line, from, i, ctx, esc);
    }
  }

  /**
   * In a file, at every piece of every line, by the text before it alone: the slot-list flag is the
   * parity of the bars at the current bracket level, the saved flags are those of the levels around
   * it, the quote flags say which quote is open, and the piece is quoted exactly where that parity
   * is odd, no quote is open and a marker stands.
   */
  lemma ContextIsRight(before: seq<string>, line: string, k: nat)
    requires var r := Convert(before, StartContext(), 0);
      r.Converted? && ScanLine(line, r.ctx).Scanned? && k < Length(ScanLine(line, r.ctx).pieces)
    ensures var ctx := Convert(before, StartContext(), 0).ctx;
      var ps, at, from := ScanLine(line, ctx).pieces, PointAt(line, 0, ctx, false, k), AfterAll(before, StartPlace());
      at.Some? && at.value.pos == Span(ps, k) && IsRight(line, from, at.value, Nth(ps, k))
  {
    StartMatches();
    ConvertAgrees(before, StartPlace(), StartContext(), 0);
    PointAgrees(line, AfterAll(before, StartPlace()), 0, Convert(before, StartContext(), 0).ctx, false, k);
  }

  /**
   * One of the four texts, where the scan comes to it, is put between double quotes if bars are odd at its
   * level and no quote is open; otherwise its first character is copied.
   */
  lemma MarkersAreQuoted(before: seq<string>, line: string, k: nat, t: string)
    requires var r := Convert(before, StartContext(), 0);
      && r.Converted? && ScanLine(line, r.ctx).Scanned? && k < Length(ScanLine(line, r.ctx).pieces)
      && MarkerText(line, Span(ScanLine(line, r.ctx).pieces, k), t)
    ensures var ps := ScanLine(line, Convert(before, StartContext(), 0).ctx).pieces;
      var p := Span(ps, k);
      var at := After(line, AfterAll(before, StartPlace()), p);
      Rendered(Nth(ps, k)) == if Odd(at.past, 0) && at.open == None then "\"" + t + "\"" else [line[p]]
  {
    var p := Span(ScanLine(line, Convert(before, StartContext(), 0).ctx).pieces, k);
    ContextIsRight(before, line, k);
    MarkersAreFour(line, p);
  }

  // ----- how deep the stack gets -----

  function Max(a: nat, b: nat): nat { if a < b then b else a }

  /** The most flags saved at a time from `i` on, to the end of the line or to where the converter gives up. */
  function Depth(line: string, i: nat, ctx: Context, esc: bool): (d: nat)
    requires i <= |line|
    ensures Length(ctx.nest.stack) <= d
    decreases |line| - i
  {
    if i == |line| then Length(ctx.nest.stack) else
    match Step(line, i, ctx, esc)
    case Stop(_) => Length(ctx.nest.stack)
    case Go(next, esc', piece, _) => Max(Length(ctx.nest.stack), Depth(line, i + Width(piece), next, esc'))
  }

  /** Nowhere in the line from `i` on are more than `d` brackets open. */
  ghost predicate WithinHeight(line: string, from: Place, i: nat, d: nat) {
    forall p :: i <= p <= |line| ==> Height(After(line, from, p).past) <= d
  }

  lemma StepHeight(line: string, from: Place, i: nat, ctx: Context, esc: bool, d: nat)
    requires i < |line| && StandsAt(line, from, i, ctx, esc) && Step(line, i, ctx, esc).Go?
    ensures var n := i + Width(Step(line, i, ctx, esc).piece);
      n <= |line| && (WithinHeight(line, from, i, d)
                      <==> Length(ctx.nest.stack) <= d && WithinHeight(line, from, n, d))
  {
    var s := Step(line, i, ctx, esc);
    StepFits(line, i, ctx, esc);
    var n := i + Width(s.piece);
    assert Length(ctx.nest.stack) == Height(After(line, from, i).past);
    if s.piece.Quoted? {
      QuotedStep(line, i, ctx, esc);
      MarksChangeNothing(line, from, i, s.piece.marker);
    }
  }

  lemma DepthGoes(line: string, i: nat, ctx: Context, esc: bool, s: StepResult, d: nat)
    requires i < |line| && s == Step(line, i, ctx, esc) && s.Go? && i + Width(s.piece) <= |line|
    ensures Depth(line, i, ctx, esc) <= d
      <==> Length(ctx.nest.stack) <= d && Depth(line, i + Width(s.piece), s.ctx, s.esc) <= d
  {}

  lemma StackIsHeight(line: string, from: Place, i: nat, ctx: Context, esc: bool, d: nat)
    requires StandsAt(line, from, i, ctx, esc)
    ensures WithinHeight(line, from, i, d) ==> Length(ctx.nest.stack) <= d
    ensures i == |line| && Length(ctx.nest.stack) <= d ==> WithinHeight(line, from, i, d)
  {
    assert Length(ctx.nest.stack) == Height(After(line, from, i).past);
  }

  /** The stack gets never deeper than the most brackets that are open at a time. */
  lemma {:induction false} DepthIsBounded(line: string, from: Place, i: nat, ctx: Context, esc: bool, d: nat)
    requires StandsAt(line, from, i, ctx, esc) && WithinHeight(line, from, i, d)
    ensures Depth(line, i, ctx, esc) <= d
    decreases |line| - i
  {
    StackIsHeight(line, from, i, ctx, esc, d);
    if i < |line| {
      var s := Step(line, i, ctx, esc);
      if s.Go? {
        StepAgrees(line, from, i, ctx, esc);
        StepHeight(line, from, i, ctx, esc, d);
        DepthIsBounded(line, from, i + Width(s.piece), s.ctx, s.esc, d);
        DepthGoes(line, i, ctx, esc, s, d);
      }
    }
  }

  /** Where there is no trouble the scan goes on. */
  lemma GoesOn(line: string, from: Place, i: nat, ctx: Context, esc: bool)
    requires i < |line| && StandsAt(line, from, i, ctx, esc) && !Trouble(line, from, i)
    ensures var s := Step(line, i, ctx, esc);
      s.Go? && i < i + Width(s.piece) <= |line| && StandsAt(line, from, i + Width(s.piece), s.ctx, s.esc)
  {
    StepAgrees(line, from, i, ctx, esc);
    StepFits(line, i, ctx, esc);
  }

  /** And so deep it gets, if there is no trouble ahead. */
  lemma {:induction false} DepthIsReached(line: string, from: Place, i: nat, ctx: Context, esc: bool, d: nat)
    requires StandsAt(line, from, i, ctx, esc) && forall p :: i <= p < |line| ==> !Trouble(line, from, p)
    requires Depth(line, i, ctx, esc) <= d
    ensures WithinHeight(line, from, i, d)
    decreases |line| - i
  {
    StackIsHeight(line, from, i, ctx, esc, d);
    if i < |line| {
      var s := Step(line, i, ctx, esc);
      GoesOn(line, from, i, ctx, esc);
      StepHeight(line, from, i, ctx, esc, d);
      DepthGoes(line, i, ctx, esc, s, d);
      DepthIsReached(line, from, i + Width(s.piece), s.ctx, s.esc, d);
    }
  }
}
