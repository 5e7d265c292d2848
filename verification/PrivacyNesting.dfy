/** Balanced segments of text leave the bracket stack as they found it. */
module PrivacyNesting {
  import opened Seqs
  import opened PrivacyScan
  import opened PrivacyText
  import opened PrivacyContext

  /** One event after the other; `None` when a bracket closes that none opened. */
  function Run(nest: Nest, es: List<Event>): Option<Nest>
    decreases es
  {
    match es
    case Nil => Some(nest)
    case Cons(e, rest) =>
      match Apply(nest, e)
      case None => None
      case Some(next) => Run(next, rest)
  }

  /** The events `es` after those of `past`: the latest first. */
  function Since(past: List<Event>, es: List<Event>): List<Event>
    decreases es
  {
    match es
    case Nil => past
    case Cons(e, rest) => Since(Cons(e, past), rest)
  }

  /** The events can be run exactly if no bracket is unmatched, and the flags stay the parities. */
  lemma {:induction false} RunTracks(past: List<Event>, nest: Nest, es: List<Event>)
    requires Tracks(past, nest) && NeverBelow(past)
    ensures var r := Run(nest, es);
      (r.Some? <==> NeverBelow(Since(past, es))) && (r.Some? ==> Tracks(Since(past, es), r.value))
    decreases es
  {
    match es
    case Nil =>
    case Cons(e, rest) =>
      var next := Apply(nest, e);
      if next.Some? {
        ApplyTracks(past, nest, e, next.value);
        RunTracks(Cons(e, past), next.value, rest);
      } else {
        assert Height(Cons(e, past)) == -1;
        OnceBelow(Cons(e, past), rest);
      }
  }

  lemma {:induction false} OnceBelow(past: List<Event>, es: List<Event>)
    requires !NeverBelow(past)
    ensures !NeverBelow(Since(past, es))
    decreases es
  {
    if es.Cons? {
      OnceBelow(Cons(es.head, past), es.tail);
    }
  }

  // ----- the scanner runs its events -----

  lemma StepRuns(line: string, i: nat, ctx: Context, esc: bool)
    requires i < |line| && Step(line, i, ctx, esc).Go?
    ensures var s := Step(line, i, ctx, esc);
      Effect(ctx.nest, s.event) == Some(s.ctx.nest)
  {}

  lemma {:induction false} ScanRuns(line: string, i: nat, ctx: Context, esc: bool)
    requires i <= |line| && Scan(line, i, ctx, esc).Scanned?
    ensures var r := Scan(line, i, ctx, esc);
      Run(ctx.nest, r.events) == Some(r.ctx.nest)
    decreases |line| - i
  {
    if i < |line| {
      var n, s, q := Onward(line, i, ctx, esc);
      ScanRuns(line, n, s.ctx, s.esc);
      StepRuns(line, i, ctx, esc);
    }
  }

  // ----- balanced segments -----

  /** The brackets of `es` match: none closes one opened before, and none is left open. */
  ghost predicate Balanced(es: List<Event>) {
    Height(Since(Nil, es)) == 0 && NeverBelow(Since(Nil, es))
  }

  function Join<T>(a: List<T>, b: List<T>): List<T> {
    match a
    case Nil => b
    case Cons(head, tail) => Cons(head, Join(tail, b))
  }

  /** Whatever flags were saved before, a segment that closes no bracket opened before it leaves them alone. */
  lemma {:induction false} RunKeepsBase(nest: Nest, base: List<bool>, es: List<Event>)
    requires Run(nest, es).Some?
    ensures var r := Run(nest, es).value;
      Run(Nest(Join(nest.stack, base), nest.slot), es) == Some(Nest(Join(r.stack, base), r.slot))
    decreases es
  {
    if es.Cons? {
      RunKeepsBase(Apply(nest, es.head).value, base, es.tail);
    }
  }

  /** Two runs that differ in the flag they start from differ in the flag of the outermost level only. */
  ghost predicate Flipped(a: Nest, b: Nest)
    decreases a.stack
  {
    match (a.stack, b.stack)
    case (Nil, Nil) => a.slot != b.slot
    case (Cons(x, s), Cons(y, t)) => a.slot == b.slot && Flipped(Nest(s, x), Nest(t, y))
    case _ => false
  }

  lemma {:induction false} RunFlips(a: Nest, b: Nest, es: List<Event>)
    requires Flipped(a, b)
    ensures var p, q := Run(a, es), Run(b, es);
      (p.Some? <==> q.Some?) && (p.Some? ==> Flipped(p.value, q.value))
    decreases es
  {
    if es.Cons? && Apply(a, es.head).Some? {
      RunFlips(Apply(a, es.head).value, Apply(b, es.head).value, es.tail);
    }
  }

  /** A balanced segment leaves the stack as it found it, and flips the flag once for every bar outside its brackets. */
  lemma BalancedKeepsStack(nest: Nest, es: List<Event>)
    requires Balanced(es)
    ensures Run(nest, es) == Some(Nest(nest.stack, nest.slot != Odd(Since(Nil, es), 0)))
  {
    RunTracks(Nil, Nest(Nil, false), es);
    RunFlips(Nest(Nil, false), Nest(Nil, true), es);
    RunKeepsBase(Nest(Nil, nest.slot), nest.stack, es);
  }

  /** The events of a scan are the bars and brackets of the text. */
  lemma {:induction false} ScanPast(line: string, from: Place, i: nat, ctx: Context, esc: bool)
    requires StandsAt(line, from, i, ctx, esc) && Scan(line, i, ctx, esc).Scanned?
    ensures After(line, from, |line|).past == Since(After(line, from, i).past, Scan(line, i, ctx, esc).events)
    decreases |line| - i
  {
    if i < |line| {
      var n, s, q := Onward(line, i, ctx, esc);
      StepAgrees(line, from, i, ctx, esc);
      ScanPast(line, from, n, s.ctx, s.esc);
    }
  }

  /** So does a line whose own brackets match. */
  lemma BalancedLineKeepsStack(line: string, ctx: Context, from: Place)
    requires Matches(ctx, from) && ScanLine(line, ctx).Scanned? && Balanced(ScanLine(line, ctx).events)
    ensures var r := ScanLine(line, ctx);
      && r.ctx.nest == Nest(ctx.nest.stack, ctx.nest.slot != Odd(Since(Nil, r.events), 0))
      && After(line, from, |line|).past == Since(from.past, r.events)
  {
    ScanRuns(line, 0, ctx, false);
    BalancedKeepsStack(ctx.nest, ScanLine(line, ctx).events);
    ScanPast(line, from, 0, ctx, false);
  }

  // ----- any stretch of a file -----

  lemma {:induction false} ListsEqual<T>(l: List<T>, m: List<T>)
    requires Length(l) == Length(m) && forall k :: 0 <= k < Length(l) ==> Nth(l, k) == Nth(m, k)
    ensures l == m
  {
    if l.Cons? {
      assert Nth(l, 0) == Nth(m, 0);
      forall k | 0 <= k < Length(l.tail) ensures Nth(l.tail, k) == Nth(m.tail, k) {
        assert Nth(l, k + 1) == Nth(m, k + 1);
      }
      ListsEqual(l.tail, m.tail);
    }
  }

  /** The text before a position leaves one nesting only. */
  lemma TracksOne(past: List<Event>, a: Nest, b: Nest)
    requires Tracks(past, a) && Tracks(past, b)
    ensures a == b
  {
    forall k | 0 <= k < Length(a.stack) ensures Nth(a.stack, k) == Nth(b.stack, k) {
      assert Nth(a.stack, k) == Odd(past, k + 1);
    }
    ListsEqual(a.stack, b.stack);
  }

  lemma {:induction false} SinceJoin(past: List<Event>, a: List<Event>, b: List<Event>)
    ensures Since(past, Join(a, b)) == Since(Since(past, a), b)
    decreases a
  {
    if a.Cons? {
      SinceJoin(Cons(a.head, past), a.tail, b);
    }
  }

  /** The bars and brackets of a line between two positions. */
  function EventsOf(line: string, from: Place, p: nat, q: nat): List<Event>
    requires p <= q <= |line|
    decreases q - p
  {
    if p == q then Nil else Then(EventHere(line, p, After(line, from, p)), EventsOf(line, from, p + 1, q))
  }

  lemma {:induction false} EventsPast(line: string, from: Place, p: nat, q: nat)
    requires p <= q <= |line|
    ensures After(line, from, q).past == Since(After(line, from, p).past, EventsOf(line, from, p, q))
    decreases q - p
  {
    if p < q {
      EventsPast(line, from, p + 1, q);
    }
  }

  /** The place at position `p` of line `i`. */
  function PlaceAt(lines: seq<string>, i: nat, p: nat): Place
    requires i < |lines| && p <= |lines[i]|
  {
    After(lines[i], AfterAll(lines[..i], StartPlace()), p)
  }

  lemma {:induction false} AfterOneMore(lines: seq<string>, line: string, from: Place)
    ensures AfterAll(lines + [line], from) == After(line, AfterAll(lines, from), |line|)
    decreases |lines|
  {
    if lines == [] {
      assert lines + [line] == [line];
    } else {
      assert (lines + [line])[1..] == lines[1..] + [line];
      AfterOneMore(lines[1..], line, After(lines[0], from, |lines[0]|));
    }
  }

  lemma NextLineStarts(lines: seq<string>, i: nat)
    requires i + 1 < |lines|
    ensures PlaceAt(lines, i + 1, 0) == PlaceAt(lines, i, |lines[i]|)
  {
    assert lines[..i + 1] == lines[..i] + [lines[i]];
    AfterOneMore(lines[..i], lines[i], StartPlace());
  }

  /** The bars and brackets of a file between position `p` of line `i` and position `q` of line `j`. */
  function Stretch(lines: seq<string>, i: nat, p: nat, j: nat, q: nat): List<Event>
    requires i <= j < |lines| && p <= |lines[i]| && q <= |lines[j]| && (i == j ==> p <= q)
    decreases j - i
  {
    var from := AfterAll(lines[..i], StartPlace());
    if i == j then EventsOf(lines[i], from, p, q)
    else Join(EventsOf(lines[i], from, p, |lines[i]|), Stretch(lines, i + 1, 0, j, q))
  }

  lemma {:induction false} StretchPast(lines: seq<string>, i: nat, p: nat, j: nat, q: nat)
    requires i <= j < |lines| && p <= |lines[i]| && q <= |lines[j]| && (i == j ==> p <= q)
    ensures PlaceAt(lines, j, q).past == Since(PlaceAt(lines, i, p).past, Stretch(lines, i, p, j, q))
    decreases j - i
  {
    var from := AfterAll(lines[..i], StartPlace());
    if i == j {
      EventsPast(lines[i], from, p, q);
    } else {
      EventsPast(lines[i], from, p, |lines[i]|);
      NextLineStarts(lines, i);
      StretchPast(lines, i + 1, 0, j, q);
      SinceJoin(PlaceAt(lines, i, p).past, EventsOf(lines[i], from, p, |lines[i]|), Stretch(lines, i + 1, 0, j, q));
    }
  }

  /** Converting the file, the scanner comes to `at` before piece `k` of line `i`, or at its end. */
  ghost predicate ComesTo(lines: seq<string>, i: nat, k: nat, at: Point) {
    && i < |lines|
    && var r := Convert(lines[..i], StartContext(), 0);
       && r.Converted? && ScanLine(lines[i], r.ctx).Scanned? && k <= Length(ScanLine(lines[i], r.ctx).pieces)
       && PointAt(lines[i], 0, r.ctx, false, k) == Some(at)
  }

  lemma ComesToPlace(lines: seq<string>, i: nat, k: nat, at: Point)
    requires ComesTo(lines, i, k, at)
    ensures at.pos <= |lines[i]| && Matches(at.ctx, PlaceAt(lines, i, at.pos))
  {
    StartMatches();
    ConvertAgrees(lines[..i], StartPlace(), StartContext(), 0);
    PointAgrees(lines[i], AfterAll(lines[..i], StartPlace()), 0, Convert(lines[..i], StartContext(), 0).ctx, false, k);
  }

  /** Between any two points of a file, in one line or lines apart, the nesting changes by the bars and brackets there. */
  lemma StretchRuns(lines: seq<string>, i: nat, k: nat, a: Point, j: nat, m: nat, b: Point)
    requires ComesTo(lines, i, k, a) && ComesTo(lines, j, m, b)
    requires a.pos <= |lines[i]| && b.pos <= |lines[j]| && i <= j && (i == j ==> a.pos <= b.pos)
    ensures Run(a.ctx.nest, Stretch(lines, i, a.pos, j, b.pos)) == Some(b.ctx.nest)
  {
    ComesToPlace(lines, i, k, a);
    ComesToPlace(lines, j, m, b);
    StretchPast(lines, i, a.pos, j, b.pos);
    var past, es := PlaceAt(lines, i, a.pos).past, Stretch(lines, i, a.pos, j, b.pos);
    RunTracks(past, a.ctx.nest, es);
    TracksOne(Since(past, es), Run(a.ctx.nest, es).value, b.ctx.nest);
  }

  /** A balanced stretch of a file leaves the stack as it found it, the flag flipped once for every bar outside brackets. */
  lemma BalancedStretchKeepsStack(lines: seq<string>, i: nat, k: nat, a: Point, j: nat, m: nat, b: Point)
    requires ComesTo(lines, i, k, a) && ComesTo(lines, j, m, b)
    requires a.pos <= |lines[i]| && b.pos <= |lines[j]| && i <= j && (i == j ==> a.pos <= b.pos)
    requires Balanced(Stretch(lines, i, a.pos, j, b.pos))
    ensures var es := Stretch(lines, i, a.pos, j, b.pos);
      b.ctx.nest == Nest(a.ctx.nest.stack, a.ctx.nest.slot != Odd(Since(Nil, es), 0))
  {
    StretchRuns(lines, i, k, a, j, m, b);
    BalancedKeepsStack(a.ctx.nest, Stretch(lines, i, a.pos, j, b.pos));
  }
}
