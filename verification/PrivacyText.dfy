/** The conversion keeps the text, adds quotes around markers only, and does nothing the second time. */
module PrivacyText {
  import opened Seqs
  import opened PrivacyScan

  /** `m` stands at `i`, as marks with a blank or nothing before and a blank, a backslash or nothing behind. */
  ghost predicate Stands(m: Marker, line: string, i: nat) {
    var n := i + Size(m);
    && n <= |line| && m in {One('_'), One('^'), Two('_', '^'), Two('^', '_')}
    && line[i] == m.mark && (m.Two? ==> line[i + 1] == m.other)
    && (i != 0 ==> line[i - 1] in {' ', '\n', '\t'})
    && (n < |line| ==> line[n] in {' ', '\n', '\t', '\\'})
  }

  lemma CheckOne(c: char, line: string, i: nat)
    requires IsMark(c)
    ensures CheckFor([c], line, i) <==> Stands(One(c), line, i)
  {
    assert [c][0] == c;
  }

  lemma CheckTwo(c: char, line: string, i: nat)
    requires IsMark(c)
    ensures CheckFor([c, OtherMark(c)], line, i) <==> Stands(Two(c, OtherMark(c)), line, i)
  {
    var target := [c, OtherMark(c)];
    assert target[0] == c && target[1] == OtherMark(c);
  }

  /** The marker found is the one that stands there, and none is found only where none stands. */
  lemma MarkerStands(line: string, i: nat)
    requires i < |line|
    ensures forall m :: MarkerAt(line, i) == Some(m) <==> Stands(m, line, i)
  {
    if IsMark(line[i]) {
      CheckOne(line[i], line, i);
      CheckTwo(line[i], line, i);
    }
  }

  /** `t`, one of the four, stands at `i` with a blank or nothing before and a blank, a backslash or nothing behind. */
  ghost predicate MarkerText(line: string, i: nat, t: string) {
    && t in {"_", "^", "_^", "^_"} && i + |t| <= |line| && line[i..i + |t|] == t
    && (i == 0 || line[i - 1] in {' ', '\n', '\t'})
    && (i + |t| == |line| || line[i + |t|] in {' ', '\n', '\t', '\\'})
  }

  /** A marker is found exactly where one of the four texts stands, and it is that text. */
  lemma MarkersAreFour(line: string, i: nat)
    requires i < |line|
    ensures forall t :: MarkerText(line, i, t) <==> exists m :: MarkerAt(line, i) == Some(m) && TextOf(m) == t
  {
    MarkerStands(line, i);
    forall m ensures Stands(m, line, i) ==> MarkerText(line, i, TextOf(m)) {
      if Stands(m, line, i) {
        assert line[i..i + Size(m)] == TextOf(m);
      }
    }
    forall t | MarkerText(line, i, t) ensures exists m :: MarkerAt(line, i) == Some(m) && TextOf(m) == t {
      var m := if |t| == 1 then One(t[0]) else Two(t[0], t[1]);
      assert line[i..i + |t|][0] == line[i] && (|t| == 2 ==> line[i..i + |t|][1] == line[i + 1]);
      assert TextOf(m) == t && Stands(m, line, i);
    }
  }

  /** So between blanks each of the four is found. */
  lemma FoundBetweenBlanks(a: string, t: string, b: string)
    requires t in {"_", "^", "_^", "^_"}
    ensures var line := a + " " + t + " " + b;
      MarkerAt(line, |a| + 1).Some? && TextOf(MarkerAt(line, |a| + 1).value) == t
  {
    var line, i := a + " " + t + " " + b, |a| + 1;
    assert line[i..i + |t|] == t && line[i - 1] == ' ' && line[i + |t|] == ' ';
    assert MarkerText(line, i, t);
    MarkersAreFour(line, i);
  }

  /** In a slot list outside quotes it comes out between double quotes; nothing else does. */
  lemma MarkerIsPut(line: string, i: nat, ctx: Context, t: string)
    requires i < |line| && ctx.nest.slot && !ctx.single && !ctx.double && MarkerText(line, i, t)
    ensures var s := Step(line, i, ctx, false);
      s.Go? && s.ctx == ctx && Rendered(s.piece) == "\"" + t + "\"" && Width(s.piece) == |t|
  {
    MarkersAreFour(line, i);
    MarkerStands(line, i);
  }

  lemma OthersAreCopied(line: string, i: nat, ctx: Context, esc: bool)
    requires i < |line| && Step(line, i, ctx, esc).Go?
    requires !ctx.nest.slot || ctx.single || ctx.double || forall t :: !MarkerText(line, i, t)
    ensures Rendered(Step(line, i, ctx, esc).piece) == [line[i]] && Width(Step(line, i, ctx, esc).piece) == 1
  {
    MarkersAreFour(line, i);
    var m := MarkerAt(line, i);
    assert m.Some? ==> MarkerText(line, i, TextOf(m.value));
  }

  /** A bar counts exactly if no character of a binary operator stands beside it. */
  lemma BarsThatCount(a: string, b: string)
    ensures IsLoneBar(a + "|" + b, |a|) <==>
      && (a == "" || a[|a| - 1] !in "!@#$%^&*-+=~/?<>,;|`\\")
      && (b == "" || b[0] !in "!@#$%^&*-+=~/?<>,;|`\\")
  {
    var line := a + "|" + b;
    assert line[|a|] == '|' && (b != "" ==> line[|a| + 1] == b[0]) && (a != "" ==> line[|a| - 1] == a[|a| - 1]);
  }

  /** What a piece takes up of the output. */
  function Room(p: Piece): nat {
    match p
    case Plain(_) => 1
    case Quoted(m) => Size(m) + 2
  }

  lemma RoomIsRendered(p: Piece)
    ensures Room(p) == |Rendered(p)|
  {}

  /** `p` holds what stands at `i`. */
  ghost predicate Fits(line: string, i: nat, p: Piece) {
    match p
    case Plain(c) => i < |line| && line[i] == c
    case Quoted(m) => Stands(m, line, i)
  }

  lemma StepFits(line: string, i: nat, ctx: Context, esc: bool)
    requires i < |line| && Step(line, i, ctx, esc).Go?
    ensures var p := Step(line, i, ctx, esc).piece;
      Fits(line, i, p) && 1 <= Width(p) && i + Width(p) <= |line|
  {
    MarkerStands(line, i);
  }

  lemma ScanGoes(line: string, i: nat, ctx: Context, esc: bool, s: StepResult)
    requires i < |line| && s == Step(line, i, ctx, esc) && s.Go? && i + Width(s.piece) <= |line|
    ensures Scan(line, i, ctx, esc) == Before(s.piece, s.event, Scan(line, i + Width(s.piece), s.ctx, s.esc))
  {}

  /** One step, and where the next one starts. */
  lemma Onward(line: string, i: nat, ctx: Context, esc: bool) returns (n: nat, s: StepResult, q: ScanResult)
    requires i < |line| && Scan(line, i, ctx, esc).Scanned?
    ensures s == Step(line, i, ctx, esc) && s.Go? && i < n == i + Width(s.piece) <= |line|
    ensures q == Scan(line, n, s.ctx, s.esc) && q.Scanned?
    ensures Scan(line, i, ctx, esc) == Before(s.piece, s.event, q)
  {
    StepFits(line, i, ctx, esc);
    s := Step(line, i, ctx, esc);
    n := i + Width(s.piece);
    q := Scan(line, n, s.ctx, s.esc);
  }

  /** The pieces make up the line from `i` on. */
  ghost predicate Covers(line: string, i: nat, ps: List<Piece>)
    decreases ps
  {
    match ps
    case Nil => i == |line|
    case Cons(p, rest) => Fits(line, i, p) && Covers(line, i + Width(p), rest)
  }

  lemma {:induction false} ScanCovers(line: string, i: nat, ctx: Context, esc: bool)
    requires i <= |line| && Scan(line, i, ctx, esc).Scanned?
    ensures Covers(line, i, Scan(line, i, ctx, esc).pieces)
    decreases |line| - i
  {
    if i < |line| {
      var n, s, q := Onward(line, i, ctx, esc);
      ScanCovers(line, n, s.ctx, s.esc);
      StepFits(line, i, ctx, esc);
    }
  }

  lemma {:induction false} CoversText(line: string, i: nat, ps: List<Piece>)
    requires i <= |line| && Covers(line, i, ps)
    ensures Original(ps) == line[i..]
    decreases ps
  {
    if ps.Cons? {
      var n := i + Width(ps.head);
      CoversText(line, n, ps.tail);
      assert line[i..] == line[i..n] + line[n..];
      assert Source(ps.head) == line[i..n];
    }
  }

  /** Taking the inserted quotes out of the output gives the input back. */
  lemma TextIsConserved(line: string, ctx: Context)
    requires ScanLine(line, ctx).Scanned?
    ensures Original(ScanLine(line, ctx).pieces) == line
  {
    ScanCovers(line, 0, ctx, false);
    CoversText(line, 0, ScanLine(line, ctx).pieces);
    assert line[0..] == line;
  }

  // ----- how long the output gets -----

  /** What comes out of a line from `i` on, to its end or to where the converter gives up. */
  function OutputLength(line: string, i: nat, ctx: Context, esc: bool): nat
    requires i <= |line|
    decreases |line| - i
  {
    if i == |line| then 0 else
    match Step(line, i, ctx, esc)
    case Stop(_) => 0
    case Go(next, esc', piece, _) => Room(piece) + OutputLength(line, i + Width(piece), next, esc')
  }

  /** The most that `m` characters yield. */
  function Most(m: nat): nat { 2 * m + m % 2 }

  lemma MostOfTwo(m: nat)
    ensures Most(m + 2) == Most(m) + 4
  {}

  /** What may come out of a line from `i` on: behind a blank, or at the start, a marker may be next. */
  function Budget(line: string, i: nat): nat
    requires i <= |line|
  {
    var m := |line| - i;
    if i == 0 || IsBlank(line[i - 1]) then Most(m) else 2 * m - m % 2
  }

  /** No step takes more than its share. */
  lemma StepWithinBudget(line: string, i: nat, ctx: Context, esc: bool)
    requires i < |line| && Step(line, i, ctx, esc).Go?
    ensures var p := Step(line, i, ctx, esc).piece;
      i + Width(p) <= |line| && Room(p) + Budget(line, i + Width(p)) <= Budget(line, i)
  {
    StepFits(line, i, ctx, esc);
  }

  lemma OutputGoes(line: string, i: nat, ctx: Context, esc: bool, s: StepResult)
    requires i < |line| && s == Step(line, i, ctx, esc) && s.Go? && i + Width(s.piece) <= |line|
    ensures OutputLength(line, i, ctx, esc)
      == Room(s.piece) + OutputLength(line, i + Width(s.piece), s.ctx, s.esc)
  {}

  lemma {:induction false} OutputIsBounded(line: string, i: nat, ctx: Context, esc: bool)
    requires i <= |line|
    ensures OutputLength(line, i, ctx, esc) <= Budget(line, i)
    decreases |line| - i
  {
    if i < |line| && Step(line, i, ctx, esc).Go? {
      var s := Step(line, i, ctx, esc);
      StepWithinBudget(line, i, ctx, esc);
      OutputGoes(line, i, ctx, esc, s);
      OutputIsBounded(line, i + Width(s.piece), s.ctx, s.esc);
    }
  }

  lemma RenderLength(p: Piece, rest: List<Piece>)
    ensures |Render(Cons(p, rest))| == Room(p) + |Render(rest)|
  {
    RoomIsRendered(p);
  }

  lemma {:induction false} OutputIsRendered(line: string, i: nat, ctx: Context, esc: bool)
    requires i <= |line| && Scan(line, i, ctx, esc).Scanned?
    ensures OutputLength(line, i, ctx, esc) == |Render(Scan(line, i, ctx, esc).pieces)|
    decreases |line| - i
  {
    if i < |line| {
      var n, s, q := Onward(line, i, ctx, esc);
      OutputGoes(line, i, ctx, esc, s);
      RenderLength(s.piece, q.pieces);
      OutputIsRendered(line, n, s.ctx, s.esc);
    }
  }

  /** A line of n characters yields at most 2n, and one more if n is odd. */
  lemma LengthIsBounded(line: string, ctx: Context)
    requires ScanLine(line, ctx).Scanned?
    ensures |Render(ScanLine(line, ctx).pieces)| <= Most(|line|)
  {
    OutputIsRendered(line, 0, ctx, false);
    OutputIsBounded(line, 0, ctx, false);
  }

  /** Marks with a blank behind each: the longest output for its length. */
  function Marks(n: nat): string {
    seq(n, k => if k % 2 == 0 then '_' else ' ')
  }

  /** A mark between blanks becomes three characters. */
  lemma MarkIsQuoted(line: string, i: nat, ctx: Context)
    requires i < |line| && line[i] == '_' && (i != 0 ==> line[i - 1] == ' ') && (i + 1 < |line| ==> line[i + 1] == ' ')
    requires ctx.nest.slot && !Quoting(ctx)
    ensures Step(line, i, ctx, false) == Go(ctx, false, Quoted(One('_')), None)
  {
    CheckOne('_', line, i);
  }

  lemma MarkGrows(line: string, i: nat, ctx: Context)
    requires i < |line| && line[i] == '_' && (i != 0 ==> line[i - 1] == ' ') && (i + 1 < |line| ==> line[i + 1] == ' ')
    requires ctx.nest.slot && !Quoting(ctx)
    ensures Scan(line, i, ctx, false).Scanned? <==> Scan(line, i + 1, ctx, false).Scanned?
    ensures OutputLength(line, i, ctx, false) == 3 + OutputLength(line, i + 1, ctx, false)
  {
    var mark := Go(ctx, false, Quoted(One('_')), None);
    MarkIsQuoted(line, i, ctx);
    ScanGoes(line, i, ctx, false, mark);
    OutputGoes(line, i, ctx, false, mark);
  }

  lemma BlankStays(line: string, i: nat, ctx: Context)
    requires i < |line| && line[i] == ' ' && !Quoting(ctx)
    ensures Scan(line, i, ctx, false).Scanned? <==> Scan(line, i + 1, ctx, false).Scanned?
    ensures OutputLength(line, i, ctx, false) == 1 + OutputLength(line, i + 1, ctx, false)
  {
    var blank := Go(ctx, false, Plain(' '), None);
    assert Step(line, i, ctx, false) == blank;
    ScanGoes(line, i, ctx, false, blank);
    OutputGoes(line, i, ctx, false, blank);
  }

  /** A mark and the blank behind it take two characters and yield four. */
  lemma PairGrows(line: string, i: nat, ctx: Context)
    requires i + 1 < |line| && line[i] == '_' && line[i + 1] == ' ' && (i != 0 ==> line[i - 1] == ' ')
    requires ctx.nest.slot && !Quoting(ctx)
    ensures Scan(line, i, ctx, false).Scanned? <==> Scan(line, i + 2, ctx, false).Scanned?
    ensures OutputLength(line, i, ctx, false) == 4 + OutputLength(line, i + 2, ctx, false)
  {
    MarkGrows(line, i, ctx);
    BlankStays(line, i + 1, ctx);
  }

  /** From `i` on, marks with a blank behind each. */
  ghost predicate Alternates(line: string, i: nat)
    decreases |line| - i
  {
    i < |line| ==> line[i] == '_' && (i + 1 < |line| ==> line[i + 1] == ' ') && Alternates(line, i + 2)
  }

  lemma {:induction false} MarksAlternate(n: nat, i: nat)
    requires i % 2 == 0
    ensures Alternates(Marks(n), i)
    decreases n - i
  {
    if i < n {
      MarksAlternate(n, i + 2);
    }
  }

  lemma {:induction false} MarksGrow(line: string, i: nat, ctx: Context)
    requires i <= |line| && Alternates(line, i) && (i != 0 ==> line[i - 1] == ' ')
    requires ctx.nest.slot && !Quoting(ctx)
    ensures Scan(line, i, ctx, false).Scanned? && OutputLength(line, i, ctx, false) == Most(|line| - i)
    decreases |line| - i
  {
    if i == |line| {
      NothingGrows(line, ctx);
    } else if i + 1 == |line| {
      MarkGrows(line, i, ctx);
      NothingGrows(line, ctx);
    } else {
      PairGrows(line, i, ctx);
      MarksGrow(line, i + 2, ctx);
      MostOfTwo(|line| - i - 2);
    }
  }

  lemma NothingGrows(line: string, ctx: Context)
    ensures Scan(line, |line|, ctx, false).Scanned? && OutputLength(line, |line|, ctx, false) == 0
  {}

  /** The bound is met, for every length, in a slot list. */
  lemma BoundIsTight(n: nat, ctx: Context)
    requires ctx.nest.slot && !Quoting(ctx)
    ensures var r := ScanLine(Marks(n), ctx);
      r.Scanned? && |Marks(n)| == n && |Render(r.pieces)| == Most(n)
  {
    MarksAlternate(n, 0);
    MarksGrow(Marks(n), 0, ctx);
    OutputIsRendered(Marks(n), 0, ctx, false);
  }

  // ----- scanning the output again -----

  /** What stands in `out` from `j` on, each character by itself. */
  function PlainsFrom(out: string, j: nat): List<Piece>
    requires j <= |out|
    decreases |out| - j
  {
    if j == |out| then Nil else Cons(Plain(out[j]), PlainsFrom(out, j + 1))
  }

  lemma {:induction false} PlainsRender(out: string, j: nat)
    requires j <= |out|
    ensures Render(PlainsFrom(out, j)) == out[j..]
    decreases |out| - j
  {
    if j < |out| {
      PlainsRender(out, j + 1);
    }
  }

  /** `p` is rendered in `out` at `j`. */
  ghost predicate Shows(out: string, j: nat, p: Piece) {
    j + Room(p) <= |out| &&
    match p
    case Plain(c) => out[j] == c
    case Quoted(One(c)) => out[j] == '"' && out[j + 1] == c && out[j + 2] == '"'
    case Quoted(Two(c, d)) => out[j] == '"' && out[j + 1] == c && out[j + 2] == d && out[j + 3] == '"'
  }

  /** The pieces are rendered in `out` from `j` to the end. */
  ghost predicate ShowsAll(out: string, j: nat, ps: List<Piece>)
    decreases ps
  {
    match ps
    case Nil => j == |out|
    case Cons(p, rest) => Shows(out, j, p) && ShowsAll(out, j + Room(p), rest)
  }

  lemma {:induction false} RenderShows(done: string, ps: List<Piece>)
    ensures ShowsAll(done + Render(ps), |done|, ps)
    decreases ps
  {
    if ps.Cons? {
      var head, tail := Rendered(ps.head), Render(ps.tail);
      RenderShows(done + head, ps.tail);
      Associative(done, head, tail);
      assert forall k :: 0 <= k < |head| ==> (done + (head + tail))[|done| + k] == head[k];
    }
  }

  /** `out` from `j` on starts as `line` from `i` on, through the first character behind a mark or two. */
  ghost predicate SameAhead(line: string, i: nat, out: string, j: nat)
    requires i <= |line| && j <= |out|
  {
    && (j == |out| <==> i == |line|)
    && (i < |line| ==> out[j] == line[i])
    && (i < |line| && IsMark(line[i]) ==> (j + 1 == |out| <==> i + 1 == |line|))
    && (i + 1 < |line| && IsMark(line[i]) ==> out[j + 1] == line[i + 1])
  }

  /** What follows a character that is no blank is copied, and so is what follows that, if it is no blank either. */
  lemma Peek(line: string, i: nat, out: string, j: nat, ps: List<Piece>)
    requires 0 < i <= |line| && !IsBlank(line[i - 1]) && Covers(line, i, ps)
    requires j <= |out| && ShowsAll(out, j, ps)
    ensures SameAhead(line, i, out, j)
  {
    if ps.Cons? {
      assert ps.head == Plain(line[i]);
      assert Covers(line, i + 1, ps.tail) && ShowsAll(out, j + 1, ps.tail);
    }
  }

  /** What stands before position `j` of the output is what stands before `i` of the input, or an inserted quote. */
  ghost predicate SameLeft(line: string, i: nat, out: string, j: nat)
    requires i <= |line| && j <= |out|
  {
    || (i == 0 && j == 0)
    || (i > 0 && j > 0 && out[j - 1] == line[i - 1])
    || (i > 0 && j > 0 && out[j - 1] == '"' && (i < |line| ==> IsBlank(line[i]) || line[i] == '\\'))
  }

  lemma SameBar(line: string, i: nat, out: string, j: nat)
    requires i < |line| && j < |out| && SameLeft(line, i, out, j) && out[j] == line[i]
    requires !IsBlank(line[i]) ==> SameAhead(line, i + 1, out, j + 1)
    ensures IsLoneBar(line, i) == IsLoneBar(out, j)
  {}

  lemma SameMarker(line: string, i: nat, out: string, j: nat)
    requires i < |line| && j < |out| && SameLeft(line, i, out, j) && out[j] == line[i]
    requires !IsBlank(line[i]) ==> SameAhead(line, i + 1, out, j + 1)
    ensures MarkerAt(line, i) == MarkerAt(out, j)
  {
    MarkerStands(line, i);
    MarkerStands(out, j);
    if IsMark(line[i]) {
      var one, two := One(line[i]), Two(line[i], OtherMark(line[i]));
      assert Stands(one, line, i) <==> Stands(one, out, j);
      assert Stands(two, line, i) <==> Stands(two, out, j);
    }
  }

  /** Where nothing is inserted, a step over the output is the step over the input. */
  lemma SameStep(line: string, i: nat, out: string, j: nat, ctx: Context, esc: bool)
    requires i < |line| && j < |out| && SameLeft(line, i, out, j) && out[j] == line[i]
    requires !IsBlank(line[i]) ==> SameAhead(line, i + 1, out, j + 1)
    ensures Step(out, j, ctx, esc) == Step(line, i, ctx, esc)
  {
    SameBar(line, i, out, j);
    SameMarker(line, i, out, j);
  }

  /** The result with the rendered marker copied before it. */
  function CopyOf(m: Marker, r: ScanResult): ScanResult {
    var end := Before(Plain('"'), None, r);
    Before(Plain('"'), None, Before(Plain(m.mark), None, if m.One? then end else Before(Plain(m.other), None, end)))
  }

  lemma QuoteIsCopied(out: string, j: nat, ctx: Context)
    requires j < |out| && !ctx.single && out[j] == '"'
    ensures Scan(out, j, ctx, false)
      == Before(Plain('"'), None, Scan(out, j + 1, ctx.(double := !ctx.double), false))
  {
    assert Step(out, j, ctx, false) == Go(ctx.(double := !ctx.double), false, Plain('"'), None);
  }

  lemma MarkIsCopied(out: string, j: nat, inside: Context)
    requires j < |out| && inside.double && !inside.single && IsMark(out[j])
    ensures Scan(out, j, inside, false) == Before(Plain(out[j]), None, Scan(out, j + 1, inside, false))
  {
    assert Step(out, j, inside, false) == Go(inside, false, Plain(out[j]), None);
  }

  /** A quoted marker is copied on the second scan: the quotes put in are a string of their own. */
  lemma QuotedIsCopied(out: string, j: nat, m: Marker, ctx: Context)
    requires Shows(out, j, Quoted(m)) && !Quoting(ctx) && IsMark(m.mark) && (m.Two? ==> IsMark(m.other))
    ensures Scan(out, j, ctx, false) == CopyOf(m, Scan(out, j + Size(m) + 2, ctx, false))
  {
    var n, inside := j + Size(m) + 1, ctx.(double := true);
    QuoteIsCopied(out, j, ctx);
    MarkIsCopied(out, j + 1, inside);
    if m.Two? {
      MarkIsCopied(out, j + 2, inside);
    }
    QuoteIsCopied(out, n, inside);
    assert inside.(double := false) == ctx;
  }

  lemma CopiedPlains(out: string, j: nat, m: Marker, ctx: Context, es: List<Event>)
    requires Shows(out, j, Quoted(m))
    ensures CopyOf(m, Scanned(ctx, PlainsFrom(out, j + Size(m) + 2), es)) == Scanned(ctx, PlainsFrom(out, j), es)
  {
    assert PlainsFrom(out, j + 1) == Cons(Plain(out[j + 1]), PlainsFrom(out, j + 2));
    assert PlainsFrom(out, j + 2) == Cons(Plain(out[j + 2]), PlainsFrom(out, j + 3));
  }

  /**
   * Scanning the output from `j` on runs in step with scanning the input from `i` on: it ends in the
   * same context, sees the same bars and brackets, and copies every character.
   */
  lemma {:induction false} Rescan(line: string, i: nat, out: string, j: nat, ctx: Context, esc: bool)
    requires i <= |line| && j <= |out| && SameLeft(line, i, out, j)
    requires var r := Scan(line, i, ctx, esc);
      r.Scanned? && ShowsAll(out, j, r.pieces)
    ensures var r := Scan(line, i, ctx, esc);
      Scan(out, j, ctx, esc) == Scanned(r.ctx, PlainsFrom(out, j), r.events)
    decreases |line| - i
  {
    if i < |line| {
      var n, s, q := Onward(line, i, ctx, esc);
      StepFits(line, i, ctx, esc);
      if s.piece.Quoted? {
        RescanQuoted(line, i, n, out, j, ctx, esc, s, q);
      } else {
        RescanPlain(line, i, out, j, ctx, esc, s, q);
      }
    }
  }

  lemma {:induction false} RescanQuoted(
    line: string, i: nat, n: nat, out: string, j: nat, ctx: Context, esc: bool, s: StepResult, q: ScanResult)
    requires i < n <= |line| && j <= |out|
    requires s == Step(line, i, ctx, esc) && s.Go? && s.piece.Quoted? && n == i + Width(s.piece)
    requires q == Scan(line, n, s.ctx, s.esc) && q.Scanned?
    requires Shows(out, j, s.piece) && ShowsAll(out, j + Room(s.piece), q.pieces)
    ensures s.event == None && Scan(out, j, ctx, esc) == Scanned(q.ctx, PlainsFrom(out, j), q.events)
    decreases |line| - i, 0
  {
    QuotedStep(line, i, ctx, esc);
    Rescan(line, n, out, j + Room(s.piece), ctx, false);
    QuotedIsCopied(out, j, s.piece.marker, ctx);
    CopiedPlains(out, j, s.piece.marker, q.ctx, q.events);
  }

  lemma {:induction false} RescanPlain(
    line: string, i: nat, out: string, j: nat, ctx: Context, esc: bool, s: StepResult, q: ScanResult)
    requires i < |line| && j < |out| && out[j] == line[i] && SameLeft(line, i, out, j)
    requires s == Step(line, i, ctx, esc) && s.Go? && s.piece == Plain(line[i])
    requires q == Scan(line, i + 1, s.ctx, s.esc) && q.Scanned? && ShowsAll(out, j + 1, q.pieces)
    ensures Scan(out, j, ctx, esc) == Scanned(q.ctx, PlainsFrom(out, j), Then(s.event, q.events))
    decreases |line| - i, 0
  {
    if !IsBlank(line[i]) {
      ScanCovers(line, i + 1, s.ctx, s.esc);
      Peek(line, i + 1, out, j + 1, q.pieces);
    }
    SameStep(line, i, out, j, ctx, esc);
    ScanGoes(out, j, ctx, esc, s);
    Rescan(line, i + 1, out, j + 1, s.ctx, s.esc);
  }

  /** Quoting a marker changes no flag, and it happens unescaped and outside quotes. */
  lemma QuotedStep(line: string, i: nat, ctx: Context, esc: bool)
    requires i < |line| && Step(line, i, ctx, esc).Go? && Step(line, i, ctx, esc).piece.Quoted?
    ensures var m := Step(line, i, ctx, esc).piece.marker;
      && Step(line, i, ctx, esc) == Go(ctx, false, Quoted(m), None) && Stands(m, line, i)
      && !esc && ctx.nest.slot && !Quoting(ctx)
  {
    MarkerStands(line, i);
  }

  /** Converting a converted line succeeds, changes nothing, and ends in the same context. */
  lemma LineIsIdempotent(line: string, ctx: Context)
    ensures match ScanLine(line, ctx)
      case Failed(_) => true
      case Scanned(next, pieces, events) =>
        var out := Render(pieces);
        var again := ScanLine(out, ctx);
        again.Scanned? && Render(again.pieces) == out && again.ctx == next && again.events == events
  {
    var r := ScanLine(line, ctx);
    if r.Scanned? {
      var out := Render(r.pieces);
      RenderShows("", r.pieces);
      assert "" + out == out;
      Rescan(line, 0, out, 0, ctx, false);
      PlainsRender(out, 0);
      assert out[0..] == out;
    }
  }

  /** Converting a converted file succeeds and changes nothing. */
  lemma {:induction false} ConversionIsIdempotent(lines: seq<string>, ctx: Context, n: nat)
    ensures var r := Convert(lines, ctx, n);
      r.Converted? ==> Convert(r.outs, ctx, n) == r
    decreases |lines|
  {
    if lines != [] {
      var r := ScanLine(lines[0], ctx);
      LineIsIdempotent(lines[0], ctx);
      if r.Scanned? {
        ConversionIsIdempotent(lines[1..], r.ctx, n + 1);
        var q := Convert(lines[1..], r.ctx, n + 1);
        if q.Converted? {
          assert ([Render(r.pieces)] + q.outs)[1..] == q.outs;
        }
      }
    }
  }
}
