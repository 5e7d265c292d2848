/** Files without quotes and backslashes: which are converted can be told by counting brackets. */
module PrivacyBrackets {
  import opened Seqs
  import opened PrivacyScan
  import opened PrivacyText
  import opened PrivacyContext

  /** Round and square brackets opened, less those closed. */
  function Surplus(s: string): int {
    if s == "" then 0 else
    Surplus(s[..|s| - 1]) +
      match s[|s| - 1]
      case '(' => 1
      case '[' => 1
      case ')' => -1
      case ']' => -1
      case _ => 0
  }

  ghost predicate HasNoQuotes(s: string) {
    '\'' !in s && '"' !in s && '\\' !in s
  }

  /** Nowhere were more brackets closed than `h` and those opened. */
  ghost predicate NoneUnmatched(s: string, h: int) {
    forall p :: 0 <= p <= |s| ==> h + Surplus(s[..p]) >= 0
  }

  lemma {:induction false} NoBackslashes(line: string, p: nat)
    requires p <= |line| && HasNoQuotes(line)
    ensures !Escaped(line, p)
  {}

  /** Without quotes, the brackets open at a position are those of the text before it. */
  lemma {:induction false} HeightIsSurplus(line: string, from: Place, p: nat)
    requires p <= |line| && HasNoQuotes(line) && from.open == None
    ensures After(line, from, p).open == None
    ensures Height(After(line, from, p).past) == Height(from.past) + Surplus(line[..p])
    decreases p
  {
    if p > 0 {
      HeightIsSurplus(line, from, p - 1);
      assert line[..p][..p - 1] == line[..p - 1] && line[..p][p - 1] == line[p - 1];
      assert line[p - 1] in line;
    }
  }

  lemma TroubleIsUnmatched(line: string, from: Place, p: nat)
    requires p < |line| && HasNoQuotes(line) && from.open == None
    ensures Trouble(line, from, p)
      <==> line[p] in {')', ']'} && Height(from.past) + Surplus(line[..p + 1]) < 0
  {
    NoBackslashes(line, p);
    HeightIsSurplus(line, from, p);
    assert line[..p + 1][..p] == line[..p] && line[..p + 1][p] == line[p];
  }

  /** Such a line holds no trouble exactly if no bracket in it is unmatched. */
  lemma TroubleFree(line: string, from: Place)
    requires HasNoQuotes(line) && from.open == None && Height(from.past) >= 0
    ensures (forall p :: 0 <= p < |line| ==> !Trouble(line, from, p)) <==> NoneUnmatched(line, Height(from.past))
  {
    var h := Height(from.past);
    if NoneUnmatched(line, h) {
      forall p | 0 <= p < |line| ensures !Trouble(line, from, p) {
        TroubleIsUnmatched(line, from, p);
      }
    } else {
      var p := FirstUnmatched(line, h);
      TroubleIsUnmatched(line, from, p);
    }
  }

  lemma FirstUnmatched(line: string, h: int) returns (p: nat)
    requires h >= 0 && !NoneUnmatched(line, h)
    ensures p < |line| && line[p] in {')', ']'} && h + Surplus(line[..p + 1]) < 0
  {
    var q :| 0 <= q <= |line| && h + Surplus(line[..q]) < 0;
    p := 0;
    while h + Surplus(line[..p + 1]) >= 0
      invariant p < q && h + Surplus(line[..p]) >= 0
      decreases q - p
    {
      p := p + 1;
    }
    assert line[..p + 1][..p] == line[..p] && line[..p + 1][p] == line[p];
  }

  /** The text of a file. */
  function Joined(lines: seq<string>): string {
    if lines == [] then "" else lines[0] + Joined(lines[1..])
  }

  lemma {:induction false} SurplusJoin(a: string, b: string)
    ensures Surplus(a + b) == Surplus(a) + Surplus(b)
    decreases |b|
  {
    if b == "" {
      assert a + b == a;
    } else {
      assert (a + b)[..|a + b| - 1] == a + b[..|b| - 1];
      SurplusJoin(a, b[..|b| - 1]);
    }
  }

  lemma PrefixSurplus(a: string, b: string, p: nat)
    requires p <= |a| + |b|
    ensures Surplus((a + b)[..p]) == if p <= |a| then Surplus(a[..p]) else Surplus(a) + Surplus(b[..p - |a|])
  {
    if p <= |a| {
      assert (a + b)[..p] == a[..p];
    } else {
      assert (a + b)[..p] == a + b[..p - |a|];
      SurplusJoin(a, b[..p - |a|]);
    }
  }

  lemma UnmatchedSplits(a: string, b: string, h: int)
    requires NoneUnmatched(a + b, h)
    ensures NoneUnmatched(a, h) && NoneUnmatched(b, h + Surplus(a))
  {
    forall p | 0 <= p <= |a| ensures h + Surplus(a[..p]) >= 0 {
      PrefixSurplus(a, b, p);
    }
    forall p | 0 <= p <= |b| ensures h + Surplus(a) + Surplus(b[..p]) >= 0 {
      PrefixSurplus(a, b, |a| + p);
      assert a[..|a|] == a && b[..0] == "";
    }
  }

  lemma UnmatchedJoins(a: string, b: string, h: int)
    requires NoneUnmatched(a, h) && NoneUnmatched(b, h + Surplus(a))
    ensures NoneUnmatched(a + b, h)
  {
    forall p | 0 <= p <= |a + b| ensures h + Surplus((a + b)[..p]) >= 0 {
      PrefixSurplus(a, b, p);
    }
  }

  lemma {:induction false} AcceptedIsMatched(lines: seq<string>, from: Place)
    requires (forall line :: line in lines ==> HasNoQuotes(line)) && from.open == None && Height(from.past) >= 0
    ensures Accepted(lines, from) <==> NoneUnmatched(Joined(lines), Height(from.past))
    ensures Height(AfterAll(lines, from).past) == Height(from.past) + Surplus(Joined(lines))
    decreases |lines|
  {
    if lines != [] {
      var line, h := lines[0], Height(from.past);
      assert line in lines && line[..|line|] == line;
      var next := After(line, from, |line|);
      HeightIsSurplus(line, from, |line|);
      TroubleFree(line, from);
      if NoneUnmatched(Joined(lines), h) {
        UnmatchedSplits(line, Joined(lines[1..]), h);
      } else if NoneUnmatched(line, h) && NoneUnmatched(Joined(lines[1..]), h + Surplus(line)) {
        UnmatchedJoins(line, Joined(lines[1..]), h);
      }
      SurplusJoin(line, Joined(lines[1..]));
      if Height(next.past) >= 0 {
        AcceptedIsMatched(lines[1..], next);
      } else {
        assert h + Surplus(line[..|line|]) < 0;
        HeightsAdd(lines[1..], next);
      }
    }
  }

  lemma {:induction false} HeightsAdd(lines: seq<string>, from: Place)
    requires (forall line :: line in lines ==> HasNoQuotes(line)) && from.open == None
    ensures Height(AfterAll(lines, from).past) == Height(from.past) + Surplus(Joined(lines))
    decreases |lines|
  {
    if lines != [] {
      var line := lines[0];
      assert line in lines && line[..|line|] == line;
      HeightIsSurplus(line, from, |line|);
      HeightsAdd(lines[1..], After(line, from, |line|));
      SurplusJoin(line, Joined(lines[1..]));
    }
  }

  /**
   * A file without quotes and backslashes is converted if and only if no part from its start closes more
   * brackets than it opens; and then so many flags are saved as there are brackets open at its end.
   */
  lemma BracketsDecide(lines: seq<string>)
    requires forall line :: line in lines ==> HasNoQuotes(line)
    ensures var r, text := Convert(lines, StartContext(), 0), Joined(lines);
      && (r.Converted? <==> forall p :: 0 <= p <= |text| ==> Surplus(text[..p]) >= 0)
      && (r.Converted? ==> Length(r.ctx.nest.stack) == Surplus(text))
  {
    StartMatches();
    ConvertAgrees(lines, StartPlace(), StartContext(), 0);
    AcceptedIsMatched(lines, StartPlace());
  }

  /** So is a single line. */
  lemma BracketsOfLine(line: string)
    requires HasNoQuotes(line)
    ensures var r := ScanLine(line, StartContext());
      && (r.Scanned? <==> forall p :: 0 <= p <= |line| ==> Surplus(line[..p]) >= 0)
      && (r.Scanned? ==> Length(r.ctx.nest.stack) == Surplus(line))
  {
    StartMatches();
    ScanAgrees(line, StartPlace(), 0, StartContext(), false);
    TroubleFree(line, StartPlace());
    HeightIsSurplus(line, StartPlace(), |line|);
    assert line[..|line|] == line;
  }
}
