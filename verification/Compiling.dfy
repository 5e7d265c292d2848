/** What the compiler reads of the files written: the includes of an outer file, followed through their text. */
module Compiling {
  import opened Seqs
  import opened IncludeGraph
  import opened IncludeDb
  import opened Planning
  import opened Computing
  import opened Outputs
  import opened Incremental
  import opened Generation

  /** The file that a line includes, if it is an include. */
  function IncludedBy(line: string): Option<File> {
    if |line| >= 12 && line[..11] == "# include \"" && line[|line| - 1] == '"' then Some(line[11..|line| - 1]) else None
  }

  /** Whether the line behind `lines` is compiled, by the conditions before it. */
  function Active(lines: seq<string>, cplusplus: bool): bool {
    if lines == [] then true else
    var last := lines[|lines| - 1];
    if last == IF_CPLUSPLUS then cplusplus
    else last == END_IF || Active(lines[..|lines| - 1], cplusplus)
  }

  /** What `lines` include, in order. */
  function Reads(lines: seq<string>, cplusplus: bool): seq<File> {
    if lines == [] then [] else
    var init, line := lines[..|lines| - 1], IncludedBy(lines[|lines| - 1]);
    if line.Some? && Active(init, cplusplus) then Reads(init, cplusplus) + [line.value] else Reads(init, cplusplus)
  }

  function LinesAt(disk: Disk, path: string): seq<string> {
    if path in disk && disk[path].Text? then disk[path].lines else []
  }

  /** The grand include file among `names` replaced by what it includes. */
  function Expanded(disk: Disk, names: seq<File>, cplusplus: bool): seq<File> {
    if names == [] then [] else
    var last := names[|names| - 1];
    Expanded(disk, names[..|names| - 1], cplusplus)
      + if last == GI_NAME then Reads(LinesAt(disk, GI_PATH), cplusplus) else [last]
  }

  /** The headers that the include file of the outer file `f` gives it. */
  function Compiled(disk: Disk, f: File): seq<File> {
    Expanded(disk, Reads(LinesAt(disk, InclPath(f)), IsCplusplus(f)), IsCplusplus(f))
  }

  lemma IncludeLineIsRead(f: File)
    ensures IncludedBy(IncludeLine(f)) == Some(f)
    ensures IncludeLine(f) != IF_CPLUSPLUS && IncludeLine(f) != END_IF
  {
    var line := IncludeLine(f);
    assert line[..11] == "# include \"" && line[11..|line| - 1] == f;
    assert line[..11][3] != IF_CPLUSPLUS[3] && line[..11][2] != END_IF[2];
  }

  lemma ReadsLine(lines: seq<string>, line: string, cplusplus: bool)
    ensures Active(lines + [line], cplusplus) ==
      if line == IF_CPLUSPLUS then cplusplus else line == END_IF || Active(lines, cplusplus)
    ensures Reads(lines + [line], cplusplus) ==
      if IncludedBy(line).Some? && Active(lines, cplusplus) then Reads(lines, cplusplus) + [IncludedBy(line).value]
      else Reads(lines, cplusplus)
  {
    assert (lines + [line])[..|lines|] == lines;
  }

  lemma ReadsInclude(lines: seq<string>, f: File, cplusplus: bool)
    ensures Active(lines + [IncludeLine(f)], cplusplus) == Active(lines, cplusplus)
    ensures Reads(lines + [IncludeLine(f)], cplusplus) ==
      if Active(lines, cplusplus) then Reads(lines, cplusplus) + [f] else Reads(lines, cplusplus)
  {
    IncludeLineIsRead(f);
    ReadsLine(lines, IncludeLine(f), cplusplus);
  }

  /** Include lines condition nothing, and are read where lines are compiled. */
  lemma {:induction false} ActiveBehind(before: seq<string>, fs: seq<File>, cplusplus: bool)
    ensures Active(before + IncludeLines(fs), cplusplus) == Active(before, cplusplus)
  {
    if fs == [] {
      assert before + IncludeLines(fs) == before;
    } else {
      var init, last := fs[..|fs| - 1], fs[|fs| - 1];
      ActiveBehind(before, init, cplusplus);
      ReadsInclude(before + IncludeLines(init), last, cplusplus);
      Associative(before, IncludeLines(init), [IncludeLine(last)]);
    }
  }

  lemma {:induction false} ReadsIncludes(before: seq<string>, fs: seq<File>, cplusplus: bool)
    requires Active(before, cplusplus)
    ensures Reads(before + IncludeLines(fs), cplusplus) == Reads(before, cplusplus) + fs
  {
    if fs == [] {
      assert before + IncludeLines(fs) == before;
    } else {
      var init, last, lines := fs[..|fs| - 1], fs[|fs| - 1], before + IncludeLines(fs[..|fs| - 1]);
      ReadsIncludes(before, init, cplusplus);
      ActiveBehind(before, init, cplusplus);
      ReadsInclude(lines, last, cplusplus);
      SplitLast(before, Reads(before, cplusplus), fs);
    }
  }

  lemma {:induction false} SkipsIncludes(before: seq<string>, fs: seq<File>, cplusplus: bool)
    requires !Active(before, cplusplus)
    ensures Reads(before + IncludeLines(fs), cplusplus) == Reads(before, cplusplus)
  {
    if fs == [] {
      assert before + IncludeLines(fs) == before;
    } else {
      var init, last, lines := fs[..|fs| - 1], fs[|fs| - 1], before + IncludeLines(fs[..|fs| - 1]);
      SkipsIncludes(before, init, cplusplus);
      ActiveBehind(before, init, cplusplus);
      ReadsInclude(lines, last, cplusplus);
      SplitLast(before, [], fs);
    }
  }

  lemma SplitLast(before: seq<string>, read: seq<File>, fs: seq<File>)
    requires fs != []
    ensures var init, last := fs[..|fs| - 1], fs[|fs| - 1];
      && before + IncludeLines(fs) == before + IncludeLines(init) + [IncludeLine(last)]
      && read + fs == read + init + [last]
  {
    var init, last := fs[..|fs| - 1], fs[|fs| - 1];
    Associative(before, IncludeLines(init), [IncludeLine(last)]);
    assert fs == init + [last];
    Associative(read, init, [last]);
  }

  lemma NoInclude(line: string)
    requires line == "" || line == IF_CPLUSPLUS || line == END_IF
    ensures IncludedBy(line) == None
  {
    if line != "" {
      assert line[..11][2] != "# include \""[2] || line[..11][3] != "# include \""[3];
    }
  }

  /** The grand include file includes its headers for C++, and nothing otherwise. */
  lemma GrandIsRead(p: Plan, cplusplus: bool)
    ensures Reads(GrandContent(p).lines, cplusplus) == if cplusplus then GrandFiles(p) else []
  {
    HeadIsRead(cplusplus);
    if cplusplus {
      ReadsIncludes(GrandHead(), GrandFiles(p), cplusplus);
      assert [] + GrandFiles(p) == GrandFiles(p);
    } else {
      SkipsIncludes(GrandHead(), GrandFiles(p), cplusplus);
    }
    TailIsRead(GrandHead() + IncludeLines(GrandFiles(p)), cplusplus);
  }

  lemma HeadIsRead(cplusplus: bool)
    ensures Reads(GrandHead(), cplusplus) == [] && Active(GrandHead(), cplusplus) == cplusplus
  {
    NoInclude(IF_CPLUSPLUS);
    NoInclude("");
    ReadsLine([], IF_CPLUSPLUS, cplusplus);
    ReadsLine([] + [IF_CPLUSPLUS], "", cplusplus);
    assert [] + [IF_CPLUSPLUS] + [""] == GrandHead();
  }

  lemma TailIsRead(lines: seq<string>, cplusplus: bool)
    ensures Reads(lines + GrandTail(), cplusplus) == Reads(lines, cplusplus)
  {
    NoInclude("");
    NoInclude(END_IF);
    ReadsLine(lines, "", cplusplus);
    ReadsLine(lines + [""], "", cplusplus);
    ReadsLine(lines + [""] + [""], END_IF, cplusplus);
    assert lines + [""] + [""] + [END_IF] == lines + GrandTail();
  }

  /** The include file of an outer file names the grand include file, if that is permitted, and what was kept. */
  lemma InclIsRead(p: Plan, l: Listing, cplusplus: bool)
    ensures Reads(InclContent(p, l).lines, cplusplus) == (if l.permitted then [GI_NAME] else []) + Kept(p, l)
  {
    InclHeadIsRead(l.permitted, cplusplus);
    ReadsIncludes(InclHead(l.permitted), Kept(p, l), cplusplus);
  }

  lemma InclHeadIsRead(permitted: bool, cplusplus: bool)
    ensures Active(InclHead(permitted), cplusplus)
    ensures Reads(InclHead(permitted), cplusplus) == if permitted then [GI_NAME] else []
  {
    ReadsInclude([], GI_NAME, cplusplus);
    assert [] + [IncludeLine(GI_NAME)] == [IncludeLine(GI_NAME)] && [] + [GI_NAME] == [GI_NAME];
  }

  lemma {:induction false} ExpandedJoin(disk: Disk, names: seq<File>, fs: seq<File>, cplusplus: bool)
    requires GI_NAME !in fs
    ensures Expanded(disk, names + fs, cplusplus) == Expanded(disk, names, cplusplus) + fs
    decreases |fs|
  {
    if fs == [] {
      assert names + fs == names;
    } else {
      var init, last := fs[..|fs| - 1], fs[|fs| - 1];
      ExpandedJoin(disk, names, init, cplusplus);
      assert (names + fs)[..|names + fs| - 1] == names + init;
      Associative(Expanded(disk, names, cplusplus), init, [last]);
      assert fs == init + [last];
    }
  }

  /** The files written show an outer file what the plan says it sees. */
  lemma CompiledIsSeen(disk: Disk, p: Plan, l: Listing)
    requires HoldsListing(disk, p, l) && HoldsGrand(disk, p) && GI_NAME !in Kept(p, l)
    ensures Compiled(disk, l.name) == SeenBy(p, l)
  {
    var cplusplus := IsCplusplus(l.name);
    InclIsRead(p, l, cplusplus);
    GrandIsRead(p, cplusplus);
    ExpandedJoin(disk, if l.permitted then [GI_NAME] else [], Kept(p, l), cplusplus);
    if l.permitted {
      ExpandedGrand(disk, cplusplus);
    }
  }

  lemma ExpandedGrand(disk: Disk, cplusplus: bool)
    ensures Expanded(disk, [GI_NAME], cplusplus) == Reads(LinesAt(disk, GI_PATH), cplusplus)
  {
    var read := Reads(LinesAt(disk, GI_PATH), cplusplus);
    assert [GI_NAME][..0] == [] && [] + read == read;
  }

  /**
   * After a run from scratch, compiling an outer file meets every file of its closure, none twice,
   * if and only if it is C++, may not use the grand include file, or needs nothing in it; and then
   * each file comes after all it includes.
   */
  lemma RunShowsClosure(disk: Disk, es: seq<Entry>, threshold: int, k: nat)
    requires Computable(es) && k < |PlanFor(es, threshold).listings|
    requires GI_NAME !in PlanFor(es, threshold).listings[k].files
    ensures var p := PlanFor(es, threshold);
      var l, g := p.listings[k], Read(es).value.includes;
      var seen := Compiled(AfterAbsolute(disk, es, threshold), l.name);
      && seen == SeenBy(p, l) && NoDup(seen)
      && ((forall x :: x in l.files ==> x in seen) <==> SeesAll(p, l))
      && (SeesAll(p, l) ==> Ordered(g, seen))
  {
    var p := PlanFor(es, threshold);
    var l := p.listings[k];
    PlanForIsGood(es, threshold);
    PutAllHolds(PutPds(disk, es), p);
    FilterElems(l.files, NotInGrand(p, l.permitted));
    CompiledIsSeen(AfterAbsolute(disk, es, threshold), p, l);
    SplitKeepsOrder(Read(es).value.includes, p, l);
  }
}
