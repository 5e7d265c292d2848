/** What the lines of a database say, word by word: each part of what is read, and each line that is refused. */
module Reading {
  import opened Seqs
  import opened IncludeGraph
  import opened IncludeDb
  import opened IncludeDbProofs

  lemma {:induction false} CollectElems(es: seq<Entry>, part: Entry -> seq<File>, x: File)
    ensures x in Collect(es, part) <==> exists e :: e in es && x in part(e)
  {
    if es != [] {
      var init, last := es[..|es| - 1], es[|es| - 1];
      CollectElems(init, part, x);
      assert forall e :: e in es <==> e in init || e == last by { assert es == init + [last]; }
    }
  }

  /** Of two distinct things collected, the earlier was given before the later was. */
  ghost predicate GivenBefore(es: seq<Entry>, part: Entry -> seq<File>, x: File, y: File) {
    exists k :: 0 <= k < |es| && x in part(es[k]) && forall m :: 0 <= m <= k ==> y !in part(es[m])
  }

  lemma {:induction false} CollectInOrder(es: seq<Entry>, part: Entry -> seq<File>, i: nat, j: nat)
    requires forall e :: |part(e)| <= 1
    requires i < j < |Distinct(Collect(es, part))|
    ensures var s := Distinct(Collect(es, part)); GivenBefore(es, part, s[i], s[j])
  {
    var init, e := es[..|es| - 1], es[|es| - 1];
    assert es == init + [e];
    var was, s := Distinct(Collect(init, part)), Distinct(Collect(es, part));
    DistinctMoreThanOne(Collect(init, part), part(e));
    DistinctElems(Collect(init, part));
    if j < |was| {
      CollectInOrder(init, part, i, j);
      var k :| 0 <= k < |init| && s[i] in part(init[k]) && forall m :: 0 <= m <= k ==> s[j] !in part(init[m]);
      assert s[i] in part(es[k]) && forall m :: 0 <= m <= k ==> s[j] !in part(es[m]);
    } else {
      assert s[i] in was && s[i] in Collect(init, part) && s[j] !in Collect(init, part);
      CollectElems(init, part, s[i]);
      CollectElems(init, part, s[j]);
      var f :| f in init && s[i] in part(f);
      var k :| 0 <= k < |init| && init[k] == f;
      assert s[i] in part(es[k]);
      forall m | 0 <= m <= k ensures s[j] !in part(es[m]) {
        assert es[m] == init[m] && init[m] in init;
      }
    }
  }

  lemma DistinctMoreThanOne(s: seq<File>, more: seq<File>)
    requires |more| <= 1
    ensures Distinct(s + more) == if more == [] then Distinct(s) else AddIfAbsent(Distinct(s), more[0])
  {
    if more == [] {
      assert s + more == s;
    } else {
      assert more == [more[0]];
      DistinctSnoc(s, more[0]);
    }
  }

  /**
   * The lines that end the run: an old-style pair; four words of which the first is not the directive, or
   * with a third too long to be put between "_" and ".incl"; or any name of a file in upper case.
   */
  lemma ReadingFails(es: seq<Entry>)
    ensures Read(es) == None <==> exists e :: e in es && match e
      case Pair(a, b) =>
        || (a != "" && 'A' <= a[0] <= 'Z')
        || b == "generate_platform_dependent_include"
        || (b != "no_precompiled_headers" && b != "" && 'A' <= b[0] <= 'Z')
      case Quad(tag, a, b, c) =>
        || tag != "generate_platform_dependent_include" || |b| > 249
        || (a != "" && 'A' <= a[0] <= 'Z') || (b != "" && 'A' <= b[0] <= 'Z') || (c != "" && 'A' <= c[0] <= 'Z')
  {
    ReadDescribes(es);
    forall e { BadEntry(e); }
  }

  lemma BadEntry(e: Entry)
    ensures Bad(e) <==> match e
      case Pair(a, b) => StartsUpper(a) || b == PLATFORM_DEPENDENT || (!IsDirective(b) && StartsUpper(b))
      case Quad(_, _, _, _) => BadQuadWords(e)
  {
    match e
    case Pair(a, b) => BadPair(a, b);
    case Quad(_, _, _, _) => BadQuad(e);
  }

  lemma PairedIsNamed(es: seq<Entry>, f: File, x: File)
    requires Pair(f, x) in es
    ensures f in AllNamed(es)
  {
    CollectElems(es, Named, f);
    assert f in Named(Pair(f, x));
  }

  lemma IncludeesAreGiven(es: seq<Entry>, f: File, x: File)
    ensures x in Distinct(Includees(es, f)) <==> Pair(f, x) in es && !IsDirective(x)
  {
    CollectElems(es, e => IncludeesIn(e, f), x);
    DistinctElems(Includees(es, f));
    if Pair(f, x) in es && !IsDirective(x) {
      assert x in IncludeesIn(Pair(f, x), f);
    }
  }

  /** What a file includes is what the pairs give it, the two directives excluded. */
  lemma IncludesAreGiven(es: seq<Entry>, f: File, x: File)
    requires Read(es).Some?
    ensures var g := Read(es).value.includes;
      (f in g && x in g[f]) <==> Pair(f, x) in es && x != "no_precompiled_headers"
  {
    ReadDescribes(es);
    IncludeesAreGiven(es, f, x);
    if Pair(f, x) in es {
      PairedIsNamed(es, f, x);
      assert !Bad(Pair(f, x)) && x != PLATFORM_DEPENDENT;
    }
  }

  /** In the order in which the pairs first give them. */
  lemma IncludesAreInOrder(es: seq<Entry>, f: File, i: nat, j: nat)
    requires Read(es).Some? && f in Read(es).value.includes && i < j < |Read(es).value.includes[f]|
    ensures var s := Read(es).value.includes[f];
      s[i] != s[j] && exists k :: 0 <= k < |es| && es[k] == Pair(f, s[i]) && Pair(f, s[j]) !in es[..k]
  {
    var s := Read(es).value.includes[f];
    ReadDescribes(es);
    DistinctElems(Includees(es, f));
    CollectInOrder(es, e => IncludeesIn(e, f), i, j);
    IncludesAreGiven(es, f, s[j]);
    IncludeBefore(es, f, s[i], s[j]);
  }

  lemma IncludeBefore(es: seq<Entry>, f: File, x: File, y: File)
    requires GivenBefore(es, e => IncludeesIn(e, f), x, y) && !IsDirective(y)
    ensures exists k :: 0 <= k < |es| && es[k] == Pair(f, x) && Pair(f, y) !in es[..k]
  {
    var k :| 0 <= k < |es| && x in IncludeesIn(es[k], f) && forall m :: 0 <= m <= k ==> y !in IncludeesIn(es[m], f);
    assert es[k] == Pair(f, x);
    forall m | 0 <= m < k ensures es[m] != Pair(f, y) {
      assert y !in IncludeesIn(es[m], f);
    }
  }

  lemma OuterNames(c: File)
    ensures IsOuter(c) <==> exists s :: c == s + ".cpp" || c == s + ".c" || c == s + ".s" || c == s + ".S"
  {
    forall suffix: string ensures HasSuffix(c, suffix) <==> exists s :: c == s + suffix {
      if HasSuffix(c, suffix) {
        assert c == c[..|c| - |suffix|] + suffix;
      }
    }
  }

  /** The outer files are those that some pair gives an includee or a directive, and that end in one of four ways. */
  lemma OuterFilesAre(es: seq<Entry>, c: File)
    requires Read(es).Some?
    ensures c in Read(es).value.outers <==>
      && (exists x :: Pair(c, x) in es)
      && (exists s :: c == s + ".cpp" || c == s + ".c" || c == s + ".s" || c == s + ".S")
  {
    ReadDescribes(es);
    DistinctElems(Collect(es, OutersIn));
    CollectElems(es, OutersIn, c);
    OuterNames(c);
    if e :| e in es && c in OutersIn(e) {
      assert e == Pair(c, e.includee);
    }
    if x :| Pair(c, x) in es {
      assert IsOuter(c) ==> c in OutersIn(Pair(c, x));
    }
  }

  /** Some pair of `c` stands before all those of `c'`. */
  ghost predicate PairedBefore(es: seq<Entry>, c: File, c': File) {
    exists k, x :: 0 <= k < |es| && es[k] == Pair(c, x) && forall y :: Pair(c', y) !in es[..k]
  }

  /** In the order of their first pairs. */
  lemma OuterFilesAreInOrder(es: seq<Entry>, i: nat, j: nat)
    requires Read(es).Some? && i < j < |Read(es).value.outers|
    ensures var s := Read(es).value.outers;
      s[i] != s[j] && PairedBefore(es, s[i], s[j])
  {
    OutersAreDistinct(es);
    GivenInOrder(es, i, j);
    DistinctElems(Collect(es, OutersIn));
  }

  lemma OutersAreDistinct(es: seq<Entry>)
    requires Read(es).Some?
    ensures Read(es).value.outers == Distinct(Collect(es, OutersIn))
  {
    ReadDescribes(es);
  }

  lemma GivenInOrder(es: seq<Entry>, i: nat, j: nat)
    requires i < j < |Distinct(Collect(es, OutersIn))|
    ensures var s := Distinct(Collect(es, OutersIn));
      PairedBefore(es, s[i], s[j])
  {
    var s := Distinct(Collect(es, OutersIn));
    DistinctElems(Collect(es, OutersIn));
    CollectElems(es, OutersIn, s[j]);
    CollectInOrder(es, OutersIn, i, j);
    OuterBefore(es, s[i], s[j]);
  }

  lemma OuterBefore(es: seq<Entry>, c: File, c': File)
    requires GivenBefore(es, OutersIn, c, c') && IsOuter(c')
    ensures PairedBefore(es, c, c')
  {
    var k :| 0 <= k < |es| && c in OutersIn(es[k]) && forall m :: 0 <= m <= k ==> c' !in OutersIn(es[m]);
    assert es[k] == Pair(c, es[k].includee);
    forall m, x | 0 <= m < k ensures es[m] != Pair(c', x) {
      assert c' !in OutersIn(es[m]);
    }
  }

  /** A pair with the first directive takes the grand include file from a file. */
  lemma RefusalsAreGiven(es: seq<Entry>, f: File)
    requires Read(es).Some?
    ensures f in Read(es).value.refuses <==> Pair(f, "no_precompiled_headers") in es
  {
    ReadDescribes(es);
  }

  lemma QuadHasTag(es: seq<Entry>, e: Entry)
    requires Read(es).Some? && e in es && e.Quad?
    ensures e == Quad("generate_platform_dependent_include", e.foo, e.fooPd, e.fooArch)
  {
    ReadDescribes(es);
    assert !Bad(e);
  }

  /** The third word of a line of four is not to be included directly. */
  lemma MarksAreGiven(es: seq<Entry>, f: File)
    requires Read(es).Some?
    ensures f in Read(es).value.marked
      <==> exists a, c :: Quad("generate_platform_dependent_include", a, f, c) in es
  {
    ReadDescribes(es);
    if e :| e in es && e.Quad? && e.fooPd == f {
      QuadHasTag(es, e);
    }
  }

  lemma PdsGiven(es: seq<Entry>, f: File, x: File)
    ensures x in Pds(es, f) <==> exists e :: e in es && e.Quad? && e.foo == f && e.fooArch == x
  {
    CollectElems(es, e => PdsIn(e, f), x);
    if e :| e in es && e.Quad? && e.foo == f && e.fooArch == x {
      assert x in PdsIn(e, f);
    }
  }

  /** On the fourth, what depends on the second depends, too. */
  lemma PdsAreGiven(es: seq<Entry>, f: File, x: File)
    requires Read(es).Some?
    ensures var d := Read(es).value;
      (f in d.pds && x in d.pds[f]) <==> exists b :: Quad("generate_platform_dependent_include", f, b, x) in es
  {
    ReadDescribes(es);
    PdsGiven(es, f, x);
    if e :| e in es && e.Quad? && e.foo == f && e.fooArch == x {
      QuadHasTag(es, e);
      QuadIsNamed(es, e);
    }
  }

  lemma QuadIsNamed(es: seq<Entry>, e: Entry)
    requires e in es && e.Quad?
    ensures e.foo in AllNamed(es)
  {
    CollectElems(es, Named, e.foo);
    assert e.foo in Named(e);
  }
}
