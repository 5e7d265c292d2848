/** Reading entry by entry gives exactly what the entries stand for. */
module IncludeDbProofs {
  import opened Seqs
  import opened IncludeGraph
  import opened IncludeDb

  lemma DistinctSnoc(s: seq<File>, x: File)
    ensures Distinct(s + [x]) == AddIfAbsent(Distinct(s), x)
  {
    assert (s + [x])[..|s + [x]| - 1] == s;
  }

  lemma CollectSnoc(es: seq<Entry>, e: Entry, part: Entry -> seq<File>)
    ensures Collect(es + [e], part) == Collect(es, part) + part(e)
  {
    assert (es + [e])[..|es + [e]| - 1] == es;
  }

  /** What one more entry adds to each part of the description. */
  lemma NamedSnoc(es: seq<Entry>, e: Entry)
    ensures AllNamed(es + [e]) == AllNamed(es) + Named(e)
  {
    CollectSnoc(es, e, Named);
  }

  lemma PartsSnoc(es: seq<Entry>, e: Entry, f: File)
    ensures Includees(es + [e], f) == Includees(es, f) + IncludeesIn(e, f)
    ensures Pds(es + [e], f) == Pds(es, f) + PdsIn(e, f)
  {
    CollectSnoc(es, e, e => IncludeesIn(e, f));
    CollectSnoc(es, e, e => PdsIn(e, f));
  }

  /** A file that no entry names has no includees. */
  lemma {:induction false} UnnamedHasNothing(es: seq<Entry>, f: File)
    requires f !in AllNamed(es)
    ensures Includees(es, f) == [] && Pds(es, f) == []
  {
    if es != [] {
      var init, e := es[..|es| - 1], es[|es| - 1];
      assert es == init + [e];
      NamedSnoc(init, e);
      PartsSnoc(init, e, f);
      UnnamedHasNothing(init, f);
    }
  }

  ghost predicate AnyBad(es: seq<Entry>) {
    exists e :: e in es && Bad(e)
  }

  /** Interning is fatal just for an upper-case name, as no such name got in before. */
  lemma InternNames(d: Db, names: seq<File>, f: File)
    requires HasNames(d, names)
    ensures Intern(d, f) == None <==> StartsUpper(f)
    ensures Intern(d, f).Some? ==> HasNames(Intern(d, f).value, names + [f])
  {
    DistinctElems(names);
    DistinctSnoc(names, f);
  }

  lemma InternIncludees(d: Db, names: seq<File>, es: seq<Entry>, f: File)
    requires HasNames(d, names) && HasIncludees(d, es)
    requires forall x :: x in AllNamed(es) ==> x in names
    ensures Intern(d, f).Some? ==> HasIncludees(Intern(d, f).value, es)
  {
    DistinctElems(names);
    if f !in names {
      UnnamedHasNothing(es, f);
    }
  }

  lemma IncludeesSnoc(es: seq<Entry>, e: Entry, f: File)
    ensures Pds(es + [e], f) == if e.Quad? && f == e.foo then Pds(es, f) + [e.fooArch] else Pds(es, f)
    ensures Distinct(Includees(es + [e], f)) ==
      if e.Pair? && f == e.includer && !IsDirective(e.includee)
      then AddIfAbsent(Distinct(Includees(es, f)), e.includee) else Distinct(Includees(es, f))
  {
    PartsSnoc(es, e, f);
    if e.Pair? {
      DistinctSnoc(Includees(es, f), e.includee);
    }
    assert Includees(es, f) + [] == Includees(es, f);
    assert Pds(es, f) + [] == Pds(es, f);
  }

  lemma PairIncludees(d: Db, es: seq<Entry>, a: File, b: string)
    requires HasIncludees(d, es) && a in d.includes
    ensures HasIncludees(if IsDirective(b) then d else AddInclude(d, a, b), es + [Pair(a, b)])
  {
    forall f { IncludeesSnoc(es, Pair(a, b), f); }
  }

  lemma QuadIncludees(d: Db, es: seq<Entry>, e: Entry)
    requires HasIncludees(d, es) && e.Quad? && e.foo in d.pds
    ensures HasIncludees(AddPd(d, e.foo, e.fooArch), es + [e])
  {
    forall f { IncludeesSnoc(es, e, f); }
  }

  /** What one more entry does to the outer files and the marks. */
  ghost predicate MarksStep(d: Db, e: Entry, d': Db) {
    && d'.outers == (if e.Pair? then AddOuter(d, e.includer).outers else d.outers)
    && d'.refuses == d.refuses + (if e.Pair? && e.includee == NO_GRAND_INCLUDE then {e.includer} else {})
    && d'.marked == d.marked + if e.Quad? then {e.fooPd} else {}
  }

  /** Interning touches neither the outer files nor the marks. */
  ghost predicate SameMarks(d: Db, d': Db) {
    d'.outers == d.outers && d'.refuses == d.refuses && d'.marked == d.marked
  }

  lemma InternSteps(d: Db, f: File)
    ensures Intern(d, f).Some? ==> SameMarks(d, Intern(d, f).value)
  {}

  lemma ReadPairSteps(d: Db, a: File, b: string)
    requires Aligned(d)
    ensures ReadPair(d, a, b).Some? ==> MarksStep(d, Pair(a, b), ReadPair(d, a, b).value)
  {
    InternSteps(d, a);
    var r := ReadIncluder(d, a);
    if r.Some? && !IsDirective(b) {
      InternSteps(r.value, b);
    }
  }

  lemma ReadQuadSteps(d: Db, e: Entry)
    requires Aligned(d) && e.Quad?
    ensures ReadEntry(d, e).Some? ==> MarksStep(d, e, ReadEntry(d, e).value)
  {
    InternSteps(d, e.fooPd);
    var r := ReadMark(d, e.fooPd);
    if r.Some? {
      InternSteps(r.value, e.foo);
      var q := Intern(r.value, e.foo);
      if q.Some? {
        InternSteps(q.value, e.fooArch);
      }
    }
  }

  lemma EntryMarks(d: Db, es: seq<Entry>, e: Entry, d': Db)
    requires HasMarks(d, es) && MarksStep(d, e, d')
    ensures HasMarks(d', es + [e])
  {
    CollectSnoc(es, e, OutersIn);
    if e.Pair? {
      DistinctSnoc(Collect(es, OutersIn), e.includer);
    }
    assert Collect(es, OutersIn) + [] == Collect(es, OutersIn);
    forall f ensures f in d'.marked <==> exists x :: x in es + [e] && x.Quad? && x.fooPd == f {
      assert e in es + [e];
      if x :| x in es && x.Quad? && x.fooPd == f { assert x in es + [e]; }
    }
  }

  lemma ReadIncluderNames(d: Db, names: seq<File>, a: File)
    requires Aligned(d) && HasNames(d, names)
    ensures match ReadIncluder(d, a)
      case None => StartsUpper(a)
      case Some(r) => !StartsUpper(a) && HasNames(r, names + [a])
  {
    InternNames(d, names, a);
  }

  lemma ReadIncludeeNames(d: Db, names: seq<File>, a: File, b: File)
    requires Aligned(d) && HasNames(d, names) && a in d.files
    ensures match ReadIncludee(d, a, b)
      case None => StartsUpper(b)
      case Some(r) => !StartsUpper(b) && HasNames(r, names + [b])
  {
    InternNames(d, names, b);
  }

  lemma BadPair(a: File, b: string)
    ensures Bad(Pair(a, b)) <==>
      StartsUpper(a) || b == PLATFORM_DEPENDENT || (!IsDirective(b) && StartsUpper(b))
  {
    assert a in Named(Pair(a, b)) && (!IsDirective(b) ==> b in Named(Pair(a, b)));
  }

  predicate BadQuadWords(e: Entry)
    requires e.Quad?
  {
    || e.tag != PLATFORM_DEPENDENT || !InclNameFits(e.fooPd)
    || StartsUpper(e.fooPd) || StartsUpper(e.foo) || StartsUpper(e.fooArch)
  }

  lemma BadQuad(e: Entry)
    requires e.Quad?
    ensures Bad(e) <==> BadQuadWords(e)
  {
    assert e.foo in Named(e) && e.fooPd in Named(e) && e.fooArch in Named(e);
  }

  lemma ReadPairNames(d: Db, names: seq<File>, a: File, b: string)
    requires Aligned(d) && HasNames(d, names)
    ensures match ReadPair(d, a, b)
      case None => Bad(Pair(a, b))
      case Some(r) => !Bad(Pair(a, b)) && HasNames(r, names + Named(Pair(a, b)))
  {
    BadPair(a, b);
    ReadIncluderNames(d, names, a);
    if !StartsUpper(a) && !IsDirective(b) {
      ReadIncludeNames(d, names, a, b);
    }
  }

  lemma ReadIncludeNames(d: Db, names: seq<File>, a: File, b: File)
    requires Aligned(d) && HasNames(d, names) && ReadIncluder(d, a).Some?
    ensures match ReadIncludee(ReadIncluder(d, a).value, a, b)
      case None => StartsUpper(b)
      case Some(r) => !StartsUpper(b) && HasNames(r, names + [a, b])
  {
    ReadIncluderNames(d, names, a);
    ReadIncludeeNames(ReadIncluder(d, a).value, names + [a], a, b);
    assert names + [a] + [b] == names + [a, b];
  }

  lemma ReadPairIncludees(d: Db, es: seq<Entry>, a: File, b: string)
    requires Aligned(d) && HasNames(d, AllNamed(es)) && HasIncludees(d, es)
    ensures var r := ReadPair(d, a, b);
      r.Some? ==> HasIncludees(r.value, es + [Pair(a, b)])
  {
    if ReadPair(d, a, b).Some? {
      var names, d1 := AllNamed(es), Intern(d, a).value;
      InternBoth(d, names, es, a, d1);
      var d2 := AddOuter(d1, a);
      if IsDirective(b) {
        PairIncludees(d2, es, a, b);
      } else {
        var d3 := Intern(d2, b).value;
        InternBoth(d2, names + [a], es, b, d3);
        PairIncludees(d3, es, a, b);
      }
    }
  }

  lemma ReadPdNames(d: Db, names: seq<File>, foo: File, fooArch: File)
    requires Aligned(d) && HasNames(d, names)
    ensures match ReadPd(d, foo, fooArch)
      case None => StartsUpper(foo) || StartsUpper(fooArch)
      case Some(r) => !StartsUpper(foo) && !StartsUpper(fooArch) && HasNames(r, names + [foo] + [fooArch])
  {
    InternNames(d, names, foo);
    if !StartsUpper(foo) {
      InternNames(Intern(d, foo).value, names + [foo], fooArch);
    }
  }

  lemma ReadMarkNames(d: Db, names: seq<File>, f: File)
    requires Aligned(d) && HasNames(d, names)
    ensures match ReadMark(d, f)
      case None => StartsUpper(f)
      case Some(r) => !StartsUpper(f) && HasNames(r, names + [f])
  {
    InternNames(d, names, f);
  }

  lemma ReadQuadNames(d: Db, names: seq<File>, e: Entry)
    requires Aligned(d) && HasNames(d, names) && e.Quad?
    ensures match ReadEntry(d, e)
      case None => BadQuadWords(e)
      case Some(r) => !BadQuadWords(e) && HasNames(r, names + Named(e))
  {
    ReadMarkNames(d, names, e.fooPd);
    if e.tag == PLATFORM_DEPENDENT && InclNameFits(e.fooPd) && !StartsUpper(e.fooPd) {
      ReadPdNames(ReadMark(d, e.fooPd).value, names + [e.fooPd], e.foo, e.fooArch);
      assert names + [e.fooPd] + [e.foo] + [e.fooArch] == names + Named(e);
    }
  }

  lemma InternBoth(d: Db, names: seq<File>, es: seq<Entry>, f: File, r: Db)
    requires HasNames(d, names) && HasIncludees(d, es) && Intern(d, f) == Some(r)
    requires Elems(AllNamed(es)) <= Elems(names)
    ensures HasNames(r, names + [f]) && HasIncludees(r, es)
    ensures Elems(AllNamed(es)) <= Elems(names + [f])
  {
    assert forall x :: x in AllNamed(es) ==> x in Elems(AllNamed(es));
    InternNames(d, names, f);
    InternIncludees(d, names, es, f);
  }

  lemma ReadQuadIncludees(d: Db, es: seq<Entry>, e: Entry)
    requires Aligned(d) && HasNames(d, AllNamed(es)) && HasIncludees(d, es) && e.Quad?
    ensures var r := ReadEntry(d, e);
      r.Some? ==> HasIncludees(r.value, es + [e])
  {
    if ReadEntry(d, e).Some? {
      var names, d1 := AllNamed(es), Intern(d, e.fooPd).value;
      InternBoth(d, names, es, e.fooPd, d1);
      var m := AddMark(d1, e.fooPd);
      var d2 := Intern(m, e.foo).value;
      InternBoth(m, names + [e.fooPd], es, e.foo, d2);
      var d3 := Intern(d2, e.fooArch).value;
      InternBoth(d2, names + [e.fooPd] + [e.foo], es, e.fooArch, d3);
      QuadIncludees(d3, es, e);
    }
  }

  lemma {:induction false} ReadEntryDescribes(d: Db, es: seq<Entry>, e: Entry)
    requires Aligned(d) && Describes(d, es)
    ensures match ReadEntry(d, e)
      case None => Bad(e)
      case Some(r) => !Bad(e) && Describes(r, es + [e])
  {
    NamedSnoc(es, e);
    match e {
      case Pair(a, b) =>
        ReadPairNames(d, AllNamed(es), a, b);
        ReadPairIncludees(d, es, a, b);
        ReadPairSteps(d, a, b);
      case Quad(_, _, _, _) =>
        BadQuad(e);
        ReadQuadNames(d, AllNamed(es), e);
        ReadQuadIncludees(d, es, e);
        ReadQuadSteps(d, e);
    }
    var r := ReadEntry(d, e);
    if r.Some? {
      EntryMarks(d, es, e, r.value);
    }
  }

  /**
   * Reading is fatal exactly when an entry is bad. Otherwise the database read is the one the
   * entries stand for: distinct names, and each include list in first-occurrence order.
   */
  lemma {:induction false} ReadDescribes(es: seq<Entry>)
    ensures match Read(es)
      case None => AnyBad(es)
      case Some(d) => !AnyBad(es) && Describes(d, es)
  {
    if es != [] {
      var init, e := es[..|es| - 1], es[|es| - 1];
      ReadDescribes(init);
      assert es == init + [e];
      assert AnyBad(es) <==> AnyBad(init) || Bad(e);
      if !AnyBad(init) {
        var d := Read(init).value;
        ReadEntryDescribes(d, init, e);
      }
    }
  }

  lemma InternKeepsOk(d: Db, f: File)
    requires Ok(d)
    ensures Intern(d, f).Some? ==> Ok(Intern(d, f).value)
  {}

  lemma AddIncludeKeepsOk(d: Db, f: File, x: File)
    requires Ok(d) && f in d.files && x in d.files
    ensures Ok(AddInclude(d, f, x))
  {}

  lemma AddPdKeepsOk(d: Db, f: File, x: File)
    requires Ok(d) && f in d.files && x in d.files
    ensures Ok(AddPd(d, f, x))
  {}

  lemma AddOuterKeepsOk(d: Db, f: File)
    requires Ok(d) && f in d.files
    ensures Ok(AddOuter(d, f))
  {}

  /** Names stay distinct, and every includee, outer file and platform-dependent includee has an entry. */
  lemma ReadEntryKeepsOk(d: Db, e: Entry)
    requires Ok(d)
    ensures ReadEntry(d, e).Some? ==> Ok(ReadEntry(d, e).value)
  {
    if ReadEntry(d, e).Some? {
      match e
      case Pair(a, b) =>
        InternKeepsOk(d, a);
        AddOuterKeepsOk(Intern(d, a).value, a);
        var d2 := AddOuter(Intern(d, a).value, a);
        if !IsDirective(b) {
          InternKeepsOk(d2, b);
          AddIncludeKeepsOk(Intern(d2, b).value, a, b);
        }
      case Quad(_, foo, fooPd, fooArch) =>
        InternKeepsOk(d, fooPd);
        var d1 := AddMark(Intern(d, fooPd).value, fooPd);
        InternKeepsOk(d1, foo);
        var d2 := Intern(d1, foo).value;
        InternKeepsOk(d2, fooArch);
        AddPdKeepsOk(Intern(d2, fooArch).value, foo, fooArch);
    }
  }

  lemma {:induction false} ReadIsOk(es: seq<Entry>)
    ensures Read(es).Some? ==> Ok(Read(es).value)
  {
    if es != [] {
      ReadIsOk(es[..|es| - 1]);
      var r := Read(es[..|es| - 1]);
      if r.Some? {
        ReadEntryKeepsOk(r.value, es[|es| - 1]);
      }
    }
  }

  /** Every outer file has one of the suffixes of an outer file. */
  lemma {:induction false} OutersAreOuter(es: seq<Entry>)
    ensures Read(es).Some? ==> forall c :: c in Read(es).value.outers ==> IsOuter(c)
  {
    if es != [] {
      OutersAreOuter(es[..|es| - 1]);
      var r, e := Read(es[..|es| - 1]), es[|es| - 1];
      if r.Some? {
        match e
        case Pair(a, b) => ReadPairSteps(r.value, a, b);
        case Quad(_, _, _, _) => ReadQuadSteps(r.value, e);
      }
    }
  }

  lemma OuterHasDot(f: File)
    requires IsOuter(f)
    ensures '.' in f
  {
    assert forall x: string :: HasSuffix(f, x) && x != "" ==> x[0] == f[|f| - |x|];
  }
}
