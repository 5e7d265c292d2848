/**
 * Reading the include database. `Read` applies the entries one after the other, as the program
 * does; `Described` says in one go what a list of entries stands for.
 */
module IncludeDb {
  import opened Seqs
  import opened IncludeGraph

  /** A line of two words, or of four. */
  datatype Entry =
    | Pair(includer: File, includee: string)
    | Quad(tag: string, foo: File, fooPd: File, fooArch: File)

  /**
   * files: all files, in the order they were interned; outers: the outer files;
   * refuses: files that cannot use the grand include; marked: files that are not to be
   * included directly; pds: the platform-dependent includees of each file.
   */
  datatype Db = Db(files: seq<File>, includes: Graph, outers: seq<File>,
                   refuses: set<File>, marked: set<File>, pds: map<File, seq<File>>)

  const NO_GRAND_INCLUDE := "no_precompiled_headers"
  const PLATFORM_DEPENDENT := "generate_platform_dependent_include"
  const NAME_LENGTH_LIMIT := 255

  function EmptyDb(): Db { Db([], map[], [], {}, {}, map[]) }

  ghost predicate Ok(d: Db) {
    && NoDup(d.files) && d.includes.Keys == Elems(d.files) && d.pds.Keys == Elems(d.files)
    && Closed(d.includes) && (forall f, x :: f in d.pds && x in d.pds[f] ==> x in d.files)
    && NoDup(d.outers) && (forall c :: c in d.outers ==> c in d.files)
  }

  /** Every file has its two lists. */
  ghost predicate Aligned(d: Db) {
    forall f :: f in d.files ==> f in d.includes && f in d.pds
  }

  /** What computing relies on: every includee and every outer file has an entry. */
  ghost predicate Sound(d: Db) {
    Closed(d.includes) && forall c :: c in d.outers ==> c in d.includes
  }

  /** Only files of the database are marked. */
  ghost predicate Known(d: Db) {
    forall f :: f in d.refuses || f in d.marked ==> f in d.files
  }

  predicate HasSuffix(s: string, suffix: string) {
    |suffix| <= |s| && s[|s| - |suffix|..] == suffix
  }

  predicate IsOuter(f: File) {
    HasSuffix(f, ".cpp") || HasSuffix(f, ".c") || HasSuffix(f, ".s") || HasSuffix(f, ".S")
  }

  predicate StartsUpper(f: File) {
    f != "" && 'A' <= f[0] <= 'Z'
  }

  /** "_" and ".incl" are put around the name of an include file. */
  predicate InclNameFits(f: File) {
    1 + |f| + 5 <= NAME_LENGTH_LIMIT
  }

  // ----- one entry after the other -----

  function Intern(d: Db, f: File): (r: Option<Db>)
    ensures r.Some? ==> f in r.value.files && forall x :: x in d.files ==> x in r.value.files
    ensures Aligned(d) && r.Some? ==> Aligned(r.value)
  {
    if f in d.files then Some(d)
    else if StartsUpper(f) then None
    else Some(d.(files := d.files + [f], includes := d.includes[f := []], pds := d.pds[f := []]))
  }

  function AddInclude(d: Db, f: File, x: File): (r: Db)
    requires f in d.includes
    ensures Aligned(d) ==> Aligned(r)
  {
    d.(includes := d.includes[f := AddIfAbsent(d.includes[f], x)])
  }

  function AddPd(d: Db, f: File, x: File): (r: Db)
    requires f in d.pds
    ensures Aligned(d) ==> Aligned(r)
  {
    d.(pds := d.pds[f := d.pds[f] + [x]])
  }

  function AddOuter(d: Db, f: File): (r: Db)
    ensures Aligned(d) ==> Aligned(r)
  {
    if IsOuter(f) then d.(outers := AddIfAbsent(d.outers, f)) else d
  }

  function AddMark(d: Db, f: File): (r: Db)
    ensures Aligned(d) ==> Aligned(r)
  {
    d.(marked := d.marked + {f})
  }

  function ReadIncluder(d: Db, includer: File): (r: Option<Db>)
    requires Aligned(d)
    ensures r.Some? ==> Aligned(r.value) && includer in r.value.files
  {
    match Intern(d, includer)
    case None => None
    case Some(d1) => Some(AddOuter(d1, includer))
  }

  function ReadIncludee(d: Db, includer: File, includee: File): (r: Option<Db>)
    requires Aligned(d) && includer in d.files
    ensures r.Some? ==> Aligned(r.value)
  {
    match Intern(d, includee)
    case None => None
    case Some(d1) => Some(AddInclude(d1, includer, includee))
  }

  function ReadPair(d: Db, includer: File, includee: string): (r: Option<Db>)
    requires Aligned(d)
    ensures r.Some? ==> Aligned(r.value)
  {
    match ReadIncluder(d, includer)
    case None => None
    case Some(d1) =>
      if includee == PLATFORM_DEPENDENT then None
      else if includee == NO_GRAND_INCLUDE then Some(d1.(refuses := d1.refuses + {includer}))
      else ReadIncludee(d1, includer, includee)
  }

  function ReadMark(d: Db, f: File): (r: Option<Db>)
    requires Aligned(d)
    ensures r.Some? ==> Aligned(r.value)
  {
    match Intern(d, f)
    case None => None
    case Some(d1) => Some(AddMark(d1, f))
  }

  function ReadPd(d: Db, foo: File, fooArch: File): (r: Option<Db>)
    requires Aligned(d)
    ensures r.Some? ==> Aligned(r.value)
  {
    match Intern(d, foo)
    case None => None
    case Some(d1) =>
      match Intern(d1, fooArch)
      case None => None
      case Some(d2) => Some(AddPd(d2, foo, fooArch))
  }

  function ReadQuad(d: Db, tag: string, foo: File, fooPd: File, fooArch: File): (r: Option<Db>)
    requires Aligned(d)
    ensures r.Some? ==> Aligned(r.value)
  {
    if tag != PLATFORM_DEPENDENT || !InclNameFits(fooPd) then None else
    match ReadMark(d, fooPd)
    case None => None
    case Some(d1) => ReadPd(d1, foo, fooArch)
  }

  function ReadEntry(d: Db, e: Entry): (r: Option<Db>)
    requires Aligned(d)
    ensures r.Some? ==> Aligned(r.value)
  {
    match e
    case Pair(a, b) => ReadPair(d, a, b)
    case Quad(tag, foo, fooPd, fooArch) => ReadQuad(d, tag, foo, fooPd, fooArch)
  }

  /** `None` is the fatal on a bad entry. */
  function Read(es: seq<Entry>): (r: Option<Db>)
    ensures r.Some? ==> Aligned(r.value)
  {
    if es == [] then Some(EmptyDb()) else
    match Read(es[..|es| - 1])
    case None => None
    case Some(d) => ReadEntry(d, es[|es| - 1])
  }

  lemma ReadSnoc(es: seq<Entry>, i: nat)
    requires i < |es|
    ensures Read(es[..i + 1]) == match Read(es[..i]) case None => None case Some(d) => ReadEntry(d, es[i])
  {
    assert es[..i + 1][..i] == es[..i];
  }

  lemma {:induction false} ReadPrefixFatal(es: seq<Entry>, n: nat)
    requires n <= |es| && Read(es[..n]) == None
    ensures Read(es) == None
    decreases |es|
  {
    if n < |es| {
      assert es[..|es| - 1][..n] == es[..n];
      ReadPrefixFatal(es[..|es| - 1], n);
    } else {
      assert es[..n] == es;
    }
  }

  // ----- what the entries stand for -----

  predicate IsDirective(w: string) {
    w == NO_GRAND_INCLUDE || w == PLATFORM_DEPENDENT
  }

  /** The files an entry names, in the order they are interned. */
  function Named(e: Entry): seq<File> {
    match e
    case Pair(a, b) => if IsDirective(b) then [a] else [a, b]
    case Quad(_, foo, fooPd, fooArch) => [fooPd, foo, fooArch]
  }

  function IncludeesIn(e: Entry, f: File): seq<File> {
    if e.Pair? && e.includer == f && !IsDirective(e.includee) then [e.includee] else []
  }

  function OutersIn(e: Entry): seq<File> {
    if e.Pair? && IsOuter(e.includer) then [e.includer] else []
  }

  function PdsIn(e: Entry, f: File): seq<File> {
    if e.Quad? && e.foo == f then [e.fooArch] else []
  }

  function Collect(es: seq<Entry>, part: Entry -> seq<File>): seq<File> {
    if es == [] then [] else Collect(es[..|es| - 1], part) + part(es[|es| - 1])
  }

  function AllNamed(es: seq<Entry>): seq<File> { Collect(es, Named) }
  function Includees(es: seq<Entry>, f: File): seq<File> { Collect(es, e => IncludeesIn(e, f)) }
  function Pds(es: seq<Entry>, f: File): seq<File> { Collect(es, e => PdsIn(e, f)) }

  /** An entry that no database may hold. */
  predicate Bad(e: Entry) {
    || (exists f :: f in Named(e) && StartsUpper(f))
    || match e {
         case Pair(_, b) => b == PLATFORM_DEPENDENT
         case Quad(tag, _, fooPd, _) => tag != PLATFORM_DEPENDENT || !InclNameFits(fooPd)
       }
  }

  /** The files of `d` are `names`, each once, in the order of first mention. */
  ghost predicate HasNames(d: Db, names: seq<File>) {
    && d.files == Distinct(names)
    && (forall f :: f in names <==> f in d.includes)
    && (forall f :: f in names <==> f in d.pds)
    && (forall f :: f in names ==> !StartsUpper(f))
  }

  /** Every file of `d` has the includees that `es` gives it: distinct, in first-occurrence order. */
  ghost predicate HasIncludees(d: Db, es: seq<Entry>) {
    && (forall f :: f in d.includes ==> d.includes[f] == Distinct(Includees(es, f)))
    && (forall f :: f in d.pds ==> d.pds[f] == Pds(es, f))
  }

  /** The outer files and the two kinds of marks that `es` gives. */
  ghost predicate HasMarks(d: Db, es: seq<Entry>) {
    && d.outers == Distinct(Collect(es, OutersIn))
    && (forall f :: f in d.refuses <==> Pair(f, NO_GRAND_INCLUDE) in es)
    && (forall f :: f in d.marked <==> exists e :: e in es && e.Quad? && e.fooPd == f)
  }

  /** `d` is what the entries stand for, each of its parts read off them directly. */
  ghost predicate Describes(d: Db, es: seq<Entry>) {
    HasNames(d, AllNamed(es)) && HasIncludees(d, es) && HasMarks(d, es)
  }
}
