/** The two ways the program is run: from one database, or from an old and a new one. */
module Generation {
  import opened Seqs
  import opened IncludeGraph
  import opened IncludeWalk
  import opened WalkProofs
  import opened Closures
  import opened IncludeDb
  import opened IncludeDbProofs
  import opened Reading
  import opened Planning
  import opened Computing
  import opened Outputs
  import opened Guarantees
  import Incremental
  import opened FileLists
  import opened Databases

  /** Reading `es` reaches no fatal, and neither does computing what it stands for. */
  ghost predicate Computable(es: seq<Entry>) {
    Read(es).Some? && Sound(Read(es).value) && !Cyclic(Read(es).value)
  }

  lemma ReadIsSound(es: seq<Entry>)
    ensures Read(es).Some? ==> Ok(Read(es).value) && Sound(Read(es).value)
  {
    ReadIsOk(es);
    var r := Read(es);
    if r.Some? {
      forall c | c in r.value.outers ensures c in r.value.includes {
        assert c in Elems(r.value.files);
      }
    }
  }

  /** The plan that a list of entries comes to. */
  ghost function PlanFor(es: seq<Entry>, threshold: int): Plan
    requires Computable(es)
  {
    PlanOf(Read(es).value, threshold)
  }

  /** Names of outer files are distinct and have suffixes; what is planned is as the graph demands. */
  lemma PlanForIsGood(es: seq<Entry>, threshold: int)
    requires Computable(es)
    ensures var p := PlanFor(es, threshold);
      && GoodPlan(Read(es).value.includes, p)
      && Incremental.DistinctNames(p.listings) && HaveSuffixes(p.listings)
  {
    ReadIsSound(es);
    OutersAreOuter(es);
    var d := Read(es).value;
    PlanIsGood(d, threshold);
    forall k | 0 <= k < |d.outers| ensures '.' in Listings(d)[k].name {
      assert d.outers[k] in d.outers;
      OuterHasDot(d.outers[k]);
    }
    assert PlanFor(es, threshold).listings == Listings(d);
  }

  /** Some file that is marked is included directly, which is an error but does not end the run. */
  ghost predicate HasMisuse(es: seq<Entry>)
    requires Computable(es)
  {
    exists x :: Misused(Read(es).value, x)
  }

  /** The reports behind the first `n` are those of the misuses in `es`. */
  ghost predicate Tells(es: seq<Entry>, errors: seq<Report>, n: nat)
    requires Computable(es)
  {
    n <= |errors| && TellsMisuses(Read(es).value, errors[n..])
  }

  /** Each is a pair of the database, on a file that some line of four words has in its third place. */
  lemma ToldIsWritten(es: seq<Entry>, errors: seq<Report>, n: nat, i: nat)
    requires Computable(es) && Tells(es, errors, n) && n <= i < |errors|
    ensures var e := errors[i];
      && Pair(e.includer, e.included) in es
      && exists a, c :: Quad("generate_platform_dependent_include", a, e.included, c) in es
  {
    assert errors[n..][i - n] == errors[i];
    MisuseIsWritten(es, errors[i]);
  }

  lemma MisuseIsWritten(es: seq<Entry>, e: Report)
    requires Read(es).Some? && IsMisuse(Read(es).value, e)
    ensures Pair(e.includer, e.included) in es
    ensures exists a, c :: Quad("generate_platform_dependent_include", a, e.included, c) in es
  {
    IncludesAreGiven(es, e.includer, e.included);
    MarksAreGiven(es, e.included);
  }

  lemma NothingToTell(es: seq<Entry>, errors: seq<Report>, n: nat)
    requires Computable(es) && Tells(es, errors, n)
    ensures n == |errors| <==> !HasMisuse(es)
  {
    var more := errors[n..];
    NothingReported(more);
    assert more != [] ==> Misused(Read(es).value, Reported(more)[|Reported(more)| - 1]);
  }

  method GetAndCompute(db: Database, es: seq<Entry>, fs: FileSystem, session: Session) returns (r: Status)
    requires db.Loaded(EmptyDb()) && session.exitCode == if session.errors == [] then 0 else 1
    modifies db`nOuterFiles, db.allFiles`items, db.outerFiles`items, db.Files()
    modifies db.indivIncludes`items, db.grandInclude`items, fs, session
    ensures r == Going <==> Computable(es)
    ensures r == Going ==> db.HasPlan(PlanFor(es, db.threshold)) && db.nPrecompiledFiles == 0
    ensures r == Going ==> fs.disk == PutPds(old(fs.disk), es)
    ensures r == Going ==> session.exitCode == if session.errors == [] then 0 else 1
    ensures r == Going ==> old(session.errors) <= session.errors && Tells(es, session.errors, |old(session.errors)|)
  {
    ReadIsSound(es);
    r := db.Get(es, fs);
    if r.Fatal? { return; }
    r := db.Compute(session, Read(es).value);
    if r == Going {
      ReportsAreExact(Read(es).value, old(session.errors), session.errors);
    }
  }

  /** What a run over the entries `es` leaves on the disk, and what one from `oldEs` to `newEs` does. */
  ghost function AfterAbsolute(disk: Disk, es: seq<Entry>, threshold: int): Disk
    requires Computable(es)
  {
    PutAll(PutPds(disk, es), PlanFor(es, threshold))
  }

  ghost function AfterRelative(disk: Disk, oldEs: seq<Entry>, newEs: seq<Entry>, threshold: int): Disk
    requires Computable(oldEs) && Computable(newEs)
  {
    Incremental.PutDiffs(PutPds(PutPds(disk, oldEs), newEs), PlanFor(newEs, threshold), PlanFor(oldEs, threshold))
  }

  /** Everything is made from one database. */
  method AbsoluteGeneration(es: seq<Entry>, threshold: int, fs: FileSystem, session: Session) returns (r: Status)
    requires session.exitCode == 0 && session.errors == []
    modifies fs, session
    ensures r == Going <==> Writable(es, threshold)
    ensures r == Going ==> fs.disk == AfterAbsolute(old(fs.disk), es, threshold)
    ensures r == Going ==> session.exitCode == (if HasMisuse(es) then 1 else 0) && Tells(es, session.errors, 0)
  {
    var db := new Database(threshold);
    r := GetAndCompute(db, es, fs, session);
    if r.Fatal? { return; }
    PlanForIsGood(es, threshold);
    NothingToTell(es, session.errors, 0);
    r := db.Put(fs, PlanFor(es, threshold));
  }

  /** The databases share no list object. */
  ghost predicate Apart(a: Database, b: Database)
    reads a.allFiles`items, b.allFiles`items, a.indivIncludes`items, b.indivIncludes`items
  {
    a != b && Objects(a) !! Objects(b)
  }

  ghost function Objects(a: Database): set<FileList>
    reads a.allFiles`items, a.indivIncludes`items
  {
    {a.allFiles, a.outerFiles, a.indivIncludes, a.grandInclude} + a.Files() + Elems(a.indivIncludes.items)
  }

  method NewBeside(previous: Database, threshold: int, ghost q: Plan) returns (current: Database)
    requires previous.HasPlan(q)
    ensures previous.HasPlan(q) && current.Loaded(EmptyDb()) && current.threshold == threshold
    ensures fresh(current) && fresh(Objects(current)) && Apart(previous, current)
  {
    current := new Database(threshold);
    assert current.indivIncludes.items == [];
  }

  /** The new database is computed beside the old one, which keeps its plan. */
  method GetBeside(previous: Database, current: Database, es: seq<Entry>, fs: FileSystem, session: Session, ghost q: Plan)
    returns (r: Status)
    requires current.Loaded(EmptyDb()) && session.exitCode == if session.errors == [] then 0 else 1
    requires previous.HasPlan(q) && Apart(previous, current)
    modifies current`nOuterFiles, current.allFiles`items, current.outerFiles`items, current.Files()
    modifies current.indivIncludes`items, current.grandInclude`items, fs, session
    ensures r == Going <==> Computable(es)
    ensures r == Going ==> current.HasPlan(PlanFor(es, current.threshold)) && current.nPrecompiledFiles == 0
    ensures r == Going ==> previous.HasPlan(q) && fs.disk == PutPds(old(fs.disk), es)
    ensures r == Going ==> session.exitCode == if session.errors == [] then 0 else 1
    ensures r == Going ==> old(session.errors) <= session.errors && Tells(es, session.errors, |old(session.errors)|)
  {
    r := GetAndCompute(current, es, fs, session);
  }

  ghost predicate Writable(es: seq<Entry>, threshold: int) {
    Computable(es) && AllFit(PlanFor(es, threshold).listings, |PlanFor(es, threshold).listings|)
  }

  method Differentiate(previous: Database, current: Database, es: seq<Entry>, fs: FileSystem, session: Session,
                       ghost q: Plan)
    returns (r: Status)
    requires current.Loaded(EmptyDb()) && session.exitCode == if session.errors == [] then 0 else 1
    requires previous.HasPlan(q) && Apart(previous, current)
    modifies current, current.allFiles`items, current.outerFiles`items, current.Files()
    modifies current.indivIncludes`items, current.grandInclude`items, fs, session
    ensures r == Going <==> Writable(es, current.threshold)
    ensures r == Going ==>
      fs.disk == Incremental.PutDiffs(PutPds(old(fs.disk), es), PlanFor(es, current.threshold), q)
    ensures r == Going ==> session.exitCode == if session.errors == [] then 0 else 1
    ensures r == Going ==> old(session.errors) <= session.errors && Tells(es, session.errors, |old(session.errors)|)
  {
    r := GetBeside(previous, current, es, fs, session, q);
    if r.Fatal? { return; }
    PlanForIsGood(es, current.threshold);
    r := current.PutDiffs(previous, fs, PlanFor(es, current.threshold), q);
  }

  /** First come the reports on `oldEs`, then those on `newEs`. */
  ghost predicate TellsBoth(oldEs: seq<Entry>, newEs: seq<Entry>, errors: seq<Report>)
    requires Computable(oldEs) && Computable(newEs)
  {
    exists n :: 0 <= n <= |errors| && Tells(oldEs, errors[..n], 0) && Tells(newEs, errors, n)
  }

  lemma BothAreTold(oldEs: seq<Entry>, newEs: seq<Entry>, told: seq<Report>, errors: seq<Report>)
    requires Computable(oldEs) && Computable(newEs)
    requires Tells(oldEs, told, 0) && told <= errors && Tells(newEs, errors, |told|)
    ensures TellsBoth(oldEs, newEs, errors)
    ensures errors == [] <==> !HasMisuse(oldEs) && !HasMisuse(newEs)
  {
    NothingToTell(oldEs, told, 0);
    NothingToTell(newEs, errors, |told|);
    assert errors[..|told|] == told;
  }

  /** Only what differs from the old database is made. */
  method RelativeGeneration(oldEs: seq<Entry>, newEs: seq<Entry>, threshold: int, fs: FileSystem, session: Session)
    returns (r: Status)
    requires session.exitCode == 0 && session.errors == []
    modifies fs, session
    ensures r == Going <==> Computable(oldEs) && Writable(newEs, threshold)
    ensures r == Going ==> fs.disk == AfterRelative(old(fs.disk), oldEs, newEs, threshold)
    ensures r == Going ==> session.exitCode == if HasMisuse(oldEs) || HasMisuse(newEs) then 1 else 0
    ensures r == Going ==> TellsBoth(oldEs, newEs, session.errors)
  {
    var previous := new Database(threshold);
    r := GetAndCompute(previous, oldEs, fs, session);
    if r.Fatal? { return; }
    var current := NewBeside(previous, threshold, PlanFor(oldEs, threshold));
    ghost var told := session.errors;
    r := Differentiate(previous, current, newEs, fs, session, PlanFor(oldEs, threshold));
    if r == Going {
      BothAreTold(oldEs, newEs, told, session.errors);
    }
  }
}
