/**
 * The list objects of the program: a file with its includees, its flags and its count, or a list
 * of files under some other name. The search methods are proved against IncludeWalk.
 */
module FileLists {
  import opened Seqs
  import opened IncludeGraph
  import opened IncludeWalk
  import opened WalkProofs
  import opened Closures
  import opened IncludeDb

  /** `Fatal` stands for leaving the program at once. */
  datatype Status = Going | Fatal(message: string) {
    predicate IsFailure() { Fatal? }
    function PropagateFailure(): Status
      requires IsFailure()
    { this }
  }

  /** What is global to a run: the exit code and what was reported. */
  class Session {
    var exitCode: int
    var errors: seq<Report>

    constructor ()
      ensures exitCode == 0 && errors == []
    {
      exitCode, errors := 0, [];
    }
  }

  function Names(ls: seq<FileList>): (r: seq<File>)
    ensures |r| == |ls| && forall i {:trigger r[i]} :: 0 <= i < |ls| ==> r[i] == ls[i].name
  {
    seq(|ls|, i requires 0 <= i < |ls| => ls[i].name)
  }

  ghost predicate Within(ls: seq<FileList>, files: set<FileList>) {
    forall i :: 0 <= i < |ls| ==> ls[i] in files
  }

  /** The one object of `files` that has the name `n`. */
  ghost function Owner(files: set<FileList>, n: File): FileList? {
    if f :| f in files && f.name == n then f else null
  }

  ghost predicate UniqueNames(files: set<FileList>) {
    forall f :: f in files ==> Owner(files, f.name) == f
  }

  /** The includees of the list objects `files` are the graph `g`; a name belongs to one object only. */
  ghost predicate Represents(g: Graph, files: set<FileList>)
    reads files`items
  {
    && Closed(g)
    && UniqueNames(files)
    && (forall f :: f in files ==> f.name in g && g[f.name] == Names(f.items) && Within(f.items, files))
  }

  /** The flags of `files` and the session are in the state `w`. */
  ghost predicate ShowsFlags(w: Walk, files: set<FileList>, session: Session)
    reads files, session
  {
    && (forall f :: f in files ==> (f.beenHere <==> f.name in w.been))
    && (forall f :: f in files ==> (f.mayBeCycle <==> f.name in w.onPath))
    && (forall f :: f in files ==> (f.isCycle <==> f.name in w.traced))
    && (forall f :: f in files ==> (f.platformDependentInclude.Some? <==> f.name in w.marked))
    && session.errors == w.errors
    && session.exitCode == if w.errors == [] && w.traced == {} then 0 else 1
  }

  /** The same, with `s` the list that the search fills. */
  ghost predicate Shows(w: Walk, files: set<FileList>, s: FileList, session: Session)
    reads files, s, session
  {
    ShowsFlags(w, files, session) && Names(s.items) == w.out && Within(s.items, files)
  }

  class FileList {
    const name: File
    var items: seq<FileList>
    var beenHere: bool
    var mayBeCycle: bool
    var isCycle: bool
    var useGrandInclude: bool
    var platformDependentInclude: Option<string>
    var platformDependentIncludees: seq<FileList>
    var count: int

    constructor (n: File)
      ensures name == n && items == [] && !beenHere && !mayBeCycle && !isCycle && useGrandInclude
      ensures platformDependentInclude == None && platformDependentIncludees == [] && count == 0
    {
      name := n;
      items := [];
      beenHere, mayBeCycle, isCycle := false, false, false;
      useGrandInclude := true;
      platformDependentInclude, platformDependentIncludees := None, [];
      count := 0;
    }

    method Add(s: FileList)
      modifies this`items
      ensures items == old(items) + [s]
    {
      items := items + [s];
    }

    method AddIfAbsent(s: FileList)
      modifies this`items
      ensures items == Seqs.AddIfAbsent(old(items), s)
    {
      var i := 0;
      while i < |items|
        invariant i <= |items| && items == old(items)
        invariant s !in items[..i]
      {
        if items[i] == s { return; }
        i := i + 1;
      }
      Add(s);
    }

    /** The list object of the file `n`, made on first mention; no file name starts in upper case. */
    method ListForFile(n: File) returns (r: Status, f: FileList)
      modifies this`items
      ensures r == Going ==> f.name == n && f in items
      ensures n in Names(old(items)) ==> r == Going && items == old(items)
      ensures n !in Names(old(items)) && StartsUpper(n) ==> r.Fatal? && items == old(items)
      ensures n !in Names(old(items)) && !StartsUpper(n) ==>
        && r == Going && fresh(f) && items == old(items) + [f]
        && f.items == [] && !f.beenHere && !f.mayBeCycle && !f.isCycle && f.useGrandInclude
        && f.platformDependentInclude == None && f.platformDependentIncludees == [] && f.count == 0
    {
      var i := 0;
      while i < |items|
        invariant i <= |items| && items == old(items)
        invariant n !in Names(items)[..i]
      {
        if items[i].name == n {
          assert Names(items)[i] == n;
          return Going, items[i];
        }
        i := i + 1;
      }
      f := new FileList(n);
      if StartsUpper(n) {
        return Fatal("Please rename " + n), f;
      }
      Add(f);
      return Going, f;
    }

    method TraceCycle(s: FileList, session: Session,
                      ghost files: set<FileList>, ghost g: Graph, ghost onPath: set<File>, ghost traced: set<File>)
      returns (r: Status)
      requires this in files && s in files && Represents(g, files)
      requires forall f :: f in files ==> (f.mayBeCycle <==> f.name in onPath)
      requires forall f :: f in files ==> (f.isCycle <==> f.name in traced)
      modifies files`isCycle, session`exitCode
      ensures match Trace(g, onPath, traced, s.name, name)
        case None => r.Fatal?
        case Some(t) => r == Going && forall f :: f in files ==> (f.isCycle <==> f.name in t)
      ensures session.exitCode == if name in traced then old(session.exitCode) else 1
      decreases g.Keys - traced
    {
      r := Going;
      if isCycle { return; }
      isCycle := true;
      session.exitCode := 1;
      ghost var t, es := traced + {name}, g[name];
      assert es[0..] == es;
      var i := 0;
      while i < |items|
        invariant i <= |items| && session.exitCode == 1
        invariant traced + {name} <= t
        invariant forall f :: f in files ==> (f.isCycle <==> f.name in t)
        invariant Trace(g, onPath, traced, s.name, name) == TraceFrom(g, onPath, t, s.name, es, i)
      {
        var q := items[i];
        TraceFromStep(g, onPath, t, s.name, es, i);
        assert q.name == es[i];
        if q.mayBeCycle {
          if s == q {
            return Fatal("\tend of cycle for " + s.name);
          }
          :- q.TraceCycle(s, session, files, g, onPath, t);
          t := Trace(g, onPath, t, s.name, q.name).value;
        }
        i := i + 1;
      }
    }

    method DoFiles(s: FileList, session: Session,
                   ghost files: set<FileList>, ghost g: Graph, ghost w: Walk)
      returns (r: Status)
      requires Represents(g, files) && Within(items, files) && s !in files && s != this
      requires Shows(w, files, s, session) && Elems(Names(items)) <= g.Keys
      modifies files`beenHere, files`mayBeCycle, files`isCycle, files`platformDependentInclude, s`items, session
      ensures match VisitAll(g, w, name, Names(items))
        case CycleAt(_) => r.Fatal?
        case Done(v) => r == Going && Shows(v, files, s, session)
      decreases g.Keys - w.been, |items|
    {
      r := Going;
      ghost var v, es := w, Names(items);
      assert es[0..] == es;
      var i := 0;
      while i < |items|
        invariant i <= |items|
        invariant Shows(v, files, s, session) && w.been <= v.been
        invariant VisitAll(g, w, name, es) == VisitFrom(g, v, name, es, i)
      {
        var h := items[i];
        VisitFromStep(g, v, name, es, i);
        assert h.name == es[i];
        ghost var c := IncludeWalk.Check(v, name, h.name);
        h.Check(this, s, session, files, v);
        :- h.DoHFile(s, session, files, g, c);
        v := Visit(g, c, h.name).w;
        i := i + 1;
      }
    }

    /** A header that has a platform-dependent include is reported the first time it is included directly. */
    method Check(includer: FileList, s: FileList, session: Session, ghost files: set<FileList>, ghost w: Walk)
      requires this in files && UniqueNames(files)
      requires Shows(w, files, s, session)
      modifies this`platformDependentInclude, session
      ensures Shows(IncludeWalk.Check(w, includer.name, name), files, s, session)
    {
      if platformDependentInclude.Some? {
        session.errors := session.errors + [DirectInclude(name, includer.name)];
        platformDependentInclude := None;
        session.exitCode := 1;
      }
    }

    method DoHFile(s: FileList, session: Session,
                   ghost files: set<FileList>, ghost g: Graph, ghost w: Walk)
      returns (r: Status)
      requires this in files && Represents(g, files) && s !in files
      requires Shows(w, files, s, session)
      modifies files`beenHere, files`mayBeCycle, files`isCycle, files`platformDependentInclude, s`items, session
      ensures match Visit(g, w, name)
        case CycleAt(_) => r.Fatal?
        case Done(v) => r == Going && Shows(v, files, s, session)
      decreases g.Keys - w.been, 0
    {
      r := Going;
      if beenHere {
        if mayBeCycle {
          :- TraceCycle(this, session, files, g, w.onPath, w.traced);
        }
        return;
      }
      Enter(s, session, files, w);
      ghost var v := w.(been := w.been + {name}, onPath := w.onPath + {name});
      assert forall x :: x in g[name] ==> x in g;
      :- DoFiles(s, session, files, g, v);
      Leave(s, session, files, VisitAll(g, v, name, g[name]).w);
    }

    /** The visit of a file begins: it goes on the path. */
    method Enter(s: FileList, session: Session, ghost files: set<FileList>, ghost w: Walk)
      requires this in files && UniqueNames(files) && s !in files && Shows(w, files, s, session)
      modifies this`beenHere, this`mayBeCycle
      ensures Shows(w.(been := w.been + {name}, onPath := w.onPath + {name}), files, s, session)
    {
      beenHere := true;
      mayBeCycle := true;
    }

    /** The visit of a file ends: it leaves the path and is listed. */
    method Leave(s: FileList, session: Session, ghost files: set<FileList>, ghost w: Walk)
      requires this in files && UniqueNames(files) && s !in files && Shows(w, files, s, session)
      modifies this`mayBeCycle, s`items
      ensures Shows(w.(onPath := w.onPath - {name}, out := w.out + [name]), files, s, session)
    {
      mayBeCycle := false;
      s.Add(this);
    }

    /** The closure of an outer file, as a new list; all flags are clear before and after. */
    method DoCFile(session: Session, ghost files: set<FileList>, ghost g: Graph,
                   ghost marked: set<File>, ghost errors: seq<Report>)
      returns (r: Status, s: FileList)
      requires this in files && Represents(g, files)
      requires ShowsFlags(Start(marked, errors), files, session)
      modifies files`beenHere, files`mayBeCycle, files`isCycle, files`platformDependentInclude, session
      ensures fresh(s) && s.name == name && s.useGrandInclude == useGrandInclude
      ensures s.platformDependentInclude == None
      ensures r.Fatal? <==> ClosureOf(g, name) == None
      ensures r == Going ==>
        && Names(s.items) == ClosureOf(g, name).value && Within(s.items, files)
        && ShowsFlags(Start(marked - Elems(Names(s.items)), session.errors), files, session)
        && Reports(Start(marked, errors), Start(marked - Elems(Names(s.items)), session.errors))
        && AreIncludes(g, name, session.errors, |errors|)
    {
      s := new FileList(name);
      s.useGrandInclude := useGrandInclude;
      r := ListClosure(s, session, files, g, marked, errors);
    }

    /** The search from clear flags into the empty list `s`, and the flags cleared behind it. */
    method ListClosure(s: FileList, session: Session, ghost files: set<FileList>, ghost g: Graph,
                       ghost marked: set<File>, ghost errors: seq<Report>)
      returns (r: Status)
      requires this in files && Represents(g, files) && s !in files && s.items == []
      requires ShowsFlags(Start(marked, errors), files, session)
      modifies files`beenHere, files`mayBeCycle, files`isCycle, files`platformDependentInclude, s`items, session
      ensures r.Fatal? <==> ClosureOf(g, name) == None
      ensures r == Going ==>
        && Names(s.items) == ClosureOf(g, name).value && Within(s.items, files)
        && ShowsFlags(Start(marked - Elems(Names(s.items)), session.errors), files, session)
        && Reports(Start(marked, errors), Start(marked - Elems(Names(s.items)), session.errors))
        && AreIncludes(g, name, session.errors, |errors|)
    {
      CFileFromClearFlags(g, name, marked, errors);
      CFileNames(g, name, marked, errors);
      assert forall x :: x in g[name] ==> x in g;
      r := DoFiles(s, session, files, g, Start(marked, errors));
      if r.Fatal? { return; }
      ghost var v := VisitAll(g, Start(marked, errors), name, g[name]).w;
      s.ClearBeenHere(session, files, v);
    }

    method ClearBeenHere(session: Session, ghost files: set<FileList>, ghost w: Walk)
      requires UniqueNames(files) && this !in files && Shows(w, files, this, session)
      requires w.been == Elems(w.out) && w.onPath == {} && w.traced == {}
      modifies files`beenHere
      ensures ShowsFlags(Start(w.marked, w.errors), files, session)
    {
      var i := 0;
      while i < |items|
        invariant i <= |items| && items == old(items)
        invariant forall f :: f in files ==> (f.beenHere <==> f.name in w.been && f !in items[..i])
      {
        items[i].beenHere := false;
        i := i + 1;
      }
      forall f | f in files ensures !f.beenHere {
        if f.name in w.been {
          var k :| 0 <= k < |w.out| && w.out[k] == f.name;
          assert items[k].name == f.name;
        }
      }
    }

    /** Every file listed here is needed once more. */
    method CountItems(ghost files: set<FileList>)
      requires Within(items, files) && UniqueNames(files) && NoDup(Names(items))
      modifies files`count
      ensures forall f :: f in files ==>
        f.count == old(f.count) + if f.name in Names(items) then 1 else 0
    {
      ghost var names := Names(items);
      var i := 0;
      while i < |items|
        invariant i <= |items|
        invariant forall f :: f in files ==> f.count == old(f.count) + if f.name in names[..i] then 1 else 0
      {
        assert names[i] == items[i].name;
        assert forall k :: 0 <= k < i ==> names[..i][k] == names[k] != names[i];
        PrefixSnoc(names, i);
        items[i].count := items[i].count + 1;
        i := i + 1;
      }
    }
  }
}
