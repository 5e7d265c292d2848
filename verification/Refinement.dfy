/** Over whole runs: a run from scratch and then an incremental one, against a run from scratch. */
module Refinement {
  import opened Seqs
  import opened IncludeGraph
  import opened IncludeDb
  import opened Planning
  import opened Outputs
  import opened Incremental
  import opened Generation

  /** After a run over `oldEs`, reading both databases: what the incremental run starts from. */
  ghost function BeforeDiffs(disk: Disk, oldEs: seq<Entry>, newEs: seq<Entry>, threshold: int): Disk
    requires Computable(oldEs)
  {
    PutPds(PutPds(AfterAbsolute(disk, oldEs, threshold), oldEs), newEs)
  }

  lemma BeforeDiffsAt(disk: Disk, oldEs: seq<Entry>, newEs: seq<Entry>, threshold: int, f: File)
    requires Computable(oldEs)
    ensures var d, path := BeforeDiffs(disk, oldEs, newEs, threshold), InclPath(f);
      match LastPd(oldEs + newEs, f)
      case None => Same(AfterAbsolute(disk, oldEs, threshold), d, path)
      case Some(x) => path in d && d[path] == PdContent(x)
  {
    PutPdsJoin(AfterAbsolute(disk, oldEs, threshold), oldEs, newEs);
    PutPdsAt(AfterAbsolute(disk, oldEs, threshold), oldEs + newEs, f);
  }

  /**
   * The include file of outer file `k` is as a run from scratch over the new database writes it, if and
   * only if the second run was not short or did not leave it stale.
   */
  lemma RelativeRefinesOne(disk: Disk, oldEs: seq<Entry>, newEs: seq<Entry>, threshold: int, k: nat)
    requires Computable(oldEs) && Computable(newEs) && k < |PlanFor(newEs, threshold).listings|
    ensures var d := AfterRelative(AfterAbsolute(disk, oldEs, threshold), oldEs, newEs, threshold);
      var p, q := PlanFor(newEs, threshold), PlanFor(oldEs, threshold);
      var pd := LastPd(oldEs + newEs, p.listings[k].name);
      HoldsListing(d, p, p.listings[k]) <==> !(ShortRun(p, q) && StaleInclude(pd, p, q, k))
  {
    var p, q := PlanFor(newEs, threshold), PlanFor(oldEs, threshold);
    PlanForIsGood(oldEs, threshold);
    PlanForIsGood(newEs, threshold);
    IncrementalListing(BeforeDiffs(disk, oldEs, newEs, threshold), p, q, k);
    if ShortRun(p, q) && Unchanged(p, p.listings[k], q, q.listings[k]) {
      BeforeDiffsAt(disk, oldEs, newEs, threshold, p.listings[k].name);
      PutAllListing(PutPds(disk, oldEs), q, k);
      UnchangedContent(p, p.listings[k], q, q.listings[k]);
    }
  }

  lemma BeforeDiffsGrand(disk: Disk, oldEs: seq<Entry>, newEs: seq<Entry>, threshold: int)
    requires Computable(oldEs)
    ensures HoldsGrand(BeforeDiffs(disk, oldEs, newEs, threshold), PlanFor(oldEs, threshold))
  {
    var was := AfterAbsolute(disk, oldEs, threshold);
    forall f ensures GI_PATH != InclPath(f) { InclPathsDiffer(f, ""); }
    PutAllShared(PutPds(disk, oldEs), PlanFor(oldEs, threshold));
    PutPdsElsewhere(was, oldEs, GI_PATH);
    PutPdsElsewhere(PutPds(was, oldEs), newEs, GI_PATH);
  }

  /** So is the grand include file, if and only if the second run was not short or no header crossed the threshold. */
  lemma RelativeRefinesGrand(disk: Disk, oldEs: seq<Entry>, newEs: seq<Entry>, threshold: int)
    requires Computable(oldEs) && Computable(newEs)
    ensures var d := AfterRelative(AfterAbsolute(disk, oldEs, threshold), oldEs, newEs, threshold);
      var p, q := PlanFor(newEs, threshold), PlanFor(oldEs, threshold);
      HoldsGrand(d, p) <==> !(ShortRun(p, q) && Crossed(p, q))
  {
    PlanForIsGood(newEs, threshold);
    BeforeDiffsGrand(disk, oldEs, newEs, threshold);
    IncrementalGrand(BeforeDiffs(disk, oldEs, newEs, threshold), PlanFor(newEs, threshold), PlanFor(oldEs, threshold));
  }

  /** Whatever is in `full` is in `d`, the same. */
  ghost predicate Includes(d: Disk, full: Disk) {
    forall path :: path in full ==> path in d && d[path] == full[path]
  }

  /** Every file that a full run over `es` writes, and no other: what it leaves on an empty disk. */
  ghost function Written(es: seq<Entry>, threshold: int): Disk
    requires Computable(es)
  {
    AfterAbsolute(map[], es, threshold)
  }

  lemma WrittenHolds(es: seq<Entry>, threshold: int)
    requires Computable(es)
    ensures var full, p := Written(es, threshold), PlanFor(es, threshold);
      && HoldsGrand(full, p) && HoldsMakefile(full, p)
      && forall k :: 0 <= k < |p.listings| ==> HoldsListing(full, p, p.listings[k])
  {
    var p := PlanFor(es, threshold);
    PlanForIsGood(es, threshold);
    PutAllShared(PutPds(map[], es), p);
    PutAllHolds(PutPds(map[], es), p);
  }

  /** It writes its three kinds of file, and the platform-dependent includes that the entries name. */
  lemma WrittenPaths(es: seq<Entry>, threshold: int, path: string)
    requires Computable(es) && path in Written(es, threshold)
    ensures var p := PlanFor(es, threshold);
      || path == GI_PATH || path == GD_PATH
      || (exists k :: 0 <= k < |p.listings| && path == InclPath(p.listings[k].name))
      || (exists f :: path == InclPath(f) && LastPd(es, f).Some?)
  {
    var p := PlanFor(es, threshold);
    if forall k :: 0 <= k < |p.listings| ==> path != InclPath(p.listings[k].name) {
      PutListingsElsewhere(PutPds(map[], es), p, |p.listings|, path);
      if path != GI_PATH && path != GD_PATH {
        PutPdsPaths(es, path);
      }
    }
  }

  /** The platform-dependent includes of the new database are right after every kind of run. */
  lemma PdsAreRight(disk: Disk, oldEs: seq<Entry>, newEs: seq<Entry>, threshold: int, f: File)
    requires Computable(oldEs) && Computable(newEs) && LastPd(newEs, f).Some?
    requires forall l :: l in PlanFor(newEs, threshold).listings ==> InclPath(f) != InclPath(l.name)
    ensures var d := AfterRelative(AfterAbsolute(disk, oldEs, threshold), oldEs, newEs, threshold);
      var path, full := InclPath(f), Written(newEs, threshold);
      path in d && path in full && d[path] == full[path] == PdContent(LastPd(newEs, f).value)
  {
    var p, q := PlanFor(newEs, threshold), PlanFor(oldEs, threshold);
    LastPdJoin(oldEs, newEs, f);
    BeforeDiffsAt(disk, oldEs, newEs, threshold, f);
    PutElsewhere(BeforeDiffs(disk, oldEs, newEs, threshold), p, q, f);
    PutPdsAt(map[], newEs, f);
    PutElsewhere(PutPds(map[], newEs), p, q, f);
  }

  /** The run left nothing stale. */
  ghost predicate NothingStale(pds: seq<Entry>, p: Plan, q: Plan) {
    ShortRun(p, q) ==>
      && (forall k :: 0 <= k < |p.listings| ==> !StaleInclude(LastPd(pds, p.listings[k].name), p, q, k))
      && !Crossed(p, q) && GrandFiles(p) == []
  }

  lemma SharedHold(disk: Disk, oldEs: seq<Entry>, newEs: seq<Entry>, threshold: int)
    requires Computable(oldEs) && Computable(newEs)
    ensures var d := AfterRelative(AfterAbsolute(disk, oldEs, threshold), oldEs, newEs, threshold);
      var p, q := PlanFor(newEs, threshold), PlanFor(oldEs, threshold);
      NothingStale(oldEs + newEs, p, q) <==>
        (HoldsGrand(d, p) && HoldsMakefile(d, p)
         && forall k :: 0 <= k < |p.listings| ==> HoldsListing(d, p, p.listings[k]))
  {
    var p, q := PlanFor(newEs, threshold), PlanFor(oldEs, threshold);
    RelativeRefinesGrand(disk, oldEs, newEs, threshold);
    IncrementalMakefile(BeforeDiffs(disk, oldEs, newEs, threshold), p, q);
    forall k | 0 <= k < |p.listings|
      ensures var d := AfterRelative(AfterAbsolute(disk, oldEs, threshold), oldEs, newEs, threshold);
        var pd := LastPd(oldEs + newEs, p.listings[k].name);
        HoldsListing(d, p, p.listings[k]) <==> !(ShortRun(p, q) && StaleInclude(pd, p, q, k))
    {
      RelativeRefinesOne(disk, oldEs, newEs, threshold, k);
    }
  }

  /**
   * A run from scratch, then one that takes the old database to the new: every file that a run from scratch
   * over the new database writes is as that run writes it, if and only if the second run was not short, or
   * left no include file stale, no header crossed the threshold and none is precompiled.
   */
  lemma RelativeRefinesAbsolute(disk: Disk, oldEs: seq<Entry>, newEs: seq<Entry>, threshold: int)
    requires Computable(oldEs) && Computable(newEs)
    ensures var d := AfterRelative(AfterAbsolute(disk, oldEs, threshold), oldEs, newEs, threshold);
      Includes(d, Written(newEs, threshold))
      <==> NothingStale(oldEs + newEs, PlanFor(newEs, threshold), PlanFor(oldEs, threshold))
  {
    var d := AfterRelative(AfterAbsolute(disk, oldEs, threshold), oldEs, newEs, threshold);
    var full, p := Written(newEs, threshold), PlanFor(newEs, threshold);
    SharedHold(disk, oldEs, newEs, threshold);
    WrittenHolds(newEs, threshold);
    if NothingStale(oldEs + newEs, p, PlanFor(oldEs, threshold)) {
      forall path | path in full ensures path in d && d[path] == full[path] {
        WrittenPaths(newEs, threshold, path);
        if exists k :: 0 <= k < |p.listings| && path == InclPath(p.listings[k].name) {
          var k :| 0 <= k < |p.listings| && path == InclPath(p.listings[k].name);
          assert HoldsListing(d, p, p.listings[k]) && HoldsListing(full, p, p.listings[k]);
        } else if path != GI_PATH && path != GD_PATH {
          var f :| path == InclPath(f) && LastPd(newEs, f).Some?;
          PdsAreRight(disk, oldEs, newEs, threshold, f);
        }
      }
    }
  }

  /** Run again with the same database, the run is short, and the makefile is as if nothing were precompiled. */
  lemma AgainIsShort(disk: Disk, es: seq<Entry>, threshold: int)
    requires Computable(es)
    ensures var p, before := PlanFor(es, threshold), AfterAbsolute(disk, es, threshold);
      && EntriesAt(before) == MakeEntries(p, |GrandFiles(p)|)
      && EntriesAt(AfterRelative(before, es, es, threshold)) == MakeEntries(p, 0)
  {}
}
