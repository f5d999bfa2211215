/**
 * The sync plan of gensyscalls.py's `regenerate`: which generated files are
 * new to the source tree (adds), which differ from the tree (edits), and which
 * stubs found in the tree are no longer generated (deletes).
 *
 * Files are maps from paths, relative to the libc root, to contents: `staged`
 * for the freshly generated files, `tree` for the live source tree.
 */
module SyscallSync {

  type Files = map<string, string>

  /** The result of comparing the staged files with the tree. */
  datatype Comparison = Comparison(adds: seq<string>, edits: seq<string>, tree: Files)

  /**
   * The comparison loop over the staged paths, in order. A path missing from
   * the tree is an add and is copied into the tree at once, so a path listed
   * twice is added once; a present path whose content differs is an edit.
   */
  function Compare(paths: seq<string>, staged: Files, tree: Files): Comparison
    requires forall p <- paths :: p in staged
  {
    if paths == [] then Comparison([], [], tree)
    else
      var prev := Compare(paths[..|paths| - 1], staged, tree);
      var p := paths[|paths| - 1];
      if p !in prev.tree then Comparison(prev.adds + [p], prev.edits, prev.tree[p := staged[p]])
      else if prev.tree[p] != staged[p] then Comparison(prev.adds, prev.edits + [p], prev.tree)
      else prev
  }

  /**
   * The classification, path by path: a staged path is added iff the tree
   * lacks it, edited iff the tree has it with other content; afterwards the
   * tree holds every staged path, with the staged content where it was missing.
   */
  lemma {:induction false} CompareClassifies(paths: seq<string>, staged: Files, tree: Files, p: string)
    requires forall q <- paths :: q in staged
    ensures p in Compare(paths, staged, tree).adds <==> p in paths && p !in tree
    ensures p in Compare(paths, staged, tree).edits <==> p in paths && p in tree && tree[p] != staged[p]
    ensures p in Compare(paths, staged, tree).tree <==> p in tree || p in paths
    ensures p in Compare(paths, staged, tree).tree ==>
              Compare(paths, staged, tree).tree[p] == if p in tree then tree[p] else staged[p]
  {
    if paths != [] {
      var init := paths[..|paths| - 1];
      CompareClassifies(init, staged, tree, p);
      var q := paths[|paths| - 1];
      CompareClassifies(init, staged, tree, q);
      assert paths == init + [q];
    }
  }

  /** Adds never repeat a path, even when the staged list does. */
  lemma {:induction false} AddsDistinct(paths: seq<string>, staged: Files, tree: Files)
    requires forall q <- paths :: q in staged
    ensures forall i, j :: 0 <= i < j < |Compare(paths, staged, tree).adds| ==>
              Compare(paths, staged, tree).adds[i] != Compare(paths, staged, tree).adds[j]
  {
    if paths != [] {
      var init := paths[..|paths| - 1];
      AddsDistinct(init, staged, tree);
      var q := paths[|paths| - 1];
      forall p | p in Compare(init, staged, tree).adds
        ensures p in Compare(init, staged, tree).tree
      {
        CompareClassifies(init, staged, tree, p);
      }
    }
  }

  /** Nothing to add or edit when the tree already holds every staged file. */
  lemma CompareUpToDate(paths: seq<string>, staged: Files, tree: Files)
    requires forall q <- paths :: q in staged && q in tree && tree[q] == staged[q]
    ensures Compare(paths, staged, tree) == Comparison([], [], tree)
  {
    var c := Compare(paths, staged, tree);
    forall p
      ensures p !in c.adds && p !in c.edits
    {
      CompareClassifies(paths, staged, tree, p);
    }
    forall p | p in c.tree
      ensures p in tree && c.tree[p] == tree[p]
    {
      CompareClassifies(paths, staged, tree, p);
    }
    forall p | p in tree
      ensures p in c.tree
    {
      CompareClassifies(paths, staged, tree, p);
    }
  }

  /** The comparison loop of regenerate, copying each add into the tree as it goes. */
  method ComparePaths(paths: seq<string>, staged: Files, tree: Files)
      returns (adds: seq<string>, edits: seq<string>, tree': Files)
    requires forall p <- paths :: p in staged
    ensures Comparison(adds, edits, tree') == Compare(paths, staged, tree)
  {
    adds, edits, tree' := [], [], tree;
    for i := 0 to |paths|
      invariant Comparison(adds, edits, tree') == Compare(paths[..i], staged, tree)
    {
      var stub := paths[i];
      assert paths[..i + 1][..i] == paths[..i];
      if stub !in tree' {
        adds := adds + [stub];
        tree' := tree'[stub := staged[stub]];
      } else if tree'[stub] != staged[stub] {
        edits := edits + [stub];
      }
    }
    assert paths[..|paths|] == paths;
  }

  /** The deletion loop: stubs found in the tree that were not generated again. */
  function Deletes(oldStubs: seq<string>, newStubs: seq<string>): seq<string> {
    if oldStubs == [] then []
    else
      var prev := Deletes(oldStubs[..|oldStubs| - 1], newStubs);
      var p := oldStubs[|oldStubs| - 1];
      if p !in newStubs then prev + [p] else prev
  }

  /** A path is deleted iff it is an old stub that is not a new stub. */
  lemma {:induction false} DeletesIff(oldStubs: seq<string>, newStubs: seq<string>, p: string)
    ensures p in Deletes(oldStubs, newStubs) <==> p in oldStubs && p !in newStubs
  {
    if oldStubs != [] {
      var init := oldStubs[..|oldStubs| - 1];
      DeletesIff(init, newStubs, p);
      assert oldStubs == init + [oldStubs[|oldStubs| - 1]];
    }
  }

  /** Nothing is deleted when every old stub is generated again. */
  lemma DeletesNone(oldStubs: seq<string>, newStubs: seq<string>)
    requires forall p <- oldStubs :: p in newStubs
    ensures Deletes(oldStubs, newStubs) == []
  {
    var d := Deletes(oldStubs, newStubs);
    if d != [] {
      DeletesIff(oldStubs, newStubs, d[0]);
    }
  }

  /** The deletion loop of regenerate. */
  method FindDeletes(oldStubs: seq<string>, newStubs: seq<string>) returns (deletes: seq<string>)
    ensures deletes == Deletes(oldStubs, newStubs)
  {
    deletes := [];
    for i := 0 to |oldStubs|
      invariant deletes == Deletes(oldStubs[..i], newStubs)
    {
      assert oldStubs[..i + 1][..i] == oldStubs[..i];
      if oldStubs[i] !in newStubs {
        deletes := deletes + [oldStubs[i]];
      }
    }
    assert oldStubs[..|oldStubs|] == oldStubs;
  }

  /** The whole plan. */
  datatype Plan = Plan(adds: seq<string>, edits: seq<string>, deletes: seq<string>)

  /** The plan regenerate reports for the given staged paths, tree and stub lists. */
  function PlanFor(paths: seq<string>, staged: Files, tree: Files, oldStubs: seq<string>, newStubs: seq<string>): Plan
    requires forall q <- paths :: q in staged
  {
    var c := Compare(paths, staged, tree);
    Plan(c.adds, c.edits, Deletes(oldStubs, newStubs))
  }

  /** The tree regenerate leaves for the given staged paths, tree and stub lists. */
  function TreeAfter(paths: seq<string>, staged: Files, tree: Files, oldStubs: seq<string>, newStubs: seq<string>,
                     dryRun: bool): Files
    requires forall q <- paths :: q in staged
  {
    Apply(Compare(paths, staged, tree).tree, PlanFor(paths, staged, tree, oldStubs, newStubs), staged, dryRun)
  }

  /**
   * The comparison and deletion loops of regenerate and the changes it then
   * makes to the tree.
   */
  method Sync(paths: seq<string>, staged: Files, tree: Files, oldStubs: seq<string>, newStubs: seq<string>,
              dryRun: bool) returns (plan: Plan, tree': Files)
    requires forall q <- paths :: q in staged
    ensures plan == PlanFor(paths, staged, tree, oldStubs, newStubs)
    ensures tree' == TreeAfter(paths, staged, tree, oldStubs, newStubs, dryRun)
  {
    var adds, edits, compared := ComparePaths(paths, staged, tree);
    var deletes := FindDeletes(oldStubs, newStubs);
    plan := Plan(adds, edits, deletes);
    tree' := compared;
    if !dryRun {
      tree' := Apply(compared, plan, staged, false);
    }
  }

  /**
   * The tree after the run. Adds were copied during the comparison, also in
   * a dry run; outside a dry run deleted stubs are removed and edited files
   * are overwritten with their staged content.
   */
  function Apply(compared: Files, plan: Plan, staged: Files, dryRun: bool): Files {
    if dryRun then compared
    else
      var kept := compared - set p <- plan.deletes;
      map p | p in kept :: if p in plan.edits && p in staged then staged[p] else kept[p]
  }

  /**
   * After a run that is not dry, the tree holds every staged file with its
   * staged content, so the staged paths compare equal on the next run;
   * stubs that are no longer generated are gone.
   */
  lemma ApplySyncs(staged: Files, tree: Files, paths: seq<string>, oldStubs: seq<string>, newStubs: seq<string>, p: string)
    requires forall q <- paths :: q in staged
    requires forall q <- oldStubs :: q !in paths || q in newStubs
    ensures var c := Compare(paths, staged, tree);
            var plan := Plan(c.adds, c.edits, Deletes(oldStubs, newStubs));
            && (p in paths ==> p in Apply(c.tree, plan, staged, false) && Apply(c.tree, plan, staged, false)[p] == staged[p])
            && (p in oldStubs && p !in newStubs ==> p !in Apply(c.tree, plan, staged, false))
  {
    CompareClassifies(paths, staged, tree, p);
    DeletesIff(oldStubs, newStubs, p);
  }

  /** Running again on the tree a run that is not dry left behind finds nothing to add or edit. */
  lemma RerunFindsNoChanges(staged: Files, tree: Files, paths: seq<string>, oldStubs: seq<string>, newStubs: seq<string>)
    requires forall q <- paths :: q in staged
    requires forall q <- oldStubs :: q !in paths || q in newStubs
    ensures var c := Compare(paths, staged, tree);
            var after := Apply(c.tree, Plan(c.adds, c.edits, Deletes(oldStubs, newStubs)), staged, false);
            Compare(paths, staged, after) == Comparison([], [], after)
  {
    var c := Compare(paths, staged, tree);
    var after := Apply(c.tree, Plan(c.adds, c.edits, Deletes(oldStubs, newStubs)), staged, false);
    forall q <- paths
      ensures q in after && after[q] == staged[q]
    {
      ApplySyncs(staged, tree, paths, oldStubs, newStubs, q);
    }
    CompareUpToDate(paths, staged, after);
  }

  /** A dry run leaves the comparison's tree, that is, the tree with the adds copied. */
  lemma DryRunCopiesAdds(staged: Files, tree: Files, paths: seq<string>, plan: Plan, p: string)
    requires forall q <- paths :: q in staged
    requires plan.adds == Compare(paths, staged, tree).adds
    ensures p in plan.adds ==> p in Apply(Compare(paths, staged, tree).tree, plan, staged, true)
    ensures p in tree ==> p in Apply(Compare(paths, staged, tree).tree, plan, staged, true)
                          && Apply(Compare(paths, staged, tree).tree, plan, staged, true)[p] == tree[p]
  {
    CompareClassifies(paths, staged, tree, p);
  }
}
