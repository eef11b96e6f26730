/** The generated files of one Run and their removal, which may stop at any operation. */
module ArtifactDirectory {
  import opened Sequences

  /** The four generated entries, and everything else in the directory (job, input, lock file). */
  datatype Entry = Output | Artifacts | Executions | EventLog | Kept

  datatype File = File(entry: Entry, name: string)

  const GENERATED: seq<Entry> := [Output, Artifacts, Executions, EventLog]

  ghost predicate NoneOf(files: set<File>, entry: Entry) {
    forall f | f in files :: f.entry != entry
  }

  /** The first k generated entries are gone. */
  ghost predicate GoneUpTo(files: set<File>, k: nat)
    requires k <= |GENERATED|
  {
    forall i | 0 <= i < k :: NoneOf(files, GENERATED[i])
  }

  function KeptFiles(files: set<File>): set<File> { set f | f in files && f.entry == Kept }

  /** Some files went, none of them a kept one, and nothing came. */
  ghost predicate OnlyGeneratedRemoved(before: set<File>, after: set<File>) {
    after <= before && KeptFiles(after) == KeptFiles(before)
  }

  lemma AllGenerated(files: set<File>)
    ensures GoneUpTo(files, |GENERATED|) <==> files == KeptFiles(files)
  {
    if GoneUpTo(files, |GENERATED|) {
      forall f | f in files
        ensures f.entry == Kept
      {
        assert NoneOf(files, GENERATED[0]) && NoneOf(files, GENERATED[1]);
        assert NoneOf(files, GENERATED[2]) && NoneOf(files, GENERATED[3]);
      }
    }
  }

  /** A file of an entry goes only when the entries before it are gone. */
  ghost predicate GoneInOrder(before: set<File>, after: set<File>) {
    forall i, j, f | 0 <= i < j < |GENERATED| && f in before - after && f.entry == GENERATED[j] ::
      NoneOf(after, GENERATED[i])
  }

  /** What is left after the first k entries have been visited. */
  ghost predicate Visited(before: set<File>, after: set<File>, k: nat)
    requires k <= |GENERATED|
  {
    && OnlyGeneratedRemoved(before, after) && GoneInOrder(before, after)
    && forall f | f in before - after :: f.entry in GENERATED[..k]
  }

  lemma OneEntryMore(before: set<File>, middle: set<File>, after: set<File>, k: nat)
    requires k < |GENERATED| && Visited(before, middle, k)
    requires after <= middle && forall f | f in middle - after :: f.entry == GENERATED[k]
    requires after != middle ==> GoneUpTo(middle, k)
    ensures Visited(before, after, k + 1)
    ensures GoneUpTo(middle, k) && NoneOf(after, GENERATED[k]) ==> GoneUpTo(after, k + 1)
  {
    forall f | f in before - after
      ensures f.entry in GENERATED[..k + 1]
    {
      if f in middle {
        assert GENERATED[..k + 1][k] == GENERATED[k];
      } else {
        var i :| 0 <= i < k && GENERATED[..k][i] == f.entry;
        assert GENERATED[..k + 1][i] == f.entry;
      }
    }
    assert KeptFiles(after) == KeptFiles(middle);
    forall i, j, f | 0 <= i < j < |GENERATED| && f in before - after && f.entry == GENERATED[j]
      ensures NoneOf(after, GENERATED[i])
    {
      if f !in middle {
        assert NoneOf(middle, GENERATED[i]);
      } else {
        assert j == k && NoneOf(middle, GENERATED[i]);
      }
    }
  }

  class RunDirectory {
    var files: set<File>
    var marker: bool

    constructor (files: set<File>)
      ensures this.files == files && !marker
    {
      this.files, marker := files, false;
    }

    /** Unlinks one file after another below an entry until none is left or the budget of operations is spent. */
    method RemoveEntry(entry: Entry, budget: nat) returns (left: nat)
      modifies this`files
      ensures files <= old(files) && left <= budget && |files| + (budget - left) == |old(files)|
      ensures forall f | f in old(files) - files :: f.entry == entry
      ensures left > 0 ==> NoneOf(files, entry)
    {
      left := budget;
      while left > 0 && exists f :: f in files && f.entry == entry
        invariant files <= old(files) && left <= budget && |files| + (budget - left) == |old(files)|
        invariant forall f | f in old(files) - files :: f.entry == entry
        decreases left
      {
        var f :| f in files && f.entry == entry;
        files, left := files - {f}, left - 1;
      }
    }

    /**
      The expiry marker first, then each generated entry in turn. It stops after any
      number of operations; a later call goes on from what is left.
     */
    method RemoveGeneratedEntries(budget: nat) returns (complete: bool)
      modifies this
      ensures OnlyGeneratedRemoved(old(files), files) && GoneInOrder(old(files), files)
      ensures marker <==> old(marker) || budget > 0
      ensures files != old(files) ==> marker
      ensures complete ==> marker && files == KeptFiles(old(files))
      ensures complete <==> budget > |old(files)| - |KeptFiles(old(files))|
    {
      ghost var before := files;
      if budget == 0 {
        CardinalityOfSubset(KeptFiles(files), files);
        return false;
      }
      marker := true;
      var left: nat := budget;
      for i := 0 to |GENERATED|
        invariant marker && Visited(before, files, i)
        invariant left <= budget && |files| + (budget - left) == |before|
        invariant left > 0 ==> GoneUpTo(files, i)
      {
        ghost var middle := files;
        if left > 0 {
          left := RemoveEntry(GENERATED[i], left);
        }
        OneEntryMore(before, middle, files, i);
      }
      AllGenerated(files);
      CardinalityOfSubset(KeptFiles(before), files);
      complete := left > 0;
    }
  }
}
