/**
 * The index audit (find_unindexed_files.py): the names of the archive files
 * on disk are kept sorted with `insort_left`; then every line of pywb's
 * CDXJ index names a file, which is looked up with `bisect_left` and popped
 * from the sorted list when present, or listed as missing otherwise. What
 * is left in the list is the files no index line names.
 *
 * The directory listing is given as its names, the index as its lines, and
 * reading the file name out of a line's JSON as the parameter `filenameOf`
 * (which may raise). The output files and progress lines are not modelled.
 */
module Unindexed {
  import opened Common
  import opened Order

  // ---------------------------------------------------------------------------
  // Building the sorted file list
  // ---------------------------------------------------------------------------

  /** `bisect.insort_left(a, x)`: `x` goes in before any entry that is not smaller. */
  function Insort(a: seq<string>, x: string): seq<string>
  {
    var k := Bisect(a, x, StrLt, 0, |a|);
    a[..k] + [x] + a[k..]
  }

  /** Inserting into a sorted list keeps it sorted. */
  lemma InsortSorted(a: seq<string>, x: string)
    requires Sorted(a, StrLt)
    ensures Sorted(Insort(a, x), StrLt)
  {
    StrLtIsStrictTotalOrder();
    SortedBisectSplits(a, x, StrLt);
    InsertAtLowerBoundSorted(a, x, StrLt);
  }

  /** Inserting adds exactly the one name. */
  lemma InsortAdds(a: seq<string>, x: string)
    ensures multiset(Insort(a, x)) == multiset(a) + multiset{x}
  {
    MultisetInsert(a, Bisect(a, x, StrLt, 0, |a|), x);
  }

  /** The list after the first `|names|` directory entries have been inserted. */
  function Insorted(names: seq<string>): seq<string>
  {
    if names == [] then [] else Insort(Insorted(names[..|names| - 1]), names[|names| - 1])
  }

  /** The built list is sorted. */
  lemma {:induction false} InsortedSorted(names: seq<string>)
    ensures Sorted(Insorted(names), StrLt)
  {
    if names != [] {
      InsortedSorted(names[..|names| - 1]);
      InsortSorted(Insorted(names[..|names| - 1]), names[|names| - 1]);
    }
  }

  /** The built list holds every directory entry exactly as often as the directory does. */
  lemma {:induction false} InsortedPermutation(names: seq<string>)
    ensures multiset(Insorted(names)) == multiset(names)
  {
    if names != [] {
      InsortedPermutation(names[..|names| - 1]);
      InsortAdds(Insorted(names[..|names| - 1]), names[|names| - 1]);
      MultisetSnoc(names);
    }
  }

  /** `insort_left` as the library does it: search, then insert. */
  method InsortLeft(a: seq<string>, x: string) returns (r: seq<string>)
    ensures r == Insort(a, x)
  {
    var k := BisectLeft(a, x, StrLt);
    r := a[..k] + [x] + a[k..];
  }

  /** `for archive in iterdir(): insort_left(archives, archive.name)`. */
  method BuildArchives(names: seq<string>) returns (archives: seq<string>)
    ensures archives == Insorted(names)
  {
    archives := [];
    var i := 0;
    while i < |names|
      invariant i <= |names|
      invariant archives == Insorted(names[..i])
    {
      PrefixInit(names, i);
      archives := InsortLeft(archives, names[i]);
      i := i + 1;
    }
    assert names[..i] == names;
  }

  // ---------------------------------------------------------------------------
  // Comparing against the index
  // ---------------------------------------------------------------------------

  /** Position of the first occurrence of `x` in `a`, or `|a|` when there is none. */
  function FirstIndex(a: seq<string>, x: string): (k: nat)
    ensures k <= |a|
    ensures k < |a| <==> x in a
    ensures k < |a| ==> a[k] == x
    ensures x !in a[..k]
  {
    if a == [] then 0
    else if a[0] == x then 0
    else
      var k := 1 + FirstIndex(a[1..], x);
      assert a[..k] == [a[0]] + a[1..][..k - 1];
      k
  }

  /** `a` with the first occurrence of `x` taken out, if there is one. */
  function RemoveFirst(a: seq<string>, x: string): seq<string>
  {
    var k := FirstIndex(a, x);
    if k < |a| then a[..k] + a[k + 1..] else a
  }

  /** Taking out one occurrence lowers its multiplicity by one. */
  lemma RemoveFirstMultiset(a: seq<string>, x: string)
    requires x in a
    ensures multiset(RemoveFirst(a, x)) == multiset(a) - multiset{x}
  {
    var k := FirstIndex(a, x);
    MultisetRemoveAt(a, k);
    assert RemoveFirst(a, x) == a[..k] + a[k + 1..];
  }

  /** The two lists the audit produces: files no line names, and names with no file. */
  datatype Outcome = Outcome(unindexed: seq<string>, missing: seq<string>)

  /** One index line's file name: popped from the list when present, listed as missing otherwise. */
  function Step(o: Outcome, filename: string): Outcome
  {
    if filename in o.unindexed then o.(unindexed := RemoveFirst(o.unindexed, filename))
    else o.(missing := o.missing + [filename])
  }

  /** The lists after the first `|filenames|` index lines. */
  function Reconcile(archives: seq<string>, filenames: seq<string>): Outcome
  {
    if filenames == [] then Outcome(archives, [])
    else Step(Reconcile(archives, filenames[..|filenames| - 1]), filenames[|filenames| - 1])
  }

  /**
   * On a sorted list the search finds a name exactly when it is there, and
   * then at its first occurrence.
   */
  lemma LookupFindsFirst(a: seq<string>, x: string)
    requires Sorted(a, StrLt)
    ensures var k := Bisect(a, x, StrLt, 0, |a|);
      && ((k < |a| && a[k] == x) <==> x in a)
      && (x in a ==> k == FirstIndex(a, x))
  {
    StrLtIsStrictTotalOrder();
    SortedBisectSplits(a, x, StrLt);
    LowerBoundFindsLeftmost(a, x, StrLt);
  }

  /**
   * The lookup of lines 24-25 with the list it evidently means: the name is
   * popped at the position the search found when it is there, and listed as
   * missing otherwise; the list stays sorted.
   */
  method Consume(archives: seq<string>, missing: seq<string>, filename: string)
    returns (archives': seq<string>, missing': seq<string>)
    requires Sorted(archives, StrLt)
    ensures Outcome(archives', missing') == Step(Outcome(archives, missing), filename)
    ensures Sorted(archives', StrLt)
  {
    var position := BisectLeft(archives, filename, StrLt);
    LookupFindsFirst(archives, filename);
    if position < |archives| && archives[position] == filename {
      RemoveSliceSorted(archives, position, position + 1, StrLt);
      archives', missing' := archives[..position] + archives[position + 1..], missing;
    } else {
      archives', missing' := archives, missing + [filename];
    }
  }

  /**
   * The lookup as written, with its undefined list name read as `archives`:
   * a name sorting after every entry, or any name on an empty list, makes
   * `archives[position]` index one past the end.
   */
  function LookupAsWritten(archives: seq<string>, filename: string): (r: Result<bool, PyError>)
  {
    var position := Bisect(archives, filename, StrLt, 0, |archives|);
    if position < |archives| then Ok(archives[position] == filename) else Err(IndexError)
  }

  /**
   * A name greater than every file on disk is one the corrected lookup lists
   * as missing, where the lookup as written raises IndexError.
   */
  lemma LookupAsWrittenPastEnd(archives: seq<string>, filename: string)
    requires Sorted(archives, StrLt)
    requires forall i :: 0 <= i < |archives| ==> StrLt(archives[i], filename)
    ensures LookupAsWritten(archives, filename) == Err(IndexError)
    ensures Step(Outcome(archives, []), filename) == Outcome(archives, [filename])
  {
    StrLtIsStrictTotalOrder();
    SortedBisectSplits(archives, filename, StrLt);
    LowerBoundUnique(archives, filename, StrLt, |archives|);
  }

  /** Line `line` of the index: `_,_,info = line.split(' ', 2)`, then the file name in `info`. */
  function IndexFilename(filenameOf: string -> Result<string, PyError>): string -> Result<string, PyError>
  {
    (line: string) =>
      var parts := SplitMax(line, ' ', 2);
      if |parts| != 3 then Err(ValueError) else filenameOf(parts[2])
  }

  /**
   * `main` of find_unindexed_files.py: build the sorted list, then take each
   * index line's file name off it or list it as missing. A line without
   * three parts raises ValueError, and `filenameOf`'s errors are raised as
   * they come.
   */
  method FindUnindexedFiles(names: seq<string>, indexLines: seq<string>, filenameOf: string -> Result<string, PyError>)
    returns (r: Result<Outcome, PyError>)
    ensures var fs := ParseAll(indexLines, IndexFilename(filenameOf));
      && (fs.Err? ==> r == Err(fs.error))
      && (fs.Ok? ==> r == Ok(Reconcile(Insorted(names), fs.value)))
  {
    var archives := BuildArchives(names);
    InsortedSorted(names);
    var missing := [];
    ghost var fs := [];
    ghost var parse := IndexFilename(filenameOf);
    var i := 0;
    while i < |indexLines|
      invariant i <= |indexLines|
      invariant ParseAll(indexLines[..i], parse) == Ok(fs)
      invariant Outcome(archives, missing) == Reconcile(Insorted(names), fs)
      invariant Sorted(archives, StrLt)
    {
      ParseAllSnoc(indexLines, i, parse);
      var parts := SplitMax(indexLines[i], ' ', 2);
      if |parts| != 3 {
        ParseAllPrefixErr(indexLines, i + 1, parse);
        return Err(ValueError);
      }
      var filename := filenameOf(parts[2]);
      if filename.Err? {
        ParseAllPrefixErr(indexLines, i + 1, parse);
        return Err(filename.error);
      }
      archives, missing := Consume(archives, missing, filename.value);
      assert (fs + [filename.value])[..|fs|] == fs;
      fs := fs + [filename.value];
      i := i + 1;
    }
    assert indexLines[..i] == indexLines;
    return Ok(Outcome(archives, missing));
  }

  /**
   * `main` as written: line 24 searches `a`, a name no scope defines, so the
   * first line whose file name is read raises NameError before anything is
   * popped. A malformed first line raises its own error first, and an empty
   * index finishes with every file left over. Whenever every line parses,
   * the corrected run succeeds where this one raises.
   */
  function FindUnindexedAsWritten(names: seq<string>, indexLines: seq<string>, filenameOf: string -> Result<string, PyError>)
    : (r: Result<Outcome, PyError>)
    ensures r.Ok? <==> indexLines == []
    ensures r.Ok? ==> r.value.unindexed == Insorted(names) && r.value.missing == []
    ensures indexLines != [] && ParseAll(indexLines, IndexFilename(filenameOf)).Ok? ==> r == Err(NameError)
    ensures indexLines != [] && IndexFilename(filenameOf)(indexLines[0]).Err? ==>
      ParseAll(indexLines, IndexFilename(filenameOf)).Err? && r == Err(ParseAll(indexLines, IndexFilename(filenameOf)).error)
  {
    if indexLines == [] then Ok(Outcome(Insorted(names), []))
    else
      match IndexFilename(filenameOf)(indexLines[0])
      case Err(e) => Err(e)
      case Ok(_) => Err(NameError)
  }

  // ---------------------------------------------------------------------------
  // What the audit promises
  // ---------------------------------------------------------------------------

  /**
   * Every index file name lands in exactly one place: it is taken off the
   * list of files or it is listed as missing. As multisets, the files on
   * disk plus the missing names are the files left plus the names read.
   */
  lemma {:induction false} ReconcileAccounts(archives: seq<string>, filenames: seq<string>)
    ensures var o := Reconcile(archives, filenames);
      multiset(archives) + multiset(o.missing) == multiset(o.unindexed) + multiset(filenames)
  {
    if filenames != [] {
      var init := filenames[..|filenames| - 1];
      var f := filenames[|filenames| - 1];
      ReconcileAccounts(archives, init);
      var o := Reconcile(archives, init);
      if f in o.unindexed {
        RemoveFirstMultiset(o.unindexed, f);
      }
      MultisetSnoc(filenames);
    }
  }

  /** The list of files stays sorted. */
  lemma {:induction false} ReconcileSorted(archives: seq<string>, filenames: seq<string>)
    requires Sorted(archives, StrLt)
    ensures Sorted(Reconcile(archives, filenames).unindexed, StrLt)
  {
    if filenames != [] {
      var init := filenames[..|filenames| - 1];
      var f := filenames[|filenames| - 1];
      ReconcileSorted(archives, init);
      var a := Reconcile(archives, init).unindexed;
      if f in a {
        var k := FirstIndex(a, f);
        RemoveSliceSorted(a, k, k + 1, StrLt);
      }
    }
  }

  /**
   * Names with no file on disk are all listed as missing, once per index
   * line and in index order, and the file list is left as it was.
   */
  lemma {:induction false} NothingOnDisk(archives: seq<string>, filenames: seq<string>)
    requires forall i :: 0 <= i < |filenames| ==> filenames[i] !in archives
    ensures Reconcile(archives, filenames) == Outcome(archives, filenames)
  {
    if filenames != [] {
      var init := filenames[..|filenames| - 1];
      NothingOnDisk(archives, init);
      assert filenames == init + [filenames[|filenames| - 1]];
    }
  }

  /**
   * When the disk holds every indexed name at least as often as the index
   * names it, nothing is missing and the files left are the rest.
   */
  lemma {:induction false} AllIndexedFilesPresent(archives: seq<string>, filenames: seq<string>)
    requires multiset(filenames) <= multiset(archives)
    ensures Reconcile(archives, filenames).missing == []
    ensures multiset(Reconcile(archives, filenames).unindexed) == multiset(archives) - multiset(filenames)
  {
    if filenames != [] {
      var init := filenames[..|filenames| - 1];
      var f := filenames[|filenames| - 1];
      assert filenames == init + [f];
      AllIndexedFilesPresent(archives, init);
      var left := Reconcile(archives, init).unindexed;
      assert multiset(left)[f] == multiset(archives)[f] - multiset(init)[f] > 0;
      RemoveFirstMultiset(left, f);
    }
  }

  /** A name indexed twice but on disk once is taken off once, then listed as missing. */
  lemma DuplicateIndexedOnce(x: string)
    ensures Reconcile([x], [x, x]) == Outcome([], [x])
  {
    assert [x, x][..1] == [x];
    assert [x][..0] == [];
    assert FirstIndex([x], x) == 0;
    assert RemoveFirst([x], x) == [];
    assert Reconcile([x], [x]) == Outcome([], []);
    assert x !in Reconcile([x], [x]).unindexed;
  }
}
