/**
 * The purge tool (remove_domain_archives.py): it reads the CDXJ index that
 * pywb serves, builds the validated search key of one domain, finds where
 * that key's entries start with `bisect_left`, pops every matching entry
 * at that position, and writes the rest of the index back.
 *
 * The index file is given as its lines and the new index as its text;
 * deleting the archive files the popped entries name, and the history
 * file, is not modelled. `is_match` is not part of this model: the tool
 * passes it the whole index tuple, so it is a parameter over entries here.
 */
module RemoveDomain {
  import opened Common
  import opened Order
  import opened Cdx
  import opened DomainKey

  /** `(searchString, 0, '')`: the smallest entry a key can have among its own. */
  function Probe(key: string): ShardEntry
  {
    ShardEntry(key, 0, "")
  }

  function RunMatch(isMatch: (ShardEntry, string) -> bool, key: string): ShardEntry -> bool
  {
    (e: ShardEntry) => isMatch(e, key)
  }

  // ---------------------------------------------------------------------------
  // The removal loop
  // ---------------------------------------------------------------------------

  /**
   * `while is_match(index[position], searchString): index.pop(position)`,
   * with the end-of-list test the loop needs (`matches` is `is_match` with
   * the key filled in): the entries popped are the maximal run of matching
   * entries from `position` on, in order, and the index keeps everything
   * before and after that run.
   */
  method RemoveRun<T>(index: seq<T>, position: nat, matches: T -> bool)
    returns (remaining: seq<T>, removed: seq<T>)
    requires position <= |index|
    ensures removed == index[position..position + MatchingRun(index[position..], matches)]
    ensures remaining == index[..position] + index[position + MatchingRun(index[position..], matches)..]
  {
    remaining, removed := index, [];
    while position < |remaining| && matches(remaining[position])
      invariant position + |removed| <= |index|
      invariant removed == index[position..position + |removed|]
      invariant remaining == index[..position] + index[position + |removed|..]
      invariant forall j :: 0 <= j < |removed| ==> matches(removed[j])
      decreases |remaining| - position
    {
      PopAt(index, remaining, position, |removed|);
      removed := removed + [remaining[position]];
      remaining := remaining[..position] + remaining[position + 1..];
    }
    RunEnds(index, remaining, removed, position, matches);
  }

  /** Popping at `position` from what is left after `m` pops there takes the next entry of the run. */
  lemma PopAt<T>(a: seq<T>, r: seq<T>, position: nat, m: nat)
    requires position + m <= |a| && r == a[..position] + a[position + m..]
    ensures |r| == |a| - m
    ensures position < |r| ==> r[position] == a[position + m]
    ensures position < |r| ==> r[..position] + r[position + 1..] == a[..position] + a[position + m + 1..]
    ensures position < |r| ==> a[position..position + m] + [r[position]] == a[position..position + m + 1]
  {
    if position < |r| {
      assert r[..position] == a[..position];
      assert r[position + 1..] == a[position + m + 1..];
    }
  }

  /** When the loop stops, the entries it popped are the whole matching run. */
  lemma RunEnds<T>(a: seq<T>, r: seq<T>, removed: seq<T>, position: nat, matches: T -> bool)
    requires position + |removed| <= |a| && r == a[..position] + a[position + |removed|..]
    requires removed == a[position..position + |removed|]
    requires forall j :: 0 <= j < |removed| ==> matches(removed[j])
    requires !(position < |r| && matches(r[position]))
    ensures |removed| == MatchingRun(a[position..], matches)
    ensures removed == a[position..position + MatchingRun(a[position..], matches)]
    ensures r == a[..position] + a[position + MatchingRun(a[position..], matches)..]
  {
    var s, m := a[position..], |removed|;
    if position < |r| {
      assert r[position] == a[position + m] == s[m];
    }
    assert forall j :: 0 <= j < m ==> s[j] == removed[j];
    MatchingRunUnique(s, matches, m);
  }

  /** The loop as written has no end-of-list test and counts into a misspelt name (`reults`). */
  function RemoveRunAsWritten(index: seq<ShardEntry>, position: nat, key: string, isMatch: (ShardEntry, string) -> bool)
    : (r: Result<seq<ShardEntry>, PyError>)
  {
    if position >= |index| then Err(IndexError)
    else if isMatch(index[position], key) then Err(NameError)
    else Ok(index)
  }

  /**
   * As written the loop never removes anything: a matching entry raises
   * (UnboundLocalError, a NameError) before it is popped, and an index
   * whose matching run reaches the end, empty or not, raises IndexError.
   */
  lemma AsWrittenNeverRemoves(index: seq<ShardEntry>, position: nat, key: string, isMatch: (ShardEntry, string) -> bool)
    requires position <= |index|
    ensures var n := MatchingRun(index[position..], RunMatch(isMatch, key));
      && (n > 0 ==> RemoveRunAsWritten(index, position, key, isMatch) == Err(NameError))
      && (n == 0 && position == |index| ==> RemoveRunAsWritten(index, position, key, isMatch) == Err(IndexError))
      && (RemoveRunAsWritten(index, position, key, isMatch).Ok? ==> n == 0)
  {
    if position < |index| {
      assert index[position..][0] == index[position];
    }
  }

  // ---------------------------------------------------------------------------
  // Writing the index back
  // ---------------------------------------------------------------------------

  /** The corrected write-back: each entry as a CDXJ line, ended by a newline. */
  function IndexText(index: seq<ShardEntry>): string
  {
    if index == [] then "" else FormatShardLine(index[0]) + "\n" + IndexText(index[1..])
  }

  /**
   * The write loop as written concatenates the int timestamp to a str
   * (TypeError) on the first entry; only an empty index is written.
   */
  function WriteIndexAsWritten(index: seq<ShardEntry>): (r: Result<string, PyError>)
  {
    if index == [] then Ok("") else Err(TypeError)
  }

  /** An entry that reads back from one line: a space-free key, no newline anywhere. */
  ghost predicate LineSafe(e: ShardEntry)
  {
    ' ' !in e.key && '\n' !in e.key && '\n' !in e.record
  }

  /** What the corrected write-back writes reads back as the same index, entry by entry. */
  lemma {:induction false} IndexTextRoundTrip(index: seq<ShardEntry>)
    requires forall i :: 0 <= i < |index| ==> LineSafe(index[i])
    ensures ParseAll(Lines(IndexText(index)), ParseShardLine) == Ok(index)
  {
    if index == [] {
      assert Split("", '\n') == [""];
    } else {
      var e := index[0];
      var line := FormatShardLine(e);
      ShardLineRoundTrip(e);
      IntToStringFreeOf(e.timestamp, '\n');
      assert '\n' !in line;
      IndexTextRoundTrip(index[1..]);
      LinesCons(line, IndexText(index[1..]));
      ParseAllCons(line, Lines(IndexText(index[1..])), ParseShardLine);
      HeadTail(index);
    }
  }

  /**
   * Any index left with an entry is lost as written, where the corrected
   * write-back of the same index reads back as it, entry by entry.
   */
  lemma AsWrittenWriteLosesIndex(index: seq<ShardEntry>)
    requires index != [] && forall i :: 0 <= i < |index| ==> LineSafe(index[i])
    ensures WriteIndexAsWritten(index) == Err(TypeError)
    ensures ParseAll(Lines(IndexText(index)), ParseShardLine) == Ok(index)
  {
    IndexTextRoundTrip(index);
  }

  /** The write loop over the new index. */
  method WriteIndex(index: seq<ShardEntry>) returns (text: string)
    ensures text == IndexText(index)
  {
    text := "";
    var i := 0;
    while i < |index|
      invariant i <= |index|
      invariant IndexText(index) == text + IndexText(index[i..])
    {
      assert index[i..][1..] == index[i + 1..];
      Regroup(text, FormatShardLine(index[i]), "\n", IndexText(index[i + 1..]));
      text := text + FormatShardLine(index[i]) + "\n";
      i := i + 1;
    }
    assert index[i..] == [];
  }

  // ---------------------------------------------------------------------------
  // The whole tool
  // ---------------------------------------------------------------------------

  /** What a run of the corrected tool leaves: the new index text and the entries it removed. */
  datatype Purge = Purge(newIndex: string, removed: seq<ShardEntry>)

  /**
   * The corrected removal on a parsed index: the run of matching entries
   * that starts at the lower bound of the key's probe comes out, and the
   * rest is written back.
   */
  function Purged(index: seq<ShardEntry>, key: string, isMatch: (ShardEntry, string) -> bool): Purge
  {
    PurgeFrom(index, Bisect(index, Probe(key), ShardLt, 0, |index|), RunMatch(isMatch, key))
  }

  /** The run of matching entries at `p` taken out, and the rest written back. */
  function PurgeFrom(index: seq<ShardEntry>, p: nat, matches: ShardEntry -> bool): Purge
    requires p <= |index|
  {
    Purge(IndexText(index[..p] + index[p + MatchingRun(index[p..], matches)..]), index[p..p + MatchingRun(index[p..], matches)])
  }

  /**
   * `main` of remove_domain_archives.py with its crashes corrected: parse the
   * index (a malformed line raises ValueError), validate the domain
   * (ValueError), remove the run that starts at the lower bound of the
   * probe, and write the rest back.
   */
  method RemoveDomainArchives(indexLines: seq<string>, domain: string, isMatch: (ShardEntry, string) -> bool)
    returns (r: Result<Purge, PyError>)
    ensures ParseAll(indexLines, ParseShardLine).Err? ==> r == Err(ParseAll(indexLines, ParseShardLine).error)
    ensures ParseAll(indexLines, ParseShardLine).Ok? && !ValidDomain(domain) ==> r == Err(ValueError)
    ensures ParseAll(indexLines, ParseShardLine).Ok? && ValidDomain(domain) ==>
      r == Ok(Purged(ParseAll(indexLines, ParseShardLine).value, ReversedKey(Split(domain, '.')), isMatch))
  {
    var parsed := ParseLines(indexLines, ParseShardLine);
    if parsed.Err? {
      return Err(parsed.error);
    }
    var index := parsed.value;
    var searchString := ValidatedSearchKey(domain);
    if searchString.Err? {
      return Err(searchString.error);
    }
    var purge := PurgeIndex(index, searchString.value, isMatch);
    return Ok(purge);
  }

  /** Lines 36-53 on the parsed index: search, pop the run, write the rest back. */
  method PurgeIndex(index: seq<ShardEntry>, key: string, isMatch: (ShardEntry, string) -> bool)
    returns (purge: Purge)
    ensures purge == Purged(index, key, isMatch)
  {
    var position := BisectLeft(index, Probe(key), ShardLt);
    purge := PurgeRun(index, position, RunMatch(isMatch, key));
  }

  /** Lines 38-53 from the search position on: pop the run, write the rest back. */
  method PurgeRun(index: seq<ShardEntry>, position: nat, matches: ShardEntry -> bool) returns (purge: Purge)
    requires position <= |index|
    ensures purge == PurgeFrom(index, position, matches)
  {
    var remaining, removed := RemoveRun(index, position, matches);
    var text := WriteIndex(remaining);
    purge := Purge(text, removed);
  }

  // ---------------------------------------------------------------------------
  // What the removal keeps
  // ---------------------------------------------------------------------------

  /**
   * On a sorted index the removal starts at the lower bound of the probe:
   * every entry before it sorts below the key's first possible entry, and
   * every entry from it on does not.
   */
  lemma RemovalStartsAtKey(index: seq<ShardEntry>, key: string)
    requires Sorted(index, ShardLt)
    ensures var p := Bisect(index, Probe(key), ShardLt, 0, |index|);
      && (forall i :: 0 <= i < p ==> ShardLt(index[i], Probe(key)))
      && (forall i :: p <= i < |index| ==> !ShardLt(index[i], Probe(key)))
  {
    SortedShardsSplit(index, Probe(key));
  }

  /**
   * The removed run and what is left make up the index again, with the run
   * at its old position; as multisets, nothing is lost or gained.
   */
  lemma RemovalSplitsIndex(index: seq<ShardEntry>, p: nat, key: string, isMatch: (ShardEntry, string) -> bool)
    requires p <= |index|
    ensures var n := MatchingRun(index[p..], RunMatch(isMatch, key));
      var remaining := index[..p] + index[p + n..];
      var removed := index[p..p + n];
      && remaining[..p] + removed + remaining[p..] == index
      && multiset(remaining) + multiset(removed) == multiset(index)
  {
    var n := MatchingRun(index[p..], RunMatch(isMatch, key));
    CutSlice(index, p, p + n);
  }

  /** Cutting `a[i..j]` out: putting it back restores `a`, and the multisets add up. */
  lemma CutSlice<T>(a: seq<T>, i: nat, j: nat)
    requires i <= j <= |a|
    ensures var rest := a[..i] + a[j..];
      && rest[..i] + a[i..j] + rest[i..] == a
      && multiset(rest) + multiset(a[i..j]) == multiset(a)
  {
    var rest := a[..i] + a[j..];
    assert rest[..i] == a[..i] && rest[i..] == a[j..];
    assert a[..i] + a[i..j] + a[j..] == a;
    calc {
      multiset(a);
      multiset(a[..i] + a[i..j] + a[j..]);
      multiset(a[..i]) + multiset(a[i..j]) + multiset(a[j..]);
      multiset(rest) + multiset(a[i..j]);
    }
  }

  /**
   * Every removed entry matches the key, and the entry that now follows the
   * index's first part, if any, does not: the run removed is maximal.
   */
  lemma RemovedRunIsMaximal(index: seq<ShardEntry>, p: nat, key: string, isMatch: (ShardEntry, string) -> bool)
    requires p <= |index|
    ensures var n := MatchingRun(index[p..], RunMatch(isMatch, key));
      var remaining := index[..p] + index[p + n..];
      && (forall e :: e in index[p..p + n] ==> isMatch(e, key))
      && (p < |remaining| ==> !isMatch(remaining[p], key))
  {
    var n := MatchingRun(index[p..], RunMatch(isMatch, key));
    MatchingRunFrom(index, p, RunMatch(isMatch, key));
    var remaining := index[..p] + index[p + n..];
    forall e | e in index[p..p + n] ensures isMatch(e, key) {
      var k :| 0 <= k < n && index[p..p + n][k] == e;
      assert index[p..p + n][k] == index[p + k];
    }
    if p < |remaining| {
      assert remaining[p] == index[p + n];
    }
  }

  /** Removing the run keeps a sorted index sorted. */
  lemma RemovalKeepsSorted(index: seq<ShardEntry>, p: nat, key: string, isMatch: (ShardEntry, string) -> bool)
    requires p <= |index| && Sorted(index, ShardLt)
    ensures var n := MatchingRun(index[p..], RunMatch(isMatch, key));
      Sorted(index[..p] + index[p + n..], ShardLt)
  {
    var n := MatchingRun(index[p..], RunMatch(isMatch, key));
    RemoveSliceSorted(index, p, p + n, ShardLt);
  }
}
