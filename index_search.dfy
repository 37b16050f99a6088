/**
 * verify_history.py: recounting a domain's captures in one archive from the
 * cached index files, and comparing the count with the recorded history.
 *
 * The search has two stages. Over the sorted cluster index it takes the
 * lower bound of the probe `(key + "(", 0, "", 0, 0, 0)`, always keeps the
 * entry just before it (with Python's wrap to the last entry when the lower
 * bound is 0), and then the run of entries from the lower bound on whose
 * key matches. Over each kept cluster's block of shard lines it counts the
 * run of matching keys, starting from the lower bound of `(key, 0, "")` in
 * the first kept cluster and from the top of every other one.
 *
 * `is_match` is not part of this model; it is a parameter. Reading a file
 * is a parameter too: `readShard` gives the lines of the cached block file
 * with a given name.
 */
module IndexSearch {
  import opened Common
  import opened Order
  import opened Cdx
  import opened DomainKey
  import opened Folds

  function ClusterProbe(key: string): ClusterEntry
  {
    ClusterEntry(key + "(", 0, "", 0, 0, 0)
  }

  function ShardProbe(key: string): ShardEntry
  {
    ShardEntry(key, 0, "")
  }

  function ClusterMatch(isMatch: (string, string) -> bool, key: string): ClusterEntry -> bool
  {
    (e: ClusterEntry) => isMatch(e.key, key)
  }

  function ShardMatch(isMatch: (string, string) -> bool, key: string): ShardEntry -> bool
  {
    (e: ShardEntry) => isMatch(e.key, key)
  }

  // ---------------------------------------------------------------------------
  // Stage one: the clusters to read
  // ---------------------------------------------------------------------------

  /** On a sorted cluster index the lower bound splits it at the probe. */
  lemma ClusterStartSplits(cindex: seq<ClusterEntry>, key: string)
    requires Sorted(cindex, ClusterLt)
    ensures var p := Bisect(cindex, ClusterProbe(key), ClusterLt, 0, |cindex|);
      && (forall i :: 0 <= i < p ==> ClusterLt(cindex[i], ClusterProbe(key)))
      && (forall i :: p <= i < |cindex| ==> !ClusterLt(cindex[i], ClusterProbe(key)))
  {
    SortedClustersSplit(cindex, ClusterProbe(key));
  }

  /**
   * The positions of the clusters stage one keeps, in order: the entry
   * before the lower bound (the last entry when the lower bound is 0), then
   * the maximal run of matching entries from the lower bound on. An empty
   * index raises IndexError at `cindex[position - 1]`.
   */
  function Candidates(cindex: seq<ClusterEntry>, key: string, isMatch: (string, string) -> bool)
    : (r: Result<seq<nat>, PyError>)
    ensures r.Err? <==> cindex == []
    ensures r.Err? ==> r.error == IndexError
    ensures r.Ok? ==> |r.value| >= 1 && forall i :: 0 <= i < |r.value| ==> r.value[i] < |cindex|
  {
    if cindex == [] then Err(IndexError)
    else Ok(KeptFrom(cindex, Bisect(cindex, ClusterProbe(key), ClusterLt, 0, |cindex|), key, isMatch))
  }

  /** The kept positions once the search has stopped at `p`. */
  function KeptFrom(cindex: seq<ClusterEntry>, p: nat, key: string, isMatch: (string, string) -> bool): (r: seq<nat>)
    requires cindex != [] && p <= |cindex|
    ensures |r| >= 1 && forall i :: 0 <= i < |r| ==> r[i] < |cindex|
  {
    var prev := if p == 0 then |cindex| - 1 else p - 1;
    [prev] + Range(p, MatchingRun(cindex[p..], ClusterMatch(isMatch, key)))
  }

  /** The first kept cluster is the one just before the lower bound, or the last one when the lower bound is 0. */
  lemma CandidatesFirst(cindex: seq<ClusterEntry>, key: string, isMatch: (string, string) -> bool)
    requires cindex != []
    ensures var p := Bisect(cindex, ClusterProbe(key), ClusterLt, 0, |cindex|);
      Candidates(cindex, key, isMatch).value[0] == if p == 0 then |cindex| - 1 else p - 1
  {
  }

  /**
   * After the first, stage one keeps the positions `p, p + 1, ...` from the
   * lower bound `p` for as long as their keys match, and stops at the first
   * key that does not match or at the end.
   */
  lemma CandidatesRun(cindex: seq<ClusterEntry>, key: string, isMatch: (string, string) -> bool)
    requires cindex != []
    ensures var r := Candidates(cindex, key, isMatch).value;
      var p := Bisect(cindex, ClusterProbe(key), ClusterLt, 0, |cindex|);
      && (forall i :: 1 <= i < |r| ==> r[i] == p + i - 1 && isMatch(cindex[p + i - 1].key, key))
      && (p + |r| - 1 < |cindex| ==> !isMatch(cindex[p + |r| - 1].key, key))
  {
    var p := Bisect(cindex, ClusterProbe(key), ClusterLt, 0, |cindex|);
    RunPositions(cindex, p, key, isMatch);
  }

  lemma RunPositions(cindex: seq<ClusterEntry>, p: nat, key: string, isMatch: (string, string) -> bool)
    requires cindex != [] && p <= |cindex|
    ensures var r := KeptFrom(cindex, p, key, isMatch);
      && (forall i :: 1 <= i < |r| ==> r[i] == p + i - 1 && isMatch(cindex[p + i - 1].key, key))
      && (p + |r| - 1 < |cindex| ==> !isMatch(cindex[p + |r| - 1].key, key))
  {
    MatchingRunFrom(cindex, p, ClusterMatch(isMatch, key));
  }

  /** The positions `lo, lo + 1, ..., lo + n - 1`. */
  function Range(lo: nat, n: nat): (r: seq<nat>)
    ensures |r| == n && forall i :: 0 <= i < n ==> r[i] == lo + i
  {
    if n == 0 then [] else Range(lo, n - 1) + [lo + n - 1]
  }

  /**
   * The first loop of `main` for one domain: `bisect_left`, the unconditional
   * `cindex[position - 1]`, then the entries while they match.
   */
  method CollectClusters(cindex: seq<ClusterEntry>, key: string, isMatch: (string, string) -> bool)
    returns (r: Result<seq<nat>, PyError>)
    ensures r == Candidates(cindex, key, isMatch)
  {
    var position := BisectLeft(cindex, ClusterProbe(key), ClusterLt);
    if |cindex| == 0 {
      return Err(IndexError);
    }
    var clusters := [if position == 0 then |cindex| - 1 else position - 1];
    var run := MatchingClusters(cindex, position, key, isMatch);
    assert clusters + run == KeptFrom(cindex, position, key, isMatch);
    return Ok(clusters + run);
  }

  /** The `while ... is_match(...)` loop of stage one: the positions of the matching run from `start`. */
  method MatchingClusters(cindex: seq<ClusterEntry>, start: nat, key: string, isMatch: (string, string) -> bool)
    returns (clusters: seq<nat>)
    requires start <= |cindex|
    ensures clusters == Range(start, MatchingRun(cindex[start..], ClusterMatch(isMatch, key)))
  {
    clusters := [];
    var position := start;
    while position < |cindex| && isMatch(cindex[position].key, key)
      invariant start <= position <= |cindex|
      invariant clusters == Range(start, position - start)
      invariant forall i :: start <= i < position ==> isMatch(cindex[i].key, key)
    {
      clusters := clusters + [position];
      position := position + 1;
    }
    ghost var rest := cindex[start..];
    assert forall i :: 0 <= i < position - start ==> rest[i] == cindex[start + i];
    MatchingRunUnique(rest, ClusterMatch(isMatch, key), position - start);
  }

  // ---------------------------------------------------------------------------
  // Stage two: counting inside the blocks
  // ---------------------------------------------------------------------------

  /** `cluster[2] + '-' + str(cluster[5])`: the name of a cluster's cached block. */
  function ShardFileName(e: ClusterEntry): string
  {
    e.shard + "-" + IntToString(e.cluster)
  }

  /** Where counting starts in a block: the lower bound of `(key, 0, "")` in the first cluster, 0 in every other. */
  function BlockStart(block: seq<ShardEntry>, first: bool, key: string): (start: nat)
    ensures start <= |block|
  {
    if first then Bisect(block, ShardProbe(key), ShardLt, 0, |block|) else 0
  }

  /** What one block adds to `matches`: the length of the run of matching keys from `start`. */
  function BlockMatches(block: seq<ShardEntry>, start: nat, key: string, isMatch: (string, string) -> bool): nat
    requires start <= |block|
  {
    MatchingRun(block[start..], ShardMatch(isMatch, key))
  }

  /**
   * A block's matches are the entries from the start position on whose keys
   * match, up to the first that does not or the end of the block.
   */
  lemma BlockMatchesIsRun(block: seq<ShardEntry>, start: nat, key: string, isMatch: (string, string) -> bool)
    requires start <= |block|
    ensures var n := BlockMatches(block, start, key, isMatch);
      && start + n <= |block|
      && (forall i :: start <= i < start + n ==> isMatch(block[i].key, key))
      && (start + n < |block| ==> !isMatch(block[start + n].key, key))
  {
    MatchingRunFrom(block, start, ShardMatch(isMatch, key));
  }

  /** In the first cluster, counting starts at the first entry not below `(key, 0, "")`. */
  lemma FirstBlockStart(block: seq<ShardEntry>, key: string)
    requires Sorted(block, ShardLt)
    ensures var start := BlockStart(block, true, key);
      && (forall i :: 0 <= i < start ==> ShardLt(block[i], ShardProbe(key)))
      && (forall i :: start <= i < |block| ==> !ShardLt(block[i], ShardProbe(key)))
  {
    SortedShardsSplit(block, ShardProbe(key));
  }

  /**
   * The cached block of each cluster, read from the file named after it and
   * parsed line by line: a line that does not split into three parts or
   * whose timestamp is not a number raises ValueError.
   */
  function ShardBlocks(readShard: string -> seq<string>): ClusterEntry -> Result<seq<ShardEntry>, PyError>
  {
    (e: ClusterEntry) => ParseAll(readShard(ShardFileName(e)), ParseShardLine)
  }

  /** A block fails to load only on a line that does not parse, which is a ValueError. */
  lemma ShardBlockErrors(readShard: string -> seq<string>, e: ClusterEntry)
    ensures ShardBlocks(readShard)(e).Err? ==> ShardBlocks(readShard)(e).error == ValueError
  {
    var lines := readShard(ShardFileName(e));
    ParseAllSpec(lines, ParseShardLine);
    if ParseAll(lines, ParseShardLine).Err? {
      var i :| 0 <= i < |lines| && ParseShardLine(lines[i]) == Err(ParseAll(lines, ParseShardLine).error);
    }
  }

  /**
   * What the kept cluster at `pos` adds to `matches`: its block is loaded,
   * and counting starts at the lower bound in the first kept
   * cluster (`cluster is clusters[0]`, the same position) and at the top of
   * every other. A block that does not load raises its error.
   */
  function CountAt(cindex: seq<ClusterEntry>, firstPos: nat, key: string, isMatch: (string, string) -> bool,
                   blockOf: ClusterEntry -> Result<seq<ShardEntry>, PyError>, pos: nat): (r: Result<nat, PyError>)
    ensures pos < |cindex| ==> (r.Ok? <==> blockOf(cindex[pos]).Ok?)
    ensures pos < |cindex| && r.Err? ==> r.error == blockOf(cindex[pos]).error
  {
    if pos >= |cindex| then Err(IndexError)
    else
      match blockOf(cindex[pos])
      case Err(e) => Err(e)
      case Ok(block) => Ok(BlockMatches(block, BlockStart(block, pos == firstPos, key), key, isMatch))
  }

  function ClusterCount(cindex: seq<ClusterEntry>, firstPos: nat, key: string, isMatch: (string, string) -> bool,
                        blockOf: ClusterEntry -> Result<seq<ShardEntry>, PyError>): nat -> Result<nat, PyError>
  {
    (pos: nat) => CountAt(cindex, firstPos, key, isMatch, blockOf, pos)
  }

  /**
   * The number of captures of a domain the cached files of one archive
   * hold: the sum over the kept clusters of each block's matching run.
   */
  function DomainMatches(cindex: seq<ClusterEntry>, key: string, isMatch: (string, string) -> bool,
                         blockOf: ClusterEntry -> Result<seq<ShardEntry>, PyError>): Result<nat, PyError>
  {
    match Candidates(cindex, key, isMatch)
    case Err(e) => Err(e)
    case Ok(picks) => SumAll(picks, ClusterCount(cindex, picks[0], key, isMatch, blockOf))
  }

  /**
   * A domain's count is found exactly when the index is not empty and every
   * kept cluster's block loads. Otherwise the error is IndexError for an empty index, or the error of
   * the first kept block that does not load: every kept block before it loads.
   */
  lemma DomainMatchesSpec(cindex: seq<ClusterEntry>, key: string, isMatch: (string, string) -> bool,
                          blockOf: ClusterEntry -> Result<seq<ShardEntry>, PyError>)
    ensures var r := DomainMatches(cindex, key, isMatch, blockOf);
      && (cindex == [] ==> r == Err(IndexError))
      && (cindex != [] ==> var picks := Candidates(cindex, key, isMatch).value;
           && (r.Ok? <==> forall i :: 0 <= i < |picks| ==> blockOf(cindex[picks[i]]).Ok?)
           && (r.Err? ==> exists i :: 0 <= i < |picks| && blockOf(cindex[picks[i]]) == Err(r.error)
                                      && (forall j :: 0 <= j < i ==> blockOf(cindex[picks[j]]).Ok?)))
  {
    if cindex != [] {
      KeptSumSpec(cindex, Candidates(cindex, key, isMatch).value, key, isMatch, blockOf);
    }
  }

  lemma KeptSumSpec(cindex: seq<ClusterEntry>, picks: seq<nat>, key: string, isMatch: (string, string) -> bool,
                    blockOf: ClusterEntry -> Result<seq<ShardEntry>, PyError>)
    requires |picks| >= 1 && forall i :: 0 <= i < |picks| ==> picks[i] < |cindex|
    ensures var r := SumAll(picks, ClusterCount(cindex, picks[0], key, isMatch, blockOf));
      && (r.Ok? <==> forall i :: 0 <= i < |picks| ==> blockOf(cindex[picks[i]]).Ok?)
      && (r.Err? ==> exists i :: 0 <= i < |picks| && blockOf(cindex[picks[i]]) == Err(r.error)
                                 && (forall j :: 0 <= j < i ==> blockOf(cindex[picks[j]]).Ok?))
  {
    var f := ClusterCount(cindex, picks[0], key, isMatch, blockOf);
    SumAllSpec(picks, f);
    assert forall i :: 0 <= i < |picks| ==> f(picks[i]) == CountAt(cindex, picks[0], key, isMatch, blockOf, picks[i]);
  }

  /**
   * The inner loop of `main` for one block: the start position (a
   * `bisect_left` in the first cluster), then one more match per matching
   * entry until the first entry that does not match or the end of the block.
   */
  method CountBlock(aindex: seq<ShardEntry>, first: bool, key: string, isMatch: (string, string) -> bool)
    returns (matches: nat)
    ensures matches == BlockMatches(aindex, BlockStart(aindex, first, key), key, isMatch)
  {
    var position := 0;
    if first {
      position := BisectLeft(aindex, ShardProbe(key), ShardLt);
    }
    matches := CountRun(aindex, position, key, isMatch);
  }

  /** `while position < len(aindex) and is_match(...)`: one more match per matching entry from `start`. */
  method CountRun(aindex: seq<ShardEntry>, start: nat, key: string, isMatch: (string, string) -> bool)
    returns (matches: nat)
    requires start <= |aindex|
    ensures matches == BlockMatches(aindex, start, key, isMatch)
  {
    var position := start;
    matches := 0;
    while position < |aindex| && isMatch(aindex[position].key, key)
      invariant start <= position <= |aindex|
      invariant matches == position - start
      invariant forall k :: start <= k < position ==> isMatch(aindex[k].key, key)
    {
      matches := matches + 1;
      position := position + 1;
    }
    assert forall k :: start <= k < position ==> aindex[start..][k - start] == aindex[k];
    MatchingRunUnique(aindex[start..], ShardMatch(isMatch, key), position - start);
  }

  /**
   * Both stages of `main` for one domain: the clusters to read, then for
   * each a block read, a start position and the count of matching entries.
   */
  method CountMatches(cindex: seq<ClusterEntry>, key: string, isMatch: (string, string) -> bool,
                      readShard: string -> seq<string>)
    returns (r: Result<nat, PyError>)
    ensures r == DomainMatches(cindex, key, isMatch, ShardBlocks(readShard))
  {
    var picked := CollectClusters(cindex, key, isMatch);
    if picked.Err? {
      return Err(picked.error);
    }
    r := CountKept(cindex, picked.value, key, isMatch, ShardBlocks(readShard));
  }

  /**
   * The loop over the kept clusters: each cluster's block loaded and its
   * matches counted and added; a block that does not load raises its error.
   */
  method CountKept(cindex: seq<ClusterEntry>, clusters: seq<nat>, key: string, isMatch: (string, string) -> bool,
                   blockOf: ClusterEntry -> Result<seq<ShardEntry>, PyError>)
    returns (r: Result<nat, PyError>)
    requires |clusters| >= 1 && forall i :: 0 <= i < |clusters| ==> clusters[i] < |cindex|
    ensures r == SumAll(clusters, ClusterCount(cindex, clusters[0], key, isMatch, blockOf))
  {
    ghost var count := ClusterCount(cindex, clusters[0], key, isMatch, blockOf);
    var matches := 0;
    var i := 0;
    assert clusters[..0] == [];
    while i < |clusters|
      invariant 0 <= i <= |clusters|
      invariant SumAll(clusters[..i], count) == Ok(matches)
    {
      var next := AddCluster(cindex, clusters, i, key, isMatch, blockOf, matches);
      if next.Err? {
        SumAllErrStays(clusters, i + 1, |clusters|, count);
        assert clusters[..|clusters|] == clusters;
        return next;
      }
      matches := next.value;
      i := i + 1;
    }
    assert clusters[..i] == clusters;
    return Ok(matches);
  }

  /**
   * One pass of the loop over the kept clusters: the block of cluster `i`
   * counted and added to the count so far, or its error.
   */
  method AddCluster(cindex: seq<ClusterEntry>, clusters: seq<nat>, i: nat, key: string, isMatch: (string, string) -> bool,
                    blockOf: ClusterEntry -> Result<seq<ShardEntry>, PyError>, matches: nat)
    returns (r: Result<nat, PyError>)
    requires i < |clusters| && clusters[i] < |cindex|
    requires SumAll(clusters[..i], ClusterCount(cindex, clusters[0], key, isMatch, blockOf)) == Ok(matches)
    ensures r == SumAll(clusters[..i + 1], ClusterCount(cindex, clusters[0], key, isMatch, blockOf))
  {
    ghost var count := ClusterCount(cindex, clusters[0], key, isMatch, blockOf);
    var step := CountCluster(cindex, clusters[0], key, isMatch, blockOf, clusters[i]);
    assert count(clusters[i]) == step;
    SumAllStep(clusters, i, count);
    r := AddStep(Ok(matches), step);
  }

  /** The body of the loop over the kept clusters, for the cluster at `pos`. */
  method CountCluster(cindex: seq<ClusterEntry>, firstPos: nat, key: string, isMatch: (string, string) -> bool,
                      blockOf: ClusterEntry -> Result<seq<ShardEntry>, PyError>, pos: nat)
    returns (r: Result<nat, PyError>)
    requires pos < |cindex|
    ensures r == CountAt(cindex, firstPos, key, isMatch, blockOf, pos)
  {
    var block := blockOf(cindex[pos]);
    if block.Err? {
      return Err(block.error);
    }
    var n := CountBlock(block.value, pos == firstPos, key, isMatch);
    return Ok(n);
  }

  // ---------------------------------------------------------------------------
  // Comparing with the recorded history
  // ---------------------------------------------------------------------------

  /** `(archiveID, domain, matches, recorded, flag)`: flag 0 for no history, 1 for a different count. */
  datatype Mismatch = Mismatch(archiveID: string, domain: string, matches: nat, recorded: int, flag: nat)

  /**
   * The comparison as evidently intended: no history for the archive is
   * reported with flag 0, a recorded count that differs with flag 1 and the
   * recorded count, and an equal count is not reported.
   */
  function Classify(archiveID: string, domain: string, matches: nat, history: map<string, int>)
    : (m: Option<Mismatch>)
    ensures m.None? <==> archiveID in history && history[archiveID] == matches
    ensures m.Some? ==> m.value.archiveID == archiveID && m.value.domain == domain && m.value.matches == matches
    ensures m.Some? ==> (m.value.flag == 0 <==> archiveID !in history)
    ensures m.Some? && archiveID !in history ==> m.value.recorded == 0
    ensures m.Some? && archiveID in history ==> m.value.flag == 1 && m.value.recorded == history[archiveID]
  {
    if archiveID !in history then Some(Mismatch(archiveID, domain, matches, 0, 0))
    else if history[archiveID] != matches then Some(Mismatch(archiveID, domain, matches, history[archiveID], 1))
    else None
  }

  /**
   * The comparison as written: the flag-1 branch calls `append` with two
   * arguments, a TypeError, so only the missing-history case is ever reported.
   */
  function ClassifyAsWritten(archiveID: string, domain: string, matches: nat, history: map<string, int>)
    : (r: Result<Option<Mismatch>, PyError>)
    ensures r.Err? <==> archiveID in history && history[archiveID] != matches
    ensures r.Err? ==> r.error == TypeError
    ensures r.Ok? ==> r.value == Classify(archiveID, domain, matches, history)
  {
    if archiveID !in history then Ok(Some(Mismatch(archiveID, domain, matches, 0, 0)))
    else if history[archiveID] != matches then Err(TypeError)
    else Ok(None)
  }

  /** The count of every search key in one archive, as `DomainMatches` gives it. */
  function Counts(cindex: seq<ClusterEntry>, isMatch: (string, string) -> bool,
                  blockOf: ClusterEntry -> Result<seq<ShardEntry>, PyError>): string -> Result<nat, PyError>
  {
    (key: string) => DomainMatches(cindex, key, isMatch, blockOf)
  }

  /**
   * One domain against one archive: its count (`countOf` of its search
   * key), compared with its history; a count that raises stops the run.
   */
  function CheckDomain(archiveID: string, historyOf: string -> map<string, int>,
                       countOf: string -> Result<nat, PyError>, d: Domain): (r: Result<Option<Mismatch>, PyError>)
    ensures r.Ok? <==> countOf(d.searchString).Ok?
    ensures r.Err? ==> r.error == countOf(d.searchString).error
    ensures r.Ok? && r.value.Some? ==>
      r.value.value.archiveID == archiveID && r.value.value.domain == d.name && r.value.value.flag <= 1
  {
    match countOf(d.searchString)
    case Err(e) => Err(e)
    case Ok(m) => Ok(Classify(archiveID, d.name, m, historyOf(d.name)))
  }

  function DomainCheck(archiveID: string, historyOf: string -> map<string, int>,
                       countOf: string -> Result<nat, PyError>): Domain -> Result<Option<Mismatch>, PyError>
  {
    (d: Domain) => CheckDomain(archiveID, historyOf, countOf, d)
  }

  /** The mismatches of the domains, in list order, against one archive. */
  function Report(archiveID: string, domains: seq<Domain>, historyOf: string -> map<string, int>,
                  countOf: string -> Result<nat, PyError>): Result<seq<Mismatch>, PyError>
  {
    CollectAll(domains, DomainCheck(archiveID, historyOf, countOf))
  }

  /** An archive's report is produced exactly when every domain can be counted. */
  lemma ReportOk(archiveID: string, domains: seq<Domain>, historyOf: string -> map<string, int>,
                 countOf: string -> Result<nat, PyError>)
    ensures Report(archiveID, domains, historyOf, countOf).Ok?
        <==> forall i :: 0 <= i < |domains| ==> countOf(domains[i].searchString).Ok?
  {
    var g := DomainCheck(archiveID, historyOf, countOf);
    CollectAllOk(domains, g);
    forall i | 0 <= i < |domains|
      ensures g(domains[i]).Ok? <==> countOf(domains[i].searchString).Ok?
    {
      assert g(domains[i]) == CheckDomain(archiveID, historyOf, countOf, domains[i]);
    }
  }

  /**
   * A report has at most one entry per domain, each about this archive and
   * one of the domains, flagged 0 or 1.
   */
  lemma ReportEntries(archiveID: string, domains: seq<Domain>, historyOf: string -> map<string, int>,
                      countOf: string -> Result<nat, PyError>)
    ensures var r := Report(archiveID, domains, historyOf, countOf);
      && (r.Ok? ==> |r.value| <= |domains|)
      && (r.Ok? ==> forall k :: 0 <= k < |r.value| ==>
            && r.value[k].archiveID == archiveID && r.value[k].flag <= 1
            && exists i :: 0 <= i < |domains| && r.value[k].domain == domains[i].name)
  {
    var g := DomainCheck(archiveID, historyOf, countOf);
    CollectAllFrom(domains, g);
    var r := Report(archiveID, domains, historyOf, countOf);
    if r.Ok? {
      forall k | 0 <= k < |r.value|
        ensures r.value[k].archiveID == archiveID && r.value[k].flag <= 1
        ensures exists i :: 0 <= i < |domains| && r.value[k].domain == domains[i].name
      {
        var i :| 0 <= i < |domains| && g(domains[i]) == Ok(Some(r.value[k]));
        assert g(domains[i]) == CheckDomain(archiveID, historyOf, countOf, domains[i]);
      }
    }
  }

  /**
   * One pass of the outer loop of `main`: the archive's cluster index read
   * and parsed, then every domain counted and compared in list order.
   */
  method VerifyArchive(lines: seq<string>, archiveID: string, domains: seq<Domain>,
                       historyOf: string -> map<string, int>, isMatch: (string, string) -> bool,
                       readShard: string -> seq<string>)
    returns (r: Result<seq<Mismatch>, PyError>)
    ensures ParseAll(lines, ParseClusterLine).Err? ==> r == Err(ParseAll(lines, ParseClusterLine).error)
    ensures ParseAll(lines, ParseClusterLine).Ok? ==>
      r == Report(archiveID, domains, historyOf, Counts(ParseAll(lines, ParseClusterLine).value, isMatch, ShardBlocks(readShard)))
  {
    var parsed := ParseLines(lines, ParseClusterLine);
    if parsed.Err? {
      return Err(parsed.error);
    }
    var cindex := parsed.value;
    ghost var countOf := Counts(cindex, isMatch, ShardBlocks(readShard));
    ghost var check := DomainCheck(archiveID, historyOf, countOf);
    var mismatches := [];
    var i := 0;
    assert domains[..0] == [];
    while i < |domains|
      invariant 0 <= i <= |domains|
      invariant CollectAll(domains[..i], check) == Ok(mismatches)
    {
      var d := domains[i];
      var matches := CountMatches(cindex, d.searchString, isMatch, readShard);
      assert countOf(d.searchString) == matches;
      if matches.Err? {
        assert check(d) == Err(matches.error);
        CollectAllFails(domains, i, check);
        return Err(matches.error);
      }
      var m := Classify(archiveID, d.name, matches.value, historyOf(d.name));
      assert check(d) == Ok(m);
      CollectAllNext(domains, i, check, mismatches, m);
      if m.Some? {
        mismatches := mismatches + [m.value];
      }
      i := i + 1;
    }
    assert domains[..i] == domains;
    return Ok(mismatches);
  }

  /**
   * The script never loads the domains' history, so every domain that can
   * be counted is reported for every archive, once, in list order, with flag 0.
   */
  lemma EmptyHistoryReportsEveryDomain(archiveID: string, domains: seq<Domain>,
                                       historyOf: string -> map<string, int>,
                                       countOf: string -> Result<nat, PyError>)
    requires forall name :: historyOf(name) == map[]
    ensures var r := Report(archiveID, domains, historyOf, countOf);
      r.Ok? ==> |r.value| == |domains| && forall k :: 0 <= k < |domains| ==> r.value[k].flag == 0 && r.value[k].domain == domains[k].name
  {
    var g := DomainCheck(archiveID, historyOf, countOf);
    if Report(archiveID, domains, historyOf, countOf).Ok? {
      CollectAllOk(domains, g);
      CollectAllEvery(domains, g);
    }
  }

  // ---------------------------------------------------------------------------
  // Every archive in the cache
  // ---------------------------------------------------------------------------

  /** One archive's directory in the cache: its ID, its `cluster.idx` lines and its index blocks. */
  datatype ArchiveCache = ArchiveCache(archiveID: string, clusterLines: seq<string>, readShard: string -> seq<string>)

  /** What one pass of the outer loop reports for an archive, or the error it raises. */
  function ArchiveReport(domains: seq<Domain>, historyOf: string -> map<string, int>, isMatch: (string, string) -> bool)
    : ArchiveCache -> Result<seq<Mismatch>, PyError>
  {
    (a: ArchiveCache) =>
      match ParseAll(a.clusterLines, ParseClusterLine)
      case Err(e) => Err(e)
      case Ok(cindex) => Report(a.archiveID, domains, historyOf, Counts(cindex, isMatch, ShardBlocks(a.readShard)))
  }

  /**
   * The outer loop of `main` over every cached `cluster.idx`, in the order
   * the directory listing gives them: `mismatches` collects every archive's
   * report, and the first error raised ends the run.
   */
  method VerifyHistory(caches: seq<ArchiveCache>, domains: seq<Domain>, historyOf: string -> map<string, int>,
                       isMatch: (string, string) -> bool)
    returns (r: Result<seq<Mismatch>, PyError>)
    ensures r == ConcatAll(caches, ArchiveReport(domains, historyOf, isMatch))
  {
    ghost var report := ArchiveReport(domains, historyOf, isMatch);
    var mismatches := [];
    var i := 0;
    assert caches[..0] == [];
    while i < |caches|
      invariant i <= |caches|
      invariant ConcatAll(caches[..i], report) == Ok(mismatches)
    {
      var cache := caches[i];
      var found := VerifyArchive(cache.clusterLines, cache.archiveID, domains, historyOf, isMatch, cache.readShard);
      assert report(cache) == found;
      if found.Err? {
        ConcatAllFails(caches, i, report);
        return Err(found.error);
      }
      ConcatAllNext(caches, i, report, mismatches, found.value);
      mismatches := mismatches + found.value;
      i := i + 1;
    }
    assert caches[..i] == caches;
    return Ok(mismatches);
  }

  /** An archive's cluster index parses. */
  predicate ArchiveParses(a: ArchiveCache)
  {
    ParseAll(a.clusterLines, ParseClusterLine).Ok?
  }

  /** An archive's cluster index parses and every domain can be counted in it. */
  predicate ArchiveCountable(a: ArchiveCache, domains: seq<Domain>, isMatch: (string, string) -> bool)
  {
    && ArchiveParses(a)
    && forall k :: 0 <= k < |domains| ==>
         Counts(ParseAll(a.clusterLines, ParseClusterLine).value, isMatch, ShardBlocks(a.readShard))(domains[k].searchString).Ok?
  }

  /** One archive's pass succeeds exactly when its cluster index parses and every domain can be counted in it. */
  lemma ArchiveReportOk(a: ArchiveCache, domains: seq<Domain>, historyOf: string -> map<string, int>,
                        isMatch: (string, string) -> bool)
    ensures ArchiveReport(domains, historyOf, isMatch)(a).Ok? <==> ArchiveCountable(a, domains, isMatch)
  {
    if ArchiveParses(a) {
      ReportOk(a.archiveID, domains, historyOf, Counts(ParseAll(a.clusterLines, ParseClusterLine).value, isMatch, ShardBlocks(a.readShard)));
    }
  }

  /**
   * The run over the cache succeeds exactly when every archive's cluster
   * index parses and every domain can be counted in it.
   */
  lemma VerifyHistoryOk(caches: seq<ArchiveCache>, domains: seq<Domain>, historyOf: string -> map<string, int>,
                        isMatch: (string, string) -> bool)
    ensures ConcatAll(caches, ArchiveReport(domains, historyOf, isMatch)).Ok?
        <==> forall i :: 0 <= i < |caches| ==> ArchiveCountable(caches[i], domains, isMatch)
  {
    var report := ArchiveReport(domains, historyOf, isMatch);
    ConcatAllOk(caches, report);
    forall i | 0 <= i < |caches|
      ensures report(caches[i]).Ok? <==> ArchiveCountable(caches[i], domains, isMatch)
    {
      ArchiveReportOk(caches[i], domains, historyOf, isMatch);
    }
  }
}
