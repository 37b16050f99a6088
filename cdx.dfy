/**
 * The two line formats of the index files and the tuples they parse into.
 *
 * A cluster-index line is `<searchKey> <timestamp>\t<shard>\t<offset>\t<length>\t<cluster>`
 * and becomes a 6-tuple; a shard (CDXJ) line is `<searchKey> <timestamp> <json>`
 * and becomes a 3-tuple. The tuples are compared the way Python compares
 * tuples: field by field, the first differing field deciding.
 */
module Cdx {
  import opened Common
  import opened Order

  datatype ClusterEntry = ClusterEntry(
    key: string, timestamp: int, shard: string, offset: int, length: int, cluster: int)

  datatype ShardEntry = ShardEntry(key: string, timestamp: int, record: string)

  // ---------------------------------------------------------------------------
  // Tuple order
  // ---------------------------------------------------------------------------

  predicate ClusterLt(a: ClusterEntry, b: ClusterEntry)
  {
    if a.key != b.key then StrLt(a.key, b.key)
    else if a.timestamp != b.timestamp then a.timestamp < b.timestamp
    else if a.shard != b.shard then StrLt(a.shard, b.shard)
    else if a.offset != b.offset then a.offset < b.offset
    else if a.length != b.length then a.length < b.length
    else a.cluster < b.cluster
  }

  predicate ShardLt(a: ShardEntry, b: ShardEntry)
  {
    if a.key != b.key then StrLt(a.key, b.key)
    else if a.timestamp != b.timestamp then a.timestamp < b.timestamp
    else StrLt(a.record, b.record)
  }

  lemma ClusterLtIsStrictTotalOrder()
    ensures StrictTotalOrder(ClusterLt)
  {
    StrLtIsStrictTotalOrder();
  }

  lemma ShardLtIsStrictTotalOrder()
    ensures StrictTotalOrder(ShardLt)
  {
    StrLtIsStrictTotalOrder();
  }

  /** `bisect_left` on a sorted cluster index splits it at the probe. */
  lemma SortedClustersSplit(a: seq<ClusterEntry>, x: ClusterEntry)
    requires Sorted(a, ClusterLt)
    ensures var k := Bisect(a, x, ClusterLt, 0, |a|);
      && k == LowerBound(a, x, ClusterLt)
      && (forall i :: 0 <= i < k ==> ClusterLt(a[i], x))
      && (forall i :: k <= i < |a| ==> !ClusterLt(a[i], x))
  {
    ClusterLtIsStrictTotalOrder();
    SortedBisectSplits(a, x, ClusterLt);
  }

  /** `bisect_left` on a sorted block splits it at the probe. */
  lemma SortedShardsSplit(a: seq<ShardEntry>, x: ShardEntry)
    requires Sorted(a, ShardLt)
    ensures var k := Bisect(a, x, ShardLt, 0, |a|);
      && k == LowerBound(a, x, ShardLt)
      && (forall i :: 0 <= i < k ==> ShardLt(a[i], x))
      && (forall i :: k <= i < |a| ==> !ShardLt(a[i], x))
  {
    ShardLtIsStrictTotalOrder();
    SortedBisectSplits(a, x, ShardLt);
  }

  // ---------------------------------------------------------------------------
  // Cluster-index lines (collector.py ClusterIndex, verify_history.py cindex)
  // ---------------------------------------------------------------------------

  /**
   * `searchable_string, rest = line.split(' ')` then
   * `timestamp, filename, offset, length, cluster = rest.split('\t')`, with
   * four `int(...)` conversions; a wrong part count or a non-number is a ValueError.
   */
  function ParseClusterLine(line: string): (r: Result<ClusterEntry, PyError>)
    ensures r.Ok? ==> ' ' !in r.value.key && ' ' !in r.value.shard && '\t' !in r.value.shard
    ensures r.Err? ==> r.error == ValueError
  {
    var halves := Split(line, ' ');
    if |halves| != 2 then Err(ValueError)
    else
      var f := Split(halves[1], '\t');
      if |f| != 5 then Err(ValueError)
      else
        match (ParseInt(f[0]), ParseInt(f[2]), ParseInt(f[3]), ParseInt(f[4]))
        case (Some(ts), Some(off), Some(len), Some(cl)) =>
          assert halves == [halves[0], halves[1]];
          SplitFreeOf(line, ' ');
          SplitFreeOf(halves[1], '\t');
          SplitFreeOfOther(halves[1], '\t', ' ');
          Ok(ClusterEntry(halves[0], ts, f[1], off, len, cl))
        case _ => Err(ValueError)
  }

  /** The wire form of a cluster-index entry. */
  function FormatClusterLine(e: ClusterEntry): string
  {
    e.key + " " + Join(ClusterFields(e), '\t')
  }

  ghost predicate ClusterEntryWritable(e: ClusterEntry)
  {
    ' ' !in e.key && ' ' !in e.shard && '\t' !in e.shard
  }

  /** Every entry whose key and filename hold no separator survives a write and a parse. */
  lemma ClusterLineRoundTrip(e: ClusterEntry)
    requires ClusterEntryWritable(e)
    ensures ParseClusterLine(FormatClusterLine(e)) == Ok(e)
  {
    var fields := ClusterFields(e);
    var rest := Join(fields, '\t');
    ClusterFieldsSplit(e);
    assert FormatClusterLine(e) == Join([e.key, rest], ' ');
    SplitJoin([e.key, rest], ' ');
    ParseIntToString(e.timestamp);
    ParseIntToString(e.offset);
    ParseIntToString(e.length);
    ParseIntToString(e.cluster);
    ParseClusterParts(FormatClusterLine(e), e.key, fields);
  }

  /** A line that splits into a key and five fields whose numbers parse becomes their tuple. */
  lemma ParseClusterParts(line: string, key: string, fields: seq<string>)
    requires |fields| == 5
    requires Split(line, ' ') == [key, Join(fields, '\t')]
    requires Split(Join(fields, '\t'), '\t') == fields
    requires ParseInt(fields[0]).Some? && ParseInt(fields[2]).Some?
    requires ParseInt(fields[3]).Some? && ParseInt(fields[4]).Some?
    ensures ParseClusterLine(line) == Ok(ClusterEntry(key, ParseInt(fields[0]).value, fields[1],
      ParseInt(fields[2]).value, ParseInt(fields[3]).value, ParseInt(fields[4]).value))
  {
  }

  /** The five tab-separated fields after the key. */
  function ClusterFields(e: ClusterEntry): (fields: seq<string>)
    ensures |fields| == 5
  {
    [IntToString(e.timestamp), e.shard, IntToString(e.offset), IntToString(e.length), IntToString(e.cluster)]
  }

  /** The separators that never occur inside a field of a writable entry. */
  lemma ClusterFieldsFreeOf(e: ClusterEntry, c: char)
    requires ClusterEntryWritable(e) && (c == '\t' || c == ' ')
    ensures FreeOf(ClusterFields(e), c)
  {
    IntToStringFreeOf(e.timestamp, c);
    IntToStringFreeOf(e.offset, c);
    IntToStringFreeOf(e.length, c);
    IntToStringFreeOf(e.cluster, c);
  }

  /** The fields of a writable entry split back apart and hold no space. */
  lemma ClusterFieldsSplit(e: ClusterEntry)
    requires ClusterEntryWritable(e)
    ensures Split(Join(ClusterFields(e), '\t'), '\t') == ClusterFields(e)
    ensures ' ' !in Join(ClusterFields(e), '\t')
  {
    ClusterFieldsFreeOf(e, '\t');
    ClusterFieldsFreeOf(e, ' ');
    SplitJoin(ClusterFields(e), '\t');
    JoinFreeOf(ClusterFields(e), '\t', ' ');
  }

  // ---------------------------------------------------------------------------
  // Shard / CDXJ lines (verify_history.py aindex, remove_domain_archives.py index)
  // ---------------------------------------------------------------------------

  /**
   * `searchable_string, timestamp, json = line.split(' ', 2)` and
   * `int(timestamp)`: the JSON part keeps any further spaces.
   */
  function ParseShardLine(line: string): (r: Result<ShardEntry, PyError>)
    ensures r.Ok? ==> ' ' !in r.value.key
    ensures r.Err? ==> r.error == ValueError
  {
    var p := SplitMax(line, ' ', 2);
    if |p| != 3 then Err(ValueError)
    else
      match ParseInt(p[1])
      case Some(ts) =>
        assert ' ' !in p[0] by { SplitMaxHeadFreeOf(line, ' ', 2); }
        Ok(ShardEntry(p[0], ts, p[2]))
      case None => Err(ValueError)
  }

  function FormatShardLine(e: ShardEntry): string
  {
    e.key + " " + IntToString(e.timestamp) + " " + e.record
  }

  /** A shard entry whose key holds no space survives a write and a parse, whatever its JSON holds. */
  lemma ShardLineRoundTrip(e: ShardEntry)
    requires ' ' !in e.key
    ensures ParseShardLine(FormatShardLine(e)) == Ok(e)
  {
    var ts := IntToString(e.timestamp);
    IntToStringFreeOf(e.timestamp, ' ');
    assert FormatShardLine(e) == e.key + [' '] + ts + [' '] + e.record;
    SplitMaxTail(e.key, ts, ' ', e.record);
    ParseIntToString(e.timestamp);
  }

  // ---------------------------------------------------------------------------
  // Separator facts used above
  // ---------------------------------------------------------------------------

  lemma {:induction false} SplitFreeOfOther(s: string, c: char, d: char)
    requires d !in s
    ensures FreeOf(Split(s, c), d)
    decreases |s|
  {
    if c in s {
      var i := IndexOf(s, c);
      assert forall k :: 0 <= k < i ==> s[..i][k] == s[k];
      SplitFreeOfOther(s[i + 1..], c, d);
    }
  }

  lemma SplitMaxHeadFreeOf(s: string, c: char, n: nat)
    requires |SplitMax(s, c, n)| > 1
    ensures c !in SplitMax(s, c, n)[0]
  {
  }
}
