/**
 * The fetch layer of collector.py: the `RemoteFile` record, the HTTP Range
 * header `get` sends, the status check on its response, and
 * `Archive.updatePaths`, which finds the archive's cluster index in the
 * manifest it downloads. The HTTP request itself, gzip and the local cache
 * are not part of this model: a response is given as a status and a body.
 */
module Remote {
  import opened Common

  /**
   * `RemoteFile(url, filename=None, offset=None, length=None)`: an object to
   * fetch, with an optional local path (which doubles as cache indicator), an
   * optional byte range, and the retry counter.
   */
  datatype RemoteFile = RemoteFile(
    url: string, filename: Option<string>, offset: Option<int>, length: Option<int>, attempts: int)

  function NewRemoteFile(url: string, filename: Option<string>, offset: Option<int>, length: Option<int>): (f: RemoteFile)
    ensures f.url == url && f.filename == filename && f.offset == offset && f.length == length
    ensures f.attempts == 0
  {
    RemoteFile(url, filename, offset, length, 0)
  }

  // ---------------------------------------------------------------------------
  // The Range header
  // ---------------------------------------------------------------------------

  /** Python truthiness of an optional int: None and 0 are false. */
  predicate Truthy(v: Option<int>)
  {
    v.Some? && v.value != 0
  }

  function RangeValue(offset: int, length: int): string
  {
    "bytes=" + IntToString(offset) + "-" + IntToString(offset + length - 1)
  }

  /**
   * The header as the guard of `get` is written: it is built only when
   * offset or length is falsy, and building it from a missing value is a
   * TypeError (`None + int`); when both are set and non-zero no header is sent.
   */
  function RangeHeaderAsWritten(offset: Option<int>, length: Option<int>): Result<Option<string>, PyError>
  {
    if !Truthy(offset) || !Truthy(length) then
      if offset.None? || length.None? then Err(TypeError)
      else Ok(Some(RangeValue(offset.value, length.value)))
    else Ok(None)
  }

  /**
   * The header as evidently intended: a range request exactly when both
   * offset and length are present, covering `length` bytes from `offset`.
   */
  function RangeHeader(offset: Option<int>, length: Option<int>): (h: Option<string>)
    ensures h.Some? <==> offset.Some? && length.Some?
  {
    if offset.Some? && length.Some? then Some(RangeValue(offset.value, length.value)) else None
  }

  /** Reads `bytes=<first>-<last>` back into its two inclusive bounds. */
  function ParseRangeValue(h: string): Option<(int, int)>
  {
    if |h| < 6 || h[..6] != "bytes=" then None
    else
      var bounds := Split(h[6..], '-');
      if |bounds| != 2 then None
      else
        match (ParseInt(bounds[0]), ParseInt(bounds[1]))
        case (Some(first), Some(last)) => Some((first, last))
        case _ => None
  }

  /**
   * The header names the inclusive range `[offset, offset + length - 1]`,
   * which holds exactly `length` bytes.
   */
  lemma RangeHeaderCoversLength(offset: nat, length: nat)
    requires length >= 1
    ensures RangeHeader(Some(offset), Some(length)).Some?
    ensures ParseRangeValue(RangeHeader(Some(offset), Some(length)).value) == Some((offset, offset + length - 1))
    ensures var (first, last) := ParseRangeValue(RangeHeader(Some(offset), Some(length)).value).value;
      first == offset && last - first + 1 == length
  {
    var a := IntToString(offset);
    var b := IntToString(offset + length - 1);
    var h := RangeValue(offset, length);
    assert h[..6] == "bytes=";
    assert h[6..] == a + ['-'] + b;
    assert '-' !in b by { assert b == NatToString(offset + length - 1); assert forall k :: 0 <= k < |b| ==> IsDigit(b[k]); }
    assert '-' !in a by { assert a == NatToString(offset); assert forall k :: 0 <= k < |a| ==> IsDigit(a[k]); }
    assert Join([a, b], '-') == a + ['-'] + b;
    SplitJoin([a, b], '-');
    ParseIntToString(offset);
    ParseIntToString(offset + length - 1);
  }

  /** Both offset and length set and non-zero: the guard as written sends no range at all. */
  lemma RangeGuardInverted(offset: int, length: int)
    requires offset != 0 && length != 0
    ensures RangeHeaderAsWritten(Some(offset), Some(length)) == Ok(None)
    ensures RangeHeader(Some(offset), Some(length)) == Some(RangeValue(offset, length))
  {
  }

  /** A missing offset or length makes the guard as written raise instead of fetching the whole object. */
  lemma RangeGuardRaisesOnMissing(length: Option<int>)
    ensures RangeHeaderAsWritten(None, length) == Err(TypeError)
    ensures RangeHeader(None, length) == None
  {
  }

  // ---------------------------------------------------------------------------
  // The response check of `get`
  // ---------------------------------------------------------------------------

  /** `get` returns the body on 200 and raises on every other status, 206 included. */
  function ResponseContent(status: int, content: seq<bv8>): (r: Result<seq<bv8>, PyError>)
    ensures r.Ok? <==> status == 200
    ensures r.Ok? ==> r.value == content
    ensures r.Err? ==> r.error == Exception
  {
    if status != 200 then Err(Exception) else Ok(content)
  }

  // ---------------------------------------------------------------------------
  // Archive.updatePaths
  // ---------------------------------------------------------------------------

  const ClusterIndexName := "cluster.idx"

  predicate OccursAt(s: string, sub: string, j: int)
  {
    0 <= j && j + |sub| <= |s| && s[j..j + |sub|] == sub
  }

  /** Python's `s.rfind(sub)`: the last position where `sub` starts, or -1. */
  function RFind(s: string, sub: string): (i: int)
    ensures -1 <= i
    ensures i >= 0 ==> OccursAt(s, sub, i)
    ensures forall j :: i < j ==> !OccursAt(s, sub, j)
  {
    if |sub| > |s| then -1 else RFindAt(s, sub, |s| - |sub|)
  }

  function RFindAt(s: string, sub: string, i: int): (r: int)
    requires -1 <= i && i + |sub| <= |s|
    ensures -1 <= r <= i
    ensures r >= 0 ==> OccursAt(s, sub, r)
    ensures forall j :: r < j <= i ==> !OccursAt(s, sub, j)
    decreases i + 1
  {
    if i < 0 then -1
    else if OccursAt(s, sub, i) then i
    else RFindAt(s, sub, i - 1)
  }

  /** On a line that ends with the suffix, its last occurrence is that suffix. */
  lemma RFindSuffix(line: string, suffix: string)
    requires EndsWith(line, suffix)
    ensures RFind(line, suffix) == |line| - |suffix|
  {
  }

  /** The last manifest line naming a cluster index, if any. */
  function LastClusterLine(lines: seq<string>): (k: Option<nat>)
    ensures k.Some? ==> k.value < |lines| && EndsWith(lines[k.value], ClusterIndexName)
    ensures k.Some? ==> forall j :: k.value < j < |lines| ==> !EndsWith(lines[j], ClusterIndexName)
    ensures k.None? ==> forall j :: 0 <= j < |lines| ==> !EndsWith(lines[j], ClusterIndexName)
  {
    if lines == [] then None
    else if EndsWith(lines[|lines| - 1], ClusterIndexName) then Some(|lines| - 1)
    else LastClusterLine(lines[..|lines| - 1])
  }

  /** A published crawl snapshot and the paths derived from its manifest. */
  class Archive {
    const archiveID: string
    const indexPathsFile: RemoteFile
    /** `self.clusterIndex`; None while the attribute has never been set. */
    var clusterIndex: Option<RemoteFile>
    /** `self.indexPathsURI`: the manifest line without its `cluster.idx`. */
    var indexPathsURI: Option<string>

    constructor (archiveID: string, indexPathsFile: string)
      ensures this.archiveID == archiveID
      ensures this.indexPathsFile == NewRemoteFile(indexPathsFile, None, None, None)
      ensures clusterIndex == None && indexPathsURI == None
    {
      this.archiveID := archiveID;
      this.indexPathsFile := NewRemoteFile(indexPathsFile, None, None, None);
      clusterIndex := None;
      indexPathsURI := None;
    }

    /** The cluster index `updatePaths` makes of a manifest line, cached under `.cache/<archiveID>/`. */
    function ClusterIndexFile(line: string): RemoteFile
    {
      NewRemoteFile(line, Some(".cache/" + archiveID + "/cluster.idx"), None, None)
    }

    /** Both attributes were last set from `line`. */
    ghost predicate PathsFrom(line: string)
      reads this
    {
      && clusterIndex == Some(ClusterIndexFile(line))
      && indexPathsURI.Some?
      && indexPathsURI.value + ClusterIndexName == line
    }

    /**
     * `updatePaths` over the lines of the downloaded manifest: every line
     * ending in `cluster.idx` sets the cluster index and the prefix before
     * `cluster.idx`, so the last such line wins; when no line has ever set
     * the cluster index, reading the attribute raises AttributeError.
     */
    method UpdatePaths(manifest: seq<string>) returns (r: Result<(), PyError>)
      modifies this
      ensures LastClusterLine(manifest).Some? ==> PathsFrom(manifest[LastClusterLine(manifest).value])
      ensures LastClusterLine(manifest).None? ==>
        clusterIndex == old(clusterIndex) && indexPathsURI == old(indexPathsURI)
      ensures r.Err? <==> clusterIndex.None?
      ensures r.Err? ==> r.error == AttributeError
    {
      var n := 0;
      while n < |manifest|
        invariant 0 <= n <= |manifest|
        invariant LastClusterLine(manifest[..n]).Some? ==> PathsFrom(manifest[LastClusterLine(manifest[..n]).value])
        invariant LastClusterLine(manifest[..n]).None? ==>
          clusterIndex == old(clusterIndex) && indexPathsURI == old(indexPathsURI)
      {
        var line := manifest[n];
        assert manifest[..n + 1][..n] == manifest[..n];
        if EndsWith(line, ClusterIndexName) {
          clusterIndex := Some(ClusterIndexFile(line));
          RFindSuffix(line, ClusterIndexName);
          var i := RFind(line, ClusterIndexName);
          indexPathsURI := Some(line[0..i]);
          assert line[0..i] + ClusterIndexName == line;
        }
        n := n + 1;
      }
      assert manifest[..n] == manifest;
      if clusterIndex.None? {
        return Err(AttributeError);
      }
      return Ok(());
    }
  }
}
