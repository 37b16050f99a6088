# Common Crawl Collector: a verified model of its core

The Common Crawl Collector downloads the captures of a list of domains
from the Common Crawl archives and keeps them for a local pywb collection.
Four maintenance scripts sit around it. This project models, in Dafny,
the parts of the collector and of those scripts that hold the logic:

- **collector.py**
  - `Domain`: the reversed-label search key of a domain.
  - `ClusterIndex`: cluster-index lines parsed into 6-tuples.
  - `RetryQueue`: `add`, `process`, `save` and the loading constructor, with the `retryqueue` file as text.
  - `RemoteFile.get`: the Range header and the status check.
  - `Archive.updatePaths`.
- **status.py**: `get_status` and the tally over `domains.conf` in `main`.
- **verify_history.py**
  - The domain list.
  - The two-stage search that recounts a domain's captures from the cached cluster index and index blocks.
  - The comparison with the recorded history.
- **remove_domain_archives.py**:
  1. parse the CDXJ index;
  2. validate the domain and build its key;
  3. search with `bisect_left`;
  4. pop the run of matching entries;
  5. write the rest back.
- **find_unindexed_files.py**:
  1. build the sorted list of files with `insort_left`;
  2. take off every file an index line names, with `bisect_left` and `pop`;
  3. list the names with no file.

Python's exceptions are values of `Result<T, PyError>`. Python's `str.split`, `splitlines`, `int` and `str` are written out in `Common`. Its string `<` is in `Order`, and its tuple `<` on index entries is in `Cdx` (`ClusterLt`, `ShardLt`).

`bisect_left` is the library's halving search itself (`Order.Bisect`). Its equality with the lower bound is proved, and it holds only on sorted input.

Loops in the source are methods with loop invariants, proved equal to a function defined on prefixes of the input.

Some facts about the code that the model keeps:
- `get` accepts only status 200, so a 206 partial response to a range request raises; see `Remote.ResponseContent`.
- A retry record has the five fields `save` writes. `RetryQueue` updates no failure counter.
- `verify_history.py` never loads any history. So history is a parameter, and `IndexSearch.EmptyHistoryReportsEveryDomain` states what the script as written does.

Modules:

| file | module | models |
|---|---|---|
| common.dfy | `Common` | `PyError`, `Option`, `Result`; `split`, `splitlines`, `join`, `int`, `str`; reading a file of records |
| order.dfy | `Order` | string order, sortedness, `bisect_left`, `insort_left`, matching runs |
| cdx.dfy | `Cdx` | cluster-index and CDXJ lines, their tuples and the tuple order |
| domain_key.dfy | `DomainKey` | search keys, `Domain`, the domain list, the validated key |
| remote.dfy | `Remote` | `RemoteFile`, the Range header, the status check, `Archive.updatePaths` |
| retry_queue.dfy | `RetryLedger` | the `retryqueue` record format and `RetryQueue` |
| folds.dfy | `Folds` | summing and collecting over a list, stopping at the first error |
| index_search.dfy | `IndexSearch` | verify_history.py |
| status.dfy | `Status` | status.py |
| remove_domain.dfy | `RemoveDomain` | remove_domain_archives.py |
| unindexed.dfy | `Unindexed` | find_unindexed_files.py |

## Model

| member | source | states |
|---|---|---|
| Order.StrLtIsStrictTotalOrder | verify_history.py:49 | Python's `<` on strings is irreflexive, transitive and total, so a sorted index of keys is well defined |
| Order.BisectLeft | verify_history.py:49 | the `bisect_left` halving loop returns exactly the position `Bisect` defines, on any input |
| Order.SortedBisectSplits | verify_history.py:49 | on sorted input `bisect_left` returns the lower bound: every entry before it is smaller than the probe, none from it on |
| Order.LowerBoundFindsLeftmost | find_unindexed_files.py:24-25 | in a sorted list, `x` is present iff the lower-bound entry is `x`, and then that is its leftmost occurrence |
| Order.InsertAtLowerBoundSorted | find_unindexed_files.py:15 | inserting at the lower bound keeps a sorted list sorted |
| Order.RemoveSliceSorted | remove_domain_archives.py:40 | popping any slice keeps a sorted list sorted |
| Order.MatchingRunUnique | verify_history.py:51-56 | a run that matches throughout and stops at a non-match or at the end is the maximal matching run |
| Common.SplitJoin | collector.py:231 | splitting separator-free parts joined by the separator gives back exactly those parts |
| Common.JoinSplit | collector.py:208 | joining the parts of a split gives back the string |
| Common.LinesCons | collector.py:207 | a newline-terminated line in front of a text is the first of its lines, and the rest are the text's lines |
| Common.ParseIntToString | collector.py:298-302 | `int(str(n)) == n` for every integer |
| Common.ParseAllSpec | collector.py:293-303 | a file parses iff every line does, giving the lines' values in order; otherwise the error is that of the first line that fails |
| Common.ParseLines | verify_history.py:34-44 | the read-parse-append loop yields exactly `ParseAll` of the lines, error included |
| Cdx.ClusterLtIsStrictTotalOrder | verify_history.py:37-44 | comparing 6-tuples field by field is a strict total order |
| Cdx.ShardLtIsStrictTotalOrder | remove_domain_archives.py:24 | comparing the 3-tuples field by field is a strict total order |
| Cdx.SortedClustersSplit | verify_history.py:49 | on a sorted cluster index `bisect_left` splits the entries at the probe |
| Cdx.SortedShardsSplit | verify_history.py:66 | on a sorted block `bisect_left` splits the entries at the probe |
| Cdx.ParseClusterLine | collector.py:293-303 | a parsed key holds no space and a parsed filename no space or tab; every failure (part count, non-number) is ValueError |
| Cdx.ClusterLineRoundTrip | collector.py:294-303 | any entry whose key and filename hold no separator is read back unchanged from its line |
| Cdx.ParseShardLine | verify_history.py:63-64 | `split(' ', 2)` plus `int`: a parsed key holds no space; failures are ValueError |
| Cdx.ShardLineRoundTrip | remove_domain_archives.py:23-24 | any entry whose key holds no space is read back unchanged, whatever its JSON part holds |
| DomainKey.ReversedKeyLabels | collector.py:242-246 | the key splits back at `,` into the domain's labels in reverse order |
| DomainKey.SearchString | collector.py:242-247 | the count-down loop builds the reversed labels joined by `,`, then `)/` and the path part |
| DomainKey.ThreeLabelKey | collector.py:242-246 | `x.y.z` has the key `z,y,x` |
| DomainKey.DomainAsWrittenAlwaysRaises | collector.py:236-241 | as written every domain raises; one without `/` raises ValueError at the two-way unpack |
| DomainKey.NewDomain | collector.py:235-247 | corrected constructor: raises iff the domain holds `/`, otherwise keeps the name and the key `<reversed labels>)/` |
| DomainKey.LoadDomains | verify_history.py:22-29 | with the corrected constructor `NewDomain` (as written, `Domain(line)` raises on the first non-empty line): succeeds iff no line before the first empty one holds `/`; the domains are exactly those lines, in order, each with the key `<reversed labels>)/` |
| DomainKey.RemoveHyphens | remove_domain_archives.py:29 | the result holds no `-` and exactly the other characters of the label |
| DomainKey.ValidatedSearchKey | remove_domain_archives.py:26-34 | succeeds iff every label is alphanumeric once hyphens are dropped, giving the reversed labels joined by `,`; otherwise ValueError |
| DomainKey.MalformedDomainRejected | remove_domain_archives.py:29-31 | an empty domain, a leading, trailing or doubled dot is always rejected |
| DomainKey.SingleLabelAccepted | remove_domain_archives.py:28-34 | a valid one-label domain is accepted and is its own key |
| Remote.NewRemoteFile | collector.py:118-123 | the record keeps url, filename, offset and length as given, with no attempts yet |
| Remote.RangeHeader | collector.py:184-187 | corrected guard: a Range header is sent iff offset and length are both present |
| Remote.RangeHeaderCoversLength | collector.py:187 | the header reads back as the inclusive bounds `offset` and `offset + length - 1`, exactly `length` bytes |
| Remote.RangeGuardInverted | collector.py:184 | with offset and length both set and non-zero, the guard as written sends no range; the corrected one does |
| Remote.RangeGuardRaisesOnMissing | collector.py:184-187 | with no offset the guard as written raises TypeError; the corrected one fetches the whole object |
| Remote.ResponseContent | collector.py:192-195 | the body is returned iff the status is 200, and every other status raises |
| Remote.RFind | collector.py:46 | `rfind`: the last position where the substring occurs, or -1 |
| Remote.LastClusterLine | collector.py:43-45 | the last manifest line ending in `cluster.idx`, or none when no line does |
| Remote.Archive.constructor | collector.py:30-32 | an archive starts with its ID, its manifest as a remote file, and no paths |
| Remote.Archive.UpdatePaths | collector.py:37-49 | the last `cluster.idx` line sets both paths, the URI being that line without `cluster.idx`; no such line leaves them unchanged; AttributeError iff no cluster index was ever set |
| RetryLedger.Record | collector.py:231 | an item is writable iff it has a local filename (TypeError otherwise), as at least five tab-separated fields |
| RetryLedger.ParseRecord | collector.py:208-209 | a parsed line had exactly five fields and gives an item with filename, offset and length; failures are ValueError |
| RetryLedger.RecordRoundTrip | collector.py:208-231 | a writable item's record holds no newline and parses back to the same item |
| RetryLedger.Serialized | collector.py:230-231 | a save completes iff every item has a filename; otherwise it raises TypeError |
| RetryLedger.SaveLoadRoundTrip | collector.py:198-231 | what the corrected save writes loads back as the same queue, in order |
| RetryLedger.AsWrittenSaveIsOneLine | collector.py:230-231 | as written, two or more items are saved as one line of `4n + 1` fields that does not parse as a record |
| RetryLedger.LoadAsWritten | collector.py:207-213 | as written, loading an existing file always raises: the first line's error (AttributeError iff it parses), or NameError at `log.info` for an empty file |
| RetryLedger.AsWrittenEmptyLoadRaises | collector.py:202-213 | as written an empty `retryqueue` raises NameError, where the corrected load gives the empty queue |
| RetryLedger.LoadLineErrorAsWritten | collector.py:208-210 | a line that parses raises AttributeError at `self.queue.attempts`; any other raises ValueError |
| RetryLedger.AsWrittenLoadRejectsEveryRecord | collector.py:207-210 | every record a save writes makes the load as written raise AttributeError |
| RetryLedger.RetryQueue.constructor | collector.py:198-199 | a queue holds the given items and file text |
| RetryLedger.RetryQueue.Add | collector.py:221-222 | the item is appended at the tail, nothing else changes |
| RetryLedger.RetryQueue.Save | collector.py:224-232 | corrected save: the file becomes the records, each newline-terminated, up to the first item without a filename, with TypeError there and success otherwise |
| RetryLedger.RetryQueue.Process | collector.py:215-219 | an empty queue is left alone; otherwise the head comes off, is handed back, and the rest is saved with the corrected save, one record per line |
| RetryLedger.OpenRetryQueue | collector.py:198-213 | no file gives an empty queue; otherwise the queue is the file's records in order iff every line parses, else the first line's error |
| Status.DoneCount | status.py:17-21 | the complete archives never outnumber the archives in the history |
| Status.StatusOf | status.py:11-32 | a status exists iff the history file does; complete plus partial is the number of archives |
| Status.GetStatus | status.py:11-32 | the loop over the history yields exactly `StatusOf` |
| Status.PerArchiveLength | status.py:22-30 | `per_archive` has exactly `partial` entries |
| Status.PerArchiveFrom | status.py:22-27 | every `per_archive` entry is a partial archive with completed less failed, results and failed |
| Status.PerArchiveCovers | status.py:22-27 | every partial archive has its entry in `per_archive` |
| Status.AllDoneNothingPartial | status.py:20-21 | a history of complete archives reports all complete and nothing partial |
| Status.SummarizeDomains | status.py:57-68 | the loop over `domains.conf` yields exactly the `Summarize` counters and list |
| Status.SummarizeCounts | status.py:57-68 | total is the number of lines; completed plus partial at most total; one list line per partial domain |
| Status.SummarizeClassifies | status.py:63-68 | `completed` counts the domains whose non-empty history has exactly `archive_count` complete archives, `partial` those whose non-empty history has another count; no domain is both |
| Status.PartialDomainsListed | status.py:66-68 | every domain counted as partial has its line, with its complete count, in `partial_list` |
| Status.PartialListCollects | status.py:57-68 | `partial_list` is the lines of the partial domains, in `domains.conf` order |
| Status.SummarizeArchives | status.py:60-62 | archive counters add up to the number of archives in all history files |
| Status.PartialListEntries | status.py:63-68 | each `partial_list` line names a listed domain short of `archive_count`, with its complete count |
| Status.NoHistoryNoProgress | status.py:59-63 | domains with no or empty history count towards the total only |
| Folds.SumAllSpec | verify_history.py:58-74 | a sum succeeds iff every step does and bounds each step; otherwise it has the first failing step's error |
| Folds.CollectAllOk | verify_history.py:46-81 | a report is produced iff every domain's step succeeds |
| Folds.ConcatAllOk | verify_history.py:31-81 | gathering every archive's report succeeds iff every archive's pass does |
| Folds.ConcatAllHolds | verify_history.py:31-81 | on success, each archive's report follows the reports of the archives before it |
| Folds.CollectAllFrom | verify_history.py:78-81 | a report has at most one entry per item, each produced by one of the items |
| IndexSearch.ClusterStartSplits | verify_history.py:49 | on a sorted cluster index the search position splits the entries at `(key + "(", 0, "", 0, 0, 0)` |
| IndexSearch.Candidates | verify_history.py:47-56 | IndexError iff the cluster index is empty; otherwise at least one kept position, all in range |
| IndexSearch.CandidatesFirst | verify_history.py:49-50 | the first kept cluster is the one before the lower bound, or the last when the bound is 0 |
| IndexSearch.CandidatesRun | verify_history.py:51-56 | then the consecutive matching positions from the lower bound, up to the first non-match or the end |
| IndexSearch.CollectClusters | verify_history.py:47-56 | the first stage's loop yields exactly `Candidates` |
| IndexSearch.MatchingClusters | verify_history.py:51-56 | the while loop collects the positions of the maximal matching run |
| IndexSearch.BlockMatchesIsRun | verify_history.py:69-74 | a block's count covers the matching entries from its start, stopping at a non-match or the end |
| IndexSearch.FirstBlockStart | verify_history.py:65-66 | in the first cluster counting starts at the first entry not below `(key, 0, "")` |
| IndexSearch.ShardBlockErrors | verify_history.py:61-64 | a block fails to load only with ValueError |
| IndexSearch.CountAt | verify_history.py:58-74 | a kept cluster is counted iff its block loads; otherwise its load error |
| IndexSearch.DomainMatchesSpec | verify_history.py:46-74 | a domain's count exists iff the index is non-empty and every kept block loads; otherwise IndexError, or the error of the first kept block that does not load, every earlier kept block loading |
| IndexSearch.CountBlock | verify_history.py:65-74 | start position and counting loop yield the block's matching run |
| IndexSearch.CountRun | verify_history.py:69-74 | the counting loop yields the length of the matching run from its start |
| IndexSearch.CountMatches | verify_history.py:46-74 | both stages for one domain yield exactly `DomainMatches` |
| IndexSearch.CountKept | verify_history.py:58-74 | the loop over kept clusters yields their sum, or the first error |
| IndexSearch.CountCluster | verify_history.py:59-74 | one kept cluster's block loaded and counted yields `CountAt` |
| IndexSearch.Classify | verify_history.py:76-81 | nothing iff a recorded count equals the count; flag 0 iff no history; flag 1 with the recorded count |
| IndexSearch.ClassifyAsWritten | verify_history.py:78-81 | as written a differing recorded count raises TypeError; otherwise as `Classify` |
| IndexSearch.CheckDomain | verify_history.py:76-81 | a domain is checked iff it can be counted; its mismatch is about this archive and domain, flagged 0 or 1 |
| IndexSearch.ReportOk | verify_history.py:46-81 | an archive's report exists iff every domain can be counted |
| IndexSearch.ReportEntries | verify_history.py:76-81 | at most one mismatch per domain, each about this archive and a listed domain, flagged 0 or 1 |
| IndexSearch.VerifyArchive | verify_history.py:31-81 | a malformed cluster-index line raises its error; otherwise the mismatches are exactly `Report` over the domains |
| IndexSearch.VerifyHistory | verify_history.py:23-81 | the loop over the cached cluster indexes gathers every archive's report in order, and the first error raised ends it |
| IndexSearch.ArchiveReportOk | verify_history.py:31-81 | one archive's pass succeeds iff its cluster index parses and every domain can be counted in it |
| IndexSearch.VerifyHistoryOk | verify_history.py:31-81 | the whole run succeeds iff every archive's cluster index parses and every domain can be counted in each |
| IndexSearch.EmptyHistoryReportsEveryDomain | verify_history.py:78-79 | with no history loaded, every domain is reported once per archive, in order, with flag 0 |
| RemoveDomain.RemoveRun | remove_domain_archives.py:38-40 | the popped entries are the maximal matching run at the position, in order; the index keeps what is before and after |
| RemoveDomain.AsWrittenNeverRemoves | remove_domain_archives.py:37-40 | as written a match raises (`reults`), a run reaching the end raises IndexError, and nothing is ever removed |
| RemoveDomain.IndexTextRoundTrip | remove_domain_archives.py:51-53 | the corrected write-back reads back as the same index, entry by entry |
| RemoveDomain.AsWrittenWriteLosesIndex | remove_domain_archives.py:52-53 | as written any non-empty index raises TypeError, where the corrected text reads back as the index |
| RemoveDomain.WriteIndex | remove_domain_archives.py:51-53 | the write loop yields one CDXJ line per entry, each newline-terminated |
| RemoveDomain.RemoveDomainArchives | remove_domain_archives.py:20-53 | a bad line gives its error, an invalid domain ValueError; otherwise the rest of the index is written and the run at the probe's lower bound is returned |
| RemoveDomain.PurgeIndex | remove_domain_archives.py:36-53 | searching, popping the run and writing back gives exactly the run at the lower bound of `(key, 0, '')` and the text of the rest of the index |
| RemoveDomain.PurgeRun | remove_domain_archives.py:38-53 | from a given position, the popped entries and the written text are the matching run there and the index without it |
| RemoveDomain.RemovalStartsAtKey | remove_domain_archives.py:36 | on a sorted index the removal starts after every entry below `(key, 0, '')` and before none |
| RemoveDomain.RemovalSplitsIndex | remove_domain_archives.py:36-40 | the removed run put back at its position restores the index; as multisets nothing is lost or gained |
| RemoveDomain.RemovedRunIsMaximal | remove_domain_archives.py:38-40 | every removed entry matches, and the entry now at the position does not |
| RemoveDomain.RemovalKeepsSorted | remove_domain_archives.py:40 | a sorted index stays sorted after the removal |
| Unindexed.InsortSorted | find_unindexed_files.py:15 | `insort_left` keeps the file list sorted |
| Unindexed.InsortAdds | find_unindexed_files.py:15 | `insort_left` adds exactly one copy of the name |
| Unindexed.InsortedSorted | find_unindexed_files.py:14-15 | the built file list is sorted |
| Unindexed.InsortedPermutation | find_unindexed_files.py:14-15 | the built file list holds each name exactly as often as the directory does |
| Unindexed.InsortLeft | find_unindexed_files.py:15 | search then insert yields exactly `Insort` |
| Unindexed.BuildArchives | find_unindexed_files.py:12-15 | the build loop yields exactly `Insorted` of the directory names |
| Unindexed.FirstIndex | find_unindexed_files.py:24-26 | the position of the first occurrence, less than the length iff present |
| Unindexed.RemoveFirstMultiset | find_unindexed_files.py:26 | popping a present name lowers its multiplicity by one, and nothing else |
| Unindexed.LookupFindsFirst | find_unindexed_files.py:24-25 | on a sorted list the search finds a name iff it is there, at its first occurrence |
| Unindexed.Consume | find_unindexed_files.py:24-28 | one index name is popped if present or listed as missing; the list stays sorted |
| Unindexed.LookupAsWrittenPastEnd | find_unindexed_files.py:24-25 | a name above every file makes the lookup as written raise IndexError; corrected, it is listed as missing |
| Unindexed.FindUnindexedAsWritten | find_unindexed_files.py:20-24 | as written, the run succeeds iff the index has no lines, leaving every file; once every line parses it raises NameError, and a malformed first line raises that line's error, as the corrected run does |
| Unindexed.FindUnindexedFiles | find_unindexed_files.py:12-28 | a malformed line or JSON error is raised; otherwise the result is exactly `Reconcile` of the sorted list and the index's names |
| Unindexed.ReconcileAccounts | find_unindexed_files.py:20-28 | as multisets, files on disk plus missing names equal files left plus index names |
| Unindexed.ReconcileSorted | find_unindexed_files.py:25-26 | the files left stay sorted |
| Unindexed.NothingOnDisk | find_unindexed_files.py:27-28 | names with no file are all missing, once per line, in index order; the file list is unchanged |
| Unindexed.AllIndexedFilesPresent | find_unindexed_files.py:25-26 | if the disk has every indexed name at least as often, nothing is missing and the files left are the difference |
| Unindexed.DuplicateIndexedOnce | find_unindexed_files.py:24-28 | a name indexed twice but on disk once is popped once and then listed missing |

## Left out

- Files, HTTP, gzip, the local cache, log output, e-mail and printing are left out. The crash of calls through the undefined `log` is modelled (see Findings). The contents of the files are parameters:
  - file texts or lines;
  - a response status and body;
  - `historyOf` for the history files;
  - `readShard` for the cached index blocks;
  - `filenameOf` for the JSON part of a CDXJ line.
- `is_match` is imported from collector but is not defined in collector.py. It is a function parameter.
- DomainKey.ValidatedSearchKey: a label character passes only if it is an ASCII letter or digit. Python's `str.isalnum` (remove_domain_archives.py:29) also accepts non-ASCII letters and digits, so a domain such as `linköping.se` is accepted by the source and rejected with ValueError by the model. Unicode's character tables are not modelled.
- JSON decoding is not modelled. A CDXJ record keeps its JSON part as a string.
- Python's `splitlines` also splits at `\r`, `\v`, `\f`, `\x1c`–`\x1e`, `\x85`, `\u2028` and `\u2029`. `Common.Lines` splits at `\n` only.
- `int` is modelled on an optional sign followed by ASCII digits. Surrounding whitespace and underscores are not modelled, and lines are read without their terminator.
- `RemoteFile.get` is declared without `self` and names `offset`, `length` and `url` unqualified. The model reads these as the object's fields, so the first call's TypeError and NameError are not modelled.
- `RemoteFile.read`, `download` and `write` are not modelled. `bypass_decompression` is set only on the archive list (collector.py:100); `RemoteFile.__init__` (collector.py:118-123) never sets it, so every other `read` raises AttributeError at collector.py:160. An uncached file fails earlier still: `self.get()` at collector.py:151 raises TypeError, because `get` takes no `self`.
- Remote.Archive.UpdatePaths: the model reads the paths file as decoded text lines. As written, `read` on the manifest raises before it returns (see the line above). With that fixed, `read` returns `gzip.decompress(contents)` (collector.py:162), which is bytes. So `for line in f.read()` at collector.py:43 iterates integers, and `line.endswith` raises AttributeError on the first one. The same holds at collector.py:293, where `ClusterIndex` calls `line.split`; so `Common.ParseAllSpec` and `Cdx.ParseClusterLine`, which model that loop, likewise take decoded lines. In addition, collector.py:39 wraps `self.indexPathsFile`, already a `RemoteFile` (line 32), in a second `RemoteFile`; the model reads the one file.
- collector.py does not compile, and the model treats each of its functions as if it did. Two places are syntax errors: the `config` dict literal at lines 16-21 is written with `=` instead of `:`, and line 129 reads `elif if`. As a result, `from collector import ...` also fails in verify_history.py (line 7), remove_domain_archives.py (line 8) and find_unindexed_files.py (line 4). Each tool is modelled as if that import succeeded.
- `Archives`, its HTML parser, `Domain.loadHistory`, `Domain.updateHistory`, and the empty `search` stubs are not modelled. They are outside the core or have no body.
- `RetryQueue.process` hands the head back instead of downloading it.
- status.py:
  - Printing is left out, including the averages and percentages. The ZeroDivisionError at status.py:76 for an empty `domains.conf` goes with it.
  - The single-domain branch (status.py:85-103) only prints `get_status`.
- verify_history.py:
  - The mismatch message (lines 83-103) and the e-mail handler are left out.
  - The archive ID is taken from the cache path and is a parameter.
  - `line in domains` (line 26) compares a string with `Domain` objects and never holds, so it is left out.
  - The cluster indexes are taken in the order `glob` lists them; that order is the order of the `caches` parameter of `IndexSearch.VerifyHistory`.
- remove_domain_archives.py:
  - `f.read.splitlines()` (line 22) raises AttributeError before anything happens.
  - Line 23 binds `json` inside `main`, so `json` is a local string throughout the function. With the loop's other crashes fixed, `json.loads` at line 40 raises AttributeError before the first `pop`. The corrected model pops without decoding the JSON part.
  - `domain` (line 48) is undefined and raises NameError once the files are deleted.
  - `RemoveDomain.RemoveDomainArchives` models the tool as evidently meant. Deleting the archive files and the history file is not modelled.
- find_unindexed_files.py: the output files `unindexed_files` and `missing_files`, and the progress lines, are not modelled.
- Python's integers are unbounded, and so are Dafny's. No width is modelled.

## Findings

| source | as written | input that shows it | evidently intended | confidence | as-written member | corrected member |
|---|---|---|---|---|---|---|
| collector.py:236-241 | after refusing any `/`, `left,right = domain.split('/', 1)` unpacks two parts | `example.com`: one part, ValueError | the key `com,example)/` with an empty path part, so that `DomainKey.LoadDomains` loads `domains.conf` | high, not executed | DomainKey.DomainAsWrittenAlwaysRaises | DomainKey.NewDomain |
| collector.py:184 | the Range header is built only when offset or length is falsy | offset 100, length 50: no header, the whole object is fetched; offset None: TypeError | a range exactly when both are set | high, not executed | Remote.RangeGuardInverted | Remote.RangeHeaderCoversLength |
| collector.py:231 | records are written without a line terminator | two writable items: one line of 9 fields | one record per line, as the corrected `RetryLedger.RetryQueue.Save` writes them, loaded back in order | high, not executed | RetryLedger.AsWrittenSaveIsOneLine | RetryLedger.SaveLoadRoundTrip |
| collector.py:213 | `log.info` names `log`, which collector.py never defines (its logger is `logger`, line 26); lines 205 and 228 do the same on a failed open | an existing empty `retryqueue`: NameError | log through `logger`, so the file's records become the queue | high, not executed | RetryLedger.AsWrittenEmptyLoadRaises | RetryLedger.OpenRetryQueue |
| collector.py:210 | `self.queue.attempts = ...` sets an attribute on a list | any saved record: AttributeError | the attempts of the item just added | high, not executed | RetryLedger.AsWrittenLoadRejectsEveryRecord | RetryLedger.OpenRetryQueue |
| verify_history.py:81 | `mismatches.append(..., 1)` passes two arguments | a history count of 3 against 2 matches: TypeError | a flag-1 mismatch with the recorded count | high, not executed | IndexSearch.ClassifyAsWritten | IndexSearch.Classify |
| remove_domain_archives.py:38-40 | no end-of-list test; the counter is misspelt `reults`; `json`, bound as a local string at line 23, has no `loads` | any matching entry: UnboundLocalError, and with `reults` fixed AttributeError at line 40; a key above every entry: IndexError | pop the maximal matching run | high, not executed | RemoveDomain.AsWrittenNeverRemoves | RemoveDomain.RemoveRun |
| remove_domain_archives.py:53 | `line[0] + ' ' + line[1]` with an int timestamp, and no newline | any non-empty index: TypeError | one CDXJ line per entry | high, not executed | RemoveDomain.AsWrittenWriteLosesIndex | RemoveDomain.IndexTextRoundTrip |
| find_unindexed_files.py:24 | `bisect_left(a, filename)` searches `a`, which no scope defines | any well-formed index line: NameError before anything is popped | search the sorted file list `archives` | high, not executed | Unindexed.FindUnindexedAsWritten | Unindexed.FindUnindexedFiles |
| find_unindexed_files.py:24-25 | with `archives` searched, `archives[position]` is read without checking `position` | a name above every file, or any name with no files: IndexError | list the name as missing | high, not executed | Unindexed.LookupAsWrittenPastEnd | Unindexed.Consume |
