/**
 * The progress reporter (status.py): `get_status`, which sorts one domain's
 * download history into complete and partial archives, and the `all`
 * branch of `main`, which tallies every domain listed in `domains.conf`.
 *
 * A history file is a JSON object from archive ID to its figures; it is
 * given here as the object's items in file order (the keys of a JSON object
 * read into a dict are distinct), or `None` when the file does not exist.
 * Printing, including the averages and percentages, is not modelled.
 */
module Status {
  import opened Common

  /** One archive's figures in a history file. */
  datatype Hist = Hist(results: int, completed: int, failed: int)

  /** What `per_archive` reports for an archive that is not complete. */
  datatype Progress = Progress(completed: int, results: int, failed: int)

  /** The dict `get_status` returns. */
  datatype DomainStatus = DomainStatus(completedArchives: nat, partial: nat, perArchive: seq<(string, Progress)>)

  type History = seq<(string, Hist)>

  // ---------------------------------------------------------------------------
  // One domain
  // ---------------------------------------------------------------------------

  /**
   * An archive is complete when it had no results at all, or when every
   * result was downloaded and none failed (`and` binds tighter than `or`).
   */
  predicate IsDone(h: Hist)
  {
    h.results == 0 || (h.completed == h.results && h.failed == 0)
  }

  /** The figures kept for an archive that is not complete: failures do not count as completed. */
  function ProgressOf(h: Hist): Progress
  {
    Progress(h.completed - h.failed, h.results, h.failed)
  }

  /** The number of complete archives in a history. */
  function DoneCount(history: History): (n: nat)
    ensures n <= |history|
  {
    if history == [] then 0
    else DoneCount(history[..|history| - 1]) + (if IsDone(history[|history| - 1].1) then 1 else 0)
  }

  /** The archives that are not complete, with their figures, in history order. */
  function PerArchive(history: History): seq<(string, Progress)>
  {
    if history == [] then []
    else
      var init := PerArchive(history[..|history| - 1]);
      var (archive, h) := history[|history| - 1];
      if IsDone(h) then init else init + [(archive, ProgressOf(h))]
  }

  /** What `get_status` returns for a history, or for a missing history file. */
  function StatusOf(history: Option<History>): (r: Option<DomainStatus>)
    ensures r.Some? <==> history.Some?
    ensures r.Some? ==> r.value.completedArchives + r.value.partial == |history.value|
  {
    match history
    case None => None
    case Some(hs) => Some(DomainStatus(DoneCount(hs), |hs| - DoneCount(hs), PerArchive(hs)))
  }

  /** `get_status(domain)`: one pass over the history's items. */
  method GetStatus(history: Option<History>) returns (r: Option<DomainStatus>)
    ensures r == StatusOf(history)
  {
    if history.None? {
      return None;
    }
    var hs := history.value;
    var completedArchives := 0;
    var results := [];
    var i := 0;
    while i < |hs|
      invariant i <= |hs|
      invariant completedArchives == DoneCount(hs[..i])
      invariant results == PerArchive(hs[..i])
    {
      PrefixInit(hs, i);
      var (archive, hist) := hs[i];
      if hist.results == 0 || (hist.completed == hist.results && hist.failed == 0) {
        completedArchives := completedArchives + 1;
      } else {
        results := results + [(archive, Progress(hist.completed - hist.failed, hist.results, hist.failed))];
      }
      i := i + 1;
    }
    assert hs[..|hs|] == hs;
    return Some(DomainStatus(completedArchives, |hs| - completedArchives, results));
  }

  /** Entry `entry` of `per_archive` is what the history's `i`-th archive, a partial one, reports. */
  ghost predicate Reports(history: History, i: int, entry: (string, Progress))
  {
    0 <= i < |history| && !IsDone(history[i].1) && entry == (history[i].0, ProgressOf(history[i].1))
  }

  /** Some partial archive of the history reports `entry`. */
  ghost predicate FromPartialArchive(history: History, entry: (string, Progress))
  {
    exists i :: Reports(history, i, entry)
  }

  /** `per_archive` has one entry per partial archive: as many as `partial` counts. */
  lemma {:induction false} PerArchiveLength(history: History)
    ensures |PerArchive(history)| == |history| - DoneCount(history)
  {
    if history != [] {
      PerArchiveLength(history[..|history| - 1]);
    }
  }

  /** Every entry of `per_archive` is a partial archive with its figures. */
  lemma PerArchiveFrom(history: History)
    ensures forall entry :: entry in PerArchive(history) ==> FromPartialArchive(history, entry)
  {
    forall entry | entry in PerArchive(history) ensures FromPartialArchive(history, entry) {
      var k :| 0 <= k < |PerArchive(history)| && PerArchive(history)[k] == entry;
      var i := ReportedBy(history, k);
    }
  }

  /** The archive that entry `k` of `per_archive` reports. */
  lemma {:induction false} ReportedBy(history: History, k: nat) returns (i: nat)
    requires k < |PerArchive(history)|
    ensures Reports(history, i, PerArchive(history)[k])
  {
    var init := history[..|history| - 1];
    var before := PerArchive(init);
    if k < |before| {
      i := ReportedBy(init, k);
      assert history[i] == init[i];
    } else {
      i := |history| - 1;
    }
  }

  /** Every partial archive has its entry in `per_archive`. */
  lemma PerArchiveCovers(history: History)
    ensures forall i :: 0 <= i < |history| && !IsDone(history[i].1) ==>
      (history[i].0, ProgressOf(history[i].1)) in PerArchive(history)
  {
    forall i | 0 <= i < |history| && !IsDone(history[i].1)
      ensures (history[i].0, ProgressOf(history[i].1)) in PerArchive(history)
    {
      var k := EntryOf(history, i);
    }
  }

  /** The position in `per_archive` of the entry for the partial archive `i`. */
  lemma {:induction false} EntryOf(history: History, i: nat) returns (k: nat)
    requires i < |history| && !IsDone(history[i].1)
    ensures k < |PerArchive(history)| && PerArchive(history)[k] == (history[i].0, ProgressOf(history[i].1))
  {
    var init := history[..|history| - 1];
    if i < |init| {
      assert history[i] == init[i];
      k := EntryOf(init, i);
    } else {
      k := |PerArchive(init)|;
    }
  }

  /** A history whose every archive is complete has nothing partial to report. */
  lemma {:induction false} AllDoneNothingPartial(history: History)
    requires forall i :: 0 <= i < |history| ==> IsDone(history[i].1)
    ensures DoneCount(history) == |history|
    ensures PerArchive(history) == []
  {
    if history != [] {
      var init := history[..|history| - 1];
      assert forall i :: 0 <= i < |init| ==> init[i] == history[i];
      AllDoneNothingPartial(init);
    }
  }

  // ---------------------------------------------------------------------------
  // Every domain (`status.py all`)
  // ---------------------------------------------------------------------------

  /** The `domains` and `archives` counters and `partial_list` of the `all` branch. */
  datatype Summary = Summary(
    completed: nat, partial: nat, total: nat,
    archivesCompleted: nat, archivesPartial: nat,
    partialList: seq<string>)

  /** The line `partial_list` gets for a partly processed domain. */
  function PartialEntry(domain: string, done: nat, archiveCount: int): string
  {
    domain + " (" + IntToString(done) + "/" + IntToString(archiveCount) + ")"
  }

  /**
   * One domain added to the counters: every domain counts towards the total;
   * one with a history adds its archive figures; one whose history names at
   * least one archive is completed when all `archiveCount` archives are
   * complete, and partial (and listed) otherwise.
   */
  function Tally(acc: Summary, domain: string, status: Option<DomainStatus>, archiveCount: int): Summary
  {
    var acc := acc.(total := acc.total + 1);
    match status
    case None => acc
    case Some(s) =>
      var acc := acc.(archivesCompleted := acc.archivesCompleted + s.completedArchives,
                      archivesPartial := acc.archivesPartial + s.partial);
      if s.completedArchives > 0 || s.partial > 0 then
        if s.completedArchives == archiveCount then acc.(completed := acc.completed + 1)
        else acc.(partial := acc.partial + 1,
                  partialList := acc.partialList + [PartialEntry(domain, s.completedArchives, archiveCount)])
      else acc
  }

  /** The counters after the first `|domains|` lines of `domains.conf`. */
  function Summarize(domains: seq<string>, archiveCount: int, historyOf: string -> Option<History>): Summary
  {
    if domains == [] then Summary(0, 0, 0, 0, 0, [])
    else
      var d := domains[|domains| - 1];
      Tally(Summarize(domains[..|domains| - 1], archiveCount, historyOf), d, StatusOf(historyOf(d)), archiveCount)
  }

  /**
   * The loop over `domains.conf` in the `all` branch; `historyOf` stands for
   * the history files on disk and `archiveCount` for the number read from
   * `archive_count`.
   */
  method SummarizeDomains(domains: seq<string>, archiveCount: int, historyOf: string -> Option<History>)
    returns (s: Summary)
    ensures s == Summarize(domains, archiveCount, historyOf)
  {
    var completed: nat, partial: nat, total: nat := 0, 0, 0;
    var archivesCompleted: nat, archivesPartial: nat := 0, 0;
    var partialList := [];
    var i := 0;
    while i < |domains|
      invariant i <= |domains|
      invariant Summary(completed, partial, total, archivesCompleted, archivesPartial, partialList)
             == Summarize(domains[..i], archiveCount, historyOf)
    {
      SummarizeStep(domains, i, archiveCount, historyOf);
      var domain := domains[i];
      total := total + 1;
      var status := GetStatus(historyOf(domain));
      if status.Some? {
        var st := status.value;
        archivesCompleted := archivesCompleted + st.completedArchives;
        archivesPartial := archivesPartial + st.partial;
        if st.completedArchives > 0 || st.partial > 0 {
          if st.completedArchives == archiveCount {
            completed := completed + 1;
          } else {
            partial := partial + 1;
            partialList := partialList + [PartialEntry(domain, st.completedArchives, archiveCount)];
          }
        }
      }
      i := i + 1;
    }
    assert domains[..|domains|] == domains;
    s := Summary(completed, partial, total, archivesCompleted, archivesPartial, partialList);
  }

  lemma SummarizeStep(domains: seq<string>, i: nat, archiveCount: int, historyOf: string -> Option<History>)
    requires i < |domains|
    ensures Summarize(domains[..i + 1], archiveCount, historyOf)
         == Tally(Summarize(domains[..i], archiveCount, historyOf), domains[i], StatusOf(historyOf(domains[i])), archiveCount)
  {
    PrefixInit(domains, i);
  }

  /**
   * Every listed domain counts once towards the total, at most once as
   * completed or partial, and `partial_list` has one line per partial domain.
   */
  lemma {:induction false} SummarizeCounts(domains: seq<string>, archiveCount: int, historyOf: string -> Option<History>)
    ensures var s := Summarize(domains, archiveCount, historyOf);
      s.total == |domains| && s.completed + s.partial <= s.total && |s.partialList| == s.partial
  {
    if domains != [] {
      SummarizeCounts(domains[..|domains| - 1], archiveCount, historyOf);
    }
  }

  /** A domain whose history names archives and has `archiveCount` of them complete: counted as completed. */
  predicate CompletedDomain(history: Option<History>, archiveCount: int)
  {
    history.Some? && history.value != [] && DoneCount(history.value) == archiveCount
  }

  /** A domain whose history names archives but not `archiveCount` complete ones: counted as partial. */
  predicate PartialDomain(history: Option<History>, archiveCount: int)
  {
    history.Some? && history.value != [] && DoneCount(history.value) != archiveCount
  }

  /** The lines of `domains.conf` whose domain counts as completed. */
  function CompletedAt(domains: seq<string>, archiveCount: int, historyOf: string -> Option<History>): set<nat>
  {
    Where(domains, (d: string) => CompletedDomain(historyOf(d), archiveCount))
  }

  /** The lines of `domains.conf` whose domain counts as partial. */
  function PartialAt(domains: seq<string>, archiveCount: int, historyOf: string -> Option<History>): set<nat>
  {
    Where(domains, (d: string) => PartialDomain(historyOf(d), archiveCount))
  }

  /**
   * The `completed` counter is the number of listed domains whose non-empty
   * history has exactly `archiveCount` complete archives, and the `partial`
   * counter the number of those whose non-empty history has another count;
   * no domain is both.
   */
  lemma {:induction false} SummarizeClassifies(domains: seq<string>, archiveCount: int, historyOf: string -> Option<History>)
    ensures Summarize(domains, archiveCount, historyOf).completed == |CompletedAt(domains, archiveCount, historyOf)|
    ensures Summarize(domains, archiveCount, historyOf).partial == |PartialAt(domains, archiveCount, historyOf)|
    ensures CompletedAt(domains, archiveCount, historyOf) !! PartialAt(domains, archiveCount, historyOf)
  {
    if domains != [] {
      SummarizeClassifies(domains[..|domains| - 1], archiveCount, historyOf);
      WhereSnoc(domains, (d: string) => CompletedDomain(historyOf(d), archiveCount));
      WhereSnoc(domains, (d: string) => PartialDomain(historyOf(d), archiveCount));
    }
  }

  /** Every listed domain that counts as partial has its line in `partial_list`, with its count. */
  lemma PartialDomainsListed(domains: seq<string>, archiveCount: int, historyOf: string -> Option<History>)
    ensures forall i :: 0 <= i < |domains| && PartialDomain(historyOf(domains[i]), archiveCount) ==>
      PartialEntry(domains[i], DoneCount(historyOf(domains[i]).value), archiveCount)
        in Summarize(domains, archiveCount, historyOf).partialList
  {
    var lineOf := PartialLineFor(archiveCount, historyOf);
    PartialListCollects(domains, archiveCount, historyOf);
    forall i | 0 <= i < |domains| && PartialDomain(historyOf(domains[i]), archiveCount)
      ensures PartialEntry(domains[i], DoneCount(historyOf(domains[i]).value), archiveCount)
        in Summarize(domains, archiveCount, historyOf).partialList
    {
      CollectedHas(domains, lineOf, i);
    }
  }

  /** The `partial_list` line a domain gets, if it counts as partial. */
  function PartialLineFor(archiveCount: int, historyOf: string -> Option<History>): string -> Option<string>
  {
    (d: string) =>
      if PartialDomain(historyOf(d), archiveCount)
      then Some(PartialEntry(d, DoneCount(historyOf(d).value), archiveCount))
      else None
  }

  /** `partial_list` holds the lines of the partial domains, in `domains.conf` order. */
  lemma {:induction false} PartialListCollects(domains: seq<string>, archiveCount: int, historyOf: string -> Option<History>)
    ensures Summarize(domains, archiveCount, historyOf).partialList == Collected(domains, PartialLineFor(archiveCount, historyOf))
  {
    if domains != [] {
      PartialListCollects(domains[..|domains| - 1], archiveCount, historyOf);
      PartialListSnoc(domains, archiveCount, historyOf);
    }
  }

  /** The last listed domain adds its line to `partial_list` exactly when it counts as partial. */
  lemma PartialListSnoc(domains: seq<string>, archiveCount: int, historyOf: string -> Option<History>)
    requires domains != []
    ensures var n := |domains| - 1;
      Summarize(domains, archiveCount, historyOf).partialList
        == Summarize(domains[..n], archiveCount, historyOf).partialList
           + (if PartialDomain(historyOf(domains[n]), archiveCount)
              then [PartialEntry(domains[n], DoneCount(historyOf(domains[n]).value), archiveCount)] else [])
  {
  }

  /** The total number of archives named in the domains' history files. */
  function HistorySize(domains: seq<string>, historyOf: string -> Option<History>): nat
  {
    if domains == [] then 0
    else
      var d := domains[|domains| - 1];
      HistorySize(domains[..|domains| - 1], historyOf) + (match historyOf(d) case None => 0 case Some(hs) => |hs|)
  }

  /** Every archive in every history is counted once, as complete or as partial. */
  lemma {:induction false} SummarizeArchives(domains: seq<string>, archiveCount: int, historyOf: string -> Option<History>)
    ensures var s := Summarize(domains, archiveCount, historyOf);
      s.archivesCompleted + s.archivesPartial == HistorySize(domains, historyOf)
  {
    if domains != [] {
      SummarizeArchives(domains[..|domains| - 1], archiveCount, historyOf);
    }
  }

  /** Line `entry` of `partial_list` is that of the `i`-th listed domain, which has a history short of `archiveCount`. */
  ghost predicate ListsPartial(domains: seq<string>, i: int, entry: string, archiveCount: int,
                               historyOf: string -> Option<History>)
  {
    && 0 <= i < |domains| && historyOf(domains[i]).Some?
    && DoneCount(historyOf(domains[i]).value) != archiveCount
    && entry == PartialEntry(domains[i], DoneCount(historyOf(domains[i]).value), archiveCount)
  }

  /** Some listed domain, with a history short of `archiveCount`, has `line` as its `partial_list` line. */
  ghost predicate ListedPartial(domains: seq<string>, line: string, archiveCount: int,
                                historyOf: string -> Option<History>)
  {
    exists i :: ListsPartial(domains, i, line, archiveCount, historyOf)
  }

  /**
   * Every line of `partial_list` names a listed domain that has a history
   * with fewer than `archiveCount` complete archives, with that count.
   */
  lemma PartialListEntries(domains: seq<string>, archiveCount: int, historyOf: string -> Option<History>)
    ensures forall line :: line in Summarize(domains, archiveCount, historyOf).partialList ==>
      ListedPartial(domains, line, archiveCount, historyOf)
  {
    var lines := Summarize(domains, archiveCount, historyOf).partialList;
    forall line | line in lines ensures ListedPartial(domains, line, archiveCount, historyOf) {
      var k :| 0 <= k < |lines| && lines[k] == line;
      var i := PartialLineOf(domains, archiveCount, historyOf, k);
    }
  }

  /** The domain that line `k` of `partial_list` is about. */
  lemma {:induction false} PartialLineOf(domains: seq<string>, archiveCount: int, historyOf: string -> Option<History>, k: nat)
    returns (i: nat)
    requires k < |Summarize(domains, archiveCount, historyOf).partialList|
    ensures ListsPartial(domains, i, Summarize(domains, archiveCount, historyOf).partialList[k], archiveCount, historyOf)
  {
    var init := domains[..|domains| - 1];
    if k < |Summarize(init, archiveCount, historyOf).partialList| {
      i := PartialLineOf(init, archiveCount, historyOf, k);
      assert init[i] == domains[i];
    } else {
      i := |domains| - 1;
    }
  }

  /** Domains without a history, or with an empty one, count towards the total only. */
  lemma {:induction false} NoHistoryNoProgress(domains: seq<string>, archiveCount: int, historyOf: string -> Option<History>)
    requires forall i :: 0 <= i < |domains| ==> historyOf(domains[i]) == None || historyOf(domains[i]) == Some([])
    ensures var s := Summarize(domains, archiveCount, historyOf);
      s.completed == 0 && s.partial == 0 && s.partialList == [] && s.total == |domains|
  {
    if domains != [] {
      var init := domains[..|domains| - 1];
      assert forall i :: 0 <= i < |init| ==> init[i] == domains[i];
      NoHistoryNoProgress(init, archiveCount, historyOf);
    }
  }
}
