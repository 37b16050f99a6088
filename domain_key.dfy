/**
 * Domain search keys.
 *
 * The index is sorted on SURT-style keys, so a domain's labels are written
 * in reverse order and joined by commas: `www.example.com` becomes
 * `com,example,www`. The collector appends `)/` and the path part
 * (collector.py, `Domain.__init__`); the purge tool validates every label and
 * appends nothing (remove_domain_archives.py). Both build the key with the
 * same count-down loop, modelled here by two methods specified by one function.
 */
module DomainKey {
  import opened Common
  import opened Order

  /** The labels in reverse order, joined by `,`. */
  function ReversedKey(labels: seq<string>): string
    requires |labels| >= 1
  {
    Join(Reverse(labels), ',')
  }

  /** Putting one more label in front adds it, after a comma, at the end of the key. */
  lemma ReversedKeyCons(x: string, xs: seq<string>)
    requires |xs| >= 1
    ensures ReversedKey([x] + xs) == ReversedKey(xs) + "," + x
  {
    assert ([x] + xs)[1..] == xs;
    JoinAppend(Reverse(xs), x, ',');
  }

  /** The key splits back into the labels, reversed, when no label holds a comma. */
  lemma ReversedKeyLabels(labels: seq<string>)
    requires |labels| >= 1 && FreeOf(labels, ',')
    ensures Split(ReversedKey(labels), ',') == Reverse(labels)
  {
    SplitJoin(Reverse(labels), ',');
  }

  /** What the count-down loop has built once it has appended the labels from index `i` on. */
  ghost function KeySoFar(labels: seq<string>, i: nat): string
    requires |labels| >= 1 && i <= |labels|
  {
    if i == |labels| then ""
    else if i == 0 then ReversedKey(labels)
    else ReversedKey(labels[i..]) + ","
  }

  lemma KeySoFarStep(labels: seq<string>, i: nat)
    requires |labels| >= 1 && 0 < i <= |labels|
    ensures KeySoFar(labels, i - 1) == KeySoFar(labels, i) + labels[i - 1] + (if i > 1 then "," else "")
  {
    assert labels[i - 1..] == [labels[i - 1]] + labels[i..];
    if i < |labels| {
      ReversedKeyCons(labels[i - 1], labels[i..]);
    }
    assert labels[0..] == labels;
  }

  /**
   * The key loop of collector.py: the labels of `left` from last to first,
   * a comma after every label but the original first, then `)/` and `right`.
   */
  method SearchString(left: string, right: string) returns (s: string)
    ensures s == ReversedKey(Split(left, '.')) + ")/" + right
  {
    var labels := Split(left, '.');
    s := "";
    var i := |labels|;
    while i > 0
      invariant 0 <= i <= |labels|
      invariant s == KeySoFar(labels, i)
    {
      KeySoFarStep(labels, i);
      s := s + labels[i - 1];
      if i > 1 {
        s := s + ",";
      }
      i := i - 1;
    }
    s := s + ")/" + right;
  }

  // ---------------------------------------------------------------------------
  // The collector's Domain
  // ---------------------------------------------------------------------------

  /** A configured domain and the key it is looked up by. */
  datatype Domain = Domain(name: string, searchString: string)

  /**
   * `Domain.__init__` as written: a domain holding `/` is refused, and one
   * without `/` fails the two-way unpack of `domain.split('/', 1)`.
   */
  function DomainAsWritten(domain: string): (r: Result<Domain, PyError>)
  {
    if '/' in domain then Err(Exception)
    else
      match Unpack2(SplitMax(domain, '/', 1))
      case Err(e) => Err(e)
      case Ok((left, right)) => Ok(Domain(domain, CollectorKey(left, right)))
  }

  /** The key `Domain.__init__` builds from the two sides of its `/` split. */
  function CollectorKey(left: string, right: string): string
  {
    ReversedKey(Split(left, '.')) + ")/" + right
  }

  /** No domain gets past the constructor as written. */
  lemma DomainAsWrittenAlwaysRaises(domain: string)
    ensures DomainAsWritten(domain).Err?
    ensures '/' !in domain ==> DomainAsWritten(domain) == Err(ValueError)
  {
  }

  /**
   * The constructor as evidently intended: a domain holding `/` is refused
   * (Exception), and any other domain gets the key of its labels with an
   * empty path part, `<reversed labels>)/`.
   */
  method NewDomain(domain: string) returns (r: Result<Domain, PyError>)
    ensures r.Err? <==> '/' in domain
    ensures r.Err? ==> r.error == Exception
    ensures r.Ok? ==> r.value == Domain(domain, ReversedKey(Split(domain, '.')) + ")/")
  {
    if '/' in domain {
      return Err(Exception);
    }
    var key := SearchString(domain, "");
    return Ok(Domain(domain, key));
  }

  /**
   * verify_history.py's domain list: lines up to the first empty one, each
   * turned into a Domain; a constructor error propagates.
   */
  method LoadDomains(lines: seq<string>) returns (r: Result<seq<Domain>, PyError>)
    ensures var n := MatchingRun(lines, (l: string) => l != "");
      r.Ok? <==> forall k :: 0 <= k < n ==> '/' !in lines[k]
    ensures var n := MatchingRun(lines, (l: string) => l != "");
      r.Ok? ==> |r.value| == n && forall k :: 0 <= k < n ==> r.value[k] == Domain(lines[k], ReversedKey(Split(lines[k], '.')) + ")/")
    ensures r.Err? ==> r.error == Exception
  {
    ghost var n := MatchingRun(lines, (l: string) => l != "");
    var domains: seq<Domain> := [];
    var i := 0;
    while i < |lines|
      invariant 0 <= i <= n && |domains| == i
      invariant forall k :: 0 <= k < i ==> '/' !in lines[k] && domains[k] == Domain(lines[k], ReversedKey(Split(lines[k], '.')) + ")/")
    {
      if |lines[i]| == 0 {
        break;
      }
      var d := NewDomain(lines[i]);
      if d.Err? {
        return Err(d.error);
      }
      domains := domains + [d.value];
      i := i + 1;
    }
    return Ok(domains);
  }

  // ---------------------------------------------------------------------------
  // The purge tool's validated key
  // ---------------------------------------------------------------------------

  predicate IsAsciiAlnum(ch: char)
  {
    ('0' <= ch <= '9') || ('a' <= ch <= 'z') || ('A' <= ch <= 'Z')
  }

  /** `label.replace('-', '')` */
  function RemoveHyphens(part: string): (r: string)
    ensures '-' !in r
    ensures forall ch :: ch in r <==> ch in part && ch != '-'
  {
    if part == [] then []
    else (if part[0] == '-' then [] else [part[0]]) + RemoveHyphens(part[1..])
  }

  /** `label.replace('-', '').isalnum()`, with ASCII letters and digits. */
  predicate ValidLabel(part: string)
  {
    var stripped := RemoveHyphens(part);
    |stripped| > 0 && forall k :: 0 <= k < |stripped| ==> IsAsciiAlnum(stripped[k])
  }

  ghost predicate ValidDomain(domain: string)
  {
    var labels := Split(domain, '.');
    forall k :: 0 <= k < |labels| ==> ValidLabel(labels[k])
  }

  /**
   * The key loop of remove_domain_archives.py: every label, from last to
   * first, must be alphanumeric once hyphens are dropped, or the whole
   * operation raises ValueError; the key is the reversed labels joined by `,`.
   */
  method ValidatedSearchKey(domain: string) returns (r: Result<string, PyError>)
    ensures r.Ok? <==> ValidDomain(domain)
    ensures r.Ok? ==> r.value == ReversedKey(Split(domain, '.'))
    ensures r.Err? ==> r.error == ValueError
  {
    var labels := Split(domain, '.');
    var s := "";
    var i := |labels|;
    while i > 0
      invariant 0 <= i <= |labels|
      invariant forall k :: i <= k < |labels| ==> ValidLabel(labels[k])
      invariant s == KeySoFar(labels, i)
    {
      if !ValidLabel(labels[i - 1]) {
        return Err(ValueError);
      }
      KeySoFarStep(labels, i);
      s := s + labels[i - 1];
      if i > 1 {
        s := s + ",";
      }
      i := i - 1;
    }
    return Ok(s);
  }

  /** An empty label (leading, trailing or doubled dot, or an empty domain) is never valid. */
  lemma MalformedDomainRejected(domain: string)
    requires || domain == ""
             || domain[0] == '.'
             || domain[|domain| - 1] == '.'
             || exists j :: 0 <= j < |domain| - 1 && domain[j] == '.' && domain[j + 1] == '.'
    ensures !ValidDomain(domain)
  {
    assert !ValidLabel("");
    var labels := Split(domain, '.');
    if domain == "" {
      assert labels[0] == "";
    } else if domain[0] == '.' {
      assert labels[0] == "";
    } else if domain[|domain| - 1] == '.' {
      SplitLastEmpty(domain, '.');
    } else {
      var j :| 0 <= j < |domain| - 1 && domain[j] == '.' && domain[j + 1] == '.';
      SplitDoubledSeparator(domain, '.', j);
    }
  }

  /** A valid single label is accepted, and its key is the label itself. */
  lemma SingleLabelAccepted(domain: string)
    requires '.' !in domain && ValidLabel(domain)
    ensures ValidDomain(domain)
    ensures ReversedKey(Split(domain, '.')) == domain
  {
  }

  lemma {:induction false} SplitLastEmpty(s: string, c: char)
    requires |s| > 0 && s[|s| - 1] == c
    ensures var parts := Split(s, c); parts[|parts| - 1] == ""
    decreases |s|
  {
    var i := IndexOf(s, c);
    if i < |s| - 1 {
      SplitLastEmpty(s[i + 1..], c);
    }
  }

  lemma {:induction false} SplitDoubledSeparator(s: string, c: char, j: nat)
    requires j + 1 < |s| && s[j] == c && s[j + 1] == c
    ensures "" in Split(s, c)
    decreases |s|
  {
    var i := IndexOf(s, c);
    var tail := s[i + 1..];
    if i == j {
      assert tail[0] == c;
      assert Split(tail, c)[0] == "";
    } else {
      SplitDoubledSeparator(tail, c, j - i - 1);
    }
    assert Split(s, c) == [s[..i]] + Split(tail, c);
  }

  /** A three-label domain `x.y.z` has the key `z,y,x` (`www.example.com` gives `com,example,www`). */
  lemma ThreeLabelKey(x: string, y: string, z: string)
    requires '.' !in x && '.' !in y && '.' !in z
    ensures ReversedKey(Split(x + "." + y + "." + z, '.')) == z + "," + y + "," + x
  {
    SplitThree(x, y, z, '.');
    ReverseThree([x, y, z]);
    JoinThree(z, y, x, ',');
  }

  lemma SplitThree(x: string, y: string, z: string, c: char)
    requires c !in x && c !in y && c !in z
    ensures Split(x + [c] + y + [c] + z, c) == [x, y, z]
  {
    JoinThree(x, y, z, c);
    SplitJoin([x, y, z], c);
  }

  lemma ReverseThree<T>(s: seq<T>)
    requires |s| == 3
    ensures Reverse(s) == [s[2], s[1], s[0]]
  {
  }

  lemma JoinThree(x: string, y: string, z: string, c: char)
    ensures Join([x, y, z], c) == x + [c] + y + [c] + z
  {
    assert [x, y, z][1..] == [y, z];
    assert [y, z][1..] == [z];
    assert Join([z], c) == z;
    assert Join([y, z], c) == y + [c] + z;
    assert Join([x, y, z], c) == x + [c] + (y + [c] + z);
  }

}
