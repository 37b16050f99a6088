/**
 * Values shared by every part of the model: the result types that stand for
 * Python's exceptions, and the handful of `str` operations the collector
 * relies on (`split`, `split(sep, maxsplit)`, `join`, `endswith`, `str(int)`
 * and `int(str)`), each with the round trip that makes it usable.
 */
module Common {

  datatype Option<+T> = None | Some(value: T)

  datatype Result<+T, +E> = Ok(value: T) | Err(error: E)

  /** The exception classes the modelled code can raise. */
  datatype PyError =
    | ValueError     // wrong number of parts to unpack, or int() of a non-number
    | IndexError     // list index out of range
    | TypeError      // wrong argument count or operand types
    | AttributeError // attribute missing on the object
    | NameError      // name not defined
    | Exception      // a bare `raise Exception(...)`

  // ---------------------------------------------------------------------------
  // Splitting and joining on one separator character
  // ---------------------------------------------------------------------------

  /** Position of the first occurrence of `c` in `s`. */
  function IndexOf(s: string, c: char): (i: nat)
    requires c in s
    ensures i < |s| && s[i] == c && c !in s[..i]
  {
    if s[0] == c then 0 else 1 + IndexOf(s[1..], c)
  }

  /** Python's `s.split(c)`: every occurrence of `c` separates two parts. */
  function Split(s: string, c: char): (parts: seq<string>)
    ensures |parts| >= 1
    decreases |s|
  {
    if c !in s then [s]
    else
      var i := IndexOf(s, c);
      [s[..i]] + Split(s[i + 1..], c)
  }

  /** Python's `s.split(c, n)`: at most `n` separations, the tail kept whole. */
  function SplitMax(s: string, c: char, n: nat): (parts: seq<string>)
    ensures 1 <= |parts| <= n + 1
    decreases n
  {
    if n == 0 || c !in s then [s]
    else
      var i := IndexOf(s, c);
      [s[..i]] + SplitMax(s[i + 1..], c, n - 1)
  }

  /** Python's `c.join(parts)` for a non-empty list of parts. */
  function Join(parts: seq<string>, c: char): (s: string)
    requires |parts| >= 1
  {
    if |parts| == 1 then parts[0] else parts[0] + [c] + Join(parts[1..], c)
  }

  ghost predicate FreeOf(parts: seq<string>, c: char)
  {
    forall k :: 0 <= k < |parts| ==> c !in parts[k]
  }

  lemma IndexOfAfterPrefix(a: string, c: char, b: string)
    requires c !in a
    ensures c in a + [c] + b && IndexOf(a + [c] + b, c) == |a|
  {
    var s := a + [c] + b;
    assert s[|a|] == c;
    assert s[..|a|] == a;
  }

  /** Splitting what was joined gives back the parts, when no part holds the separator. */
  lemma {:induction false} SplitJoin(parts: seq<string>, c: char)
    requires |parts| >= 1 && FreeOf(parts, c)
    ensures Split(Join(parts, c), c) == parts
  {
    if |parts| > 1 {
      SplitAfterPrefix(parts[0], c, Join(parts[1..], c));
      assert FreeOf(parts[1..], c) by {
        assert forall k :: 0 <= k < |parts| - 1 ==> parts[1..][k] == parts[k + 1];
      }
      SplitJoin(parts[1..], c);
      assert parts == [parts[0]] + parts[1..];
    }
  }

  /** A separator-free part, then the separator: the part is the first of the split. */
  lemma SplitAfterPrefix(a: string, c: char, b: string)
    requires c !in a
    ensures Split(a + [c] + b, c) == [a] + Split(b, c)
  {
    var s := a + [c] + b;
    IndexOfAfterPrefix(a, c, b);
    assert s[..|a|] == a;
    assert s[|a| + 1..] == b;
  }

  /** Joining the parts of a split gives back the string. */
  lemma {:induction false} JoinSplit(s: string, c: char)
    ensures Join(Split(s, c), c) == s
    decreases |s|
  {
    if c in s {
      var i := IndexOf(s, c);
      JoinSplit(s[i + 1..], c);
      assert s == s[..i] + [c] + s[i + 1..];
    }
  }

  /** A part before the first separator is split off whole, using up one separation. */
  lemma SplitMaxCons(a: string, c: char, rest: string, n: nat)
    requires c !in a && n > 0
    ensures SplitMax(a + [c] + rest, c, n) == [a] + SplitMax(rest, c, n - 1)
  {
    var s := a + [c] + rest;
    IndexOfAfterPrefix(a, c, rest);
    assert s[..|a|] == a;
    assert s[|a| + 1..] == rest;
  }

  /** `split(c, 2)` stops after two separations: the last part keeps the rest verbatim. */
  lemma SplitMaxTail(a: string, b: string, c: char, tail: string)
    requires c !in a && c !in b
    ensures SplitMax(a + [c] + b + [c] + tail, c, 2) == [a, b, tail]
  {
    var s2 := b + [c] + tail;
    assert a + [c] + b + [c] + tail == a + [c] + s2;
    SplitMaxCons(a, c, s2, 2);
    SplitMaxCons(b, c, tail, 1);
    assert SplitMax(tail, c, 0) == [tail];
  }

  lemma {:induction false} JoinFreeOf(parts: seq<string>, c: char, d: char)
    requires |parts| >= 1 && FreeOf(parts, d) && c != d
    ensures d !in Join(parts, c)
  {
    if |parts| > 1 {
      JoinFreeOf(parts[1..], c, d);
    }
  }

  /** A two-target unpacking `x, y = parts`: any other length is a ValueError. */
  function Unpack2(parts: seq<string>): (r: Result<(string, string), PyError>)
    ensures r.Ok? <==> |parts| == 2
  {
    if |parts| == 2 then Ok((parts[0], parts[1])) else Err(ValueError)
  }

  lemma {:induction false} JoinAppend(xs: seq<string>, y: string, c: char)
    requires |xs| >= 1
    ensures Join(xs + [y], c) == Join(xs, c) + [c] + y
  {
    if |xs| > 1 {
      assert (xs + [y])[1..] == xs[1..] + [y];
      JoinAppend(xs[1..], y, c);
    } else {
      assert xs + [y] == [xs[0], y];
    }
  }

  /** Python's iteration over the lines of a text: split at `\n`, no empty line after a final terminator. */
  function Lines(text: string): (lines: seq<string>)
    ensures forall k :: 0 <= k < |lines| ==> '\n' !in lines[k]
  {
    var parts := Split(text, '\n');
    SplitFreeOf(text, '\n');
    if parts[|parts| - 1] == "" then parts[..|parts| - 1] else parts
  }

  /** A terminated line in front of a text is the first of its lines. */
  lemma LinesCons(line: string, rest: string)
    requires '\n' !in line
    ensures Lines(line + "\n" + rest) == [line] + Lines(rest)
  {
    SplitAfterPrefix(line, '\n', rest);
    DropLastCons(line, Split(rest, '\n'));
  }

  /** A non-empty text without a newline is one line. */
  lemma LinesOfLine(text: string)
    requires '\n' !in text && text != ""
    ensures Lines(text) == [text]
  {
  }

  lemma {:induction false} SplitFreeOf(s: string, c: char)
    ensures FreeOf(Split(s, c), c)
    decreases |s|
  {
    if c in s {
      var i := IndexOf(s, c);
      SplitFreeOf(s[i + 1..], c);
    }
  }

  // ---------------------------------------------------------------------------
  // Reading a file of records, one per line
  // ---------------------------------------------------------------------------

  /** Every line parsed in order, stopping at the first line that does not parse. */
  function ParseAll<T>(lines: seq<string>, parse: string -> Result<T, PyError>): (r: Result<seq<T>, PyError>)
    ensures r.Ok? ==> |r.value| == |lines|
  {
    if lines == [] then Ok([])
    else
      match parse(lines[0])
      case Err(e) => Err(e)
      case Ok(v) =>
        match ParseAll(lines[1..], parse)
        case Err(e) => Err(e)
        case Ok(vs) => Ok([v] + vs)
  }

  /** Puts already parsed values in front of the rest of a parse. */
  function Prepend<T>(done: seq<T>, rest: Result<seq<T>, PyError>): Result<seq<T>, PyError>
  {
    match rest
    case Ok(vs) => Ok(done + vs)
    case Err(e) => Err(e)
  }

  /** Dropping the last element of a sequence with one more in front. */
  lemma DropLastCons<T>(a: T, xs: seq<T>)
    requires xs != []
    ensures ([a] + xs)[..|xs|] == [a] + xs[..|xs| - 1]
  {
  }

  /** Appending regroups freely. */
  lemma Regroup<T>(a: seq<T>, b: seq<T>, c: seq<T>, d: seq<T>)
    ensures a + (b + c + d) == a + b + c + d
  {
  }

  /** The prefix one longer drops back to the shorter prefix and ends with the next element. */
  lemma PrefixInit<T>(xs: seq<T>, i: nat)
    requires i < |xs|
    ensures xs[..i + 1][..i] == xs[..i]
    ensures xs[..i + 1][i] == xs[i]
  {
  }

  /** Putting `x` in anywhere adds exactly one `x`. */
  lemma MultisetInsert<T>(a: seq<T>, k: nat, x: T)
    requires k <= |a|
    ensures multiset(a[..k] + [x] + a[k..]) == multiset(a) + multiset{x}
  {
    assert a == a[..k] + a[k..];
  }

  /** Taking out the entry at `k` removes exactly one of it. */
  lemma MultisetRemoveAt<T>(a: seq<T>, k: nat)
    requires k < |a|
    ensures multiset(a[..k] + a[k + 1..]) == multiset(a) - multiset{a[k]}
  {
    assert a == a[..k] + [a[k]] + a[k + 1..];
  }

  /** A non-empty sequence holds its prefix and its last entry. */
  lemma MultisetSnoc<T>(xs: seq<T>)
    requires xs != []
    ensures multiset(xs) == multiset(xs[..|xs| - 1]) + multiset{xs[|xs| - 1]}
  {
    assert xs == xs[..|xs| - 1] + [xs[|xs| - 1]];
  }

  /** The values `f` gives the entries of `xs`, in order, skipping those it gives none for. */
  function Collected<T, U>(xs: seq<T>, f: T -> Option<U>): seq<U>
  {
    if xs == [] then []
    else
      var last := f(xs[|xs| - 1]);
      Collected(xs[..|xs| - 1], f) + (if last.Some? then [last.value] else [])
  }

  /** Every value `f` gives an entry of `xs` is collected. */
  lemma {:induction false} CollectedHas<T, U>(xs: seq<T>, f: T -> Option<U>, i: nat)
    requires i < |xs| && f(xs[i]).Some?
    ensures f(xs[i]).value in Collected(xs, f)
  {
    var n := |xs| - 1;
    if i < n {
      assert xs[..n][i] == xs[i];
      CollectedHas(xs[..n], f, i);
    }
  }

  /** The positions of `xs` whose entry satisfies `p`. */
  function Where<T>(xs: seq<T>, p: T -> bool): set<nat>
  {
    set i: nat | i < |xs| && p(xs[i])
  }

  /** A non-empty sequence has its prefix's positions, and its last one if that entry qualifies. */
  lemma WhereSnoc<T>(xs: seq<T>, p: T -> bool)
    requires xs != []
    ensures |Where(xs, p)| == |Where(xs[..|xs| - 1], p)| + (if p(xs[|xs| - 1]) then 1 else 0)
  {
    var n := |xs| - 1;
    assert Where(xs, p) == Where(xs[..n], p) + (if p(xs[n]) then {n} else {});
    assert n !in Where(xs[..n], p);
  }

  /** A non-empty sequence is its head followed by its tail. */
  lemma HeadTail<T>(q: seq<T>)
    requires q != []
    ensures [q[0]] + q[1..] == q
  {
  }

  /** Parsing one more line in front: its value goes first, or its error wins. */
  lemma ParseAllCons<T>(line: string, rest: seq<string>, parse: string -> Result<T, PyError>)
    ensures parse(line).Err? ==> ParseAll([line] + rest, parse) == Err(parse(line).error)
    ensures parse(line).Ok? ==> ParseAll([line] + rest, parse) == Prepend([parse(line).value], ParseAll(rest, parse))
  {
    assert ([line] + rest)[1..] == rest;
  }

  /**
   * A file parses exactly when every line does; its values are then the
   * lines' values in line order, and otherwise its error is the error of the
   * first line that does not parse.
   */
  lemma {:induction false} ParseAllSpec<T>(lines: seq<string>, parse: string -> Result<T, PyError>)
    ensures var r := ParseAll(lines, parse);
      && (r.Ok? <==> forall i :: 0 <= i < |lines| ==> parse(lines[i]).Ok?)
      && (r.Ok? ==> forall i :: 0 <= i < |lines| ==> parse(lines[i]) == Ok(r.value[i]))
      && (r.Err? ==> exists i :: 0 <= i < |lines| && parse(lines[i]) == Err(r.error)
                                 && (forall j :: 0 <= j < i ==> parse(lines[j]).Ok?))
  {
    if lines != [] {
      ParseAllSpec(lines[1..], parse);
      assert forall i :: 1 <= i < |lines| ==> lines[1..][i - 1] == lines[i];
      var r := ParseAll(lines, parse);
      if r.Err? && parse(lines[0]).Ok? {
        var i :| 0 <= i < |lines[1..]| && parse(lines[1..][i]) == Err(r.error)
                 && (forall j :: 0 <= j < i ==> parse(lines[1..][j]).Ok?);
        assert parse(lines[i + 1]) == Err(r.error);
      }
    }
  }

  /** Parsing two blocks of lines: the first block's error wins, else the second's values follow. */
  lemma {:induction false} ParseAllAppend<T>(xs: seq<string>, ys: seq<string>, parse: string -> Result<T, PyError>)
    ensures ParseAll(xs, parse).Err? ==> ParseAll(xs + ys, parse) == ParseAll(xs, parse)
    ensures ParseAll(xs, parse).Ok? ==> ParseAll(xs + ys, parse) == Prepend(ParseAll(xs, parse).value, ParseAll(ys, parse))
  {
    if xs != [] {
      assert (xs + ys)[1..] == xs[1..] + ys;
      ParseAllAppend(xs[1..], ys, parse);
      if ParseAll(xs, parse).Ok? && ParseAll(ys, parse).Ok? {
        var v := parse(xs[0]).value;
        assert [v] + (ParseAll(xs[1..], parse).value + ParseAll(ys, parse).value)
            == ([v] + ParseAll(xs[1..], parse).value) + ParseAll(ys, parse).value;
      }
    } else {
      assert xs + ys == ys;
      if ParseAll(ys, parse).Ok? {
        assert [] + ParseAll(ys, parse).value == ParseAll(ys, parse).value;
      }
    }
  }

  /** One more line parsed at the end of a prefix. */
  lemma ParseAllSnoc<T>(lines: seq<string>, i: nat, parse: string -> Result<T, PyError>)
    requires i < |lines| && ParseAll(lines[..i], parse).Ok?
    ensures parse(lines[i]).Err? ==> ParseAll(lines[..i + 1], parse) == Err(parse(lines[i]).error)
    ensures parse(lines[i]).Ok? ==>
      ParseAll(lines[..i + 1], parse) == Ok(ParseAll(lines[..i], parse).value + [parse(lines[i]).value])
  {
    assert lines[..i + 1] == lines[..i] + [lines[i]];
    ParseAllAppend(lines[..i], [lines[i]], parse);
    assert [lines[i]][1..] == [];
    if parse(lines[i]).Ok? {
      var v := parse(lines[i]).value;
      assert [v] + [] == [v];
      assert ParseAll([lines[i]], parse) == Ok([v]);
    }
  }

  /** A prefix that fails to parse makes the whole file fail the same way. */
  lemma ParseAllPrefixErr<T>(lines: seq<string>, i: nat, parse: string -> Result<T, PyError>)
    requires i <= |lines| && ParseAll(lines[..i], parse).Err?
    ensures ParseAll(lines, parse) == ParseAll(lines[..i], parse)
  {
    assert lines == lines[..i] + lines[i..];
    ParseAllAppend(lines[..i], lines[i..], parse);
  }

  /**
   * The loops that read a file line by line, parse each line and append the
   * value to a list; the first line that does not parse raises its error.
   */
  method ParseLines<T>(lines: seq<string>, parse: string -> Result<T, PyError>)
    returns (r: Result<seq<T>, PyError>)
    ensures r == ParseAll(lines, parse)
  {
    var entries: seq<T> := [];
    var i := 0;
    assert lines[0..] == lines;
    assert Prepend([], ParseAll(lines, parse)) == ParseAll(lines, parse) by {
      if ParseAll(lines, parse).Ok? {
        assert [] + ParseAll(lines, parse).value == ParseAll(lines, parse).value;
      }
    }
    while i < |lines|
      invariant 0 <= i <= |lines|
      invariant ParseAll(lines, parse) == Prepend(entries, ParseAll(lines[i..], parse))
    {
      var parsed := parse(lines[i]);
      assert lines[i..][1..] == lines[i + 1..];
      if parsed.Err? {
        return Err(parsed.error);
      }
      var rest := ParseAll(lines[i + 1..], parse);
      assert ParseAll(lines[i..], parse) == Prepend([parsed.value], rest);
      if rest.Ok? {
        assert entries + ([parsed.value] + rest.value) == (entries + [parsed.value]) + rest.value;
      }
      entries := entries + [parsed.value];
      i := i + 1;
    }
    assert lines[i..] == [];
    assert entries + [] == entries;
    return Ok(entries);
  }

  function EndsWith(s: string, suffix: string): bool
  {
    |suffix| <= |s| && s[|s| - |suffix|..] == suffix
  }

  function Reverse<T>(s: seq<T>): (r: seq<T>)
    ensures |r| == |s|
    ensures forall k :: 0 <= k < |s| ==> r[k] == s[|s| - 1 - k]
  {
    if s == [] then [] else Reverse(s[1..]) + [s[0]]
  }

  // ---------------------------------------------------------------------------
  // Decimal integers: str(n) and int(s)
  // ---------------------------------------------------------------------------

  predicate IsDigit(ch: char)
  {
    '0' <= ch <= '9'
  }

  function DigitChar(d: nat): (ch: char)
    requires d < 10
    ensures IsDigit(ch)
  {
    ['0', '1', '2', '3', '4', '5', '6', '7', '8', '9'][d]
  }

  function DigitValue(ch: char): (d: nat)
    requires IsDigit(ch)
    ensures d < 10
  {
    (ch as int - '0' as int) as nat
  }

  /** Decimal digits of a natural number, without leading zeros. */
  function NatToString(n: nat): (s: string)
    ensures |s| >= 1
    ensures forall k :: 0 <= k < |s| ==> IsDigit(s[k])
    ensures DigitsValue(s) == n
  {
    if n < 10 then [DigitChar(n)] else NatToString(n / 10) + [DigitChar(n % 10)]
  }

  /** Python's `str(n)`. */
  function IntToString(n: int): (s: string)
  {
    if n < 0 then "-" + NatToString(-n) else NatToString(n)
  }

  function DigitsValue(s: string): nat
    requires forall k :: 0 <= k < |s| ==> IsDigit(s[k])
  {
    if s == [] then 0 else 10 * DigitsValue(s[..|s| - 1]) + DigitValue(s[|s| - 1])
  }

  function ParseNat(s: string): Option<nat>
  {
    if |s| > 0 && forall k :: 0 <= k < |s| ==> IsDigit(s[k]) then Some(DigitsValue(s)) else None
  }

  /**
   * Python's `int(s)` on an optional sign followed by ASCII digits; anything
   * else is a ValueError, represented by None.
   */
  function ParseInt(s: string): (r: Option<int>)
    ensures r.Some? ==> |s| > 0
  {
    if |s| > 0 && s[0] == '-' then
      match ParseNat(s[1..]) case Some(n) => Some(0 - n as int) case None => None
    else if |s| > 0 && s[0] == '+' then
      match ParseNat(s[1..]) case Some(n) => Some(n) case None => None
    else
      match ParseNat(s) case Some(n) => Some(n) case None => None
  }

  /** `int(str(n)) == n` */
  lemma ParseIntToString(n: int)
    ensures ParseInt(IntToString(n)) == Some(n)
  {
    if n < 0 {
      var d := NatToString(-n);
      assert ("-" + d)[1..] == d;
    } else {
      var d := NatToString(n);
      assert d[0] != '-' && d[0] != '+' by { assert IsDigit(d[0]); }
    }
  }

  /** `str(n)` never contains a separator the index formats use. */
  lemma IntToStringFreeOf(n: int, c: char)
    requires !IsDigit(c) && c != '-'
    ensures c !in IntToString(n)
  {
    var d := NatToString(if n < 0 then -n else n);
    assert forall k :: 0 <= k < |d| ==> d[k] != c;
  }
}
