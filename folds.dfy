/**
 * The two accumulation loops of verify_history.py, stated once over any
 * per-item step that may raise: adding up counts (`matches += ...` over the
 * kept clusters) and collecting reports (`mismatches.append(...)` over the
 * domains). Both stop at the first item whose step raises, with its error.
 * Both are defined on prefixes, so a loop over `xs` keeps the value of
 * `xs[..i]` as its invariant.
 */
module Folds {
  import opened Common

  // ---------------------------------------------------------------------------
  // Summing
  // ---------------------------------------------------------------------------

  /** A running total followed by one more step. */
  function AddStep(total: Result<nat, PyError>, step: Result<nat, PyError>): Result<nat, PyError>
  {
    match total
    case Err(e) => Err(e)
    case Ok(m) =>
      match step
      case Err(e) => Err(e)
      case Ok(n) => Ok(m + n)
  }

  /** The total of `f` over `xs`, in order, or the error of the first step that raises. */
  function SumAll<T>(xs: seq<T>, f: T -> Result<nat, PyError>): Result<nat, PyError>
  {
    if xs == [] then Ok(0)
    else AddStep(SumAll(xs[..|xs| - 1], f), f(xs[|xs| - 1]))
  }

  /** One more item: its count is added, or its error ends the sum. */
  lemma SumAllStep<T>(xs: seq<T>, i: nat, f: T -> Result<nat, PyError>)
    requires i < |xs|
    ensures SumAll(xs[..i + 1], f) == AddStep(SumAll(xs[..i], f), f(xs[i]))
  {
    assert xs[..i + 1][..i] == xs[..i];
  }

  /** One more item whose step succeeds adds its count to a total that has not raised. */
  lemma SumAllNext<T>(xs: seq<T>, i: nat, f: T -> Result<nat, PyError>, total: nat, n: nat)
    requires i < |xs| && SumAll(xs[..i], f) == Ok(total) && f(xs[i]) == Ok(n)
    ensures SumAll(xs[..i + 1], f) == Ok(total + n)
  {
    SumAllStep(xs, i, f);
  }

  /** Once the sum has raised, later items do not change it. */
  lemma {:induction false} SumAllErrStays<T>(xs: seq<T>, n: nat, m: nat, f: T -> Result<nat, PyError>)
    requires n <= m <= |xs|
    requires SumAll(xs[..n], f).Err?
    ensures SumAll(xs[..m], f) == SumAll(xs[..n], f)
    decreases m
  {
    if m > n {
      SumAllErrStays(xs, n, m - 1, f);
      SumAllStep(xs, m - 1, f);
    }
  }

  /** The step of item `i` raises after every earlier step succeeded: the whole sum raises its error. */
  lemma SumAllFails<T>(xs: seq<T>, i: nat, f: T -> Result<nat, PyError>)
    requires i < |xs|
    requires SumAll(xs[..i], f).Ok? && f(xs[i]).Err?
    ensures SumAll(xs, f) == Err(f(xs[i]).error)
  {
    SumAllStep(xs, i, f);
    SumAllErrStays(xs, i + 1, |xs|, f);
    assert xs[..|xs|] == xs;
  }

  /**
   * The sum succeeds exactly when every step does, and is then at least
   * every single count; otherwise its error is that of the first step that raises.
   */
  lemma {:induction false} SumAllSpec<T>(xs: seq<T>, f: T -> Result<nat, PyError>)
    ensures var r := SumAll(xs, f);
      && (r.Ok? <==> forall i :: 0 <= i < |xs| ==> f(xs[i]).Ok?)
      && (r.Ok? ==> forall i :: 0 <= i < |xs| ==> f(xs[i]).value <= r.value)
      && (r.Err? ==> exists i :: 0 <= i < |xs| && f(xs[i]) == Err(r.error)
                                 && (forall j :: 0 <= j < i ==> f(xs[j]).Ok?))
  {
    if xs != [] {
      var init := xs[..|xs| - 1];
      SumAllSpec(init, f);
      assert forall i :: 0 <= i < |init| ==> init[i] == xs[i];
      var r := SumAll(xs, f);
      if r.Err? && SumAll(init, f).Err? {
        var i :| 0 <= i < |init| && f(init[i]) == Err(r.error)
                 && (forall j :: 0 <= j < i ==> f(init[j]).Ok?);
        assert f(xs[i]) == Err(r.error);
      }
    }
  }

  // ---------------------------------------------------------------------------
  // Collecting
  // ---------------------------------------------------------------------------

  /** A list so far followed by one more step, which may add an item. */
  function AppendStep<U>(done: Result<seq<U>, PyError>, step: Result<Option<U>, PyError>): Result<seq<U>, PyError>
  {
    match done
    case Err(e) => Err(e)
    case Ok(us) =>
      match step
      case Err(e) => Err(e)
      case Ok(None) => Ok(us)
      case Ok(Some(u)) => Ok(us + [u])
  }

  /** The items `g` reports over `xs`, in order, or the error of the first step that raises. */
  function CollectAll<T, U>(xs: seq<T>, g: T -> Result<Option<U>, PyError>): Result<seq<U>, PyError>
  {
    if xs == [] then Ok([])
    else AppendStep(CollectAll(xs[..|xs| - 1], g), g(xs[|xs| - 1]))
  }

  lemma CollectAllStep<T, U>(xs: seq<T>, i: nat, g: T -> Result<Option<U>, PyError>)
    requires i < |xs|
    ensures CollectAll(xs[..i + 1], g) == AppendStep(CollectAll(xs[..i], g), g(xs[i]))
  {
    assert xs[..i + 1][..i] == xs[..i];
  }

  /** One more item whose step succeeds adds what it reports, if anything. */
  lemma CollectAllNext<T, U>(xs: seq<T>, i: nat, g: T -> Result<Option<U>, PyError>, done: seq<U>, step: Option<U>)
    requires i < |xs| && CollectAll(xs[..i], g) == Ok(done) && g(xs[i]) == Ok(step)
    ensures CollectAll(xs[..i + 1], g) == Ok(if step.Some? then done + [step.value] else done)
  {
    CollectAllStep(xs, i, g);
  }

  lemma {:induction false} CollectAllErrStays<T, U>(xs: seq<T>, n: nat, m: nat, g: T -> Result<Option<U>, PyError>)
    requires n <= m <= |xs|
    requires CollectAll(xs[..n], g).Err?
    ensures CollectAll(xs[..m], g) == CollectAll(xs[..n], g)
    decreases m
  {
    if m > n {
      CollectAllErrStays(xs, n, m - 1, g);
      CollectAllStep(xs, m - 1, g);
    }
  }

  lemma CollectAllFails<T, U>(xs: seq<T>, i: nat, g: T -> Result<Option<U>, PyError>)
    requires i < |xs|
    requires CollectAll(xs[..i], g).Ok? && g(xs[i]).Err?
    ensures CollectAll(xs, g) == Err(g(xs[i]).error)
  {
    CollectAllStep(xs, i, g);
    CollectAllErrStays(xs, i + 1, |xs|, g);
    assert xs[..|xs|] == xs;
  }

  /** Collecting succeeds exactly when every step does. */
  lemma {:induction false} CollectAllOk<T, U>(xs: seq<T>, g: T -> Result<Option<U>, PyError>)
    ensures CollectAll(xs, g).Ok? <==> forall i :: 0 <= i < |xs| ==> g(xs[i]).Ok?
  {
    if xs != [] {
      var init := xs[..|xs| - 1];
      CollectAllOk(init, g);
      assert forall i :: 0 <= i < |init| ==> init[i] == xs[i];
    }
  }

  /** There are at most as many items as inputs, and each is what the step of some input reported. */
  lemma {:induction false} CollectAllFrom<T, U>(xs: seq<T>, g: T -> Result<Option<U>, PyError>)
    ensures var r := CollectAll(xs, g);
      r.Ok? ==> |r.value| <= |xs| && forall k :: 0 <= k < |r.value| ==> exists i :: 0 <= i < |xs| && g(xs[i]) == Ok(Some(r.value[k]))
  {
    if xs != [] {
      var init := xs[..|xs| - 1];
      CollectAllFrom(init, g);
      assert forall i :: 0 <= i < |init| ==> init[i] == xs[i];
    }
  }

  /** When every step reports an item, there is one item per input, in input order. */
  lemma {:induction false} CollectAllEvery<T, U>(xs: seq<T>, g: T -> Result<Option<U>, PyError>)
    requires forall i :: 0 <= i < |xs| ==> g(xs[i]).Ok? && g(xs[i]).value.Some?
    ensures var r := CollectAll(xs, g);
      r.Ok? && |r.value| == |xs| && forall i :: 0 <= i < |xs| ==> r.value[i] == g(xs[i]).value.value
  {
    if xs != [] {
      var init := xs[..|xs| - 1];
      assert forall i :: 0 <= i < |init| ==> init[i] == xs[i];
      CollectAllEvery(init, g);
    }
  }

  // ---------------------------------------------------------------------------
  // Concatenating over a list, stopping at the first error
  // ---------------------------------------------------------------------------

  /** The lists `g` gives over `xs`, one after another, or the error of the first step that raises. */
  function ConcatAll<T, U>(xs: seq<T>, g: T -> Result<seq<U>, PyError>): Result<seq<U>, PyError>
  {
    if xs == [] then Ok([])
    else
      match ConcatAll(xs[..|xs| - 1], g)
      case Err(e) => Err(e)
      case Ok(us) =>
        match g(xs[|xs| - 1])
        case Err(e) => Err(e)
        case Ok(more) => Ok(us + more)
  }

  /** One more item whose step succeeds appends its list. */
  lemma ConcatAllNext<T, U>(xs: seq<T>, i: nat, g: T -> Result<seq<U>, PyError>, done: seq<U>, more: seq<U>)
    requires i < |xs| && ConcatAll(xs[..i], g) == Ok(done) && g(xs[i]) == Ok(more)
    ensures ConcatAll(xs[..i + 1], g) == Ok(done + more)
  {
    assert xs[..i + 1][..i] == xs[..i];
  }

  lemma {:induction false} ConcatAllErrStays<T, U>(xs: seq<T>, n: nat, m: nat, g: T -> Result<seq<U>, PyError>)
    requires n <= m <= |xs|
    requires ConcatAll(xs[..n], g).Err?
    ensures ConcatAll(xs[..m], g) == ConcatAll(xs[..n], g)
    decreases m
  {
    if m > n {
      ConcatAllErrStays(xs, n, m - 1, g);
      assert xs[..m][..m - 1] == xs[..m - 1];
    }
  }

  /** The first item whose step raises ends the whole run with its error. */
  lemma ConcatAllFails<T, U>(xs: seq<T>, i: nat, g: T -> Result<seq<U>, PyError>)
    requires i < |xs|
    requires ConcatAll(xs[..i], g).Ok? && g(xs[i]).Err?
    ensures ConcatAll(xs, g) == Err(g(xs[i]).error)
  {
    assert xs[..i + 1][..i] == xs[..i];
    ConcatAllErrStays(xs, i + 1, |xs|, g);
    assert xs[..|xs|] == xs;
  }

  /** Concatenating succeeds exactly when every step does. */
  lemma {:induction false} ConcatAllOk<T, U>(xs: seq<T>, g: T -> Result<seq<U>, PyError>)
    ensures ConcatAll(xs, g).Ok? <==> forall i :: 0 <= i < |xs| ==> g(xs[i]).Ok?
  {
    if xs != [] {
      var init := xs[..|xs| - 1];
      ConcatAllOk(init, g);
      assert forall i :: 0 <= i < |init| ==> init[i] == xs[i];
    }
  }

  /**
   * A successful run holds what every step gave, in order: the list of the
   * `i`-th item follows those of the items before it.
   */
  lemma {:induction false} ConcatAllHolds<T, U>(xs: seq<T>, g: T -> Result<seq<U>, PyError>, i: nat)
    requires i < |xs| && ConcatAll(xs, g).Ok?
    ensures ConcatAll(xs[..i], g).Ok? && g(xs[i]).Ok?
    ensures ConcatAll(xs[..i], g).value + g(xs[i]).value <= ConcatAll(xs, g).value
  {
    var n := |xs| - 1;
    var init := xs[..n];
    if i < n {
      assert init[i] == xs[i] && init[..i] == xs[..i];
      ConcatAllHolds(init, g, i);
    } else {
      assert xs[..i] == init;
    }
  }
}
