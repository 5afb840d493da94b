/** Error values and the way a builder accumulates them. */
module Errors {
  import opened Wrappers

  datatype Sentinel =
    | ErrUnsupportedTimeFormat
    | ErrInvalidScheduleType
    | ErrInvalidSchedulingUnit
    | ErrInvalidInterval
    | ErrInvalidIntervalType
    | ErrInvalidIntervalUnitsSelection
    | ErrWeekdayNotSupported
    | ErrInvalidDayOfMonthEntry
    | ErrInvalidDaysOfMonthDuplicateValue
    | ErrCronParseFailure
    | ErrInvalidTenantID
    | ErrInvalidServiceID
    | ErrInvalidMessageType
    | ErrInvalidRequest
    | ErrInternalError
    | ErrNotFound

  /** A sentinel, an error of a library, or an error that wraps another one and keeps only
      the text of the error it was raised for. */
  datatype Error =
    | Plain(sentinel: Sentinel)
    | Library(text: string)
    | Wrap(context: Error, inner: Error)

  /** The errors that unwrapping goes through: `context` is text, it is not unwrapped. */
  function Chain(e: Error): seq<Error> {
    if e.Wrap? then [e] + Chain(e.inner) else [e]
  }

  /** `errors.Is`. */
  predicate Is(e: Error, target: Error) {
    target in Chain(e)
  }

  function WrapOrError(toWrap: Option<Error>, err: Error): Error {
    if toWrap.Some? && !Is(err, toWrap.value) then Wrap(err, toWrap.value) else err
  }

  /** Everything in the chain of an error in the chain is itself in the chain. */
  lemma {:induction false} ChainIsTransitive(a: Error, b: Error, c: Error)
    requires Is(a, b) && Is(b, c)
    ensures Is(a, c)
  {
    if a != b {
      ChainIsTransitive(a.inner, b, c);
    }
  }

  /** An error field never loses an error it has recorded. */
  predicate KeepsError(before: Option<Error>, after: Option<Error>) {
    before.Some? ==> after.Some? && Is(after.value, before.value)
  }

  lemma KeepsErrorTwice(a: Option<Error>, b: Option<Error>, c: Option<Error>)
    requires KeepsError(a, b) && KeepsError(b, c)
    ensures KeepsError(a, c)
  {
    if a.Some? {
      ChainIsTransitive(c.value, b.value, a.value);
    }
  }

  lemma KeepsErrorReflexive(a: Option<Error>)
    ensures KeepsError(a, a)
  {
    if a.Some? {
      assert Chain(a.value)[0] == a.value;
    }
  }

  /** Whichever branch is taken, the older error can still be found by unwrapping, and so
      can everything it wraps. */
  lemma WrapOrErrorKeepsOlder(older: Error, err: Error, c: Error)
    requires Is(older, c)
    ensures KeepsError(Some(older), Some(WrapOrError(Some(older), err)))
    ensures Is(WrapOrError(Some(older), err), c)
  {
    var r := WrapOrError(Some(older), err);
    assert r.Wrap? ==> Chain(r) == [r] + Chain(r.inner);
    assert Chain(older)[0] == older;
    ChainIsTransitive(r, older, c);
  }

  /** The error field of a builder after these errors, one after the other. */
  function FoldFrom(start: Option<Error>, errs: seq<Error>): Option<Error> {
    if errs == [] then start
    else Some(WrapOrError(FoldFrom(start, errs[..|errs| - 1]), errs[|errs| - 1]))
  }

  lemma FoldOne(start: Option<Error>, err: Error)
    ensures FoldFrom(start, [err]) == Some(WrapOrError(start, err))
  {
    assert [err][..0] == [];
  }

  /** An error recorded before is never lost, whatever errors follow. */
  lemma {:induction false} FoldKeeps(start: Option<Error>, errs: seq<Error>)
    ensures KeepsError(start, FoldFrom(start, errs))
  {
    if errs == [] {
      KeepsErrorReflexive(start);
    } else {
      var n := |errs| - 1;
      FoldKeeps(start, errs[..n]);
      if start.Some? {
        WrapOrErrorKeepsOlder(FoldFrom(start, errs[..n]).value, errs[n], start.value);
      }
    }
  }

  /** The first error recorded is never lost. */
  lemma FoldKeepsFirst(errs: seq<Error>)
    requires errs != []
    ensures FoldFrom(None, errs).Some? && Is(FoldFrom(None, errs).value, errs[0])
  {
    FoldOne(None, errs[0]);
    FoldFromFold(None, [errs[0]], errs[1..]);
    FoldKeeps(Some(errs[0]), errs[1..]);
    assert [errs[0]] + errs[1..] == errs;
  }

  lemma {:induction false} FoldFromFold(start: Option<Error>, a: seq<Error>, b: seq<Error>)
    ensures FoldFrom(start, a + b) == FoldFrom(FoldFrom(start, a), b)
  {
    if b == [] {
      assert a + b == a;
    } else {
      var n := |b| - 1;
      FoldFromFold(start, a, b[..n]);
      assert (a + b)[..|a + b| - 1] == a + b[..n];
    }
  }

  /** A later error is lost to unwrapping exactly when it gets wrapped around, unless it
      was already in the chain: only its text is kept. */
  lemma LaterErrorSurvives(older: Error, err: Error)
    ensures Is(WrapOrError(Some(older), err), err) <==>
            Is(err, older) || Is(older, err)
  {
    assert Chain(err)[0] == err;
    var w := Wrap(err, older);
    assert Chain(w) == [w] + Chain(older);
  }
}
