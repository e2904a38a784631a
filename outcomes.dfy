/** Option and Result values shared by every module of the model.
    `Result` stands for Rust's `Result<T, anyhow::Error>`; the error is kept as its message. */
module Outcomes {

  datatype Option<T> = None | Some(value: T)

  datatype Result<T> = Ok(value: T) | Err(msg: string) {
    predicate IsFailure() { Err? }

    function PropagateFailure<U>(): Result<U>
      requires Err?
    {
      Err(msg)
    }

    function Extract(): T
      requires Ok?
    {
      value
    }
  }

  /** `collect::<Result<Vec<_>, _>>()` of `f` over `xs`: every value, or the first error. */
  function CollectAll<S, T>(xs: seq<S>, f: S -> Result<T>): (r: Result<seq<T>>)
    ensures r.Ok? <==> forall i :: 0 <= i < |xs| ==> f(xs[i]).Ok?
    ensures r.Ok? ==> |r.value| == |xs| && forall i :: 0 <= i < |xs| ==> f(xs[i]) == Ok(r.value[i])
    ensures r.Err? ==> exists i :: 0 <= i < |xs| && f(xs[i]) == Err(r.msg) && forall k :: 0 <= k < i ==> f(xs[k]).Ok?
  {
    if xs == [] then Ok([])
    else
      var v :- f(xs[0]);
      var rest :- CollectAll(xs[1..], f);
      assert forall i :: 1 <= i < |xs| ==> xs[i] == xs[1..][i - 1];
      Ok([v] + rest)
  }

  /** Collecting one more element: its value is appended, or the first error stays. */
  lemma {:induction false} CollectAllSnoc<S, T>(xs: seq<S>, x: S, f: S -> Result<T>)
    ensures CollectAll(xs + [x], f) ==
      if CollectAll(xs, f).Err? then CollectAll(xs, f)
      else if f(x).Err? then Err(f(x).msg)
      else Ok(CollectAll(xs, f).value + [f(x).value])
  {
    if xs == [] {
      assert xs + [x] == [x] && [x][1..] == [];
      assert CollectAll(xs, f) == Ok([]);
      if f(x).Ok? {
        assert [f(x).value] + [] == [] + [f(x).value];
      }
    } else {
      assert (xs + [x])[0] == xs[0] && (xs + [x])[1..] == xs[1..] + [x];
      CollectAllSnoc(xs[1..], x, f);
      if f(xs[0]).Ok? && CollectAll(xs[1..], f).Ok? && f(x).Ok? {
        var v, rest := f(xs[0]).value, CollectAll(xs[1..], f).value;
        assert [v] + (rest + [f(x).value]) == ([v] + rest) + [f(x).value];
      }
    }
  }

  /** Once a prefix fails, collecting more elements keeps its error. */
  lemma {:induction false} CollectAllSticks<S, T>(xs: seq<S>, ys: seq<S>, f: S -> Result<T>)
    requires CollectAll(xs, f).Err?
    ensures CollectAll(xs + ys, f) == CollectAll(xs, f)
  {
    assert xs != [];
    assert (xs + ys)[0] == xs[0] && (xs + ys)[1..] == xs[1..] + ys;
    if f(xs[0]).Ok? {
      CollectAllSticks(xs[1..], ys, f);
    }
  }

  /** `CollectAllSnoc` for a prefix that grows by one element. */
  lemma CollectAllNext<S, T>(xs: seq<S>, i: nat, f: S -> Result<T>)
    requires i < |xs|
    ensures CollectAll(xs[..i + 1], f) ==
      if CollectAll(xs[..i], f).Err? then CollectAll(xs[..i], f)
      else if f(xs[i]).Err? then Err(f(xs[i]).msg)
      else Ok(CollectAll(xs[..i], f).value + [f(xs[i]).value])
  {
    assert xs[..i] + [xs[i]] == xs[..i + 1];
    CollectAllSnoc(xs[..i], xs[i], f);
  }

  /** A failing prefix is the outcome of collecting the whole. */
  lemma CollectAllPrefixFails<S, T>(xs: seq<S>, i: nat, f: S -> Result<T>)
    requires i <= |xs| && CollectAll(xs[..i], f).Err?
    ensures CollectAll(xs, f) == CollectAll(xs[..i], f)
  {
    assert xs[..i] + xs[i..] == xs;
    CollectAllSticks(xs[..i], xs[i..], f);
  }

  /** The first element that fails after a prefix that does not is the outcome of the whole. */
  lemma CollectAllFailsAt<S, T>(xs: seq<S>, i: nat, f: S -> Result<T>)
    requires i < |xs| && CollectAll(xs[..i], f).Ok? && f(xs[i]).Err?
    ensures CollectAll(xs, f) == Err(f(xs[i]).msg)
  {
    CollectAllNext(xs, i, f);
    CollectAllPrefixFails(xs, i + 1, f);
  }

  /** The start of every panic message. */
  const PANIC: string := "panic: "

  /** A message that stands for a panic rather than for an error value. */
  predicate IsPanic(msg: string) {
    |msg| >= |PANIC| && msg[..|PANIC|] == PANIC
  }

  /** The panic message of `Option::unwrap` on `None`. */
  const UNWRAP_NONE: string := PANIC + "called `Option::unwrap()` on a `None` value"

  /** The panic message of `Result::unwrap` on `Err`. */
  const UNWRAP_ERR: string := PANIC + "called `Result::unwrap()` on an `Err` value"

  /** The panic message of `unreachable!()`. */
  const UNREACHABLE: string := PANIC + "internal error: entered unreachable code"

  /** The panic messages above are panics. */
  lemma UnwrapPanics()
    ensures IsPanic(UNWRAP_NONE) && IsPanic(UNWRAP_ERR) && IsPanic(UNREACHABLE)
  {
  }

  /** The value of a Rust `as u128` cast from a signed integer: two's complement wrap-around. */
  const U128_LIMIT: int := 0x1_0000_0000_0000_0000_0000_0000_0000_0000

  function AsU128(i: int): (r: nat)
    ensures r < U128_LIMIT
    ensures 0 <= i < U128_LIMIT ==> r == i
    ensures -U128_LIMIT <= i < 0 ==> r == U128_LIMIT + i
  {
    i % U128_LIMIT
  }
}
