/**
 * Optional results and the `options!` macro that both decoders use to try
 * alternatives in order.
 */
module Choice {

  /** Rust's `Option`; the three members let `:-` stand for the `?` operator. */
  datatype Option<T> = None | Some(value: T)
  {
    predicate IsFailure() { None? }

    function PropagateFailure<U>(): Option<U>
      requires None?
    {
      None
    }

    function Extract(): T
      requires Some?
    {
      value
    }
  }

  /**
   * One step of `options!`: the macro expands `options!(o, rest..)` to the
   * first option when it is `Some` and to `options!(rest..)` otherwise, so
   * `options!(o1, o2, ..., on)` is `OrElse(o1, OrElse(o2, ... on))`.
   */
  function OrElse<T>(first: Option<T>, rest: Option<T>): (r: Option<T>)
    ensures r.None? <==> first.None? && rest.None?
  {
    if first.Some? then first else rest
  }

  /** Grouping does not matter, and `None` contributes nothing. */
  lemma OrElseLaws<T>(x: Option<T>, y: Option<T>, z: Option<T>)
    ensures OrElse(OrElse(x, y), z) == OrElse(x, OrElse(y, z))
    ensures OrElse(None, y) == y && OrElse(x, None) == x
  {
  }

  /**
   * `options!(o1, o2, ..., on)`: the first argument that is `Some`, or the
   * last argument when every earlier one is `None`. The macro takes at least
   * one argument.
   */
  function Options<T>(opts: seq<Option<T>>): (r: Option<T>)
    requires |opts| > 0
    ensures r in opts
    ensures r.None? <==> forall i :: 0 <= i < |opts| ==> opts[i].None?
    ensures forall i :: 0 <= i < |opts| && opts[i].Some? && (forall j :: 0 <= j < i ==> opts[j].None?) ==> r == opts[i]
  {
    if |opts| == 1 then
      opts[0]
    else
      var rest := Options(opts[1..]);
      assert forall i :: 1 <= i < |opts| ==> opts[i] == opts[1..][i - 1];
      OrElse(opts[0], rest)
  }

  /** `options!(...; unwrap)`: the payload of the first `Some`; `unwrap` panics when there is none. */
  function OptionsUnwrap<T>(opts: seq<Option<T>>): (v: T)
    requires exists i :: 0 <= i < |opts| && opts[i].Some?
    ensures forall i :: 0 <= i < |opts| && opts[i].Some? && (forall j :: 0 <= j < i ==> opts[j].None?) ==> v == opts[i].value
  {
    Options(opts).value
  }

  /** The examples of the macro's documentation and tests. */
  lemma OptionsExamples()
    ensures Options([Some(1), None]) == Some(1)
    ensures Options([None, None, Some(2), Some(3)]) == Some(2)
    ensures Options([Some(1)]) == Some(1)
    ensures Options([None, None, Some(2)]) == Some(2)
    ensures OptionsUnwrap([Some(1), None]) == 1
  {
  }
}
