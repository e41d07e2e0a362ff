/** Small value types and list helpers shared by every part of the model. */
module Basics {

  datatype Option<+T> = None | Some(value: T)

  /** A sample value. The source treats readings as Python floats and only
      passes them through; the model keeps them as exact numbers. */
  type Value = real

  /** How a `subprocess.run` of `rrdtool` ended: an exit status, or
      FileNotFoundError because the program is not installed. */
  datatype RunResult = Exit(code: int) | NotFound

  /** `itertools.zip_longest(a, b, fillvalue=fill)`. */
  function ZipLongest<T>(a: seq<T>, b: seq<T>, fill: T): (r: seq<(T, T)>)
    ensures |r| == if |a| >= |b| then |a| else |b|
    ensures forall i :: 0 <= i < |r| ==>
      r[i] == (if i < |a| then a[i] else fill, if i < |b| then b[i] else fill)
    decreases |a| + |b|
  {
    if a == [] && b == [] then []
    else
      var rest := ZipLongest(if a != [] then a[1..] else [], if b != [] then b[1..] else [], fill);
      var r := [(if a != [] then a[0] else fill, if b != [] then b[0] else fill)] + rest;
      assert forall i :: 1 <= i < |r| ==> r[i] == rest[i - 1];
      r
  }

  /** Regrouping a concatenation; called where the parts are large terms
      the solver would otherwise compare element by element. */
  lemma AppendAssoc<T>(a: seq<T>, b: seq<T>, c: seq<T>)
    ensures (a + b) + c == a + (b + c)
  {
  }
}
