/** The list-based numpy stand-in (src/numpy/__init__.py): `array`, `ones`, `zeros`
    and `full`, which build plain Python lists. */
module Numpy {

  /** The `shape` argument: an `int` length or a `(rows, cols)` pair. */
  datatype Shape = Len(n: int) | Dims(rows: int, cols: int)

  /** A flat list (for an `int` shape) or a list of rows (for a pair). */
  datatype NdList<T> = Flat(items: seq<T>) | Grid(rows: seq<seq<T>>)

  /** `range(k)` has `max(k, 0)` elements. */
  function Count(k: int): nat {
    if k < 0 then 0 else k
  }

  /** Every entry of `r` is `value` and `r` has the extent `shape` asks for. */
  predicate Filled<T(==)>(r: NdList<T>, shape: Shape, value: T) {
    match shape
    case Len(n) =>
      r.Flat? && |r.items| == Count(n) && forall i :: 0 <= i < |r.items| ==> r.items[i] == value
    case Dims(rows, cols) =>
      r.Grid? && |r.rows| == Count(rows) &&
      forall i :: 0 <= i < |r.rows| ==>
        |r.rows[i]| == Count(cols) && forall j :: 0 <= j < |r.rows[i]| ==> r.rows[i][j] == value
  }

  /** `full(shape, value)`. */
  function Full<T(==)>(shape: Shape, value: T): (r: NdList<T>)
    ensures Filled(r, shape, value)
  {
    match shape
    case Len(n) => Flat(seq(Count(n), _ => value))
    case Dims(rows, cols) => Grid(seq(Count(rows), _ => seq(Count(cols), _ => value)))
  }

  /** `zeros(shape)`. */
  function Zeros(shape: Shape): (r: NdList<real>)
    ensures Filled(r, shape, 0.0)
  {
    match shape
    case Len(n) => Flat(seq(Count(n), _ => 0.0))
    case Dims(rows, cols) => Grid(seq(Count(rows), _ => seq(Count(cols), _ => 0.0)))
  }

  /** `ones(shape)`. */
  function Ones(shape: Shape): (r: NdList<real>)
    ensures Filled(r, shape, 1.0)
  {
    match shape
    case Len(n) => Flat(seq(Count(n), _ => 1.0))
    case Dims(rows, cols) => Grid(seq(Count(rows), _ => seq(Count(cols), _ => 1.0)))
  }

  /** A filled list is determined by its shape and value. */
  lemma FilledUnique<T>(a: NdList<T>, b: NdList<T>, shape: Shape, value: T)
    requires Filled(a, shape, value) && Filled(b, shape, value)
    ensures a == b
  {
    match shape
    case Len(n) =>
      assert a.items == b.items;
    case Dims(rows, cols) =>
      forall i | 0 <= i < |a.rows|
        ensures a.rows[i] == b.rows[i]
      {
      }
      assert a.rows == b.rows;
  }

  lemma ZerosIsFull(shape: Shape)
    ensures Zeros(shape) == Full(shape, 0.0)
  {
    FilledUnique(Zeros(shape), Full(shape, 0.0), shape, 0.0);
  }

  lemma OnesIsFull(shape: Shape)
    ensures Ones(shape) == Full(shape, 1.0)
  {
    FilledUnique(Ones(shape), Full(shape, 1.0), shape, 1.0);
  }

  /** The argument of `array`: a Python list, or another iterable with the given
      elements in iteration order. */
  datatype Iterable<T> = PyList(items: seq<T>) | OtherIterable(elements: seq<T>)

  /** The elements an iterable produces. */
  function Elements<T>(obj: Iterable<T>): seq<T> {
    match obj
    case PyList(xs) => xs
    case OtherIterable(xs) => xs
  }

  /** `array(obj)`: a list is returned as it is, anything else as the list of its
      elements. */
  function Array<T>(obj: Iterable<T>): (r: seq<T>)
    ensures obj.PyList? ==> r == obj.items
    ensures |r| == |Elements(obj)| && forall i :: 0 <= i < |r| ==> r[i] == Elements(obj)[i]
  {
    if obj.PyList? then obj.items else obj.elements
  }

  /** Converting the result again changes nothing. */
  lemma ArrayIdempotent<T>(obj: Iterable<T>)
    ensures Array(PyList(Array(obj))) == Array(obj)
  {
  }
}
