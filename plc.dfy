/** The controller as the logger sees it: named tags whose read answers with a
    status and a value, and the `.DATA` byte buffers of string tags, which are
    read by element count. One `Controller` value is a snapshot of the tags at
    one instant; the session is given a fresh snapshot per loop iteration. */
module Plc {

  datatype Option<T> = None | Some(value: T)

  /** The outcome of a step that may raise: the script turns every exception
      into the same "error encountered" exit, so no error payload is kept. */
  datatype Result<T> = Success(value: T) | Failure

  /** A tag or cell value: Python's int, float (finite) and bool, kept apart
      because the CSV file spells them differently (`1`, `1.0`, `True`), and
      text; a `str`/`bytes` read value marks a string tag. */
  datatype Value = Int(i: int) | Float(x: real) | Bool(b: bool) | Text(s: string)
  {
    predicate IsNumber()
    {
      !Text?
    }

    /** The number a numeric value stands for (`True` is 1). */
    function Magnitude(): real
      requires IsNumber()
    {
      match this
      case Int(i) => i as real
      case Float(x) => x
      case Bool(b) => if b then 1.0 else 0.0
    }
  }

  /** Python's `==` on values: numbers compare by magnitude across int, float
      and bool (1 == 1.0 == True); strings by content; a number never equals
      a string. */
  predicate Same(a: Value, b: Value)
  {
    if a.IsNumber() && b.IsNumber() then a.Magnitude() == b.Magnitude()
    else a.Text? && b.Text? && a.s == b.s
  }

  /** `==` is an equivalence on values, which the change trigger relies on. */
  lemma SameIsEquivalence(a: Value, b: Value, c: Value)
    ensures Same(a, a)
    ensures Same(a, b) ==> Same(b, a)
    ensures Same(a, b) && Same(b, c) ==> Same(a, c)
    ensures Same(Int(1), Float(1.0)) && Same(Float(1.0), Bool(true)) && !Same(Int(1), Text("1"))
  {
  }

  /** One CSV record: a header row or a data row. */
  type Row = seq<Value>

  /** The answer to one read: status 'Success' with its value, or any other
      status (a failed read carries no usable value). */
  datatype Reply = Ok(value: Value) | Err

  /** A snapshot of the controller. A tag missing from `tags` answers with an
      error status; `arrays` holds the element buffers that count reads use. */
  datatype Controller = Controller(tags: map<string, Reply>, arrays: map<string, seq<int>>)

  /** `comm.Read(name)` */
  function Read(c: Controller, name: string): Reply
  {
    if name in c.tags then c.tags[name] else Err
  }

  /** `comm.Read(name, count).Value`: the first `count` elements of the
      buffer starting at `name`, or nothing (`None`) when the read fails. */
  function ReadArray(c: Controller, name: string, count: nat): (r: Option<seq<int>>)
    ensures r.Some? ==> |r.value| == count
  {
    if name in c.arrays && count <= |c.arrays[name]| then Some(c.arrays[name][..count]) else None
  }
}
