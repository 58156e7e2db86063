/** Assembling one sample: the string-tag protocol (`ReadString`) and the
    row built tag by tag (`GetData`), stated as functions of one controller
    snapshot. */
module Sampling {
  import opened Plc
  import opened Config

  /** The arguments Python's `chr` accepts and a Dafny `char` can hold: the
      Unicode scalar values. */
  predicate IsChar(d: int)
  {
    0 <= d < 0xD800 || 0xE000 <= d < 0x11_0000
  }

  /** `''.join([chr(d) for d in data])`: one character per element, failing
      (Python raises ValueError) as soon as one element is out of range. */
  function Decode(data: seq<int>): (r: Result<string>)
    ensures r.Success? <==> forall i :: 0 <= i < |data| ==> IsChar(data[i])
    ensures r.Success? ==>
      |r.value| == |data| && (forall i :: 0 <= i < |data| ==> r.value[i] as int == data[i])
  {
    if data == [] then Success("")
    else if !IsChar(data[0]) then Failure
    else match Decode(data[1..])
      case Failure => Failure
      case Success(rest) => Success([data[0] as char] + rest)
  }

  function LenPath(tag: string): string
  {
    tag + ".LEN"
  }

  function DataPath(tag: string): string
  {
    tag + ".DATA[0]"
  }

  /** The value of the `.LEN` read when it is a number (`True` counts as 1);
      otherwise (a failed read yields `None`, or a string value) the
      comparison `> 0` raises. */
  function DeclaredLength(c: Controller, tag: string): (n: Option<real>)
    ensures n.Some? <==> Read(c, LenPath(tag)).Ok? && Read(c, LenPath(tag)).value.IsNumber()
    ensures n.Some? ==> n.value == Read(c, LenPath(tag)).value.Magnitude()
  {
    match Read(c, LenPath(tag))
    case Ok(v) => if v.IsNumber() then Some(v.Magnitude()) else None
    case Err => None
  }

  /** `ReadString`: read the declared length; when it is positive, read
      exactly `int(length)` elements of the `.DATA` buffer and decode them;
      otherwise return the empty string without touching the buffer. */
  function ReadString(c: Controller, tag: string): (r: Result<string>)
    ensures DeclaredLength(c, tag).None? ==> r.Failure?
    ensures var n := DeclaredLength(c, tag);
      n.Some? && n.value <= 0.0 ==> r == Success("")
    ensures var n := DeclaredLength(c, tag);
      n.Some? && n.value > 0.0 ==>
        var data := ReadArray(c, DataPath(tag), n.value.Floor);
        (r.Success? <==> data.Some? && forall i :: 0 <= i < |data.value| ==> IsChar(data.value[i])) &&
        (r.Success? ==>
          |r.value| == n.value.Floor &&
          (forall i :: 0 <= i < |r.value| ==> r.value[i] as int == data.value[i]))
  {
    match DeclaredLength(c, tag)
    case None => Failure
    case Some(len) =>
      if len > 0.0 then
        match ReadArray(c, DataPath(tag), len.Floor)
        case None => Failure
        case Some(data) => Decode(data)
      else Success("")
  }

  /** A declared length of zero gives the empty string whatever the buffer
      holds, three bytes `72, 73, 33` decode to "HI!", and a string-valued
      length fails. */
  lemma ReadStringExamples(buffers: map<string, seq<int>>)
    ensures ReadString(Controller(map["S.LEN" := Ok(Int(0))], buffers), "S") == Success("")
    ensures ReadString(Controller(map["S.LEN" := Ok(Int(3))], map["S.DATA[0]" := [72, 73, 33, 0]]), "S")
            == Success("HI!")
    ensures ReadString(Controller(map["S.LEN" := Ok(Text("3"))], buffers), "S") == Failure
  {
    assert LenPath("S") == "S.LEN" && DataPath("S") == "S.DATA[0]";
    assert DeclaredLength(Controller(map["S.LEN" := Ok(Int(0))], buffers), "S") == Some(0.0);
    assert DeclaredLength(Controller(map["S.LEN" := Ok(Text("3"))], buffers), "S") == None;
    var c := Controller(map["S.LEN" := Ok(Int(3))], map["S.DATA[0]" := [72, 73, 33, 0]]);
    assert DeclaredLength(c, "S") == Some(3.0);
    assert [72, 73, 33, 0][..3] == [72, 73, 33];
    var r := ReadString(c, "S");
    assert r.Success? && |r.value| == 3;
    assert r.value[0] == 'H' && r.value[1] == 'I' && r.value[2] == '!';
    assert r.value == "HI!";
  }

  /** One iteration of `GetData`'s loop: a failed status aborts; a string
      value is replaced by what `ReadString` returns; a number is kept. */
  function ReadTag(c: Controller, tag: string): (r: Result<Value>)
    ensures r.Success? <==> Read(c, tag).Ok? && (Read(c, tag).value.Text? ==> ReadString(c, tag).Success?)
    ensures r.Success? && Read(c, tag).value.IsNumber() ==> r.value == Read(c, tag).value
    ensures r.Success? && Read(c, tag).value.Text? ==> r.value == Text(ReadString(c, tag).value)
  {
    match Read(c, tag)
    case Err => Failure
    case Ok(Text(_)) =>
      (match ReadString(c, tag)
       case Failure => Failure
       case Success(s) => Success(Text(s)))
    case Ok(v) => Success(v)
  }

  /** The tag columns of one sample: the whole read fails exactly when one
      tag fails, and otherwise holds one value per tag, in tag order. */
  function ReadTags(c: Controller, tags: seq<string>): (r: Result<seq<Value>>)
    ensures r.Success? <==> forall i :: 0 <= i < |tags| ==> ReadTag(c, tags[i]).Success?
    ensures r.Success? ==>
      |r.value| == |tags| &&
      (forall i :: 0 <= i < |tags| ==> r.value[i] == ReadTag(c, tags[i]).value)
  {
    if tags == [] then Success([])
    else match ReadTags(c, tags[..|tags| - 1])
      case Failure => Failure
      case Success(vs) =>
        match ReadTag(c, tags[|tags| - 1])
        case Failure => Failure
        case Success(v) => Success(vs + [v])
  }

  /** `GetData`: the optional timestamp, then every tag's value in configured
      order; any failed tag read fails the whole row, so no partial row exists. */
  function Sample(s: Settings, c: Controller, stamp: string): (r: Result<Row>)
    ensures r.Success? <==> forall i :: 0 <= i < |s.tags| ==> ReadTag(c, s.tags[i]).Success?
    ensures r.Success? ==>
      |r.value| == Width(s) &&
      (s.printTimestamp ==> r.value[0] == Text(stamp))
  {
    match ReadTags(c, s.tags)
    case Failure => Failure
    case Success(vs) => Success((if s.printTimestamp then [Text(stamp)] else []) + vs)
  }

  /** The columns after the optional timestamp are the tags' values, in
      configured order. */
  lemma SampleColumns(s: Settings, c: Controller, stamp: string)
    requires Sample(s, c, stamp).Success?
    ensures forall i :: 0 <= i < |s.tags| ==>
      Sample(s, c, stamp).value[Lead(s) + i] == ReadTag(c, s.tags[i]).value
  {
  }
}
