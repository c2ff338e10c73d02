/** `RGBColor` of backend/gen_v/models/media.py: three integer channels, each
    constrained by its field to 0..255, and the `from_tuple` factory. */
module RgbColor {
  import opened Wrappers
  import opened PyValues

  datatype RGBColor = RGBColor(r: int, g: int, b: int)

  /** The field constraint `ge=0, le=255`. */
  predicate InChannelRange(c: int) {
    0 <= c <= 255
  }

  predicate IsValidColor(c: RGBColor) {
    InChannelRange(c.r) && InChannelRange(c.g) && InChannelRange(c.b)
  }

  /** What `from_tuple` can raise: the `TypeError` of its shape check, or the
      pydantic `ValidationError` of the constructor, naming every field that failed. */
  datatype ColorError =
    | TypeError(message: string)
    | ValidationError(fields: seq<string>)

  const ShapeMessage := "Input must be a tuple of 3 elements"

  /** One channel argument is valid when it is an int within range. */
  predicate ChannelOk(v: Value) {
    v.PyInt? && InChannelRange(v.i)
  }

  /** `RGBColor(r=..., g=..., b=...)`: pydantic checks every field and reports
      all failing ones, in field order. */
  function NewRGBColor(r: Value, g: Value, b: Value): (res: Result<RGBColor, ColorError>)
    ensures res.Success? <==> ChannelOk(r) && ChannelOk(g) && ChannelOk(b)
    ensures res.Success? ==> res.value == RGBColor(r.i, g.i, b.i) && IsValidColor(res.value)
    ensures res.Failure? ==> res.error.ValidationError?
    ensures res.Failure? ==>
      && ("r" in res.error.fields <==> !ChannelOk(r))
      && ("g" in res.error.fields <==> !ChannelOk(g))
      && ("b" in res.error.fields <==> !ChannelOk(b))
  {
    var failed := (if ChannelOk(r) then [] else ["r"]) + (if ChannelOk(g) then [] else ["g"]) + (if ChannelOk(b) then [] else ["b"]);
    if failed == [] then Success(RGBColor(r.i, g.i, b.i)) else Failure(ValidationError(failed))
  }

  /** `RGBColor.from_tuple`: a shape check, then construction from the three
      entries in order; a construction error is re-raised unchanged. */
  function FromTuple(rgbTuple: Value): Result<RGBColor, ColorError> {
    if !rgbTuple.PyTuple? || |rgbTuple.items| != 3 then
      Failure(TypeError(ShapeMessage))
    else
      NewRGBColor(rgbTuple.items[0], rgbTuple.items[1], rgbTuple.items[2])
  }

  /** The shape check comes first: anything other than a 3-tuple gives the
      `TypeError`, and a 3-tuple never does. */
  lemma FromTupleShape(v: Value)
    ensures FromTuple(v) == Failure(TypeError(ShapeMessage)) <==> !(v.PyTuple? && |v.items| == 3)
    ensures v.PyTuple? && |v.items| == 3 && FromTuple(v).Failure? ==> FromTuple(v).error.ValidationError?
  {
  }

  /** A 3-tuple is accepted exactly when its three entries are ints in 0..255,
      and then the channels are the entries in order. */
  lemma FromTupleAccepts(v: Value)
    requires v.PyTuple? && |v.items| == 3
    ensures FromTuple(v).Success? <==> forall k :: 0 <= k < 3 ==> ChannelOk(v.items[k])
    ensures FromTuple(v).Success? ==>
      FromTuple(v).value == RGBColor(v.items[0].i, v.items[1].i, v.items[2].i) && IsValidColor(FromTuple(v).value)
  {
    assert (forall k :: 0 <= k < 3 ==> ChannelOk(v.items[k])) <==> ChannelOk(v.items[0]) && ChannelOk(v.items[1]) && ChannelOk(v.items[2]) by {
      if forall k :: 0 <= k < 3 ==> ChannelOk(v.items[k]) {
        assert ChannelOk(v.items[0]) && ChannelOk(v.items[1]) && ChannelOk(v.items[2]);
      }
    }
  }

  /** Every color the factory builds keeps the field bounds; both ends of the range are allowed. */
  lemma FromTupleBounds(a: int, b: int, c: int)
    ensures FromTuple(PyTuple([PyInt(a), PyInt(b), PyInt(c)])).Success? <==>
      InChannelRange(a) && InChannelRange(b) && InChannelRange(c)
    ensures FromTuple(PyTuple([PyInt(0), PyInt(255), PyInt(0)])) == Success(RGBColor(0, 255, 0))
    ensures FromTuple(PyTuple([PyInt(a), PyInt(b), PyInt(c)])).Failure? ==>
      FromTuple(PyTuple([PyInt(a), PyInt(b), PyInt(c)])).error.ValidationError?
  {
  }
}
