/** The values both AMF codecs pass around: what Go keeps in an `interface{}`. */
module AmfValues {
  import opened Bytes

  /** The bits of a float64; the conversion itself is opaque. */
  type Float64 = d: Data | |d| == 8 witness [0, 0, 0, 0, 0, 0, 0, 0]

  /** `Int(bits)` is a Go `int`, known by the float64 it converts to.
      `ObjectEnd` and `Amf3` only come out of the decoder, `SwitchToAmf3` only goes into the encoder. */
  datatype Value =
    | Num(bits: Float64)
    | Int(bits: Float64)
    | Bool(b: bool)
    | Str(s: Data)
    | Obj(fields: map<Data, Value>)
    | List(items: seq<Value>)
    | Null
    | ObjectEnd
    | SwitchToAmf3
    | Amf3(tail: seq<Value>)
}
