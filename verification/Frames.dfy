// The values that pass through the program: attributes, layers and frames.
module Frames {
  import opened Base

  // An attribute value. A Float64 is its 64-bit pattern, a BigInt its big-endian two's-complement bytes.
  datatype Variant =
    | Nil
    | Bool(b: bool)
    | Int64(i: int)
    | UInt64(u: nat)
    | Float64(bits: nat)
    | String(text: string)
    | BigInt(digits: Bytes)
    | Buffer(bytes: Bytes)
    | Slice(bytes: Bytes)

  // value is what try_get answers: None when it fails.
  datatype Attr = Attr(id: string, typ: string, isValue: bool, value: Option<Variant>)

  datatype Payload = Payload(data: Bytes, id: string, typ: string)

  datatype Layer = Layer(id: string, headers: seq<Attr>, attrs: seq<Attr>, payloads: seq<Payload>, data: Bytes)

  // What decoding changes in a frame: its layers and the child counts in level order.
  datatype Body = Body(layers: seq<Layer>, counts: seq<nat>)

  datatype Frame = Frame(index: nat, body: Body)
}
