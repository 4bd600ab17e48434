// Bytes, fixed-width little-endian integers and the result types shared by every module.
// A C++ std::string is a `bytes` value here, one element per char.
module Bytes {

  type uint8 = x: int | 0 <= x < 0x100
  type uint16 = x: int | 0 <= x < 0x1_0000
  type uint32 = x: int | 0 <= x < 0x1_0000_0000
  type bytes = seq<uint8>

  datatype Option<+T> = None | Some(value: T)

  // The exceptions the client throws.
  datatype Error =
    | NotANumber              // std::invalid_argument from stoi
    | OutOfRange              // std::out_of_range from stoi
    | OddRoute                // a route with a port but no link
    | ConnectionLost          // recv returned nothing, or the peer is gone
    | NotConnected
    | TooShort                // a reply shorter than its fixed part
    | NoDataItem              // no unconnected data item in a SendRRData reply
    | Overrun                 // a length field that points past the reply
    | Status(code: uint8)     // the peer answered with an error status

  datatype Result<+T> = Ok(value: T) | Err(error: Error) {
    predicate IsFailure() { Err? }
    function PropagateFailure<U>(): Result<U> requires Err? { Err(error) }
    function Extract(): T requires Ok? { value }
  }

  function Min(a: nat, b: nat): nat { if a <= b then a else b }
  function Max(a: nat, b: nat): nat { if a >= b then a else b }

  // static_cast to an unsigned type of the given width
  function ToU8(n: int): uint8 { n % 0x100 }
  function ToU16(n: int): uint16 { n % 0x1_0000 }

  // static_cast<int32_t> of a 32-bit pattern
  function AsInt32(v: uint32): (r: int) {
    if v < 0x8000_0000 then v else v - 0x1_0000_0000
  }

  function LE16(v: uint16): (b: bytes)
    ensures |b| == 2
  {
    [v % 0x100, v / 0x100]
  }

  function LE32(v: uint32): (b: bytes)
    ensures |b| == 4
  {
    LE16(v % 0x1_0000) + LE16(v / 0x1_0000)
  }

  function ReadU16(b: bytes, at: nat): (v: uint16)
    requires at + 2 <= |b|
  {
    (b[at] as int) + 0x100 * (b[at + 1] as int)
  }

  function ReadU32(b: bytes, at: nat): (v: uint32)
    requires at + 4 <= |b|
  {
    (ReadU16(b, at) as int) + 0x1_0000 * (ReadU16(b, at + 2) as int)
  }

  // The low byte comes first.
  lemma ByteOrder(a: uint8, b: uint8, c: uint8, d: uint8)
    ensures LE16(a as int + 0x100 * b as int) == [a, b] && ReadU16([a, b], 0) == a as int + 0x100 * b as int
    ensures var v := a as int + 0x100 * b as int + 0x1_0000 * c as int + 0x100_0000 * d as int;
            LE32(v) == [a, b, c, d] && ReadU32([a, b, c, d], 0) == v
  {
    var low, high := a as int + 0x100 * b as int, c as int + 0x100 * d as int;
    var v := low + 0x1_0000 * high;
    assert v % 0x1_0000 == low && v / 0x1_0000 == high;
  }

  lemma ReadU16OfLE16(b: bytes, at: nat, v: uint16)
    requires at + 2 <= |b|
    requires b[at..at + 2] == LE16(v)
    ensures ReadU16(b, at) == v
  {
  }

  lemma ReadU32OfLE32(b: bytes, at: nat, v: uint32)
    requires at + 4 <= |b|
    requires b[at..at + 4] == LE32(v)
    ensures ReadU32(b, at) == v
  {
  }

  lemma Regroup<T>(a: seq<T>, b: seq<T>, c: seq<T>)
    ensures a + b + c == a + (b + c)
  {
  }

  function Flatten<T>(chunks: seq<seq<T>>): seq<T> {
    if chunks == [] then [] else chunks[0] + Flatten(chunks[1..])
  }
}
