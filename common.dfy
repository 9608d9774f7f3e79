/** Small shared vocabulary: optional values, results, bytes and the signal texts. */
module Common {

  datatype Option<T> = None | Some(value: T)

  datatype Result<T, E> = Ok(value: T) | Err(error: E)

  /** A protobuf enum field: either a value the generated code knows, or a raw
      number it does not recognise (what `enum_value()` reports as an error). */
  datatype EnumValue<E> = Known(value: E) | Unrecognized(raw: int)

  type Byte = b: int | 0 <= b < 256

  /** Unsigned 32-bit protobuf scalar. */
  type U32 = x: int | 0 <= x < 0x1_0000_0000

  /** The ASCII texts of the horn signal protocol both signal sinks speak: the attachment
      that marks a request (`targetValue`) or a report (`currentValue`), and the two values. */
  const TargetValue: seq<Byte> := [0x74, 0x61, 0x72, 0x67, 0x65, 0x74, 0x56, 0x61, 0x6C, 0x75, 0x65]
  const CurrentValue: seq<Byte> := [0x63, 0x75, 0x72, 0x72, 0x65, 0x6E, 0x74, 0x56, 0x61, 0x6C, 0x75, 0x65]
  const TrueText: seq<Byte> := [0x74, 0x72, 0x75, 0x65]
  const FalseText: seq<Byte> := [0x66, 0x61, 0x6C, 0x73, 0x65]

  function Min(a: nat, b: nat): nat { if a <= b then a else b }

  /** Sequence facts stated once, so that proofs about long sequences can cite them. */
  lemma {:induction false} TakeOneMore<T>(s: seq<T>, i: nat)
    requires i < |s|
    ensures s[..i + 1] == s[..i] + [s[i]]
  {
  }

  lemma {:induction false} AppendAssoc<T>(a: seq<T>, b: seq<T>, c: seq<T>)
    ensures (a + b) + c == a + (b + c)
  {
  }
}
