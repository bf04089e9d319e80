/**
 The fixed-width little-endian messages, for every list of field formats. A message
 shorter than its format decodes partially: the trailing fields that do not fit stay
 unset.
 */
module Codec {
  import opened Prelude
  import opened Integers

  /** The struct format characters B, b, H, h, I and ns. */
  datatype Format = U8 | S8 | U16 | S16 | U32 | Text(count: nat)

  type Schema = seq<Format>

  datatype Value = Number(n: int) | Octets(bytes: Bytes)

  type Message = seq<Option<Value>>

  function Width(f: Format): nat {
    match f
    case U8 => 1
    case S8 => 1
    case U16 => 2
    case S16 => 2
    case U32 => 4
    case Text(count) => count
  }

  /** `struct.calcsize` */
  function Size(schema: Schema): nat {
    if schema == [] then 0 else Size(schema[..|schema| - 1]) + Width(schema[|schema| - 1])
  }

  function Minimum(f: Format): int {
    match f case S8 => -128 case S16 => -32768 case _ => 0
  }

  function Maximum(f: Format): int {
    match f
    case U8 => 255
    case S8 => 127
    case U16 => 65535
    case S16 => 32767
    case U32 => 4294967295
    case Text(_) => 0
  }

  /** `struct.pack` accepts the value; a byte string of any length is cut or filled with zeros. */
  predicate Packs(f: Format, v: Value) {
    if f.Text? then v.Octets? else v.Number? && Minimum(f) <= v.n <= Maximum(f)
  }

  /** The format keeps the value as it is. */
  predicate Exact(f: Format, v: Value) {
    Packs(f, v) && (f.Text? ==> |v.bytes| == f.count)
  }

  function PackField(f: Format, v: Value): (r: Bytes)
    requires Packs(f, v)
    ensures |r| == Width(f)
  {
    if f.Text? then
      if |v.bytes| >= f.count then v.bytes[..f.count] else v.bytes + Zeros(f.count - |v.bytes|)
    else LittleEndian(if v.n < 0 then v.n + Maximum(f) - Minimum(f) + 1 else v.n, Width(f))
  }

  function UnpackField(f: Format, data: Bytes): (v: Value)
    requires |data| == Width(f)
    ensures Exact(f, v)
  {
    if f.Text? then Octets(data)
    else
      WidthBounds(f);
      var n := FromLittleEndian(data);
      Number(if n > Maximum(f) then n - (Maximum(f) - Minimum(f) + 1) else n)
  }

  lemma WidthBounds(f: Format)
    ensures !f.Text? ==> Power256(Width(f)) == Maximum(f) - Minimum(f) + 1
  {
    assert Power256(0) == 1 && Power256(1) == 256 && Power256(2) == 65536 && Power256(3) == 16777216;
  }

  lemma UnpackPack(f: Format, v: Value)
    requires Packs(f, v)
    ensures UnpackField(f, PackField(f, v)) == v <==> Exact(f, v)
  {
    if !f.Text? {
      WidthBounds(f);
      LittleEndianRoundTrip(if v.n < 0 then v.n + Maximum(f) - Minimum(f) + 1 else v.n, Width(f));
    }
  }

  lemma PackUnpack(f: Format, data: Bytes)
    requires |data| == Width(f)
    ensures PackField(f, UnpackField(f, data)) == data
  {
    if !f.Text? {
      WidthBounds(f);
      FromLittleEndianRoundTrip(data);
    }
  }

  // ----- whole messages

  function Pack(schema: Schema, m: Message): (r: Option<Bytes>)
    requires |m| == |schema|
    ensures r.Some? ==> |r.value| == Size(schema)
  {
    if schema == [] then Some([])
    else
      var last := |schema| - 1;
      var front := Pack(schema[..last], m[..last]);
      if front.None? || m[last].None? || !Packs(schema[last], m[last].value) then None
      else Some(front.value + PackField(schema[last], m[last].value))
  }

  function Unpack(schema: Schema, data: Bytes): (m: Message)
    requires |data| == Size(schema)
    ensures |m| == |schema|
  {
    if schema == [] then []
    else
      var last := |schema| - 1;
      var cut := Size(schema[..last]);
      Unpack(schema[..last], data[..cut]) + [Some(UnpackField(schema[last], data[cut..]))]
  }

  lemma {:induction false} SizeMonotone(schema: Schema, i: nat, j: nat)
    requires i <= j <= |schema|
    ensures Size(schema[..i]) <= Size(schema[..j])
  {
    if i < j {
      SizeMonotone(schema, i, j - 1);
      assert schema[..j][..j - 1] == schema[..j - 1];
    }
  }

  /** The number of fields that fit: no longer prefix of the fields does. */
  function Fitting(schema: Schema, length: nat): (count: nat)
    ensures count <= |schema| && Size(schema[..count]) <= length
    ensures forall k :: count < k <= |schema| ==> Size(schema[..k]) > length
  {
    assert schema[..|schema|] == schema;
    if Size(schema) <= length then |schema|
    else
      var front := schema[..|schema| - 1];
      var count := Fitting(front, length);
      assert forall k :: 0 <= k <= |front| ==> front[..k] == schema[..k];
      count
  }

  /** `_fields_fitting` */
  method FieldsFitting(schema: Schema, length: nat) returns (count: nat)
    ensures count == Fitting(schema, length)
  {
    count := |schema|;
    while count > 0 && Size(schema[..count]) > length
      invariant count <= |schema|
      invariant forall k :: count < k <= |schema| ==> Size(schema[..k]) > length
      decreases count
    {
      count := count - 1;
    }
  }

  /** `from_bytes` */
  function Decode(schema: Schema, data: Bytes): (m: Message)
    ensures |m| == |schema|
  {
    var count := Fitting(schema, |data|);
    Unpack(schema[..count], data[..Size(schema[..count])]) + seq(|schema| - count, _ => None)
  }

  /** `to_bytes`; `None` is a `struct.error`. */
  function Encode(schema: Schema, m: Message): (r: Option<Bytes>)
    requires |m| == |schema|
    ensures r.Some? ==> |r.value| == Size(schema)
  {
    Pack(schema, m)
  }

  // ----- what decoding and encoding mean for each other

  ghost predicate AllExact(schema: Schema, m: Message)
    requires |m| == |schema|
  {
    forall i :: 0 <= i < |m| ==> m[i].Some? && Exact(schema[i], m[i].value)
  }

  /** Encoding fails exactly if a field is unset or its value does not fit its format. */
  lemma {:induction false} EncodesIff(schema: Schema, m: Message)
    requires |m| == |schema|
    ensures Encode(schema, m).Some? <==> forall i :: 0 <= i < |m| ==> m[i].Some? && Packs(schema[i], m[i].value)
  {
    if schema == [] {
    } else {
      hide Packs, PackField;
      EncodesIff(schema[..|schema| - 1], m[..|schema| - 1]);
    }
  }

  /** One more field at the end of a message. */
  lemma UnpackSnoc(schema: Schema, f: Format, front: Bytes, field: Bytes)
    requires |front| == Size(schema) && |field| == Width(f)
    ensures Size(schema + [f]) == Size(schema) + Width(f)
    ensures Unpack(schema + [f], front + field) == Unpack(schema, front) + [Some(UnpackField(f, field))]
  {
    assert (schema + [f])[..|schema|] == schema;
    assert (front + field)[..|front|] == front && (front + field)[|front|..] == field;
  }

  lemma PackSnoc(schema: Schema, f: Format, m: Message, v: Option<Value>)
    requires |m| == |schema|
    ensures Pack(schema + [f], m + [v])
            == if Pack(schema, m).None? || v.None? || !Packs(f, v.value) then None
               else Some(Pack(schema, m).value + PackField(f, v.value))
  {
    assert (schema + [f])[..|schema|] == schema && (m + [v])[..|m|] == m;
  }

  lemma AllExactSnoc(schema: Schema, f: Format, m: Message, v: Value)
    requires |m| == |schema|
    ensures AllExact(schema + [f], m + [Some(v)]) <==> AllExact(schema, m) && Exact(f, v)
  {
    hide Exact;
    var fields, values := schema + [f], m + [Some(v)];
    assert forall i :: 0 <= i < |m| ==> fields[i] == schema[i] && values[i] == m[i];
    assert fields[|m|] == f && values[|m|] == Some(v);
  }

  lemma SnocEqual(front: Message, last: Option<Value>, m: Message, v: Option<Value>)
    ensures front + [last] == m + [v] <==> front == m && last == v
  {
    if front + [last] == m + [v] {
      assert (front + [last])[|front|] == (m + [v])[|m|];
      assert (front + [last])[..|front|] == front && (m + [v])[..|m|] == m;
    }
  }

  lemma UnpackPackSnoc(schema: Schema, f: Format, m: Message, v: Value)
    requires |m| == |schema| && Pack(schema, m).Some? && Packs(f, v)
    requires Unpack(schema, Pack(schema, m).value) == m <==> AllExact(schema, m)
    ensures Pack(schema + [f], m + [Some(v)]).Some?
    ensures Unpack(schema + [f], Pack(schema + [f], m + [Some(v)]).value) == m + [Some(v)] <==>
            AllExact(schema + [f], m + [Some(v)])
  {
    hide Pack, Unpack, Size, PackField, UnpackField, Packs, Exact, AllExact;
    var front, field := Pack(schema, m).value, PackField(f, v);
    PackSnoc(schema, f, m, Some(v));
    UnpackSnoc(schema, f, front, field);
    UnpackPack(f, v);
    AllExactSnoc(schema, f, m, v);
    SnocEqual(Unpack(schema, front), Some(UnpackField(f, field)), m, Some(v));
  }

  lemma UnpackPackNone()
    ensures Pack([], []) == Some([]) && Unpack([], []) == [] && AllExact([], [])
  {
  }

  lemma {:induction false} UnpackPackAll(schema: Schema, m: Message)
    requires |m| == |schema| && Pack(schema, m).Some?
    ensures Unpack(schema, Pack(schema, m).value) == m <==> AllExact(schema, m)
  {
    hide Pack, Unpack, AllExact, Packs;
    if schema == [] {
      assert m == [];
      UnpackPackNone();
    } else {
      var last := |schema| - 1;
      var fields, values := schema[..last], m[..last];
      assert schema == fields + [schema[last]] && m == values + [m[last]];
      PackSnoc(fields, schema[last], values, m[last]);
      UnpackPackAll(fields, values);
      UnpackPackSnoc(fields, schema[last], values, m[last].value);
    }
  }

  /** Encoding and decoding gives the message back exactly if every byte string has the length of its field. */
  lemma RoundTrip(schema: Schema, m: Message)
    requires |m| == |schema| && Encode(schema, m).Some?
    ensures Decode(schema, Encode(schema, m).value) == m <==> AllExact(schema, m)
  {
    var data := Encode(schema, m).value;
    assert schema[..|schema|] == schema;
    assert Fitting(schema, |data|) == |schema|;
    assert data[..Size(schema)] == data;
    UnpackPackAll(schema, m);
    assert Decode(schema, data) == Unpack(schema, data);
  }

  lemma {:induction false} PackUnpackAll(schema: Schema, data: Bytes)
    requires |data| == Size(schema)
    ensures Pack(schema, Unpack(schema, data)) == Some(data)
  {
    if schema == [] {
    } else {
      var last := |schema| - 1;
      var cut := Size(schema[..last]);
      PackUnpackAll(schema[..last], data[..cut]);
      PackUnpack(schema[last], data[cut..]);
      assert Unpack(schema, data)[..last] == Unpack(schema[..last], data[..cut]);
      assert data[..cut] + data[cut..] == data;
    }
  }

  /** Decoding loses nothing of a complete message. */
  lemma EncodeDecode(schema: Schema, data: Bytes)
    requires |data| >= Size(schema)
    ensures Encode(schema, Decode(schema, data)) == Some(data[..Size(schema)])
  {
    assert schema[..|schema|] == schema;
    assert Fitting(schema, |data|) == |schema|;
    PackUnpackAll(schema, data[..Size(schema)]);
    assert Decode(schema, data) == Unpack(schema, data[..Size(schema)]);
  }

  lemma {:induction false} UnpackPrefix(schema: Schema, data: Bytes, k: nat)
    requires |data| == Size(schema) && k <= |schema|
    requires Size(schema[..k]) <= |data|
    ensures Unpack(schema, data)[..k] == Unpack(schema[..k], data[..Size(schema[..k])])
  {
    if k == |schema| {
      assert schema[..k] == schema && data[..Size(schema)] == data;
    } else {
      var last := |schema| - 1;
      var cut := Size(schema[..last]);
      SizeMonotone(schema, k, last);
      assert schema[..last][..k] == schema[..k];
      UnpackPrefix(schema[..last], data[..cut], k);
      assert data[..cut][..Size(schema[..k])] == data[..Size(schema[..k])];
    }
  }

  /**
   Data cut at any length: the fields that fit have the same values as from the whole
   data, and all later fields are unset.
   */
  lemma CutDecodesPrefix(schema: Schema, data: Bytes, length: nat)
    requires length <= |data|
    ensures var count := Fitting(schema, length);
            && count <= Fitting(schema, |data|)
            && Decode(schema, data[..length])[..count] == Decode(schema, data)[..count]
            && (forall i :: 0 <= i < count ==> Decode(schema, data[..length])[i].Some?)
            && (forall i :: count <= i < |schema| ==> Decode(schema, data[..length])[i].None?)
  {
    var count, whole := Fitting(schema, length), Fitting(schema, |data|);
    assert count <= whole;
    var fields, cut := schema[..whole], Size(schema[..count]);
    assert fields[..count] == schema[..count];
    SizeMonotone(schema, count, whole);
    UnpackPrefix(fields, data[..Size(fields)], count);
    assert data[..Size(fields)][..cut] == data[..cut] == data[..length][..cut];
    UnpackSets(schema[..count], data[..cut]);
  }

  lemma {:induction false} UnpackSets(schema: Schema, data: Bytes)
    requires |data| == Size(schema)
    ensures AllExact(schema, Unpack(schema, data))
  {
    if schema == [] {
    } else {
      UnpackSets(schema[..|schema| - 1], data[..Size(schema[..|schema| - 1])]);
    }
  }

  // ----- what the bytes mean

  /** The number formats of one byte: B and b. */
  lemma OneByteFields(data: Bytes)
    requires |data| == 1
    ensures UnpackField(U8, data) == Number(data[0] as int)
    ensures UnpackField(S8, data) == Number(if data[0] < 128 then data[0] as int else data[0] as int - 256)
  {
    OneByte(data);
  }

  /** The number formats of two bytes: H and h, low byte first, h in two's complement. */
  lemma TwoByteFields(data: Bytes)
    requires |data| == 2
    ensures UnpackField(U16, data) == Number(data[0] as int + 256 * data[1] as int)
    ensures UnpackField(S16, data)
            == Number(data[0] as int + 256 * data[1] as int - if data[1] < 128 then 0 else 65536)
  {
    TwoBytes(data);
  }

  /** The number format of four bytes, I, and byte strings, ns. */
  lemma LongFields(data: Bytes)
    ensures |data| == 4 ==>
              UnpackField(U32, data) == Number(data[0] as int + 256 * data[1] as int + 65536 * data[2] as int
                                               + 16777216 * data[3] as int)
    ensures UnpackField(Text(|data|), data) == Octets(data)
  {
    if |data| == 4 {
      FourBytes(data);
    }
  }

  /** What each format takes: the numbers of its range; of a byte string what fits, filled with zeros. */
  lemma FormatsTake(n: int, bytes: Bytes, count: nat, i: nat)
    ensures Packs(U8, Number(n)) <==> 0 <= n < 256
    ensures Packs(S8, Number(n)) <==> -128 <= n < 128
    ensures Packs(U16, Number(n)) <==> 0 <= n < 0x1_0000
    ensures Packs(S16, Number(n)) <==> -0x8000 <= n < 0x8000
    ensures Packs(U32, Number(n)) <==> 0 <= n < 0x1_0000_0000
    ensures Packs(Text(count), Octets(bytes)) && |PackField(Text(count), Octets(bytes))| == count
    ensures i < count ==>
              PackField(Text(count), Octets(bytes))[i] == if i < |bytes| then bytes[i] else 0
  {
  }

  lemma UnpackLast(schema: Schema, data: Bytes)
    requires schema != [] && |data| == Size(schema)
    ensures var last := |schema| - 1;
            && Size(schema) == Size(schema[..last]) + Width(schema[last])
            && Unpack(schema, data)[last] == Some(UnpackField(schema[last], data[Size(schema[..last])..]))
  {
  }

  lemma DecodePrefix(schema: Schema, data: Bytes, k: nat)
    requires k <= Fitting(schema, |data|)
    ensures Size(schema[..k]) <= |data|
    ensures Decode(schema, data)[..k] == Unpack(schema[..k], data[..Size(schema[..k])])
  {
    var count := Fitting(schema, |data|);
    var fields := schema[..count];
    var whole := data[..Size(fields)];
    assert fields[..k] == schema[..k] && fields[..count] == fields;
    SizeMonotone(fields, k, count);
    UnpackPrefix(fields, whole, k);
    assert whole[..Size(schema[..k])] == data[..Size(schema[..k])];
  }

  /** A field that fits is decoded from its own bytes, right after those of the fields before it. */
  lemma FieldAt(schema: Schema, data: Bytes, i: nat)
    requires i < Fitting(schema, |data|)
    ensures Size(schema[..i + 1]) == Size(schema[..i]) + Width(schema[i]) <= |data|
    ensures Decode(schema, data)[i]
            == Some(UnpackField(schema[i], data[Size(schema[..i])..Size(schema[..i]) + Width(schema[i])]))
  {
    var fields := schema[..i + 1];
    DecodePrefix(schema, data, i + 1);
    var part := data[..Size(fields)];
    UnpackLast(fields, part);
    hide Decode, Unpack, UnpackField, Fitting, Size;
    assert fields[..i] == schema[..i] && fields[i] == schema[i];
    assert part[Size(schema[..i])..] == data[Size(schema[..i])..Size(fields)];
    assert Decode(schema, data)[i] == Decode(schema, data)[..i + 1][i];
  }
}
