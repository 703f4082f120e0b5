/**
 The binary record layout of the byte stream inspector (examples/byte_stream_inspector.py):
 the format string "3Bh2b" read the way Python's `struct` module reads it in its default
 native mode ('@'): three unsigned bytes, one signed 16-bit integer aligned to a 2-byte
 boundary, two signed bytes.

 Native byte order is taken to be little-endian (the x86 and ARM machines the script runs
 on); this is an explicit assumption of the model.
 */
module PacketLayout {

  type Byte = b: int | 0 <= b < 256

  /** The three format characters the packet uses: 'B', 'b' and 'h'. */
  datatype Code = UByte | SByte | Short

  /** One slot of a laid-out record: a pad byte inserted for alignment, or a field. */
  datatype Slot = Pad | Value(code: Code)

  /** `struct.error`: a buffer whose length is not the layout's size, or a value out of range. */
  datatype Error = StructError

  datatype Result<T> = Ok(value: T) | Err(error: Error)

  /** The script's PACKET_FORMAT. */
  const PacketFormat: string := "3Bh2b"

  /** PACKET_FORMAT with its repeat counts expanded: "3B" is three 'B', "2b" two 'b'. */
  const Layout: seq<Code> := [UByte, UByte, UByte, Short, SByte, SByte]

  /** The format character of a field kind; any other character is a bad format. */
  function CodeOf(ch: char): (r: Result<Code>)
    ensures r.Ok? <==> ch in "Bbh"
  {
    if ch == 'B' then Ok(UByte) else if ch == 'b' then Ok(SByte) else if ch == 'h' then Ok(Short) else Err(StructError)
  }

  /** The fields of a format string made of the characters 'B', 'b' and 'h', each optionally
      preceded by a one-digit repeat count. */
  function ParseFormat(fmt: string): (r: Result<seq<Code>>)
    ensures (forall i :: 0 <= i < |fmt| ==> fmt[i] in "Bbh") ==>
      && r.Ok? && |r.value| == |fmt|
      && forall i :: 0 <= i < |fmt| ==> r.value[i] == CodeOf(fmt[i]).value
  {
    if fmt == [] then Ok([])
    else if '0' <= fmt[0] <= '9' then
      if |fmt| < 2 || CodeOf(fmt[1]).Err? then Err(StructError)
      else
        var rest := ParseFormat(fmt[2..]);
        if rest.Err? then rest
        else Ok(seq(fmt[0] as int - '0' as int, _ => CodeOf(fmt[1]).value) + rest.value)
    else
      var rest := ParseFormat(fmt[1..]);
      if CodeOf(fmt[0]).Err? || rest.Err? then Err(StructError)
      else Ok([CodeOf(fmt[0]).value] + rest.value)
  }

  /** Standard size of one field in bytes. */
  function Size(c: Code): nat
  {
    match c
    case Short => 2
    case _ => 1
  }

  /** Native alignment: a field starts at the first multiple of its own size at or after `offset`. */
  function Align(offset: nat, c: Code): (r: nat)
    ensures offset <= r < offset + Size(c)
    ensures c == Short ==> r % 2 == 0
  {
    if c == Short && offset % 2 == 1 then offset + 1 else offset
  }

  /** The size of `codes` with no alignment at all, as the standard-size prefixes lay it out. */
  function StandardSize(codes: seq<Code>): nat
  {
    if codes == [] then 0 else Size(codes[0]) + StandardSize(codes[1..])
  }

  /** The slots of `codes` laid out from `offset`: each field preceded by the pad its alignment
      needs. At most one pad byte precedes a field, and the last field ends the plan: native
      mode adds no padding after it. */
  function Plan(codes: seq<Code>, offset: nat): (slots: seq<Slot>)
  {
    if codes == [] then []
    else if Align(offset, codes[0]) == offset then
      [Value(codes[0])] + Plan(codes[1..], offset + Size(codes[0]))
    else
      [Pad, Value(codes[0])] + Plan(codes[1..], Align(offset, codes[0]) + Size(codes[0]))
  }

  function Width(slots: seq<Slot>): nat
  {
    if slots == [] then 0
    else
      match slots[0]
      case Pad => 1 + Width(slots[1..])
      case Value(c) => Size(c) + Width(slots[1..])
  }

  /** The fields of a plan, in order. */
  function Fields(slots: seq<Slot>): seq<Code>
  {
    if slots == [] then []
    else
      match slots[0]
      case Pad => Fields(slots[1..])
      case Value(c) => [c] + Fields(slots[1..])
  }

  /** `struct.calcsize` in native mode: the standard size plus the pad bytes alignment inserts,
      at most one per field. */
  function CalcSize(codes: seq<Code>): (n: nat)
    ensures StandardSize(codes) <= n <= StandardSize(codes) + |codes|
  {
    PlanWidth(codes, 0);
    Width(Plan(codes, 0))
  }

  /** Each field adds its size and at most one pad byte to the plan's width. */
  lemma {:induction false} PlanWidth(codes: seq<Code>, offset: nat)
    ensures StandardSize(codes) <= Width(Plan(codes, offset)) <= StandardSize(codes) + |codes|
  {
    if codes != [] {
      var c := codes[0];
      var off := Align(offset, c);
      var rest := Plan(codes[1..], off + Size(c));
      PlanWidth(codes[1..], off + Size(c));
      if off == offset {
        assert Plan(codes, offset) == [Value(c)] + rest;
        assert ([Value(c)] + rest)[1..] == rest;
      } else {
        assert Plan(codes, offset) == [Pad, Value(c)] + rest;
        assert ([Pad, Value(c)] + rest)[1..] == [Value(c)] + rest;
        assert ([Value(c)] + rest)[1..] == rest;
      }
    }
  }

  /** At most one pad byte precedes each field, and the plan ends with the last field: native
      mode adds no padding after it. */
  lemma {:induction false} PlanShape(codes: seq<Code>, offset: nat)
    ensures |codes| <= |Plan(codes, offset)| <= 2 * |codes|
    ensures codes != [] ==> Plan(codes, offset)[|Plan(codes, offset)| - 1] == Value(codes[|codes| - 1])
  {
    if codes != [] {
      var c := codes[0];
      var off := Align(offset, c);
      var rest := Plan(codes[1..], off + Size(c));
      PlanShape(codes[1..], off + Size(c));
      var head := if off == offset then [Value(c)] else [Pad, Value(c)];
      assert Plan(codes, offset) == head + rest;
      if codes[1..] == [] {
        assert rest == [];
      } else {
        assert codes[1..][|codes[1..]| - 1] == codes[|codes| - 1];
        LastOfConcat(head, rest);
      }
    }
  }

  lemma LastOfConcat<T>(head: seq<T>, rest: seq<T>)
    requires rest != []
    ensures (head + rest)[|head + rest| - 1] == rest[|rest| - 1]
  {
  }

  /** The range of values a field of kind `c` can hold. */
  predicate InRange(c: Code, v: int)
  {
    match c
    case UByte => 0 <= v <= 255
    case SByte => -128 <= v <= 127
    case Short => -32768 <= v <= 32767
  }

  /** One value per field, each in its field's range. */
  predicate AllInRange(codes: seq<Code>, vals: seq<int>)
  {
    |vals| == |codes| && (codes == [] || (InRange(codes[0], vals[0]) && AllInRange(codes[1..], vals[1..])))
  }

  /** A byte read as a two's-complement signed byte. */
  function Signed8(b: Byte): (v: int)
    ensures InRange(SByte, v) && v % 256 == b
  {
    if b < 128 then b else b - 256
  }

  /** Two bytes, low byte first, read as a two's-complement signed 16-bit integer. */
  function Signed16(lo: Byte, hi: Byte): (v: int)
    ensures InRange(Short, v) && v % 65536 == lo + 256 * hi
  {
    var u := lo as int + 256 * (hi as int);
    if u < 32768 then u else u - 65536
  }

  /** The value of a field of kind `c` stored at the front of `bs`. */
  function Field(c: Code, bs: seq<Byte>): (v: int)
    requires Size(c) <= |bs|
    ensures InRange(c, v)
  {
    match c
    case UByte => bs[0]
    case SByte => Signed8(bs[0])
    case Short => Signed16(bs[0], bs[1])
  }

  /** The fields of `slots` read from `bs` in order; pad bytes are skipped. */
  function Decode(slots: seq<Slot>, bs: seq<Byte>): (vals: seq<int>)
    requires Width(slots) <= |bs|
    ensures |vals| == |Fields(slots)|
  {
    if slots == [] then []
    else
      match slots[0]
      case Pad => Decode(slots[1..], bs[1..])
      case Value(c) => [Field(c, bs)] + Decode(slots[1..], bs[Size(c)..])
  }

  /** `struct.unpack`: fails unless the buffer is exactly `calcsize` bytes long. */
  function Unpack(codes: seq<Code>, raw: seq<Byte>): (r: Result<seq<int>>)
    ensures r.Ok? <==> |raw| == CalcSize(codes)
  {
    if |raw| != CalcSize(codes) then Err(StructError) else Ok(Decode(Plan(codes, 0), raw))
  }

  /** The bytes that store `v` in a field of kind `c`, low byte first. */
  function FieldBytes(c: Code, v: int): (bs: seq<Byte>)
    requires InRange(c, v)
    ensures |bs| == Size(c)
  {
    match c
    case UByte => [v]
    case SByte => [v % 256]
    case Short => var u := v % 65536; [u % 256, u / 256]
  }

  /** The bytes of `slots` holding `vals`, with zero pad bytes. */
  function Encode(slots: seq<Slot>, vals: seq<int>): (bs: seq<Byte>)
    requires AllInRange(Fields(slots), vals)
    ensures |bs| == Width(slots)
  {
    if slots == [] then []
    else
      match slots[0]
      case Pad => [0] + Encode(slots[1..], vals)
      case Value(c) => FieldBytes(c, vals[0]) + Encode(slots[1..], vals[1..])
  }

  /** `struct.pack`, the encoder the record format is read against: fails on a wrong count or range. */
  function Pack(codes: seq<Code>, vals: seq<int>): (r: Result<seq<Byte>>)
    ensures r.Ok? <==> AllInRange(codes, vals)
    ensures r.Ok? ==> |r.value| == CalcSize(codes)
  {
    PlanFields(codes, 0);
    if AllInRange(codes, vals) then Ok(Encode(Plan(codes, 0), vals)) else Err(StructError)
  }

  /** Every pad byte of `bs`, as laid out by `slots`, is zero. */
  predicate PadsZero(slots: seq<Slot>, bs: seq<Byte>)
    requires Width(slots) <= |bs|
  {
    slots == [] ||
    match slots[0]
    case Pad => bs[0] == 0 && PadsZero(slots[1..], bs[1..])
    case Value(c) => PadsZero(slots[1..], bs[Size(c)..])
  }

  // ---------------------------------------------------------------------------------------
  // The plan keeps every field, in format order

  lemma FieldsAppend(a: seq<Slot>, b: seq<Slot>)
    ensures Fields(a + b) == Fields(a) + Fields(b)
  {
    if a == [] {
      assert a + b == b;
    } else {
      assert (a + b)[0] == a[0] && (a + b)[1..] == a[1..] + b;
      FieldsAppend(a[1..], b);
      if a[0].Value? {
        assert Fields(a + b) == [a[0].code] + (Fields(a[1..]) + Fields(b));
      }
    }
  }

  /** Laying out inserts only pads: the plan's fields are exactly the format's fields. */
  lemma {:induction false} PlanFields(codes: seq<Code>, offset: nat)
    ensures Fields(Plan(codes, offset)) == codes
  {
    if codes != [] {
      var c := codes[0];
      var off := Align(offset, c);
      var rest := Plan(codes[1..], off + Size(c));
      PlanFields(codes[1..], off + Size(c));
      if off == offset {
        assert Plan(codes, offset) == [Value(c)] + rest;
        FieldsAppend([Value(c)], rest);
        assert Fields([Value(c)]) == [c];
      } else {
        assert Plan(codes, offset) == [Pad, Value(c)] + rest;
        FieldsAppend([Pad, Value(c)], rest);
        assert [Pad, Value(c)][1..] == [Value(c)];
        assert Fields([Pad, Value(c)]) == [c];
      }
      assert codes == [c] + codes[1..];
    }
  }

  /** Decoding yields one value per field of the plan, each in its field's range. */
  lemma {:induction false} DecodeInRange(slots: seq<Slot>, bs: seq<Byte>)
    requires Width(slots) <= |bs|
    ensures AllInRange(Fields(slots), Decode(slots, bs))
  {
    if slots != [] {
      DecodeInRange(slots[1..], bs[if slots[0].Pad? then 1 else Size(slots[0].code)..]);
      if slots[0].Value? {
        var vals := Decode(slots, bs);
        assert vals[1..] == Decode(slots[1..], bs[Size(slots[0].code)..]);
      }
    }
  }

  /** A buffer of the right size decodes to one value per format field, each in its range. */
  lemma UnpackValues(codes: seq<Code>, raw: seq<Byte>)
    requires Unpack(codes, raw).Ok?
    ensures AllInRange(codes, Unpack(codes, raw).value)
  {
    PlanFields(codes, 0);
    DecodeInRange(Plan(codes, 0), raw);
  }

  // ---------------------------------------------------------------------------------------
  // Round trips between Encode and Decode

  lemma FieldRoundTrip(c: Code, v: int, bs: seq<Byte>)
    requires InRange(c, v) && Size(c) <= |bs|
    requires bs[..Size(c)] == FieldBytes(c, v)
    ensures Field(c, bs) == v
  {
    assert bs[0] == bs[..Size(c)][0];
    if c == Short {
      assert bs[1] == bs[..Size(c)][1];
    }
  }

  lemma FieldBytesOf(c: Code, bs: seq<Byte>)
    requires Size(c) <= |bs|
    ensures FieldBytes(c, Field(c, bs)) == bs[..Size(c)]
  {
    match c
    case UByte =>
    case SByte =>
    case Short =>
      var u: int := bs[0] as int + 256 * (bs[1] as int);
      assert Field(c, bs) % 65536 == u;
      assert u % 256 == bs[0] && u / 256 == bs[1];
  }

  /** Decoding what Encode produced gives back the values. */
  lemma {:induction false} DecodeEncode(slots: seq<Slot>, vals: seq<int>)
    requires AllInRange(Fields(slots), vals)
    ensures Decode(slots, Encode(slots, vals)) == vals
  {
    if slots != [] {
      var bs := Encode(slots, vals);
      match slots[0]
      case Pad =>
        assert bs[1..] == Encode(slots[1..], vals);
        DecodeEncode(slots[1..], vals);
      case Value(c) =>
        assert Fields(slots) == [c] + Fields(slots[1..]);
        DecodeEncode(slots[1..], vals[1..]);
        DecodeEncodeField(c, slots, vals);
    }
  }

  lemma {:induction false} DecodeEncodeField(c: Code, slots: seq<Slot>, vals: seq<int>)
    requires slots != [] && slots[0] == Value(c)
    requires AllInRange(Fields(slots), vals) && AllInRange(Fields(slots[1..]), vals[1..])
    requires Decode(slots[1..], Encode(slots[1..], vals[1..])) == vals[1..]
    ensures Decode(slots, Encode(slots, vals)) == vals
  {
    var bs := Encode(slots, vals);
    assert bs[..Size(c)] == FieldBytes(c, vals[0]) && bs[Size(c)..] == Encode(slots[1..], vals[1..]);
    FieldRoundTrip(c, vals[0], bs);
    assert vals == [vals[0]] + vals[1..];
  }

  /** Encoding what Decode produced gives back the bytes, when the pad bytes are zero. */
  lemma {:induction false} EncodeDecode(slots: seq<Slot>, bs: seq<Byte>)
    requires Width(slots) == |bs| && PadsZero(slots, bs)
    ensures AllInRange(Fields(slots), Decode(slots, bs))
    ensures Encode(slots, Decode(slots, bs)) == bs
  {
    DecodeInRange(slots, bs);
    if slots != [] {
      match slots[0]
      case Pad =>
        EncodeDecode(slots[1..], bs[1..]);
        assert bs == [0] + bs[1..];
      case Value(c) =>
        EncodeDecode(slots[1..], bs[Size(c)..]);
        EncodeDecodeField(c, slots, bs);
    }
  }

  /** The step of EncodeDecode for a leading field, given the round trip for the rest. */
  lemma {:induction false} EncodeDecodeField(c: Code, slots: seq<Slot>, bs: seq<Byte>)
    requires slots != [] && slots[0] == Value(c) && Width(slots) == |bs|
    requires AllInRange(Fields(slots), Decode(slots, bs))
    requires AllInRange(Fields(slots[1..]), Decode(slots[1..], bs[Size(c)..]))
    requires Encode(slots[1..], Decode(slots[1..], bs[Size(c)..])) == bs[Size(c)..]
    ensures Encode(slots, Decode(slots, bs)) == bs
  {
    var vals := Decode(slots, bs);
    assert vals[0] == Field(c, bs) && vals[1..] == Decode(slots[1..], bs[Size(c)..]);
    FieldBytesOf(c, bs);
    assert bs == bs[..Size(c)] + bs[Size(c)..];
  }

  /** Unpacking what Pack produced gives back the values. */
  lemma UnpackPack(codes: seq<Code>, vals: seq<int>)
    requires Pack(codes, vals).Ok?
    ensures Unpack(codes, Pack(codes, vals).value) == Ok(vals)
  {
    PlanFields(codes, 0);
    DecodeEncode(Plan(codes, 0), vals);
  }

  /** Packing what Unpack produced gives back the buffer, when its pad bytes are zero. */
  lemma PackUnpack(codes: seq<Code>, raw: seq<Byte>)
    requires Unpack(codes, raw).Ok? && PadsZero(Plan(codes, 0), raw)
    ensures Pack(codes, Unpack(codes, raw).value) == Ok(raw)
  {
    PlanFields(codes, 0);
    EncodeDecode(Plan(codes, 0), raw);
  }

  // ---------------------------------------------------------------------------------------
  // The script's own layout

  /** The 16-bit field and the two signed bytes, laid out after the three unsigned bytes. */
  const TailPlan: seq<Slot> := [Pad, Value(Short), Value(SByte), Value(SByte)]

  /** "3Bh2b" in native mode: B, B, B, one pad byte, h, b, b. */
  const RecordPlan: seq<Slot> := [Value(UByte), Value(UByte), Value(UByte)] + TailPlan

  lemma PlanAt7()
    ensures Plan([SByte], 7) == [Value(SByte)]
  {
  }

  lemma PlanAt6()
    ensures Plan([SByte, SByte], 6) == [Value(SByte)] + Plan([SByte], 7)
  {
    assert [SByte, SByte][1..] == [SByte];
  }

  /** The 16-bit field would start at offset 3; alignment moves it to 4 behind a pad byte. */
  lemma PlanAt3()
    ensures Plan([Short, SByte, SByte], 3) == [Pad, Value(Short)] + Plan([SByte, SByte], 6)
  {
    assert [Short, SByte, SByte][1..] == [SByte, SByte];
  }

  lemma PlanAt2()
    ensures Plan([UByte, Short, SByte, SByte], 2) == [Value(UByte)] + Plan([Short, SByte, SByte], 3)
  {
    assert [UByte, Short, SByte, SByte][1..] == [Short, SByte, SByte];
  }

  lemma PlanAt1()
    ensures Plan([UByte, UByte, Short, SByte, SByte], 1) == [Value(UByte)] + Plan([UByte, Short, SByte, SByte], 2)
  {
    assert [UByte, UByte, Short, SByte, SByte][1..] == [UByte, Short, SByte, SByte];
  }

  lemma PlanAt0()
    ensures Plan(Layout, 0) == [Value(UByte)] + Plan([UByte, UByte, Short, SByte, SByte], 1)
  {
    assert Layout[1..] == [UByte, UByte, Short, SByte, SByte];
  }

  /** The layout needs one pad byte, before the 16-bit field. */
  lemma LayoutPlan()
    ensures Plan(Layout, 0) == RecordPlan
  {
    PlanAt0(); PlanAt1(); PlanAt2(); PlanAt3(); PlanAt6(); PlanAt7();
  }

  /** `calcsize("3Bh2b")` is 8 in native mode. */
  lemma LayoutSize()
    ensures CalcSize(Layout) == 8
  {
    LayoutPlan();
    assert Width([Value(UByte), Value(UByte), Value(UByte), Pad, Value(Short), Value(SByte), Value(SByte)]) == 8;
    assert RecordPlan == [Value(UByte), Value(UByte), Value(UByte), Pad, Value(Short), Value(SByte), Value(SByte)];
  }

  /** With a standard-size prefix ('=', '<' or '>') the same format would be 7 bytes: the
      script's 8 is the native pad byte before the 16-bit field. */
  lemma StandardLayoutSize()
    ensures StandardSize(Layout) == 7 && CalcSize(Layout) == StandardSize(Layout) + 1
  {
    LayoutSize();
    assert Layout[1..][1..][1..][1..][1..][1..] == [];
  }

  function SlotWidth(s: Slot): nat
  {
    match s
    case Pad => 1
    case Value(c) => Size(c)
  }

  lemma DecodeStep(s: Slot, rest: seq<Slot>, bs: seq<Byte>)
    requires SlotWidth(s) + Width(rest) <= |bs|
    ensures Width([s] + rest) == SlotWidth(s) + Width(rest)
    ensures s.Pad? ==> Decode([s] + rest, bs) == Decode(rest, bs[1..])
    ensures s.Value? ==> Decode([s] + rest, bs) == [Field(s.code, bs)] + Decode(rest, bs[Size(s.code)..])
  {
    assert ([s] + rest)[0] == s && ([s] + rest)[1..] == rest;
  }

  lemma DecodeTail(bs: seq<Byte>)
    requires |bs| == 5
    ensures Width(TailPlan) == 5
    ensures Decode(TailPlan, bs) == [Signed16(bs[1], bs[2]), Signed8(bs[3]), Signed8(bs[4])]
  {
    var t3: seq<Slot> := [Value(SByte)];
    var t2 := [Value(SByte)] + t3;
    var t1 := [Value(Short)] + t2;
    assert TailPlan == [Pad] + t1;
    DecodeStep(Value(SByte), [], bs[4..]);
    assert [Value(SByte)] + [] == t3;
    DecodeStep(Value(SByte), t3, bs[3..]);
    assert bs[3..][1..] == bs[4..];
    DecodeStep(Value(Short), t2, bs[1..]);
    assert bs[1..][2..] == bs[3..];
    DecodeStep(Pad, t1, bs);
  }

  lemma DecodeHead(raw: seq<Byte>)
    requires |raw| == 8
    ensures Width(RecordPlan) == 8
    ensures Decode(RecordPlan, raw) == [raw[0] as int, raw[1] as int, raw[2] as int] + Decode(TailPlan, raw[3..])
  {
    DecodeTail(raw[3..]);
    var p2 := [Value(UByte)] + TailPlan;
    var p1 := [Value(UByte)] + p2;
    assert RecordPlan == [Value(UByte)] + p1;
    DecodeStep(Value(UByte), TailPlan, raw[2..]);
    assert raw[2..][1..] == raw[3..];
    DecodeStep(Value(UByte), p2, raw[1..]);
    assert raw[1..][1..] == raw[2..];
    DecodeStep(Value(UByte), p1, raw);
  }

  /** The script's format string reads as the layout. */
  lemma FormatLayout()
    ensures ParseFormat(PacketFormat) == Ok(Layout)
  {
    var f2 := "2b";
    assert f2[0] == '2' && f2[1] == 'b' && f2[2..] == [];
    assert ParseFormat(f2[2..]) == Ok([]);
    assert '2' as int - '0' as int == 2;
    assert ParseFormat(f2) == Ok(seq(2, _ => CodeOf(f2[1]).value) + []);
    assert seq(2, _ => CodeOf(f2[1]).value) + [] == [SByte, SByte];
    var f1 := "h2b";
    assert f1[0] == 'h' && f1[1..] == f2 && !('0' <= f1[0] <= '9');
    assert ParseFormat(f1) == Ok([CodeOf(f1[0]).value] + ParseFormat(f1[1..]).value);
    assert CodeOf(f1[0]) == Ok(Short) && ParseFormat(f1[1..]) == Ok([SByte, SByte]);
    assert [Short] + [SByte, SByte] == [Short, SByte, SByte];
    assert ParseFormat(f1) == Ok([Short, SByte, SByte]);
    assert PacketFormat[0] == '3' && PacketFormat[1] == 'B' && PacketFormat[2..] == f1;
    assert '3' as int - '0' as int == 3;
    assert ParseFormat(PacketFormat) == Ok(seq(3, _ => CodeOf(PacketFormat[1]).value) + [Short, SByte, SByte]);
    assert seq(3, _ => CodeOf(PacketFormat[1]).value) == [UByte, UByte, UByte];
    assert [UByte, UByte, UByte] + [Short, SByte, SByte] == Layout;
  }

  /** The values of one 8-byte record, field by field: three unsigned bytes, the pad at offset
      3 skipped, a signed 16-bit integer from bytes 4 and 5 (low byte first), two signed bytes. */
  function RecordValues(raw: seq<Byte>): (vals: seq<int>)
    requires |raw| == 8
    ensures |vals| == 6
    ensures forall i :: 0 <= i < 3 ==> 0 <= vals[i] <= 255
    ensures -32768 <= vals[3] <= 32767
    ensures -128 <= vals[4] <= 127 && -128 <= vals[5] <= 127
  {
    [raw[0], raw[1], raw[2], Signed16(raw[4], raw[5]), Signed8(raw[6]), Signed8(raw[7])]
  }

  /** An 8-byte record decodes, positionally and little-endian, to six values; byte 3 is padding. */
  lemma UnpackRecord(raw: seq<Byte>)
    requires |raw| == 8
    ensures Unpack(Layout, raw) == Ok(RecordValues(raw))
  {
    LayoutPlan();
    LayoutSize();
    DecodeHead(raw);
    var t := raw[3..];
    DecodeTail(t);
    assert t[1] == raw[4] && t[2] == raw[5] && t[3] == raw[6] && t[4] == raw[7];
    var vals := Decode(RecordPlan, raw);
    assert vals == [raw[0] as int, raw[1] as int, raw[2] as int] + [Signed16(raw[4], raw[5]), Signed8(raw[6]), Signed8(raw[7])];
    assert vals == [raw[0] as int, raw[1] as int, raw[2] as int, Signed16(raw[4], raw[5]), Signed8(raw[6]), Signed8(raw[7])];
  }

  /** A record whose length is not 8, the end of the stream among them, does not decode. */
  lemma UnpackShortRecord(raw: seq<Byte>)
    requires |raw| != 8
    ensures Unpack(Layout, raw) == Err(StructError)
  {
    LayoutSize();
  }

  /** Bytes 1, 2, 3, p, 0x10, 0x00, 4, 5 decode to (1, 2, 3, 16, 4, 5) whatever the pad byte p. */
  lemma UnpackExample(p: Byte)
    ensures Unpack(Layout, [1, 2, 3, p, 0x10, 0x00, 4, 5]) == Ok([1, 2, 3, 16, 4, 5])
  {
    UnpackRecord([1, 2, 3, p, 0x10, 0x00, 4, 5]);
  }
}
