/** The two frame codecs around abstract MessagePack and DEFLATE libraries
    (packages/protocol/src/codec/index.ts, FastCodec.ts). */
module Codec {
  import opened Common

  type Byte = b: int | 0 <= b < 256
  type Bytes = seq<Byte>

  /** A JavaScript number: an integer, or a fraction by its decimal text and integral part. */
  datatype Number = Int(n: int) | Fraction(text: string, whole: int)

  /** What MessagePack carries. Arrays of numbers and binary strings are different values. */
  datatype Value =
    | Nil
    | Bool(b: bool)
    | Num(n: Number)
    | Str(s: string)
    | Arr(items: seq<Value>)
    | Bin(bytes: Bytes)
    | Obj(fields: map<string, Value>)

  datatype CodecError = MalformedMessagePack | NotAnEnvelope | MissingPayloadBytes | ZipBomb | FailedToDecompress

  datatype Result<+T> = Ok(value: T) | Err(error: CodecError)

  /** The chunks an inflating stream emits, and whether it then fails. */
  datatype Stream = Stream(chunks: seq<Bytes>, fails: bool)

  /** @msgpack/msgpack, msgpackr and zlib, as functions; and JavaScript's two conversions of what
      is neither a number in an array nor an array: `toByte` of a value that becomes an array
      element, `toView` of a value given to `new Uint8Array`. */
  datatype Libraries = Libraries(
    encode: Value -> Bytes, decode: Bytes -> Option<Value>,
    fastEncode: Value -> Bytes, fastDecode: Bytes -> Option<Value>,
    deflate: Bytes -> Bytes, inflate: Bytes -> Stream,
    toByte: Value -> Byte, toView: Value -> Bytes)

  datatype Envelope = Envelope(t: Number, mid: Number, v: Number, ts: Number, p: map<string, Value>)

  datatype Decoded = Decoded(fields: map<string, Value>, wasCompressed: bool)

  const COMPRESSION_THRESHOLD_BYTES := 256
  const MAX_DECOMPRESSED_BYTES := 4 * 1024 * 1024

  // ---------------------------------------------------------------- capped inflation

  function Concat(chunks: seq<Bytes>): Bytes {
    if chunks == [] then [] else Concat(chunks[..|chunks| - 1]) + chunks[|chunks| - 1]
  }

  function Capped(s: Stream, maxBytes: nat): Result<Bytes> {
    if |Concat(s.chunks)| > maxBytes then Err(ZipBomb)
    else if s.fails then Err(FailedToDecompress)
    else Ok(Concat(s.chunks))
  }

  lemma {:induction false} ConcatGrows(chunks: seq<Bytes>, i: nat)
    requires i <= |chunks|
    ensures |Concat(chunks[..i])| <= |Concat(chunks)|
  {
    if i == |chunks| {
      assert chunks[..i] == chunks;
    } else {
      var init := chunks[..|chunks| - 1];
      assert init[..i] == chunks[..i];
      ConcatGrows(init, i);
    }
  }

  /** `inflateCapped`: whatever the chunking, the whole output when it fits the cap and the
      stream ends well, else an error; the kept chunks never exceed the cap. */
  method InflateCapped(s: Stream, maxBytes: nat) returns (r: Result<Bytes>)
    ensures r == Capped(s, maxBytes)
    ensures |Concat(s.chunks)| > maxBytes ==> r == Err(ZipBomb)
    ensures |Concat(s.chunks)| <= maxBytes && s.fails ==> r == Err(FailedToDecompress)
    ensures |Concat(s.chunks)| <= maxBytes && !s.fails ==> r == Ok(Concat(s.chunks))
  {
    var kept: Bytes := [];
    var total := 0;
    for i := 0 to |s.chunks|
      invariant kept == Concat(s.chunks[..i]) && total == |kept| <= maxBytes
    {
      assert s.chunks[..i + 1][..i] == s.chunks[..i];
      total := total + |s.chunks[i]|;
      if total > maxBytes {
        ConcatGrows(s.chunks, i + 1);
        return Err(ZipBomb);
      }
      kept := kept + s.chunks[i];
    }
    assert s.chunks[..|s.chunks|] == s.chunks;
    return if s.fails then Err(FailedToDecompress) else Ok(kept);
  }

  // ---------------------------------------------------------------- the baseline codec

  /** `Array.from` of a byte array, and `new Uint8Array` of an array of numbers. */
  function Numbers(bytes: Bytes): seq<Value> { seq(|bytes|, i requires 0 <= i < |bytes| => Num(Int(bytes[i]))) }

  function ToByte(k: Libraries, v: Value): Byte {
    if !v.Num? then k.toByte(v) else (if v.n.Int? then v.n.n else v.n.whole) % 256
  }

  function ToBytes(k: Libraries, items: seq<Value>): Bytes {
    seq(|items|, i requires 0 <= i < |items| => ToByte(k, items[i]))
  }

  function Header(f: Envelope): map<string, Value> {
    map["t" := Num(f.t), "mid" := Num(f.mid), "v" := Num(f.v), "ts" := Num(f.ts)]
  }

  function EncodeFrame(k: Libraries, f: Envelope): Bytes {
    var payload := k.encode(Obj(f.p));
    if |payload| > COMPRESSION_THRESHOLD_BYTES then
      k.encode(Obj(Header(f)["p" := Obj(map["__raw" := Arr(Numbers(k.deflate(payload)))])]["c" := Num(Int(1))]))
    else
      k.encode(Obj(Header(f)["p" := Obj(f.p)]))
  }

  predicate IsNumber(m: map<string, Value>, key: string) { key in m && m[key].Num? }

  predicate IsInteger(m: map<string, Value>, key: string) {
    IsNumber(m, key) && m[key].n.Int?
  }

  /** `typeof v === "object" && v !== null`. */
  predicate IsObject(v: Value) { v.Arr? || v.Bin? || v.Obj? }

  predicate IsEnvelopeLike(v: Value) {
    && v.Obj?
    && IsInteger(v.fields, "t")
    && IsInteger(v.fields, "mid") && v.fields["mid"].n.n >= 0
    && IsNumber(v.fields, "v") && IsNumber(v.fields, "ts")
    && "p" in v.fields && IsObject(v.fields["p"])
    && ("c" !in v.fields || v.fields["c"] == Num(Int(0)) || v.fields["c"] == Num(Int(1)))
  }

  /** The `__raw` entry of a payload, Nil when there is none. */
  function Raw(p: Value): Value { if p.Obj? && "__raw" in p.fields then p.fields["__raw"] else Nil }

  predicate Compressed(fields: map<string, Value>) { "c" in fields && fields["c"] == Num(Int(1)) }

  function DecodeFrame(k: Libraries, buffer: Bytes): Result<Decoded> {
    match k.decode(buffer)
    case None => Err(MalformedMessagePack)
    case Some(raw) =>
      if !IsEnvelopeLike(raw) then Err(NotAnEnvelope)
      else if !Compressed(raw.fields) then Ok(Decoded(raw.fields, false))
      else
        var packed := Raw(raw.fields["p"]);
        if !packed.Arr? || |packed.items| == 0 then Err(MissingPayloadBytes)
        else
          match Capped(k.inflate(ToBytes(k, packed.items)), MAX_DECOMPRESSED_BYTES)
          case Err(e) => Err(e)
          case Ok(bytes) =>
            match k.decode(bytes)
            case None => Err(FailedToDecompress)
            case Some(payload) => Ok(Decoded(raw.fields["p" := payload], true))
  }

  // ---------------------------------------------------------------- the fast codec

  predicate Truthy(v: Value) {
    match v
    case Nil => false
    case Bool(b) => b
    case Num(n) => n != Int(0)
    case Str(s) => s != ""
    case _ => true
  }

  /** `new Uint8Array` of a value. */
  function BytesOf(k: Libraries, v: Value): Bytes {
    match v case Arr(items) => ToBytes(k, items) case Bin(bytes) => bytes case _ => k.toView(v)
  }

  function Packed(f: Envelope, bytes: Bytes): Value {
    Obj(Header(f)["c" := Num(Int(1))]["p" := Obj(map["__raw" := Bin(bytes)])])
  }

  function EncodeFrameFast(k: Libraries, f: Envelope): Bytes {
    if Truthy(Raw(Obj(f.p))) then k.fastEncode(Packed(f, BytesOf(k, Raw(Obj(f.p)))))
    else
      var payload := k.fastEncode(Obj(f.p));
      if |payload| > COMPRESSION_THRESHOLD_BYTES then k.fastEncode(Packed(f, k.deflate(payload)))
      else k.fastEncode(Obj(Header(f)["p" := Obj(f.p)]))
  }

  function DecodeFrameFast(k: Libraries, buffer: Bytes): Result<Decoded> {
    match k.fastDecode(buffer)
    case None => Err(MalformedMessagePack)
    case Some(raw) =>
      if !(raw.Obj? && IsNumber(raw.fields, "t") && "p" in raw.fields && IsObject(raw.fields["p"])) then
        Err(NotAnEnvelope)
      else if !Compressed(raw.fields) then Ok(Decoded(raw.fields, false))
      else
        var packed := Raw(raw.fields["p"]);
        if !packed.Arr? && !packed.Bin? then Err(MissingPayloadBytes)
        else
          match Capped(k.inflate(BytesOf(k, packed)), MAX_DECOMPRESSED_BYTES)
          case Err(_) => Err(FailedToDecompress)
          case Ok(bytes) =>
            match k.fastDecode(bytes)
            case None => Err(FailedToDecompress)
            case Some(payload) => Ok(Decoded(raw.fields["p" := payload], true))
  }

  // ---------------------------------------------------------------- round trips

  /** What is taken for granted of the libraries: either decoder undoes either encoder, and
      inflating undoes deflating, in whatever chunks, with at least one compressed byte. */
  ghost predicate Sound(k: Libraries) {
    && (forall v {:trigger k.encode(v)} :: k.decode(k.encode(v)) == Some(v) && k.fastDecode(k.encode(v)) == Some(v))
    && (forall v {:trigger k.fastEncode(v)} ::
          k.decode(k.fastEncode(v)) == Some(v) && k.fastDecode(k.fastEncode(v)) == Some(v))
    && (forall b {:trigger k.deflate(b)} ::
          |k.deflate(b)| > 0 && Concat(k.inflate(k.deflate(b)).chunks) == b && !k.inflate(k.deflate(b)).fails)
  }

  predicate Valid(f: Envelope) {
    f.t.Int? && f.mid.Int? && f.mid.n >= 0
  }

  predicate Has(m: map<string, Value>, key: string, v: Value) { key in m && m[key] == v }

  /** The decoded frame carries the five fields of the original. */
  predicate Recovers(r: Result<Decoded>, f: Envelope) {
    && r.Ok?
    && Has(r.value.fields, "t", Num(f.t)) && Has(r.value.fields, "mid", Num(f.mid))
    && Has(r.value.fields, "v", Num(f.v)) && Has(r.value.fields, "ts", Num(f.ts))
    && Has(r.value.fields, "p", Obj(f.p))
  }

  lemma BytesSurvive(k: Libraries, bytes: Bytes)
    ensures ToBytes(k, Numbers(bytes)) == bytes
  {
    forall i | 0 <= i < |bytes| ensures ToBytes(k, Numbers(bytes))[i] == bytes[i] {
      assert Numbers(bytes)[i] == Num(Int(bytes[i]));
    }
  }

  /** The wire value of a frame with payload `p`, compressed or not. */
  predicate Carries(v: Value, f: Envelope, p: Value, compressed: bool) {
    && v.Obj?
    && Has(v.fields, "t", Num(f.t)) && Has(v.fields, "mid", Num(f.mid))
    && Has(v.fields, "v", Num(f.v)) && Has(v.fields, "ts", Num(f.ts))
    && Has(v.fields, "p", p)
    && (if compressed then Has(v.fields, "c", Num(Int(1))) else "c" !in v.fields)
  }

  lemma KeysDiffer()
    ensures "t" != "mid" && "t" != "v" && "t" != "ts" && "t" != "p" && "t" != "c"
    ensures "mid" != "v" && "mid" != "ts" && "mid" != "p" && "mid" != "c"
    ensures "v" != "ts" && "v" != "p" && "v" != "c" && "ts" != "p" && "ts" != "c" && "p" != "c"
  {
    assert "t"[0] == 't' && "mid"[0] == 'm' && "v"[0] == 'v' && "ts"[0] == 't' && "p"[0] == 'p' && "c"[0] == 'c';
    assert |"t"| == 1 && |"ts"| == 2;
  }

  lemma PlainCarries(f: Envelope)
    ensures Carries(Obj(Header(f)["p" := Obj(f.p)]), f, Obj(f.p), false)
  {
    KeysDiffer();
  }

  lemma CompressedCarries(f: Envelope, raw: Value)
    ensures var p := Obj(map["__raw" := raw]);
            && Carries(Obj(Header(f)["p" := p]["c" := Num(Int(1))]), f, p, true)
            && Carries(Obj(Header(f)["c" := Num(Int(1))]["p" := p]), f, p, true)
    ensures Raw(Obj(map["__raw" := raw])) == raw
  {
    KeysDiffer();
  }

  lemma ReplacePayload(v: Value, f: Envelope, p: Value, q: Value)
    requires Carries(v, f, p, true)
    ensures Carries(Obj(v.fields["p" := q]), f, q, true)
  {
    KeysDiffer();
  }

  lemma CarriesIsEnvelope(v: Value, f: Envelope, p: map<string, Value>, compressed: bool)
    requires Carries(v, f, Obj(p), compressed) && Valid(f)
    ensures IsEnvelopeLike(v) && (Compressed(v.fields) <==> compressed)
  {
  }

  predicate Fits(payload: Bytes) { |payload| <= MAX_DECOMPRESSED_BYTES }

  /** Decoding a plain wire value gives its own payload. */
  lemma PlainDecodes(k: Libraries, f: Envelope, bytes: Bytes)
    requires Valid(f)
    requires k.decode(bytes) == Some(Obj(Header(f)["p" := Obj(f.p)]))
    ensures DecodeFrame(k, bytes) == Ok(Decoded(Header(f)["p" := Obj(f.p)], false))
    ensures Recovers(DecodeFrame(k, bytes), f)
  {
    PlainCarries(f);
    CarriesIsEnvelope(Obj(Header(f)["p" := Obj(f.p)]), f, f.p, false);
  }

  lemma PlainDecodesFast(k: Libraries, f: Envelope, bytes: Bytes)
    requires Valid(f)
    requires k.fastDecode(bytes) == Some(Obj(Header(f)["p" := Obj(f.p)]))
    ensures DecodeFrameFast(k, bytes) == Ok(Decoded(Header(f)["p" := Obj(f.p)], false))
    ensures Recovers(DecodeFrameFast(k, bytes), f)
  {
    PlainCarries(f);
    CarriesIsEnvelope(Obj(Header(f)["p" := Obj(f.p)]), f, f.p, false);
  }

  /** Decoding a compressed wire value inflates its bytes, array or binary. */
  lemma CompressedDecodes(k: Libraries, f: Envelope, v: Value, buffer: Bytes, packed: Value, payload: Bytes)
    requires Sound(k) && Valid(f) && k.decode(payload) == Some(Obj(f.p))
    requires k.decode(buffer) == Some(v) && Carries(v, f, Obj(map["__raw" := packed]), true)
    requires packed == Arr(Numbers(k.deflate(payload)))
    ensures Recovers(DecodeFrame(k, buffer), f) <==> Fits(payload)
    ensures !Fits(payload) ==> DecodeFrame(k, buffer) == Err(ZipBomb)
  {
    CompressedCarries(f, packed);
    CarriesIsEnvelope(v, f, map["__raw" := packed], true);
    BytesSurvive(k, k.deflate(payload));
    ReplacePayload(v, f, Obj(map["__raw" := packed]), Obj(f.p));
  }

  lemma CompressedDecodesFast(k: Libraries, f: Envelope, v: Value, buffer: Bytes, packed: Value, payload: Bytes)
    requires Sound(k) && Valid(f) && k.fastDecode(payload) == Some(Obj(f.p))
    requires k.fastDecode(buffer) == Some(v) && Carries(v, f, Obj(map["__raw" := packed]), true)
    requires packed == Arr(Numbers(k.deflate(payload))) || packed == Bin(k.deflate(payload))
    ensures Recovers(DecodeFrameFast(k, buffer), f) <==> Fits(payload)
  {
    CompressedCarries(f, packed);
    CarriesIsEnvelope(v, f, map["__raw" := packed], true);
    BytesSurvive(k, k.deflate(payload));
    ReplacePayload(v, f, Obj(map["__raw" := packed]), Obj(f.p));
  }

  /** The baseline codec, and the fast decoder on its output, return every valid frame whose
      payload encodes to at most 4 MiB, on either side of the threshold, and no other. */
  lemma RoundTrip(k: Libraries, f: Envelope)
    requires Sound(k) && Valid(f)
    ensures Recovers(DecodeFrame(k, EncodeFrame(k, f)), f) <==> Fits(k.encode(Obj(f.p)))
    ensures Recovers(DecodeFrameFast(k, EncodeFrame(k, f)), f) <==> Fits(k.encode(Obj(f.p)))
  {
    var payload := k.encode(Obj(f.p));
    if |payload| > COMPRESSION_THRESHOLD_BYTES {
      var packed := Arr(Numbers(k.deflate(payload)));
      var v := Obj(Header(f)["p" := Obj(map["__raw" := packed])]["c" := Num(Int(1))]);
      CompressedCarries(f, packed);
      CompressedDecodes(k, f, v, EncodeFrame(k, f), packed, payload);
      CompressedDecodesFast(k, f, v, EncodeFrame(k, f), packed, payload);
    } else {
      PlainDecodes(k, f, EncodeFrame(k, f));
      PlainDecodesFast(k, f, EncodeFrame(k, f));
    }
  }

  /** The bytes that a payload with a `__raw` entry passes through unpack, within the cap, to
      that payload itself. */
  predicate UnpacksToItself(k: Libraries, p: map<string, Value>) {
    var unpacked := Capped(k.inflate(BytesOf(k, Raw(Obj(p)))), MAX_DECOMPRESSED_BYTES);
    unpacked.Ok? && k.fastDecode(unpacked.value) == Some(Obj(p))
  }

  /** The fast codec returns every valid frame whose payload encodes to at most 4 MiB, and no
      other, unless the payload has a `__raw` entry of its own: such a frame comes back exactly
      when those bytes unpack to the payload they are part of. */
  lemma FastRoundTrip(k: Libraries, f: Envelope)
    requires Sound(k) && Valid(f)
    ensures Recovers(DecodeFrameFast(k, EncodeFrameFast(k, f)), f) <==>
            if Truthy(Raw(Obj(f.p))) then UnpacksToItself(k, f.p) else Fits(k.fastEncode(Obj(f.p)))
  {
    var payload := k.fastEncode(Obj(f.p));
    if Truthy(Raw(Obj(f.p))) {
      PassedThroughDecodesFast(k, f);
    } else if |payload| > COMPRESSION_THRESHOLD_BYTES {
      var packed := Bin(k.deflate(payload));
      CompressedCarries(f, packed);
      CompressedDecodesFast(k, f, Packed(f, k.deflate(payload)), EncodeFrameFast(k, f), packed, payload);
    } else {
      PlainDecodesFast(k, f, EncodeFrameFast(k, f));
    }
  }

  lemma PassedThroughDecodesFast(k: Libraries, f: Envelope)
    requires Sound(k) && Valid(f) && Truthy(Raw(Obj(f.p)))
    ensures Recovers(DecodeFrameFast(k, EncodeFrameFast(k, f)), f) <==> UnpacksToItself(k, f.p)
  {
    hide Truthy;
    var bytes := BytesOf(k, Raw(Obj(f.p)));
    var packed := Bin(bytes);
    var v, p := Packed(f, bytes), map["__raw" := packed];
    CompressedCarries(f, packed);
    CarriesIsEnvelope(v, f, p, true);
    match Capped(k.inflate(bytes), MAX_DECOMPRESSED_BYTES)
    case Err(_) =>
    case Ok(unpacked) =>
      match k.fastDecode(unpacked)
      case None =>
      case Some(payload) => ReplacePayload(v, f, Obj(p), payload);
  }

  predicate Whole(fields: map<string, Value>, key: string) {
    key in fields && fields[key].Num? && fields[key].n.Int?
  }

  /** The value read has the shape of an envelope: whole t and mid, the latter not negative, numbers
      v and ts, an object or array for p, and if there is a c, it is 0 or 1. */
  predicate Shaped(raw: Value) {
    && raw.Obj?
    && var m := raw.fields;
       && Whole(m, "t") && Whole(m, "mid") && m["mid"].n.n >= 0
       && "v" in m && m["v"].Num? && "ts" in m && m["ts"].Num?
       && "p" in m && (m["p"].Obj? || m["p"].Arr? || m["p"].Bin?)
       && ("c" in m ==> m["c"] in {Num(Int(0)), Num(Int(1))})
  }

  /** Whatever arrives, well-formed or not, the baseline decoder answers with the one error that
      describes it or with the envelope that was read, its payload unpacked if it was packed. */
  lemma DecodesExactly(k: Libraries, buffer: Bytes)
    ensures var r, raw := DecodeFrame(k, buffer), k.decode(buffer);
            if raw.None? then r == Err(MalformedMessagePack)
            else if !Shaped(raw.value) then r == Err(NotAnEnvelope)
            else
              var fields := raw.value.fields;
              if !("c" in fields && fields["c"] == Num(Int(1))) then r == Ok(Decoded(fields, false))
              else if !(fields["p"].Obj? && "__raw" in fields["p"].fields && fields["p"].fields["__raw"].Arr? &&
                        fields["p"].fields["__raw"].items != []) then
                r == Err(MissingPayloadBytes)
              else
                var s := k.inflate(ToBytes(k, fields["p"].fields["__raw"].items));
                if |Concat(s.chunks)| > 4_194_304 then r == Err(ZipBomb)
                else if s.fails || k.decode(Concat(s.chunks)).None? then r == Err(FailedToDecompress)
                else r == Ok(Decoded(fields["p" := k.decode(Concat(s.chunks)).value], true))
  {
    if k.decode(buffer).Some? { ShapedExactly(k.decode(buffer).value); }
    hide IsEnvelopeLike, Shaped;
  }

  lemma ShapedExactly(v: Value)
    ensures Shaped(v) <==> IsEnvelopeLike(v)
    ensures Shaped(v) ==> v.Obj? && "p" in v.fields
  {
  }

  /** The fast decoder asks less of what it reads, a number t and an object or array p, and gives one
      error for everything that can go wrong in unpacking. */
  lemma DecodesFastExactly(k: Libraries, buffer: Bytes)
    ensures var r, raw := DecodeFrameFast(k, buffer), k.fastDecode(buffer);
            if raw.None? then r == Err(MalformedMessagePack)
            else if !(raw.value.Obj? && IsNumber(raw.value.fields, "t") && "p" in raw.value.fields
                      && IsObject(raw.value.fields["p"])) then r == Err(NotAnEnvelope)
            else
              var fields := raw.value.fields;
              var packed := Raw(fields["p"]);
              if !("c" in fields && fields["c"] == Num(Int(1))) then r == Ok(Decoded(fields, false))
              else if !packed.Arr? && !packed.Bin? then r == Err(MissingPayloadBytes)
              else
                var s := k.inflate(if packed.Bin? then packed.bytes else ToBytes(k, packed.items));
                if |Concat(s.chunks)| > 4_194_304 || s.fails || k.fastDecode(Concat(s.chunks)).None? then
                  r == Err(FailedToDecompress)
                else r == Ok(Decoded(fields["p" := k.fastDecode(Concat(s.chunks)).value], true))
  {
  }

  /** Either encoder compresses exactly the payloads that encode to more than 256 bytes. */
  lemma CompressesExactly(k: Libraries, f: Envelope)
    requires Sound(k) && Valid(f) && !Truthy(Raw(Obj(f.p)))
    ensures var plain, fast := k.decode(EncodeFrame(k, f)), k.fastDecode(EncodeFrameFast(k, f));
            && plain.Some? && plain.value.Obj? && fast.Some? && fast.value.Obj?
            && ("c" in plain.value.fields <==> |k.encode(Obj(f.p))| > 256)
            && ("c" in fast.value.fields <==> |k.fastEncode(Obj(f.p))| > 256)
  {
    KeysDiffer();
  }

  /** The two codecs interoperate in one direction only: the baseline decoder, which both ends
      use on what they receive, reads a fast-encoded frame exactly when it went out uncompressed,
      being small and without a `__raw` entry of its own, and rejects every other for not
      carrying an array. */
  lemma BaselineReadsFastFrames(k: Libraries, f: Envelope)
    requires Sound(k) && Valid(f)
    ensures var plain := !Truthy(Raw(Obj(f.p))) && |k.fastEncode(Obj(f.p))| <= COMPRESSION_THRESHOLD_BYTES;
            var r := DecodeFrame(k, EncodeFrameFast(k, f));
            && (Recovers(r, f) <==> plain)
            && (!plain ==> r == Err(MissingPayloadBytes))
  {
    var payload := k.fastEncode(Obj(f.p));
    if Truthy(Raw(Obj(f.p))) {
      BinaryRejected(k, f, BytesOf(k, Raw(Obj(f.p))));
    } else if |payload| > COMPRESSION_THRESHOLD_BYTES {
      BinaryRejected(k, f, k.deflate(payload));
    } else {
      PlainDecodes(k, f, EncodeFrameFast(k, f));
    }
  }

  lemma BinaryRejected(k: Libraries, f: Envelope, bytes: Bytes)
    requires Sound(k) && Valid(f)
    ensures DecodeFrame(k, k.fastEncode(Packed(f, bytes))) == Err(MissingPayloadBytes)
  {
    CompressedCarries(f, Bin(bytes));
    CarriesIsEnvelope(Packed(f, bytes), f, map["__raw" := Bin(bytes)], true);
  }

  /** A payload that already is `{ __raw: compressed bytes }` is passed through, so decoding
      yields what those bytes compress, not the payload. */
  lemma EchoUnpacks(k: Libraries, f: Envelope, inner: map<string, Value>)
    requires Sound(k) && Valid(f) && Fits(k.fastEncode(Obj(inner)))
    requires f.p == map["__raw" := Bin(k.deflate(k.fastEncode(Obj(inner))))]
    ensures Recovers(DecodeFrameFast(k, EncodeFrameFast(k, f)), f.(p := inner))
  {
    var payload := k.fastEncode(Obj(inner));
    var bytes := k.deflate(payload);
    CompressedCarries(f, Bin(bytes));
    CompressedDecodesFast(k, f.(p := inner), Packed(f, bytes), EncodeFrameFast(k, f), Bin(bytes), payload);
  }
}
