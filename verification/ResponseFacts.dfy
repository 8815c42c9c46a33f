/** Frames and responses are two spellings of the same thing. */
module ResponseFacts {
  import opened Bytes
  import opened Text
  import opened Wrappers
  import opened Seqs
  import opened ExecutionResponse

  // -------------------------------------------------------------- field by field

  predicate Fits(value: Option<bytes>) { value.None? || |value.value| < TWO_32 }

  lemma ReadByteOf(c: byte, tail: bytes)
    ensures ReadByte([c] + tail) == Ok(Read(c, tail))
  {
    DropHead([c], tail);
  }

  lemma ReadShortOf(n: nat, tail: bytes)
    requires n < TWO_16
    ensures ReadShort(LittleEndian(n, 2) + tail) == Ok(Read(n, tail))
  {
    Widths();
    ReadNatOfLittleEndian(n, 2, tail);
  }

  lemma ReadFramedOf(value: bytes, tail: bytes)
    requires |value| < TWO_32
    ensures ReadFramed(Framed(value) + tail) == Ok(Read(value, tail))
  {
    Widths();
    ReadPrefixedOfPrefixed(value, 4, tail);
  }

  lemma ReadTextOf(t: string, tail: bytes)
    requires |Utf8(t)| < TWO_32
    ensures ReadText(Framed(Utf8(t)) + tail) == Ok(Read(t, tail))
  {
    ReadFramedOf(Utf8(t), tail);
    FromUtf8OfUtf8(t);
  }

  lemma ReadOptionalTextOf(t: Option<string>, tail: bytes)
    requires Fits(TextBytes(t))
    ensures ReadOptionalText(Optional(TextBytes(t)) + tail) == Ok(Read(t, tail))
  {
    if t.None? {
      ReadByteOf(0, tail);
    } else {
      var f := Framed(Utf8(t.value));
      Assoc([1], f, tail);
      ReadByteOf(1, f + tail);
      ReadTextOf(t.value, tail);
    }
  }

  lemma ReadOptionalBytesOf(v: Option<bytes>, tail: bytes)
    requires Fits(v)
    ensures ReadOptionalBytes(Optional(v) + tail) == Ok(Read(v, tail))
  {
    if v.None? {
      ReadByteOf(0, tail);
    } else {
      Assoc([1], Framed(v.value), tail);
      ReadByteOf(1, Framed(v.value) + tail);
      ReadFramedOf(v.value, tail);
    }
  }

  // ---------------------------------------------------------------------- bodies

  lemma StartRoundTrip(s: Start, tail: bytes)
    requires s.version == VERSION && |s.digest| == 32 && Fits(TextBytes(s.reason))
    ensures ReadStart(StartThen(s, tail)) == Ok(Read(s, tail))
  {
    var after := s.digest + tail;
    var reason := Optional(TextBytes(s.reason)) + after;
    ReadShortOf(s.version, [StatusByte(s.status)] + reason);
    ReadByteOf(StatusByte(s.status), reason);
    ReadOptionalTextOf(s.reason, after);
    DropHead(s.digest, tail);
  }

  predicate EndFits(e: End) {
    Fits(TextBytes(e.context)) && Fits(TextBytes(e.receipt)) && Fits(TextBytes(e.schema)) && Fits(e.output)
    && |Utf8(e.signer)| < TWO_32
  }

  lemma EndRoundTrip(e: End)
    requires EndFits(e)
    ensures ReadEnd(EndBytes(e)) == Ok(e)
  {
    var signer := Framed(Utf8(e.signer));
    var output := Optional(e.output) + ([1] + signer);
    var schema := Optional(TextBytes(e.schema)) + output;
    ReadOptionalTextOf(e.context, Optional(TextBytes(e.receipt)) + schema);
    ReadOptionalTextOf(e.receipt, schema);
    ReadOptionalTextOf(e.schema, output);
    ReadOptionalBytesOf(e.output, [1] + signer);
    ReadByteOf(1, signer);
    assert signer + [] == signer;
    ReadTextOf(e.signer, []);
  }

  /** A body within the limit has no field too long for its length prefix. */
  lemma SmallBodyFits(r: Response)
    requires |Body(r)| <= MAX_BODY
    ensures Fits(TextBytes(r.reason)) && EndFits(EndOf(r))
  {
  }

  lemma BodyRoundTrip(r: Response, known: Known)
    requires Shaped(r) && Canonical(r, known).Ok?
    ensures FromBody(Body(r), r.signature, known) == Ok(r)
  {
    SmallBodyFits(r);
    StartRoundTrip(StartOf(r), EndBytes(EndOf(r)));
    EndRoundTrip(EndOf(r));
  }

  lemma BodyIsCanonical(body: bytes, signature: bytes, known: Known)
    requires FromBody(body, signature, known).Ok? && |body| <= MAX_BODY
    ensures Canonical(FromBody(body, signature, known).value, known) == Ok(body)
    ensures FromBody(body, signature, known).value.signature == signature
    ensures |signature| == 64 ==> Shaped(FromBody(body, signature, known).value)
  {
    var r := FromBody(body, signature, known).value;
    assert Body(r) == body;
  }

  // ---------------------------------------------------------------------- frames

  lemma UnframeOf(body: bytes, signature: bytes, bound: nat)
    requires |body| <= MAX_BODY && |signature| == 64 && 12 + |body| + 64 <= Smaller(bound, MAX_FRAME)
    ensures Unframed(FrameOf(body, signature), bound) == Ok((body, signature))
  {
    Widths();
    var f := FrameOf(body, signature);
    assert f[8..12] == LittleEndian(|body|, 4);
    LittleEndianRoundTrip(|body|, 4);
    assert f[..8] == MAGIC && f[12..12 + |body|] == body && f[12 + |body|..] == signature;
  }

  lemma FrameOfUnframed(f: bytes, bound: nat)
    requires Unframed(f, bound).Ok?
    ensures FrameOf(Unframed(f, bound).value.0, Unframed(f, bound).value.1) == f
    ensures |f| == 76 + |Unframed(f, bound).value.0| <= Smaller(bound, MAX_FRAME)
    ensures Unframed(f, bound).value.0 == f[12..|f| - 64] && Unframed(f, bound).value.1 == f[|f| - 64..]
  {
    var n := FromLittleEndian(f[8..12]);
    FromLittleEndianRoundTrip(f[8..12]);
    assert f == f[..8] + (f[8..12] + (f[12..12 + n] + f[12 + n..]));
  }

  /** Decoding what was encoded gives it back. */
  lemma DecodeOfEncode(r: Response, bound: nat, known: Known)
    requires Shaped(r) && ToFrame(r, bound, known).Ok?
    ensures FromFrame(ToFrame(r, bound, known).value, bound, known) == Ok(r)
  {
    var body := CanonicalParts(r, known);
    UnframeOf(body, r.signature, bound);
  }

  /** A canonical body, by name, and what it decodes to. */
  lemma CanonicalParts(r: Response, known: Known) returns (body: bytes)
    requires Shaped(r) && Canonical(r, known).Ok?
    ensures Canonical(r, known) == Ok(body) && |body| <= MAX_BODY
    ensures FromBody(body, r.signature, known) == Ok(r)
  {
    body := Body(r);
    BodyRoundTrip(r, known);
  }

  /** Encoding what was decoded gives the same frame. */
  lemma EncodeOfDecode(f: bytes, bound: nat, known: Known)
    requires FromFrame(f, bound, known).Ok?
    ensures Shaped(FromFrame(f, bound, known).value)
    ensures ToFrame(FromFrame(f, bound, known).value, bound, known) == Ok(f)
  {
    var parts := Unframed(f, bound).value;
    FrameOfUnframed(f, bound);
    BodyIsCanonical(parts.0, parts.1, known);
  }

  // -------------------------------------------------------------------- signing

  lemma SignatureIsNotSigned(r: Response, signature: bytes, known: Known)
    ensures Canonical(r.(signature := signature), known) == Canonical(r, known)
  {
  }

  /** What is signed determines everything but the signature. */
  lemma PreimageInjective(r: Response, s: Response, known: Known)
    requires Shaped(r) && Shaped(s) && Preimage(r, known).Ok? && Preimage(r, known) == Preimage(s, known)
    ensures s == r.(signature := s.signature)
  {
    SignatureIsNotSigned(r, s.signature, known);
    SameBody(r, s, known, Utf8(DOMAIN));
    SameResponse(r.(signature := s.signature), s, known);
  }

  lemma SameBody(r: Response, s: Response, known: Known, domain: bytes)
    requires Preimage(r, known).Ok? && Preimage(r, known) == Preimage(s, known) && domain == Utf8(DOMAIN)
    ensures Canonical(r, known).Ok? && Canonical(r, known) == Canonical(s, known)
  {
    DropHead(domain, Canonical(r, known).value);
    DropHead(domain, Canonical(s, known).value);
  }

  lemma SameResponse(r: Response, s: Response, known: Known)
    requires Shaped(r) && Shaped(s) && Canonical(r, known).Ok? && Canonical(r, known) == Canonical(s, known)
    requires r.signature == s.signature
    ensures r == s
  {
    var a := CanonicalParts(r, known);
    var b := CanonicalParts(s, known);
  }

  /** The signature of a received frame is checked over the very bytes received. */
  lemma SignedBytesAreReceivedBytes(f: bytes, bound: nat, known: Known)
    requires FromFrame(f, bound, known).Ok?
    ensures |f| >= 76 && Preimage(FromFrame(f, bound, known).value, known) == Ok(Utf8(DOMAIN) + f[12..|f| - 64])
  {
    var parts := Unframed(f, bound).value;
    FrameOfUnframed(f, bound);
    BodyIsCanonical(parts.0, parts.1, known);
  }

  const AnyReason: Known := _ => true

  function Judged(r: Result<Response, Error>, known: Known): Result<Response, Error> {
    if r.Ok? && r.value.status.ExecutionRejected? && (r.value.reason.None? || !known(r.value.reason.value))
    then Err(UnknownReason) else r
  }

  lemma ReasonIsLast(r: Response, known: Known)
    ensures Judged((if Validate(r, AnyReason).Ok? then Ok(r) else Err(Validate(r, AnyReason).error)), known)
         == if Validate(r, known).Ok? then Ok(r) else Err(Validate(r, known).error)
  {
  }

  lemma BodyReasons(body: bytes, signature: bytes, known: Known)
    ensures FromBody(body, signature, known) == Judged(FromBody(body, signature, AnyReason), known)
  {
    var start := ReadStart(body);
    if start.Ok? {
      var end := ReadEnd(start.value.rest);
      if end.Ok? {
        ReasonIsLast(Assembled(start.value.value, end.value, signature), known);
      }
    }
  }

  /** The list of reasons decides last: whatever else is wrong with a frame is wrong under every list. */
  lemma ReasonsDecideLast(f: bytes, bound: nat, known: Known)
    ensures FromFrame(f, bound, known) == Judged(FromFrame(f, bound, AnyReason), known)
  {
    var parts := Unframed(f, bound);
    if parts.Ok? {
      BodyReasons(parts.value.0, parts.value.1, known);
    }
  }

  /** A frame is accepted under the listed reasons exactly if it is otherwise, and a rejected execution gives one of them. */
  lemma OnlyListedReasons(f: bytes, bound: nat)
    ensures var any := FromFrame(f, bound, AnyReason);
      FromFrame(f, bound, ExecutionReason).Ok? <==>
        any.Ok? && (any.value.status.ExecutionRejected? ==> any.value.reason.Some? && any.value.reason.value in EXECUTION_REASONS)
  {
    ReasonsDecideLast(f, bound, ExecutionReason);
  }

  lemma VerifiedParts(f: bytes, bound: nat, known: Known, signer: string, verify: (bytes, bytes) -> bool,
                      digest: bytes, schema: Option<string>, maxOutput: nat)
    requires Verified(f, bound, known, signer, verify, digest, schema, maxOutput).Ok?
    ensures var r := Verified(f, bound, known, signer, verify, digest, schema, maxOutput).value;
      && FromFrame(f, bound, known) == Ok(r) && Preimage(r, known).Ok? && verify(Preimage(r, known).value, r.signature)
      && r.signer == signer && r.digest == digest
      && (r.output.Some? ==> |r.output.value| <= maxOutput && (r.status.Executed? ==> r.schema == schema))
  {
  }

  lemma OutputMeansExecuted(r: Response, known: Known)
    requires Canonical(r, known).Ok? && r.output.Some?
    ensures r.status.Executed?
  {
  }

  lemma FrameFields(f: bytes, bound: nat, known: Known, r: Response)
    requires FromFrame(f, bound, known) == Ok(r)
    ensures |f| >= 76 && r.signature == f[|f| - 64..]
    ensures r.output.Some? ==> r.status.Executed?
    ensures Preimage(r, known) == Ok(Utf8(DOMAIN) + f[12..|f| - 64])
  {
    FrameOfUnframed(f, bound);
    var parts := Unframed(f, bound).value;
    BodyIsCanonical(parts.0, parts.1, known);
    if r.output.Some? {
      OutputMeansExecuted(r, known);
    }
  }

  /** An accepted frame is what the expected signer signed, byte for byte, for the expected request. */
  lemma AcceptedMeansSigned(f: bytes, bound: nat, known: Known, signer: string, verify: (bytes, bytes) -> bool,
                            digest: bytes, schema: Option<string>, maxOutput: nat, r: Response)
    requires Verified(f, bound, known, signer, verify, digest, schema, maxOutput) == Ok(r)
    ensures |f| >= 76 && verify(Utf8(DOMAIN) + f[12..|f| - 64], f[|f| - 64..])
    ensures r.signer == signer && r.digest == digest
    ensures r.output.Some? ==> |r.output.value| <= maxOutput && r.schema == schema
  {
    VerifiedParts(f, bound, known, signer, verify, digest, schema, maxOutput);
    FrameFields(f, bound, known, r);
  }

  /** The two limits are one: a body within its limit always makes a frame within the other. */
  lemma LimitsCoincide(r: Response, bound: nat, known: Known)
    requires bound >= MAX_FRAME
    ensures ToFrame(r, bound, known).Ok? <==> Canonical(r, known).Ok?
    ensures Canonical(r, known).Err? ==> ToFrame(r, bound, known) == Err(Canonical(r, known).error)
  {
  }

  /** No frame of the length it declares is refused for its declared length. */
  lemma DeclaredLimitIsImplied(f: bytes)
    requires 76 <= |f| <= MAX_FRAME && 12 + FromLittleEndian(f[8..12]) + 64 == |f|
    ensures FromLittleEndian(f[8..12]) <= MAX_BODY
  {
  }
}
