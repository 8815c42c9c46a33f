/** The codec as it runs: a growing buffer on the way out, a moving cursor on the way in. */
module ResponseCodec {
  import opened Bytes
  import opened Text
  import opened Wrappers
  import opened Seqs
  import opened ExecutionResponse

  // ----------------------------------------------------------------- encoding

  /** A byte string behind its length; a length over 32 bits does not fit. */
  method PutFramed(out: bytes, value: bytes) returns (r: Option<bytes>)
    ensures r == if |value| < TWO_32 then Some(out + Framed(value)) else None
  {
    if |value| >= TWO_32 { return None; }
    Assoc(out, LittleEndian(|value|, 4), value);
    return Some(out + LittleEndian(|value|, 4) + value);
  }

  method PutOptional(out: bytes, value: Option<bytes>) returns (r: Option<bytes>)
    ensures r == if value.None? || |value.value| < TWO_32 then Some(out + Optional(value)) else None
  {
    if value.None? { return Some(out + [0]); }
    r := PutFramed(out + [1], value.value);
    Assoc(out, [1], Framed(value.value));
  }

  method PutEnd(out: bytes, e: End) returns (r: Option<bytes>)
    ensures r.Some? ==> r.value == out + EndBytes(e)
    ensures r.None? ==> |EndBytes(e)| >= TWO_32
  {
    var context, receipt, schema := TextBytes(e.context), TextBytes(e.receipt), TextBytes(e.schema);
    var b :- PutOptional(out, context);
    b :- PutOptional(b, receipt);
    b :- PutOptional(b, schema);
    b :- PutOptional(b, e.output);
    r := PutFramed(b + [1], Utf8(e.signer));
    Flatten(out, Optional(context), Optional(receipt), Optional(schema), Optional(e.output), [1], Framed(Utf8(e.signer)));
  }

  lemma Flatten<T>(o: seq<T>, a: seq<T>, b: seq<T>, c: seq<T>, d: seq<T>, e: seq<T>, f: seq<T>)
    ensures o + a + b + c + d + e + f == o + (a + (b + (c + (d + (e + f)))))
  {
  }

  method PutStart(s: Start) returns (r: Option<bytes>)
    ensures r.Some? ==> forall tail :: r.value + tail == StartThen(s, tail)
    ensures r.None? ==> forall tail :: |StartThen(s, tail)| >= TWO_32
  {
    var reason := TextBytes(s.reason);
    var out := LittleEndian(s.version, 2) + [StatusByte(s.status)];
    var b :- PutOptional(out, reason);
    forall tail ensures b + s.digest + tail == StartThen(s, tail) {
      Flatten5(LittleEndian(s.version, 2), [StatusByte(s.status)], Optional(reason), s.digest, tail);
    }
    return Some(b + s.digest);
  }

  lemma Flatten5<T>(a: seq<T>, b: seq<T>, c: seq<T>, d: seq<T>, e: seq<T>)
    ensures a + b + c + d + e == a + (b + (c + (d + e)))
  {
  }

  method CanonicalBody(r: Response, known: Known) returns (body: Result<bytes, Error>)
    ensures body == Canonical(r, known)
  {
    var valid := Validate(r, known);
    if valid.Err? { return Err(valid.error); }
    var start := PutStart(StartOf(r));
    if start.None? { return Err(FrameTooLarge); }
    var b := PutEnd(start.value, EndOf(r));
    if b.None? {
      assert |start.value + EndBytes(EndOf(r))| == |Body(r)|;
      return Err(FrameTooLarge);
    }
    if |b.value| > MAX_BODY { return Err(FrameTooLarge); }
    return Ok(b.value);
  }

  method EncodeFrame(r: Response, bound: nat, known: Known) returns (frame: Result<bytes, Error>)
    ensures frame == ToFrame(r, bound, known)
  {
    var body :- CanonicalBody(r, known);
    if |MAGIC| + 4 + |body| + 64 > Smaller(bound, MAX_FRAME) { return Err(FrameTooLarge); }
    Assoc4(MAGIC, LittleEndian(|body|, 4), body, r.signature);
    return Ok(MAGIC + LittleEndian(|body|, 4) + body + r.signature);
  }

  // ----------------------------------------------------------------- decoding

  class Cursor {
    const b: bytes
    var offset: nat

    ghost predicate Valid() reads this { offset <= |b| }

    ghost function Rest(): bytes
      reads this
      requires Valid()
    {
      b[offset..]
    }

    constructor (b: bytes)
      ensures Valid() && this.b == b && Rest() == b
    {
      this.b := b;
      offset := 0;
    }

    method Take(n: nat) returns (r: Result<bytes, Error>)
      requires Valid()
      modifies this`offset
      ensures Valid() && r.Ok? == ReadBytes(old(Rest()), n).Ok?
      ensures r.Ok? ==> Read(r.value, Rest()) == ReadBytes(old(Rest()), n).value
      ensures r.Err? ==> r.error == MalformedFrame
    {
      if offset + n > |b| { return Err(MalformedFrame); }
      var value := b[offset..offset + n];
      assert b[offset..][..n] == value;
      DropTwice(b, offset, n);
      offset := offset + n;
      return Ok(value);
    }

    method U8() returns (r: Result<byte, Error>)
      requires Valid()
      modifies this`offset
      ensures Valid() && r.Ok? == ReadByte(old(Rest())).Ok?
      ensures r.Ok? ==> Read(r.value, Rest()) == ReadByte(old(Rest())).value
      ensures r.Err? ==> r.error == MalformedFrame
    {
      var t :- Take(1);
      return Ok(t[0]);
    }

    method U16() returns (r: Result<nat, Error>)
      requires Valid()
      modifies this`offset
      ensures Valid() && r.Ok? == ReadShort(old(Rest())).Ok?
      ensures r.Ok? ==> Read(r.value, Rest()) == ReadShort(old(Rest())).value
      ensures r.Err? ==> r.error == MalformedFrame
    {
      var t :- Take(2);
      return Ok(FromLittleEndian(t));
    }

    method FramedBytes() returns (r: Result<bytes, Error>)
      requires Valid()
      modifies this`offset
      ensures Valid() && r.Ok? == ReadFramed(old(Rest())).Ok?
      ensures r.Ok? ==> Read(r.value, Rest()) == ReadFramed(old(Rest())).value
      ensures r.Err? ==> r.error == MalformedFrame
    {
      var t :- Take(4);
      r := Take(FromLittleEndian(t));
    }

    method RequiredText() returns (r: Result<string, Error>)
      requires Valid()
      modifies this`offset
      ensures Valid() && r.Ok? == ReadText(old(Rest())).Ok?
      ensures r.Ok? ==> Read(r.value, Rest()) == ReadText(old(Rest())).value
      ensures r.Err? ==> ReadText(old(Rest())) == Err(r.error)
    {
      var f :- FramedBytes();
      var t := FromUtf8(f);
      return if t.Some? then Ok(t.value) else Err(InvalidUtf8);
    }

    method OptionalText() returns (r: Result<Option<string>, Error>)
      requires Valid()
      modifies this`offset
      ensures Valid() && r.Ok? == ReadOptionalText(old(Rest())).Ok?
      ensures r.Ok? ==> Read(r.value, Rest()) == ReadOptionalText(old(Rest())).value
      ensures r.Err? ==> ReadOptionalText(old(Rest())) == Err(r.error)
    {
      var tag :- U8();
      if tag == 0 { return Ok(None); }
      if tag != 1 { return Err(UnknownOptionTag); }
      var t :- RequiredText();
      return Ok(Some(t));
    }

    method OptionalBytes() returns (r: Result<Option<bytes>, Error>)
      requires Valid()
      modifies this`offset
      ensures Valid() && r.Ok? == ReadOptionalBytes(old(Rest())).Ok?
      ensures r.Ok? ==> Read(r.value, Rest()) == ReadOptionalBytes(old(Rest())).value
      ensures r.Err? ==> ReadOptionalBytes(old(Rest())) == Err(r.error)
    {
      var tag :- U8();
      if tag == 0 { return Ok(None); }
      if tag != 1 { return Err(UnknownOptionTag); }
      var f :- FramedBytes();
      return Ok(Some(f));
    }

    method StartFields() returns (r: Result<Start, Error>)
      requires Valid()
      modifies this`offset
      ensures Valid() && r.Ok? == ReadStart(old(Rest())).Ok?
      ensures r.Ok? ==> Read(r.value, Rest()) == ReadStart(old(Rest())).value
      ensures r.Err? ==> ReadStart(old(Rest())) == Err(r.error)
    {
      var version :- U16();
      if version != VERSION { return Err(UnknownVersion); }
      var tag :- U8();
      var status :- StatusOf(tag);
      var reason :- OptionalText();
      var digest :- Take(32);
      return Ok(Start(version, status, reason, digest));
    }

    method EndFields() returns (r: Result<End, Error>)
      requires Valid()
      modifies this`offset
      ensures Valid() && r == ReadEnd(old(Rest()))
    {
      var context :- OptionalText();
      var receipt :- OptionalText();
      var schema :- OptionalText();
      var output :- OptionalBytes();
      var kind :- U8();
      if kind != 1 { return Err(UnknownAuthenticator); }
      var signer :- RequiredText();
      if offset != |b| { return Err(MalformedFrame); }
      return Ok(End(context, receipt, schema, output, signer));
    }
  }

  method DecodeBody(body: bytes, signature: bytes, known: Known) returns (r: Result<Response, Error>)
    ensures r == FromBody(body, signature, known)
  {
    var cursor := new Cursor(body);
    var start :- cursor.StartFields();
    var end :- cursor.EndFields();
    var response := Assembled(start, end, signature);
    var valid := Validate(response, known);
    if valid.Err? { return Err(valid.error); }
    return Ok(response);
  }

  method Unframe(frame: bytes, bound: nat) returns (r: Result<(bytes, bytes), Error>)
    ensures r == Unframed(frame, bound)
  {
    if frame == [] { return Err(EmptyFrame); }
    if |frame| > Smaller(bound, MAX_FRAME) { return Err(FrameTooLarge); }
    if |frame| < 8 + 4 + 64 || frame[..8] != MAGIC { return Err(MalformedFrame); }
    var declared := FromLittleEndian(frame[8..12]);
    if declared > MAX_BODY { return Err(FrameTooLarge); }
    if 12 + declared + 64 != |frame| { return Err(MalformedFrame); }
    return Ok((frame[12..12 + declared], frame[12 + declared..]));
  }

  method DecodeFrame(frame: bytes, bound: nat, known: Known) returns (r: Result<Response, Error>)
    ensures r == FromFrame(frame, bound, known)
  {
    var parts :- Unframe(frame, bound);
    r := DecodeBody(parts.0, parts.1, known);
  }
}
