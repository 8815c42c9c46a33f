/** The receiver-signed execution response: state rules, canonical body and frame. */
module ExecutionResponse {
  import opened Bytes
  import opened Text
  import opened Wrappers
  import opened Seqs

  const VERSION := 1
  const MAGIC: bytes := [0x53, 0x45, 0x43, 0x53, 0x45, 0x58, 0x31, 0x00]
  const MAX_FRAME := 266_240
  const MAX_BODY := 266_164
  const DOMAIN := "secs-execution-response-v1/signature"

  const EXECUTION_REASONS := [
    "handler_output_missing", "handler_output_unexpected", "output_too_large", "execution_response_too_large",
    "handler_unavailable", "handler_timeout", "handler_rejected", "payload_too_large", "permission_denied",
    "permission_expired", "permission_revoked", "permission_resource_mismatch", "permission_operation_mismatch",
    "permission_opcode_mismatch", "permission_subject_mismatch", "scoped_nullifier_storage_failed",
    "duplicate_nullifier", "missing_scoped_nullifier", "unsupported_nullifier_scope", "nullifier_domain_mismatch",
    "malformed_packet", "expired_claim", "claim_ttl_exceeds_descriptor_max", "invalid_session",
    "missing_prototype_proof_envelope", "bad_prototype_proof_envelope", "missing_tunnel_key", "bad_mac",
    "unknown_operation", "prototype_operation_not_production_authorized", "wrong_audience", "wrong_subject",
    "wrong_origin", "wrong_operation", "wrong_resource", "resource_lock_violation", "authority_amplification",
    "insufficient_evidence", "invalid_presentation", "invalid_signature", "not_yet_valid_claim",
    "unsupported_signature_suite", "unknown_issuer", "wrong_issuer_key", "wrong_trust_root", "wrong_registry_root",
    "wrong_root", "wrong_epoch", "stale", "revoked", "not_final", "equivocated", "malformed", "unsupported_suite",
    "wrong_binding", "missing_status", "missing_revocation_root", "wrong_revocation_root",
    "unsupported_revocation_verifier", "unsupported_bls_threshold_finality", "unsupported_rotated_replay_verifier",
    "missing_live_dregg_verifier", "missing_live_dregg_revocation_verifier",
    "missing_live_dregg_bls_threshold_verifier", "missing_live_dregg_rotated_replay_verifier",
    "evidence_tier_too_weak", "unsupported_evidence_kind", "unsupported_evidence_tier", "unsupported_authority_mode",
    "authority_mode_downgrade", "reserved_authority_mode", "stale_dregg_revocation_root",
    "invalid_dregg_revocation_proof", "invalid_dregg_finality_qc", "unsupported_dregg_finality_committee",
    "invalid_dregg_rotated_proof", "invalid_admission", "revoked_issuer", "revoked_credential",
    "stale_registry_status", "unknown_verifier_key", "revoked_verifier_key", "expired_verifier_key",
    "not_yet_valid_verifier_key", "untrusted_verifier_key", "bad_caller_proof", "unknown_caller_key",
    "revoked_caller_key", "expired_caller_key", "not_yet_valid_caller_key", "missing_caller_registry",
    "privacy_policy_violation", "over_disclosed_presentation", "forbidden_field_present", "internal_error"
  ]

  datatype Status = VerifierRejected | ExecutionRejected | Executed

  /** A response; the authenticator has one kind only. */
  datatype Response = Response(
    version: nat, status: Status, reason: Option<string>, digest: bytes, context: Option<string>,
    receipt: Option<string>, schema: Option<string>, output: Option<bytes>, signer: string, signature: bytes)

  /** The fixed-size parts have their sizes. */
  predicate Shaped(r: Response) { r.version < TWO_16 && |r.digest| == 32 && |r.signature| == 64 }

  datatype Error =
    | EmptyFrame | FrameTooLarge | MalformedFrame | UnknownVersion | UnknownStatus | UnknownAuthenticator
    | UnknownOptionTag | InvalidUtf8 | InvalidState | UnknownReason | AuthenticationFailed

  // -------------------------------------------------------------------- state

  predicate Said(t: Option<string>) { t.Some? && t.value != "" }

  predicate StateOk(r: Response) {
    match r.status
    case VerifierRejected => Said(r.reason) && r.schema.None? && r.output.None?
    case ExecutionRejected => Said(r.reason) && Said(r.context) && Said(r.receipt) && r.schema.None? && r.output.None?
    case Executed => r.reason.None? && Said(r.context) && Said(r.receipt) && Said(r.schema) && r.output.Some?
  }

  /** Which reasons an execution may be rejected for. */
  type Known = string -> bool

  predicate ExecutionReason(t: string) { t in EXECUTION_REASONS }

  function Validate(r: Response, known: Known): Result<(), Error> {
    if r.version != VERSION then Err(UnknownVersion)
    else if r.signer == "" || !StateOk(r) then Err(InvalidState)
    else if r.status.ExecutionRejected? && !known(r.reason.value) then Err(UnknownReason)
    else Ok(())
  }

  // ------------------------------------------------------------------- fields

  function Framed(value: bytes): bytes { Prefixed(value, 4) }

  function Optional(value: Option<bytes>): bytes { if value.None? then [0] else [1] + Framed(value.value) }

  function TextBytes(t: Option<string>): Option<bytes> { if t.None? then None else Some(Utf8(t.value)) }

  function StatusByte(s: Status): byte {
    match s
    case VerifierRejected => 0
    case ExecutionRejected => 1
    case Executed => 2
  }

  /** The fields up to the digest, and the fields after it. */
  datatype Start = Start(version: nat, status: Status, reason: Option<string>, digest: bytes)

  datatype End = End(context: Option<string>, receipt: Option<string>, schema: Option<string>, output: Option<bytes>, signer: string)

  function StartOf(r: Response): Start { Start(r.version, r.status, r.reason, r.digest) }

  function EndOf(r: Response): End { End(r.context, r.receipt, r.schema, r.output, r.signer) }

  function Assembled(s: Start, e: End, signature: bytes): Response {
    Response(s.version, s.status, s.reason, s.digest, e.context, e.receipt, e.schema, e.output, e.signer, signature)
  }

  function StartThen(s: Start, tail: bytes): bytes {
    LittleEndian(s.version, 2) + ([StatusByte(s.status)] + (Optional(TextBytes(s.reason)) + (s.digest + tail)))
  }

  function EndBytes(e: End): bytes {
    Optional(TextBytes(e.context)) + (Optional(TextBytes(e.receipt)) + (Optional(TextBytes(e.schema))
    + (Optional(e.output) + ([1] + Framed(Utf8(e.signer))))))
  }

  function Body(r: Response): bytes { StartThen(StartOf(r), EndBytes(EndOf(r))) }

  /** The body that is signed: a valid state, within the size limit. */
  function Canonical(r: Response, known: Known): Result<bytes, Error> {
    var _ :- Validate(r, known);
    if |Body(r)| > MAX_BODY then Err(FrameTooLarge) else Ok(Body(r))
  }

  function Preimage(r: Response, known: Known): Result<bytes, Error> {
    var body :- Canonical(r, known);
    Ok(Utf8(DOMAIN) + body)
  }

  function Smaller(a: nat, b: nat): nat { if a < b then a else b }

  function ToFrame(r: Response, bound: nat, known: Known): Result<bytes, Error> {
    var body :- Canonical(r, known);
    if 12 + |body| + 64 > Smaller(bound, MAX_FRAME) then Err(FrameTooLarge) else Ok(FrameOf(body, r.signature))
  }

  function FrameOf(body: bytes, signature: bytes): bytes { MAGIC + (LittleEndian(|body|, 4) + (body + signature)) }

  // ------------------------------------------------------------------ readers

  function ReadBytes(b: bytes, n: nat): (r: Result<Read<bytes>, Error>)
    ensures r.Ok? ==> |r.value.value| == n && r.value.value + r.value.rest == b
    ensures r.Err? ==> r.error == MalformedFrame && |b| < n
  {
    if n <= |b| then Ok(Read(b[..n], b[n..])) else Err(MalformedFrame)
  }

  function ReadByte(b: bytes): (r: Result<Read<byte>, Error>)
    ensures r.Ok? ==> [r.value.value] + r.value.rest == b
  {
    if b == [] then Err(MalformedFrame) else Ok(Read(b[0], b[1..]))
  }

  function ReadShort(b: bytes): (r: Result<Read<nat>, Error>)
    ensures r.Ok? ==> r.value.value < TWO_16 && LittleEndian(r.value.value, 2) + r.value.rest == b
  {
    Widths();
    var n := ReadNat(b, 2);
    if n.Some? then Ok(n.value) else Err(MalformedFrame)
  }

  function ReadFramed(b: bytes): (r: Result<Read<bytes>, Error>)
    ensures r.Ok? ==> |r.value.value| < TWO_32 && Framed(r.value.value) + r.value.rest == b
  {
    Widths();
    var f := ReadPrefixed(b, 4);
    if f.Some? then Ok(f.value) else Err(MalformedFrame)
  }

  function ReadText(b: bytes): (r: Result<Read<string>, Error>)
    ensures r.Ok? ==> |Utf8(r.value.value)| < TWO_32 && Framed(Utf8(r.value.value)) + r.value.rest == b
  {
    var f :- ReadFramed(b);
    var t := FromUtf8(f.value);
    if t.Some? then Ok(Read(t.value, f.rest)) else Err(InvalidUtf8)
  }

  function ReadOptionalText(b: bytes): (r: Result<Read<Option<string>>, Error>)
    ensures r.Ok? ==> Optional(TextBytes(r.value.value)) + r.value.rest == b
  {
    var tag :- ReadByte(b);
    if tag.value == 0 then Ok(Read(None, tag.rest))
    else if tag.value == 1 then
      var t :- ReadText(tag.rest);
      Assoc([1], Framed(Utf8(t.value)), t.rest);
      Ok(Read(Some(t.value), t.rest))
    else Err(UnknownOptionTag)
  }

  function ReadOptionalBytes(b: bytes): (r: Result<Read<Option<bytes>>, Error>)
    ensures r.Ok? ==> Optional(r.value.value) + r.value.rest == b
  {
    var tag :- ReadByte(b);
    if tag.value == 0 then Ok(Read(None, tag.rest))
    else if tag.value == 1 then
      var f :- ReadFramed(tag.rest);
      Assoc([1], Framed(f.value), f.rest);
      Ok(Read(Some(f.value), f.rest))
    else Err(UnknownOptionTag)
  }

  function StatusOf(b: byte): (r: Result<Status, Error>)
    ensures r.Ok? ==> StatusByte(r.value) == b
  {
    if b == 0 then Ok(VerifierRejected) else if b == 1 then Ok(ExecutionRejected)
    else if b == 2 then Ok(Executed) else Err(UnknownStatus)
  }

  // ------------------------------------------------------------------- bodies

  function ReadStart(b: bytes): (r: Result<Read<Start>, Error>)
    ensures r.Ok? ==> r.value.value.version == VERSION && |r.value.value.digest| == 32
    ensures r.Ok? ==> StartThen(r.value.value, r.value.rest) == b
  {
    var version :- ReadShort(b);
    if version.value != VERSION then Err(UnknownVersion)
    else
      var tag :- ReadByte(version.rest);
      var status :- StatusOf(tag.value);
      var reason :- ReadOptionalText(tag.rest);
      var digest :- ReadBytes(reason.rest, 32);
      Ok(Read(Start(version.value, status, reason.value, digest.value), digest.rest))
  }

  function ReadEnd(b: bytes): (r: Result<End, Error>)
    ensures r.Ok? ==> EndBytes(r.value) == b
  {
    var context :- ReadOptionalText(b);
    var receipt :- ReadOptionalText(context.rest);
    var schema :- ReadOptionalText(receipt.rest);
    var output :- ReadOptionalBytes(schema.rest);
    var kind :- ReadByte(output.rest);
    if kind.value != 1 then Err(UnknownAuthenticator)
    else
      var signer :- ReadText(kind.rest);
      if signer.rest != [] then Err(MalformedFrame)
      else
        assert Framed(Utf8(signer.value)) + [] == Framed(Utf8(signer.value));
        Ok(End(context.value, receipt.value, schema.value, output.value, signer.value))
  }

  function FromBody(body: bytes, signature: bytes, known: Known): (r: Result<Response, Error>)
  {
    var start :- ReadStart(body);
    var end :- ReadEnd(start.rest);
    var response := Assembled(start.value, end, signature);
    var _ :- Validate(response, known);
    Ok(response)
  }

  /** The body and signature of a frame of the right size. */
  function Unframed(frame: bytes, bound: nat): (r: Result<(bytes, bytes), Error>)
    ensures r.Ok? ==> |r.value.0| <= MAX_BODY && |r.value.1| == 64
  {
    if frame == [] then Err(EmptyFrame)
    else if |frame| > Smaller(bound, MAX_FRAME) then Err(FrameTooLarge)
    else if |frame| < 76 || frame[..8] != MAGIC then Err(MalformedFrame)
    else
      var declared := FromLittleEndian(frame[8..12]);
      if declared > MAX_BODY then Err(FrameTooLarge)
      else if 12 + declared + 64 != |frame| then Err(MalformedFrame)
      else Ok((frame[12..12 + declared], frame[12 + declared..]))
  }

  function FromFrame(frame: bytes, bound: nat, known: Known): (r: Result<Response, Error>)
  {
    var parts :- Unframed(frame, bound);
    FromBody(parts.0, parts.1, known)
  }

  /** A decoded response whose signature, signer, digest, output schema and output size are as expected. */
  function Verified(frame: bytes, bound: nat, known: Known, signer: string, verify: (bytes, bytes) -> bool,
                    digest: bytes, schema: Option<string>, maxOutput: nat): (r: Result<Response, Error>)
  {
    var d := FromFrame(frame, bound, known);
    if d.Err? then Err(AuthenticationFailed)
    else
      var r := d.value;
      var preimage := Preimage(r, known);
      if r.signer != signer || preimage.Err? || !verify(preimage.value, r.signature) then Err(AuthenticationFailed)
      else if r.digest != digest || (r.status.Executed? && r.schema != schema)
              || (r.output.Some? && |r.output.value| > maxOutput) then Err(AuthenticationFailed)
      else Ok(r)
  }
}
