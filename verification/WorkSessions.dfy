/** Session attachment: derived session and link identifiers, with an absent link made explicit. */
module WorkSessions {
  import opened Text
  import opened Wrappers
  import opened JsonValue
  import opened WorkValues

  predicate Opaque(s: string) {
    && 0 < |s| <= 256
    && IsAlphanumeric(s[0])
    && forall i | 0 <= i < |s| :: IsAlphanumeric(s[i]) || s[i] in "._~-"
  }

  predicate Application(s: string) {
    && 0 < |s| <= 64
    && IsLower(s[0])
    && forall i | 0 <= i < |s| :: IsLower(s[i]) || IsDigit(s[i]) || s[i] == '-'
  }

  function IdentityText(app: string, source: string, native: string): string {
    "{\"application\":\"" + app + "\",\"external_session_id\":\"" + native
    + "\",\"source_instance_id\":\"" + source + "\"}"
  }

  /** The derived identifier of a session named by its application, instance and native identifier. */
  function Identity(env: Outside, v: Value): (r: Option<string>)
  {
    if !Exact(v, {"application", "source_instance_id", "external_session_id"}) then None
    else
      var app :- TextAt(v, "application");
      var source :- TextAt(v, "source_instance_id");
      var native :- TextAt(v, "external_session_id");
      if Application(app) && Opaque(source) && Opaque(native)
      then Some("sr-" + Hex(env.sha256(Utf8(IdentityText(app, source, native))))) else None
  }

  // ------------------------------------------------------------------- times

  predicate AllDigits(s: string) { forall i | 0 <= i < |s| :: IsDigit(s[i]) }

  function DaysIn(year: nat, month: nat): nat {
    if month == 2 then if year % 4 == 0 && (year % 100 != 0 || year % 400 == 0) then 29 else 28
    else if month in {4, 6, 9, 11} then 30
    else if month in {1, 3, 5, 7, 8, 10, 12} then 31
    else 0
  }

  predicate UtcBody(b: string) {
    && Ascii(b) && 19 <= |b| <= 26
    && b[4] == '-' && b[7] == '-' && b[10] == 'T' && b[13] == ':' && b[16] == ':'
    && AllDigits(b[0..4]) && AllDigits(b[5..7]) && AllDigits(b[8..10])
    && AllDigits(b[11..13]) && AllDigits(b[14..16]) && AllDigits(b[17..19])
    && (|b| > 19 ==> b[19] == '.' && |b| >= 21 && AllDigits(b[20..]))
    && DecimalValue(b[0..4]) > 0
    && 0 < DecimalValue(b[8..10]) <= DaysIn(DecimalValue(b[0..4]), DecimalValue(b[5..7]))
    && DecimalValue(b[11..13]) < 24 && DecimalValue(b[14..16]) < 60 && DecimalValue(b[17..19]) < 60
  }

  predicate Utc(s: string) {
    if s != "" && s[|s| - 1] == 'Z' then UtcBody(s[..|s| - 1])
    else |s| >= 6 && s[|s| - 6..] == "+00:00" && UtcBody(s[..|s| - 6])
  }

  // -------------------------------------------------------------- attachment

  const LINK_FIELDS := {"source_instance_id", "event_id", "attempt_id", "relation", "origin", "target", "observed_at", "basis"}

  function LinkText(source: string, event: string): string { "[\"" + source + "\",\"" + event + "\"]" }

  function LinkId(env: Outside, source: string, event: string): string {
    "sl-" + Hex(env.sha256(Utf8(LinkText(source, event))))
  }

  /** How sessions and their links are named. */
  datatype Naming = Naming(session: Value -> Option<string>, link: (string, string) -> string)

  function HashNaming(env: Outside): Naming {
    Naming(v => Identity(env, v), (source, event) => LinkId(env, source, event))
  }

  /** The texts of a link. */
  predicate LinkTexts(v: Value) {
    && Exact(v, LINK_FIELDS)
    && At(v, "source_instance_id").Str? && Opaque(At(v, "source_instance_id").s)
    && At(v, "event_id").Str? && Opaque(At(v, "event_id").s)
    && At(v, "attempt_id").Str? && Opaque(At(v, "attempt_id").s)
    && At(v, "observed_at").Str? && Utc(At(v, "observed_at").s)
    && At(v, "relation") in {Str("delegated_to"), Str("forked_from"), Str("uses_runtime")}
    && At(v, "basis") in {Str("declared"), Str("source_observed")}
  }

  /** The resources of a link of this session. */
  function Link(x: Naming, v: Value, session: string): (r: Option<set<string>>)
  {
    if !LinkTexts(v) then None
    else
      var origin :- x.session(At(v, "origin"));
      var target :- x.session(At(v, "target"));
      if origin == target || (session != origin && session != target) then None
      else Some({Resource("SessionLink", x.link(At(v, "source_instance_id").s, At(v, "event_id").s)),
                 Resource("SessionRef", origin), Resource("SessionRef", target)})
  }

  predicate AttachTexts(v: Value) {
    && At(v, "observed_at").Str? && Utc(At(v, "observed_at").s)
    && At(v, "basis") in {Str("inspected"), Str("declared_scope"), Str("source_observed")}
  }

  function AttachDetail(x: Naming, v: Value): (r: Option<set<string>>)
  {
    if !AttachTexts(v) then None
    else
      var session :- x.session(At(v, "session"));
      var more :- if At(v, "link") == Null then Some({}) else Link(x, At(v, "link"), session);
      Some({Resource("SessionRef", session)} + more)
  }

  const ATTACH_DEFAULTS := map["link" := Null]

  function Attach(x: Naming): Rule {
    Filling({"session", "observed_at", "basis"}, ATTACH_DEFAULTS, v => AttachDetail(x, v))
  }
}
