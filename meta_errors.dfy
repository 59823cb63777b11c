/**
 * The meta service's error taxonomy: `MetaError`, the narrower
 * `RetryableError` and `ShutdownError`, their renderings (the text their
 * `Display` produces) and the total conversions between `MetaError`, the
 * application-level `ErrorCode` and the decode failures of lower layers.
 *
 * Types owned by other crates are reduced to what this file uses of them:
 * `ErrorCode` and `SerializedError` to a numeric code and a message, the
 * opaque causes (`AnyError`, the transport error, the consensus library's
 * `ChangeMembershipError`, the JSON decode error) to their rendered text.
 */
module MetaErrors {
  import opened Primitives

  type NodeId = u64

  /**
   * Numeric code of `ErrorCode::MetaServiceError`. The code table lives in
   * common_exception; no property below depends on the value.
   */
  const MetaServiceErrorCode: u16 := 2001

  /** An application error (common_exception's `ErrorCode`), as code and message. */
  datatype ErrorCode = ErrorCode(code: u16, message: string)

  /** The serialisable carrier of an `ErrorCode` that crosses process boundaries. */
  datatype SerializedError = SerializedError(code: u16, message: string)

  /** A type-erased cause that keeps only its rendering. */
  datatype AnyError = AnyError(text: string)

  /** A failure of the network transport, known by its rendering. */
  datatype TransportError = TransportError(text: string)

  /** A rejected membership change reported by the consensus library, known by its rendering. */
  datatype ChangeMembershipError = ChangeMembershipError(text: string)

  /** A JSON decode failure, known by its rendering. */
  datatype JsonError = JsonError(text: string)

  /**
   * The standard library's UTF-8 decode failure: the length of the valid
   * prefix and, unless the input ended inside a sequence, the length of the
   * invalid sequence found there.
   */
  datatype Utf8Error = Utf8Error(validUpTo: nat, errorLen: Option<u8>)

  /** A failed conversion of a byte vector into a string. */
  datatype FromUtf8Error = FromUtf8Error(bytes: seq<u8>, error: Utf8Error)

  datatype ConnectionError = ConnectionError(msg: string, source: AnyError)

  datatype ForwardToLeader = ForwardToLeader(leader: Option<NodeId>)

  datatype InvalidMembership = InvalidMembership

  /** Top level error a meta node returns. */
  datatype MetaError =
    | ForwardToLeader(forward: ForwardToLeader)
    | ChangeMembershipError(membership: ChangeMembershipError)
    | ConnectionError(connection: ConnectionError)
    | ErrorCode(serialized: SerializedError)
    | UnknownError(unknown: string)
    | InvalidConfig(config: string)
    | MetaStoreAlreadyExists(id: u64)
    | MetaStoreNotFound
    | SerdeJsonError(json: string)
    | MetaStoreDamaged(damage: string)
    | BadBytes(badBytes: string)

  /** Errors a write path returns to make the client retry; the leader is always known. */
  datatype RetryableError = ForwardToLeader(leader: NodeId)

  /** The signal storage raises to shut the consensus node down. */
  datatype ShutdownError = UnsafeStorageError

  // Fixed parts of the renderings.
  const AlreadyExistsPrefix := "raft state present id="
  const AlreadyExistsSuffix := ", can not create"
  const NotFoundText := "raft state absent, can not open"
  const SerdeJsonPrefix := "serde_json error: "
  const BadBytesPrefix := "Bad bytes, cannot parse bytes with UTF8, cause: "
  const ForwardToLeaderPrefix := "ForwardToLeader: "
  const RetryablePrefix := "request must be forwarded to leader: "

  // ---------------------------------------------------------------------
  // Renderings
  // ---------------------------------------------------------------------

  function RenderAnyError(e: AnyError): string {
    e.text
  }

  function RenderChangeMembershipError(e: ChangeMembershipError): string {
    e.text
  }

  function RenderJsonError(e: JsonError): string {
    e.text
  }

  /** The message of a `SerializedError`; its own format is not part of this model. */
  function RenderSerializedError(e: SerializedError): string {
    e.message
  }

  /** The standard library's rendering of a UTF-8 decode failure. */
  function RenderUtf8Error(e: Utf8Error): string {
    match e.errorLen
    case Some(len) =>
      "invalid utf-8 sequence of " + Decimal(len as nat) + " bytes from index " + Decimal(e.validUpTo)
    case None =>
      "incomplete utf-8 byte sequence from index " + Decimal(e.validUpTo)
  }

  function RenderFromUtf8Error(e: FromUtf8Error): string {
    RenderUtf8Error(e.error)
  }

  /** `ConnectionError: <msg> source: <cause>`: the message, then the cause's text. */
  function RenderConnectionError(e: ConnectionError): (r: string)
    ensures "ConnectionError: " <= r
    ensures r[|"ConnectionError: "|..] == e.msg + " source: " + e.source.text
  {
    "ConnectionError: " + e.msg + " source: " + RenderAnyError(e.source)
  }

  /**
   * `ForwardToLeader: ` followed by the `{:?}` of the optional leader; the
   * text tells "no known leader" apart from a concrete one.
   */
  function RenderForwardToLeader(e: ForwardToLeader): (r: string)
    ensures ForwardToLeaderPrefix <= r
    ensures r == ForwardToLeaderPrefix + "None" <==> e.leader.None?
  {
    ForwardToLeaderPrefix + DebugOptionU64(e.leader)
  }

  function RenderInvalidMembership(e: InvalidMembership): (r: string)
    ensures r == "InvalidMembership"
  {
    "InvalidMembership"
  }

  /**
   * `MetaError`'s `Display`: the transparent variants show their inner
   * error, the message-carrying variants show their message, and the
   * remaining ones follow their fixed formats.
   */
  function RenderMetaError(e: MetaError): (r: string)
    ensures e.ForwardToLeader? ==> r == RenderForwardToLeader(e.forward)
    ensures e.ChangeMembershipError? ==> r == e.membership.text
    ensures e.ConnectionError? ==> r == RenderConnectionError(e.connection)
    ensures e.ErrorCode? ==> r == e.serialized.message
    ensures e.UnknownError? ==> r == e.unknown
    ensures e.InvalidConfig? ==> r == e.config
    ensures e.MetaStoreDamaged? ==> r == e.damage
    ensures e.BadBytes? ==> r == e.badBytes
    ensures e.MetaStoreAlreadyExists? ==>
      && AlreadyExistsPrefix <= r
      && |r| > |AlreadyExistsPrefix| + |AlreadyExistsSuffix|
      && r[|r| - |AlreadyExistsSuffix|..] == AlreadyExistsSuffix
      && AllDigits(r[|AlreadyExistsPrefix|..|r| - |AlreadyExistsSuffix|])
    ensures e.MetaStoreNotFound? ==> r == NotFoundText
    ensures e.SerdeJsonError? ==> SerdeJsonPrefix <= r && r[|SerdeJsonPrefix|..] == e.json
  {
    match e
    case ForwardToLeader(f) => RenderForwardToLeader(f)
    case ChangeMembershipError(c) => RenderChangeMembershipError(c)
    case ConnectionError(c) => RenderConnectionError(c)
    case ErrorCode(s) => RenderSerializedError(s)
    case UnknownError(m) => m
    case InvalidConfig(m) => m
    case MetaStoreAlreadyExists(id) =>
      var d := Decimal(id as nat);
      var r := AlreadyExistsPrefix + d + AlreadyExistsSuffix;
      assert r[|AlreadyExistsPrefix|..|r| - |AlreadyExistsSuffix|] == d;
      r
    case MetaStoreNotFound => NotFoundText
    case SerdeJsonError(m) => SerdeJsonPrefix + m
    case MetaStoreDamaged(m) => m
    case BadBytes(m) => m
  }

  /** `request must be forwarded to leader: ` followed by the leader's decimal id. */
  function RenderRetryableError(e: RetryableError): (r: string)
    ensures RetryablePrefix <= r && |r| > |RetryablePrefix|
    ensures AllDigits(r[|RetryablePrefix|..])
  {
    var r := RetryablePrefix + Decimal(e.leader as nat);
    assert r[|RetryablePrefix|..] == Decimal(e.leader as nat);
    r
  }

  function RenderShutdownError(e: ShutdownError): (r: string)
    ensures r == "unsafe storage error"
  {
    "unsafe storage error"
  }

  // ---------------------------------------------------------------------
  // Conversions
  // ---------------------------------------------------------------------

  /** `SerializedError::from(ErrorCode)`: keeps the code and the message. */
  function SerializeErrorCode(e: ErrorCode): (s: SerializedError)
    ensures s.code == e.code && s.message == e.message
  {
    SerializedError(e.code, e.message)
  }

  /** `ErrorCode::from(SerializedError)`: rebuilds the error from its code and message. */
  function DeserializeErrorCode(s: SerializedError): (e: ErrorCode)
    ensures e.code == s.code && e.message == s.message
  {
    ErrorCode.ErrorCode(s.code, s.message)
  }

  /** `From<ErrorCode> for MetaError`: wraps the application error. */
  function FromErrorCode(e: ErrorCode): (m: MetaError)
    ensures m.ErrorCode? && m.serialized.code == e.code && m.serialized.message == e.message
  {
    MetaError.ErrorCode(SerializeErrorCode(e))
  }

  /**
   * `From<MetaError> for ErrorCode`, total over every variant: the wrapped
   * application error is unwrapped, anything else becomes a meta service
   * error carrying the rendered text.
   */
  function ToErrorCode(e: MetaError): (c: ErrorCode)
    ensures e.ErrorCode? ==> c.code == e.serialized.code && c.message == e.serialized.message
    ensures !e.ErrorCode? ==> c.code == MetaServiceErrorCode && c.message == RenderMetaError(e)
  {
    match e
    case ErrorCode(s) => DeserializeErrorCode(s)
    case _ => ErrorCode.ErrorCode(MetaServiceErrorCode, RenderMetaError(e))
  }

  /** `From<serde_json::Error> for MetaError`. */
  function FromJsonError(e: JsonError): (m: MetaError)
    ensures m.SerdeJsonError? && m.json == RenderJsonError(e)
    ensures RenderMetaError(m) == SerdeJsonPrefix + RenderJsonError(e)
  {
    MetaError.SerdeJsonError(RenderJsonError(e))
  }

  /** `From<FromUtf8Error> for MetaError`. */
  function FromUtf8(e: FromUtf8Error): (m: MetaError)
    ensures m.BadBytes?
    ensures RenderMetaError(m) == BadBytesPrefix + RenderFromUtf8Error(e)
  {
    MetaError.BadBytes(BadBytesPrefix + RenderFromUtf8Error(e))
  }

  /** `ConnectionError::new`: type-erases the transport failure, keeping its rendering. */
  function NewConnectionError(source: TransportError, msg: string): (c: ConnectionError)
    ensures c.msg == msg
    ensures RenderConnectionError(c) == "ConnectionError: " + msg + " source: " + source.text
  {
    ConnectionError.ConnectionError(msg, AnyError(source.text))
  }

  // ---------------------------------------------------------------------
  // Properties
  // ---------------------------------------------------------------------

  /** An application error survives the trip into `MetaError` and back unchanged. */
  lemma ErrorCodeRoundTrip(e: ErrorCode)
    ensures ToErrorCode(FromErrorCode(e)) == e
  {
  }

  /** A wrapped application error survives the trip out of `MetaError` and back. */
  lemma WrappedErrorCodeRoundTrip(m: MetaError)
    requires m.ErrorCode?
    ensures FromErrorCode(ToErrorCode(m)) == m
  {
  }

  /** Every variant but `ErrorCode` collapses to a meta service error with its rendered text. */
  lemma NonErrorCodeCollapses(m: MetaError)
    requires !m.ErrorCode?
    ensures ToErrorCode(m) == ErrorCode.ErrorCode(MetaServiceErrorCode, RenderMetaError(m))
    ensures FromErrorCode(ToErrorCode(m)).ErrorCode? && FromErrorCode(ToErrorCode(m)) != m
  {
  }

  /**
   * The collapse loses information: different errors reach the application
   * as the same `ErrorCode`. The four variants that display their message
   * alone cannot be told apart, and a JSON failure looks like an unknown
   * error whose message starts with `serde_json error: `.
   */
  lemma ToErrorCodeNotInjective(s: string)
    ensures ToErrorCode(UnknownError(s)) == ToErrorCode(InvalidConfig(s))
    ensures ToErrorCode(UnknownError(s)) == ToErrorCode(MetaStoreDamaged(s))
    ensures ToErrorCode(UnknownError(s)) == ToErrorCode(BadBytes(s))
    ensures ToErrorCode(SerdeJsonError(s)) == ToErrorCode(UnknownError(SerdeJsonPrefix + s))
  {
  }

  /** A UTF-8 failure reaches the application as a meta service error with the fixed prefix. */
  lemma Utf8FailureMessage(e: FromUtf8Error)
    ensures ToErrorCode(FromUtf8(e)) == ErrorCode.ErrorCode(MetaServiceErrorCode, BadBytesPrefix + RenderFromUtf8Error(e))
    ensures RenderFromUtf8Error(e) == ToErrorCode(FromUtf8(e)).message[|BadBytesPrefix|..]
  {
  }

  /** A JSON failure reaches the application as a meta service error prefixed `serde_json error: `. */
  lemma JsonFailureMessage(e: JsonError)
    ensures ToErrorCode(FromJsonError(e)) == ErrorCode.ErrorCode(MetaServiceErrorCode, SerdeJsonPrefix + e.text)
  {
  }

  /**
   * The fixed renderings of the storage lifecycle errors; the id in
   * `MetaStoreAlreadyExists` can be read back from its text.
   */
  lemma StoreLifecycleRenderings(id: u64)
    ensures RenderMetaError(MetaStoreNotFound) == "raft state absent, can not open"
    ensures var s := RenderMetaError(MetaStoreAlreadyExists(id));
      && |s| > |AlreadyExistsPrefix| + |AlreadyExistsSuffix|
      && s[..|AlreadyExistsPrefix|] == "raft state present id="
      && s[|s| - |AlreadyExistsSuffix|..] == ", can not create"
      && AllDigits(s[|AlreadyExistsPrefix|..|s| - |AlreadyExistsSuffix|])
      && DigitsValue(s[|AlreadyExistsPrefix|..|s| - |AlreadyExistsSuffix|]) == id as nat
  {
    var d := Decimal(id as nat);
    var s := RenderMetaError(MetaStoreAlreadyExists(id));
    assert s == AlreadyExistsPrefix + d + AlreadyExistsSuffix;
    assert s[|AlreadyExistsPrefix|..|s| - |AlreadyExistsSuffix|] == d;
    DecimalRoundTrip(id as nat);
  }

  /** Two stores with different ids give different `MetaStoreAlreadyExists` texts. */
  lemma AlreadyExistsDistinguishesIds(a: u64, b: u64)
    requires a != b
    ensures RenderMetaError(MetaStoreAlreadyExists(a)) != RenderMetaError(MetaStoreAlreadyExists(b))
  {
    var da, db := Decimal(a as nat), Decimal(b as nat);
    var sa, sb := RenderMetaError(MetaStoreAlreadyExists(a)), RenderMetaError(MetaStoreAlreadyExists(b));
    if sa == sb {
      assert sa[|AlreadyExistsPrefix|..|sa| - |AlreadyExistsSuffix|] == da;
      assert sb[|AlreadyExistsPrefix|..|sb| - |AlreadyExistsSuffix|] == db;
      DecimalInjective(a as nat, b as nat);
    }
  }

  /**
   * The transparent variants reach the application with exactly their inner
   * error's text; a connection error as `ConnectionError: <msg> source: <cause>`.
   */
  lemma TransparentRenderings(f: ForwardToLeader, c: ChangeMembershipError, source: TransportError, msg: string)
    ensures ToErrorCode(MetaError.ForwardToLeader(f)).message == RenderForwardToLeader(f)
    ensures ToErrorCode(MetaError.ChangeMembershipError(c)).message == c.text
    ensures ToErrorCode(MetaError.ConnectionError(NewConnectionError(source, msg))).message
      == "ConnectionError: " + msg + " source: " + source.text
  {
  }

  /**
   * `MetaError`'s `ForwardToLeader` may lack a leader, and then says so;
   * when it has one, its text names it.
   */
  lemma ForwardToLeaderRendering(f: ForwardToLeader)
    ensures f.leader.None? ==> RenderForwardToLeader(f) == "ForwardToLeader: None"
    ensures f.leader.Some? ==>
      var s := RenderForwardToLeader(f);
      var digits := s[|"ForwardToLeader: Some("|..|s| - 1];
      && |s| > |"ForwardToLeader: Some("| + 1
      && s[..|"ForwardToLeader: Some("|] == "ForwardToLeader: Some("
      && s[|s| - 1] == ')'
      && AllDigits(digits)
      && DigitsValue(digits) == f.leader.value as nat
    ensures f.leader.Some? ==> RenderForwardToLeader(f) != RenderForwardToLeader(ForwardToLeader.ForwardToLeader(None))
  {
    if f.leader.Some? {
      var n := f.leader.value as nat;
      var s := RenderForwardToLeader(f);
      assert s == "ForwardToLeader: Some(" + Decimal(n) + ")";
      assert s[|"ForwardToLeader: Some("|..|s| - 1] == Decimal(n);
      DecimalRoundTrip(n);
    }
  }

  /**
   * A `RetryableError::ForwardToLeader` always names a concrete leader: its
   * text ends in the leader's decimal id, which reads back as that leader.
   */
  lemma RetryableNamesLeader(r: RetryableError)
    ensures var s := RenderRetryableError(r);
      && |s| > |RetryablePrefix|
      && s[..|RetryablePrefix|] == "request must be forwarded to leader: "
      && AllDigits(s[|RetryablePrefix|..])
      && DigitsValue(s[|RetryablePrefix|..]) == r.leader as nat
  {
    var s := RenderRetryableError(r);
    assert s[|RetryablePrefix|..] == Decimal(r.leader as nat);
    DecimalRoundTrip(r.leader as nat);
  }

  /** Retryable errors for different leaders are told apart by their text. */
  lemma RetryableDistinguishesLeaders(a: RetryableError, b: RetryableError)
    requires a != b
    ensures RenderRetryableError(a) != RenderRetryableError(b)
  {
    RetryableNamesLeader(a);
    RetryableNamesLeader(b);
  }

  /** The shutdown signal has its fixed text, which no storage-lifecycle error shares. */
  lemma ShutdownRendering(e: ShutdownError)
    ensures RenderShutdownError(e) == "unsafe storage error"
    ensures RenderShutdownError(e) != RenderMetaError(MetaStoreNotFound)
    ensures forall id: u64 :: RenderShutdownError(e) != RenderMetaError(MetaStoreAlreadyExists(id))
  {
    forall id: u64 ensures RenderShutdownError(e) != RenderMetaError(MetaStoreAlreadyExists(id)) {
      assert RenderMetaError(MetaStoreAlreadyExists(id))[0] == 'r';
    }
  }
}
