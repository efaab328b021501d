/** The closed catalogue of Gemini status codes (section 3.2 of the Gemini
    protocol specification, v0.16.1): the eighteen two-digit codes, the
    variant each one denotes and the fixed label the gateway shows for it. */
module StatusCatalog {
  import opened Wrappers

  /** An unsigned 8-bit value (Rust's `u8`). */
  type Byte = b: int | 0 <= b < 256

  datatype GeminiStatus =
    | Input
    | SensitiveInput
    | Success
    | TemporaryRedirect
    | PermanentRedirect
    | TemporaryFailure
    | ServerUnavailable
    | CGIError
    | ProxyError
    | SlowDown
    | PermanentFailure
    | NotFound
    | Gone
    | ProxyRequestRefused
    | BadRequest
    | ClientCertificateRequired
    | CertificateNotAuthorized
    | CertificateNotValid

  /** The codes the catalogue knows, written out independently of `FromU8`. */
  const KnownCodes: set<int> :=
    {10, 11, 20, 30, 31, 40, 41, 42, 43, 44, 50, 51, 52, 53, 59, 60, 61, 62}

  /** The enum discriminant of a status: its two-digit wire code. */
  function Code(s: GeminiStatus): (c: Byte)
    ensures c in KnownCodes
    ensures 10 <= c <= 62
  {
    match s
    case Input => 10
    case SensitiveInput => 11
    case Success => 20
    case TemporaryRedirect => 30
    case PermanentRedirect => 31
    case TemporaryFailure => 40
    case ServerUnavailable => 41
    case CGIError => 42
    case ProxyError => 43
    case SlowDown => 44
    case PermanentFailure => 50
    case NotFound => 51
    case Gone => 52
    case ProxyRequestRefused => 53
    case BadRequest => 59
    case ClientCertificateRequired => 60
    case CertificateNotAuthorized => 61
    case CertificateNotValid => 62
  }

  /** The status a byte denotes, if any: defined exactly on the known codes,
      and then the variant whose discriminant is that byte. */
  function FromU8(v: Byte): (r: Option<GeminiStatus>)
    ensures r.Some? <==> v in KnownCodes
    ensures r.Some? ==> Code(r.value) == v
  {
    match v
    case 10 => Some(Input)
    case 11 => Some(SensitiveInput)
    case 20 => Some(Success)
    case 30 => Some(TemporaryRedirect)
    case 31 => Some(PermanentRedirect)
    case 40 => Some(TemporaryFailure)
    case 41 => Some(ServerUnavailable)
    case 42 => Some(CGIError)
    case 43 => Some(ProxyError)
    case 44 => Some(SlowDown)
    case 50 => Some(PermanentFailure)
    case 51 => Some(NotFound)
    case 52 => Some(Gone)
    case 53 => Some(ProxyRequestRefused)
    case 59 => Some(BadRequest)
    case 60 => Some(ClientCertificateRequired)
    case 61 => Some(CertificateNotAuthorized)
    case 62 => Some(CertificateNotValid)
    case _ => None
  }

  /** The fixed human-readable label of a status. */
  function ToStr(s: GeminiStatus): (name: string)
  {
    match s
    case Input => "input"
    case SensitiveInput => "sensitive input"
    case Success => "success"
    case TemporaryRedirect => "temporary redirect"
    case PermanentRedirect => "permanent redirect"
    case TemporaryFailure => "temporary failure"
    case ServerUnavailable => "server unavailable"
    case CGIError => "CGI error"
    case ProxyError => "proxy error"
    case SlowDown => "slow down"
    case PermanentFailure => "permanent failure"
    case NotFound => "not found"
    case Gone => "gone"
    case ProxyRequestRefused => "proxy request refused"
    case BadRequest => "bad request"
    case ClientCertificateRequired => "client certificate required"
    case CertificateNotAuthorized => "certificate not authorized"
    case CertificateNotValid => "certificate not valid"
  }

  /** Decoding the discriminant of a status gives that status back. */
  lemma FromU8OfCode(s: GeminiStatus)
    ensures FromU8(Code(s)) == Some(s)
  {
    match s
    case Input =>
    case SensitiveInput =>
    case Success =>
    case TemporaryRedirect =>
    case PermanentRedirect =>
    case TemporaryFailure =>
    case ServerUnavailable =>
    case CGIError =>
    case ProxyError =>
    case SlowDown =>
    case PermanentFailure =>
    case NotFound =>
    case Gone =>
    case ProxyRequestRefused =>
    case BadRequest =>
    case ClientCertificateRequired =>
    case CertificateNotAuthorized =>
    case CertificateNotValid =>
  }

  /** Two statuses with the same code are the same status. */
  lemma CodeInjective(s: GeminiStatus, t: GeminiStatus)
    ensures Code(s) == Code(t) ==> s == t
  {
    FromU8OfCode(s);
    FromU8OfCode(t);
  }

  /** No two statuses share a label, so a label identifies its status. */
  lemma LabelsDistinct(s: GeminiStatus, t: GeminiStatus)
    ensures ToStr(s) == ToStr(t) ==> s == t
  {
    if ToStr(s) == ToStr(t) {
      assert |ToStr(s)| == |ToStr(t)| && ToStr(s)[0] == ToStr(t)[0];
    }
  }
}
