/** Decoding of a raw Gemini response buffer into status, meta text and body,
    following the `<STATUS><SPACE><META><CR><LF>` header framing of section 3.1
    of the Gemini protocol specification (v0.16.1). */
module Response {
  import opened Wrappers
  import opened StatusCatalog

  const CR: Byte := 0x0D
  const LF: Byte := 0x0A
  const SP: Byte := 0x20
  const ZERO: Byte := 0x30

  /** The decoded response: status, meta text (`info`) and raw body. */
  datatype GeminiResponse = GeminiResponse(status: GeminiStatus, info: string, body: seq<Byte>)

  /** The ways a buffer fails to decode; each replaces a panic of the decoder. */
  datatype DecodeError =
    | TooShort              // fewer than 4 bytes
    | NonDigitStatus        // byte 0 or byte 1 is not an ASCII digit
    | UnknownStatus(code: int)
    | MissingCrlf           // no CR LF at or after the start of the meta text

  predicate IsDigit(b: Byte) { ZERO <= b <= ZERO + 9 }

  /** Rust's wrapping `u8` arithmetic: the result modulo 256. */
  function WrapU8(n: int): (r: Byte)
    ensures 0 <= n < 256 ==> r == n
  {
    n % 256
  }

  /** The status value as the decoder computes it: `(d1 - 0x30) * 10 + (d2 - 0x30)`
      in `u8` arithmetic, with no check that the bytes are digits. */
  function StatusValueAsWritten(d1: Byte, d2: Byte): (v: Byte)
    ensures IsDigit(d1) && IsDigit(d2) ==> v == (d1 - ZERO) * 10 + (d2 - ZERO)
  {
    WrapU8(WrapU8(WrapU8(d1 - ZERO) * 10) + WrapU8(d2 - ZERO))
  }

  /** The unchecked arithmetic lets a non-digit status line through: "1:" is
      read as 1 * 10 + 10 = 20, a success, with no overflow on the way. */
  lemma NonDigitStatusAccepted()
    ensures !IsDigit(':' as int) && IsDigit('1' as int)
    ensures FromU8(StatusValueAsWritten('1' as int, ':' as int)) == Some(Success)
  {
  }

  /** The status named by the two leading bytes, rejecting non-digits. */
  function DecodeStatus(d1: Byte, d2: Byte): (r: Result<GeminiStatus, DecodeError>)
    ensures r.Ok? <==> IsDigit(d1) && IsDigit(d2) && (d1 - ZERO) * 10 + (d2 - ZERO) in KnownCodes
    ensures r.Ok? ==> Code(r.value) == (d1 - ZERO) * 10 + (d2 - ZERO)
    ensures r.Err? ==> (r.error == NonDigitStatus <==> !(IsDigit(d1) && IsDigit(d2)))
  {
    if !(IsDigit(d1) && IsDigit(d2)) then Err(NonDigitStatus)
    else
      var v := StatusValueAsWritten(d1, d2);
      match FromU8(v)
      case None => Err(UnknownStatus(v))
      case Some(s) => Ok(s)
  }

  /** On digit bytes the corrected status decoding agrees with the code as written. */
  lemma DecodeStatusAgreesOnDigits(d1: Byte, d2: Byte)
    requires IsDigit(d1) && IsDigit(d2)
    ensures DecodeStatus(d1, d2).Ok? <==> FromU8(StatusValueAsWritten(d1, d2)).Some?
    ensures DecodeStatus(d1, d2).Ok? ==>
              DecodeStatus(d1, d2).value == FromU8(StatusValueAsWritten(d1, d2)).value
  {
  }

  /** The two bytes at `i` and `i + 1` are CR LF. */
  predicate CrlfAt(buf: seq<Byte>, i: int)
  {
    0 <= i && i + 1 < |buf| && buf[i] == CR && buf[i + 1] == LF
  }

  /** The first CR LF at or after `from`, if any. */
  function FirstCrlf(buf: seq<Byte>, from: nat): (r: Option<nat>)
    decreases |buf| - from
    ensures r.Some? ==> from <= r.value && CrlfAt(buf, r.value)
    ensures r.Some? ==> forall j :: from <= j < r.value ==> !CrlfAt(buf, j)
    ensures r.None? ==> forall j :: from <= j ==> !CrlfAt(buf, j)
  {
    if from + 1 >= |buf| then None
    else if CrlfAt(buf, from) then Some(from)
    else FirstCrlf(buf, from + 1)
  }

  /** Where the meta text starts: after the optional single space at byte 2. */
  function MetaStart(buf: seq<Byte>): (start: nat)
    requires |buf| >= 3
    ensures start == 3 <==> buf[2] == SP
    ensures start == 2 || start == 3
  {
    if buf[2] == SP then 3 else 2
  }

  /** Lossy UTF-8 decoding, byte by byte: an ASCII byte is its own character and
      any other byte becomes the replacement character U+FFFD. */
  function Lossy(b: seq<Byte>): (s: string)
    ensures |s| == |b|
    ensures forall i :: 0 <= i < |b| && b[i] < 128 ==> s[i] as int == b[i]
    ensures forall i :: 0 <= i < |b| && b[i] >= 128 ==> s[i] == '\U{FFFD}'
  {
    seq(|b|, i requires 0 <= i < |b| => if b[i] < 128 then b[i] as char else '\U{FFFD}')
  }

  /** What decoding a buffer yields (the specification of `DecodeResponse`). */
  function Decode(buf: seq<Byte>): (r: Result<GeminiResponse, DecodeError>)
    ensures r.Ok? ==> 4 + |r.value.info| + |r.value.body| <= |buf|
  {
    if |buf| < 4 then Err(TooShort)
    else
      match DecodeStatus(buf[0], buf[1])
      case Err(e) => Err(e)
      case Ok(status) =>
        var start := MetaStart(buf);
        match FirstCrlf(buf, start)
        case None => Err(MissingCrlf)
        case Some(end) => Ok(GeminiResponse(status, Lossy(buf[start..end]), buf[end + 2..]))
  }

  /** Splits a response buffer by scanning for the first CR LF after the status. */
  method DecodeResponse(buf: seq<Byte>) returns (r: Result<GeminiResponse, DecodeError>)
    ensures r == Decode(buf)
  {
    if |buf| < 4 {
      return Err(TooShort);
    }
    var status := DecodeStatus(buf[0], buf[1]);
    if status.Err? {
      return Err(status.error);
    }
    var start := 2;
    var end := 0;
    if buf[2] == SP {
      start := start + 1;
    }
    for i := start to |buf| - 1
      invariant end == 0
      invariant forall j :: start <= j < i ==> !CrlfAt(buf, j)
    {
      if buf[i] == CR && buf[i + 1] == LF {
        end := i;
        break;
      }
    }
    if end == 0 {
      assert FirstCrlf(buf, start).None? by {
        var found := FirstCrlf(buf, start);
        assert found.Some? ==> CrlfAt(buf, found.value);
      }
      return Err(MissingCrlf);
    }
    assert FirstCrlf(buf, start) == Some(end) by {
      var found := FirstCrlf(buf, start);
      assert CrlfAt(buf, end);
      assert found.Some? ==> CrlfAt(buf, found.value) && !(found.value < end);
    }
    r := Ok(GeminiResponse(status.value, Lossy(buf[start..end]), buf[end + 2..]));
  }

  /** Decoding fails exactly in the four error cases, and each yields its own error. */
  lemma DecodeFailures(buf: seq<Byte>)
    ensures Decode(buf) == Err(TooShort) <==> |buf| < 4
    ensures |buf| >= 4 ==>
              (Decode(buf) == Err(NonDigitStatus) <==> !(IsDigit(buf[0]) && IsDigit(buf[1])))
    ensures |buf| >= 4 && IsDigit(buf[0]) && IsDigit(buf[1]) ==>
              var v := (buf[0] - ZERO) * 10 + (buf[1] - ZERO);
              (Decode(buf) == Err(UnknownStatus(v)) <==> v !in KnownCodes)
    ensures |buf| >= 4 && DecodeStatus(buf[0], buf[1]).Ok? ==>
              (Decode(buf) == Err(MissingCrlf) <==>
                 forall j :: MetaStart(buf) <= j ==> !CrlfAt(buf, j))
  {
    if |buf| >= 4 && DecodeStatus(buf[0], buf[1]).Ok? {
      var start := MetaStart(buf);
      var found := FirstCrlf(buf, start);
      assert found.Some? ==> CrlfAt(buf, found.value);
    }
  }

  /** A decoded buffer is framed as the protocol describes: digits, an optional
      space, the meta text up to the first CR LF, then the body verbatim. */
  lemma DecodeFraming(buf: seq<Byte>, resp: GeminiResponse)
    requires Decode(buf) == Ok(resp)
    ensures |buf| >= 4 && IsDigit(buf[0]) && IsDigit(buf[1])
    ensures Code(resp.status) == (buf[0] - ZERO) * 10 + (buf[1] - ZERO)
    ensures exists e :: MetaStart(buf) <= e && CrlfAt(buf, e)
                        && (forall j :: MetaStart(buf) <= j < e ==> !CrlfAt(buf, j))
                        && resp.info == Lossy(buf[MetaStart(buf)..e])
                        && resp.body == buf[e + 2..]
  {
    var e := FirstCrlf(buf, MetaStart(buf)).value;
    assert CrlfAt(buf, e);
  }

  /** The bytes of an ASCII string. */
  predicate IsAscii(s: string)
  {
    forall i :: 0 <= i < |s| ==> s[i] as int < 128
  }

  function AsciiBytes(s: string): (b: seq<Byte>)
    requires IsAscii(s)
    ensures |b| == |s|
  {
    seq(|s|, i requires 0 <= i < |s| => s[i] as int)
  }

  /** The string contains no CR LF pair. */
  predicate NoCrlf(s: string)
  {
    forall i :: 0 <= i && i + 1 < |s| ==> !(s[i] == '\r' && s[i + 1] == '\n')
  }

  /** The wire form of a response: two digits, a space, meta, CR LF, body. */
  function Encode(status: GeminiStatus, meta: string, body: seq<Byte>): (buf: seq<Byte>)
    requires IsAscii(meta)
  {
    [ZERO + Code(status) / 10, ZERO + Code(status) % 10, SP] + AsciiBytes(meta) + [CR, LF] + body
  }

  /** Lossy decoding of ASCII bytes gives back the string. */
  lemma LossyAscii(meta: string)
    requires IsAscii(meta)
    ensures Lossy(AsciiBytes(meta)) == meta
  {
  }

  /** In an encoded response the first CR LF after the status line's space is
      the one that ends the meta text. */
  lemma EncodedCrlf(status: GeminiStatus, meta: string, body: seq<Byte>)
    requires IsAscii(meta) && NoCrlf(meta)
    ensures FirstCrlf(Encode(status, meta, body), 3) == Some(3 + |meta|)
  {
    var buf := Encode(status, meta, body);
    var m := 3 + |meta|;
    forall j | 3 <= j < m
      ensures !CrlfAt(buf, j)
    {
      if j + 1 < m {
        assert buf[j] as int == meta[j - 3] as int && buf[j + 1] as int == meta[j - 2] as int;
      } else {
        assert buf[j + 1] == CR;
      }
    }
    assert CrlfAt(buf, m);
    var found := FirstCrlf(buf, 3);
    assert found.Some? ==> CrlfAt(buf, found.value) && !(found.value < m);
  }

  /** Round trip: a response whose meta text is ASCII without CR LF decodes to
      exactly the status, meta text and body it was encoded from. */
  lemma DecodeEncode(status: GeminiStatus, meta: string, body: seq<Byte>)
    requires IsAscii(meta) && NoCrlf(meta)
    ensures Decode(Encode(status, meta, body)) == Ok(GeminiResponse(status, meta, body))
  {
    var buf := Encode(status, meta, body);
    var m := 3 + |meta|;
    FromU8OfCode(status);
    assert DecodeStatus(buf[0], buf[1]) == Ok(status);
    assert MetaStart(buf) == 3;
    EncodedCrlf(status, meta, body);
    assert buf[3..m] == AsciiBytes(meta);
    assert buf[m + 2..] == body;
    LossyAscii(meta);
  }
}
