/** `UrlShortenerService`: random short codes, the checks a URL must pass
    before it is shortened, and the client address of a request. */
module UrlShortenerService {
  import opened Wrappers
  import opened Random
  import opened PhpStrings

  const MinCodeLength := 5

  const LowerLetters: string := "abcdefghijklmnopqrstuvwxyz"
  const UpperLetters: string := "ABCDEFGHIJKLMNOPQRSTUVWXYZ"
  const Digits: string := "0123456789"

  /** The 62 characters a code is made of: lower-case letters, upper-case
      letters, digits. */
  const CodeChars: string := LowerLetters + UpperLetters + Digits

  /** `max($length, MIN_CODE_LENGTH)`, the number of characters drawn. */
  function CodeLength(length: int): nat {
    if length > MinCodeLength then length else MinCodeLength
  }

  // ---------------------------------------------------------------------
  // generateCode

  /** The first n characters of a code over `chars` whose first oracle call
      is number k: call k + i, `random_int(0, strlen(chars) - 1)`, picks
      character i. */
  function Code(chars: string, n: nat, stream: nat -> int, k: nat): (r: string)
    requires |chars| >= 1
    ensures |r| == n
    ensures forall i :: 0 <= i < n ==> r[i] == chars[Draw(stream, k + i, 0, |chars| - 1)]
  {
    if n == 0 then [] else Code(chars, n - 1, stream, k) + [chars[Draw(stream, k + n - 1, 0, |chars| - 1)]]
  }

  /** `generateCode($length)`, the k0-th oracle call being its first. */
  method GenerateCode(length: int, stream: nat -> int, k0: nat) returns (code: string, k1: nat)
    ensures code == Code(CodeChars, CodeLength(length), stream, k0)
    ensures k1 == k0 + CodeLength(length)
  {
    var chars := CodeChars;
    var max := |chars| - 1;
    code := "";
    var i := 0;
    while i < CodeLength(length)
      invariant 0 <= i <= CodeLength(length)
      invariant code == Code(chars, i, stream, k0)
    {
      code := code + [chars[Draw(stream, k0 + i, 0, max)]];
      i := i + 1;
    }
    k1 := k0 + i;
  }

  /** A code has `max(length, 5)` characters, all alphanumeric. */
  lemma CodeShape(length: int, stream: nat -> int, k: nat)
    ensures var c := Code(CodeChars, CodeLength(length), stream, k);
            |c| == (if length > 5 then length else 5)
            && forall i :: 0 <= i < |c| ==> IsAlnum(c[i]) && c[i] in CodeChars
  {
    var c := Code(CodeChars, CodeLength(length), stream, k);
    CodeCharsAlnum();
    forall i | 0 <= i < |c| ensures IsAlnum(c[i]) && c[i] in CodeChars {
      assert c[i] == CodeChars[Draw(stream, k + i, 0, |CodeChars| - 1)];
    }
  }

  /** Every character of the alphabet is a letter or a digit. */
  lemma CodeCharsAlnum()
    ensures |CodeChars| == 62
    ensures forall c :: c in CodeChars ==> IsAlnum(c)
  {
    assert forall c :: c in LowerLetters ==> IsLower(c);
    assert forall c :: c in UpperLetters ==> IsUpper(c);
    assert forall c :: c in Digits ==> IsDigit(c);
  }

  /** Every string of the right length over the alphabet is the code of
      some behaviour of the oracle: no code is out of reach. */
  lemma EveryCodeReachable(chars: string, n: nat, c: string, k: nat)
    requires |chars| >= 1 && |c| == n
    requires forall i :: 0 <= i < |c| ==> c[i] in chars
    ensures exists stream: nat -> int :: Code(chars, n, stream, k) == c
  {
    var stream := (m: nat) => if k <= m < k + |c| then IndexIn(c[m - k], chars) else 0;
    var code := Code(chars, n, stream, k);
    forall i | 0 <= i < |c| ensures code[i] == c[i] {
      assert stream(k + i) == IndexIn(c[i], chars);
    }
    assert code == c;
  }

  /** The position of a character in a string that holds it. */
  function IndexIn(x: char, s: string): (r: int)
    requires x in s
    ensures 0 <= r < |s| && s[r] == x
  {
    if s[0] == x then 0 else 1 + IndexIn(x, s[1..])
  }

  // ---------------------------------------------------------------------
  // validateUrl

  /** What `parse_url` answers about a URL: its scheme and host, each
      absent (null) when the URL has none. */
  datatype UrlParts = UrlParts(scheme: Option<string>, host: Option<string>)

  /** The four checks, in the order they are made. */
  datatype UrlCheck = Format | Scheme | OwnHost | LocalHost

  datatype UrlVerdict = UrlVerdict(valid: bool, message: string)

  const LocalHosts: seq<string> := ["localhost", "127.0.0.1", "0.0.0.0", "::1"]

  function CheckRank(c: UrlCheck): nat {
    match c
    case Format => 0
    case Scheme => 1
    case OwnHost => 2
    case LocalHost => 3
  }

  /** The URL fails check `c`. `isUrl` stands for `filter_var($url,
      FILTER_VALIDATE_URL)` and `parse` for `parse_url`; `baseUrl` counts
      only when PHP reads it as true (it is neither "" nor "0"). */
  predicate Fails(c: UrlCheck, url: string, baseUrl: string, isUrl: string -> bool, parse: string -> UrlParts) {
    match c
    case Format => !isUrl(url)
    case Scheme => parse(url).scheme != Some("http") && parse(url).scheme != Some("https")
    case OwnHost => !IsEmptyString(baseUrl) && parse(url).host == parse(baseUrl).host
    case LocalHost => parse(url).host.Some? && parse(url).host.value in LocalHosts
  }

  function CheckMessage(c: UrlCheck): string {
    match c
    case Format => "La URL no tiene un formato válido."
    case Scheme => "Solo se permiten URLs con esquema http o https."
    case OwnHost => "No se puede acortar una URL del propio servicio (evitar bucles)."
    case LocalHost => "No se permiten URLs que apunten a localhost o IPs privadas."
  }

  /** The checks of `validateUrl` in their order: the first one that fails. */
  function FirstFailure(url: string, baseUrl: string, isUrl: string -> bool, parse: string -> UrlParts): Option<UrlCheck> {
    if Fails(Format, url, baseUrl, isUrl, parse) then Some(Format)
    else if Fails(Scheme, url, baseUrl, isUrl, parse) then Some(Scheme)
    else if Fails(OwnHost, url, baseUrl, isUrl, parse) then Some(OwnHost)
    else if Fails(LocalHost, url, baseUrl, isUrl, parse) then Some(LocalHost)
    else None
  }

  /** `validateUrl($url, $baseUrl)`: valid exactly when no check fails, and
      otherwise the message of the first failing check. */
  function ValidateUrl(url: string, baseUrl: string, isUrl: string -> bool, parse: string -> UrlParts): (r: UrlVerdict)
    ensures r.valid <==> forall c :: !Fails(c, url, baseUrl, isUrl, parse)
    ensures !r.valid ==> exists c :: Fails(c, url, baseUrl, isUrl, parse) && r.message == CheckMessage(c)
    ensures !r.valid ==> exists f :: && Fails(f, url, baseUrl, isUrl, parse) && r.message == CheckMessage(f)
                                     && forall c :: CheckRank(c) < CheckRank(f) ==> !Fails(c, url, baseUrl, isUrl, parse)
    ensures !r.valid ==> && FirstFailure(url, baseUrl, isUrl, parse).Some?
                         && r.message == CheckMessage(FirstFailure(url, baseUrl, isUrl, parse).value)
    ensures r.valid ==> r.message == "URL válida."
  {
    FirstFailureOrder(url, baseUrl, isUrl, parse);
    match FirstFailure(url, baseUrl, isUrl, parse)
    case None => UrlVerdict(true, "URL válida.")
    case Some(c) => UrlVerdict(false, CheckMessage(c))
  }

  /** The check reported is one that fails, and every check before it
      passes. */
  lemma FirstFailureOrder(url: string, baseUrl: string, isUrl: string -> bool, parse: string -> UrlParts)
    ensures match FirstFailure(url, baseUrl, isUrl, parse)
            case None => forall c :: !Fails(c, url, baseUrl, isUrl, parse)
            case Some(f) =>
              && Fails(f, url, baseUrl, isUrl, parse)
              && forall c :: CheckRank(c) < CheckRank(f) ==> !Fails(c, url, baseUrl, isUrl, parse)
  {
    match FirstFailure(url, baseUrl, isUrl, parse)
    case None =>
      forall c ensures !Fails(c, url, baseUrl, isUrl, parse) {
        match c
        case Format =>
        case Scheme =>
        case OwnHost =>
        case LocalHost =>
      }
    case Some(f) =>
      forall c | CheckRank(c) < CheckRank(f) ensures !Fails(c, url, baseUrl, isUrl, parse) {
        match c
        case Format =>
        case Scheme =>
        case OwnHost =>
        case LocalHost =>
      }
  }

  /** The scheme is compared exactly: "HTTP" is refused. */
  lemma SchemeCaseSensitive(url: string, isUrl: string -> bool, parse: string -> UrlParts)
    requires isUrl(url) && parse(url).scheme == Some("HTTP")
    ensures ValidateUrl(url, "", isUrl, parse) == UrlVerdict(false, CheckMessage(Scheme))
  {
  }

  /** Without a base URL a URL with no host passes the own-host check, but
      with one that has no host either it is refused as the service's own:
      `null === null`. This needs a format oracle that accepts an http URL
      without a host; PHP's `FILTER_VALIDATE_URL` refuses such a URL, so
      with PHP's own filter the format check reports it first and the
      comparison of two missing hosts is never reached. */
  lemma MissingHostsAreEqual(url: string, baseUrl: string, isUrl: string -> bool, parse: string -> UrlParts)
    requires isUrl(url) && parse(url) == UrlParts(Some("http"), None)
    requires baseUrl == "x" && parse(baseUrl).host == None
    ensures ValidateUrl(url, baseUrl, isUrl, parse) == UrlVerdict(false, CheckMessage(OwnHost))
    ensures ValidateUrl(url, "", isUrl, parse).valid
  {
  }

  // ---------------------------------------------------------------------
  // getClientIp

  /** `getClientIp()` over the `$_SERVER` entries: the first comma-separated
      piece of a non-empty forwarded-for header (as it is, blanks kept),
      else the remote address, else "0.0.0.0". */
  function ClientIp(server: map<string, string>): (r: string)
    ensures var xff := "HTTP_X_FORWARDED_FOR";
            if xff in server && !IsEmptyString(server[xff]) then
              && |r| <= |server[xff]| && r == server[xff][..|r|] && ',' !in r
              && (|r| == |server[xff]| || server[xff][|r|] == ',')
            else
              r == (if "REMOTE_ADDR" in server then server["REMOTE_ADDR"] else "0.0.0.0")
  {
    var xff := "HTTP_X_FORWARDED_FOR";
    if xff in server && !IsEmptyString(server[xff]) then Explode(',', server[xff])[0]
    else if "REMOTE_ADDR" in server then server["REMOTE_ADDR"]
    else "0.0.0.0"
  }
}
