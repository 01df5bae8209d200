/** `QrGenerator`: the parameters of a QR image (size, error-correction
    level, margin) and the text it encodes, up to the call into the
    rendering library. */
module QrGenerator {
  import opened Wrappers
  import opened PhpStrings

  /** The four error-correction levels. */
  const Levels: seq<string> := ["L", "M", "Q", "H"]

  /** `max(100, min(1000, $size))`. */
  function NormalizeSize(size: int): (r: int)
    ensures 100 <= r <= 1000
    ensures 100 <= size <= 1000 ==> r == size
    ensures size < 100 ==> r == 100
    ensures size > 1000 ==> r == 1000
  {
    if size < 100 then 100 else if size > 1000 then 1000 else size
  }

  /** `in_array($level, ['L','M','Q','H']) ? $level : 'M'`. */
  function NormalizeLevel(level: string): (r: string)
    ensures r in Levels
    ensures level in Levels ==> r == level
    ensures level !in Levels ==> r == "M"
  {
    if level in Levels then level else "M"
  }

  /** Normalising twice changes nothing. */
  lemma NormalizeIdempotent(size: int, level: string)
    ensures NormalizeSize(NormalizeSize(size)) == NormalizeSize(size)
    ensures NormalizeLevel(NormalizeLevel(level)) == NormalizeLevel(level)
  {
  }

  /** `max(1, (int)($size / 100))`: PHP's `/` gives a float and `(int)`
      truncates it toward zero. */
  function Margin(size: int): int {
    var q := if size >= 0 then size / 100 else -((-size) / 100);
    if q > 1 then q else 1
  }

  /** What `generate($content)` hands to `QRcode::png`: the text, the level,
      the size it derives the pixel size from, and the margin. */
  datatype RenderRequest = RenderRequest(content: string, level: string, size: int, margin: int)

  /** `"WIFI:T:{$type};S:{$ssid};P:{$password};;"`, nothing escaped. */
  function WifiPayload(wifiType: string, ssid: string, password: string): string {
    "WIFI:T:" + wifiType + ";S:" + ssid + ";P:" + password + ";;"
  }

  /** The type check of `fromWifi` as written: the upper-cased type must be
      one of 'WPA', 'WPA2', 'WEP' and 'nopass'; the accepted type is the
      upper-cased one. */
  function WifiTypeAsWritten(wifiType: string): Option<string> {
    var t := Upper(wifiType);
    if t in ["WPA", "WPA2", "WEP", "nopass"] then Some(t) else None
  }

  /** The type check as its message describes it: WPA, WPA2, WEP or nopass,
      in any case; an open network is written `nopass`, the form WiFi QR
      readers expect. */
  function WifiType(wifiType: string): (r: Option<string>)
    ensures r.Some? ==> r.value in ["WPA", "WPA2", "WEP", "nopass"]
  {
    var t := Upper(wifiType);
    if t in ["WPA", "WPA2", "WEP"] then Some(t)
    else if t == "NOPASS" then Some("nopass")
    else None
  }

  class QrGenerator {
    var size: int
    var level: string

    /** The normalised size and level every generator keeps. */
    predicate Valid()
      reads this
    {
      100 <= size <= 1000 && level in Levels
    }

    /** `new QrGenerator($size, $level)`. */
    constructor (size: int, level: string)
      ensures Valid()
      ensures GetSize() == NormalizeSize(size) && GetLevel() == NormalizeLevel(level)
    {
      this.size := NormalizeSize(size);
      this.level := NormalizeLevel(level);
    }

    function GetSize(): int
      reads this
    {
      size
    }

    function GetLevel(): string
      reads this
    {
      level
    }

    /** `generate($content)`, without the image: the margin is between 1 and
        10 for every normalised size. */
    function Render(content: string): (r: RenderRequest)
      requires Valid()
      reads this
      ensures r.content == content && r.level == level && r.size == size
      ensures 1 <= r.margin <= 10 && r.margin == size / 100
    {
      RenderRequest(content, level, size, Margin(size))
    }

    /** `fromText($text)`: refused when the trimmed text is empty, or is
        "0", which PHP's `empty` also counts as empty; otherwise the text is
        encoded as it was given, untrimmed. */
    function FromText(text: string): (r: Result<RenderRequest, string>)
      requires Valid()
      reads this
      ensures r.Success? <==> Trim(text) != "" && Trim(text) != "0"
      ensures r.Success? ==> r.value == Render(text)
      ensures r.Failure? ==> r.error == "El texto no puede estar vacío."
    {
      if IsEmptyString(Trim(text)) then Failure("El texto no puede estar vacío.")
      else Success(Render(text))
    }

    /** `fromWifi($ssid, $password, $type)`, with the corrected type check
        `WifiType`. */
    function FromWifi(ssid: string, password: string, wifiType: string): (r: Result<RenderRequest, string>)
      requires Valid()
      reads this
      ensures r.Success? <==> !IsEmptyString(Trim(ssid)) && WifiType(wifiType).Some?
      ensures r.Success? ==> r.value == Render(WifiPayload(WifiType(wifiType).value, ssid, password))
      ensures r.Failure? ==> r.error == (if IsEmptyString(Trim(ssid)) then "El SSID no puede estar vacío."
                                         else "Tipo WiFi no válido. Use: WPA, WPA2, WEP, nopass.")
    {
      if IsEmptyString(Trim(ssid)) then Failure("El SSID no puede estar vacío.")
      else match WifiType(wifiType)
        case None => Failure("Tipo WiFi no válido. Use: WPA, WPA2, WEP, nopass.")
        case Some(t) => Success(Render(WifiPayload(t, ssid, password)))
    }

    /** `fromWifi` with the type check as written. */
    function FromWifiAsWritten(ssid: string, password: string, wifiType: string): (r: Result<RenderRequest, string>)
      requires Valid()
      reads this
      ensures r.Success? <==> !IsEmptyString(Trim(ssid)) && WifiTypeAsWritten(wifiType).Some?
      ensures r.Success? ==> r.value == Render(WifiPayload(WifiTypeAsWritten(wifiType).value, ssid, password))
      ensures r.Failure? ==> r.error == (if IsEmptyString(Trim(ssid)) then "El SSID no puede estar vacío."
                                         else "Tipo WiFi no válido. Use: WPA, WPA2, WEP, nopass.")
    {
      if IsEmptyString(Trim(ssid)) then Failure("El SSID no puede estar vacío.")
      else match WifiTypeAsWritten(wifiType)
        case None => Failure("Tipo WiFi no válido. Use: WPA, WPA2, WEP, nopass.")
        case Some(t) => Success(Render(WifiPayload(t, ssid, password)))
    }
  }

  // ---------------------------------------------------------------------
  // Properties

  /** An upper-cased string is never "nopass". */
  lemma UpperIsNeverNopass(s: string)
    ensures Upper(s) != "nopass"
  {
    UpperHasNoLowerCase(s);
    assert "nopass"[0] == 'n';
  }

  /** As written, the listed 'nopass' can never be accepted, in any case:
      the type is upper-cased before it is compared. */
  lemma NopassRejectedAsWritten(wifiType: string)
    ensures WifiTypeAsWritten(wifiType).Some? <==> Upper(wifiType) in ["WPA", "WPA2", "WEP"]
    ensures WifiTypeAsWritten("nopass") == None
  {
    UpperIsNeverNopass(wifiType);
    UpperIsNeverNopass("nopass");
  }

  /** The corrected check accepts nopass in any case and writes it as
      `nopass`, and otherwise agrees with the check as written. */
  lemma NopassAccepted(wifiType: string)
    ensures WifiType("nopass") == Some("nopass") && WifiType("NOPASS") == Some("nopass")
    ensures Upper(wifiType) != "NOPASS" ==> WifiType(wifiType) == WifiTypeAsWritten(wifiType)
  {
    UpperNopass();
    UpperIsNeverNopass(wifiType);
  }

  lemma UpperNopass()
    ensures Upper("nopass") == "NOPASS" && Upper("NOPASS") == "NOPASS"
  {
  }

  /** The payload is the five `;`-separated fields "WIFI:T:type", "S:ssid",
      "P:password", "" and "", so when neither the SSID nor the password
      holds a `;` the three values can be read back. */
  lemma WifiPayloadRoundTrip(wifiType: string, ssid: string, password: string)
    requires ';' !in wifiType && ';' !in ssid && ';' !in password
    ensures var parts := Explode(';', WifiPayload(wifiType, ssid, password));
            && |parts| == 5 && parts[3] == "" && parts[4] == ""
            && parts[0] == "WIFI:T:" + wifiType && parts[1] == "S:" + ssid && parts[2] == "P:" + password
  {
    var fields := ["WIFI:T:" + wifiType, "S:" + ssid, "P:" + password, "", ""];
    assert WifiPayload(wifiType, ssid, password) == Implode(';', fields) by {
      assert Implode(';', fields[4..]) == "";
      assert Implode(';', fields[3..]) == "" + [';'] + "";
      assert Implode(';', fields[2..]) == fields[2] + [';'] + Implode(';', fields[3..]);
      assert Implode(';', fields[1..]) == fields[1] + [';'] + Implode(';', fields[2..]);
    }
    forall i | 0 <= i < 5 ensures ';' !in fields[i] {
      assert ';' !in "WIFI:T:" && ';' !in "S:" && ';' !in "P:";
    }
    ExplodeImplode(';', fields);
  }

  /** Without escaping, the payload does not determine the network: an SSID
      holding ";P:" reads like a different SSID and password. */
  lemma WifiPayloadAmbiguous()
    ensures WifiPayload("WPA", "a;P:b", "c") == WifiPayload("WPA", "a", "b;P:c")
  {
  }
}
