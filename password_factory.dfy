/** `PasswordFactory`: turns the parameters of a request into a `Password`
    object, with the web API's own defaults for every option. */
module PasswordFactory {
  import opened Wrappers
  import opened PhpStrings
  import opened PasswordGenerator
  import opened PasswordHolder
  import opened PhpValues

  type Request = map<string, RequestValue>

  /** `isset($data[$key])`: the key is present and its value is not null. */
  predicate IsSet(data: Request, key: string) {
    key in data && !data[key].Null?
  }

  /** The characters `filter_var` strips before reading a boolean: space,
      tab, carriage return, vertical tab and newline (not NUL). */
  predicate IsFilterSpace(c: char) {
    c == ' ' || c == '\t' || c == '\r' || c == '\U{B}' || c == '\n'
  }

  /** The blanks `filter_var` strips from the front. */
  function StripLeft(s: string): (r: string)
    ensures |r| <= |s| && r == s[|s| - |r|..]
    ensures forall i :: 0 <= i < |s| - |r| ==> IsFilterSpace(s[i])
    ensures r == [] || !IsFilterSpace(r[0])
  {
    if s != [] && IsFilterSpace(s[0]) then StripLeft(s[1..]) else s
  }

  /** The blanks `filter_var` strips from the back. */
  function StripRight(s: string): (r: string)
    ensures |r| <= |s| && r == s[..|r|]
    ensures forall i :: |r| <= i < |s| ==> IsFilterSpace(s[i])
    ensures r == [] || !IsFilterSpace(r[|r| - 1])
  {
    if s != [] && IsFilterSpace(s[|s| - 1]) then StripRight(s[..|s| - 1]) else s
  }

  /** The words `FILTER_VALIDATE_BOOLEAN` reads as true, compared without
      regard to case. */
  predicate IsTrueWord(w: string) {
    w == "1" || w == "true" || w == "on" || w == "yes"
  }

  /** `filter_var($v, FILTER_VALIDATE_BOOLEAN)` without flags: a scalar is
      read as its string form, and everything but a true word gives false. */
  function ToBool(v: RequestValue): bool {
    match v
    case Text(s) => IsTrueWord(PhpStrings.Lower(StripRight(StripLeft(s))))
    case Int(i) => i == 1
    case Bool(b) => b
    case Null => false
  }

  /** The string the generator reads `exclude` as (`true` is "1", `false`
      and null are ""). */
  function ToText(v: RequestValue): string {
    match v
    case Text(s) => s
    case Int(i) => IntToDecimal(i)
    case Bool(b) => if b then "1" else ""
    case Null => ""
  }

  /** `isset($data[$key]) ? filter_var($data[$key], FILTER_VALIDATE_BOOLEAN) : $default`. */
  function Flag(data: Request, key: string, default: bool): bool {
    if IsSet(data, key) then ToBool(data[key]) else default
  }

  /** The `$length` of `fromRequest`. */
  function RequestLength(data: Request, defaultLength: int): (r: int)
    ensures !IsSet(data, "length") ==> r == defaultLength
    ensures IsSet(data, "length") ==> r == ToInt(data["length"])
    ensures IsSet(data, "length") && data["length"].Int? ==> r == data["length"].i
  {
    if IsSet(data, "length") then ToInt(data["length"]) else defaultLength
  }

  /** The `$opts` array of `fromRequest`: all seven keys, each from the
      request when it is set and otherwise from the web defaults (upper,
      lower, digits and one-of-each on; symbols and ambiguous-character
      avoidance off; nothing excluded). */
  function RequestOptions(data: Request): (r: OptionOverrides)
    ensures r.upper.Some? && r.lower.Some? && r.digits.Some? && r.symbols.Some?
    ensures r.avoidAmbiguous.Some? && r.exclude.Some? && r.requireEach.Some?
    ensures !IsSet(data, "includeUppercase") ==> r.upper == Some(true)
    ensures !IsSet(data, "includeLowercase") ==> r.lower == Some(true)
    ensures !IsSet(data, "includeNumbers") ==> r.digits == Some(true)
    ensures !IsSet(data, "includeSymbols") ==> r.symbols == Some(false)
    ensures !IsSet(data, "excludeAmbiguous") ==> r.avoidAmbiguous == Some(false)
    ensures !IsSet(data, "exclude") ==> r.exclude == Some("")
    ensures !IsSet(data, "requireEach") ==> r.requireEach == Some(true)
    ensures IsSet(data, "includeUppercase") ==> r.upper == Some(ToBool(data["includeUppercase"]))
    ensures IsSet(data, "includeLowercase") ==> r.lower == Some(ToBool(data["includeLowercase"]))
    ensures IsSet(data, "includeNumbers") ==> r.digits == Some(ToBool(data["includeNumbers"]))
    ensures IsSet(data, "includeSymbols") ==> r.symbols == Some(ToBool(data["includeSymbols"]))
    ensures IsSet(data, "excludeAmbiguous") ==> r.avoidAmbiguous == Some(ToBool(data["excludeAmbiguous"]))
    ensures IsSet(data, "exclude") ==> r.exclude == Some(ToText(data["exclude"]))
    ensures IsSet(data, "requireEach") ==> r.requireEach == Some(ToBool(data["requireEach"]))
  {
    OptionOverrides(
      Some(Flag(data, "includeUppercase", true)),
      Some(Flag(data, "includeLowercase", true)),
      Some(Flag(data, "includeNumbers", true)),
      Some(Flag(data, "includeSymbols", false)),
      Some(Flag(data, "excludeAmbiguous", false)),
      Some(if IsSet(data, "exclude") then ToText(data["exclude"]) else ""),
      Some(Flag(data, "requireEach", true)))
  }

  /** `create($length, $opts)`. */
  method Create(length: int, opts: OptionOverrides) returns (p: Password)
    ensures fresh(p) && p.GetLength() == length && p.GetOpts() == opts
  {
    p := new Password(length, opts);
  }

  /** `fromRequest($data, $default_length)`. */
  method FromRequest(data: Request, defaultLength: int) returns (p: Password)
    ensures fresh(p)
    ensures p.GetLength() == RequestLength(data, defaultLength) && p.GetOpts() == RequestOptions(data)
  {
    p := Create(RequestLength(data, defaultLength), RequestOptions(data));
  }

  // ---------------------------------------------------------------------
  // Properties

  /** The generator's own defaults never apply to a request's options: each
      resolved option is the request's value, whatever the generator would
      have chosen for a missing key. */
  lemma GeneratorDefaultsOverridden(data: Request)
    ensures var r := RequestOptions(data);
            WithDefaults(r) == Options(r.upper.value, r.lower.value, r.digits.value, r.symbols.value,
                                       r.avoidAmbiguous.value, r.exclude.value, r.requireEach.value)
  {
  }

  /** An empty request: upper, lower, digits and one-of-each on, symbols and
      ambiguous-character avoidance off, where the generator alone would
      have symbols on and ambiguous characters avoided. */
  lemma EmptyRequestDefaults()
    ensures WithDefaults(RequestOptions(map[])) == Options(true, true, true, false, false, "", true)
    ensures WithDefaults(NoOverrides).symbols && WithDefaults(NoOverrides).avoidAmbiguous
  {
  }

  /** `filter_var` ignores surrounding blanks and case. */
  lemma FilterBooleanTrimsAndFolds()
    ensures ToBool(Text(" TRUE\n"))
  {
    StripsBlanks();
    FoldsTrue();
  }

  lemma StripsBlanks()
    ensures StripRight(StripLeft(" TRUE\n")) == "TRUE"
  {
    StripLeftStep(' ', "TRUE\n");
    StripRightStep("TRUE", '\n');
  }

  /** One blank at the front, then none: only that blank is stripped. */
  lemma StripLeftStep(c: char, s: string)
    requires IsFilterSpace(c) && (s == [] || !IsFilterSpace(s[0]))
    ensures StripLeft([c] + s) == s
  {
    assert ([c] + s)[1..] == s;
  }

  /** One blank at the back, then none: only that blank is stripped. */
  lemma StripRightStep(s: string, c: char)
    requires IsFilterSpace(c) && (s == [] || !IsFilterSpace(s[|s| - 1]))
    ensures StripRight(s + [c]) == s
  {
    assert (s + [c])[..|s|] == s;
  }

  lemma FoldsTrue()
    ensures PhpStrings.Lower("TRUE") == "true"
  {
  }

  /** Other words, even "off", and integers other than 1 give false. */
  lemma FilterBooleanFalseWords()
    ensures !ToBool(Text("off"))
    ensures ToBool(Int(1)) && !ToBool(Int(2)) && !ToBool(Bool(false))
  {
    NotTrueWord("off");
  }

  /** A word without surrounding blanks or capitals is read as it is. */
  lemma NotTrueWord(w: string)
    requires w == [] || (!IsFilterSpace(w[0]) && !IsFilterSpace(w[|w| - 1]))
    requires forall i :: 0 <= i < |w| ==> !IsUpper(w[i])
    requires !IsTrueWord(w)
    ensures !ToBool(Text(w))
  {
    assert StripRight(StripLeft(w)) == w;
    assert PhpStrings.Lower(w) == w;
  }

  /** With a requested length in the API's range 4..128, a generated
      password has exactly that length: there are at most four classes, so
      the one-of-each seed never exceeds it. */
  lemma RequestedLengthKept(data: Request, defaultLength: int, stream: nat -> int, k: nat)
    requires 4 <= RequestLength(data, defaultLength) <= 128
    ensures var r := PasswordGenerator.Generate(RequestLength(data, defaultLength), RequestOptions(data), stream, k).0;
            r.Success? ==> |r.value| == RequestLength(data, defaultLength)
  {
    var length := RequestLength(data, defaultLength);
    if PasswordGenerator.Generate(length, RequestOptions(data), stream, k).0.Success? {
      GeneratedPasswordMeets(length, RequestOptions(data), stream, k);
    }
  }
}
