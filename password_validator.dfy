/** `PasswordValidator` (generateMultiple/models/PasswordValidator.php):
    counts the requirement checks a password passes, scores the ratio and
    labels the strength from an entropy estimate.

    The entropy estimate `len * log2(A)` is compared with the thresholds
    without floating point: for A >= 1, `len * log2(A) < T` holds exactly when
    `A^len < 2^T`. */
module PasswordValidator {
  import opened PhpStrings
  import opened PhpValues

  /** The six requirement fields after `array_merge` with the defaults. */
  datatype Requirements = Requirements(
    minLength: int, maxLength: int,
    requireUppercase: bool, requireLowercase: bool, requireNumbers: bool, requireSymbols: bool)

  /** The `$requirements` array a caller passes: decoded JSON, in which
      every key may be absent and every value may be of any scalar type. */
  type RequirementOverrides = map<string, RequestValue>

  const NoRequirements: RequirementOverrides := map[]

  /** `(int)$requirements[$key]` after `array_merge` with the default. */
  function IntOr(o: RequirementOverrides, key: string, default: int): int {
    ToInt(if key in o then o[key] else Int(default))
  }

  /** The truth of `$requirements[$key]` after `array_merge` with `false`. */
  predicate FlagOr(o: RequirementOverrides, key: string) {
    Truthy(if key in o then o[key] else Bool(false))
  }

  /** A given key wins, even when its value is null; a missing one takes the
      default: at least 8 and at most 128 characters, no character class
      required. Lengths go through `(int)` and flags through PHP truthiness. */
  function WithDefaults(o: RequirementOverrides): (r: Requirements)
    ensures r.minLength == (if "minLength" in o then ToInt(o["minLength"]) else 8)
    ensures r.maxLength == (if "maxLength" in o then ToInt(o["maxLength"]) else 128)
    ensures r.requireUppercase <==> "requireUppercase" in o && Truthy(o["requireUppercase"])
    ensures r.requireLowercase <==> "requireLowercase" in o && Truthy(o["requireLowercase"])
    ensures r.requireNumbers <==> "requireNumbers" in o && Truthy(o["requireNumbers"])
    ensures r.requireSymbols <==> "requireSymbols" in o && Truthy(o["requireSymbols"])
  {
    Requirements(IntOr(o, "minLength", 8), IntOr(o, "maxLength", 128),
                 FlagOr(o, "requireUppercase"), FlagOr(o, "requireLowercase"),
                 FlagOr(o, "requireNumbers"), FlagOr(o, "requireSymbols"))
  }

  /** The four character classes of the checks; a symbol (`[^A-Za-z0-9]`)
      is any character that is not an ASCII letter or digit. */
  datatype Kind = UpperKind | LowerKind | DigitKind | SymbolKind

  predicate OfKind(c: char, k: Kind) {
    match k
    case UpperKind => IsUpper(c)
    case LowerKind => IsLower(c)
    case DigitKind => IsDigit(c)
    case SymbolKind => !IsAlnum(c)
  }

  /** `preg_match` of the class: some character of `pw` is of kind `k`. */
  predicate Has(pw: string, k: Kind) {
    pw != [] && (OfKind(pw[0], k) || Has(pw[1..], k))
  }

  /** `Has` finds a character exactly when there is one. */
  lemma {:induction false} HasIff(pw: string, k: Kind)
    ensures Has(pw, k) <==> exists i :: 0 <= i < |pw| && OfKind(pw[i], k)
  {
    if pw != [] {
      HasIff(pw[1..], k);
      if exists i :: 0 <= i < |pw| && OfKind(pw[i], k) {
        var i :| 0 <= i < |pw| && OfKind(pw[i], k);
        if i > 0 { assert OfKind(pw[1..][i - 1], k); }
      }
      if Has(pw[1..], k) {
        var i :| 0 <= i < |pw| - 1 && OfKind(pw[1..][i], k);
        assert OfKind(pw[i + 1], k);
      }
    }
  }

  predicate HasUpper(pw: string) { Has(pw, UpperKind) }
  predicate HasLower(pw: string) { Has(pw, LowerKind) }
  predicate HasDigit(pw: string) { Has(pw, DigitKind) }
  predicate HasSymbol(pw: string) { Has(pw, SymbolKind) }

  /** The keys of `$checks`. */
  datatype CheckName = MinLength | MaxLength | RequireUppercase | RequireLowercase | RequireNumbers | RequireSymbols

  /** The key as the source spells it. */
  function Key(n: CheckName): string {
    match n
    case MinLength => "minLength"
    case MaxLength => "maxLength"
    case RequireUppercase => "requireUppercase"
    case RequireLowercase => "requireLowercase"
    case RequireNumbers => "requireNumbers"
    case RequireSymbols => "requireSymbols"
  }

  /** One entry of `$checks`: the two length checks carry the required and
      the actual length, the class checks only the verdict. */
  datatype Check = LengthCheck(required: int, actual: int, passed: bool) | FlagCheck(passed: bool)

  datatype Strength = MuyDebil | Debil | Moderada | Fuerte | MuyFuerte

  /** The label the source returns. */
  function Label(s: Strength): string {
    match s
    case MuyDebil => "muy_debil"
    case Debil => "debil"
    case Moderada => "moderada"
    case Fuerte => "fuerte"
    case MuyFuerte => "muy_fuerte"
  }

  /** The strength labels in increasing order. */
  function Rank(s: Strength): nat {
    match s
    case MuyDebil => 0
    case Debil => 1
    case Moderada => 2
    case Fuerte => 3
    case MuyFuerte => 4
  }

  /** The array `validate` returns. */
  datatype Validation = Validation(valid: bool, score: int, strength: Strength, checks: map<CheckName, Check>)

  function Count(b: bool): int { if b then 1 else 0 }

  /** `$total`: the minimum-length check, the maximum-length check when the
      password is too long, and one check per requested class. */
  function Total(pw: string, rq: Requirements): int {
    1 + Count(|pw| > rq.maxLength)
      + Count(rq.requireUppercase) + Count(rq.requireLowercase)
      + Count(rq.requireNumbers) + Count(rq.requireSymbols)
  }

  /** `$passed`: the checks that succeed (the maximum-length check never does). */
  function Passed(pw: string, rq: Requirements): int {
    Count(|pw| >= rq.minLength)
      + Count(rq.requireUppercase && HasUpper(pw)) + Count(rq.requireLowercase && HasLower(pw))
      + Count(rq.requireNumbers && HasDigit(pw)) + Count(rq.requireSymbols && HasSymbol(pw))
  }

  /** Every requirement holds. */
  predicate MeetsAll(pw: string, rq: Requirements) {
    && rq.minLength <= |pw| <= rq.maxLength
    && (rq.requireUppercase ==> HasUpper(pw))
    && (rq.requireLowercase ==> HasLower(pw))
    && (rq.requireNumbers ==> HasDigit(pw))
    && (rq.requireSymbols ==> HasSymbol(pw))
  }

  /** `round($p / $t * 100)` for 0 <= p <= t: the integer nearest to
      100p/t, halves rounded up (PHP rounds them away from zero). */
  function RoundedPercent(p: int, t: int): (r: int)
    requires 0 <= p <= t && 0 < t
  {
    (200 * p + t) / (2 * t)
  }

  /** The strength of an alphabet of size `a` at length `len`: the first
      threshold of 28, 36, 60 and 120 bits that `len * log2(max(a, 1))`
      stays below. */
  function StrengthFor(a: nat, len: nat): Strength {
    SpaceStrength(Pow(if a == 0 then 1 else a, len))
  }

  /** The threshold table over the number of possible passwords `space`
      (2 to the power of the bit estimate). */
  function SpaceStrength(space: nat): Strength {
    if space < Pow(2, 28) then MuyDebil
    else if space < Pow(2, 36) then Debil
    else if space < Pow(2, 60) then Moderada
    else if space < Pow(2, 120) then Fuerte
    else MuyFuerte
  }

  function Pow(b: nat, e: nat): nat {
    if e == 0 then 1 else b * Pow(b, e - 1)
  }

  /** `$entropy`: 26 for a lower-case letter, 26 for an upper-case one, 10
      for a digit and 32 for anything else, each counted once. */
  function AlphabetSize(pw: string): nat {
    (if HasLower(pw) then 26 else 0) + (if HasUpper(pw) then 26 else 0)
      + (if HasDigit(pw) then 10 else 0) + (if HasSymbol(pw) then 32 else 0)
  }

  /** `calculateStrength($password)`. */
  function StrengthOf(pw: string): Strength {
    StrengthFor(AlphabetSize(pw), |pw|)
  }

  // ---------------------------------------------------------------------
  // The imperative code

  /** `PasswordValidator::validate($password, $requirements)`. */
  method Validate(pw: string, overrides: RequirementOverrides) returns (r: Validation)
    ensures var rq := WithDefaults(overrides);
            && (r.valid <==> MeetsAll(pw, rq))
            && r.score == RoundedPercent(Passed(pw, rq), Total(pw, rq))
            && r.strength == StrengthOf(pw)
            && r.checks == Checks(pw, rq)
  {
    var rq := WithDefaults(overrides);
    var passed, total, checks := CountChecks(pw, rq);
    CountBounds(pw, rq);
    var score := if total > 0 then RoundedPercent(passed, total) else 0;
    ValidIffAllPassed(pw, rq);
    var strength := CalculateStrength(pw);
    r := Validation(passed == total, score, strength, checks);
  }

  /** The checks part of `validate`: the `$passed` and `$total` counters
      and the `$checks` array, filled check by check. */
  method CountChecks(pw: string, rq: Requirements) returns (passed: int, total: int, checks: map<CheckName, Check>)
    ensures passed == Passed(pw, rq)
    ensures total == Total(pw, rq)
    ensures checks == Checks(pw, rq)
  {
    passed, total, checks := CountLength(|pw|, rq.minLength, rq.maxLength);
    assert checks == LengthEntries(pw, rq);
    passed, total, checks := CountClass(rq.requireUppercase, RequireUppercase, HasUpper(pw), passed, total, checks);
    passed, total, checks := CountClass(rq.requireLowercase, RequireLowercase, HasLower(pw), passed, total, checks);
    passed, total, checks := CountClass(rq.requireNumbers, RequireNumbers, HasDigit(pw), passed, total, checks);
    passed, total, checks := CountClass(rq.requireSymbols, RequireSymbols, HasSymbol(pw), passed, total, checks);
  }

  /** The two length blocks: the minimum length is always checked, the
      maximum only when it is exceeded, and then it fails. */
  method CountLength(len: int, minLength: int, maxLength: int) returns (passed: int, total: int, checks: map<CheckName, Check>)
    ensures passed == Count(len >= minLength) && total == 1 + Count(len > maxLength)
    ensures MinLength in checks && checks[MinLength] == LengthCheck(minLength, len, len >= minLength)
    ensures MaxLength in checks <==> len > maxLength
    ensures MaxLength in checks ==> checks[MaxLength] == LengthCheck(maxLength, len, false)
    ensures checks.Keys <= {MinLength, MaxLength}
  {
    passed := 0;
    total := 1;
    var lenOk := len >= minLength;
    checks := map[MinLength := LengthCheck(minLength, len, lenOk)];
    if lenOk { passed := passed + 1; }

    if len > maxLength {
      checks := checks[MaxLength := LengthCheck(maxLength, len, false)];
      total := total + 1;
    }
  }

  /** One of the four `if ($requirements['require...'])` blocks: a required
      class adds a check, which passes when the password has a character of
      that class (`ok`). */
  method CountClass(required: bool, key: CheckName, ok: bool, passed0: int, total0: int, checks0: map<CheckName, Check>)
    returns (passed: int, total: int, checks: map<CheckName, Check>)
    ensures passed == passed0 + Count(required && ok) && total == total0 + Count(required)
    ensures checks == AddClassCheck(checks0, required, key, ok)
  {
    passed, total, checks := passed0, total0, checks0;
    if required {
      total := total + 1;
      checks := checks[key := FlagCheck(ok)];
      if ok { passed := passed + 1; }
    }
  }

  /** `$checks` as `validate` fills it, one entry per counted check. */
  function Checks(pw: string, rq: Requirements): map<CheckName, Check> {
    var m := LengthEntries(pw, rq);
    var m := AddClassCheck(m, rq.requireUppercase, RequireUppercase, HasUpper(pw));
    var m := AddClassCheck(m, rq.requireLowercase, RequireLowercase, HasLower(pw));
    var m := AddClassCheck(m, rq.requireNumbers, RequireNumbers, HasDigit(pw));
    AddClassCheck(m, rq.requireSymbols, RequireSymbols, HasSymbol(pw))
  }

  /** The entries of the two length checks. */
  function LengthEntries(pw: string, rq: Requirements): map<CheckName, Check> {
    var m := map[MinLength := LengthCheck(rq.minLength, |pw|, |pw| >= rq.minLength)];
    if |pw| > rq.maxLength then m[MaxLength := LengthCheck(rq.maxLength, |pw|, false)] else m
  }

  function AddClassCheck(m: map<CheckName, Check>, required: bool, key: CheckName, ok: bool): map<CheckName, Check> {
    if required then m[key := FlagCheck(ok)] else m
  }

  /** `calculateStrength($password)`: the alphabet estimate accumulated with
      `+=`, then the threshold table. */
  method CalculateStrength(pw: string) returns (s: Strength)
    ensures s == StrengthOf(pw)
  {
    var entropy := 0;
    if HasLower(pw) { entropy := entropy + 26; }
    if HasUpper(pw) { entropy := entropy + 26; }
    if HasDigit(pw) { entropy := entropy + 10; }
    if HasSymbol(pw) { entropy := entropy + 32; }
    assert entropy == AlphabetSize(pw);
    var base := if entropy == 0 then 1 else entropy;
    var space := Pow(base, |pw|);
    assert space == Pow(if AlphabetSize(pw) == 0 then 1 else AlphabetSize(pw), |pw|);
    if space < Pow(2, 28) { s := MuyDebil; }
    else if space < Pow(2, 36) { s := Debil; }
    else if space < Pow(2, 60) { s := Moderada; }
    else if space < Pow(2, 120) { s := Fuerte; }
    else { s := MuyFuerte; }
  }

  // ---------------------------------------------------------------------
  // Properties

  /** Between 1 and 6 checks are counted, and no more pass than are counted. */
  lemma CountBounds(pw: string, rq: Requirements)
    ensures 1 <= Total(pw, rq) <= 6
    ensures 0 <= Passed(pw, rq) <= Total(pw, rq)
  {
  }

  /** `$passed === $total` exactly when every requirement holds. */
  lemma ValidIffAllPassed(pw: string, rq: Requirements)
    ensures Passed(pw, rq) == Total(pw, rq) <==> MeetsAll(pw, rq)
    ensures Passed(pw, rq) <= Total(pw, rq)
  {
  }

  /** `RoundedPercent(p, t)` is the integer nearest to 100p/t, a half
      rounded up, and so a percentage. */
  lemma RoundedPercentNearest(p: int, t: int)
    requires 0 <= p <= t && 0 < t
    ensures var r := RoundedPercent(p, t);
            && 2 * (r * t - 100 * p) <= t && 2 * (100 * p - r * t) < t
            && 0 <= r <= 100
  {
    var n, d := 200 * p + t, 2 * t;
    var q, m := n / d, n % d;
    assert n == q * d + m && 0 <= m < d;
    assert 2 * (q * t - 100 * p) == t - m;
    assert n < 101 * d;
    QuotientBelow(n, d, 101);
  }

  lemma QuotientBelow(n: int, d: int, c: int)
    requires 0 <= n < c * d && 0 < d
    ensures n / d < c
  {
    var q := n / d;
    assert q * d <= n;
    assert (c - q) * d > 0;
  }

  /** With fewer than 200 checks, a rounded percentage is 100 only when all pass. */
  lemma RoundedPercentFull(p: int, t: int)
    requires 0 <= p <= t && 0 < t < 200
    ensures RoundedPercent(p, t) == 100 <==> p == t
  {
    RoundedPercentNearest(p, t);
    var r := RoundedPercent(p, t);
    if p == t {
      assert 2 * ((r - 100) * t) <= t by { assert r * t - 100 * t == (r - 100) * t; }
      NoMultipleBelow(r - 100, t);
      assert 2 * ((100 - r) * t) <= t by { assert 100 * t - r * t == (100 - r) * t; }
      NoMultipleBelow(100 - r, t);
    }
    if r == 100 {
      assert r * t == 100 * t;
      assert 200 * (t - p) <= t;
    }
  }

  lemma NoMultipleBelow(x: int, t: int)
    requires 0 < t && 2 * (x * t) <= t
    ensures x <= 0
  {
    assert x * t == (x - 1) * t + t;
  }

  /** The score is a percentage, and it is 100 exactly when the password is valid. */
  lemma ScoreFullIffValid(pw: string, rq: Requirements)
    ensures var s := RoundedPercent(Passed(pw, rq), Total(pw, rq));
            0 <= s <= 100 && (s == 100 <==> MeetsAll(pw, rq))
  {
    CountBounds(pw, rq);
    ValidIffAllPassed(pw, rq);
    RoundedPercentNearest(Passed(pw, rq), Total(pw, rq));
    RoundedPercentFull(Passed(pw, rq), Total(pw, rq));
  }

  /** The minimum-length entry is always there; the maximum-length entry is
      there exactly when the password is too long, and then it fails. */
  lemma LengthChecks(pw: string, rq: Requirements)
    ensures MinLength in Checks(pw, rq)
    ensures Checks(pw, rq)[MinLength] == LengthCheck(rq.minLength, |pw|, |pw| >= rq.minLength)
    ensures MaxLength in Checks(pw, rq) <==> |pw| > rq.maxLength
    ensures MaxLength in Checks(pw, rq) ==>
              Checks(pw, rq)[MaxLength] == LengthCheck(rq.maxLength, |pw|, false)
  {
  }

  /** A class entry is there exactly when its class is required, and it
      records whether the password has a character of that class. */
  lemma ClassChecks(pw: string, rq: Requirements)
    ensures RequireUppercase in Checks(pw, rq) <==> rq.requireUppercase
    ensures rq.requireUppercase ==> Checks(pw, rq)[RequireUppercase] == FlagCheck(HasUpper(pw))
    ensures RequireLowercase in Checks(pw, rq) <==> rq.requireLowercase
    ensures rq.requireLowercase ==> Checks(pw, rq)[RequireLowercase] == FlagCheck(HasLower(pw))
    ensures RequireNumbers in Checks(pw, rq) <==> rq.requireNumbers
    ensures rq.requireNumbers ==> Checks(pw, rq)[RequireNumbers] == FlagCheck(HasDigit(pw))
    ensures RequireSymbols in Checks(pw, rq) <==> rq.requireSymbols
    ensures rq.requireSymbols ==> Checks(pw, rq)[RequireSymbols] == FlagCheck(HasSymbol(pw))
  {
  }

  /** There is one entry per counted check, and no other. */
  lemma ChecksCounted(pw: string, rq: Requirements)
    ensures |Checks(pw, rq).Keys| == Total(pw, rq)
  {
    var m0 := LengthEntries(pw, rq);
    assert m0.Keys == if |pw| > rq.maxLength then {MinLength, MaxLength} else {MinLength};
    ClassChecksCounted(m0, rq.requireUppercase, rq.requireLowercase, rq.requireNumbers, rq.requireSymbols,
                       HasUpper(pw), HasLower(pw), HasDigit(pw), HasSymbol(pw));
  }

  /** The four class checks add one entry per required class. */
  lemma ClassChecksCounted(m: map<CheckName, Check>, u: bool, l: bool, n: bool, s: bool,
                           hu: bool, hl: bool, hn: bool, hs: bool)
    requires RequireUppercase !in m && RequireLowercase !in m && RequireNumbers !in m && RequireSymbols !in m
    ensures var m1 := AddClassCheck(m, u, RequireUppercase, hu);
            var m2 := AddClassCheck(m1, l, RequireLowercase, hl);
            var m3 := AddClassCheck(m2, n, RequireNumbers, hn);
            |AddClassCheck(m3, s, RequireSymbols, hs).Keys| == |m.Keys| + Count(u) + Count(l) + Count(n) + Count(s)
  {
    var m1 := AddClassCheck(m, u, RequireUppercase, hu);
    AddClassCheckKeys(m, u, RequireUppercase, hu);
    var m2 := AddClassCheck(m1, l, RequireLowercase, hl);
    AddClassCheckKeys(m1, l, RequireLowercase, hl);
    var m3 := AddClassCheck(m2, n, RequireNumbers, hn);
    AddClassCheckKeys(m2, n, RequireNumbers, hn);
    AddClassCheckKeys(m3, s, RequireSymbols, hs);
  }

  /** A class check adds a new entry exactly when its class is required. */
  lemma AddClassCheckKeys(m: map<CheckName, Check>, required: bool, key: CheckName, ok: bool)
    requires key !in m
    ensures AddClassCheck(m, required, key, ok).Keys == if required then m.Keys + {key} else m.Keys
    ensures |AddClassCheck(m, required, key, ok).Keys| == |m.Keys| + Count(required)
  {
  }

  /** `validate("abc", ['requireUppercase' => true])`: both counted checks
      fail, the score is 0 and the password is invalid. */
  lemma ShortLowerCaseExample()
    ensures var rq := WithDefaults(map["requireUppercase" := Bool(true)]);
            && Passed("abc", rq) == 0 && Total("abc", rq) == 2
            && RoundedPercent(0, 2) == 0 && !MeetsAll("abc", rq)
  {
    var rq := WithDefaults(map["requireUppercase" := Bool(true)]);
    assert !HasUpper("abc") by {
      forall i | 0 <= i < 3 ensures !IsUpper("abc"[i]) { }
    }
  }

  /** `validate("Abcdef12", [])`: only the minimum length is counted, and it passes. */
  lemma DefaultRequirementsExample()
    ensures var rq := WithDefaults(NoRequirements);
            && Passed("Abcdef12", rq) == 1 && Total("Abcdef12", rq) == 1
            && RoundedPercent(1, 1) == 100 && MeetsAll("Abcdef12", rq)
  {
  }

  /** Requirements are read the PHP way: a null minimum is `(int)null == 0`,
      the string "10" is the number 10, the string "false" is a true flag
      and the string "0" a false one. */
  lemma LooseRequirementsExample()
    ensures var rq := WithDefaults(map["minLength" := Null, "maxLength" := Text("10"),
                                       "requireUppercase" := Text("false"), "requireNumbers" := Text("0")]);
            && rq.minLength == 0 && rq.maxLength == 10
            && rq.requireUppercase && !rq.requireNumbers && !rq.requireLowercase
  {
    assert "10"[1..] == "0";
  }

  /** Every character belongs to one of the four classes, so only the empty
      password has an alphabet of size 0 and the strength `muy_debil`. */
  lemma EmptyAlphabet(pw: string)
    ensures AlphabetSize(pw) == 0 <==> pw == []
    ensures pw == [] ==> StrengthOf(pw) == MuyDebil
  {
    PowPositive(2, 27);
    if pw != [] {
      var c := pw[0];
      if IsLower(c) { assert HasLower(pw); }
      else if IsUpper(c) { assert HasUpper(pw); }
      else if IsDigit(c) { assert HasDigit(pw); }
      else { assert HasSymbol(pw); }
    }
  }

  lemma {:induction false} PowPositive(b: nat, e: nat)
    requires b >= 1
    ensures Pow(b, e) >= 1
  {
    if e > 0 { PowPositive(b, e - 1); }
  }

  lemma {:induction false} PowMonotoneInBase(a: nat, b: nat, e: nat)
    requires a <= b
    ensures Pow(a, e) <= Pow(b, e)
  {
    if e > 0 {
      PowMonotoneInBase(a, b, e - 1);
      MulMonotone(a, Pow(a, e - 1), b, Pow(b, e - 1));
    }
  }

  lemma MulMonotone(a: nat, x: nat, b: nat, y: nat)
    requires a <= b && x <= y
    ensures a * x <= b * y
  {
    assert a * x <= b * x;
    assert b * x <= b * y;
  }

  /** A longer password over the same alphabet is never weaker. */
  lemma StrengthMonotoneInLength(a: nat, len: nat)
    ensures Rank(StrengthFor(a, len)) <= Rank(StrengthFor(a, len + 1))
  {
    var base := if a == 0 then 1 else a;
    PowPositive(base, len);
    assert Pow(base, len + 1) == base * Pow(base, len);
    MulMonotone(1, Pow(base, len), base, Pow(base, len));
  }

  /** A larger alphabet at the same length is never weaker. */
  lemma StrengthMonotoneInAlphabet(a: nat, b: nat, len: nat)
    requires a <= b
    ensures Rank(StrengthFor(a, len)) <= Rank(StrengthFor(b, len))
  {
    PowMonotoneInBase(if a == 0 then 1 else a, if b == 0 then 1 else b, len);
  }

  /** Over a power-of-two alphabet the strength is read off the bit count
      exactly: `(2^k)^n == 2^(k*n)`. */
  lemma {:induction false} PowOfPow(k: nat, n: nat)
    ensures Pow(Pow(2, k), n) == Pow(2, k * n)
  {
    if n > 0 {
      PowOfPow(k, n - 1);
      PowAdd(2, k, k * (n - 1));
      assert k + k * (n - 1) == k * n;
    }
  }

  lemma {:induction false} PowAdd(b: nat, x: nat, y: nat)
    ensures Pow(b, x + y) == Pow(b, x) * Pow(b, y)
  {
    if x > 0 {
      PowAdd(b, x - 1, y);
      assert Pow(b, x + y) == b * Pow(b, x - 1 + y);
    }
  }

  /** Powers of two grow strictly. */
  lemma {:induction false} PowTwoIncreasing(x: nat, y: nat)
    requires x < y
    ensures Pow(2, x) < Pow(2, y)
    decreases y - x
  {
    PowPositive(2, x);
    if y == x + 1 {
      assert Pow(2, y) == 2 * Pow(2, x);
    } else {
      PowTwoIncreasing(x, y - 1);
      PowTwoIncreasing(y - 1, y);
    }
  }

  /** With 2^bits possibilities, the label is the one the bit count selects. */
  lemma StrengthOfExactBits(a: nat, len: nat, bits: nat)
    requires Pow(if a == 0 then 1 else a, len) == Pow(2, bits)
    ensures StrengthFor(a, len) ==
              if bits < 28 then MuyDebil else if bits < 36 then Debil
              else if bits < 60 then Moderada else if bits < 120 then Fuerte else MuyFuerte
  {
    forall t: nat ensures Pow(2, bits) < Pow(2, t) <==> bits < t {
      if bits < t { PowTwoIncreasing(bits, t); }
      else if t < bits { PowTwoIncreasing(t, bits); }
    }
  }

  /** The alphabet of symbols alone has 32 characters, exactly 5 bits each
      (the floating-point `log(32, 2)` is assumed to give exactly 5), so
      lengths 12 and 24 sit on the 60- and 120-bit thresholds and take the
      stronger label. */
  lemma SymbolOnlyBoundaries()
    ensures StrengthFor(32, 11) == Moderada && StrengthFor(32, 12) == Fuerte
    ensures StrengthFor(32, 23) == Fuerte && StrengthFor(32, 24) == MuyFuerte
  {
    assert Pow(2, 5) == 32;
    PowOfPow(5, 11);
    StrengthOfExactBits(32, 11, 55);
    PowOfPow(5, 12);
    StrengthOfExactBits(32, 12, 60);
    PowOfPow(5, 23);
    StrengthOfExactBits(32, 23, 115);
    PowOfPow(5, 24);
    StrengthOfExactBits(32, 24, 120);
  }

  /** Four lower-case letters (about 18.8 bits) are `muy_debil`. */
  lemma ShortLowerCaseStrength()
    ensures StrengthFor(26, 4) == MuyDebil
  {
    assert Pow(2, 5) == 32;
    PowMonotoneInBase(26, 32, 4);
    PowOfPow(5, 4);
    PowTwoIncreasing(20, 28);
  }

  /** Twenty characters over all 94 (about 131 bits) are `muy_fuerte`. */
  lemma LongMixedStrength()
    ensures StrengthFor(94, 20) == MuyFuerte
  {
    assert Pow(2, 6) == 64;
    PowMonotoneInBase(64, 94, 20);
    PowOfPow(6, 20);
    PowTwoIncreasing(28, 120);
    PowTwoIncreasing(36, 120);
    PowTwoIncreasing(60, 120);
  }
}
