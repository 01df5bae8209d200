/** `PasswordGenerator` (models/Passwordgenerator.php): composes the enabled
    character classes, removes excluded characters, seeds one character per
    class, fills up from the pool of all filtered classes and shuffles the
    result with Fisher-Yates.

    `Generate` is the specification of one call of `generate_password`, as a
    function of the random stream; `GeneratePassword` is the imperative
    algorithm, proved to compute it; the lemmas state what every generated
    password satisfies. */
module PasswordGenerator {
  import opened Wrappers
  import opened Random

  datatype CharClass = Upper | Lower | Digits | Symbols

  /** The key of the class in the source's `$sets` array, used in the error message. */
  function ClassName(c: CharClass): string {
    match c
    case Upper => "upper"
    case Lower => "lower"
    case Digits => "digits"
    case Symbols => "symbols"
  }

  const UpperChars: string := "ABCDEFGHIJKLMNOPQRSTUVWXYZ"
  const LowerChars: string := "abcdefghijklmnopqrstuvwxyz"
  const DigitChars: string := "0123456789"
  const SymbolChars: string := "!@#$%^&*()-_=+[]{}|;:,.<>?"

  function ClassChars(c: CharClass): string {
    match c
    case Upper => UpperChars
    case Lower => LowerChars
    case Digits => DigitChars
    case Symbols => SymbolChars
  }

  const Ambiguous: string := "Il1O0o"

  /** The seven options after `array_merge` with the defaults. */
  datatype Options = Options(
    upper: bool, lower: bool, digits: bool, symbols: bool,
    avoidAmbiguous: bool, exclude: string, requireEach: bool)

  /** The `$opts` array a caller passes: every key may be absent. */
  datatype OptionOverrides = OptionOverrides(
    upper: Option<bool>, lower: Option<bool>, digits: Option<bool>, symbols: Option<bool>,
    avoidAmbiguous: Option<bool>, exclude: Option<string>, requireEach: Option<bool>)

  const NoOverrides := OptionOverrides(None, None, None, None, None, None, None)

  /** `array_merge($defaults, $opts)`: a given key wins, a missing one takes
      the generator's default (every class on, ambiguous characters avoided,
      nothing else excluded, one character of each class required). */
  function WithDefaults(o: OptionOverrides): Options {
    Options(o.upper.GetOr(true), o.lower.GetOr(true), o.digits.GetOr(true), o.symbols.GetOr(true),
            o.avoidAmbiguous.GetOr(true), o.exclude.GetOr(""), o.requireEach.GetOr(true))
  }

  datatype GenError = InvalidLength | NoClassEnabled | ClassExhausted(cls: CharClass) | EmptyPool

  /** The `InvalidArgumentException` messages. */
  function Message(e: GenError): string {
    match e
    case InvalidLength => "La longitud debe ser >= 1."
    case NoClassEnabled => "Debe activarse al menos una categoría (upper/lower/digits/symbols)."
    case ClassExhausted(c) =>
      "Después de aplicar exclusiones, la categoría '" + ClassName(c) + "' no tiene caracteres disponibles."
    case EmptyPool => "No hay caracteres disponibles (pool vacío)."
  }

  /** The enabled classes, in the fixed order upper, lower, digits, symbols. */
  function Enabled(o: Options): (r: seq<CharClass>)
    ensures |r| <= 4
  {
    (if o.upper then [Upper] else []) + (if o.lower then [Lower] else []) +
    (if o.digits then [Digits] else []) + (if o.symbols then [Symbols] else [])
  }

  /** A class is enabled exactly when its flag is set; none is listed twice. */
  lemma EnabledMembers(o: Options)
    ensures Upper in Enabled(o) <==> o.upper
    ensures Lower in Enabled(o) <==> o.lower
    ensures Digits in Enabled(o) <==> o.digits
    ensures Symbols in Enabled(o) <==> o.symbols
    ensures forall i, j :: 0 <= i < j < |Enabled(o)| ==> Enabled(o)[i] != Enabled(o)[j]
  {
  }

  /** `$exclude_chars`: the explicit exclusions, plus the ambiguous glyphs when asked. */
  function ExcludeChars(o: Options): string {
    o.exclude + (if o.avoidAmbiguous then Ambiguous else "")
  }

  /** The `array_filter` step: the characters of `s` that are not excluded, in order. */
  function Filter(s: string, ex: string): (r: string)
    ensures |r| <= |s|
  {
    if s == [] then []
    else (if s[0] in ex then [] else [s[0]]) + Filter(s[1..], ex)
  }

  /** A character survives the filter exactly when it is in `s` and not excluded. */
  lemma {:induction false} FilterMembers(s: string, ex: string, c: char)
    ensures c in Filter(s, ex) <==> c in s && c !in ex
  {
    if s != [] {
      FilterMembers(s[1..], ex, c);
      assert s == [s[0]] + s[1..];
    }
  }

  /** `$sets` before filtering: the alphabet of every enabled class, in class order. */
  function RawSets(o: Options): (r: seq<string>)
    ensures |r| == |Enabled(o)|
  {
    seq(|Enabled(o)|, i requires 0 <= i < |Enabled(o)| => ClassChars(Enabled(o)[i]))
  }

  /** Every string of `raw` after removing the characters of `ex`. */
  function FilterEach(raw: seq<string>, ex: string): (r: seq<string>)
    ensures |r| == |raw|
  {
    seq(|raw|, i requires 0 <= i < |raw| => Filter(raw[i], ex))
  }

  /** The filtered `$sets`, one string per enabled class, in class order. */
  function FilteredSets(o: Options): (r: seq<string>)
    ensures |r| == |Enabled(o)|
  {
    FilterEach(RawSets(o), ExcludeChars(o))
  }

  /** No character of class `c` survives the exclusions. */
  predicate Exhausted(c: CharClass, o: Options) {
    Filter(ClassChars(c), ExcludeChars(o)) == []
  }

  /** The index, from `start` on, of the first empty string, if any. */
  function FirstEmpty(sets: seq<string>, start: nat): (r: Option<nat>)
    requires start <= |sets|
    ensures r.Some? ==> start <= r.value < |sets| && sets[r.value] == []
    ensures r.Some? ==> forall j :: start <= j < r.value ==> sets[j] != []
    ensures r.None? <==> forall j :: start <= j < |sets| ==> sets[j] != []
    decreases |sets| - start
  {
    if start == |sets| then None
    else if sets[start] == [] then Some(start)
    else FirstEmpty(sets, start + 1)
  }

  /** The first empty string from `start` on is the one at `i` when none
      before it is empty. */
  lemma {:induction false} FirstEmptyIs(sets: seq<string>, start: nat, i: nat)
    requires start <= i < |sets| && sets[i] == []
    requires forall j :: start <= j < i ==> sets[j] != []
    ensures FirstEmpty(sets, start) == Some(i)
    decreases i - start
  {
    if start < i {
      FirstEmptyIs(sets, start + 1, i);
    }
  }

  /** The exception `generate_password` throws before drawing anything, if any. */
  function ConfigError(length: int, o: Options): (r: Option<GenError>)
    ensures r.None? <==> length >= 1 && Enabled(o) != [] && AllNonEmpty(FilteredSets(o))
  {
    if length < 1 then Some(InvalidLength)
    else if Enabled(o) == [] then Some(NoClassEnabled)
    else match FirstEmpty(FilteredSets(o), 0)
      case Some(i) => Some(ClassExhausted(Enabled(o)[i]))
      case None => None
  }

  /** `implode('', $parts)`. */
  function Concat(parts: seq<string>): string {
    if parts == [] then [] else parts[0] + Concat(parts[1..])
  }

  /** A character is in the concatenation exactly when it is in one of the parts. */
  lemma {:induction false} ConcatMembers(parts: seq<string>, c: char)
    ensures c in Concat(parts) <==> exists i :: 0 <= i < |parts| && c in parts[i]
  {
    if parts != [] {
      ConcatMembers(parts[1..], c);
      if c in Concat(parts[1..]) {
        var i :| 0 <= i < |parts| - 1 && c in parts[1..][i];
        assert c in parts[i + 1];
      }
      if exists i :: 0 <= i < |parts| && c in parts[i] {
        var i :| 0 <= i < |parts| && c in parts[i];
        if i > 0 { assert c in parts[1..][i - 1]; }
      }
    }
  }

  lemma ConcatHasPart(parts: seq<string>, i: nat, c: char)
    requires i < |parts| && c in parts[i]
    ensures c in Concat(parts)
  {
    ConcatMembers(parts, c);
  }

  /** `$pool`: the filtered classes concatenated, duplicates kept. */
  function Pool(o: Options): string {
    Concat(FilteredSets(o))
  }

  predicate AllNonEmpty(sets: seq<string>) {
    forall i :: 0 <= i < |sets| ==> sets[i] != []
  }

  /** The `require_each` seed: one character of every class, drawn by calls
      k, k+1, ... of the oracle. */
  function Seeds(sets: seq<string>, stream: nat -> int, k: nat): (r: string)
    requires AllNonEmpty(sets)
    ensures |r| == |sets|
  {
    seq(|sets|, i requires 0 <= i < |sets| => sets[i][Draw(stream, k + i, 0, |sets[i]| - 1)])
  }

  /** `n` characters of the pool, drawn by calls k, k+1, ... of the oracle. */
  function Fill(pool: string, n: nat, stream: nat -> int, k: nat): (r: string)
    requires pool != []
    ensures |r| == n
  {
    seq(n, i requires 0 <= i < n => pool[Draw(stream, k + i, 0, |pool| - 1)])
  }

  /** `$needed`, or rather the number of times the fill loop runs: a negative
      `$length - count($password_chars)` runs it zero times. */
  function FillCount(length: int, seeded: nat): nat {
    if length > seeded then length - seeded else 0
  }

  function SwapAt(s: string, i: nat, j: nat): string
    requires i < |s| && j < |s|
  {
    s[i := s[j]][j := s[i]]
  }

  /** The steps of `shuffle_secure` for positions i, i-1, ..., 1: position i
      is swapped with the answer j of `random_int(0, i)`. */
  function ShuffleSteps(s: string, i: int, stream: nat -> int, k: nat): (r: string)
    requires i < |s|
    decreases i
  {
    if i <= 0 then s
    else ShuffleSteps(SwapAt(s, i, Draw(stream, k, 0, i)), i - 1, stream, k + 1)
  }

  /** `shuffle_secure($str)`, using calls k, k+1, ... of the oracle. */
  function Shuffled(s: string, stream: nat -> int, k: nat): string {
    ShuffleSteps(s, |s| - 1, stream, k)
  }

  /** The number of oracle calls `shuffle_secure` makes on n characters. */
  function ShuffleDraws(n: nat): nat {
    if n > 0 then n - 1 else 0
  }

  /** The drawing part of `generate_password` once the configuration is
      accepted: the seed (with `require_each`), the fill from the pool of all
      classes `sets`, and the shuffle, using calls k, k+1, ... of the oracle.
      The result and the number of the next free oracle call. */
  function Assemble(sets: seq<string>, requireEach: bool, length: int, stream: nat -> int, k: nat)
    : (string, nat)
    requires sets != [] && AllNonEmpty(sets)
  {
    var chars := Drawn(sets, requireEach, length, stream, k);
    var k' := k + |chars|;
    (Shuffled(chars, stream, k'), k' + ShuffleDraws(|chars|))
  }

  /** `$password_chars` before the shuffle: the seed, then the fill. */
  function Drawn(sets: seq<string>, requireEach: bool, length: int, stream: nat -> int, k: nat): string
    requires sets != [] && AllNonEmpty(sets)
  {
    ConcatHasPart(sets, 0, sets[0][0]);
    var seed := if requireEach then Seeds(sets, stream, k) else [];
    seed + Fill(Concat(sets), FillCount(length, |seed|), stream, k + |seed|)
  }

  /** One call `generate_password($length, $opts)` whose first oracle call is
      number k: the result and the number of the next free oracle call. */
  function Generate(length: int, overrides: OptionOverrides, stream: nat -> int, k: nat)
    : (Result<string, GenError>, nat)
  {
    var o := WithDefaults(overrides);
    match ConfigError(length, o)
    case Some(e) => (Failure(e), k)
    case None =>
      var (pw, k') := Assemble(FilteredSets(o), o.requireEach, length, stream, k);
      (Success(pw), k')
  }

  /** `generate_passwords($count, $length, $opts)` whose first oracle call is
      number k: `count` calls in a row; the first failure aborts the batch. */
  function GenerateMany(count: int, length: int, overrides: OptionOverrides, stream: nat -> int, k: nat)
    : (Result<seq<string>, GenError>, nat)
    decreases if count > 0 then count else 0
  {
    if count <= 0 then (Success([]), k)
    else
      var (first, k') := Generate(length, overrides, stream, k);
      match first
      case Failure(e) => (Failure(e), k')
      case Success(p) =>
        var (rest, k'') := GenerateMany(count - 1, length, overrides, stream, k');
        (Prepend(p, rest), k'')
  }

  function Prepend(p: string, r: Result<seq<string>, GenError>): Result<seq<string>, GenError> {
    match r
    case Success(ps) => Success([p] + ps)
    case Failure(e) => Failure(e)
  }

  // ---------------------------------------------------------------------
  // What every generated password satisfies

  /** The length the source produces: `length`, except that with
      `require_each` and fewer positions than classes the seed alone,
      one character per class, is returned. */
  function ExpectedLength(length: int, o: Options): int {
    if o.requireEach && length < |Enabled(o)| then |Enabled(o)| else length
  }

  predicate Covers(pw: string, set_: string) {
    exists c :: c in pw && c in set_
  }

  /** The promises of `generate_password` about a successful result. */
  predicate Meets(pw: string, length: int, o: Options) {
    && |pw| == ExpectedLength(length, o)
    && (forall c :: c in pw ==> c in Pool(o))
    && (o.requireEach ==> forall i :: 0 <= i < |FilteredSets(o)| ==> Covers(pw, FilteredSets(o)[i]))
  }

  lemma SwapPreservesMultiset(s: string, i: nat, j: nat)
    requires i < |s| && j < |s|
    ensures |SwapAt(s, i, j)| == |s|
    ensures multiset(SwapAt(s, i, j)) == multiset(s)
  {
    var t := s[i := s[j]];
    assert multiset(t) == multiset(s) - multiset{s[i]} + multiset{s[j]};
    assert t[j] == s[j] || (i == j);
    assert multiset(t[j := s[i]]) == multiset(t) - multiset{t[j]} + multiset{s[i]};
  }

  /** The shuffle is a permutation: same length, same multiset of characters. */
  lemma {:induction false} ShuffleStepsPermutes(s: string, i: int, stream: nat -> int, k: nat)
    requires i < |s|
    ensures |ShuffleSteps(s, i, stream, k)| == |s|
    ensures multiset(ShuffleSteps(s, i, stream, k)) == multiset(s)
    decreases i
  {
    if i > 0 {
      var j := Draw(stream, k, 0, i);
      SwapPreservesMultiset(s, i, j);
      ShuffleStepsPermutes(SwapAt(s, i, j), i - 1, stream, k + 1);
    }
  }

  lemma ShuffledPermutes(s: string, stream: nat -> int, k: nat)
    ensures |Shuffled(s, stream, k)| == |s|
    ensures multiset(Shuffled(s, stream, k)) == multiset(s)
  {
    ShuffleStepsPermutes(s, |s| - 1, stream, k);
  }

  /** Every character of the pool is in some filtered class and is never an
      excluded character. */
  lemma PoolAvoidsExclusions(o: Options, c: char)
    requires c in Pool(o)
    ensures c !in ExcludeChars(o)
    ensures exists i :: 0 <= i < |Enabled(o)| && c in ClassChars(Enabled(o)[i])
  {
    var sets := FilteredSets(o);
    ConcatMembers(sets, c);
    var i :| 0 <= i < |sets| && c in sets[i];
    FilterMembers(ClassChars(Enabled(o)[i]), ExcludeChars(o), c);
  }

  lemma SeedsFromTheirClasses(sets: seq<string>, stream: nat -> int, k: nat, i: nat)
    requires AllNonEmpty(sets) && i < |sets|
    ensures Seeds(sets, stream, k)[i] in sets[i]
  {
  }

  lemma FillFromThePool(pool: string, n: nat, stream: nat -> int, k: nat, c: char)
    requires pool != [] && c in Fill(pool, n, stream, k)
    ensures c in pool
  {
    var m :| 0 <= m < n && Fill(pool, n, stream, k)[m] == c;
    assert c == pool[Draw(stream, k + m, 0, |pool| - 1)];
  }

  /** Every character of `$password_chars` is in the pool. */
  lemma DrawnCharInPool(sets: seq<string>, requireEach: bool, length: int, stream: nat -> int, k: nat, c: char)
    requires sets != [] && AllNonEmpty(sets) && c in Drawn(sets, requireEach, length, stream, k)
    ensures c in Concat(sets)
  {
    var seed := if requireEach then Seeds(sets, stream, k) else [];
    ConcatHasPart(sets, 0, sets[0][0]);
    if c in seed {
      var n :| 0 <= n < |seed| && seed[n] == c;
      SeedsFromTheirClasses(sets, stream, k, n);
      ConcatHasPart(sets, n, c);
    } else {
      FillFromThePool(Concat(sets), FillCount(length, |seed|), stream, k + |seed|, c);
    }
  }

  /** `$password_chars` has `length` characters, or the seed's when that is
      longer; with `require_each` it starts with one character of each class. */
  lemma DrawnShape(sets: seq<string>, requireEach: bool, length: int, stream: nat -> int, k: nat)
    requires sets != [] && AllNonEmpty(sets) && length >= 1
    ensures |Drawn(sets, requireEach, length, stream, k)| ==
            (if requireEach && length < |sets| then |sets| else length)
    ensures requireEach ==>
              forall i :: 0 <= i < |sets| ==> Drawn(sets, requireEach, length, stream, k)[i] in sets[i]
  {
    if requireEach {
      forall i | 0 <= i < |sets| ensures Drawn(sets, requireEach, length, stream, k)[i] in sets[i] {
        SeedsFromTheirClasses(sets, stream, k, i);
      }
    }
  }

  /** What `Assemble` promises for a length of at least 1: the length (the
      seed alone when it is longer than `length`), characters from the pool
      only, and with `require_each` a character of every class. */
  lemma AssembleMeets(sets: seq<string>, requireEach: bool, length: int, stream: nat -> int, k: nat)
    requires sets != [] && AllNonEmpty(sets) && length >= 1
    ensures var pw := Assemble(sets, requireEach, length, stream, k).0;
            |pw| == (if requireEach && length < |sets| then |sets| else length)
    ensures forall c :: c in Assemble(sets, requireEach, length, stream, k).0 ==> c in Concat(sets)
    ensures requireEach ==>
              forall i :: 0 <= i < |sets| ==> Covers(Assemble(sets, requireEach, length, stream, k).0, sets[i])
  {
    var chars := Drawn(sets, requireEach, length, stream, k);
    var pw := Assemble(sets, requireEach, length, stream, k).0;
    ShuffledPermutes(chars, stream, k + |chars|);
    DrawnShape(sets, requireEach, length, stream, k);
    forall c | c in pw ensures c in Concat(sets) {
      assert c in multiset(chars);
      DrawnCharInPool(sets, requireEach, length, stream, k, c);
    }
    if requireEach {
      forall i | 0 <= i < |sets| ensures Covers(pw, sets[i]) {
        assert chars[i] in multiset(pw);
      }
    }
  }

  /** Every successful `generate_password` meets its promises: its length is
      `ExpectedLength`, every character comes from the pool, and with
      `require_each` every enabled class is represented. */
  lemma GeneratedPasswordMeets(length: int, overrides: OptionOverrides, stream: nat -> int, k: nat)
    requires Generate(length, overrides, stream, k).0.Success?
    ensures Meets(Generate(length, overrides, stream, k).0.value, length, WithDefaults(overrides))
  {
    var o := WithDefaults(overrides);
    AssembleMeets(FilteredSets(o), o.requireEach, length, stream, k);
  }

  /** Failure happens exactly for a bad configuration, and which error is
      raised follows the source's order of checks. */
  lemma GenerateFailsOnlyOnConfig(length: int, overrides: OptionOverrides, stream: nat -> int, k: nat)
    ensures var o := WithDefaults(overrides);
            var r := Generate(length, overrides, stream, k).0;
            && (r.Failure? <==> ConfigError(length, o).Some?)
            && (r.Failure? ==>
                  r.error == ConfigError(length, o).value && Generate(length, overrides, stream, k).1 == k)
  {
  }

  /** Class `c`, at position i of the enabled classes, is the first one that
      the exclusions empty. */
  predicate FirstExhaustedAt(o: Options, c: CharClass, i: int) {
    && 0 <= i < |Enabled(o)| && Enabled(o)[i] == c && FilteredSets(o)[i] == []
    && forall j :: 0 <= j < i ==> FilteredSets(o)[j] != []
  }

  /** The filtered set at position i is empty exactly when its class is exhausted. */
  lemma FilteredSetEmpty(o: Options, i: nat)
    requires i < |Enabled(o)|
    ensures FilteredSets(o)[i] == [] <==> Exhausted(Enabled(o)[i], o)
  {
  }

  /** The error conditions in the order the source tests them, and the pool
      check that can never fire. */
  lemma ConfigErrorOrder(length: int, o: Options)
    ensures ConfigError(length, o) == Some(InvalidLength) <==> length < 1
    ensures ConfigError(length, o) == Some(NoClassEnabled) <==>
      length >= 1 && !o.upper && !o.lower && !o.digits && !o.symbols
    ensures ConfigError(length, o) != Some(EmptyPool)
  {
    EnabledMembers(o);
  }

  /** `ClassExhausted(c)` is raised exactly when the length is valid and `c`
      is the first enabled class the exclusions empty. */
  lemma ConfigErrorExhausted(length: int, o: Options, c: CharClass)
    ensures ConfigError(length, o) == Some(ClassExhausted(c)) <==>
      (length >= 1 && exists i :: FirstExhaustedAt(o, c, i))
  {
    if length >= 1 && exists i :: FirstExhaustedAt(o, c, i) {
      var i :| FirstExhaustedAt(o, c, i);
      FirstEmptyIs(FilteredSets(o), 0, i);
    }
    if ConfigError(length, o) == Some(ClassExhausted(c)) {
      assert FirstExhaustedAt(o, c, FirstEmpty(FilteredSets(o), 0).value);
    }
  }

  /** With `avoid_ambiguous`, none of `I l 1 O 0 o` can appear. */
  lemma NoAmbiguousCharacters(length: int, overrides: OptionOverrides, stream: nat -> int, k: nat, c: char)
    requires Generate(length, overrides, stream, k).0.Success?
    requires WithDefaults(overrides).avoidAmbiguous || c in WithDefaults(overrides).exclude
    requires c in Ambiguous || c in WithDefaults(overrides).exclude
    ensures c !in Generate(length, overrides, stream, k).0.value
  {
    var o := WithDefaults(overrides);
    GeneratedPasswordMeets(length, overrides, stream, k);
    if c in Generate(length, overrides, stream, k).0.value {
      PoolAvoidsExclusions(o, c);
    }
  }

  /** A batch of `count` is `max(count, 0)` passwords, each meeting the
      promises; a non-positive count succeeds with no password even for a bad
      configuration; otherwise the batch fails exactly when one call would. */
  lemma {:induction false} GenerateManyMeets(count: int, length: int, overrides: OptionOverrides, stream: nat -> int, k: nat)
    ensures var r := GenerateMany(count, length, overrides, stream, k).0;
            && (count <= 0 ==> r == Success([]))
            && (count > 0 ==> (r.Success? <==> ConfigError(length, WithDefaults(overrides)).None?))
            && (r.Success? ==> |r.value| == (if count > 0 then count else 0))
            && (r.Success? ==> forall i :: 0 <= i < |r.value| ==> Meets(r.value[i], length, WithDefaults(overrides)))
    decreases if count > 0 then count else 0
  {
    if count > 0 {
      var (first, k') := Generate(length, overrides, stream, k);
      GenerateFailsOnlyOnConfig(length, overrides, stream, k);
      if first.Success? {
        GeneratedPasswordMeets(length, overrides, stream, k);
        GenerateManyMeets(count - 1, length, overrides, stream, k');
        var rest := GenerateMany(count - 1, length, overrides, stream, k').0;
        if count - 1 > 0 {
          GenerateFailsOnlyOnConfig(length, overrides, stream, k');
        }
        assert rest.Success?;
        var all := GenerateMany(count, length, overrides, stream, k).0;
        assert all == Success([first.value] + rest.value);
        forall i | 0 <= i < |all.value| ensures Meets(all.value[i], length, WithDefaults(overrides)) {
          if i > 0 { assert all.value[i] == rest.value[i - 1]; }
        }
      }
    }
  }

  // ---------------------------------------------------------------------
  // The imperative algorithm

  /** `shuffle_secure`: Fisher-Yates in place on an array of the characters,
      from the last position down to 1. */
  method ShuffleSecure(s: string, stream: nat -> int, k0: nat) returns (r: string, k1: nat)
    ensures r == Shuffled(s, stream, k0) && k1 == k0 + ShuffleDraws(|s|)
    ensures multiset(r) == multiset(s) && |r| == |s|
  {
    var arr := new char[|s|](i requires 0 <= i < |s| => s[i]);
    assert arr[..] == s;
    var n := arr.Length;
    var i := n - 1;
    var k := k0;
    while i > 0
      invariant -1 <= i < n && (n > 0 ==> 0 <= i)
      invariant k == k0 + (n - 1 - i)
      invariant ShuffleSteps(arr[..], i, stream, k) == Shuffled(s, stream, k0)
    {
      var j := Draw(stream, k, 0, i);
      ghost var before := arr[..];
      var tmp := arr[i];
      arr[i] := arr[j];
      arr[j] := tmp;
      assert arr[..] == SwapAt(before, i, j);
      i := i - 1;
      k := k + 1;
    }
    r := arr[..];
    k1 := k;
    ShuffledPermutes(s, stream, k0);
  }

  /** The `foreach ($sets ...)` filtering loop: each class loses its
      excluded characters; the position of the first class left empty is
      the error. */
  method FilterClasses(raw: seq<string>, excludeChars: string) returns (r: Result<seq<string>, nat>)
    ensures r.Success? ==> r.value == FilterEach(raw, excludeChars) && AllNonEmpty(r.value)
    ensures r.Failure? ==> FirstEmpty(FilterEach(raw, excludeChars), 0) == Some(r.error)
  {
    ghost var all := FilterEach(raw, excludeChars);
    var sets: seq<string> := [];
    var i := 0;
    while i < |raw|
      invariant 0 <= i <= |raw|
      invariant sets == all[..i] && AllNonEmpty(sets)
    {
      var filtered := Filter(raw[i], excludeChars);
      if filtered == [] {
        FirstEmptyIs(all, 0, i);
        return Failure(i);
      }
      sets := sets + [filtered];
      i := i + 1;
    }
    assert sets == all;
    return Success(sets);
  }

  /** The `require_each` loop: one character drawn from every class. */
  method SeedFromEachClass(sets: seq<string>, stream: nat -> int, k0: nat) returns (chars: string, k1: nat)
    requires AllNonEmpty(sets)
    ensures chars == Seeds(sets, stream, k0) && k1 == k0 + |sets|
  {
    chars := [];
    var k := k0;
    var m := 0;
    while m < |sets|
      invariant 0 <= m <= |sets|
      invariant |chars| == m && k == k0 + m
      invariant forall j :: 0 <= j < m ==> chars[j] == sets[j][Draw(stream, k0 + j, 0, |sets[j]| - 1)]
    {
      var idx := Draw(stream, k, 0, |sets[m]| - 1);
      chars := chars + [sets[m][idx]];
      k := k + 1;
      m := m + 1;
    }
    k1 := k;
  }

  /** The fill loop: `needed` characters drawn from the pool appended to
      `chars`; a non-positive `needed` appends none. */
  method FillFromPool(chars: string, pool: string, needed: int, stream: nat -> int, k0: nat)
    returns (out: string, k1: nat)
    requires pool != []
    ensures var n := if needed > 0 then needed else 0;
            out == chars + Fill(pool, n, stream, k0) && k1 == k0 + n
  {
    out := chars;
    var k := k0;
    var i := 0;
    while i < needed
      invariant 0 <= i && (needed > 0 ==> i <= needed) && (needed <= 0 ==> i == 0)
      invariant |out| == |chars| + i && out[..|chars|] == chars && k == k0 + i
      invariant forall j :: |chars| <= j < |out| ==>
                  out[j] == pool[Draw(stream, k0 + (j - |chars|), 0, |pool| - 1)]
    {
      var idx := Draw(stream, k, 0, |pool| - 1);
      out := out + [pool[idx]];
      k := k + 1;
      i := i + 1;
    }
    k1 := k;
    assert out[|chars|..] == Fill(pool, i, stream, k0);
    assert out == out[..|chars|] + out[|chars|..];
  }

  /** `generate_password($length, $opts)`, the k0-th oracle call being its
      first. */
  method GeneratePassword(length: int, overrides: OptionOverrides, stream: nat -> int, k0: nat)
    returns (r: Result<string, GenError>, k1: nat)
    ensures (r, k1) == Generate(length, overrides, stream, k0)
  {
    if length < 1 {
      return Failure(InvalidLength), k0;
    }
    var o := WithDefaults(overrides);

    var classes, raw := SelectClasses(o);
    if classes == [] {
      return Failure(NoClassEnabled), k0;
    }

    var excludeChars := o.exclude;
    if o.avoidAmbiguous {
      excludeChars := excludeChars + Ambiguous;
    }

    var filtered := FilterClasses(raw, excludeChars);
    assert excludeChars == ExcludeChars(o);
    assert FilterEach(raw, excludeChars) == FilteredSets(o);
    if filtered.Failure? {
      return Failure(ClassExhausted(classes[filtered.error])), k0;
    }
    var sets := filtered.value;

    r, k1 := AssemblePassword(sets, o.requireEach, length, stream, k0);
  }

  /** The `if ($opts[...]) $sets[...] = ...` lines: the enabled classes and
      their alphabets. */
  method SelectClasses(o: Options) returns (classes: seq<CharClass>, raw: seq<string>)
    ensures classes == Enabled(o) && raw == RawSets(o)
  {
    classes, raw := [], [];
    if o.upper { classes, raw := classes + [Upper], raw + [UpperChars]; }
    if o.lower { classes, raw := classes + [Lower], raw + [LowerChars]; }
    if o.digits { classes, raw := classes + [Digits], raw + [DigitChars]; }
    if o.symbols { classes, raw := classes + [Symbols], raw + [SymbolChars]; }
  }

  /** The part of `generate_password` after the checks: pool, seed, fill and
      shuffle. */
  method AssemblePassword(sets: seq<string>, requireEach: bool, length: int, stream: nat -> int, k0: nat)
    returns (r: Result<string, GenError>, k1: nat)
    requires sets != [] && AllNonEmpty(sets)
    ensures r == Success(Assemble(sets, requireEach, length, stream, k0).0)
    ensures k1 == Assemble(sets, requireEach, length, stream, k0).1
  {
    var pool := Concat(sets);
    // `$pool === ''` cannot hold: every class kept a character.
    ConcatHasPart(sets, 0, sets[0][0]);
    if pool == [] {
      assert false;
      return Failure(EmptyPool), k0;
    }
    var chars, k := DrawChars(sets, pool, requireEach, length, stream, k0);
    var shuffled;
    shuffled, k := ShuffleSecure(chars, stream, k);
    r, k1 := Success(shuffled), k;
  }

  /** The seed and fill loops: `$password_chars`. */
  method DrawChars(sets: seq<string>, pool: string, requireEach: bool, length: int, stream: nat -> int, k0: nat)
    returns (chars: string, k1: nat)
    requires sets != [] && AllNonEmpty(sets) && pool == Concat(sets) && pool != []
    ensures chars == Drawn(sets, requireEach, length, stream, k0) && k1 == k0 + |chars|
  {
    chars := [];
    var k := k0;
    if requireEach {
      chars, k := SeedFromEachClass(sets, stream, k);
    }
    ghost var seed := chars;
    chars, k := FillFromPool(chars, pool, length - |chars|, stream, k);
    assert chars == seed + Fill(pool, FillCount(length, |seed|), stream, k0 + |seed|);
    k1 := k;
  }

  /** `generate_passwords($count, $length, $opts)`. */
  method GeneratePasswords(count: int, length: int, overrides: OptionOverrides, stream: nat -> int, k0: nat)
    returns (r: Result<seq<string>, GenError>, k1: nat)
    ensures (r, k1) == GenerateMany(count, length, overrides, stream, k0)
  {
    var passwords: seq<string> := [];
    var k := k0;
    var i := 0;
    ghost var whole := GenerateMany(count, length, overrides, stream, k0);
    PrependAllEmpty(whole.0);
    while i < count
      invariant 0 <= i && (count > 0 ==> i <= count)
      invariant whole.0 == PrependAll(passwords, GenerateMany(count - i, length, overrides, stream, k).0)
      invariant whole.1 == GenerateMany(count - i, length, overrides, stream, k).1
    {
      var p;
      ghost var kBefore := k;
      p, k := GeneratePassword(length, overrides, stream, k);
      GenerateManyStep(count - i, length, overrides, stream, kBefore);
      if p.Failure? {
        return Failure(p.error), k;
      }
      PrependAllStep(passwords, p.value, GenerateMany(count - i - 1, length, overrides, stream, k).0);
      passwords := passwords + [p.value];
      i := i + 1;
    }
    assert passwords + [] == passwords;
    r, k1 := Success(passwords), k;
  }

  /** One step of `GenerateMany`: the first call, then the rest of the batch. */
  lemma GenerateManyStep(count: int, length: int, overrides: OptionOverrides, stream: nat -> int, k: nat)
    requires count > 0
    ensures var (first, k') := Generate(length, overrides, stream, k);
            var (rest, k'') := GenerateMany(count - 1, length, overrides, stream, k');
            GenerateMany(count, length, overrides, stream, k) ==
              if first.Failure? then (Failure(first.error), k') else (Prepend(first.value, rest), k'')
  {
  }

  function PrependAll(ps: seq<string>, r: Result<seq<string>, GenError>): Result<seq<string>, GenError> {
    match r
    case Success(qs) => Success(ps + qs)
    case Failure(e) => Failure(e)
  }

  lemma PrependAllEmpty(r: Result<seq<string>, GenError>)
    ensures PrependAll([], r) == r
  {
    if r.Success? {
      assert [] + r.value == r.value;
    }
  }

  lemma PrependAllStep(ps: seq<string>, p: string, r: Result<seq<string>, GenError>)
    ensures PrependAll(ps, Prepend(p, r)) == PrependAll(ps + [p], r)
  {
    if r.Success? {
      assert ps + ([p] + r.value) == (ps + [p]) + r.value;
    }
  }
}
