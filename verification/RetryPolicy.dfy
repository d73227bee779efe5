// The retry policy: parsing a spider's config, deciding on a retry, and the
// int64/float64 arithmetic of the backoff delay, in nanoseconds.
module RetryPolicy {
  import opened Text

  const TWO53: int := 0x20_0000_0000_0000
  const TWO63: int := 0x8000_0000_0000_0000

  type Int64 = x: int | -TWO63 <= x < TWO63

  /** Wrap-around of an int64 product. */
  function Wrap64(x: int): Int64 {
    (x + TWO63) % (2 * TWO63) - TWO63
  }

  const SECOND: int := 1_000_000_000

  // ---- parsed config values -------------------------------------------------

  /** A config value as decoded JSON; a number is what converting it to int gives. */
  datatype Value = Num(n: Int64) | NotFinite | Str(s: string) | List(items: seq<Value>) | Other | Absent

  datatype Config =
    | NoRetryBlock
    | Retry(maxAttempts: Value, backoff: Value, baseDelayS: Value, maxDelayS: Value, retryOn: Value)

  datatype Policy = Policy(maxAttempts: int, backoffKind: string, baseDelay: Int64, maxDelay: Int64, retryOn: seq<string>)

  const DEFAULT := Policy(1, "exp", 30 * SECOND, 1800 * SECOND, ["timeout", "exit"])

  const RETRYABLE := {"timeout", "exit", "deps", "build_assign"}

  /** Lower case as far as it can make ASCII: the letters, the dotted capital I and the
      Kelvin sign. No token the policy compares with has any other character. */
  function LowerChar(c: char): char {
    if 'A' <= c <= 'Z' then c - 'A' + 'a'
    else if c == '\U{130}' then 'i'
    else if c == '\U{212A}' then 'k'
    else c
  }

  function Lower(s: string): string {
    seq(|s|, i requires 0 <= i < |s| => LowerChar(s[i]))
  }

  function Normal(s: string): string {
    Lower(Trim(s))
  }

  /** A token in lower case, without spaces, is its own normal form. */
  lemma NormalStays(s: string)
    requires forall i :: 0 <= i < |s| ==> 'a' <= s[i] <= 'z' || s[i] == '_'
    ensures Normal(s) == s
  {
    assert Trim(s) == s;
    assert forall i :: 0 <= i < |s| ==> LowerChar(s[i]) == s[i];
  }

  /** The token in any case, the two letters included whose lower case is ASCII. */
  predicate SpellsOut(s: string, token: string) {
    && |s| == |token|
    && forall i :: 0 <= i < |s| ==>
         || s[i] == token[i] || ('a' <= token[i] <= 'z' && s[i] == token[i] - 'a' + 'A')
         || (token[i] == 'i' && s[i] == '\U{130}') || (token[i] == 'k' && s[i] == '\U{212A}')
  }

  predicate IsToken(token: string) {
    forall i :: 0 <= i < |token| ==> 'a' <= token[i] <= 'z' || token[i] == '_'
  }

  lemma LowerIff(s: string, token: string)
    requires IsToken(token)
    ensures Lower(s) == token <==> SpellsOut(s, token)
  {
    if |s| == |token| {
      forall i | 0 <= i < |s|
        ensures LowerChar(s[i]) == token[i]
                <==> s[i] == token[i] || ('a' <= token[i] <= 'z' && s[i] == token[i] - 'a' + 'A')
                     || (token[i] == 'i' && s[i] == '\U{130}') || (token[i] == 'k' && s[i] == '\U{212A}')
      {
      }
      if Lower(s) == token {
        assert forall i :: 0 <= i < |s| ==> Lower(s)[i] == LowerChar(s[i]);
      }
      if SpellsOut(s, token) {
        assert Lower(s) == token;
      }
    }
  }

  lemma NoSpaces(s: string, token: string)
    requires IsToken(token) && SpellsOut(s, token)
    ensures forall i :: 0 <= i < |s| ==> !IsSpace(s[i])
  {
  }

  /** A text is read as a token exactly when it spells it out in any case, with any white
      space around it. */
  lemma NormalIff(s: string, token: string)
    requires IsToken(token) && token != ""
    ensures Normal(s) == token <==> exists i: nat, j: nat :: Padded(s, i, j) && SpellsOut(s[i..j], token)
  {
    hide Lower, LowerChar, IsToken, IsSpace, SpellsOut;
    if Normal(s) == token {
      var i, j := TrimSplits(s);
      LowerIff(s[i..j], token);
      assert Padded(s, i, j) && SpellsOut(s[i..j], token);
    }
    if i: nat, j: nat :| Padded(s, i, j) && SpellsOut(s[i..j], token) {
      SpellsLength(s[i..j], token);
      NoSpaces(s[i..j], token);
      assert s[i..j][0] == s[i] && s[i..j][j - i - 1] == s[j - 1];
      TrimIs(s, i, j);
      LowerIff(s[i..j], token);
    }
  }

  lemma SpellsLength(s: string, token: string)
    requires SpellsOut(s, token)
    ensures |s| == |token|
  {
  }

  /** The entries of `retry_on` that survive: strings naming a retryable class. */
  function Allowed(items: seq<Value>): seq<string> {
    if items == [] then []
    else
      var last := items[|items| - 1];
      Allowed(items[..|items| - 1])
      + (if last.Str? && Normal(last.s) in RETRYABLE then [Normal(last.s)] else [])
  }

  function PolicyOf(cfg: Config): Policy {
    if cfg.NoRetryBlock? then DEFAULT
    else
      var kind := if cfg.backoff.Str? then Lower(cfg.backoff.s) else "";
      Policy(
        if cfg.maxAttempts.Num? && 1 <= cfg.maxAttempts.n <= 100 then cfg.maxAttempts.n else DEFAULT.maxAttempts,
        if kind == "linear" then "linear" else DEFAULT.backoffKind,
        if cfg.baseDelayS.Num? && cfg.baseDelayS.n >= 0 then Wrap64(cfg.baseDelayS.n * SECOND) else DEFAULT.baseDelay,
        if cfg.maxDelayS.Num? && cfg.maxDelayS.n >= 0 then Wrap64(cfg.maxDelayS.n * SECOND) else DEFAULT.maxDelay,
        if cfg.retryOn.List? then Allowed(cfg.retryOn.items) else DEFAULT.retryOn)
  }

  method PolicyFromSpiderConfig(cfg: Config) returns (p: Policy)
    ensures p == PolicyOf(cfg)
  {
    p := DEFAULT;
    if cfg.NoRetryBlock? {
      return;
    }
    if cfg.maxAttempts.Num? && 1 <= cfg.maxAttempts.n <= 100 {
      p := p.(maxAttempts := cfg.maxAttempts.n);
    }
    if cfg.backoff.Str? {
      var kind := Lower(cfg.backoff.s);
      if kind == "exp" || kind == "exponential" {
        p := p.(backoffKind := "exp");
      } else if kind == "linear" {
        p := p.(backoffKind := "linear");
      }
    }
    if cfg.baseDelayS.Num? && cfg.baseDelayS.n >= 0 {
      p := p.(baseDelay := Wrap64(cfg.baseDelayS.n * SECOND));
    }
    if cfg.maxDelayS.Num? && cfg.maxDelayS.n >= 0 {
      p := p.(maxDelay := Wrap64(cfg.maxDelayS.n * SECOND));
    }
    if cfg.retryOn.List? {
      var items := cfg.retryOn.items;
      var out: seq<string> := [];
      for i := 0 to |items|
        invariant out == Allowed(items[..i])
      {
        assert items[..i + 1][..i] == items[..i];
        if items[i].Str? {
          var s := Normal(items[i].s);
          if s in RETRYABLE {
            out := out + [s];
          }
        }
      }
      assert items[..|items|] == items;
      p := p.(retryOn := out);
    }
  }

  lemma {:induction false} AllowedAreRetryable(items: seq<Value>)
    ensures forall s :: s in Allowed(items) ==> s in RETRYABLE
  {
    if items != [] {
      AllowedAreRetryable(items[..|items| - 1]);
    }
  }

  // ---- the decision -----------------------------------------------------------

  /** `wild` is what converting an out-of-range float64 to int64 gives, which Go
      leaves to the platform. */
  function Decide(p: Policy, attempt: int, errClass: string, wild: Int64): (bool, Int64) {
    var cls := Normal(errClass);
    if p.maxAttempts <= 1 || attempt >= p.maxAttempts || cls == "" || cls == "captcha" || cls !in p.retryOn
    then (false, 0)
    else (true, Backoff(p, attempt, wild))
  }

  /** The class may be retried and some text of the list names it. */
  predicate Lists(items: seq<Value>, cls: string) {
    && cls in {"timeout", "exit", "deps", "build_assign"}
    && exists i :: 0 <= i < |items| && items[i].Str? && Normal(items[i].s) == cls
  }

  lemma ListsNext(items: seq<Value>, cls: string)
    requires items != []
    ensures var init, last := items[..|items| - 1], items[|items| - 1];
            Lists(items, cls)
            <==> Lists(init, cls) || (cls in RETRYABLE && last.Str? && Normal(last.s) == cls)
  {
    hide Normal;
    var init := items[..|items| - 1];
    assert forall i :: 0 <= i < |init| ==> init[i] == items[i];
  }

  /** `retry_on` comes out as the retryable classes among its strings, whatever their
      case and padding. */
  lemma {:induction false} AllowedIff(items: seq<Value>, cls: string)
    ensures cls in Allowed(items) <==> Lists(items, cls)
  {
    if items != [] {
      var init, last := items[..|items| - 1], items[|items| - 1];
      AllowedIff(init, cls);
      ListsNext(items, cls);
      hide Normal, Lists;
      assert Allowed(items) == Allowed(init) + (if last.Str? && Normal(last.s) in RETRYABLE then [Normal(last.s)] else []);
    }
  }

  /** No config gives a policy out of range: at most 100 attempts, a known backoff, and
      classes that may be retried. */
  lemma PolicyIsValid(cfg: Config)
    ensures var p := PolicyOf(cfg);
            && 1 <= p.maxAttempts <= 100
            && p.backoffKind in {"exp", "linear"}
            && (forall c :: c in p.retryOn ==> c in RETRYABLE)
  {
    if cfg.Retry? && cfg.retryOn.List? {
      AllowedAreRetryable(cfg.retryOn.items);
    }
  }

  /** A config's seconds in nanoseconds: exact while they fit an int64, otherwise what is left
      modulo 2^64. */
  predicate InNanoseconds(d: Int64, seconds: Int64) {
    && (seconds <= 9_223_372_036 ==> d == seconds * 1_000_000_000)
    && (d - seconds * 1_000_000_000) % 0x1_0000_0000_0000_0000 == 0
  }

  lemma WrapCongruent(x: int)
    ensures (Wrap64(x) - x) % 0x1_0000_0000_0000_0000 == 0
  {
    var q := (x + TWO63) / 0x1_0000_0000_0000_0000;
    assert Wrap64(x) - x == -q * 0x1_0000_0000_0000_0000;
  }

  lemma WrapFits(x: int)
    requires -TWO63 <= x < TWO63
    ensures Wrap64(x) == x
  {
  }

  lemma WrapsSeconds(n: Int64)
    requires n >= 0
    ensures InNanoseconds(Wrap64(n * SECOND), n)
  {
    WrapCongruent(n * SECOND);
    if n <= 9_223_372_036 {
      WrapFits(n * SECOND);
    }
    hide Wrap64;
  }

  /** The policy by the fields of the config: each number and list from its own field, a
      malformed or missing one from the default of one attempt, exponential from 30 seconds
      up to 30 minutes, for timeouts and exit failures. */
  lemma PolicyFields(cfg: Config)
    ensures var p := PolicyOf(cfg);
            && (cfg.NoRetryBlock? ==>
                  p == Policy(1, "exp", 30_000_000_000, 1_800_000_000_000, ["timeout", "exit"]))
            && (cfg.Retry? ==>
                  && p.maxAttempts
                     == (if cfg.maxAttempts.Num? && 1 <= cfg.maxAttempts.n <= 100 then cfg.maxAttempts.n else 1)
                  && (p.backoffKind == "linear" <==> cfg.backoff.Str? && SpellsOut(cfg.backoff.s, "linear"))
                  && (p.backoffKind != "linear" ==> p.backoffKind == "exp")
                  && (if cfg.baseDelayS.Num? && cfg.baseDelayS.n >= 0 then InNanoseconds(p.baseDelay, cfg.baseDelayS.n)
                      else p.baseDelay == 30_000_000_000)
                  && (if cfg.maxDelayS.Num? && cfg.maxDelayS.n >= 0 then InNanoseconds(p.maxDelay, cfg.maxDelayS.n)
                      else p.maxDelay == 1_800_000_000_000)
                  && (if cfg.retryOn.List? then forall cls :: cls in p.retryOn <==> Lists(cfg.retryOn.items, cls)
                      else p.retryOn == ["timeout", "exit"]))
  {
    if cfg.Retry? && cfg.retryOn.List? {
      forall cls
        ensures cls in PolicyOf(cfg).retryOn <==> Lists(cfg.retryOn.items, cls)
      {
        AllowedIff(cfg.retryOn.items, cls);
      }
    }
    if cfg.Retry? {
      if cfg.backoff.Str? {
        LowerIff(cfg.backoff.s, "linear");
      }
      if cfg.baseDelayS.Num? && cfg.baseDelayS.n >= 0 {
        WrapsSeconds(cfg.baseDelayS.n);
      }
      if cfg.maxDelayS.Num? && cfg.maxDelayS.n >= 0 {
        WrapsSeconds(cfg.maxDelayS.n);
      }
    }
    hide Wrap64, InNanoseconds, Lower, SpellsOut, Allowed, Lists;
  }

  /** From any config, an attempt of class c is retried exactly when attempts are left and
      the policy lists c: that rules out captcha and unclassified failures. */
  lemma DecideIff(cfg: Config, attempt: int, errClass: string, wild: Int64)
    requires attempt >= 1
    ensures var p := PolicyOf(cfg);
            && (Decide(p, attempt, errClass, wild).0 <==> attempt < p.maxAttempts && Normal(errClass) in p.retryOn)
            && (Decide(p, attempt, errClass, wild).0 ==>
                  Decide(p, attempt, errClass, wild).1 == Backoff(p, attempt, wild)
                  && Normal(errClass) in {"timeout", "exit", "deps", "build_assign"})
  {
    PolicyIsValid(cfg);
    hide PolicyOf, Normal;
  }

  /** Whatever the config says, a retry needs one of the four retryable classes and
      never takes a lineage past 100 attempts. */
  lemma DecideIsBounded(cfg: Config, attempt: int, errClass: string, wild: Int64)
    ensures Decide(PolicyOf(cfg), attempt, errClass, wild).0 ==> Normal(errClass) in RETRYABLE && attempt + 1 <= 100
  {
    PolicyIsValid(cfg);
    hide PolicyOf, Normal;
  }

  // ---- the delay ----------------------------------------------------------------

  function Pow2(n: nat): (p: nat)
    ensures p >= 1
  {
    if n == 0 then 1 else 2 * Pow2(n - 1)
  }

  /** The number of binary digits of x. */
  function BitLength(x: nat): nat {
    if x == 0 then 0 else 1 + BitLength(x / 2)
  }

  /** float64 of a positive integer: 53 significant bits, ties to even. */
  function ToFloat(x: nat): nat {
    if x < TWO53 then x else Rounded(x, Pow2(LostBits(x)))
  }

  /** How many low bits of `x` a float64 has no room for. */
  function LostBits(x: nat): nat {
    if BitLength(x) > 53 then BitLength(x) - 53 else 0
  }

  /** The nearest multiple of `unit`, ties to the even one. */
  function Rounded(x: nat, unit: nat): nat
    requires unit > 0
  {
    var q, r := x / unit, x % unit;
    (if 2 * r > unit || (2 * r == unit && q % 2 == 1) then q + 1 else q) * unit
  }

  /** `time.Duration(float64(base) * math.Pow(2, e))`: scaling by a power of two is exact. */
  function FloatScaled(base: nat, e: nat, wild: Int64): Int64 {
    if ToFloat(base) * Pow2(e) < TWO63 then ToFloat(base) * Pow2(e) else wild
  }

  function Exponent(attempt: int): nat {
    if attempt - 1 < 0 then 0 else if attempt - 1 > 30 then 30 else attempt - 1
  }

  function Capped(p: Policy, d: int): int {
    if p.maxDelay > 0 && d > p.maxDelay then p.maxDelay else d
  }

  function Backoff(p: Policy, attempt: int, wild: Int64): Int64 {
    if p.baseDelay <= 0 then 0
    else if p.backoffKind == "linear" then Capped(p, Wrap64(attempt * p.baseDelay))
    else Capped(p, FloatScaled(p.baseDelay, Exponent(attempt), wild))
  }

  method BackoffFor(p: Policy, attempt: int, wild: Int64) returns (d: Int64)
    ensures d == Backoff(p, attempt, wild)
  {
    if p.baseDelay <= 0 {
      return 0;
    }
    if p.backoffKind == "linear" {
      d := Wrap64(attempt * p.baseDelay);
    } else {
      var exp := attempt - 1;
      if exp < 0 {
        exp := 0;
      }
      if exp > 30 {
        exp := 30;
      }
      d := FloatScaled(p.baseDelay, exp, wild);
    }
    if p.maxDelay > 0 && d > p.maxDelay {
      d := p.maxDelay;
    }
  }

  // ---- how close the float is ---------------------------------------------------------------

  lemma {:induction false} BitLengthIff(x: nat)
    ensures x > 0 ==> BitLength(x) > 0 && Pow2(BitLength(x) - 1) <= x
    ensures x < Pow2(BitLength(x))
  {
    if x > 0 {
      BitLengthIff(x / 2);
    }
  }

  /** Every multiple is at least as far as the nearer of the two around x. */
  lemma MultiplesAround(x: nat, unit: nat, k: nat)
    requires unit > 0
    ensures var q, m := x / unit, x % unit;
            && x == q * unit + m && (q + 1) * unit == q * unit + unit
            && (if k <= q then x - k * unit >= m else k * unit - x >= unit - m)
  {
    var q, m := x / unit, x % unit;
    assert x == q * unit + m && (q + 1) * unit == q * unit + unit;
    if k <= q {
      MulMonotone(k, q, unit);
    } else {
      MulMonotone(q + 1, k, unit);
    }
  }

  /** Rounding picks the nearest multiple, of two the even one. */
  lemma RoundedIsNearest(x: nat, unit: nat, k: nat)
    requires unit > 0
    ensures Rounded(x, unit) % unit == 0 && Distance(Rounded(x, unit), x) <= Distance(k * unit, x)
    ensures 2 * (x % unit) == unit ==> Rounded(x, unit) / unit % 2 == 0
  {
    MultiplesAround(x, unit, k);
    DivExact(x / unit, unit);
    DivExact(x / unit + 1, unit);
  }

  function Distance(a: int, b: int): nat {
    if a < b then b - a else a - b
  }

  /** A float64 keeps 53 significant bits: it is the nearest multiple of a unit that leaves
      the number 53 binary digits. */
  lemma FloatIsNearest(x: nat, k: nat)
    requires x >= TWO53
    ensures var unit := Pow2(LostBits(x));
            && Pow2(52) * unit <= x < Pow2(53) * unit
            && Distance(ToFloat(x), x) <= Distance(k * unit, x)
  {
    Pow2Of53();
    BitLengthIff(x);
    if BitLength(x) <= 53 {
      Pow2Monotone(BitLength(x), 53);
    }
    Pow2Add(53, LostBits(x));
    Pow2Add(52, LostBits(x));
    RoundedIsNearest(x, Pow2(LostBits(x)), k);
    hide Pow2, BitLength, Rounded;
  }

  // ---- exactness of the float path ------------------------------------------------

  lemma {:induction false} Pow2Add(a: nat, b: nat)
    ensures Pow2(a + b) == Pow2(a) * Pow2(b)
  {
    if a > 0 {
      Pow2Add(a - 1, b);
    }
  }

  lemma {:induction false} Pow2Monotone(a: nat, b: nat)
    requires a <= b
    ensures Pow2(a) <= Pow2(b)
  {
    if a < b {
      Pow2Monotone(a, b - 1);
    }
  }

  lemma Pow2Of53()
    ensures Pow2(53) == TWO53
  {
    assert Pow2(8) == 256;
    Pow2Add(8, 8);
    Pow2Add(16, 8);
    Pow2Add(24, 24);
    assert Pow2(5) == 32;
    Pow2Add(48, 5);
  }

  lemma {:induction false} BitLengthBound(x: nat, k: nat)
    requires x < Pow2(k)
    ensures BitLength(x) <= k
  {
    if x > 0 {
      BitLengthBound(x / 2, k - 1);
    }
  }

  lemma ScaledBits(m: nat, k: nat)
    requires m < TWO53
    ensures BitLength(m * Pow2(k)) <= 53 + k
  {
    hide BitLength;
    Pow2Of53();
    Pow2Add(53, k);
    MulLess(m, TWO53, Pow2(k));
    BitLengthBound(m * Pow2(k), 53 + k);
  }

  lemma ScaledRounds(m: nat, k: nat, j: nat)
    requires j <= k
    ensures Rounded(m * Pow2(k), Pow2(j)) == m * Pow2(k)
  {
    hide Pow2;
    Pow2Add(k - j, j);
    MulAssoc(m, Pow2(k - j), Pow2(j));
    MultipleRounds(m * Pow2(k - j), Pow2(j));
  }

  lemma MultipleRounds(q: nat, unit: nat)
    requires unit > 0
    ensures Rounded(q * unit, unit) == q * unit
  {
    DivExact(q, unit);
  }

  /** A number with at most 53 significant bits converts exactly; whole seconds, being
      multiples of 2^9 nanoseconds, have that far beyond 2^53. */
  lemma ScaledIsExact(m: nat, k: nat)
    requires m < TWO53
    ensures ToFloat(m * Pow2(k)) == m * Pow2(k)
  {
    hide BitLength, Pow2, Rounded;
    ScaledBits(m, k);
    ScaledRounds(m, k, LostBits(m * Pow2(k)));
  }

  lemma MulLess(a: nat, b: nat, c: nat)
    requires a < b && c > 0
    ensures a * c < b * c
  {
  }

  lemma MulAssoc(a: nat, b: nat, c: nat)
    ensures a * (b * c) == (a * b) * c
  {
  }

  lemma DivExact(q: nat, unit: nat)
    requires unit > 0
    ensures q * unit / unit == q && q * unit % unit == 0
  {
    var d, r := q * unit / unit, q * unit % unit;
    assert q * unit == d * unit + r;
    if q < d {
      MulMonotone(q + 1, d, unit);
    } else if q > d {
      MulMonotone(d + 1, q, unit);
    }
  }

  /** The float path gives base * 2^e on every platform exactly when the base has at
      most 53 significant bits and the product fits an int64. */
  lemma FloatExactIff(base: nat, e: nat)
    requires base < TWO63
    ensures (forall wild: Int64 :: FloatScaled(base, e, wild) == base * Pow2(e))
            <==> ToFloat(base) == base && base * Pow2(e) < TWO63
  {
    var f := ToFloat(base);
    if f != base {
      MulDistinct(f, base, Pow2(e));
      assert FloatScaled(base, e, 0) != FloatScaled(base, e, 1) || FloatScaled(base, e, 0) == f * Pow2(e);
    } else if base * Pow2(e) >= TWO63 {
      assert FloatScaled(base, e, 0) == 0;
    }
  }

  lemma MulDistinct(a: nat, b: nat, c: nat)
    requires a != b && c > 0
    ensures a * c != b * c
  {
  }

  /** The delay meant for attempt n. */
  function Nominal(p: Policy, n: int): int {
    if p.backoffKind == "linear" then n * p.baseDelay
    else p.baseDelay * Pow2(Exponent(n))
  }

  /** The attempts whose delay the arithmetic gets right. */
  predicate InDomain(p: Policy, n: int) {
    && n >= 1
    && p.baseDelay >= 0
    && Nominal(p, n) < TWO63
    && (p.backoffKind == "linear" || ToFloat(p.baseDelay) == p.baseDelay)
  }

  lemma BackoffExact(p: Policy, n: int, wild: Int64)
    requires InDomain(p, n)
    ensures Backoff(p, n, wild) == Capped(p, Nominal(p, n))
    ensures 0 <= Backoff(p, n, wild) <= Nominal(p, n)
    ensures var meant := if p.backoffKind == "linear" then n * p.baseDelay
                         else p.baseDelay * Pow2(if n <= 31 then n - 1 else 30);
            Backoff(p, n, wild) == if p.maxDelay > 0 && meant > p.maxDelay then p.maxDelay else meant
  {
    if p.baseDelay == 0 {
      assert Nominal(p, n) == 0;
    } else {
      MulPositive(n, p.baseDelay);
      MulPositive(p.baseDelay, Pow2(Exponent(n)));
    }
  }

  /** From the config's own numbers to the delay: a spider with base b and cap c seconds waits
      b, 2b, 4b, ... seconds, or b, 2b, 3b, ... with linear backoff, never more than c unless c
      is 0, and the same from the 31st doubling on. */
  lemma ConfiguredDelay(cfg: Config, n: int, wild: Int64)
    requires cfg.Retry? && cfg.baseDelayS.Num? && cfg.maxDelayS.Num? && n >= 1
    requires 0 <= cfg.baseDelayS.n <= 9_000_000 && 0 <= cfg.maxDelayS.n <= 9_223_372_036
    requires var b := cfg.baseDelayS.n;
             (if cfg.backoff.Str? && SpellsOut(cfg.backoff.s, "linear") then n * b
              else b * Pow2(if n <= 31 then n - 1 else 30)) <= 9_223_372_036
    ensures var b, c := cfg.baseDelayS.n, cfg.maxDelayS.n;
            var meant := if cfg.backoff.Str? && SpellsOut(cfg.backoff.s, "linear") then n * b
                         else b * Pow2(if n <= 31 then n - 1 else 30);
            Backoff(PolicyOf(cfg), n, wild) == 1_000_000_000 * (if c > 0 && meant > c then c else meant)
  {
    PolicyFields(cfg);
    var p, b := PolicyOf(cfg), cfg.baseDelayS.n;
    hide PolicyOf, Lower, SpellsOut, Pow2, Backoff;
    assert p.baseDelay == b * 1_000_000_000 && p.maxDelay == cfg.maxDelayS.n * 1_000_000_000;
    var e: nat := if n <= 31 then n - 1 else 30;
    Regroup(n, b);
    Regroup(Pow2(e), b);
    assert Nominal(p, n) < TWO63;
    BackoffExact(p, n, wild);
  }

  lemma Regroup(a: int, b: int)
    ensures a * (b * 1_000_000_000) == 1_000_000_000 * (a * b)
    ensures (b * 1_000_000_000) * a == 1_000_000_000 * (b * a)
  {
  }

  lemma MulPositive(a: int, b: int)
    requires a >= 1 && b >= 1
    ensures a * b >= 1
  {
  }

  /** The delay before the cap is right, or it and the delay meant are both cut to the cap. */
  predicate SameUnderCap(p: Policy, d: int, meant: int) {
    d == meant || (p.maxDelay > 0 && d >= p.maxDelay && meant >= p.maxDelay)
  }

  /** A linear delay fits an int64 or wraps to at least the cap; an exponential one fits
      after rounding the base, which changes nothing or is hidden by the cap. A negative base,
      which a config can only get by overflow, never gives it. */
  predicate IsExact(p: Policy, n: int) {
    || p.baseDelay == 0
    || (p.baseDelay > 0 &&
        if p.backoffKind == "linear" then
          Nominal(p, n) < TWO63 || (p.maxDelay > 0 && Wrap64(Nominal(p, n)) >= p.maxDelay)
        else
          var f := ToFloat(p.baseDelay) * Pow2(Exponent(n));
          f < TWO63 && SameUnderCap(p, f, Nominal(p, n)))
  }

  lemma CappedSame(p: Policy, d: int, meant: int)
    requires meant > 0
    ensures Capped(p, d) == Capped(p, meant) <==> SameUnderCap(p, d, meant)
  {
  }

  /** A wrapped product is the product itself, or both reach the cap: the first exactly
      when the product fits an int64. */
  lemma LinearExactIff(p: Policy, n: int)
    requires n >= 1 && p.baseDelay > 0
    ensures SameUnderCap(p, Wrap64(n * p.baseDelay), n * p.baseDelay)
            <==> n * p.baseDelay < TWO63 || (p.maxDelay > 0 && Wrap64(n * p.baseDelay) >= p.maxDelay)
  {
    MulPositive(n, p.baseDelay);
  }

  lemma NominalPositive(p: Policy, n: int)
    requires n >= 1 && p.baseDelay > 0
    ensures Nominal(p, n) > 0
  {
    if p.backoffKind == "linear" {
      MulPositive(n, p.baseDelay);
    } else {
      MulPositive(p.baseDelay, Pow2(Exponent(n)));
    }
  }

  lemma NominalNegative(p: Policy, n: int)
    requires n >= 1 && p.baseDelay < 0
    ensures Nominal(p, n) < 0
  {
    var k, b: int := if p.backoffKind == "linear" then n else Pow2(Exponent(n)), p.baseDelay;
    MulPositive(k, -b);
    assert k * -b == -(k * b) && b * k == k * b;
  }

  /** For every policy, capped or not, and every attempt: the arithmetic gives the delay
      meant, under the cap, on every platform exactly when IsExact says so. */
  lemma BackoffExactIff(p: Policy, n: int)
    requires n >= 1
    ensures (forall wild: Int64 :: Backoff(p, n, wild) == Capped(p, Nominal(p, n))) <==> IsExact(p, n)
  {
    hide Pow2, ToFloat;
    if p.baseDelay == 0 {
      assert Nominal(p, n) == 0;
    } else if p.baseDelay < 0 {
      NominalNegative(p, n);
      assert Backoff(p, n, 0) == 0;
    } else if p.backoffKind == "linear" {
      NominalPositive(p, n);
      CappedSame(p, Wrap64(Nominal(p, n)), Nominal(p, n));
      LinearExactIff(p, n);
      assert Backoff(p, n, 0) == Capped(p, Wrap64(Nominal(p, n)));
    } else {
      NominalPositive(p, n);
      var f := ToFloat(p.baseDelay) * Pow2(Exponent(n));
      CappedSame(p, f, Nominal(p, n));
      if f >= TWO63 {
        assert Backoff(p, n, 0) == 0;
      } else {
        assert Backoff(p, n, 0) == Capped(p, f);
      }
    }
  }

  /** The default policy's delay is right exactly up to attempt 29. */
  lemma DefaultExactIff(n: int)
    requires n >= 1
    ensures (forall wild: Int64 :: Backoff(DEFAULT, n, wild) == Capped(DEFAULT, Nominal(DEFAULT, n))) <==> n <= 29
  {
    BackoffExactIff(DEFAULT, n);
    DefaultBaseDomain(n);
    assert ToFloat(DEFAULT.baseDelay) == DEFAULT.baseDelay;
  }

  lemma NominalMonotone(p: Policy, m: int, n: int)
    requires 1 <= m <= n && p.baseDelay >= 0
    ensures Nominal(p, m) <= Nominal(p, n)
  {
    if p.backoffKind == "linear" {
      MulMonotone(m, n, p.baseDelay);
    } else {
      Pow2Monotone(Exponent(m), Exponent(n));
      MulMonotone(Pow2(Exponent(m)), Pow2(Exponent(n)), p.baseDelay);
    }
  }

  lemma MulMonotone(a: int, b: int, c: int)
    requires a <= b && c >= 0
    ensures a * c <= b * c
  {
  }

  /** Within the domain delays never shrink from one attempt to the next. */
  lemma BackoffMonotone(p: Policy, m: int, n: int, wild: Int64, wild': Int64)
    requires 1 <= m <= n && InDomain(p, n)
    ensures InDomain(p, m) && 0 <= Backoff(p, m, wild) <= Backoff(p, n, wild')
  {
    NominalMonotone(p, m, n);
    BackoffExact(p, m, wild);
    BackoffExact(p, n, wild');
  }

  function TotalDelay(p: Policy, k: nat, wild: Int64): int {
    if k == 0 then 0 else TotalDelay(p, k - 1, wild) + Backoff(p, k, wild)
  }

  /** Within the domain, delay k of an uncapped exponential policy is base * 2^(k-1). */
  lemma ExponentialDelay(p: Policy, k: int, wild: Int64)
    requires 1 <= k <= 31 && p.backoffKind != "linear" && p.maxDelay == 0 && InDomain(p, k)
    ensures Backoff(p, k, wild) == p.baseDelay * Pow2(k - 1)
    ensures k > 1 ==> InDomain(p, k - 1)
  {
    BackoffExact(p, k, wild);
    if k > 1 {
      NominalMonotone(p, k - 1, k);
    }
  }

  lemma Telescopes(b: int, q: int)
    ensures b * (q - 1) + b * q == b * (2 * q - 1)
  {
  }

  /** k uncapped exponential delays add up to base * (2^k - 1). */
  lemma {:induction false} TotalExponential(p: Policy, k: nat, wild: Int64)
    requires k <= 31 && p.backoffKind != "linear" && p.maxDelay == 0 && p.baseDelay >= 0
    requires k > 0 ==> InDomain(p, k)
    ensures TotalDelay(p, k, wild) == p.baseDelay * (Pow2(k) - 1)
  {
    hide Backoff, InDomain;
    if k > 0 {
      ExponentialDelay(p, k, wild);
      TotalExponential(p, k - 1, wild);
      Telescopes(p.baseDelay, Pow2(k - 1));
    }
  }

  /** A cap bounds any number of delays, in or out of the domain. */
  lemma {:induction false} TotalCapped(p: Policy, k: nat, wild: Int64)
    requires p.maxDelay > 0
    ensures TotalDelay(p, k, wild) <= k * p.maxDelay
  {
    if k > 0 {
      TotalCapped(p, k - 1, wild);
      assert Backoff(p, k, wild) <= p.maxDelay;
      assert (k - 1) * p.maxDelay + p.maxDelay == k * p.maxDelay;
    }
  }

  /** The default 30 s base is right for attempts 1 to 29 and no others. */
  lemma DefaultBaseDomain(n: int)
    requires n >= 1
    ensures InDomain(DEFAULT, n) <==> n <= 29
  {
    Pow2Values();
    if n <= 29 {
      NominalMonotone(DEFAULT, n, 29);
    } else {
      NominalMonotone(DEFAULT, 30, n);
    }
  }

  lemma Pow2Values()
    ensures Pow2(28) == 0x1000_0000 && Pow2(29) == 0x2000_0000
  {
    assert Pow2(7) == 128;
    Pow2Add(7, 7);
    Pow2Add(14, 14);
  }

  /** From attempt 30 on, the delay is the platform's value; a negative one is not
      capped, so the retry is due at once. */
  lemma DefaultBaseOverflow(n: int, wild: Int64)
    requires n >= 30
    ensures Backoff(DEFAULT, n, wild) == Capped(DEFAULT, wild)
    ensures wild < 0 ==> Backoff(DEFAULT, n, wild) < 0
  {
    Pow2Values();
    NominalMonotone(DEFAULT, 30, n);
  }
}
