/** One-time codes: HOTP truncation and formatting, and the validation window. */
module Totp {
  import opened Common
  import opened Powers
  import opened Base32

  type U64Int = n: nat | n < U64

  /** The keyed hash: secret and message to a digest, or `None` when it cannot be built. */
  type Hmac = (seq<Byte>, seq<Byte>) -> Option<seq<Byte>>

  /** Every hash on offer delivers at least the 20 bytes of SHA-1. */
  ghost predicate LongEnough(hmac: Hmac) {
    forall key, message :: hmac(key, message).Some? ==> |hmac(key, message).value| >= 20
  }

  datatype TotpValidator = TotpValidator(secrets: seq<seq<Byte>>, step: U64Int, digits: nat, skew: U64Int, hmac: Hmac) {
    /** What reading the configuration guarantees. */
    ghost predicate Valid() {
      step >= 1 && 6 <= digits <= 8 && secrets != [] && LongEnough(hmac)
    }
  }

  // ---- HOTP, section 5.3 of RFC 4226 ----

  /** The counter as eight bytes, the highest first. */
  function CounterBytes(n: nat, size: nat): (bytes: seq<Byte>)
    ensures |bytes| == size
  {
    if size == 0 then [] else CounterBytes(n / 256, size - 1) + [n % 256]
  }

  /** Different counters are different messages. */
  lemma {:induction false} CounterBytesExact(n: nat, size: nat)
    requires n < Pow2(8 * size)
    ensures ConcatBytes(CounterBytes(n, size)) == n
  {
    if size > 0 {
      Pow2Add(8, 8 * (size - 1));
      assert Pow2(8) == 256;
      CounterBytesExact(n / 256, size - 1);
      var bytes := CounterBytes(n, size);
      assert bytes[..size - 1] == CounterBytes(n / 256, size - 1);
    }
  }

  /** Dynamic truncation: four bytes from the offset in the last half byte, without the top bit. */
  function Truncate(hs: seq<Byte>): nat
    requires |hs| >= 20
  {
    var offset := hs[|hs| - 1] % 16;
    var a: nat, b: nat, c: nat, d: nat := hs[offset], hs[offset + 1], hs[offset + 2], hs[offset + 3];
    (a % 0x80) * 0x100_0000 + b * 0x1_0000 + c * 0x100 + d
  }

  /** Truncation stays inside the digest and is the low 31 bits of the four bytes at the offset. */
  lemma TruncateMeaning(hs: seq<Byte>)
    requires |hs| >= 20
    ensures var offset := hs[|hs| - 1] % 16;
            && offset + 4 <= |hs|
            && Truncate(hs) == ConcatBytes(hs[offset..offset + 4]) % 0x8000_0000
            && Truncate(hs) < 0x8000_0000
  {
    var offset := hs[|hs| - 1] % 16;
    var four := hs[offset..offset + 4];
    var a: nat, b: nat, c: nat := four[0], four[1], four[2];
    assert four[..3][..2] == four[..2] && four[..2][..1] == four[..1] && four[..1][..0] == [];
    assert ConcatBytes(four[..1]) == a;
    assert ConcatBytes(four[..2]) == 0x100 * a + b;
    assert ConcatBytes(four[..3]) == 0x1_0000 * a + 0x100 * b + c;
  }

  function Pow10(n: nat): (p: nat)
    ensures p > 0
  {
    if n == 0 then 1 else 10 * Pow10(n - 1)
  }

  function Digit(d: nat): char
    requires d < 10
  {
    ('0' as int + d) as char
  }

  /** A number in decimal, without leading zeros. */
  function Decimal(n: nat): (s: string)
    ensures s != ""
  {
    if n < 10 then [Digit(n)] else Decimal(n / 10) + [Digit(n % 10)]
  }

  /** Padded with zeros on the left to at least `width` characters. */
  function ZeroPadded(n: nat, width: nat): string {
    var s := Decimal(n);
    if |s| < width then seq(width - |s|, i => '0') + s else s
  }

  predicate IsDecimal(s: string) {
    forall i :: 0 <= i < |s| ==> '0' <= s[i] <= '9'
  }

  function DecimalValue(s: string): nat
    requires IsDecimal(s)
  {
    if s == "" then 0 else 10 * DecimalValue(s[..|s| - 1]) + (s[|s| - 1] as int - '0' as int)
  }

  function Hotp(v: TotpValidator, secret: seq<Byte>, counter: nat): Option<string>
    requires LongEnough(v.hmac)
  {
    match v.hmac(secret, CounterBytes(counter, 8))
    case Some(hs) => Some(ZeroPadded(Truncate(hs) % Pow10(v.digits), v.digits))
    case None => None
  }

  lemma {:induction false} DecimalReads(n: nat, width: nat)
    requires n < Pow10(width) && width > 0
    ensures |Decimal(n)| <= width && IsDecimal(Decimal(n)) && DecimalValue(Decimal(n)) == n
  {
    var s := Decimal(n);
    if n < 10 {
      assert s[..0] == "";
    } else {
      assert width > 1 by {
        assert Pow10(1) == 10;
      }
      DecimalReads(n / 10, width - 1);
      assert s[..|s| - 1] == Decimal(n / 10);
    }
  }

  lemma {:induction false} LeadingZeros(s: string, k: nat)
    requires IsDecimal(s)
    ensures var padded := seq(k, i => '0') + s; IsDecimal(padded) && DecimalValue(padded) == DecimalValue(s)
  {
    var padded := seq(k, i => '0') + s;
    if s != "" {
      LeadingZeros(s[..|s| - 1], k);
      assert padded[..|padded| - 1] == seq(k, i => '0') + s[..|s| - 1];
    } else if k > 0 {
      LeadingZeros(s, k - 1);
      assert padded[..|padded| - 1] == seq(k - 1, i => '0') + s;
    } else {
      assert padded == s;
    }
  }

  lemma PaddedReads(n: nat, width: nat)
    requires n < Pow10(width) && width > 0
    ensures |ZeroPadded(n, width)| == width && IsDecimal(ZeroPadded(n, width)) && DecimalValue(ZeroPadded(n, width)) == n
  {
    DecimalReads(n, width);
    if |Decimal(n)| < width {
      LeadingZeros(Decimal(n), width - |Decimal(n)|);
    }
  }

  /** What a code is: exactly `digits` decimal digits, whose value is the low 31 bits of the four bytes at the offset,
    * modulo 10^digits. */
  predicate IsCode(v: TotpValidator, hs: seq<Byte>, code: string)
    requires |hs| >= 20
  {
    var offset := hs[|hs| - 1] % 16;
    |code| == v.digits && IsDecimal(code)
    && DecimalValue(code) == ConcatBytes(hs[offset..offset + 4]) % 0x8000_0000 % Pow10(v.digits)
  }

  /** Whenever the digest can be built there is a code, leading zeros and all. */
  lemma CodeShape(v: TotpValidator, secret: seq<Byte>, counter: nat)
    requires v.Valid() && v.hmac(secret, CounterBytes(counter, 8)).Some?
    ensures Hotp(v, secret, counter).Some?
    ensures IsCode(v, v.hmac(secret, CounterBytes(counter, 8)).value, Hotp(v, secret, counter).value)
  {
    var hs := v.hmac(secret, CounterBytes(counter, 8)).value;
    TruncateMeaning(hs);
    PaddedReads(Truncate(hs) % Pow10(v.digits), v.digits);
  }

  /** Texts of one length with the same value are the same. */
  lemma {:induction false} DecimalUnique(s: string, t: string)
    requires |s| == |t| && IsDecimal(s) && IsDecimal(t) && DecimalValue(s) == DecimalValue(t)
    ensures s == t
  {
    if s != "" {
      var n := |s| - 1;
      DecimalUnique(s[..n], t[..n]);
      assert s == s[..n] + [s[n]] && t == t[..n] + [t[n]];
    }
  }

  /** The code of a secret and a counter. */
  ghost predicate CodeOf(v: TotpValidator, secret: seq<Byte>, counter: nat, code: string)
    requires v.Valid()
  {
    var hs := v.hmac(secret, CounterBytes(counter, 8));
    hs.Some? && IsCode(v, hs.value, code)
  }

  /** `hotp` computes the code of RFC 4226, and fails only with the digest. */
  lemma HotpIff(v: TotpValidator, secret: seq<Byte>, counter: nat, code: string)
    requires v.Valid()
    ensures Hotp(v, secret, counter) == Some(code) <==> CodeOf(v, secret, counter, code)
    ensures Hotp(v, secret, counter).Some? <==> v.hmac(secret, CounterBytes(counter, 8)).Some?
  {
    if v.hmac(secret, CounterBytes(counter, 8)).Some? {
      CodeShape(v, secret, counter);
      if CodeOf(v, secret, counter, code) {
        DecimalUnique(code, Hotp(v, secret, counter).value);
      }
    }
  }

  // ---- The validation window ----

  function Low(v: TotpValidator, now: nat): nat
    requires v.step >= 1
  {
    if now / v.step < v.skew then 0 else now / v.step - v.skew
  }

  function High(v: TotpValidator, now: nat): nat
    requires v.step >= 1
  {
    if now / v.step + v.skew < U64 then now / v.step + v.skew else U64 - 1
  }

  /** The counter is a 64-bit number at most `skew` steps from the current one. */
  predicate InWindow(v: TotpValidator, now: nat, counter: nat)
    requires v.step >= 1
  {
    Near(now / v.step, v.skew, counter)
  }

  predicate Near(current: nat, skew: nat, counter: nat) {
    counter < U64 && current - skew <= counter <= current + skew
  }

  /** Some counter is near two others exactly when they are at most twice the skew apart. */
  lemma NearBoth(a: nat, b: nat, skew: nat) returns (c: nat)
    requires a <= b < U64
    ensures Near(a, skew, c) && Near(b, skew, c) <==> b <= a + 2 * skew
    ensures forall d: nat :: Near(a, skew, d) && Near(b, skew, d) ==> b <= a + 2 * skew
  {
    c := if b < skew then 0 else b - skew;
  }

  lemma WindowBounds(v: TotpValidator, now: U64Int, counter: nat)
    requires v.step >= 1
    ensures InWindow(v, now, counter) <==> Low(v, now) <= counter <= High(v, now)
  {
    DivLess(now, v.step);
  }

  /** A secret and a counter of the window at `now` produce this code. */
  ghost predicate Justifies(v: TotpValidator, code: string, now: nat, i: int, counter: nat)
    requires v.Valid()
  {
    0 <= i < |v.secrets| && counter >= 0 && InWindow(v, now, counter) && CodeOf(v, v.secrets[i], counter, code)
  }

  ghost predicate Accepts(v: TotpValidator, code: string, now: nat)
    requires v.Valid()
  {
    exists i, counter :: Justifies(v, code, now, i, counter)
  }

  /** `validate`: every secret and every counter of the window is tried, and one match is enough. */
  method Validate(v: TotpValidator, header: Option<string>, now: U64Int) returns (matched: bool)
    requires v.Valid()
    ensures matched <==> header.Some? && Accepts(v, header.value, now)
  {
    matched := false;
    if header.None? {
      return;
    }
    var provided := header.value;
    var low, high := Low(v, now), High(v, now);
    var i := 0;
    while i < |v.secrets|
      invariant i <= |v.secrets|
      invariant matched <==> exists j, c :: j < i && Justifies(v, provided, now, j, c)
    {
      var c := low;
      while c <= high
        invariant low <= c <= high + 1
        invariant matched <==>
                  (exists j, d :: j < i && Justifies(v, provided, now, j, d))
                  || (exists d :: d < c && Justifies(v, provided, now, i, d))
        decreases high + 1 - c
      {
        var code := Hotp(v, v.secrets[i], c);
        HotpIff(v, v.secrets[i], c, provided);
        WindowBounds(v, now, c);
        assert code == Some(provided) <==> Justifies(v, provided, now, i, c);
        if code.Some? {
          if |provided| == |code.value| && provided == code.value {
            matched := true;
          }
        }
        c := c + 1;
      }
      i := i + 1;
    }
  }

  // ---- How long a code is accepted ----

  /** `x / step >= k` read as a bound on `x`. */
  lemma DivAtLeast(x: nat, step: nat, k: int)
    requires step >= 1
    ensures x / step >= k <==> x >= k * step
  {
    var q, r := x / step, x % step;
    assert x == q * step + r;
    if q < k {
      MulLess(q, k, step);
    } else if k < q {
      MulLess(k, q, step);
    }
  }

  /** A counter is in the window for `2 * skew + 1` whole steps around its own, cut off at time zero. */
  lemma WindowSpan(v: TotpValidator, now: U64Int, counter: U64Int)
    requires v.step >= 1
    ensures InWindow(v, now, counter) <==>
              (counter - v.skew) * v.step <= now < (counter + v.skew + 1) * v.step
  {
    DivAtLeast(now, v.step, counter - v.skew);
    DivAtLeast(now, v.step, counter + v.skew + 1);
  }

  /** `replay_window_seconds` in 64-bit arithmetic, which wraps in a release build. */
  function ReplayWindow(v: TotpValidator): U64Int {
    v.step * ((2 * v.skew % U64 + 1) % U64) % U64
  }

  predicate WindowFits(v: TotpValidator) {
    v.step * (2 * v.skew + 1) < U64
  }

  /** The retention is the intended product exactly when that fits into 64 bits. */
  lemma ReplayWindowExact(v: TotpValidator)
    requires v.step >= 1
    ensures ReplayWindow(v) == v.step * (2 * v.skew + 1) <==> WindowFits(v)
  {
    var k := 2 * v.skew + 1;
    AtLeastFactor(v.step, k);
    assert k < U64 ==> (2 * v.skew % U64 + 1) % U64 == k;
  }

  lemma AtLeastFactor(a: nat, b: nat)
    requires a >= 1
    ensures a * b >= b
  {
    if a > 1 { assert a * b == (a - 1) * b + b; }
  }

  /** Two moments share a counter exactly when they are at most `2 * skew` steps apart, also where the
    * window is cut off at either end. */
  lemma ShareCounterIff(v: TotpValidator, first: U64Int, second: U64Int)
    requires v.step >= 1 && first <= second
    ensures (exists c: nat :: InWindow(v, first, c) && InWindow(v, second, c))
            <==> second / v.step <= first / v.step + 2 * v.skew
  {
    DivMonotone(first, second, v.step);
    DivLess(second, v.step);
    var c := NearBoth(first / v.step, second / v.step, v.skew);
    assert InWindow(v, first, c) && InWindow(v, second, c) <==> Near(first / v.step, v.skew, c) && Near(second / v.step, v.skew, c);
  }

  lemma DivMonotone(a: nat, b: nat, step: nat)
    requires step >= 1 && a <= b
    ensures a / step <= b / step
  {
    DivAtLeast(a, step, a / step);
    DivAtLeast(b, step, a / step);
  }

  lemma DivLess(a: nat, step: nat)
    requires step >= 1
    ensures a / step <= a
  {
    DivAtLeast(a, step, a + 1);
    MulLess(0, step, a + 1);
    assert (a + 1) * step == step * (a + 1);
  }

  /** Retention long enough: validations that far apart share no counter. */
  lemma RetentionSuffices(v: TotpValidator, first: U64Int, second: U64Int, code: string)
    requires v.Valid() && first + v.step * (2 * v.skew + 1) <= second
    ensures !exists i, c :: Justifies(v, code, first, i, c) && Justifies(v, code, second, i, c)
  {
    var k := 2 * v.skew + 1;
    DivAtLeast(first, v.step, first / v.step);
    DivAtLeast(second, v.step, first / v.step + k);
    assert (first / v.step + k) * v.step == first / v.step * v.step + v.step * k;
    ShareCounterIff(v, first, second);
  }

  /** And not a second too long: away from time zero, a counter is accepted at moments only one second
    * short of the retention apart. */
  lemma RetentionNeeded(v: TotpValidator, counter: U64Int)
    requires v.step >= 1 && v.skew <= counter && (counter + v.skew + 1) * v.step < U64
    ensures var first, last := (counter - v.skew) * v.step, (counter + v.skew + 1) * v.step - 1;
            && 0 <= first <= last < U64
            && last - first == v.step * (2 * v.skew + 1) - 1
            && InWindow(v, first, counter) && InWindow(v, last, counter)
  {
    var first, last := (counter - v.skew) * v.step, (counter + v.skew + 1) * v.step - 1;
    MulLess(counter - v.skew, counter + v.skew + 1, v.step);
    assert (counter + v.skew + 1) * v.step - (counter - v.skew) * v.step == v.step * (2 * v.skew + 1);
    assert first >= 0 by {
      if counter > v.skew { MulLess(0, counter - v.skew, v.step); }
    }
    WindowSpan(v, first, counter);
    WindowSpan(v, last, counter);
  }
}
