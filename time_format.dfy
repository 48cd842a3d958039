/** `formatTimestamp` of `static/js/modules/utils.js`: a number of seconds
    shown as "HH:MM:SS".

    A JavaScript number is a `real`; the NaN that `parseFloat` gives for a
    non-numeric argument is `None`. `Math.floor` is `Floor` and `%` is
    JavaScript's remainder, which truncates toward zero and so keeps the
    sign of the dividend. */
module TimeFormat {
  import opened Common

  /** JavaScript's truncation of a quotient toward zero. */
  function Trunc(x: real): int {
    if x >= 0.0 then x.Floor else -((-x).Floor)
  }

  /** JavaScript's `a % b` on numbers. */
  function Rem(a: real, b: real): real
    requires b != 0.0
  {
    a - b * (Trunc(a / b) as real)
  }

  /** `n.toString().padStart(2, '0')` for an integer `n`. */
  function Pad2(n: int): string {
    PadStart(IntToString(n), 2, '0')
  }

  function Hours(t: real): int { (t / 3600.0).Floor }
  function Minutes(t: real): int { (Rem(t, 3600.0) / 60.0).Floor }
  function Seconds(t: real): int { Rem(t, 60.0).Floor }

  /** `formatTimestamp(totalSeconds)`, where `time` is `parseFloat(totalSeconds)`. */
  function FormatTimestamp(time: Option<real>): string {
    if time.None? then "00:00:00"
    else Pad2(Hours(time.value)) + ":" + Pad2(Minutes(time.value)) + ":" + Pad2(Seconds(time.value))
  }

  // ---------------------------------------------------------------- arithmetic

  /** Quotient and remainder by 60 are the only pair with the remainder
      in range. */
  lemma DivMod60(n: int, q: int, r: int)
    requires n == q * 60 + r && 0 <= r < 60
    ensures n / 60 == q && n % 60 == r
  {
  }

  /** For a non-negative `t`, the floor of `t / d` is the integer quotient of
      the floor of `t`. */
  lemma FloorDiv(t: real, d: nat)
    requires t >= 0.0 && d > 0
    ensures (t / d as real).Floor == t.Floor / d
  {
    var n := t.Floor;
    var q := n / d;
    var x := t / d as real;
    assert x * d as real == t;
    assert q as real * d as real <= n as real <= t;
    assert t < (q + 1) as real * d as real by {
      assert n + 1 <= (q + 1) * d;
      assert ((q + 1) * d) as real == (q + 1) as real * d as real;
    }
    assert q as real <= x;
    assert x < (q + 1) as real;
  }

  /** The floor of `t` less a whole number. */
  lemma FloorMinus(t: real, k: int)
    ensures (t - k as real).Floor == t.Floor - k
  {
  }

  /** For a non-negative `t`, JavaScript's `t % d` is `t` less the whole
      multiples of `d` below it, and its floor is `floor(t) % d`. */
  lemma RemOfNonNegative(t: real, d: nat)
    requires t >= 0.0 && d > 0
    ensures Rem(t, d as real) == t - (t.Floor / d * d) as real
    ensures Rem(t, d as real) >= 0.0
    ensures Rem(t, d as real).Floor == t.Floor % d
  {
    FloorDiv(t, d);
    var q := t.Floor / d;
    assert Trunc(t / d as real) == q;
    assert (q as real) * d as real == (q * d) as real;
    FloorMinus(t, q * d);
  }

  // ---------------------------------------------------------------- the three fields

  /** For a non-negative time the fields are whole hours, minutes below 60
      and seconds below 60 that add back up to the whole seconds of `t`. */
  lemma {:induction false} FieldsDecompose(t: real)
    requires t >= 0.0
    ensures Hours(t) >= 0 && 0 <= Minutes(t) < 60 && 0 <= Seconds(t) < 60
    ensures Hours(t) * 3600 + Minutes(t) * 60 + Seconds(t) == t.Floor
  {
    var n := t.Floor;
    FloorDiv(t, 3600);
    RemOfNonNegative(t, 3600);
    RemOfNonNegative(t, 60);
    var r := Rem(t, 3600.0);
    FloorDiv(r, 60);
    assert Hours(t) == n / 3600;
    assert Minutes(t) == (n % 3600) / 60;
    assert Seconds(t) == n % 60;
    var h, m, s := n / 3600, (n % 3600) / 60, (n % 3600) % 60;
    assert n % 3600 == m * 60 + s;
    assert n == (h * 60 + m) * 60 + s;
    DivMod60(n, h * 60 + m, s);
  }

  /** A time is shown as "00:00:00" exactly when it is NaN or below one
      second (and not negative). */
  lemma ZeroShownForFirstSecond(time: Option<real>)
    requires time.None? || time.value >= 0.0
    ensures FormatTimestamp(time) == "00:00:00" <==> time.None? || time.value < 1.0
  {
    if time.Some? {
      ZeroShownAt(time.value);
    }
  }

  lemma ZeroShownAt(t: real)
    requires t >= 0.0
    ensures var r := FormatTimestamp(Some(t)); r == "00:00:00" <==> t < 1.0
  {
    FieldsDecompose(t);
    Pad2Reads(Minutes(t));
    Pad2Reads(Seconds(t));
    Pad2Zero(Hours(t));
    Pad2Zero(Minutes(t));
    Pad2Zero(Seconds(t));
    ClockOfZeros(Pad2(Hours(t)), Pad2(Minutes(t)), Pad2(Seconds(t)));
  }

  /** A clock of padded fields reads "00:00:00" exactly when each field is "00". */
  lemma ClockOfZeros(a: string, b: string, c: string)
    requires |a| >= 2 && |b| == 2 && |c| == 2
    ensures a + ":" + b + ":" + c == "00:00:00" <==> a == "00" && b == "00" && c == "00"
  {
    var r := a + ":" + b + ":" + c;
    if |a| == 2 {
      ClockParts(a, b, c);
      if r == "00:00:00" {
        assert a == r[..2] == "00";
        assert b == r[3..5] == "00";
        assert c == r[6..] == "00";
      }
    } else {
      assert |r| != 8;
    }
  }

  /** The three padded fields sit at fixed places of a two-digit clock. */
  lemma ClockParts(a: string, b: string, c: string)
    requires |a| == 2 && |b| == 2 && |c| == 2
    ensures var r := a + ":" + b + ":" + c;
            |r| == 8 && r[2] == ':' && r[5] == ':' && r[..2] == a && r[3..5] == b && r[6..] == c
  {
    var r := a + ":" + b + ":" + c;
    assert r[..2] == a;
    assert r[3..5] == b;
    assert r[6..] == c;
  }

  // ---------------------------------------------------------------- padding

  /** A number below 100 pads to exactly two digits that read back as it. */
  lemma Pad2Reads(n: int)
    requires 0 <= n < 100
    ensures |Pad2(n)| == 2 && AllDigits(Pad2(n)) && DigitsValue(Pad2(n)) == n
  {
    PadTwoReads(n);
  }

  /** The decimal digits of a positive number do not start with 0. */
  lemma {:induction false} LeadingDigit(n: nat)
    requires n > 0
    ensures NatToString(n)[0] != '0'
    decreases n
  {
    if n >= 10 {
      LeadingDigit(n / 10);
      assert NatToString(n)[0] == NatToString(n / 10)[0];
    }
  }

  /** The padded field is "00" exactly for zero. */
  lemma Pad2Zero(n: int)
    ensures |Pad2(n)| >= 2
    ensures Pad2(n) == "00" <==> n == 0
    ensures n != 0 && |Pad2(n)| == 2 ==> Pad2(n)[0] != '0' || Pad2(n)[1] != '0'
  {
    IntToStringSign(n);
    var s := IntToString(n);
    if n > 0 {
      LeadingDigit(n);
      if |s| == 1 {
        assert Pad2(n)[1] == s[0];
      } else {
        assert Pad2(n)[0] == s[0];
      }
    } else if n < 0 {
      assert Pad2(n)[0] == '-' by {
        assert |s| >= 2;
        assert Pad2(n) == s;
      }
    } else {
      assert s == "0";
    }
  }

  /** Reading the clock back: for a time under a hundred hours the result is
      "HH:MM:SS" in digits, and the three numbers give the whole seconds. */
  lemma ReadsBack(t: real)
    requires 0.0 <= t < 360000.0
    ensures var r := FormatTimestamp(Some(t));
            |r| == 8 && r[2] == ':' && r[5] == ':'
            && AllDigits(r[..2]) && AllDigits(r[3..5]) && AllDigits(r[6..])
            && DigitsValue(r[..2]) * 3600 + DigitsValue(r[3..5]) * 60 + DigitsValue(r[6..]) == t.Floor
  {
    FieldsDecompose(t);
    FloorDiv(t, 3600);
    assert Hours(t) < 100;
    Pad2Reads(Hours(t));
    Pad2Reads(Minutes(t));
    Pad2Reads(Seconds(t));
    ClockParts(Pad2(Hours(t)), Pad2(Minutes(t)), Pad2(Seconds(t)));
  }
}
