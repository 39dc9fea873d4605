/** `MainActivity.formatTime`: a position in milliseconds shown as
    minutes, a colon and zero-padded seconds (`String.format("%d:%02d", m, s)`),
    with Java's truncating `/` and `%`. */
module TimeFormat {
  import opened JavaInt
  import opened Wrappers

  function DigitChar(d: int): char
    requires 0 <= d < 10
  {
    ('0' as int + d) as char
  }

  predicate IsDigit(c: char)
  {
    '0' <= c <= '9'
  }

  predicate AllDigits(s: string)
  {
    forall i :: 0 <= i < |s| ==> IsDigit(s[i])
  }

  /** The decimal digits of `n`, most significant first, with no leading zero. */
  function Digits(n: nat): (s: string)
    ensures |s| >= 1 && AllDigits(s)
    ensures n < 10 <==> |s| == 1
    decreases n
  {
    if n < 10 then [DigitChar(n)] else Digits(n / 10) + [DigitChar(n % 10)]
  }

  /** `%d`: the digits, after a minus sign when `n` is negative. */
  function Decimal(n: int): string
  {
    if n < 0 then "-" + Digits(-n) else Digits(n)
  }

  /** `%02d`: a value below ten gets a leading zero; anything else, a negative
      value included, is already at least two characters wide. */
  function ZeroPad2(n: int): string
  {
    if 0 <= n < 10 then "0" + Digits(n) else Decimal(n)
  }

  /** The minutes and seconds `formatTime` shows for `ms` milliseconds. */
  function Clock(ms: int): (c: (int, int))
    ensures ms >= 0 ==> c.0 >= 0 && 0 <= c.1 < 60 && c.0 * 60 + c.1 == ms / 1000
  {
    var seconds := Div(ms, 1000);
    (Div(seconds, 60), Rem(seconds, 60))
  }

  function FormatTime(ms: int): string
  {
    var (m, s) := Clock(ms);
    Decimal(m) + ":" + ZeroPad2(s)
  }

  // ---------------------------------------------------------------------
  // Reading a display back

  function DigitValue(c: char): int
  {
    c as int - '0' as int
  }

  /** The number a string of decimal digits denotes. */
  function ParseDigits(s: string): nat
    requires AllDigits(s)
    decreases |s|
  {
    if s == [] then 0 else ParseDigits(s[..|s| - 1]) * 10 + DigitValue(s[|s| - 1])
  }

  /** Reads an `m:ss` display back into minutes and seconds. */
  function ParseTime(t: string): Option<(int, int)>
  {
    if |t| >= 4 && t[|t| - 3] == ':' && AllDigits(t[..|t| - 3]) && AllDigits(t[|t| - 2..])
    then Some((ParseDigits(t[..|t| - 3]), ParseDigits(t[|t| - 2..])))
    else None
  }

  /** Reading back the digits of a number gives the number. */
  lemma {:induction false} ParseDigitsOfDigits(n: nat)
    ensures ParseDigits(Digits(n)) == n
    decreases n
  {
    if n >= 10 {
      var front := Digits(n / 10);
      var s := front + [DigitChar(n % 10)];
      assert s[..|s| - 1] == front;
      ParseDigitsOfDigits(n / 10);
    }
  }

  /** For a non-negative position the seconds field is exactly two digits. */
  lemma {:induction false} SecondsFieldIsTwoDigits(s: int)
    requires 0 <= s < 60
    ensures |ZeroPad2(s)| == 2 && AllDigits(ZeroPad2(s)) && ParseDigits(ZeroPad2(s)) == s
  {
    if s < 10 {
      var t := "0" + Digits(s);
      assert t[..1] == "0" && "0"[..0] == [];
      assert ParseDigits(t[..1]) == 0;
    } else {
      ParseDigitsOfDigits(s);
      assert |Digits(s / 10)| == 1;
    }
  }

  /** `formatTime` of a non-negative position is `m:ss` with `m * 60 + ss` the
      whole seconds of the position and `ss` below sixty, and it can be read
      back without loss. */
  lemma {:induction false} FormatTimeRoundTrip(ms: int)
    requires ms >= 0
    ensures var (m, s) := Clock(ms);
      m * 60 + s == ms / 1000 && 0 <= s < 60 &&
      FormatTime(ms) == Digits(m) + ":" + ZeroPad2(s) &&
      ParseTime(FormatTime(ms)) == Some((m, s))
  {
    var (m, s) := Clock(ms);
    var t := FormatTime(ms);
    var mins, secs := Digits(m), ZeroPad2(s);
    SecondsFieldIsTwoDigits(s);
    ParseDigitsOfDigits(m);
    assert t == mins + ":" + secs;
    assert t[..|t| - 3] == mins;
    assert t[|t| - 2..] == secs;
  }

  /** An unknown duration, which the media player reports as -1, shows as `0:00`. */
  lemma UnknownDurationShowsZero()
    ensures FormatTime(-1) == "0:00"
  {
  }
}
