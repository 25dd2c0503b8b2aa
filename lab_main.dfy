/** The lab's entry point: how the elapsed time of a run is reported. */
module LabMain {
  import opened Text

  /** A `Duration`: whole seconds and the nanoseconds beyond them. */
  datatype Duration = Duration(secs: nat, nanos: nat)

  /** The hours, minutes and seconds of a number of seconds. */
  function Clock(total: nat): (nat, nat, nat) {
    (total / 3600, (total / 60) % 60, total % 60)
  }

  /** The minutes and seconds are below 60, and together the parts make up the total. */
  lemma ClockSpec(total: nat)
    ensures var (h, m, s) := Clock(total);
      m < 60 && s < 60 && h * 3600 + m * 60 + s == total
  {
    var q := total / 60;
    assert total == q * 60 + total % 60;
    assert q == (q / 60) * 60 + q % 60;
    assert total / 3600 == q / 60;
  }

  /** `format_elapsed_time`: "{h}h {m}m {s}s"; the nanoseconds are dropped. */
  function FormatElapsedTime(duration: Duration): string {
    var (h, m, s) := Clock(duration.secs);
    Decimal(h) + ("h " + (Decimal(m) + ("m " + (Decimal(s) + "s"))))
  }

  /** The length of the leading run of digits. */
  function DigitRun(s: string): nat {
    if s == [] || !IsDigit(s[0]) then 0 else 1 + DigitRun(s[1..])
  }

  /** Digits followed by a non-digit: the run ends where the digits do. */
  lemma {:induction false} DigitRunOf(d: string, x: string)
    requires AllDigits(d) && x != [] && !IsDigit(x[0])
    ensures DigitRun(d + x) == |d|
  {
    if d != [] {
      assert (d + x)[1..] == d[1..] + x;
      DigitRunOf(d[1..], x);
    }
  }

  /** A number printed before a letter that is not a digit can be read back. */
  lemma {:induction false} DecimalPrefix(a: nat, b: nat, x: string, y: string)
    requires x != [] && y != [] && !IsDigit(x[0]) && !IsDigit(y[0])
    requires Decimal(a) + x == Decimal(b) + y
    ensures a == b && x == y
  {
    var da, db := Decimal(a), Decimal(b);
    DigitRunOf(da, x);
    DigitRunOf(db, y);
    assert da == (da + x)[..|da|];
    assert db == (db + y)[..|db|];
    DecimalInjective(a, b);
    assert x == (da + x)[|da|..];
    assert y == (db + y)[|db|..];
  }

  /** The report names the whole seconds exactly: two durations with the same report have the same seconds. */
  lemma FormatElapsedTimeInjective(d1: Duration, d2: Duration)
    requires FormatElapsedTime(d1) == FormatElapsedTime(d2)
    ensures d1.secs == d2.secs
  {
    var (h1, m1, s1) := Clock(d1.secs);
    var (h2, m2, s2) := Clock(d2.secs);
    var y1, y2 := "m " + (Decimal(s1) + "s"), "m " + (Decimal(s2) + "s");
    var x1, x2 := "h " + (Decimal(m1) + y1), "h " + (Decimal(m2) + y2);
    DecimalPrefix(h1, h2, x1, x2);
    assert x1[2..] == Decimal(m1) + y1 && x2[2..] == Decimal(m2) + y2;
    DecimalPrefix(m1, m2, y1, y2);
    assert y1[2..] == Decimal(s1) + "s" && y2[2..] == Decimal(s2) + "s";
    DecimalPrefix(s1, s2, "s", "s");
    ClockSpec(d1.secs);
    ClockSpec(d2.secs);
  }

  /** The unit test's cases. */
  lemma FormatElapsedTimeExamples()
    ensures FormatElapsedTime(Duration(134, 0)) == "0h 2m 14s"
    ensures FormatElapsedTime(Duration(3724, 0)) == "1h 2m 4s"
  {
    assert Clock(134) == (0, 2, 14);
    assert Clock(3724) == (1, 2, 4);
    assert Decimal(14) == "14" by {
      assert Decimal(1) == "1" && Decimal(4) == "4";
    }
  }
}
