/**
 * ASCII text helpers shared by the model: character classes, lower-casing,
 * trimming, filtering, splitting, prefixes, and the decimal printing and
 * `u64` parsing that Rust's `to_string` and `str::parse::<u64>` perform.
 */
module Text {
  import opened Wrappers

  const U64_MAX: nat := 18_446_744_073_709_551_615

  // ---------------------------------------------------------------------
  // Character classes

  predicate IsDigit(c: char) { '0' <= c <= '9' }

  predicate IsAsciiUpper(c: char) { 'A' <= c <= 'Z' }

  predicate IsAsciiAlphanumeric(c: char) {
    IsDigit(c) || IsAsciiUpper(c) || 'a' <= c <= 'z'
  }

  /** ASCII part of Unicode White_Space, which `trim` and `split_whitespace` use. */
  predicate IsWhitespace(c: char) {
    c == ' ' || c == '\t' || c == '\n' || c == '\r' || c == '\U{0B}' || c == '\U{0C}'
  }

  function DigitValue(c: char): (d: nat)
    requires IsDigit(c)
    ensures d < 10
  {
    (c as int - '0' as int) as nat
  }

  function DigitChar(d: nat): (c: char)
    requires d < 10
    ensures IsDigit(c) && DigitValue(c) == d
  {
    ('0' as int + d) as char
  }

  predicate AllDigits(s: string) {
    forall i :: 0 <= i < |s| ==> IsDigit(s[i])
  }

  // ---------------------------------------------------------------------
  // UTF-8 length

  /** The number of bytes UTF-8 takes for `c`: one for ASCII, up to four. */
  function Utf8Width(c: char): (w: nat)
    ensures 1 <= w <= 4
    ensures w == 1 <==> c as int < 0x80
  {
    if c as int < 0x80 then 1
    else if c as int < 0x800 then 2
    else if c as int < 0x1_0000 then 3
    else 4
  }

  /** `str::len`: the length of the text in UTF-8 bytes. */
  function Utf8Len(s: string): nat
    decreases |s|
  {
    if s == [] then 0 else Utf8Len(s[..|s| - 1]) + Utf8Width(s[|s| - 1])
  }

  /** Every character takes at least one byte, and an ASCII text one byte per character. */
  lemma {:induction false} Utf8LenBounds(s: string)
    ensures |s| <= Utf8Len(s) <= 4 * |s|
    ensures Utf8Len(s) == |s| <==> forall i :: 0 <= i < |s| ==> s[i] as int < 0x80
    decreases |s|
  {
    if s != [] {
      var init := s[..|s| - 1];
      Utf8LenBounds(init);
      if forall i :: 0 <= i < |s| ==> s[i] as int < 0x80 {
        assert forall i :: 0 <= i < |init| ==> init[i] == s[i];
      } else if Utf8Len(init) == |init| {
        var i :| 0 <= i < |s| && s[i] as int >= 0x80;
        if i < |init| {
          assert init[i] == s[i];
        }
      }
    }
  }

  /** The bytes of a concatenation are those of its parts. */
  lemma {:induction false} Utf8LenAppend(a: string, b: string)
    ensures Utf8Len(a + b) == Utf8Len(a) + Utf8Len(b)
    decreases |b|
  {
    if b != [] {
      var init := b[..|b| - 1];
      Utf8LenAppend(a, init);
      assert (a + b)[..|a + b| - 1] == a + init;
    } else {
      assert a + b == a;
    }
  }

  /** Digits are ASCII, so a digit text is as many bytes long as it has characters. */
  lemma DigitsUtf8Len(s: string)
    requires AllDigits(s)
    ensures Utf8Len(s) == |s|
  {
    forall i | 0 <= i < |s| ensures s[i] as int < 0x80 {
      assert IsDigit(s[i]);
    }
    Utf8LenBounds(s);
  }

  // ---------------------------------------------------------------------
  // Case and filtering

  function ToLowerChar(c: char): (r: char)
    ensures !IsAsciiUpper(r)
    ensures IsAsciiUpper(c) ==> r as int == c as int + 32
    ensures !IsAsciiUpper(c) ==> r == c
  {
    if IsAsciiUpper(c) then (c as int + 32) as char else c
  }

  /** `to_lowercase`, on ASCII letters. */
  function ToLower(s: string): (r: string)
    ensures |r| == |s|
    ensures forall i :: 0 <= i < |s| ==> r[i] == ToLowerChar(s[i])
  {
    if s == [] then [] else [ToLowerChar(s[0])] + ToLower(s[1..])
  }

  predicate IsLower(s: string) {
    forall i :: 0 <= i < |s| ==> !IsAsciiUpper(s[i])
  }

  lemma ToLowerIdempotent(s: string)
    ensures IsLower(ToLower(s))
    ensures ToLower(ToLower(s)) == ToLower(s)
  {
  }

  lemma ToLowerOfLower(s: string)
    requires IsLower(s)
    ensures ToLower(s) == s
  {
  }

  lemma ToLowerConcat(a: string, b: string)
    ensures ToLower(a + b) == ToLower(a) + ToLower(b)
  {
  }

  /** Keeps the characters `keep` accepts, in order (`String::retain`). */
  function Filter(s: string, keep: char -> bool): (r: string)
    ensures |r| <= |s|
    ensures forall i :: 0 <= i < |r| ==> keep(r[i])
    ensures forall c :: c in r <==> c in s && keep(c)
  {
    if s == [] then []
    else if keep(s[0]) then [s[0]] + Filter(s[1..], keep)
    else Filter(s[1..], keep)
  }

  /** `str::replace([a, b, ...], "")`: every listed character removed. */
  function RemoveChars(s: string, drop: set<char>): (r: string)
    ensures forall c :: c in r <==> c in s && c !in drop
  {
    Filter(s, c => c !in drop)
  }

  lemma FilterConcat(a: string, b: string, keep: char -> bool)
    ensures Filter(a + b, keep) == Filter(a, keep) + Filter(b, keep)
  {
    if a != [] {
      assert (a + b)[0] == a[0];
      assert (a + b)[1..] == a[1..] + b;
      FilterConcat(a[1..], b, keep);
      if keep(a[0]) {
        assert Filter(a + b, keep) == [a[0]] + Filter(a[1..] + b, keep);
      } else {
        assert Filter(a + b, keep) == Filter(a[1..] + b, keep);
      }
    } else {
      assert a + b == b;
    }
  }

  lemma FilterAllKept(s: string, keep: char -> bool)
    requires forall i :: 0 <= i < |s| ==> keep(s[i])
    ensures Filter(s, keep) == s
  {
  }

  lemma RemoveCharsNone(s: string, drop: set<char>)
    requires forall i :: 0 <= i < |s| ==> s[i] !in drop
    ensures RemoveChars(s, drop) == s
  {
    FilterAllKept(s, c => c !in drop);
  }

  /** Leading zeros of a digit string carry no value. */
  lemma TrimLeadingZerosDigits(s: string)
    requires AllDigits(s)
    ensures AllDigits(TrimLeadingZeros(s))
    ensures DigitsValue(TrimLeadingZeros(s)) == DigitsValue(s)
    ensures TrimLeadingZeros(s) == [] <==> DigitsValue(s) == 0
  {
    var r := TrimLeadingZeros(s);
    assert AllDigits(r) by {
      forall i | 0 <= i < |r| ensures IsDigit(r[i]) { assert r[i] == s[|s| - |r| + i]; }
    }
    DigitsValueZeros(|s| - |r|, r);
    if r != [] {
      LeadingDigitPositive(r);
    }
  }

  lemma {:induction false} LeadingDigitPositive(s: string)
    requires s != [] && AllDigits(s) && s[0] != '0'
    ensures DigitsValue(s) > 0
  {
    if |s| > 1 {
      LeadingDigitPositive(s[..|s| - 1]);
    }
  }

  /** `str::replace(from, to)` for single characters. */
  function ReplaceChar(s: string, from: char, to: char): (r: string)
    ensures |r| == |s|
    ensures forall i :: 0 <= i < |s| ==> r[i] == (if s[i] == from then to else s[i])
  {
    if s == [] then [] else [if s[0] == from then to else s[0]] + ReplaceChar(s[1..], from, to)
  }

  // ---------------------------------------------------------------------
  // Trimming

  function TrimStart(s: string): (r: string)
    ensures r == [] || !IsWhitespace(r[0])
    ensures |r| <= |s| && r == s[|s| - |r|..]
  {
    if s != [] && IsWhitespace(s[0]) then TrimStart(s[1..]) else s
  }

  function TrimEnd(s: string): (r: string)
    ensures r == [] || !IsWhitespace(r[|r| - 1])
    ensures |r| <= |s| && r == s[..|r|]
  {
    if s != [] && IsWhitespace(s[|s| - 1]) then TrimEnd(s[..|s| - 1]) else s
  }

  /** `str::trim`: leading and trailing whitespace removed. */
  function Trim(s: string): string {
    TrimEnd(TrimStart(s))
  }

  lemma TrimStartOfTrimmed(s: string)
    requires s == [] || !IsWhitespace(s[0])
    ensures TrimStart(s) == s
  {
  }

  lemma TrimEndPrefix(s: string)
    requires s == [] || !IsWhitespace(s[0])
    ensures var r := TrimEnd(s); r == [] || !IsWhitespace(r[0])
  {
  }

  lemma TrimIdempotent(s: string)
    ensures Trim(Trim(s)) == Trim(s)
  {
    var t := TrimStart(s);
    TrimEndPrefix(t);
    var r := TrimEnd(t);
    TrimStartOfTrimmed(r);
  }

  /** Lower-casing and trimming commute, since no upper-case letter is whitespace. */
  lemma {:induction false} TrimStartToLower(s: string)
    ensures TrimStart(ToLower(s)) == ToLower(TrimStart(s))
  {
    if s != [] {
      var l := ToLower(s);
      assert l == [ToLowerChar(s[0])] + ToLower(s[1..]);
      assert IsWhitespace(l[0]) == IsWhitespace(s[0]);
      if IsWhitespace(s[0]) {
        assert l[1..] == ToLower(s[1..]);
        TrimStartToLower(s[1..]);
      }
    }
  }

  lemma {:induction false} TrimEndToLower(s: string)
    ensures TrimEnd(ToLower(s)) == ToLower(TrimEnd(s))
  {
    if s != [] {
      var init, c := s[..|s| - 1], s[|s| - 1];
      assert s == init + [c];
      ToLowerConcat(init, [c]);
      var li, lc := ToLower(init), ToLowerChar(c);
      assert ToLower(s) == li + [lc];
      assert (li + [lc])[..|li|] == li;
      WhitespaceToLower(c);
      if IsWhitespace(c) {
        TrimEndToLower(init);
      }
    }
  }

  /** Lower-casing neither creates nor removes whitespace. */
  lemma WhitespaceToLower(c: char)
    ensures IsWhitespace(ToLowerChar(c)) == IsWhitespace(c)
  {
  }

  lemma TrimToLower(s: string)
    ensures Trim(ToLower(s)) == ToLower(Trim(s))
  {
    TrimStartToLower(s);
    TrimEndToLower(TrimStart(s));
  }

  // ---------------------------------------------------------------------
  // Prefixes

  predicate StartsWith(s: string, p: string) {
    |p| <= |s| && s[..|p|] == p
  }

  /** `str::strip_prefix`. */
  function StripPrefix(s: string, p: string): (r: Option<string>)
    ensures r.Some? <==> StartsWith(s, p)
    ensures r.Some? ==> s == p + r.value
  {
    if StartsWith(s, p) then Some(s[|p|..]) else None
  }

  /** The text up to (not including) the first `sep`; all of it when there is none. */
  function BeforeFirst(s: string, sep: char): (r: string)
    ensures sep !in r
    ensures StartsWith(s, r)
    ensures |r| < |s| ==> s[|r|] == sep
  {
    if s == [] then []
    else if s[0] == sep then []
    else [s[0]] + BeforeFirst(s[1..], sep)
  }

  // ---------------------------------------------------------------------
  // Splitting

  /**
   * `str::split` with a character predicate: the pieces between separators,
   * empty pieces kept, so there is always one more piece than separators.
   */
  function SplitWhere(s: string, isSep: char -> bool): (r: seq<string>)
    ensures |r| >= 1
    ensures forall i, j :: 0 <= i < |r| && 0 <= j < |r[i]| ==> !isSep(r[i][j])
  {
    if s == [] then [""]
    else
      var rest := SplitWhere(s[1..], isSep);
      if isSep(s[0]) then [""] + rest
      else [[s[0]] + rest[0]] + rest[1..]
  }

  /** `str::split(sep)` for a single character. */
  function Split(s: string, sep: char): (r: seq<string>)
    ensures |r| >= 1
    ensures forall i :: 0 <= i < |r| ==> sep !in r[i]
  {
    SplitWhere(s, c => c == sep)
  }

  /** The pieces put back together with `sep` between them. */
  function Join(parts: seq<string>, sep: char): string
    requires |parts| >= 1
  {
    if |parts| == 1 then parts[0] else parts[0] + [sep] + Join(parts[1..], sep)
  }

  function Count(s: string, c: char): nat {
    if s == [] then 0 else (if s[0] == c then 1 else 0) + Count(s[1..], c)
  }

  /** Joining two non-empty lists of pieces is joining each and putting one separator between. */
  lemma {:induction false} JoinAppend(a: seq<string>, b: seq<string>, sep: char)
    requires |a| >= 1 && |b| >= 1
    ensures Join(a + b, sep) == Join(a, sep) + [sep] + Join(b, sep)
  {
    if |a| > 1 {
      JoinAppend(a[1..], b, sep);
      assert (a + b)[1..] == a[1..] + b;
    } else {
      assert (a + b)[1..] == b;
    }
  }

  /**
   * Cutting a join of separator-free pieces at its end or just before a
   * separator leaves the join of its first pieces.
   */
  lemma {:induction false} JoinCut(parts: seq<string>, k: nat, sep: char)
    requires |parts| >= 1
    requires forall i :: 0 <= i < |parts| ==> sep !in parts[i]
    requires k <= |Join(parts, sep)|
    requires k == |Join(parts, sep)| || Join(parts, sep)[k] == sep
    ensures exists i :: 1 <= i <= |parts| && Join(parts[..i], sep) == Join(parts, sep)[..k]
  {
    var j := Join(parts, sep);
    if |parts| == 1 {
      assert parts[..1] == parts;
      if k < |j| {
        assert false;
      }
      assert j[..k] == j;
    } else {
      var rest := Join(parts[1..], sep);
      assert j == parts[0] + [sep] + rest;
      if k <= |parts[0]| {
        if k < |parts[0]| {
          assert false;
        }
        assert Join(parts[..1], sep) == parts[0];
        assert j[..k] == parts[0];
      } else {
        var k' := k - |parts[0]| - 1;
        assert k' == |rest| || rest[k'] == sep by {
          if k' < |rest| { assert rest[k'] == j[k]; }
        }
        forall i | 0 <= i < |parts[1..]| ensures sep !in parts[1..][i] {
          assert parts[1..][i] == parts[i + 1];
        }
        JoinCut(parts[1..], k', sep);
        var i' :| 1 <= i' <= |parts[1..]| && Join(parts[1..][..i'], sep) == rest[..k'];
        var head := parts[..i' + 1];
        assert head[1..] == parts[1..][..i'];
        assert Join(head, sep) == parts[0] + [sep] + rest[..k'];
        assert j[..k] == parts[0] + [sep] + rest[..k'];
        assert 1 <= i' + 1 <= |parts| && Join(parts[..i' + 1], sep) == j[..k];
      }
    }
  }

  lemma {:induction false} JoinSplit(s: string, sep: char)
    ensures Join(Split(s, sep), sep) == s
    ensures |Split(s, sep)| == Count(s, sep) + 1
  {
    if s != [] {
      JoinSplit(s[1..], sep);
      var rest := Split(s[1..], sep);
      if s[0] != sep && |rest| > 1 {
        assert Join(rest, sep) == rest[0] + [sep] + Join(rest[1..], sep);
        var r := Split(s, sep);
        assert r[1..] == rest[1..];
        assert Join(r, sep) == ([s[0]] + rest[0]) + [sep] + Join(rest[1..], sep);
      }
    }
  }

  lemma {:induction false} SplitJoin(parts: seq<string>, sep: char)
    requires |parts| >= 1
    requires forall i :: 0 <= i < |parts| ==> sep !in parts[i]
    ensures Split(Join(parts, sep), sep) == parts
  {
    if |parts| == 1 {
      SplitNoSep(parts[0], sep);
    } else {
      SplitJoin(parts[1..], sep);
      SplitPrefix(parts[0], Join(parts[1..], sep), sep);
      assert Join(parts, sep) == parts[0] + ([sep] + Join(parts[1..], sep));
    }
  }

  lemma {:induction false} SplitNoSep(s: string, sep: char)
    requires sep !in s
    ensures Split(s, sep) == [s]
  {
    if s != [] {
      SplitNoSep(s[1..], sep);
      assert [s[0]] + s[1..] == s;
    }
  }

  /** Splitting a text that starts with a separator-free piece and a separator. */
  lemma {:induction false} SplitPrefix(a: string, b: string, sep: char)
    requires sep !in a
    ensures Split(a + ([sep] + b), sep) == [a] + Split(b, sep)
  {
    if a == [] {
      assert a + ([sep] + b) == [sep] + b;
      assert ([sep] + b)[1..] == b;
    } else {
      assert (a + ([sep] + b))[1..] == a[1..] + ([sep] + b);
      SplitPrefix(a[1..], b, sep);
      assert [a[0]] + a[1..] == a;
    }
  }

  /** Splitting around one separator splits each side on its own. */
  lemma {:induction false} SplitConcat(a: string, b: string, sep: char)
    ensures Split(a + [sep] + b, sep) == Split(a, sep) + Split(b, sep)
  {
    if a == [] {
      assert a + [sep] + b == [sep] + b;
      assert ([sep] + b)[1..] == b;
    } else {
      assert (a + [sep] + b)[1..] == a[1..] + [sep] + b;
      SplitConcat(a[1..], b, sep);
    }
  }

  /** `split_whitespace`: the maximal runs of non-whitespace characters. */
  function Words(s: string): (r: seq<string>)
    ensures forall i :: 0 <= i < |r| ==> r[i] != []
    ensures forall w :: w in r ==> forall j :: 0 <= j < |w| ==> !IsWhitespace(w[j])
  {
    var pieces := SplitWhere(s, IsWhitespace);
    assert forall w :: w in pieces ==> forall j :: 0 <= j < |w| ==> !IsWhitespace(w[j]);
    NonEmpty(pieces)
  }

  /** The non-empty elements, in order. */
  function NonEmpty(parts: seq<string>): (r: seq<string>)
    ensures forall i :: 0 <= i < |r| ==> r[i] != []
    ensures forall x :: x in r <==> x in parts && x != []
  {
    if parts == [] then []
    else if parts[0] == [] then NonEmpty(parts[1..])
    else [parts[0]] + NonEmpty(parts[1..])
  }

  // ---------------------------------------------------------------------
  // Decimal numbers

  function Pow10(k: nat): (r: nat)
    ensures r >= 1
  {
    if k == 0 then 1 else 10 * Pow10(k - 1)
  }

  /** The value of a string of digits, most significant first. */
  function DigitsValue(s: string): nat
    requires AllDigits(s)
  {
    if s == [] then 0 else DigitsValue(s[..|s| - 1]) * 10 + DigitValue(s[|s| - 1])
  }

  /** `u64::to_string` / `u32::to_string`: decimal digits, no leading zeros. */
  function Decimal(n: nat): (s: string)
    ensures |s| >= 1 && AllDigits(s)
    ensures DigitsValue(s) == n
    ensures |s| > 1 ==> s[0] != '0'
    decreases n
  {
    if n < 10 then [DigitChar(n)]
    else
      var s := Decimal(n / 10) + [DigitChar(n % 10)];
      assert s[..|s| - 1] == Decimal(n / 10);
      s
  }

  lemma {:induction false} DecimalLength(n: nat, k: nat)
    requires k >= 1
    ensures |Decimal(n)| <= k <==> n < Pow10(k)
    decreases n
  {
    if n >= 10 && k > 1 {
      DecimalLength(n / 10, k - 1);
    } else if k > 1 {
      assert Pow10(k) == 10 * Pow10(k - 1);
    }
  }

  lemma {:induction false} DecimalInjective(m: nat, n: nat)
    requires Decimal(m) == Decimal(n)
    ensures m == n
  {
  }

  /** `s` left-padded with '0' to width `w`, as a zero-filled `format!` width does. */
  function PadZeros(s: string, w: nat): (r: string)
    ensures |r| == if |s| >= w then |s| else w
    ensures exists k :: 0 <= k <= |r| && r == Zeros(k) + s
  {
    if |s| >= w then (assert Zeros(0) + s == s; s)
    else
      var r := Zeros(w - |s|) + s;
      r
  }

  function Zeros(k: nat): (z: string)
    ensures |z| == k && AllDigits(z)
    ensures forall i :: 0 <= i < k ==> z[i] == '0'
  {
    if k == 0 then [] else ['0'] + Zeros(k - 1)
  }

  lemma {:induction false} DigitsValueZeros(k: nat, s: string)
    requires AllDigits(s)
    ensures AllDigits(Zeros(k) + s)
    ensures DigitsValue(Zeros(k) + s) == DigitsValue(s)
    decreases |s|
  {
    var z := Zeros(k);
    if s == [] {
      assert z + s == z;
      ZerosValue(k);
    } else {
      var t := s[..|s| - 1];
      DigitsValueZeros(k, t);
      assert (z + s)[..|z + s| - 1] == z + t;
    }
  }

  lemma {:induction false} ZerosValue(k: nat)
    ensures DigitsValue(Zeros(k)) == 0
  {
    if k > 0 {
      assert Zeros(k)[..k - 1] == Zeros(k - 1) by {
        var z := Zeros(k);
        forall i | 0 <= i < k - 1 ensures z[i] == '0' { }
      }
      ZerosValue(k - 1);
    }
  }

  /** `trim_start_matches('0')`: the text without its leading zeros. */
  function TrimLeadingZeros(s: string): (r: string)
    ensures r == [] || r[0] != '0'
    ensures |r| <= |s| && s == Zeros(|s| - |r|) + r
  {
    if s != [] && s[0] == '0' then
      var r := TrimLeadingZeros(s[1..]);
      assert Zeros(|s| - |r|) == ['0'] + Zeros(|s| - 1 - |r|);
      r
    else
      assert Zeros(0) + s == s;
      s
  }

  lemma {:induction false} DigitsValueBound(s: string)
    requires AllDigits(s)
    ensures DigitsValue(s) < Pow10(|s|)
  {
    if s != [] {
      DigitsValueBound(s[..|s| - 1]);
    }
  }

  // ---------------------------------------------------------------------
  // `str::parse::<u64>`

  /** The kinds of `ParseIntError` an unsigned parse can report. */
  datatype IntErrorKind = Empty | InvalidDigit | PosOverflow

  /**
   * `str::parse::<u64>`: an optional '+' followed by at least one decimal
   * digit; the first non-digit gives InvalidDigit, a value that outgrows
   * `u64` gives PosOverflow, the empty text gives Empty.
   */
  function ParseU64(s: string): Result<nat, IntErrorKind> {
    if s == [] then Err(Empty)
    else if s == "+" || s == "-" then Err(InvalidDigit)
    else if s[0] == '+' then ParseDigits(s[1..], 0)
    else ParseDigits(s, 0)
  }

  function ParseDigits(s: string, acc: nat): Result<nat, IntErrorKind>
    decreases |s|
  {
    if s == [] then Ok(acc)
    else if !IsDigit(s[0]) then Err(InvalidDigit)
    else
      var next := acc * 10 + DigitValue(s[0]);
      if next > U64_MAX then Err(PosOverflow) else ParseDigits(s[1..], next)
  }

  lemma {:induction false} DigitsValueMonotone(p: string, t: string)
    requires AllDigits(p + t)
    ensures AllDigits(p)
    ensures DigitsValue(p) <= DigitsValue(p + t)
    decreases |t|
  {
    assert forall i :: 0 <= i < |p| ==> p[i] == (p + t)[i];
    if t != [] {
      var t' := t[..|t| - 1];
      assert (p + t)[..|p + t| - 1] == p + t';
      DigitsValueMonotone(p, t');
    } else {
      assert p + t == p;
    }
  }

  lemma {:induction false} ParseDigitsValue(p: string, s: string)
    requires AllDigits(p + s)
    requires DigitsValue(p + s) <= U64_MAX
    ensures AllDigits(p)
    ensures ParseDigits(s, DigitsValue(p)) == Ok(DigitsValue(p + s))
    decreases |s|
  {
    DigitsValueMonotone(p, s);
    if s == [] {
      assert p + s == p;
    } else {
      var p' := p + [s[0]];
      assert p' + s[1..] == p + s;
      assert IsDigit(s[0]) by { assert s[0] == (p + s)[|p|]; }
      assert p'[..|p'| - 1] == p;
      DigitsValueMonotone(p', s[1..]);
      ParseDigitsValue(p', s[1..]);
    }
  }

  lemma {:induction false} ParseDigitsNonDigit(s: string, acc: nat)
    requires !AllDigits(s)
    ensures ParseDigits(s, acc).Err?
    decreases |s|
  {
    if IsDigit(s[0]) {
      assert !AllDigits(s[1..]) by {
        var i :| 0 <= i < |s| && !IsDigit(s[i]);
        assert s[1..][i - 1] == s[i];
      }
      var next := acc * 10 + DigitValue(s[0]);
      if next <= U64_MAX {
        ParseDigitsNonDigit(s[1..], next);
      }
    }
  }

  /** Digit strings within range parse to their value. */
  lemma ParseU64Digits(s: string)
    requires s != [] && AllDigits(s) && DigitsValue(s) <= U64_MAX
    ensures ParseU64(s) == Ok(DigitsValue(s))
  {
    assert [] + s == s;
    ParseDigitsValue([], s);
  }

  /** A text with a character other than a digit and no leading '+' fails to parse. */
  lemma ParseU64NonDigit(s: string)
    requires !AllDigits(s) && !StartsWith(s, "+")
    ensures ParseU64(s).Err?
  {
    ParseDigitsNonDigit(s, 0);
  }

  /** Whatever parses is within `u64`. */
  lemma {:induction false} ParseDigitsBound(s: string, acc: nat)
    requires acc <= U64_MAX
    ensures ParseDigits(s, acc).Ok? ==> ParseDigits(s, acc).value <= U64_MAX
    decreases |s|
  {
    if s != [] && IsDigit(s[0]) {
      var next := acc * 10 + DigitValue(s[0]);
      if next <= U64_MAX {
        ParseDigitsBound(s[1..], next);
      }
    }
  }

  lemma ParseU64Bound(s: string)
    ensures ParseU64(s).Ok? ==> ParseU64(s).value <= U64_MAX
  {
    if s != [] && s[0] == '+' { ParseDigitsBound(s[1..], 0); } else { ParseDigitsBound(s, 0); }
  }

  /** `n.to_string().parse::<u64>()` gives back `n`. */
  lemma ParseDecimal(n: nat)
    requires n <= U64_MAX
    ensures ParseU64(Decimal(n)) == Ok(n)
  {
    ParseU64Digits(Decimal(n));
  }

  /** Leading zeros do not change the parsed value. */
  /** Padding digits with zeros keeps them digits of the same value. */
  lemma PadZerosDigits(d: string, w: nat)
    requires AllDigits(d)
    ensures AllDigits(PadZeros(d, w)) && DigitsValue(PadZeros(d, w)) == DigitsValue(d)
  {
    var r := PadZeros(d, w);
    var k :| 0 <= k <= |r| && r == Zeros(k) + d;
    DigitsValueZeros(k, d);
  }

  lemma ParseZeroPadded(n: nat, w: nat)
    requires n <= U64_MAX
    ensures ParseU64(PadZeros(Decimal(n), w)) == Ok(n)
  {
    var d := Decimal(n);
    var r := PadZeros(d, w);
    var k :| 0 <= k <= |r| && r == Zeros(k) + d;
    DigitsValueZeros(k, d);
    ParseU64Digits(r);
  }
}
