/** base/LogStream.cc and base/LogStream.h: printing integers, and the fixed buffer
    they are printed into. */
module LogStreams {
  import opened Arith

  // ----- numerals -----

  const DIGITS_HEX := "0123456789ABCDEF"
  const DIGITS := "9876543210123456789"   // zero points at its tenth character

  predicate IsBase(base: int) {
    base == 10 || base == 16
  }

  function Digit(d: int): char
    requires 0 <= d < 16
  {
    DIGITS_HEX[d]
  }

  function Quot(n: nat, base: int): nat
    requires IsBase(base)
  {
    if base == 10 then n / 10 else n / 16
  }

  function Times(n: nat, base: int): nat
    requires IsBase(base)
  {
    if base == 10 then 10 * n else 16 * n
  }

  function Rem(n: nat, base: int): (r: nat)
    requires IsBase(base)
    ensures r < base
  {
    if base == 10 then n % 10 else n % 16
  }

  /** The canonical numeral of n. */
  function Numeral(n: nat, base: int): (s: string)
    requires IsBase(base)
    ensures s != ""
  {
    if n < base then [Digit(n)] else Numeral(Quot(n, base), base) + [Digit(Rem(n, base))]
  }

  function Decimal(v: int): string {
    if v < 0 then "-" + Numeral(-v, 10) else Numeral(v, 10)
  }

  predicate IsDigit(ch: char, base: int) {
    '0' <= ch <= '9' || (base == 16 && 'A' <= ch <= 'F')
  }

  function DigitValue(ch: char): (d: nat)
    requires IsDigit(ch, 16)
  {
    if ch <= '9' then ch as int - '0' as int else ch as int - 'A' as int + 10
  }

  predicate Digits(s: string, base: int) {
    forall i :: 0 <= i < |s| ==> IsDigit(s[i], base)
  }

  /** Reading a numeral, most significant digit first. */
  function Value(s: string, base: int): nat
    requires IsBase(base) && Digits(s, base)
  {
    if s == "" then 0 else Times(Value(s[..|s| - 1], base), base) + DigitValue(s[|s| - 1])
  }

  lemma DigitRoundTrip(d: int)
    requires 0 <= d < 16
    ensures IsDigit(Digit(d), 16) && DigitValue(Digit(d)) == d
    ensures d < 10 ==> IsDigit(Digit(d), 10)
  {
  }

  lemma CharRoundTrip(ch: char, base: int)
    requires IsBase(base) && IsDigit(ch, base)
    ensures 0 <= DigitValue(ch) < base && Digit(DigitValue(ch)) == ch
  {
  }

  lemma {:induction false} NumeralValue(n: nat, base: int)
    requires IsBase(base)
    ensures Digits(Numeral(n, base), base) && Value(Numeral(n, base), base) == n
    decreases n
  {
    var s := Numeral(n, base);
    DigitRoundTrip(Rem(n, base));
    if n < base {
      DigitRoundTrip(n);
      assert s[..0] == "";
    } else {
      NumeralValue(Quot(n, base), base);
      assert s[..|s| - 1] == Numeral(Quot(n, base), base);
    }
  }

  /** No leading zero, but for zero itself. */
  predicate Canonical(s: string, base: int) {
    s != "" && Digits(s, base) && (s[0] == '0' ==> |s| == 1)
  }

  lemma Smaller(n: nat, base: int)
    requires IsBase(base) && n >= base
    ensures 0 < Quot(n, base) < n
  {
  }

  lemma {:induction false} FirstDigit(n: nat, base: int)
    requires IsBase(base) && n > 0
    ensures Numeral(n, base)[0] != '0'
    decreases n
  {
    if n >= base {
      Smaller(n, base);
      FirstDigit(Quot(n, base), base);
    }
  }

  lemma NumeralCanonical(n: nat, base: int)
    requires IsBase(base)
    ensures Canonical(Numeral(n, base), base)
  {
    NumeralValue(n, base);
    if n > 0 {
      FirstDigit(n, base);
    }
  }

  lemma ValueSnoc(s: string, ch: char, base: int)
    requires IsBase(base) && Digits(s, base) && IsDigit(ch, base)
    ensures Digits(s + [ch], base) && Value(s + [ch], base) == Times(Value(s, base), base) + DigitValue(ch)
  {
    assert (s + [ch])[..|s|] == s;
  }

  lemma NumeralSnoc(q: nat, d: nat, base: int)
    requires IsBase(base) && d < base && q > 0
    ensures Numeral(Times(q, base) + d, base) == Numeral(q, base) + [Digit(d)]
  {
    var n := Times(q, base) + d;
    assert n >= base && Quot(n, base) == q && Rem(n, base) == d;
  }

  lemma OneDigitUnique(ch: char, base: int)
    requires IsBase(base) && IsDigit(ch, base)
    ensures Digits([ch], base) && Numeral(Value([ch], base), base) == [ch] && (ch != '0' ==> Value([ch], base) > 0)
  {
    CharRoundTrip(ch, base);
    assert [ch][..0] == "" && Value("", base) == 0;
  }

  lemma OneMoreUnique(s: string, ch: char, base: int)
    requires IsBase(base) && Digits(s, base) && IsDigit(ch, base)
    requires Value(s, base) > 0 && Numeral(Value(s, base), base) == s
    ensures Digits(s + [ch], base) && Value(s + [ch], base) > 0 && Numeral(Value(s + [ch], base), base) == s + [ch]
  {
    CharRoundTrip(ch, base);
    ValueSnoc(s, ch, base);
    NumeralSnoc(Value(s, base), DigitValue(ch), base);
  }

  /** There is one canonical numeral for each value. */
  lemma {:induction false} CanonicalUnique(s: string, base: int)
    requires IsBase(base) && Canonical(s, base)
    ensures Numeral(Value(s, base), base) == s && (s[0] != '0' ==> Value(s, base) > 0)
    decreases |s|
  {
    var init, last := s[..|s| - 1], s[|s| - 1];
    assert s == init + [last];
    if init == "" {
      assert s == [last];
      OneDigitUnique(last, base);
    } else {
      CanonicalUnique(init, base);
      OneMoreUnique(init, last, base);
    }
  }

  /** Printed and read back: the decimal text of every integer determines it. */
  lemma DecimalRoundTrip(v: int)
    ensures var s := Decimal(v);
            && s != ""
            && (v >= 0 ==> Canonical(s, 10) && Value(s, 10) == v)
            && (v < 0 ==> s[0] == '-' && Canonical(s[1..], 10) && s[1] != '0' && Value(s[1..], 10) == -v)
  {
    var n := if v < 0 then -v else v;
    NumeralCanonical(n, 10);
    NumeralValue(n, 10);
    if v < 0 {
      FirstDigit(n, 10);
      assert Decimal(v)[1..] == Numeral(n, 10);
    }
  }

  function Pow(base: int, k: nat): nat
    requires IsBase(base)
  {
    if k == 0 then 1 else base * Pow(base, k - 1)
  }

  lemma {:induction false} NumeralLength(n: nat, base: int, k: nat)
    requires IsBase(base) && k > 0 && n < Pow(base, k)
    ensures |Numeral(n, base)| <= k
    decreases k
  {
    if n >= base {
      assert Pow(base, 1) == base;
      assert Quot(n, base) < Pow(base, k - 1);
      NumeralLength(Quot(n, base), base, k - 1);
    }
  }

  predicate Is64Bit(v: int) {
    -0x8000_0000_0000_0000 <= v < 0x1_0000_0000_0000_0000
  }

  lemma Powers()
    ensures Pow(10, 19) == 10_000_000_000_000_000_000 && Pow(10, 20) == 100_000_000_000_000_000_000
    ensures Pow(16, 16) == 0x1_0000_0000_0000_0000
  {
    assert Pow(10, 5) == 100_000;
    assert Pow(10, 10) == 10_000_000_000;
    assert Pow(10, 15) == 1_000_000_000_000_000;
    assert Pow(16, 6) == 0x100_0000;
    assert Pow(16, 11) == 0x1000_0000_0000;
  }

  /** At most 20 characters for any signed or unsigned 64-bit value. */
  lemma DecimalLength(v: int)
    requires Is64Bit(v)
    ensures |Decimal(v)| <= 20
  {
    Powers();
    if v < 0 {
      NumeralLength(-v, 10, 19);
    } else {
      NumeralLength(v, 10, 20);
    }
  }

  lemma HexLength(v: nat)
    requires Is64Bit(v)
    ensures |Numeral(v, 16)| <= 16
  {
    Powers();
    NumeralLength(v, 16, 16);
  }

  // ----- the digit loop -----

  /** The digits, least significant first, as the loop produces them. */
  function Backward(n: nat, base: int): string
    requires IsBase(base)
  {
    [Digit(Rem(n, base))] + (if n < base then "" else Backward(Quot(n, base), base))
  }

  function Reversed(s: string): (r: string)
    ensures |r| == |s|
  {
    seq(|s|, i requires 0 <= i < |s| => s[|s| - 1 - i])
  }

  lemma {:induction false} BackwardReversed(n: nat, base: int)
    requires IsBase(base)
    ensures Reversed(Backward(n, base)) == Numeral(n, base)
    decreases n
  {
    if n < base {
      assert Backward(n, base) == [Digit(n)];
    } else {
      BackwardReversed(Quot(n, base), base);
      assert Backward(n, base) == [Digit(Rem(n, base))] + Backward(Quot(n, base), base);
      ReversedCons(Digit(Rem(n, base)), Backward(Quot(n, base), base));
    }
  }

  lemma ReversedCons(ch: char, s: string)
    ensures Reversed([ch] + s) == Reversed(s) + [ch]
  {
  }

  lemma ReversedSnoc(s: string, ch: char)
    ensures Reversed(s + [ch]) == [ch] + Reversed(s)
  {
  }

  /** s with text written over it, from at on. */
  function Laid(s: string, at: nat, text: string): string
    requires at + |text| <= |s|
  {
    s[..at] + text + s[at + |text|..]
  }

  lemma LaidFront(s: string, at: nat, text: string)
    requires at + |text| < |s|
    ensures Laid(s, at, text + ['\0'])[..at + |text|] == s[..at] + text
  {
  }

  lemma LaidPut(s: string, at: nat, text: string, ch: char)
    requires at + |text| < |s|
    ensures Laid(s, at, text)[at + |text| := ch] == Laid(s, at, text + [ch])
  {
  }

  /** after is before with its part lo .. hi mirrored. */
  predicate Mirrored(before: string, after: string, lo: nat, hi: nat)
    requires lo <= hi <= |before| == |after|
  {
    && after[..lo] == before[..lo] && after[hi..] == before[hi..]
    && forall k :: lo <= k < hi ==> after[k] == before[lo + hi - 1 - k]
  }

  lemma MirroredIsLaid(before: string, after: string, lo: nat, hi: nat)
    requires lo <= hi <= |before| == |after| && Mirrored(before, after, lo, hi)
    ensures after == Laid(before, lo, Reversed(before[lo..hi]))
  {
    assert after[lo..hi] == Reversed(before[lo..hi]);
    assert after == after[..lo] + after[lo..hi] + after[hi..];
  }

  /** std::reverse of a[lo..hi]. */
  method Reverse(a: array<char>, lo: nat, hi: nat)
    requires lo <= hi <= a.Length
    modifies a
    ensures a[..] == Laid(old(a[..]), lo, Reversed(old(a[lo..hi])))
  {
    ghost var before := a[..];
    var i, j := lo, hi;
    while i + 1 < j
      invariant lo <= i <= j + 1 <= hi + 1 && i - lo == hi - j
      invariant a[..lo] == before[..lo] && a[hi..] == before[hi..]
      invariant forall k :: lo <= k < i ==> a[k] == before[lo + hi - 1 - k]
      invariant forall k :: j <= k < hi ==> a[k] == before[lo + hi - 1 - k]
      invariant forall k :: i <= k < j ==> a[k] == before[k]
    {
      j := j - 1;
      a[i], a[j] := a[j], a[i];
      i := i + 1;
    }
    assert before[lo..hi] == old(a[lo..hi]);
    MirroredIsLaid(before, a[..], lo, hi);
  }

  // ----- convert -----

  /** What the loop has yet to write. */
  function ToCome(n: nat, base: int): string
    requires IsBase(base)
  {
    if n == 0 then "" else Backward(n, base)
  }

  lemma BackwardStep(n: nat, base: int)
    requires IsBase(base)
    ensures Backward(n, base) == [Digit(Rem(n, base))] + ToCome(Quot(n, base), base)
  {
  }

  /** Division that truncates takes the same digits off a negative number, with the
      sign: the table reads them from zero to the left. */
  lemma LastDigit(i: int)
    ensures var lsd := TruncMod(i, 10); var n := if i < 0 then -i else i;
            && -10 < lsd < 10 && DIGITS[9 + lsd] == Digit(n % 10)
            && (if TruncDiv(i, 10) < 0 then -TruncDiv(i, 10) else TruncDiv(i, 10)) == n / 10
            && (i >= 0 ==> TruncDiv(i, 10) >= 0) && (i <= 0 ==> TruncDiv(i, 10) <= 0)
  {
    Truncates(i, 10);
  }

  function Abs(i: int): nat {
    if i < 0 then -i else i
  }

  /** lsd, i /= base, and the character for lsd; in base 16 from digitsHex. */
  method TakeDigit(i: int, base: int) returns (ch: char, rest: int)
    requires IsBase(base) && (base == 16 ==> i >= 0)
    ensures Backward(Abs(i), base) == [ch] + ToCome(Abs(rest), base)
    ensures (rest == 0 || Abs(rest) < Abs(i)) && (base == 16 ==> rest >= 0)
  {
    BackwardStep(Abs(i), base);
    if base == 10 {
      LastDigit(i);
      var lsd := TruncMod(i, 10);
      rest := TruncDiv(i, 10);
      ch := DIGITS[9 + lsd];
    } else {
      var lsd := i % 16;
      rest := i / 16;
      ch := DIGITS_HEX[lsd];
    }
  }

  /** The first n characters of all are written, and the others are the digits of i. */
  ghost predicate Written(now: string, before: string, at: nat, all: string, n: nat, i: int, base: int)
    requires IsBase(base)
  {
    && n <= |all| && at + |all| <= |before|
    && now == Laid(before, at, all[..n]) && all[n..] == ToCome(Abs(i), base)
  }

  lemma WrittenNext(now: string, before: string, at: nat, all: string, n: nat, ch: char, rest: int, base: int)
    requires IsBase(base) && n < |all| && at + |all| <= |before| && now == Laid(before, at, all[..n])
    requires all[n..] == [ch] + ToCome(Abs(rest), base)
    ensures |now| == |before| && Written(now[at + n := ch], before, at, all, n + 1, rest, base)
  {
    LaidPut(before, at, all[..n], ch);
    assert all[n] == all[n..][0] == ch && all[..n + 1] == all[..n] + [ch];
    assert all[n + 1..] == all[n..][1..] == ToCome(Abs(rest), base);
  }

  /** One turn of the do-while loop of convert and convertHex. */
  method PutDigit(buf: array<char>, p: nat, i: int, base: int, ghost before: string, ghost at: nat, ghost all: string)
    returns (rest: int)
    requires IsBase(base) && (base == 16 ==> i >= 0) && at <= p < at + |all| <= |before|
    requires buf[..] == Laid(before, at, all[..p - at]) && all[p - at..] == Backward(Abs(i), base)
    modifies buf
    ensures Written(buf[..], before, at, all, p + 1 - at, rest, base)
    ensures (rest == 0 || Abs(rest) < Abs(i)) && (base == 16 ==> rest >= 0)
  {
    var digit, left := TakeDigit(i, base);
    WrittenNext(buf[..], before, at, all, p - at, digit, left, base);
    buf[p] := digit;
    rest := left;
  }

  lemma MoreToWrite(now: string, before: string, at: nat, all: string, n: nat, i: int, base: int)
    requires IsBase(base) && Written(now, before, at, all, n, i, base)
    ensures i != 0 ==> n < |all| && all[n..] == Backward(Abs(i), base)
    ensures i == 0 ==> n == |all| && now == Laid(before, at, all)
  {
    if i == 0 {
      assert n == |all| && all[..n] == all;
    }
  }

  /** The do-while loop: the digits of value, last one first. */
  method WriteDigits(buf: array<char>, at: nat, value: int, base: int, ghost all: string) returns (p: nat)
    requires IsBase(base) && (base == 16 ==> value >= 0)
    requires all == Backward(Abs(value), base) && at + |all| <= buf.Length
    modifies buf
    ensures p == at + |all| && buf[..] == Laid(old(buf[..]), at, all)
  {
    ghost var before := buf[..];
    assert all[..0] == "" && all[0..] == all && Laid(before, at, "") == before;
    var i := PutDigit(buf, at, value, base, before, at, all);
    p := at + 1;
    while i != 0
      invariant base == 16 ==> i >= 0
      invariant at <= p && Written(buf[..], before, at, all, p - at, i, base)
      decreases Abs(i)
    {
      MoreToWrite(buf[..], before, at, all, p - at, i, base);
      i := PutDigit(buf, p, i, base, before, at, all);
      p := p + 1;
    }
    MoreToWrite(buf[..], before, at, all, p - at, i, base);
  }

  lemma FinishedText(before: string, at: nat, text: string)
    requires at + |text| < |before|
    ensures var now := Laid(before, at, text + ['\0']);
            now[at..at + |text|] == text &&
            Laid(now, at, Reversed(text)) == Laid(before, at, Reversed(text) + ['\0'])
  {
  }

  /** The terminator, and std::reverse. */
  method Finish(buf: array<char>, at: nat, p: nat, ghost before: string, ghost text: string)
    requires p == at + |text| && p < |before| == buf.Length && buf[..] == Laid(before, at, text)
    modifies buf
    ensures buf[..] == Laid(before, at, Reversed(text) + ['\0'])
  {
    LaidPut(before, at, text, '\0');
    buf[p] := '\0';
    FinishedText(before, at, text);
    assert buf[at..p] == buf[..][at..p];
    Reverse(buf, at, p);
  }

  /** convert: the decimal text and its terminator, and nothing else touched. */
  method Convert(buf: array<char>, at: nat, value: int) returns (len: nat)
    requires at + |Decimal(value)| + 1 <= buf.Length
    modifies buf
    ensures len == |Decimal(value)| && buf[..] == Laid(old(buf[..]), at, Decimal(value) + ['\0'])
  {
    ghost var before, text := buf[..], Backward(Abs(value), 10);
    BackwardText(value, text);
    var p := WriteDigits(buf, at, value, 10, text);
    if value < 0 {
      LaidPut(before, at, text, '-');
      buf[p] := '-';
      p := p + 1;
      text := text + "-";
    }
    Finish(buf, at, p, before, text);
    len := p - at;
  }

  method ConvertHex(buf: array<char>, at: nat, value: nat) returns (len: nat)
    requires at + |Numeral(value, 16)| + 1 <= buf.Length
    modifies buf
    ensures len == |Numeral(value, 16)| && buf[..] == Laid(old(buf[..]), at, Numeral(value, 16) + ['\0'])
  {
    ghost var before, text := buf[..], Backward(value, 16);
    BackwardReversed(value, 16);
    var p := WriteDigits(buf, at, value, 16, text);
    Finish(buf, at, p, before, text);
    len := p - at;
  }

  /** What stands in the buffer before it is reversed. */
  lemma BackwardText(value: int, digits: string)
    requires digits == Backward(Abs(value), 10)
    ensures Reversed(if value < 0 then digits + "-" else digits) == Decimal(value)
    ensures |digits| + (if value < 0 then 1 else 0) == |Decimal(value)|
  {
    BackwardReversed(Abs(value), 10);
    if value < 0 {
      ReversedSnoc(digits, '-');
    }
  }

  // ----- the fixed buffer -----

  const MAX_NUMERIC_SIZE: nat := 32

  /** FixedBuffer<SIZE>, with the operators of LogStream that write integers into it. */
  class FixedBuffer {
    var data: array<char>
    var cur: nat

    ghost predicate Valid()
      reads this
    {
      cur <= data.Length
    }

    function Contents(): (s: string)
      requires Valid()
      reads this, data
    {
      data[..cur]
    }

    function Avail(): nat
      requires Valid()
      reads this
    {
      data.Length - cur
    }

    constructor (size: nat)
      ensures Valid() && fresh(data) && data.Length == size && Contents() == ""
    {
      data := new char[size](_ => '\0');
      cur := 0;
    }

    method Reset()
      requires Valid()
      modifies this`cur
      ensures Valid() && Contents() == ""
    {
      cur := 0;
    }

    /** All of it, with a byte to spare, or nothing. */
    method Append(s: string)
      requires Valid()
      modifies this`cur, data
      ensures Valid()
      ensures Contents() == old(Contents()) + if old(Avail()) > |s| then s else ""
    {
      if Avail() > |s| {
        ghost var before := Contents();
        for i := 0 to |s|
          invariant cur == old(cur) && data[..cur + i] == before + s[..i]
        {
          data[cur + i] := s[i];
          assert data[..cur + i + 1] == data[..cur + i] + [s[i]];
        }
        assert s[..|s|] == s;
        cur := cur + |s|;
      }
    }

    /** formatInteger: with room for 32 characters the number and its terminator fit. */
    method FormatInteger(v: int)
      requires Valid() && Is64Bit(v)
      modifies this`cur, data
      ensures Valid()
      ensures Contents() == old(Contents()) + if old(Avail()) >= MAX_NUMERIC_SIZE then Decimal(v) else ""
    {
      if Avail() >= MAX_NUMERIC_SIZE {
        DecimalLength(v);
        var len := Convert(data, cur, v);
        LaidFront(old(data[..]), cur, Decimal(v));
        cur := cur + len;
      }
    }

    /** A character written to current(). */
    method Put(ch: char)
      requires Valid() && Avail() > 0
      modifies this`cur, data
      ensures Valid() && cur == old(cur) + 1
      ensures data[..] == old(data[..])[old(cur) := ch]
      ensures Contents() == old(Contents()) + [ch]
    {
      data[cur] := ch;
      cur := cur + 1;
    }

    method PutHex(v: nat)
      requires Valid() && |Numeral(v, 16)| < Avail()
      modifies this`cur, data
      ensures Valid() && Contents() == old(Contents()) + Numeral(v, 16)
    {
      var len := ConvertHex(data, cur, v);
      LaidFront(old(data[..]), cur, Numeral(v, 16));
      cur := cur + len;
    }

    /** operator<< for a pointer. */
    method FormatPointer(v: nat)
      requires Valid() && Is64Bit(v)
      modifies this`cur, data
      ensures Valid()
      ensures Contents() == old(Contents()) + if old(Avail()) >= MAX_NUMERIC_SIZE then "0x" + Numeral(v, 16) else ""
    {
      if Avail() >= MAX_NUMERIC_SIZE {
        HexLength(v);
        Put('0');
        Put('x');
        PutHex(v);
      }
    }
  }
}
