/** The keys of the durable queue: "stream:offset", the offset zero-padded to 20 digits.
    A `char` stands for one byte of a key. */
module KeyCodec {
  import opened Lexicographic

  const TWO_TO_THE_64 := 0x1_0000_0000_0000_0000
  const MAX_UINT64: Uint64 := 0xFFFF_FFFF_FFFF_FFFF
  const OFFSET_DIGITS := 20

  type Uint64 = n: int | 0 <= n < 0x1_0000_0000_0000_0000

  datatype Option<+T> = None | Some(value: T)

  // ----- formatting ---------------------------------------------------------------------

  function Digit(d: int): char
    requires 0 <= d < 10
  {
    '0' + (d as char)
  }

  /** The last `width` decimal digits of `n`, zero-padded (the verb `%0<width>d` whenever
      `n` fits into the width). */
  function Padded(n: nat, width: nat): (s: string)
    ensures |s| == width
  {
    if width == 0 then "" else Padded(n / 10, width - 1) + [Digit(n % 10)]
  }

  function StreamPrefix(stream: string): string {
    stream + ":"
  }

  /** `formatKey`. */
  function FormatKey(stream: string, offset: Uint64): string {
    StreamPrefix(stream) + Padded(offset, OFFSET_DIGITS)
  }

  // ----- parsing ------------------------------------------------------------------------

  predicate IsDigit(c: char) {
    '0' <= c <= '9'
  }

  /** The longest leading run of digits, which is what the verb `%d` consumes. */
  function DigitRun(s: string): string {
    if s == "" || !IsDigit(s[0]) then "" else [s[0]] + DigitRun(s[1..])
  }

  function Value(digits: string): nat
    requires forall c :: c in digits ==> IsDigit(c)
  {
    if digits == "" then 0
    else
      var last := digits[|digits| - 1];
      assert last in digits && IsDigit(last);
      10 * Value(digits[..|digits| - 1]) + (last as int - '0' as int)
  }

  lemma DigitRunDigits(s: string)
    ensures forall c :: c in DigitRun(s) ==> IsDigit(c)
  {
  }

  /** The part of a key behind its first colon. */
  function AfterColon(key: string): Option<string> {
    if key == "" then None
    else if key[0] == ':' then Some(key[1..])
    else AfterColon(key[1..])
  }

  /** What `fmt.Sscanf(s, "%d", &offset)` reads into a `uint64`: the leading digits, an error
      when there are none or when their value needs more than 64 bits. */
  function ScanUint64(s: string): Option<Uint64> {
    var digits := DigitRun(s);
    DigitRunDigits(s);
    if digits == "" || Value(digits) >= TWO_TO_THE_64 then None else Some(Value(digits))
  }

  /** `parseOffsetFromKey`. */
  function ParseOffset(key: string): Option<Uint64> {
    match AfterColon(key)
    case None => None
    case Some(rest) => ScanUint64(rest)
  }

  // ----- what a key looks like ----------------------------------------------------------

  lemma {:induction false} PaddedTail(n: nat, width: nat)
    ensures Padded(n, width + 1)[1..] == Padded(n, width)
  {
    if width > 0 { PaddedTail(n / 10, width - 1); }
  }

  lemma {:induction false} PaddedZero(width: nat)
    ensures Padded(0, width) == seq(width, _ => '0')
  {
    if width > 0 { PaddedZero(width - 1); }
  }

  /** A key is the stream's name, a colon and 20 decimal digits: zeros for offset 0, and one
      decimal place more shifts the digits to the left. */
  lemma KeySpelled(stream: string, q: Uint64, d: nat)
    requires d < 10 && 10 * q + d <= MAX_UINT64
    ensures FormatKey(stream, 0) == stream + ":" + "00000000000000000000"
    ensures |FormatKey(stream, q)| == |stream| + 21
    ensures FormatKey(stream, 10 * q + d) == stream + ":" + FormatKey(stream, q)[|stream| + 2..] + ["0123456789"[d]]
  {
    PaddedZero(20);
    KeyTail(stream, q);
    MoreDigits(q, d);
  }

  lemma KeyTail(stream: string, q: Uint64)
    ensures FormatKey(stream, q)[|stream| + 2..] == Padded(q, 19)
  {
    PaddedTail(q, 19);
    assert FormatKey(stream, q)[|stream| + 2..] == Padded(q, 20)[1..];
  }

  lemma MoreDigits(q: nat, d: nat)
    requires d < 10
    ensures Padded(10 * q + d, 20) == Padded(q, 19) + ["0123456789"[d]]
  {
    assert "0123456789"[d] == Digit(d);
    assert (10 * q + d) / 10 == q && (10 * q + d) % 10 == d;
  }

  // ----- round trip ---------------------------------------------------------------------

  function Pow10(k: nat): nat {
    if k == 0 then 1 else 10 * Pow10(k - 1)
  }

  lemma {:induction false} PaddedDigits(n: nat, width: nat)
    ensures forall c :: c in Padded(n, width) ==> IsDigit(c)
  {
    if width > 0 { PaddedDigits(n / 10, width - 1); }
  }

  lemma {:induction false} PaddedValue(n: nat, width: nat)
    requires n < Pow10(width)
    ensures forall c :: c in Padded(n, width) ==> IsDigit(c)
    ensures Value(Padded(n, width)) == n
  {
    PaddedDigits(n, width);
    if width > 0 {
      PaddedValue(n / 10, width - 1);
      var s := Padded(n, width);
      assert s[..|s| - 1] == Padded(n / 10, width - 1);
    }
  }

  lemma {:induction false} DigitRunAll(s: string)
    requires forall c :: c in s ==> IsDigit(c)
    ensures DigitRun(s) == s
  {
    if s != "" {
      DigitRunAll(s[1..]);
      assert s == [s[0]] + s[1..];
    }
  }

  lemma {:induction false} AfterColonOfPrefix(stream: string, rest: string)
    requires ':' !in stream
    ensures AfterColon(StreamPrefix(stream) + rest) == Some(rest)
  {
    var key := StreamPrefix(stream) + rest;
    if stream == "" {
      assert key[1..] == rest;
    } else {
      assert key[0] == stream[0] && key[1..] == StreamPrefix(stream[1..]) + rest;
      AfterColonOfPrefix(stream[1..], rest);
    }
  }

  lemma Pow10Of20()
    ensures TWO_TO_THE_64 <= Pow10(OFFSET_DIGITS)
  {
    assert Pow10(5) == 100_000;
    assert Pow10(10) == 100_000 * 100_000;
    assert Pow10(15) == 100_000 * Pow10(10);
    assert Pow10(20) == 100_000 * Pow10(15);
  }

  lemma ParseInvertsFormat(stream: string, offset: Uint64)
    requires ':' !in stream
    ensures ParseOffset(FormatKey(stream, offset)) == Some(offset)
  {
    var digits := Padded(offset, OFFSET_DIGITS);
    Pow10Of20();
    PaddedValue(offset, OFFSET_DIGITS);
    DigitRunAll(digits);
    AfterColonOfPrefix(stream, digits);
  }

  lemma {:induction false} DigitRunIs(digits: string, rest: string)
    requires forall c :: c in digits ==> IsDigit(c)
    requires rest == "" || !IsDigit(rest[0])
    ensures DigitRun(digits + rest) == digits
  {
    if digits == "" {
      assert digits + rest == rest;
    } else {
      assert (digits + rest)[1..] == digits[1..] + rest && digits == [digits[0]] + digits[1..];
      DigitRunIs(digits[1..], rest);
    }
  }

  lemma {:induction false} NoColon(key: string)
    requires ':' !in key
    ensures AfterColon(key) == None
  {
    if key != "" { NoColon(key[1..]); }
  }

  /** What the parser makes of any key: the digits behind the first colon, whatever follows them,
      unless there are none or they do not fit into 64 bits. */
  lemma ParseSpelled(name: string, digits: string, rest: string)
    requires ':' !in name && forall c :: c in digits ==> '0' <= c <= '9'
    requires rest == "" || rest[0] < '0' || rest[0] > '9'
    ensures ParseOffset(name) == None
    ensures ParseOffset(name + ":" + digits + rest) ==
            if digits == "" || Value(digits) > 18446744073709551615 then None else Some(Value(digits))
  {
    NoColon(name);
    AfterColonOfPrefix(name, digits + rest);
    assert name + ":" + digits + rest == StreamPrefix(name) + (digits + rest);
    DigitRunIs(digits, rest);
  }

  /** Digits are read in base ten. */
  lemma ValueSpelled(digits: string, d: nat)
    requires d < 10 && forall c :: c in digits ==> '0' <= c <= '9'
    ensures Value("") == 0
    ensures var more := digits + ["0123456789"[d]];
            (forall c :: c in more ==> '0' <= c <= '9') && Value(more) == 10 * Value(digits) + d
  {
    var more := digits + ["0123456789"[d]];
    assert "0123456789"[d] == Digit(d) && more[..|more| - 1] == digits;
  }

  lemma {:induction false} DigitRunStopsAtColon(s: string, t: string)
    ensures DigitRun(s + ":" + t) == DigitRun(s + ":")
  {
    if s == "" {
      assert s + ":" + t == [':'] + t;
    } else {
      assert (s + ":" + t)[1..] == s[1..] + ":" + t && (s + ":")[1..] == s[1..] + ":";
      DigitRunStopsAtColon(s[1..], t);
    }
  }

  lemma {:induction false} AfterColonInside(stream: string, rest: string)
    requires ':' in stream
    ensures AfterColon(stream).Some?
    ensures AfterColon(stream + rest) == Some(AfterColon(stream).value + rest)
  {
    assert (stream + rest)[1..] == stream[1..] + rest;
    if stream[0] != ':' {
      assert stream == [stream[0]] + stream[1..];
      AfterColonInside(stream[1..], rest);
    }
  }

  /** A stream name that holds a colon hides the offset from the parser: every key of such a
      stream parses to the same result. */
  lemma ColonHidesOffset(stream: string, m: Uint64, n: Uint64)
    requires ':' in stream
    ensures ParseOffset(FormatKey(stream, m)) == ParseOffset(FormatKey(stream, n))
  {
    forall o: Uint64
      ensures AfterColon(stream).Some?
      ensures ParseOffset(FormatKey(stream, o)) == ScanUint64(AfterColon(stream).value + ":")
    {
      var digits := Padded(o, OFFSET_DIGITS);
      AfterColonInside(stream, ":" + digits);
      var tail := AfterColon(stream).value;
      assert FormatKey(stream, o) == stream + (":" + digits);
      assert tail + (":" + digits) == tail + ":" + digits;
      DigitRunStopsAtColon(tail, digits);
    }
  }

  /** Parsing inverts formatting for all offsets exactly for the colon-free stream names. */
  lemma RoundTripIffColonFree(stream: string)
    ensures (forall offset: Uint64 :: ParseOffset(FormatKey(stream, offset)) == Some(offset))
       <==> ':' !in stream
  {
    if ':' in stream {
      ColonHidesOffset(stream, 0, 1);
    } else {
      forall offset: Uint64 { ParseInvertsFormat(stream, offset); }
    }
  }

  // ----- order --------------------------------------------------------------------------

  lemma {:induction false} PaddedOrder(m: nat, n: nat, width: nat)
    requires m < Pow10(width) && n < Pow10(width)
    ensures Le(Padded(m, width), Padded(n, width)) <==> m <= n
  {
    if width > 0 {
      var a, b := Padded(m / 10, width - 1), Padded(n / 10, width - 1);
      LeSnoc(a, Digit(m % 10), b, Digit(n % 10));
      PaddedOrder(m / 10, n / 10, width - 1);
      if a == b {
        PaddedValue(m / 10, width - 1);
        PaddedValue(n / 10, width - 1);
      } else {
        assert m / 10 != n / 10;
      }
    }
  }

  /** The byte order of a stream's keys is the numeric order of its offsets. */
  lemma KeyOrderIsOffsetOrder(stream: string, m: Uint64, n: Uint64)
    ensures Le(FormatKey(stream, m), FormatKey(stream, n)) <==> m <= n
  {
    LeAfterPrefix(StreamPrefix(stream), Padded(m, OFFSET_DIGITS), Padded(n, OFFSET_DIGITS));
    Pow10Of20();
    PaddedOrder(m, n, OFFSET_DIGITS);
  }

  lemma FormatKeyInjective(stream: string, m: Uint64, n: Uint64)
    requires FormatKey(stream, m) == FormatKey(stream, n)
    ensures m == n
  {
    KeyOrderIsOffsetOrder(stream, m, n);
    KeyOrderIsOffsetOrder(stream, n, m);
    LeReflexive(FormatKey(stream, m));
  }

  /** No key of another colon-free stream carries this stream's prefix. */
  lemma PrefixSeparatesStreams(stream: string, other: string, offset: Uint64)
    requires ':' !in stream && ':' !in other
    ensures HasPrefix(FormatKey(other, offset), StreamPrefix(stream)) <==> stream == other
  {
    var key, p := FormatKey(other, offset), StreamPrefix(stream);
    if HasPrefix(key, p) {
      AfterColonOfPrefix(stream, key[|p|..]);
      AfterColonOfPrefix(other, Padded(offset, OFFSET_DIGITS));
      assert key == p + key[|p|..];
      assert |stream| == |other|;
      assert stream == key[..|stream|] == other by { assert key[..|p|][..|stream|] == stream; }
    } else {
      assert key[..|StreamPrefix(other)|] == StreamPrefix(other);
    }
  }
}
