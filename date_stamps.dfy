/**
 * Date stamps of emmaa/util.py: `make_date_str` renders a datetime as
 * `YYYY-MM-DD-HH-MM-SS`, and the stamp is parsed back when S3 keys are
 * compared (`get_date_from_str`, `strptime` with the same format). Only
 * stamp-shaped tokens are read: `strptime` would also take fields without
 * their leading zeros, which the model rejects.
 */
module DateStamps {
  import opened Wrappers
  import opened Strings

  /** A `datetime.datetime` without sub-second precision or time zone. */
  datatype DateTime = DateTime(year: nat, month: nat, day: nat, hour: nat, minute: nat, second: nat)

  predicate IsLeapYear(y: nat)
  {
    y % 4 == 0 && (y % 100 != 0 || y % 400 == 0)
  }

  function DaysInMonth(y: nat, m: nat): nat
  {
    if m == 2 then (if IsLeapYear(y) then 29 else 28)
    else if m == 4 || m == 6 || m == 9 || m == 11 then 30
    else 31
  }

  /** The values `datetime.datetime` accepts. */
  predicate Valid(d: DateTime)
  {
    1 <= d.year <= 9999 && 1 <= d.month <= 12 && 1 <= d.day <= DaysInMonth(d.year, d.month)
    && d.hour < 24 && d.minute < 60 && d.second < 60
  }

  function Fields(d: DateTime): seq<nat>
  {
    [d.year, d.month, d.day, d.hour, d.minute, d.second]
  }

  /** Lexicographic order on sequences of numbers of the same length. */
  predicate SeqLess(x: seq<nat>, y: seq<nat>)
  {
    |x| > 0 && |y| > 0 && (x[0] < y[0] || (x[0] == y[0] && SeqLess(x[1..], y[1..])))
  }

  /** `a < b` on datetimes: earlier in time. */
  predicate Before(a: DateTime, b: DateTime)
  {
    SeqLess(Fields(a), Fields(b))
  }

  lemma {:induction false} SeqLessTrichotomy(x: seq<nat>, y: seq<nat>)
    requires |x| == |y|
    ensures x == y || SeqLess(x, y) || SeqLess(y, x)
    ensures !(SeqLess(x, y) && SeqLess(y, x))
    ensures !SeqLess(x, x)
  {
    if |x| > 0 {
      SeqLessTrichotomy(x[1..], y[1..]);
      if x[0] == y[0] && x[1..] == y[1..] {
        assert x == [x[0]] + x[1..] && y == [y[0]] + y[1..];
      }
    }
  }

  lemma {:induction false} SeqLessTransitive(x: seq<nat>, y: seq<nat>, z: seq<nat>)
    requires SeqLess(x, y) && SeqLess(y, z)
    ensures SeqLess(x, z)
  {
    if x[0] == y[0] && y[0] == z[0] {
      SeqLessTransitive(x[1..], y[1..], z[1..]);
    }
  }

  /** `Before` is a strict total order on datetimes. */
  lemma BeforeIsTotalOrder(a: DateTime, b: DateTime, c: DateTime)
    ensures !Before(a, a)
    ensures a == b || Before(a, b) || Before(b, a)
    ensures !(Before(a, b) && Before(b, a))
    ensures Before(a, b) && Before(b, c) ==> Before(a, c)
  {
    SeqLessTrichotomy(Fields(a), Fields(a));
    SeqLessTrichotomy(Fields(a), Fields(b));
    if Before(a, b) && Before(b, c) { SeqLessTransitive(Fields(a), Fields(b), Fields(c)); }
  }

  /** The order facts of `BeforeIsTotalOrder`, for all datetimes at once. */
  lemma BeforeOrder()
    ensures forall a :: !Before(a, a)
    ensures forall a, b :: a == b || Before(a, b) || Before(b, a)
    ensures forall a, b, c :: Before(a, b) && Before(b, c) ==> Before(a, c)
  {
    forall a, b, c ensures !Before(a, a) && (a == b || Before(a, b) || Before(b, a))
      && (Before(a, b) && Before(b, c) ==> Before(a, c))
    {
      BeforeIsTotalOrder(a, b, c);
    }
  }

  // ---------------------------------------------------------------------
  // Rendering
  // ---------------------------------------------------------------------

  /** One `-%d`-style field after the year: a dash and two zero-padded digits. */
  function DashField(n: nat): string
  {
    "-" + Digits(n, 2)
  }

  /**
   * `date.strftime('%Y-%m-%d-%H-%M-%S')`. The C library renders `%Y` without
   * padding, every other field as two zero-padded digits.
   */
  function Stamp(d: DateTime): string
    requires Valid(d)
  {
    Decimal(d.year) + DashField(d.month) + DashField(d.day)
    + DashField(d.hour) + DashField(d.minute) + DashField(d.second)
  }

  // ---------------------------------------------------------------------
  // Parsing (`get_date_from_str`)
  // ---------------------------------------------------------------------

  predicate AllDigits(s: string)
  {
    forall i :: 0 <= i < |s| ==> IsDigit(s[i])
  }

  /** Zero or more `-DD` fields. */
  predicate IsTail(s: string)
    decreases |s|
  {
    |s| == 0 || (|s| >= 3 && s[0] == '-' && IsDigit(s[1]) && IsDigit(s[2]) && IsTail(s[3..]))
  }

  function TailFields(s: string): (r: seq<nat>)
    requires IsTail(s)
    ensures |r| == |s| / 3
    decreases |s|
  {
    if |s| == 0 then [] else [DigitsValue(s[1..3])] + TailFields(s[3..])
  }

  /** A well-formed stamp: four year digits, then five `-DD` fields. */
  predicate IsStampShape(s: string)
  {
    |s| == 19 && AllDigits(s[..4]) && IsTail(s[4..])
  }

  function TokenFields(s: string): (r: seq<nat>)
    requires IsStampShape(s)
    ensures |r| == 6
  {
    [DigitsValue(s[..4])] + TailFields(s[4..])
  }

  /** `get_date_from_str`: the datetime a stamp denotes, or `None` for malformed text. */
  function ParseStamp(s: string): Option<DateTime>
  {
    if !IsStampShape(s) then None
    else
      var f := TokenFields(s);
      var d := DateTime(f[0], f[1], f[2], f[3], f[4], f[5]);
      if Valid(d) then Some(d) else None
  }

  /**
   * `make_date_str(date)`: the stamp of `date`, or of `utcNow` (the clock's
   * reading, `datetime.utcnow()`) when no date is given. For four-digit years
   * the text is 19 characters in the stamp shape and parses back to the date
   * it was made from.
   */
  function MakeDateStr(date: Option<DateTime>, utcNow: DateTime): (r: string)
    requires date.Some? ==> Valid(date.value)
    requires date.None? ==> Valid(utcNow)
    ensures var used := if date.Some? then date.value else utcNow;
      used.year >= 1000 ==> |r| == 19 && IsStampShape(r) && ParseStamp(r) == Some(used)
  {
    var used := if date.Some? then date.value else utcNow;
    StampRoundTripWhenFourDigits(used);
    Stamp(used)
  }

  // ---------------------------------------------------------------------
  // Properties of the format
  // ---------------------------------------------------------------------

  lemma {:induction false} DigitsOfValue(s: string)
    requires AllDigits(s)
    ensures DigitsValue(s) < Pow10(|s|)
    ensures Digits(DigitsValue(s), |s|) == s
    decreases |s|
  {
    if |s| > 0 {
      var init, last := s[..|s| - 1], s[|s| - 1];
      assert AllDigits(init);
      DigitsOfValue(init);
      var v := DigitsValue(s);
      assert v == 10 * DigitsValue(init) + DigitValue(last);
      assert v / 10 == DigitsValue(init) && v % 10 == DigitValue(last);
      assert DigitChar(DigitValue(last)) == last;
      assert Digits(v, |s|) == Digits(v / 10, |s| - 1) + [DigitChar(v % 10)];
      assert init + [last] == s;
    }
  }

  /** Two digit blocks of the same width compare as text exactly as their values do. */
  lemma BlockOrder(x: string, y: string)
    requires AllDigits(x) && AllDigits(y) && |x| == |y|
    ensures LexLess(x, y) <==> DigitsValue(x) < DigitsValue(y)
    ensures x == y <==> DigitsValue(x) == DigitsValue(y)
  {
    DigitsOfValue(x);
    DigitsOfValue(y);
    DigitsOrder(DigitsValue(x), DigitsValue(y), |x|);
  }

  lemma {:induction false} TailOrder(s: string, t: string)
    requires IsTail(s) && IsTail(t) && |s| == |t|
    ensures LexLess(s, t) <==> SeqLess(TailFields(s), TailFields(t))
    ensures s == t <==> TailFields(s) == TailFields(t)
    decreases |s|
  {
    if |s| > 0 {
      TailOrder(s[3..], t[3..]);
      BlockOrder(s[1..3], t[1..3]);
      assert s == s[..3] + s[3..] && t == t[..3] + t[3..];
      LexLessConcat(s[..3], s[3..], t[..3], t[3..]);
      assert s[..3] == ['-'] + s[1..3] && t[..3] == ['-'] + t[1..3];
      LexLessConcat(['-'], s[1..3], ['-'], t[1..3]);
      LexLessIrreflexive(['-']);
      var fs, ft := TailFields(s), TailFields(t);
      assert fs[1..] == TailFields(s[3..]) && ft[1..] == TailFields(t[3..]);
      if fs == ft {
        assert s[1..3] == t[1..3];
        assert s[3..] == t[3..];
      }
    }
  }

  /**
   * Comparing two well-formed stamps as text agrees with comparing the
   * fields they denote: the parser is order-preserving on its domain.
   */
  lemma TokenOrder(s: string, t: string)
    requires IsStampShape(s) && IsStampShape(t)
    ensures LexLess(s, t) <==> SeqLess(TokenFields(s), TokenFields(t))
    ensures s == t <==> TokenFields(s) == TokenFields(t)
  {
    BlockOrder(s[..4], t[..4]);
    TailOrder(s[4..], t[4..]);
    assert s == s[..4] + s[4..] && t == t[..4] + t[4..];
    LexLessConcat(s[..4], s[4..], t[..4], t[4..]);
    var fs, ft := TokenFields(s), TokenFields(t);
    assert fs[1..] == TailFields(s[4..]) && ft[1..] == TailFields(t[4..]);
    if fs == ft {
      assert s[..4] == t[..4];
    }
  }

  lemma DashFieldsTail(a: nat, b: nat, c: nat, d: nat, e: nat)
    requires a < 100 && b < 100 && c < 100 && d < 100 && e < 100
    ensures IsTail(DashField(a) + DashField(b) + DashField(c) + DashField(d) + DashField(e))
    ensures TailFields(DashField(a) + DashField(b) + DashField(c) + DashField(d) + DashField(e)) == [a, b, c, d, e]
  {
    DashFieldCons(a, "");
    assert DashField(a) + "" == DashField(a);
    DashFieldSnoc(DashField(a), b);
    DashFieldSnoc(DashField(a) + DashField(b), c);
    DashFieldSnoc(DashField(a) + DashField(b) + DashField(c), d);
    DashFieldSnoc(DashField(a) + DashField(b) + DashField(c) + DashField(d), e);
  }

  /** Well-formed fields followed by one more `-DD` field read back as their numbers followed by it. */
  lemma {:induction false} DashFieldSnoc(p: string, x: nat)
    requires x < 100 && IsTail(p)
    ensures IsTail(p + DashField(x))
    ensures TailFields(p + DashField(x)) == TailFields(p) + [x]
    decreases |p|
  {
    if |p| == 0 {
      assert p + DashField(x) == DashField(x) + "";
      DashFieldCons(x, "");
    } else {
      DashFieldSnoc(p[3..], x);
      var s := p + DashField(x);
      assert s[3..] == p[3..] + DashField(x);
      assert s[1..3] == p[1..3];
    }
  }

  /** One `-DD` field in front of well-formed fields reads back as its number followed by theirs. */
  lemma DashFieldCons(x: nat, rest: string)
    requires x < 100 && IsTail(rest)
    ensures IsTail(DashField(x) + rest)
    ensures TailFields(DashField(x) + rest) == [x] + TailFields(rest)
  {
    var s := DashField(x) + rest;
    DigitsValueOfDigits(x, 2);
    assert s[3..] == rest && s[1..3] == Digits(x, 2);
  }

  /** A stamp of a four-digit year is its zero-padded year followed by the dashed fields. */
  lemma StampPieces(d: DateTime)
    requires Valid(d) && d.year >= 1000
    ensures Stamp(d)[..4] == Digits(d.year, 4)
    ensures Stamp(d)[4..] == DashField(d.month) + DashField(d.day) + DashField(d.hour) + DashField(d.minute) + DashField(d.second)
  {
    DecimalIsDigits(d.year, 4);
    var tail := DashField(d.month) + DashField(d.day) + DashField(d.hour) + DashField(d.minute) + DashField(d.second);
    assert Stamp(d) == Digits(d.year, 4) + tail;
  }

  /** A stamp of a four-digit year is well formed and its fields are the datetime's. */
  lemma StampFields(d: DateTime)
    requires Valid(d) && d.year >= 1000
    ensures IsStampShape(Stamp(d))
    ensures TokenFields(Stamp(d)) == [d.year, d.month, d.day, d.hour, d.minute, d.second]
  {
    StampPieces(d);
    DigitsValueOfDigits(d.year, 4);
    DashFieldsTail(d.month, d.day, d.hour, d.minute, d.second);
    var s := Stamp(d);
    assert AllDigits(s[..4]);
    assert IsTail(s[4..]) && TailFields(s[4..]) == [d.month, d.day, d.hour, d.minute, d.second];
    assert |s| == |s[..4]| + |s[4..]|;
  }

  /** A stamp of a four-digit year is well formed and parses back to its datetime. */
  lemma StampRoundTrip(d: DateTime)
    requires Valid(d) && d.year >= 1000
    ensures IsStampShape(Stamp(d))
    ensures ParseStamp(Stamp(d)) == Some(d)
  {
    StampFields(d);
    var f := TokenFields(Stamp(d));
    assert DateTime(f[0], f[1], f[2], f[3], f[4], f[5]) == d;
  }

  lemma StampRoundTripWhenFourDigits(d: DateTime)
    requires Valid(d)
    ensures d.year >= 1000 ==> |Stamp(d)| == 19 && IsStampShape(Stamp(d)) && ParseStamp(Stamp(d)) == Some(d)
  {
    if d.year >= 1000 { StampRoundTrip(d); }
  }

  /** Different datetimes (with four-digit years) never share a stamp. */
  lemma StampInjective(a: DateTime, b: DateTime)
    requires Valid(a) && a.year >= 1000
    requires Valid(b) && b.year >= 1000
    ensures Stamp(a) == Stamp(b) <==> a == b
  {
    StampRoundTrip(a);
    StampRoundTrip(b);
  }

  /**
   * Because every field is fixed-width and zero-padded, comparing two stamps
   * as strings agrees with comparing the datetimes.
   */
  lemma StampOrder(a: DateTime, b: DateTime)
    requires Valid(a) && a.year >= 1000
    requires Valid(b) && b.year >= 1000
    ensures LexLess(Stamp(a), Stamp(b)) <==> Before(a, b)
  {
    StampRoundTrip(a);
    StampRoundTrip(b);
    ParseOrder(Stamp(a), Stamp(b));
  }

  /** Two well-formed tokens parse to datetimes in the same order as the tokens. */
  lemma ParseOrder(s: string, t: string)
    requires ParseStamp(s).Some? && ParseStamp(t).Some?
    ensures LexLess(s, t) <==> Before(ParseStamp(s).value, ParseStamp(t).value)
    ensures s == t <==> ParseStamp(s) == ParseStamp(t)
  {
    TokenOrder(s, t);
    var fs, ft := TokenFields(s), TokenFields(t);
    assert Fields(ParseStamp(s).value) == fs;
    assert Fields(ParseStamp(t).value) == ft;
  }
}
