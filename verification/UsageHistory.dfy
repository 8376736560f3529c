/**
 The daily usage history: how a day is written as a key, how a key is read back,
 and which days survive pruning.
 */
module UsageHistory {
  import opened Basics
  import opened Calendar

  const I64_MAX: nat := 0x7fff_ffff_ffff_ffff

  /** The last day a clock of whole seconds in a `u64` can name. */
  const LAST_DAY: nat := U64_MAX / 86_400

  function Digit(n: nat): char
    requires n < 10
  {
    '0' + n as char
  }

  predicate IsDigit(c: char) { '0' <= c <= '9' }

  function DigitValue(c: char): nat
    requires IsDigit(c)
  {
    (c - '0') as nat
  }

  /** `n` in decimal, with leading zeros up to `width` digits. */
  function Padded(n: nat, width: nat): string
    decreases n, width
  {
    if n < 10 && width <= 1 then [Digit(n)]
    else Padded(n / 10, if width > 0 then width - 1 else 0) + [Digit(n % 10)]
  }

  predicate AllDigits(s: string) {
    forall c <- s :: IsDigit(c)
  }

  function Value(s: string): nat
    requires AllDigits(s)
  {
    if s == [] then 0
    else
      assert forall c <- s[..|s| - 1] :: c in s;
      10 * Value(s[..|s| - 1]) + DigitValue(s[|s| - 1])
  }

  /** A decimal `i64` without a minus sign: an optional plus, then at least one digit, in range. */
  function ParseI64(s: string): Option<nat> {
    var digits := if s != [] && s[0] == '+' then s[1..] else s;
    if digits == [] || !AllDigits(digits) || Value(digits) > I64_MAX then None else Some(Value(digits))
  }

  /** The pieces of `s` between hyphens. */
  function Split(s: string): (fields: seq<string>)
    ensures fields != []
  {
    if s == [] then [[]]
    else if s[0] == '-' then [[]] + Split(s[1..])
    else
      var rest := Split(s[1..]);
      [[s[0]] + rest[0]] + rest[1..]
  }

  function FormatDay(d: Date): string
    requires 0 <= d.year && 0 <= d.month && 0 <= d.day
  {
    Padded(d.year, 4) + "-" + Padded(d.month, 2) + "-" + Padded(d.day, 2)
  }

  /** Signed 64-bit arithmetic without overflow checks. */
  function WrapI64(n: int): (r: int)
    ensures -0x8000_0000_0000_0000 <= n <= I64_MAX ==> r == n
  {
    (n + I64_MAX + 1) % (U64_MAX + 1) - I64_MAX - 1
  }

  /** Only the day number of a far-off year can leave 64 bits, and then wraps around. */
  function ParseDayNumber(key: string): Option<nat> {
    var fields := Split(key);
    if |fields| != 3 then None
    else
      var year, month, day := ParseI64(fields[0]), ParseI64(fields[1]), ParseI64(fields[2]);
      if year.None? || month.None? || day.None? || !(1 <= month.value <= 12) || !(1 <= day.value <= 31) then None
      else
        var number := WrapI64(DaysFromCivil(Date(year.value, month.value, day.value)));
        if number < 0 then None else Some(number)
  }

  /** The key under which day number `n` is filed. */
  function DayKey(n: nat): string {
    ClosedFormIsCalendar(n);
    YearsOn(n);
    FormatDay(CivilFromDays(n))
  }

  lemma {:induction false} YearsOn(n: nat)
    ensures 1970 <= DaysOn(n).year <= 1970 + n
  {
    if n > 0 {
      YearsOn(n - 1);
    }
  }

  lemma {:induction false} PaddedReads(n: nat, width: nat)
    ensures var s := Padded(n, width);
            s != [] && AllDigits(s) && Value(s) == n
    decreases n, width
  {
    var s := Padded(n, width);
    if n < 10 && width <= 1 {
      assert s[..0] == [];
    } else {
      PaddedReads(n / 10, if width > 0 then width - 1 else 0);
      assert s[..|s| - 1] == Padded(n / 10, if width > 0 then width - 1 else 0);
    }
  }

  lemma PaddedParses(n: nat, width: nat)
    requires n <= I64_MAX
    ensures ParseI64(Padded(n, width)) == Some(n) && '-' !in Padded(n, width)
  {
    PaddedReads(n, width);
    assert Padded(n, width)[0] in Padded(n, width);
  }

  lemma {:induction false} SplitAtHyphen(a: string, b: string)
    requires '-' !in a
    ensures Split(a + "-" + b) == [a] + Split(b)
  {
    var s := a + "-" + b;
    if a == [] {
      assert s[1..] == b;
    } else {
      SplitAtHyphen(a[1..], b);
      assert s[1..] == a[1..] + "-" + b;
      assert [a[0]] + a[1..] == a;
    }
  }

  lemma {:induction false} SplitWhole(a: string)
    requires '-' !in a
    ensures Split(a) == [a]
  {
    if a != [] {
      SplitWhole(a[1..]);
      assert [a[0]] + a[1..] == a;
    }
  }

  lemma FormattedSplits(d: Date)
    requires 0 <= d.year <= I64_MAX && 0 <= d.month <= I64_MAX && 0 <= d.day <= I64_MAX
    ensures Split(FormatDay(d)) == [Padded(d.year, 4), Padded(d.month, 2), Padded(d.day, 2)]
  {
    var y, m, t := Padded(d.year, 4), Padded(d.month, 2), Padded(d.day, 2);
    PaddedParses(d.year, 4);
    PaddedParses(d.month, 2);
    PaddedParses(d.day, 2);
    assert FormatDay(d) == y + "-" + (m + "-" + t);
    SplitAtHyphen(y, m + "-" + t);
    SplitAtHyphen(m, t);
    SplitWhole(t);
  }

  lemma FormattedParses(d: Date)
    requires 0 <= d.year <= I64_MAX && 1 <= d.month <= 12 && 1 <= d.day <= 31
    ensures var number := WrapI64(DaysFromCivil(d));
            ParseDayNumber(FormatDay(d)) == if number < 0 then None else Some(number)
  {
    FormattedSplits(d);
    PaddedParses(d.year, 4);
    PaddedParses(d.month, 2);
    PaddedParses(d.day, 2);
  }

  /** Reading a day's key gives the day number back. */
  lemma KeyRoundTrip(n: nat)
    requires n <= LAST_DAY
    ensures ParseDayNumber(DayKey(n)) == Some(n)
  {
    ClosedFormIsCalendar(n);
    YearsOn(n);
    FormattedParses(CivilFromDays(n));
  }

  /** Whether pruning on day `today` keeps this key. */
  predicate Keeps(key: string, today: nat, retention: nat) {
    var number := ParseDayNumber(key);
    number.Some? && number.value <= today && today - number.value < retention
  }

  /** A day's bucket survives exactly from its own day until `retention` days have begun. */
  lemma KeptExactlyWhile(n: nat, today: nat, retention: nat)
    requires n <= LAST_DAY
    ensures Keeps(DayKey(n), today, retention) <==> n <= today < n + retention
  {
    KeyRoundTrip(n);
  }

  class History<Totals> {
    const retentionDays: u16
    var days: map<string, Totals>
    var dirty: bool

    constructor (retentionDays: u16, days: map<string, Totals>)
      ensures this.retentionDays == retentionDays && this.days == days && !dirty
    {
      this.retentionDays := retentionDays;
      this.days := days;
      dirty := false;
    }

    /** Drops every bucket outside the retention window; only a drop makes the file dirty. */
    method Prune(today: nat)
      modifies this
      ensures days == map key | key in old(days) && Keeps(key, today, retentionDays) :: old(days)[key]
      ensures dirty == (old(dirty) || days != old(days))
    {
      var kept := Retain(days, today, retentionDays);
      SameSizeSameMap(kept, days);
      days, dirty := kept, dirty || |kept| != |days|;
    }

    static method Retain(days: map<string, Totals>, today: nat, retention: nat) returns (kept: map<string, Totals>)
      ensures kept == map key | key in days && Keeps(key, today, retention) :: days[key]
    {
      kept := days;
      var todo := days.Keys;
      while todo != {}
        invariant todo <= kept.Keys <= days.Keys
        invariant forall key <- days :: key in kept <==> key in todo || Keeps(key, today, retention)
        invariant forall key <- kept :: kept[key] == days[key]
        decreases |todo|
      {
        var key :| key in todo;
        if !Keeps(key, today, retention) {
          kept := kept - {key};
        }
        todo := todo - {key};
      }
    }
  }

  lemma SameSizeSameMap<K, V>(a: map<K, V>, b: map<K, V>)
    requires a.Keys <= b.Keys && forall k <- a :: a[k] == b[k]
    ensures |a| == |b| <==> a == b
  {
    SubsetSize(a.Keys, b.Keys);
    assert |a.Keys| == |a| && |b.Keys| == |b|;
  }
}
