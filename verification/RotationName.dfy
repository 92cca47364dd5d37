/** Names of rotated generations: "<prefix>-<timestamp><ext>" with an optional ".gz". */
module RotationName {
  import opened Options
  import opened Rotation

  /** A lumberjack backup time. */
  datatype Stamp = Stamp(year: nat, month: nat, day: nat, hour: nat, minute: nat, second: nat, milli: nat)

  predicate LeapYear(y: nat) {
    y % 4 == 0 && (y % 100 != 0 || y % 400 == 0)
  }

  function DaysIn(y: nat, m: nat): nat {
    if m in {4, 6, 9, 11} then 30 else if m == 2 then (if LeapYear(y) then 29 else 28) else 31
  }

  predicate Valid(t: Stamp) {
    && t.year < 10000 && 1 <= t.month <= 12 && 1 <= t.day <= DaysIn(t.year, t.month)
    && t.hour < 24 && t.minute < 60 && t.second < 60 && t.milli < 1000
  }

  /** Chronological order. */
  predicate Before(a: Stamp, b: Stamp) {
    a.year < b.year || (a.year == b.year &&
    (a.month < b.month || (a.month == b.month &&
    (a.day < b.day || (a.day == b.day &&
    (a.hour < b.hour || (a.hour == b.hour &&
    (a.minute < b.minute || (a.minute == b.minute &&
    (a.second < b.second || (a.second == b.second && a.milli < b.milli)))))))))))
  }

  /** All dates of the calendar with all times of the day, to the millisecond. */
  lemma {:induction false} ValidIs(t: Stamp)
    ensures Valid(t) <==>
      && t.year <= 9999 && 1 <= t.month <= 12 && t.hour <= 23 && t.minute <= 59 && t.second <= 59 && t.milli <= 999
      && 1 <= t.day <= 31 && (t.month in {4, 6, 9, 11} ==> t.day <= 30) && (t.month == 2 ==> t.day <= 29)
      && (t.month == 2 && t.day == 29 ==> t.year % 4 == 0 && (t.year % 100 == 0 ==> t.year % 400 == 0))
  {
  }

  // ---------------------------------------------------------------- decimals of fixed width

  function Pow10(w: nat): nat {
    if w == 0 then 1 else 10 * Pow10(w - 1)
  }

  function Digit(d: nat): (c: char)
    requires d < 10
  {
    ['0', '1', '2', '3', '4', '5', '6', '7', '8', '9'][d]
  }

  predicate IsDigit(c: char) {
    '0' <= c <= '9'
  }

  function DigitValue(c: char): (d: nat)
    requires IsDigit(c)
    ensures d < 10 && Digit(d) == c
  {
    c as int - '0' as int
  }

  function Dec(n: nat, w: nat): (s: string)
    ensures |s| == w
    ensures forall i :: 0 <= i < w ==> IsDigit(s[i])
  {
    if w == 0 then "" else Dec(n / 10, w - 1) + [Digit(n % 10)]
  }

  function Undec(s: string): (n: nat)
    requires forall i :: 0 <= i < |s| ==> IsDigit(s[i])
    ensures n < Pow10(|s|) && Dec(n, |s|) == s
  {
    if s == "" then 0 else
      var k := |s| - 1;
      var n := 10 * Undec(s[..k]) + DigitValue(s[k]);
      assert n / 10 == Undec(s[..k]) && n % 10 == DigitValue(s[k]);
      assert s == s[..k] + [s[k]];
      n
  }

  /** On equal widths, string order is lexicographic in the parts. */
  lemma {:induction false} LessConcat(a: string, b: string, c: string, d: string)
    requires |a| == |c|
    ensures Less(a + b, c + d) <==> Less(a, c) || (a == c && Less(b, d))
  {
    if a == "" {
      assert a + b == b && c + d == d;
    } else {
      assert (a + b)[1..] == a[1..] + b && (c + d)[1..] == c[1..] + d;
      assert a == [a[0]] + a[1..] && c == [c[0]] + c[1..];
      LessConcat(a[1..], b, c[1..], d);
    }
  }

  lemma {:induction false} DigitOrder(d: nat, e: nat)
    requires d < 10 && e < 10
    ensures Less([Digit(d)], [Digit(e)]) <==> d < e
    ensures Digit(d) == Digit(e) <==> d == e
  {
  }

  lemma {:induction false} DecOrder(m: nat, n: nat, w: nat)
    requires m < Pow10(w) && n < Pow10(w)
    ensures Less(Dec(m, w), Dec(n, w)) <==> m < n
    ensures Dec(m, w) == Dec(n, w) <==> m == n
  {
    LessIrreflexive("");
    hide Less, Digit;
    if w > 0 {
      DecOrder(m / 10, n / 10, w - 1);
      LessConcat(Dec(m / 10, w - 1), [Digit(m % 10)], Dec(n / 10, w - 1), [Digit(n % 10)]);
      assert Dec(m, w)[..w - 1] == Dec(m / 10, w - 1) && Dec(n, w)[..w - 1] == Dec(n / 10, w - 1);
      assert Dec(m, w)[w - 1] == Digit(m % 10) && Dec(n, w)[w - 1] == Digit(n % 10);
      DigitOrder(m % 10, n % 10);
    }
  }

  // ---------------------------------------------------------------- timestamps

  function Date(t: Stamp): (s: string)
    ensures |s| == 10
  {
    Dec(t.year, 4) + ("-" + (Dec(t.month, 2) + ("-" + Dec(t.day, 2))))
  }

  function Clock(t: Stamp): (s: string)
    ensures |s| == 12
  {
    Dec(t.hour, 2) + ("-" + (Dec(t.minute, 2) + ("-" + (Dec(t.second, 2) + ("." + Dec(t.milli, 3))))))
  }

  function Format(t: Stamp): (s: string)
    ensures |s| == 23
  {
    Date(t) + ("T" + Clock(t))
  }

  predicate HasShape(id: string) {
    && |id| == 23
    && id[4] == '-' && id[7] == '-' && id[10] == 'T' && id[13] == '-' && id[16] == '-' && id[19] == '.'
    && (forall i :: 0 <= i < 23 && i !in {4, 7, 10, 13, 16, 19} ==> IsDigit(id[i]))
  }

  function ParseStamp(id: string): Option<Stamp> {
    if !HasShape(id) then None else
      var t := Stamp(Undec(id[0..4]), Undec(id[5..7]), Undec(id[8..10]), Undec(id[11..13]),
                     Undec(id[14..16]), Undec(id[17..19]), Undec(id[20..23]));
      if Valid(t) then Some(t) else None
  }

  lemma {:induction false} DateParts(t: Stamp)
    ensures var s := Date(t);
      && s[0..4] == Dec(t.year, 4) && s[5..7] == Dec(t.month, 2) && s[8..10] == Dec(t.day, 2)
      && s[4] == '-' && s[7] == '-'
  {
    hide Dec;
  }

  lemma {:induction false} ClockParts(t: Stamp)
    ensures var s := Clock(t);
      && s[0..2] == Dec(t.hour, 2) && s[3..5] == Dec(t.minute, 2) && s[6..8] == Dec(t.second, 2)
      && s[9..12] == Dec(t.milli, 3) && s[2] == '-' && s[5] == '-' && s[8] == '.'
  {
    hide Dec;
  }

  lemma {:induction false} FormatParts(t: Stamp)
    ensures HasShape(Format(t))
    ensures Format(t)[..10] == Date(t) && Format(t)[10] == 'T' && Format(t)[11..] == Clock(t)
  {
    hide Dec, Date, Clock;
    DateParts(t);
    ClockParts(t);
    var s, d, c := Format(t), Date(t), Clock(t);
    assert forall i :: 0 <= i < 10 ==> s[i] == d[i];
    assert forall i :: 0 <= i < 12 ==> s[11 + i] == c[i];
    assert forall i :: 0 <= i < 4 ==> d[i] == d[0..4][i];
    assert forall i :: 0 <= i < 2 ==> d[5 + i] == d[5..7][i] && d[8 + i] == d[8..10][i];
    assert forall i :: 0 <= i < 2 ==> c[i] == c[0..2][i] && c[3 + i] == c[3..5][i] && c[6 + i] == c[6..8][i];
    assert forall i :: 0 <= i < 3 ==> c[9 + i] == c[9..12][i];
  }

  lemma {:induction false} UndecDec(n: nat, w: nat)
    requires n < Pow10(w)
    ensures Undec(Dec(n, w)) == n
  {
    hide Undec;
    DecOrder(Undec(Dec(n, w)), n, w);
  }

  lemma {:induction false} DecOne(n: nat, w: nat)
    ensures Dec(n, w + 1) == Dec(n / 10, w) + [Digit(n % 10)]
  {
  }

  lemma {:induction false} DecSmall(n: nat)
    requires n < 100
    ensures Dec(n, 2) == [Digit(n / 10), Digit(n % 10)]
  {
    hide Digit;
    DecOne(n, 1);
    DecOne(n / 10, 0);
    assert Dec(n / 10 / 10, 0) == [];
  }

  lemma {:induction false} DecYear()
    ensures Dec(2026, 4) == "2026" && Dec(0, 3) == "000"
  {
    hide Dec;
    DecOne(2026, 3);
    DecOne(202, 2);
    DecSmall(20);
    DecOne(0, 2);
    DecSmall(0);
  }

  /** The form of a timestamp, by example. */
  lemma {:induction false} FormatExample()
    ensures Format(Stamp(2026, 8, 7, 15, 4, 5, 0)) == "2026-08-07T15-04-05.000"
  {
    hide Dec;
    DecYear();
    DecSmall(8);
    DecSmall(7);
    DecSmall(15);
    DecSmall(4);
    DecSmall(5);
  }

  lemma {:induction false} ParseFormat(t: Stamp)
    requires Valid(t)
    ensures ParseStamp(Format(t)) == Some(t)
  {
    hide Dec, Undec, Date, Clock;
    var s, d, c := Format(t), Date(t), Clock(t);
    FormatParts(t);
    DateParts(t);
    ClockParts(t);
    assert s[0..4] == d[0..4] && s[5..7] == d[5..7] && s[8..10] == d[8..10];
    assert s[11..13] == c[0..2] && s[14..16] == c[3..5] && s[17..19] == c[6..8] && s[20..23] == c[9..12];
    assert Pow10(2) == 100 && Pow10(3) == 1000 && Pow10(4) == 10000;
    UndecDec(t.year, 4);
    UndecDec(t.month, 2);
    UndecDec(t.day, 2);
    UndecDec(t.hour, 2);
    UndecDec(t.minute, 2);
    UndecDec(t.second, 2);
    UndecDec(t.milli, 3);
  }

  lemma {:induction false} FormatParse(id: string)
    requires ParseStamp(id).Some?
    ensures Valid(ParseStamp(id).value) && Format(ParseStamp(id).value) == id
  {
    hide Dec, Undec;
    var t := ParseStamp(id).value;
    assert Date(t) == id[..10] by {
      assert id[..10] == id[0..4] + ("-" + (id[5..7] + ("-" + id[8..10])));
    }
    assert Clock(t) == id[11..] by {
      assert id[11..] == id[11..13] + ("-" + (id[14..16] + ("-" + (id[17..19] + ("." + id[20..23])))));
    }
    assert id == id[..10] + ("T" + id[11..]);
  }

  lemma {:induction false} FieldOrder(m: nat, n: nat, w: nat, sep: char, x: string, y: string)
    requires m < Pow10(w) && n < Pow10(w)
    ensures Less(Dec(m, w) + ([sep] + x), Dec(n, w) + ([sep] + y)) <==> m < n || (m == n && Less(x, y))
    ensures Dec(m, w) + ([sep] + x) == Dec(n, w) + ([sep] + y) <==> m == n && x == y
  {
    hide Dec, Less;
    LessConcat(Dec(m, w), [sep] + x, Dec(n, w), [sep] + y);
    assert Less([sep] + x, [sep] + y) <==> Less(x, y) by {
      LessSep(sep, x, y);
    }
    DecOrder(m, n, w);
    var a, b := Dec(m, w) + ([sep] + x), Dec(n, w) + ([sep] + y);
    assert a[..w] == Dec(m, w) && a[w + 1..] == x;
    assert b[..w] == Dec(n, w) && b[w + 1..] == y;
  }

  lemma {:induction false} LessSep(sep: char, x: string, y: string)
    ensures Less([sep] + x, [sep] + y) <==> Less(x, y)
  {
    assert ([sep] + x)[1..] == x && ([sep] + y)[1..] == y;
  }

  /** IDs sort as strings in chronological order. */
  lemma {:induction false} FormatOrder(a: Stamp, b: Stamp)
    requires Valid(a) && Valid(b)
    ensures Less(Format(a), Format(b)) <==> Before(a, b)
  {
    hide Dec, Less;
    assert Pow10(2) == 100 && Pow10(3) == 1000 && Pow10(4) == 10000;
    var sa, sb := Dec(a.second, 2) + ("." + Dec(a.milli, 3)), Dec(b.second, 2) + ("." + Dec(b.milli, 3));
    var ma, mb := Dec(a.minute, 2) + ("-" + sa), Dec(b.minute, 2) + ("-" + sb);
    DecOrder(a.milli, b.milli, 3);
    FieldOrder(a.second, b.second, 2, '.', Dec(a.milli, 3), Dec(b.milli, 3));
    FieldOrder(a.minute, b.minute, 2, '-', sa, sb);
    FieldOrder(a.hour, b.hour, 2, '-', ma, mb);
    var da, db := Dec(a.month, 2) + ("-" + Dec(a.day, 2)), Dec(b.month, 2) + ("-" + Dec(b.day, 2));
    DecOrder(a.day, b.day, 2);
    FieldOrder(a.month, b.month, 2, '-', Dec(a.day, 2), Dec(b.day, 2));
    FieldOrder(a.year, b.year, 4, '-', da, db);
    LessConcat(Date(a), "T" + Clock(a), Date(b), "T" + Clock(b));
    LessSep('T', Clock(a), Clock(b));
  }

  // ---------------------------------------------------------------- file names

  /** Position of the last dot, or the length when there is none. */
  function LastDot(s: string): (i: nat)
    ensures i <= |s|
    ensures i < |s| ==> s[i] == '.'
    ensures forall j :: i < j < |s| ==> s[j] != '.'
    ensures i == |s| ==> forall j :: 0 <= j < |s| ==> s[j] != '.'
  {
    if s == "" then 0
    else
      var k := |s| - 1;
      if s[k] == '.' then k
      else
        var i := LastDot(s[..k]);
        if i == k then |s| else i
  }

  function SplitActiveBase(base: string): (string, string) {
    (base[..LastDot(base)], base[LastDot(base)..])
  }

  predicate HasSuffix(s: string, suffix: string) {
    |suffix| <= |s| && s[|s| - |suffix|..] == suffix
  }

  function TrimSuffix(s: string, suffix: string): string {
    if HasSuffix(s, suffix) then s[..|s| - |suffix|] else s
  }

  const GZ := ".gz"

  function ParseRotationFilename(name: string, base: string): Option<RotatedFile> {
    var (prefix, ext) := SplitActiveBase(base);
    var head := prefix + "-";
    if !(head <= name) then None else
      var rest := name[|head|..];
      var compressed := HasSuffix(rest, GZ);
      var stem := TrimSuffix(rest, GZ);
      if !HasSuffix(stem, ext) then None else
        var id := TrimSuffix(stem, ext);
        if ParseStamp(id).None? then None else Some(RotatedFile(id, name, compressed))
  }

  /** The name lumberjack gives to the generation of time `t`. */
  function FileName(base: string, t: Stamp, compressed: bool): string {
    var (prefix, ext) := SplitActiveBase(base);
    prefix + "-" + (Format(t) + ext + (if compressed then GZ else ""))
  }

  lemma {:induction false} SuffixOfConcat(a: string, b: string)
    ensures HasSuffix(a + b, b) && TrimSuffix(a + b, b) == a
  {
  }

  /** An uncompressed name ends in ".gz" only when the extension of the log is ".gz". */
  lemma {:induction false} PlainIsNotGz(base: string, t: Stamp)
    ensures HasSuffix(Format(t) + SplitActiveBase(base).1, GZ) <==> SplitActiveBase(base).1 == GZ
  {
    hide Format, ParseStamp, LastDot;
    FormatParts(t);
    var ext := SplitActiveBase(base).1;
    var s, n := Format(t) + ext, |Format(t) + ext|;
    assert |ext| > 0 ==> ext[0] == '.' && forall i :: 0 < i < |ext| ==> ext[i] != '.';
    assert forall i :: 0 <= i < 23 ==> s[i] == Format(t)[i];
    assert forall i :: 0 <= i < |ext| ==> s[23 + i] == ext[i];
    if HasSuffix(s, GZ) {
      assert s[n - 3..][0] == '.' && s[n - 3..][1] == 'g' && s[n - 3..][2] == 'z';
      assert ext == GZ;
    }
  }

  /** Parsing undoes naming, except that an uncompressed generation of a log whose own
      extension is ".gz" is not recognised. */
  lemma {:induction false} RoundTrip(base: string, t: Stamp, compressed: bool)
    requires Valid(t)
    ensures ParseRotationFilename(FileName(base, t, compressed), base)
         == if compressed || SplitActiveBase(base).1 != GZ
            then Some(RotatedFile(Format(t), FileName(base, t, compressed), compressed))
            else None
  {
    hide Format, ParseStamp, LastDot;
    var (prefix, ext) := SplitActiveBase(base);
    var name, rest := FileName(base, t, compressed), Format(t) + ext + (if compressed then GZ else "");
    assert name[|prefix + "-"|..] == rest;
    ParseFormat(t);
    PlainIsNotGz(base, t);
    SuffixOfConcat(Format(t), ext);
    SuffixOfConcat(Format(t) + ext, GZ);
    if !compressed {
      assert rest == Format(t) + ext;
      if ext == GZ {
        FormatParts(t);
        assert Format(t)[20] != '.';
        assert !HasSuffix(Format(t), GZ);
      }
    }
  }

  /** Whatever is recognised is the name of a generation. */
  lemma {:induction false} OnlyGenerations(name: string, base: string)
    ensures match ParseRotationFilename(name, base)
      case None => true
      case Some(f) =>
        f.filename == name && exists t :: Valid(t) && Format(t) == f.id && name == FileName(base, t, f.compressed)
  {
    hide Format, ParseStamp, LastDot;
    var (prefix, ext) := SplitActiveBase(base);
    var parsed := ParseRotationFilename(name, base);
    if parsed.Some? {
      var f := parsed.value;
      FormatParse(f.id);
      var rest := name[|prefix + "-"|..];
      var stem := TrimSuffix(rest, GZ);
      assert stem == f.id + ext;
      assert rest == stem + (if f.compressed then GZ else "");
      assert name == prefix + "-" + rest;
      assert name == FileName(base, ParseStamp(f.id).value, f.compressed);
    }
  }

  /** Different generations, or forms of one, have different names. */
  lemma {:induction false} NamesDiffer(base: string, t: Stamp, c: bool, t': Stamp, c': bool)
    requires Valid(t) && Valid(t')
    requires FileName(base, t, c) == FileName(base, t', c')
    ensures t == t' && c == c'
  {
    hide Format, ParseStamp, LastDot;
    var (prefix, ext) := SplitActiveBase(base);
    var n := |prefix + "-"|;
    assert FileName(base, t, c)[n..n + |Format(t)|] == Format(t);
    assert FileName(base, t', c')[n..n + |Format(t')|] == Format(t');
    ParseFormat(t);
    ParseFormat(t');
  }

  lemma {:induction false} PrefixAt(a: string, b: string, i: nat)
    requires a <= b && i < |a|
    ensures a[i] == b[i]
  {
  }

  /** The active file itself is not taken for a generation. */
  lemma {:induction false} ActiveRejected(base: string)
    ensures ParseRotationFilename(base, base) == None
  {
    hide ParseStamp, LastDot;
    var (prefix, ext) := SplitActiveBase(base);
    assert |ext| > 0 ==> base[|prefix|] == '.';
    var head := prefix + "-";
    assert head[|prefix|] == '-';
    if head <= base {
      PrefixAt(head, base, |prefix|);
    }
  }
}
