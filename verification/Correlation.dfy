/**
 Correlation IDs: `p_io_st01_20260729_0001`.

 Identifiers are ASCII.  Building can be refused; what it does build can be taken apart again, so
 the mode, the date and the sequence number survive wherever the ID is copied.
 */
module Correlation {
  import opened Prelude

  const MAX_LENGTH := 25
  const RUNTIME_LIMIT := 3
  const STRATEGY_LIMIT := 4

  datatype Error = NegativeSequence | NotADate | NoToken | TooLong

  datatype Built = Id(id: string) | Refused(error: Error)

  datatype Parsed = Parsed(mode: Mode, runtime: string, strategy: string, date: string, sequence: nat)

  // ------------------------------------------------------------------ characters and tokens

  predicate IsDigit(c: char) { '0' <= c <= '9' }

  predicate IsTokenChar(c: char) { 'a' <= c <= 'z' || IsDigit(c) }

  predicate AllDigits(s: string) { forall i | 0 <= i < |s| :: IsDigit(s[i]) }

  predicate IsToken(s: string) { s != [] && forall i | 0 <= i < |s| :: IsTokenChar(s[i]) }

  function Lower(c: char): char {
    if 'A' <= c <= 'Z' then c - 'A' + 'a' else c
  }

  /** Lower-cased, with every other character dropped. */
  function Clean(s: string): (r: string)
    ensures forall i | 0 <= i < |r| :: IsTokenChar(r[i])
  {
    if s == [] then []
    else (if IsTokenChar(Lower(s[0])) then [Lower(s[0])] else []) + Clean(s[1..])
  }

  function Truncate(s: string, limit: nat): string {
    if |s| <= limit then s else s[..limit]
  }

  /** `_token`. */
  function Token(value: string, limit: nat): (t: Option<string>)
    requires limit > 0
    ensures t.Some? ==> IsToken(t.value) && |t.value| <= limit
  {
    if Clean(value) == [] then None else Some(Truncate(Clean(value), limit))
  }

  function WordLength(s: string): (n: nat)
    ensures n <= |s|
    ensures s != [] && IsTokenChar(Lower(s[0])) ==> n > 0
  {
    if s == [] || !IsTokenChar(Lower(s[0])) then 0 else 1 + WordLength(s[1..])
  }

  /** The runs of token characters. */
  function Words(s: string): (w: seq<string>)
    ensures forall i | 0 <= i < |w| :: IsToken(w[i])
    decreases |s|
  {
    if s == [] then []
    else if !IsTokenChar(Lower(s[0])) then Words(s[1..])
    else
      var n := WordLength(s);
      CleanWord(s);
      [Clean(s[..n])] + Words(s[n..])
  }

  lemma CleanWord(s: string)
    requires s != [] && IsTokenChar(Lower(s[0]))
    ensures WordLength(s) > 0 && Clean(s[..WordLength(s)]) != []
  {
    assert s[..WordLength(s)][0] == s[0];
  }

  function Heads(words: seq<string>): (h: string)
    requires forall i | 0 <= i < |words| :: IsToken(words[i])
    ensures |h| == |words| && forall i | 0 <= i < |h| :: IsTokenChar(h[i])
  {
    if words == [] then []
    else
      assert IsToken(words[0]);
      [words[0][0]] + Heads(words[1..])
  }

  /** `_initials`. */
  function Initials(value: string, limit: nat): (t: Option<string>)
    requires limit > 0
    ensures t.Some? ==> IsToken(t.value) && |t.value| <= limit
  {
    var words := Words(value);
    if words == [] then None
    else if |words| == 1 then Some(Truncate(words[0], limit))
    else Some(Truncate(Heads(words), limit))
  }

  /** By their ASCII codes: small letters and digits are token characters, a capital counts as its small letter. */
  lemma CharactersExactly(c: char)
    ensures IsTokenChar(c) <==> 97 <= c as int <= 122 || 48 <= c as int <= 57
    ensures Lower(c) as int == if 65 <= c as int <= 90 then c as int + 32 else c as int
  {
  }

  // ------------------------------------------------------------------ what the tokens are

  /** Some character survives the cleaning. */
  predicate HasTokenChar(s: string) {
    exists i :: 0 <= i < |s| && IsTokenChar(Lower(s[i]))
  }

  lemma {:induction false} CleanExactly(s: string)
    ensures Clean(s) != [] <==> HasTokenChar(s)
  {
    if s != [] {
      CleanExactly(s[1..]);
      if HasTokenChar(s[1..]) {
        var i :| 0 <= i < |s[1..]| && IsTokenChar(Lower(s[1..][i]));
        assert IsTokenChar(Lower(s[i + 1]));
      }
      if HasTokenChar(s) && !IsTokenChar(Lower(s[0])) {
        var i :| 0 <= i < |s| && IsTokenChar(Lower(s[i]));
        assert s[1..][i - 1] == s[i];
      }
    }
  }

  /** The prefix of `s` that fits the limit, and no shorter one. */
  ghost predicate IsCut(t: string, s: string, limit: nat) {
    t <= s && |t| == if |s| <= limit then |s| else limit
  }

  /** A strategy token fails only when nothing alphanumeric remains; otherwise it is the cleaned value, cut to the limit. */
  lemma TokenExactly(value: string, limit: nat)
    requires limit > 0
    ensures Token(value, limit).Some? <==> HasTokenChar(value)
    ensures Token(value, limit).Some? ==> IsCut(Token(value, limit).value, Clean(value), limit)
  {
    CleanExactly(value);
  }

  /** The characters that start a run of token characters, one by one; `inside` says whether a run is going on. */
  function Starts(s: string, inside: bool): string {
    if s == [] then []
    else
      var on := IsTokenChar(Lower(s[0]));
      (if on && !inside then [Lower(s[0])] else []) + Starts(s[1..], on)
  }

  lemma {:induction false} StartsAfterWord(s: string)
    ensures Starts(s, true) == Starts(s[WordLength(s)..], false)
  {
    if s != [] && IsTokenChar(Lower(s[0])) {
      StartsAfterWord(s[1..]);
      assert s[1..][WordLength(s[1..])..] == s[WordLength(s)..];
    }
  }

  lemma {:induction false} CleanSplits(s: string, n: nat)
    requires n <= |s|
    ensures Clean(s) == Clean(s[..n]) + Clean(s[n..])
  {
    if n == 0 {
      assert s[..0] == [] && s[0..] == s;
    } else {
      CleanSplits(s[1..], n - 1);
      assert s[1..][..n - 1] == s[..n][1..] && s[1..][n - 1..] == s[n..];
    }
  }

  lemma {:induction false} CleanIsTheWord(s: string)
    requires s != [] && IsTokenChar(Lower(s[0]))
    ensures Clean(s[..WordLength(s)]) != [] && Clean(s[..WordLength(s)])[0] == Lower(s[0])
  {
    assert s[..WordLength(s)][0] == s[0];
  }

  function Flat(words: seq<string>): string {
    if words == [] then [] else words[0] + Flat(words[1..])
  }

  /** The words are the cleaned value in pieces, and their heads are the characters that start a run. */
  lemma {:induction false} WordsExactly(s: string)
    ensures Flat(Words(s)) == Clean(s) && Heads(Words(s)) == Starts(s, false)
    decreases |s|
  {
    if s != [] {
      if IsTokenChar(Lower(s[0])) {
        var n := WordLength(s);
        CleanWord(s);
        CleanIsTheWord(s);
        WordsExactly(s[n..]);
        CleanSplits(s, n);
        StartsAfterWord(s[1..]);
        assert s[1..][WordLength(s[1..])..] == s[n..];
        assert Words(s)[1..] == Words(s[n..]);
      } else {
        WordsExactly(s[1..]);
      }
    }
  }

  /**
   A runtime token fails only when nothing alphanumeric remains; a single word is cut to the limit like
   a strategy's, several give the characters that start them.
   */
  lemma InitialsExactly(value: string, limit: nat)
    requires limit > 0
    ensures Initials(value, limit).Some? <==> HasTokenChar(value)
    ensures Initials(value, limit).Some? ==>
              IsCut(Initials(value, limit).value, if |Starts(value, false)| == 1 then Clean(value) else Starts(value, false), limit)
  {
    CleanExactly(value);
    WordsExactly(value);
    var words := Words(value);
    if |words| == 1 {
      assert words[1..] == [];
      assert Flat(words) == words[0];
    } else if words != [] {
      assert IsToken(words[0]);
    }
  }

  // ------------------------------------------------------------------ numbers and dates

  function Digit(d: nat): char
    requires d < 10
  {
    '0' + d as char
  }

  function Decimal(n: nat): (s: string)
    ensures s != [] && AllDigits(s)
  {
    if n < 10 then [Digit(n)] else Decimal(n / 10) + [Digit(n % 10)]
  }

  function Zeros(n: nat): (s: string)
    ensures |s| == n && AllDigits(s)
  {
    if n == 0 then [] else Zeros(n - 1) + ['0']
  }

  /** `{:04d}`. */
  function Padded(n: nat): (s: string)
    ensures AllDigits(s) && |s| >= 4
  {
    var d := Decimal(n);
    if |d| >= 4 then d else Zeros(4 - |d|) + d
  }

  function Value(s: string): nat
    requires AllDigits(s)
  {
    if s == [] then 0 else 10 * Value(s[..|s| - 1]) + (s[|s| - 1] - '0') as nat
  }

  lemma {:induction false} ValueOfDecimal(n: nat)
    ensures Value(Decimal(n)) == n
  {
    if n >= 10 {
      ValueOfDecimal(n / 10);
      assert Decimal(n)[..|Decimal(n)| - 1] == Decimal(n / 10);
    }
  }

  lemma {:induction false} LeadingZeros(k: nat, s: string)
    requires AllDigits(s)
    ensures Value(Zeros(k) + s) == Value(s)
  {
    if s != [] {
      assert (Zeros(k) + s)[..k + |s| - 1] == Zeros(k) + s[..|s| - 1];
      LeadingZeros(k, s[..|s| - 1]);
    } else if k > 0 {
      assert Zeros(k) + s == Zeros(k) && Zeros(k)[..k - 1] == Zeros(k - 1) + s;
      LeadingZeros(k - 1, s);
    }
  }

  lemma ValueOfPadded(n: nat)
    ensures Value(Padded(n)) == n
  {
    ValueOfDecimal(n);
    if |Decimal(n)| < 4 {
      LeadingZeros(4 - |Decimal(n)|, Decimal(n));
    }
  }

  function Pow10(k: nat): nat {
    if k == 0 then 1 else 10 * Pow10(k - 1)
  }

  lemma {:induction false} DecimalLength(n: nat, k: nat)
    requires k > 0
    ensures |Decimal(n)| <= k <==> n < Pow10(k)
  {
    if n >= 10 {
      if k > 1 {
        DecimalLength(n / 10, k - 1);
      }
    } else {
      PowAtLeastTen(k);
    }
  }

  lemma {:induction false} PowAtLeastTen(k: nat)
    requires k > 0
    ensures Pow10(k) >= 10
  {
    if k > 1 { PowAtLeastTen(k - 1); }
  }

  predicate IsLeap(year: nat) {
    year % 4 == 0 && (year % 100 != 0 || year % 400 == 0)
  }

  function DaysIn(year: nat, month: nat): nat {
    if month == 2 then (if IsLeap(year) then 29 else 28)
    else if month == 4 || month == 6 || month == 9 || month == 11 then 30
    else 31
  }

  /** Eight digits naming a real day. */
  predicate IsDate(s: string) {
    && |s| == 8 && AllDigits(s)
    && var year, month, day := Value(s[..4]), Value(s[4..6]), Value(s[6..]);
       year >= 1 && 1 <= month <= 12 && 1 <= day <= DaysIn(year, month)
  }

  function WithoutDashes(s: string): string {
    if s == [] then [] else (if s[0] == '-' then [] else [s[0]]) + WithoutDashes(s[1..])
  }

  /** How many of the years up to `n` are leap years. */
  function LeapYears(n: nat): nat {
    if n == 0 then 0 else LeapYears(n - 1) + if IsLeap(n) then 1 else 0
  }

  lemma NextMultiple(n: nat)
    requires n > 0
    ensures n / 4 == (n - 1) / 4 + if n % 4 == 0 then 1 else 0
    ensures n / 100 == (n - 1) / 100 + if n % 100 == 0 then 1 else 0
    ensures n / 400 == (n - 1) / 400 + if n % 400 == 0 then 1 else 0
    ensures n % 400 == 0 ==> n % 100 == 0
    ensures n % 100 == 0 ==> n % 4 == 0
  {
  }

  /** Every fourth year, but not the hundredth unless the four-hundredth. */
  lemma {:induction false} LeapYearsExactly(n: nat)
    ensures LeapYears(n) == n / 4 - n / 100 + n / 400
  {
    if n > 0 {
      LeapYearsExactly(n - 1);
      NextMultiple(n);
    }
  }

  function DaysThrough(year: nat, month: nat): nat {
    if month == 0 then 0 else DaysThrough(year, month - 1) + DaysIn(year, month)
  }

  /** A year's months end on its 31st, 59th, 90th... 365th day, one later from February on in a leap year. */
  lemma MonthsAddUp(year: nat)
    ensures var leap := if IsLeap(year) then 1 else 0;
            && DaysThrough(year, 1) == 31 && DaysThrough(year, 2) == 59 + leap && DaysThrough(year, 3) == 90 + leap
            && DaysThrough(year, 4) == 120 + leap && DaysThrough(year, 5) == 151 + leap && DaysThrough(year, 6) == 181 + leap
            && DaysThrough(year, 7) == 212 + leap && DaysThrough(year, 8) == 243 + leap && DaysThrough(year, 9) == 273 + leap
            && DaysThrough(year, 10) == 304 + leap && DaysThrough(year, 11) == 334 + leap && DaysThrough(year, 12) == 365 + leap
  {
    assert DaysThrough(year, 1) == DaysThrough(year, 0) + DaysIn(year, 1);
    assert DaysThrough(year, 4) == DaysThrough(year, 3) + DaysIn(year, 4);
    assert DaysThrough(year, 7) == DaysThrough(year, 6) + DaysIn(year, 7);
    assert DaysThrough(year, 10) == DaysThrough(year, 9) + DaysIn(year, 10);
  }

  lemma {:induction false} WithoutDashesSplits(s: string, n: nat)
    requires n <= |s|
    ensures WithoutDashes(s) == WithoutDashes(s[..n]) + WithoutDashes(s[n..])
  {
    if n == 0 {
      assert s[..0] == [] && s[0..] == s;
    } else {
      WithoutDashesSplits(s[1..], n - 1);
      assert s[1..][..n - 1] == s[..n][1..] && s[1..][n - 1..] == s[n..];
    }
  }

  lemma WithoutDashesOf(s: string, t: string)
    ensures WithoutDashes(s + t) == WithoutDashes(s) + WithoutDashes(t)
  {
    WithoutDashesSplits(s + t, |s|);
    assert (s + t)[..|s|] == s && (s + t)[|s|..] == t;
  }

  lemma {:induction false} DigitsStay(s: string)
    requires AllDigits(s)
    ensures WithoutDashes(s) == s
  {
    if s != [] {
      DigitsStay(s[1..]);
      assert [s[0]] + s[1..] == s;
    }
  }

  lemma DashFirst(s: string)
    ensures WithoutDashes("-" + s) == WithoutDashes(s)
  {
    assert ("-" + s)[1..] == s;
  }

  /** Both ways of writing a date give the compact one. */
  lemma DashedDate(year: string, month: string, day: string)
    requires AllDigits(year) && AllDigits(month) && AllDigits(day)
    ensures WithoutDashes(year + ("-" + (month + ("-" + day)))) == year + (month + day)
    ensures WithoutDashes(year + (month + day)) == year + (month + day)
  {
    DigitsStay(year);
    DigitsStay(month + day);
    DigitsStay(month);
    DigitsStay(day);
    WithoutDashesOf(year, month + day);
    WithoutDashesOf(year, "-" + (month + ("-" + day)));
    DashFirst(month + ("-" + day));
    WithoutDashesOf(month, "-" + day);
    DashFirst(day);
  }

  /** `n` in `width` digits. */
  function Digits(n: nat, width: nat): (s: string)
    ensures |s| == width && AllDigits(s)
  {
    if width == 0 then [] else Digits(n / 10, width - 1) + [Digit(n % 10)]
  }

  lemma {:induction false} ValueOfDigits(n: nat, width: nat)
    requires n < Pow10(width)
    ensures Value(Digits(n, width)) == n
  {
    if width > 0 {
      ValueOfDigits(n / 10, width - 1);
      assert Digits(n, width)[..width - 1] == Digits(n / 10, width - 1);
    }
  }

  /** Year, month and day, written compactly, are a date exactly when the month is one and has that many days. */
  lemma DatesExactly(year: nat, month: nat, day: nat)
    requires year < 10_000 && month < 100 && day < 100
    ensures IsDate(Digits(year, 4) + Digits(month, 2) + Digits(day, 2)) <==>
            year > 0 && 0 < month < 13 && DaysThrough(year, month - 1) < DaysThrough(year, month - 1) + day <= DaysThrough(year, month)
  {
    var s := Digits(year, 4) + Digits(month, 2) + Digits(day, 2);
    assert s[..4] == Digits(year, 4) && s[4..6] == Digits(month, 2) && s[6..] == Digits(day, 2);
    assert Pow10(1) == 10 && Pow10(2) == 100 && Pow10(3) == 1000 && Pow10(4) == 10_000;
    ValueOfDigits(year, 4);
    ValueOfDigits(month, 2);
    ValueOfDigits(day, 2);
    assert month > 0 ==> DaysThrough(year, month) == DaysThrough(year, month - 1) + DaysIn(year, month);
  }

  // ------------------------------------------------------------------ building and parsing

  function Namespace(mode: Mode): string {
    if mode == Paper then "p" else "l"
  }

  function Join(mode: Mode, runtime: string, strategy: string, date: string, sequence: nat): string {
    Namespace(mode) + "_" + (runtime + "_" + (strategy + "_" + (date + "_" + Padded(sequence))))
  }

  /** `build_correlation_id`. */
  function Build(mode: Mode, runtime: string, strategy: string, date: string, sequence: int): Built {
    if sequence < 0 then Refused(NegativeSequence)
    else if !IsDate(WithoutDashes(date)) then Refused(NotADate)
    else
      var r, s := Initials(runtime, RUNTIME_LIMIT), Token(strategy, STRATEGY_LIMIT);
      if r.None? || s.None? then Refused(NoToken)
      else
        var id := Join(mode, r.value, s.value, WithoutDashes(date), sequence);
        if |id| > MAX_LENGTH then Refused(TooLong) else Id(id)
  }

  /** The fields between underscores. */
  function Fields(s: string): (f: seq<string>)
    ensures f != []
  {
    if s == [] then [[]]
    else
      var rest := Fields(s[1..]);
      if s[0] == '_' then [[]] + rest else [[s[0]] + rest[0]] + rest[1..]
  }

  /** The pattern's `$` also matches before one final newline. */
  function WithoutNewline(s: string): string {
    if s != [] && s[|s| - 1] == '\n' then s[..|s| - 1] else s
  }

  /** `parse_correlation_id`; None when the pattern does not match. */
  function Parse(id: string): Option<Parsed> {
    var f := Fields(WithoutNewline(id));
    if |f| != 5 || (f[0] != "p" && f[0] != "l") || !IsToken(f[1]) || !IsToken(f[2])
       || |f[3]| != 8 || !AllDigits(f[3]) || |f[4]| < 4 || !AllDigits(f[4])
    then None
    else Some(Parsed(if f[0] == "p" then Paper else Live, f[1], f[2], f[3], Value(f[4])))
  }

  predicate NoUnderscore(s: string) {
    forall i | 0 <= i < |s| :: s[i] != '_'
  }

  lemma {:induction false} FirstField(a: string, rest: string)
    requires NoUnderscore(a)
    ensures Fields(a + "_" + rest) == [a] + Fields(rest)
  {
    if a == [] {
      assert a + "_" + rest == "_" + rest;
    } else {
      FirstField(a[1..], rest);
      assert (a + "_" + rest)[1..] == a[1..] + "_" + rest;
      assert [a[0]] + a[1..] == a;
    }
  }

  lemma {:induction false} LastField(a: string)
    requires NoUnderscore(a)
    ensures Fields(a) == [a]
  {
    if a != [] {
      LastField(a[1..]);
      assert [a[0]] + a[1..] == a;
    }
  }

  lemma FieldsOfTail(strategy: string, date: string, tail: string)
    requires NoUnderscore(strategy) && NoUnderscore(date) && NoUnderscore(tail)
    ensures Fields(strategy + "_" + (date + "_" + tail)) == [strategy, date, tail]
  {
    LastField(tail);
    FirstField(date, tail);
    FirstField(strategy, date + "_" + tail);
  }

  lemma FieldsOfJoin(mode: Mode, runtime: string, strategy: string, date: string, sequence: nat)
    requires IsToken(runtime) && IsToken(strategy) && AllDigits(date)
    ensures Fields(Join(mode, runtime, strategy, date, sequence)) ==
            [Namespace(mode), runtime, strategy, date, Padded(sequence)]
  {
    var rest := strategy + "_" + (date + "_" + Padded(sequence));
    FieldsOfTail(strategy, date, Padded(sequence));
    FirstField(runtime, rest);
    FirstField(Namespace(mode), runtime + "_" + rest);
  }

  lemma JoinEndsInADigit(mode: Mode, runtime: string, strategy: string, date: string, sequence: nat)
    ensures WithoutNewline(Join(mode, runtime, strategy, date, sequence)) ==
            Join(mode, runtime, strategy, date, sequence)
  {
    var id, tail := Join(mode, runtime, strategy, date, sequence), Padded(sequence);
    assert id[|id| - 1] == tail[|tail| - 1];
  }

  lemma ParseOfJoin(mode: Mode, runtime: string, strategy: string, date: string, sequence: nat)
    requires IsToken(runtime) && IsToken(strategy) && |date| == 8 && AllDigits(date)
    ensures Parse(Join(mode, runtime, strategy, date, sequence)) ==
            Some(Parsed(mode, runtime, strategy, date, sequence))
  {
    JoinEndsInADigit(mode, runtime, strategy, date, sequence);
    FieldsOfJoin(mode, runtime, strategy, date, sequence);
    ValueOfPadded(sequence);
  }

  // ------------------------------------------------------------------ the theorems

  /** Whatever is built can be parsed back to its mode, tokens, date and sequence number. */
  lemma ParseInvertsBuild(mode: Mode, runtime: string, strategy: string, date: string, sequence: int)
    requires Build(mode, runtime, strategy, date, sequence).Id?
    ensures Parse(Build(mode, runtime, strategy, date, sequence).id) ==
            Some(Parsed(mode, Initials(runtime, RUNTIME_LIMIT).value, Token(strategy, STRATEGY_LIMIT).value,
                        WithoutDashes(date), sequence))
  {
    ParseOfJoin(mode, Initials(runtime, RUNTIME_LIMIT).value, Token(strategy, STRATEGY_LIMIT).value,
                WithoutDashes(date), sequence);
  }

  function Joined(fields: seq<string>): string
    requires fields != []
  {
    if |fields| == 1 then fields[0] else fields[0] + "_" + Joined(fields[1..])
  }

  lemma JoinedAfterNothing(fields: seq<string>)
    requires fields != []
    ensures Joined([[]] + fields) == "_" + Joined(fields)
  {
    assert ([[]] + fields)[1..] == fields;
  }

  lemma JoinedMore(c: char, fields: seq<string>)
    requires fields != []
    ensures Joined([[c] + fields[0]] + fields[1..]) == [c] + Joined(fields)
  {
    var longer := [[c] + fields[0]] + fields[1..];
    assert longer[0] == [c] + fields[0] && longer[1..] == fields[1..] && |longer| == |fields|;
    if |fields| > 1 {
      Shifted(c, fields[0], Joined(fields[1..]));
    }
  }

  lemma Shifted(c: char, s: string, t: string)
    ensures [c] + s + "_" + t == [c] + (s + "_" + t)
  {
  }

  /** The fields, joined by underscores, are the text again. */
  lemma {:induction false} FieldsJoin(s: string)
    ensures Joined(Fields(s)) == s
  {
    if s != [] {
      FieldsJoin(s[1..]);
      JoinedAfterNothing(Fields(s[1..]));
      JoinedMore(s[0], Fields(s[1..]));
      assert s == [s[0]] + s[1..];
    }
  }

  function Spelled(p: Parsed, number: string): string {
    Namespace(p.mode) + "_" + (p.runtime + "_" + (p.strategy + "_" + (p.date + "_" + number)))
  }

  /** The documented format, field by field. */
  ghost predicate Spells(text: string, p: Parsed, number: string) {
    text == Spelled(p, number) && Proper(p, number)
  }

  predicate Proper(p: Parsed, number: string) {
    && IsToken(p.runtime) && IsToken(p.strategy) && |p.date| == 8 && AllDigits(p.date)
    && |number| >= 4 && AllDigits(number) && Value(number) == p.sequence
  }

  lemma NewlineDropped(text: string)
    requires text != [] && text[|text| - 1] != '\n'
    ensures WithoutNewline(text) == text && WithoutNewline(text + "\n") == text
  {
    assert (text + "\n")[..|text|] == text;
  }

  lemma EndsAlike(s: string, t: string)
    requires t != []
    ensures s + t != [] && (s + t)[|s + t| - 1] == t[|t| - 1]
  {
  }

  lemma SpelledFields(p: Parsed, number: string, text: string)
    requires Spells(text, p, number)
    ensures Fields(text) == [Namespace(p.mode), p.runtime, p.strategy, p.date, number]
  {
    var rest := p.strategy + "_" + (p.date + "_" + number);
    FieldsOfTail(p.strategy, p.date, number);
    FirstField(p.runtime, rest);
    FirstField(Namespace(p.mode), p.runtime + "_" + rest);
  }

  lemma SpelledEndsInADigit(p: Parsed, number: string, text: string)
    requires Spells(text, p, number)
    ensures text != [] && text[|text| - 1] != '\n'
  {
    var t1 := p.date + "_" + number;
    var t2 := p.strategy + "_" + t1;
    var t3 := p.runtime + "_" + t2;
    EndsAlike(p.date + "_", number);
    EndsAlike(p.strategy + "_", t1);
    EndsAlike(p.runtime + "_", t2);
    EndsAlike(Namespace(p.mode) + "_", t3);
    assert IsDigit(number[|number| - 1]);
  }

  lemma FieldsParse(id: string, p: Parsed, number: string)
    requires Fields(WithoutNewline(id)) == [Namespace(p.mode), p.runtime, p.strategy, p.date, number] && Proper(p, number)
    ensures Parse(id) == Some(p)
  {
  }

  lemma SpelledParses(id: string, text: string, p: Parsed, number: string)
    requires Spells(text, p, number) && (id == text || id == text + "\n")
    ensures Parse(id) == Some(p)
  {
    SpelledEndsInADigit(p, number, text);
    NewlineDropped(text);
    SpelledFields(p, number, text);
    FieldsParse(id, p, number);
  }

  lemma JoinedFive(a: string, b: string, c: string, d: string, e: string)
    ensures Joined([a, b, c, d, e]) == a + "_" + (b + "_" + (c + "_" + (d + "_" + e)))
  {
    assert [a, b, c, d, e][1..] == [b, c, d, e] && [b, c, d, e][1..] == [c, d, e];
    assert [c, d, e][1..] == [d, e] && [d, e][1..] == [e];
    assert Joined([d, e]) == d + "_" + e;
    assert Joined([c, d, e]) == c + "_" + Joined([d, e]);
    assert Joined([b, c, d, e]) == b + "_" + Joined([c, d, e]);
  }

  lemma ParsedSpells(id: string) returns (number: string)
    requires Parse(id).Some?
    ensures Spells(WithoutNewline(id), Parse(id).value, number)
    ensures id == WithoutNewline(id) || id == WithoutNewline(id) + "\n"
  {
    var text := WithoutNewline(id);
    var f := Fields(text);
    FieldsJoin(text);
    assert f == [f[0], f[1], f[2], f[3], f[4]];
    JoinedFive(f[0], f[1], f[2], f[3], f[4]);
    number := f[4];
  }

  /** Parsing accepts exactly the documented format, but for one final newline, and reads its fields. */
  lemma ParsesExactly(id: string, p: Parsed)
    ensures Parse(id) == Some(p) <==>
            exists text, number :: Spells(text, p, number) && (id == text || id == text + "\n")
  {
    if Parse(id) == Some(p) {
      var number := ParsedSpells(id);
    }
    if text, number :| Spells(text, p, number) && (id == text || id == text + "\n") {
      SpelledParses(id, text, p, number);
    }
  }

  /**
   Two built IDs are equal exactly when mode, tokens, day and sequence number all are: so within a
   strategy distinct (mode, date, sequence) never collide, and two strategies collide exactly when
   their four-character tokens do.
   */
  lemma SameIdExactly(m1: Mode, r1: string, s1: string, d1: string, n1: int,
                      m2: Mode, r2: string, s2: string, d2: string, n2: int)
    requires Build(m1, r1, s1, d1, n1).Id? && Build(m2, r2, s2, d2, n2).Id?
    ensures Build(m1, r1, s1, d1, n1) == Build(m2, r2, s2, d2, n2) <==>
            && m1 == m2 && Initials(r1, RUNTIME_LIMIT) == Initials(r2, RUNTIME_LIMIT)
            && Token(s1, STRATEGY_LIMIT) == Token(s2, STRATEGY_LIMIT)
            && WithoutDashes(d1) == WithoutDashes(d2) && n1 == n2
  {
    ParseInvertsBuild(m1, r1, s1, d1, n1);
    ParseInvertsBuild(m2, r2, s2, d2, n2);
  }

  lemma JoinLength(mode: Mode, runtime: string, strategy: string, date: string, sequence: nat)
    ensures |Join(mode, runtime, strategy, date, sequence)| ==
            5 + |runtime| + |strategy| + |date| + |Padded(sequence)|
  {
  }

  /**
   For identifiers that yield tokens and a real date, an ID is built exactly when its sequence
   number has few enough digits; the first 99,999 orders of a day always fit.
   */
  lemma FitsExactly(mode: Mode, runtime: string, strategy: string, date: string, sequence: nat)
    requires IsDate(WithoutDashes(date))
    requires Initials(runtime, RUNTIME_LIMIT).Some? && Token(strategy, STRATEGY_LIMIT).Some?
    ensures var spare := RUNTIME_LIMIT - |Initials(runtime, RUNTIME_LIMIT).value|
                         + STRATEGY_LIMIT - |Token(strategy, STRATEGY_LIMIT).value|;
            spare >= 0
            && (Build(mode, runtime, strategy, date, sequence).Id? <==> sequence < Pow10(5 + spare))
    ensures sequence <= 99999 ==> Build(mode, runtime, strategy, date, sequence).Id?
  {
    var r, s := Initials(runtime, RUNTIME_LIMIT).value, Token(strategy, STRATEGY_LIMIT).value;
    var spare := RUNTIME_LIMIT - |r| + STRATEGY_LIMIT - |s|;
    JoinLength(mode, r, s, WithoutDashes(date), sequence);
    DecimalLength(sequence, 5 + spare);
    PowGrows(5, 5 + spare);
    assert Pow10(5) == 10 * (10 * (10 * (10 * (10 * Pow10(0))))) by {
      assert Pow10(1) == 10 && Pow10(2) == 100 && Pow10(3) == 1000 && Pow10(4) == 10000;
    }
  }

  /** Building is refused for a negative number, then a date that is none, then a name without a token, then the length. */
  lemma BuildsExactly(mode: Mode, runtime: string, strategy: string, date: string, sequence: int)
    ensures var b := Build(mode, runtime, strategy, date, sequence);
            if sequence < 0 then b == Refused(NegativeSequence)
            else if !IsDate(WithoutDashes(date)) then b == Refused(NotADate)
            else if !HasTokenChar(runtime) || !HasTokenChar(strategy) then b == Refused(NoToken)
            else
              && Initials(runtime, RUNTIME_LIMIT).Some? && Token(strategy, STRATEGY_LIMIT).Some?
              && var spare := RUNTIME_LIMIT - |Initials(runtime, RUNTIME_LIMIT).value|
                              + STRATEGY_LIMIT - |Token(strategy, STRATEGY_LIMIT).value|;
              spare >= 0 && if sequence < Pow10(5 + spare) then b.Id? else b == Refused(TooLong)
  {
    InitialsExactly(runtime, RUNTIME_LIMIT);
    TokenExactly(strategy, STRATEGY_LIMIT);
    if sequence >= 0 && IsDate(WithoutDashes(date)) && HasTokenChar(runtime) && HasTokenChar(strategy) {
      FitsExactly(mode, runtime, strategy, date, sequence);
    }
  }

  lemma {:induction false} PowGrows(j: nat, k: nat)
    requires j <= k
    ensures Pow10(j) <= Pow10(k)
  {
    if j < k { PowGrows(j, k - 1); }
  }
}
