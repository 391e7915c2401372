/**
  * Field decoders (realtime_stock_price.py, `to_float`, `to_int`,
  * `split_levels`, `split_sizes`, `parse_datetime`): total functions from the
  * provider's raw tokens to optional typed values. The "no data" tokens and
  * anything unparsable decode to `None`; nothing here fails.
  */
module Decoders {
  import opened Wrappers
  import opened Text

  /** A raw scalar as the decoders receive it: `None`, an `int`, a `float` or a `str`. */
  datatype Value = Absent | IntValue(i: int) | FloatValue(r: real) | Str(s: string)

  /** The provider's tokens for "no data". */
  const Sentinels: set<string> := {"", "-", "N/A"}

  // ---------------------------------------------------------------------
  // Numerals
  // ---------------------------------------------------------------------

  predicate IsNumeralChar(c: char) {
    IsDigit(c) || c == '.' || c == '+' || c == '-'
  }

  function IndexOf(s: string, c: char): (r: Option<nat>)
    ensures r.Some? ==> r.value < |s| && s[r.value] == c
    ensures r.None? ==> c !in s
  {
    if s == [] then None
    else if s[0] == c then Some(0)
    else match IndexOf(s[1..], c)
      case None => None
      case Some(k) => Some(k + 1)
  }

  /** The value of the numeral `whole.frac`: the whole part plus the fraction scaled by its length. */
  function DecimalValue(whole: string, frac: string): real
    requires AllDigits(whole) && AllDigits(frac)
  {
    DigitsValue(whole) as real + DigitsValue(frac) as real / Pow10(|frac|) as real
  }

  /** An unsigned decimal numeral: digits with at most one '.', and at least one digit. */
  function ParseUnsigned(s: string): (r: Option<real>)
    ensures r.Some? ==> r.value >= 0.0
    ensures r.Some? ==> forall i :: 0 <= i < |s| ==> IsDigit(s[i]) || s[i] == '.'
  {
    match IndexOf(s, '.')
    case None =>
      if s != [] && AllDigits(s) then Some(DigitsValue(s) as real) else None
    case Some(k) =>
      var whole, frac := s[..k], s[k + 1..];
      if AllDigits(whole) && AllDigits(frac) && (whole != [] || frac != []) then
        assert s == whole + ['.'] + frac;
        Some(DecimalValue(whole, frac))
      else
        None
  }

  /**
    * `float(s)` restricted to signed decimal numerals (`[+-]` then digits with
    * at most one '.'); any other token is unparsable.
    */
  function ParseDecimal(s: string): (r: Option<real>)
    ensures r.Some? ==> forall i :: 0 <= i < |s| ==> IsNumeralChar(s[i])
    ensures s != [] && AllDigits(s) ==> r == Some(DigitsValue(s) as real)
  {
    if s != [] && s[0] == '-' then
      match ParseUnsigned(s[1..])
      case None => None
      case Some(v) => Some(-v)
    else if s != [] && s[0] == '+' then
      ParseUnsigned(s[1..])
    else
      ParseUnsigned(s)
  }

  /** The whole part of an unsigned decimal numeral: what truncation keeps of `ParseUnsigned`. */
  function ParseWhole(s: string): (r: Option<int>)
    ensures r.Some? <==> ParseUnsigned(s).Some?
    ensures r.Some? ==> r.value >= 0
  {
    match IndexOf(s, '.')
    case None =>
      if s != [] && AllDigits(s) then Some(DigitsValue(s)) else None
    case Some(k) =>
      var whole, frac := s[..k], s[k + 1..];
      if AllDigits(whole) && AllDigits(frac) && (whole != [] || frac != []) then Some(DigitsValue(whole))
      else None
  }

  /** `int(float(s))` on a signed decimal numeral: the sign applied to the whole part. */
  function ParseTruncated(s: string): (r: Option<int>)
    ensures r.Some? <==> ParseDecimal(s).Some?
    ensures s != [] && AllDigits(s) ==> r == Some(DigitsValue(s))
  {
    if s != [] && s[0] == '-' then
      match ParseWhole(s[1..])
      case None => None
      case Some(v) => Some(-v)
    else if s != [] && s[0] == '+' then
      ParseWhole(s[1..])
    else
      ParseWhole(s)
  }

  /** `int(v)` for a float: truncation toward zero. */
  function Trunc(v: real): (r: int)
    ensures v >= 0.0 ==> r >= 0 && r as real <= v < r as real + 1.0
    ensures v < 0.0 ==> r <= 0 && r as real - 1.0 < v <= r as real
  {
    if v >= 0.0 then v.Floor else -((-v).Floor)
  }

  // ---------------------------------------------------------------------
  // to_float / to_int
  // ---------------------------------------------------------------------

  /** `to_float`: numbers convert, strings are stripped and parsed, sentinels and junk give `None`. */
  function ToFloat(x: Value): (r: Option<real>)
    ensures x.Absent? ==> r.None?
    ensures x.Str? && Trim(x.s) in Sentinels ==> r.None?
    ensures x.Str? && r.Some? ==> ',' !in x.s
  {
    match x
    case Absent => None
    case IntValue(i) => Some(i as real)
    case FloatValue(f) => Some(f)
    case Str(s) =>
      var t := Trim(s);
      if t in Sentinels then None
      else
        NumeralsHaveNoComma(s);
        ParseDecimal(t)
  }

  /** Stripping removes only whitespace, so a comma in the token rules out a numeral. */
  lemma NumeralsHaveNoComma(s: string)
    ensures ParseDecimal(Trim(s)).Some? ==> ',' !in s
  {
    var t := Trim(s);
    if ParseDecimal(t).Some? {
      NumeralHasNoComma(t);
      forall i | 0 <= i < |s|
        ensures s[i] != ','
      {
        if s[i] == ',' {
          TrimKeepsNonSpace(s, i);
        }
      }
    }
  }

  lemma NumeralHasNoComma(t: string)
    requires ParseDecimal(t).Some?
    ensures ',' !in t
  {
    forall j | 0 <= j < |t|
      ensures t[j] != ','
    {
      assert IsNumeralChar(t[j]);
    }
  }

  /** `to_int`: like `to_float`, but commas are deleted first and the value is truncated. */
  function ToInt(x: Value): (r: Option<int>)
    ensures x.Absent? ==> r.None?
    ensures x.Str? && Trim(Delete(x.s, ',')) in Sentinels ==> r.None?
  {
    match x
    case Absent => None
    case IntValue(i) => Some(i)
    case FloatValue(f) => Some(Trunc(f))
    case Str(s) =>
      var t := Trim(Delete(s, ','));
      if t in Sentinels then None else ParseTruncated(t)
  }

  /** The value `to_int` sees once the commas of a string are gone. */
  function Uncomma(x: Value): Value {
    if x.Str? then Str(Delete(x.s, ',')) else x
  }

  function TruncOpt(v: Option<real>): Option<int> {
    match v
    case None => None
    case Some(f) => Some(Trunc(f))
  }

  /** A run of digits denotes less than ten to the power of its length. */
  lemma {:induction false} DigitsBelow(s: string)
    requires AllDigits(s)
    ensures DigitsValue(s) < Pow10(|s|)
  {
    if s != [] {
      DigitsBelow(s[..|s| - 1]);
    }
  }

  /** A fraction below one does not reach the next whole number. */
  lemma FractionFloor(w: nat, f: nat, p: nat)
    requires f < p
    ensures (w as real + f as real / p as real).Floor == w
  {
    var q := f as real / p as real;
    assert q * p as real == f as real;
  }

  /** Truncating an unsigned numeral's value keeps its whole part. */
  lemma WholeIsTruncated(s: string)
    requires ParseUnsigned(s).Some?
    ensures ParseWhole(s).value == Trunc(ParseUnsigned(s).value)
  {
    match IndexOf(s, '.')
    case None =>
    case Some(k) =>
      var whole, frac := s[..k], s[k + 1..];
      DigitsBelow(frac);
      FractionFloor(DigitsValue(whole), DigitsValue(frac), Pow10(|frac|));
  }

  /** The real-free reading of `int(float(s))` agrees with truncating the parsed value. */
  lemma TruncatedIsTrunc(s: string)
    ensures ParseTruncated(s) == TruncOpt(ParseDecimal(s))
  {
    if s != [] && s[0] == '-' {
      if ParseUnsigned(s[1..]).Some? {
        WholeIsTruncated(s[1..]);
      }
    } else if s != [] && s[0] == '+' {
      if ParseUnsigned(s[1..]).Some? {
        WholeIsTruncated(s[1..]);
      }
    } else if ParseUnsigned(s).Some? {
      WholeIsTruncated(s);
    }
  }

  /** `to_int` is `to_float` after deleting commas, truncated toward zero, on every input. */
  lemma ToIntIsTruncatedToFloat(x: Value)
    ensures ToInt(x) == TruncOpt(ToFloat(Uncomma(x)))
  {
    match x
    case IntValue(i) =>
      assert Trunc(i as real) == i;
    case Str(s) =>
      TruncatedIsTrunc(Trim(Delete(s, ',')));
    case _ =>
  }

  /** Stripping leaves alone a string that starts and ends with a non-space. */
  lemma TrimKeeps(s: string)
    requires s != [] && !IsSpace(s[0]) && !IsSpace(s[|s| - 1])
    ensures Trim(s) == s
  {
  }

  /** A string that starts with a digit is none of the "no data" tokens. */
  lemma DigitLedNotSentinel(s: string)
    requires s != [] && IsDigit(s[0])
    ensures s !in Sentinels
  {
    assert "-"[0] == '-' && "N/A"[0] == 'N';
  }

  /** A string without the character has nothing to delete. */
  lemma DeleteAbsent(s: string, c: char)
    requires forall i :: 0 <= i < |s| ==> s[i] != c
    ensures Delete(s, c) == s
  {
    assert c !in s;
  }

  /** A plain numeral is no sentinel and survives stripping and comma deletion. */
  lemma PlainNumeral(s: string)
    requires s != [] && AllDigits(s)
    ensures s !in Sentinels && Trim(s) == s && Delete(s, ',') == s
  {
    DigitLedNotSentinel(s);
    TrimKeeps(s);
    DeleteAbsent(s, ',');
  }

  /** An unsigned run of digits parses to the number it denotes. */
  lemma DigitsParse(s: string)
    requires s != [] && AllDigits(s)
    ensures ParseDecimal(s) == Some(DigitsValue(s) as real)
  {
  }

  /** A plain numeral decodes to its value under both decoders. */
  lemma PlainNumeralDecodes(s: string)
    requires s != [] && AllDigits(s)
    ensures ToFloat(Str(s)) == Some(DigitsValue(s) as real)
    ensures ToInt(Str(s)) == Some(DigitsValue(s))
  {
    PlainNumeral(s);
    DigitsParse(s);
  }

  /** `str(n)` decodes back to `n` under both decoders. */
  lemma NumeralDecodes(n: nat)
    ensures ToFloat(Str(NatToString(n))) == Some(n as real)
    ensures ToInt(Str(NatToString(n))) == Some(n)
  {
    NatToStringValue(n);
    PlainNumeralDecodes(NatToString(n));
  }

  /** The first `c` is the one right after a prefix that has none. */
  lemma {:induction false} IndexOfAfter(a: string, c: char, b: string)
    requires c !in a
    ensures IndexOf(a + [c] + b, c) == Some(|a|)
  {
    if a != [] {
      assert (a + [c] + b)[1..] == a[1..] + [c] + b;
      IndexOfAfter(a[1..], c, b);
    }
  }

  /** With its first '.' at `k` and digits on both sides, a numeral reads as whole plus fraction. */
  lemma ParseUnsignedAt(s: string, k: nat)
    requires IndexOf(s, '.') == Some(k)
    requires k > 0 && AllDigits(s[..k]) && AllDigits(s[k + 1..])
    ensures ParseUnsigned(s) == Some(DecimalValue(s[..k], s[k + 1..]))
  {
  }

  /** Digits, a '.', digits: the unsigned parse reads the whole and the fractional part. */
  lemma UnsignedDecimal(whole: string, frac: string)
    requires whole != [] && AllDigits(whole) && AllDigits(frac)
    ensures ParseUnsigned(whole + ['.'] + frac) == Some(DecimalValue(whole, frac))
  {
    var s := whole + ['.'] + frac;
    assert '.' !in whole;
    IndexOfAfter(whole, '.', frac);
    assert s[..|whole|] == whole && s[|whole| + 1..] == frac;
    ParseUnsignedAt(s, |whole|);
  }

  /** A decimal numeral "whole.frac" decodes to its value. */
  lemma DecimalDecodes(whole: string, frac: string)
    requires whole != [] && AllDigits(whole) && AllDigits(frac)
    ensures ToFloat(Str(whole + "." + frac)) == Some(DecimalValue(whole, frac))
  {
    var s := whole + "." + frac;
    assert s == whole + ['.'] + frac;
    assert IsDigit(s[0]) && !IsSpace(s[|s| - 1]);
    DigitLedNotSentinel(s);
    TrimKeeps(s);
    UnsignedDecimal(whole, frac);
    assert ParseDecimal(s) == ParseUnsigned(s);
  }

  /** A numeral with its dot at position `k` decodes to the value of its two digit runs. */
  lemma DecimalDecodesAt(s: string, k: nat)
    requires 0 < k < |s| && s[k] == '.' && AllDigits(s[..k]) && AllDigits(s[k + 1..])
    ensures ToFloat(Str(s)) == Some(DecimalValue(s[..k], s[k + 1..]))
  {
    assert s == s[..k] + "." + s[k + 1..];
    DecimalDecodes(s[..k], s[k + 1..]);
  }

  /** With one fractional digit the numeral counts tenths. */
  lemma Tenths(whole: string, frac: string)
    requires AllDigits(whole) && AllDigits(frac) && |frac| == 1
    ensures DecimalValue(whole, frac) == DigitsValue(whole) as real + DigitsValue(frac) as real / 10.0
  {
    assert Pow10(|frac|) == 10 by {
      assert Pow10(0) == 1;
    }
  }

  /** `n` written with thousands separators, as in "1,000". */
  function Grouped(n: nat): (s: string)
    ensures s != [] && IsDigit(s[0]) && IsDigit(s[|s| - 1])
    ensures n >= 1000 ==> ',' in s
  {
    if n < 1000 then NatToString(n)
    else
      var s := Grouped(n / 1000) + "," + Fixed(n % 1000, 3);
      assert s[|Grouped(n / 1000)|] == ',';
      s
  }

  lemma {:induction false} DeleteConcat(a: string, b: string, c: char)
    ensures Delete(a + b, c) == Delete(a, c) + Delete(b, c)
  {
    if a == [] {
      assert a + b == b;
    } else {
      var head := if a[0] == c then [] else [a[0]];
      assert (a + b)[0] == a[0] && (a + b)[1..] == a[1..] + b;
      DeleteConcat(a[1..], b, c);
      calc {
        Delete(a + b, c);
        head + Delete(a[1..] + b, c);
        head + (Delete(a[1..], c) + Delete(b, c));
        (head + Delete(a[1..], c)) + Delete(b, c);
        Delete(a, c) + Delete(b, c);
      }
    }
  }

  /** Deleting the separator between two groups joins them. */
  lemma DeleteSeparator(head: string, tail: string, c: char)
    requires c !in tail
    ensures Delete(head + [c] + tail, c) == Delete(head, c) + tail
  {
    assert Delete([c], c) == [];
    DeleteConcat(head + [c], tail, c);
    DeleteConcat(head, [c], c);
  }

  /** Without its commas, `Grouped(n)` is a plain numeral for `n`. */
  lemma {:induction false} GroupedDigits(n: nat)
    ensures var d := Delete(Grouped(n), ',');
      d != [] && AllDigits(d) && DigitsValue(d) == n
  {
    if n < 1000 {
      NatToStringValue(n);
      DeleteAbsent(NatToString(n), ',');
    } else {
      GroupedDigits(n / 1000);
      var head, tail := Grouped(n / 1000), Fixed(n % 1000, 3);
      var d := Delete(head, ',');
      assert ',' !in tail by {
        assert forall i :: 0 <= i < |tail| ==> IsDigit(tail[i]);
      }
      DeleteSeparator(head, tail, ',');
      assert DigitsValue(d + tail) == n by {
        assert Pow10(3) == 1000;
        FixedValue(n % 1000, 3);
        DigitsValueConcat(d, tail);
      }
    }
  }

  /** Thousands separators are read by `to_int` but make `to_float` give `None`. */
  lemma GroupedDecodes(n: nat)
    ensures ToInt(Str(Grouped(n))) == Some(n)
    ensures n >= 1000 ==> ToFloat(Str(Grouped(n))) == None
  {
    GroupedDigits(n);
    var d := Delete(Grouped(n), ',');
    PlainNumeral(d);
    DigitsParse(d);
  }

  // ---------------------------------------------------------------------
  // split_levels / split_sizes
  // ---------------------------------------------------------------------

  /** `[p for p in s.split("_") if p]`: the non-empty `_`-separated segments, in order. */
  function Segments(s: string): seq<string> {
    NonEmpty(Split(s, '_'))
  }

  /** The segments are non-empty, free of `_`, and together spell `s` without its underscores. */
  lemma SegmentsCover(s: string)
    ensures forall i :: 0 <= i < |Segments(s)| ==> Segments(s)[i] != "" && '_' !in Segments(s)[i]
    ensures Concat(Segments(s)) == Delete(s, '_')
  {
    ConcatNonEmpty(Split(s, '_'));
    ConcatSplit(s, '_');
  }

  /** `split_levels`: one `to_float` per non-empty segment; `None` or "" gives the empty ladder. */
  function SplitLevels(s: Option<string>): (r: seq<Option<real>>)
    ensures s.None? || s == Some("") ==> r == []
  {
    if s.None? || s.value == "" then []
    else
      var segs := Segments(s.value);
      seq(|segs|, i requires 0 <= i < |segs| => ToFloat(Str(segs[i])))
  }

  /** `split_sizes`: one `to_int` per non-empty segment; `None` or "" gives the empty ladder. */
  function SplitSizes(s: Option<string>): (r: seq<Option<int>>)
    ensures s.None? || s == Some("") ==> r == []
  {
    if s.None? || s.value == "" then []
    else
      var segs := Segments(s.value);
      seq(|segs|, i requires 0 <= i < |segs| => ToInt(Str(segs[i])))
  }

  /** The provider's ladder encoding: each level, then `_`, so the last slot is empty ("94_108_"). */
  function EncodeLadder(xs: seq<nat>): string {
    Join(LadderParts(xs) + [""], "_")
  }

  function LadderParts(xs: seq<nat>): (parts: seq<string>)
    ensures |parts| == |xs|
  {
    seq(|xs|, i requires 0 <= i < |xs| => NatToString(xs[i]))
  }

  /** A ladder written from non-empty, `_`-free segments, each followed by `_`, splits back into those segments. */
  lemma PaddedSegments(parts: seq<string>)
    requires parts != []
    requires forall i :: 0 <= i < |parts| ==> parts[i] != "" && '_' !in parts[i]
    ensures Join(parts + [""], "_") != ""
    ensures Segments(Join(parts + [""], "_")) == parts
  {
    var padded := parts + [""];
    forall i | 0 <= i < |padded|
      ensures '_' !in padded[i]
    {
      if i < |parts| {
        assert padded[i] == parts[i];
      }
    }
    SplitJoin(padded, '_');
    NonEmptyDropsTrailingEmpty(parts);
    assert Join(padded, "_") == parts[0] + "_" + Join(padded[1..], "_");
  }

  /** The segments of an encoded ladder are the numerals of its levels. */
  lemma LadderSegments(xs: seq<nat>)
    requires xs != []
    ensures EncodeLadder(xs) != ""
    ensures Segments(EncodeLadder(xs)) == LadderParts(xs)
  {
    var parts := LadderParts(xs);
    forall i | 0 <= i < |parts|
      ensures parts[i] != "" && '_' !in parts[i]
    {
      assert AllDigits(parts[i]);
    }
    PaddedSegments(parts);
  }

  lemma EmptyLadder()
    ensures EncodeLadder([]) == ""
  {
    assert LadderParts([]) + [""] == [""];
  }

  /** Decoding an encoded ladder of sizes gives back its levels, in order. */
  lemma LadderSizesRoundTrip(xs: seq<nat>)
    ensures |SplitSizes(Some(EncodeLadder(xs)))| == |xs|
    ensures forall i :: 0 <= i < |xs| ==> SplitSizes(Some(EncodeLadder(xs)))[i] == Some(xs[i])
  {
    if xs == [] {
      EmptyLadder();
    } else {
      var parts := LadderParts(xs);
      LadderSegments(xs);
      var decoded := SplitSizes(Some(EncodeLadder(xs)));
      assert |decoded| == |xs|;
      forall i | 0 <= i < |xs|
        ensures decoded[i] == Some(xs[i])
      {
        assert decoded[i] == ToInt(Str(parts[i]));
        NumeralDecodes(xs[i]);
      }
    }
  }

  /** Decoding an encoded ladder of prices gives back its levels, in order. */
  lemma LadderLevelsRoundTrip(xs: seq<nat>)
    ensures |SplitLevels(Some(EncodeLadder(xs)))| == |xs|
    ensures forall i :: 0 <= i < |xs| ==> SplitLevels(Some(EncodeLadder(xs)))[i] == Some(xs[i] as real)
  {
    if xs == [] {
      EmptyLadder();
    } else {
      var parts := LadderParts(xs);
      LadderSegments(xs);
      var decoded := SplitLevels(Some(EncodeLadder(xs)));
      assert |decoded| == |xs|;
      forall i | 0 <= i < |xs|
        ensures decoded[i] == Some(xs[i] as real)
      {
        assert decoded[i] == ToFloat(Str(parts[i]));
        NumeralDecodes(xs[i]);
      }
    }
  }

  // ---------------------------------------------------------------------
  // parse_datetime
  // ---------------------------------------------------------------------

  datatype DateTime = DateTime(year: nat, month: nat, day: nat, hour: nat, minute: nat, second: nat)

  /** Prices written as `whole.frac`, one per level ("119.50", "120.00"). */
  function DecimalParts(ws: seq<string>, fs: seq<string>): (parts: seq<string>)
    requires |ws| == |fs|
    ensures |parts| == |ws|
    ensures forall i :: 0 <= i < |ws| ==> parts[i] == ws[i] + "." + fs[i]
  {
    seq(|ws|, i requires 0 <= i < |ws| => ws[i] + "." + fs[i])
  }

  /** A ladder of decimal prices in the provider's encoding ("119.50_120.00_"). */
  function DecimalLadder(ws: seq<string>, fs: seq<string>): string
    requires |ws| == |fs|
  {
    Join(DecimalParts(ws, fs) + [""], "_")
  }

  /** Decoding an encoded ladder of decimal prices gives back each exact price, in order. */
  lemma DecimalLadderRoundTrip(ws: seq<string>, fs: seq<string>)
    requires |ws| == |fs|
    requires forall i :: 0 <= i < |ws| ==> ws[i] != [] && AllDigits(ws[i]) && AllDigits(fs[i])
    ensures |SplitLevels(Some(DecimalLadder(ws, fs)))| == |ws|
    ensures forall i :: 0 <= i < |ws| ==>
      SplitLevels(Some(DecimalLadder(ws, fs)))[i] == Some(DecimalValue(ws[i], fs[i]))
  {
    var parts := DecimalParts(ws, fs);
    if ws == [] {
      assert parts + [""] == [""];
    } else {
      forall i | 0 <= i < |parts|
        ensures parts[i] != "" && '_' !in parts[i]
      {
        assert AllDigits(ws[i]) && AllDigits(fs[i]);
        assert '_' !in ws[i] && '_' !in fs[i];
        assert parts[i] == ws[i] + "." + fs[i];
      }
      PaddedSegments(parts);
      var decoded := SplitLevels(Some(DecimalLadder(ws, fs)));
      forall i | 0 <= i < |ws|
        ensures decoded[i] == Some(DecimalValue(ws[i], fs[i]))
      {
        assert decoded[i] == ToFloat(Str(parts[i]));
        DecimalDecodes(ws[i], fs[i]);
      }
    }
  }

  predicate IsLeapYear(y: nat) {
    y % 4 == 0 && (y % 100 != 0 || y % 400 == 0)
  }

  function DaysInMonth(y: nat, m: nat): nat
    requires 1 <= m <= 12
  {
    if m == 2 then (if IsLeapYear(y) then 29 else 28)
    else if m == 4 || m == 6 || m == 9 || m == 11 then 30
    else 31
  }

  /** The ranges the `datetime` constructor accepts (no leap second). */
  predicate IsValid(dt: DateTime) {
    && 1 <= dt.year <= 9999
    && 1 <= dt.month <= 12
    && 1 <= dt.day <= DaysInMonth(dt.year, dt.month)
    && dt.hour < 24 && dt.minute < 60 && dt.second < 60
  }

  /** `%Y%m%d` with every field zero-padded. */
  predicate IsCompactDate(d: string) {
    |d| == 8 && AllDigits(d)
  }

  /** `%H:%M:%S` with every field zero-padded. */
  predicate IsCompactTime(t: string) {
    |t| == 8 && t[2] == ':' && t[5] == ':' && AllDigits(t[..2]) && AllDigits(t[3..5]) && AllDigits(t[6..])
  }

  function ReadCompact(d: string, t: string): DateTime
    requires IsCompactDate(d) && IsCompactTime(t)
  {
    assert AllDigits(d[..4]) && AllDigits(d[4..6]) && AllDigits(d[6..]);
    DateTime(DigitsValue(d[..4]), DigitsValue(d[4..6]), DigitsValue(d[6..]),
             DigitsValue(t[..2]), DigitsValue(t[3..5]), DigitsValue(t[6..]))
  }

  /** `datetime.strptime(d + " " + t, "%Y%m%d %H:%M:%S")`, with `None` where it raises. */
  function Strptime(d: string, t: string): (r: Option<DateTime>)
    ensures r.Some? ==> IsValid(r.value)
  {
    if IsCompactDate(d) && IsCompactTime(t) && IsValid(ReadCompact(d, t)) then Some(ReadCompact(d, t)) else None
  }

  /** `dt.isoformat()` of an aware `datetime` without microseconds; `offset` is the zone's "+08:00". */
  function IsoFormat(dt: DateTime, offset: string): string {
    IsoDate(dt) + "T" + IsoTime(dt) + offset
  }

  function IsoDate(dt: DateTime): string {
    Fixed(dt.year, 4) + "-" + Fixed(dt.month, 2) + "-" + Fixed(dt.day, 2)
  }

  function IsoTime(dt: DateTime): string {
    Fixed(dt.hour, 2) + ":" + Fixed(dt.minute, 2) + ":" + Fixed(dt.second, 2)
  }

  /**
    * `parse_datetime`: it succeeds exactly on a present, well-formed, valid
    * pair, and its result is built from exactly the input's digits.
    */
  function ParseDateTime(date: Option<string>, time: Option<string>, offset: string): (r: Option<string>)
    ensures r.Some? <==>
      date.Some? && time.Some? && IsCompactDate(date.value) && IsCompactTime(time.value)
      && IsValid(ReadCompact(date.value, time.value))
    ensures r.Some? ==>
      r.value == date.value[..4] + "-" + date.value[4..6] + "-" + date.value[6..] + "T" + time.value + offset
  {
    if date.None? || date.value == "" || time.None? || time.value == "" then None
    else match Strptime(date.value, time.value)
      case None => None
      case Some(dt) =>
        IsoEchoesCompact(date.value, time.value, offset);
        Some(IsoFormat(dt, offset))
  }

  lemma IsoDateEchoes(d: string, t: string)
    requires IsCompactDate(d) && IsCompactTime(t)
    ensures IsoDate(ReadCompact(d, t)) == d[..4] + "-" + d[4..6] + "-" + d[6..]
  {
    var dt := ReadCompact(d, t);
    assert AllDigits(d[..4]) && AllDigits(d[4..6]) && AllDigits(d[6..]);
    assert Fixed(dt.year, 4) == d[..4] by { FixedOfDigits(d[..4]); }
    assert Fixed(dt.month, 2) == d[4..6] by { FixedOfDigits(d[4..6]); }
    assert Fixed(dt.day, 2) == d[6..] by { FixedOfDigits(d[6..]); }
  }

  lemma IsoTimeEchoes(d: string, t: string)
    requires IsCompactDate(d) && IsCompactTime(t)
    ensures IsoTime(ReadCompact(d, t)) == t
  {
    var dt := ReadCompact(d, t);
    assert Fixed(dt.hour, 2) == t[..2] by { FixedOfDigits(t[..2]); }
    assert Fixed(dt.minute, 2) == t[3..5] by { FixedOfDigits(t[3..5]); }
    assert Fixed(dt.second, 2) == t[6..] by { FixedOfDigits(t[6..]); }
    assert t == t[..2] + ":" + t[3..5] + ":" + t[6..];
  }

  /** Reading a well-formed pair and printing it in ISO 8601 rearranges exactly the input characters. */
  lemma IsoEchoesCompact(d: string, t: string, offset: string)
    requires IsCompactDate(d) && IsCompactTime(t)
    ensures IsoFormat(ReadCompact(d, t), offset)
      == d[..4] + "-" + d[4..6] + "-" + d[6..] + "T" + t + offset
  {
    IsoDateEchoes(d, t);
    IsoTimeEchoes(d, t);
  }

  function CompactDate(dt: DateTime): string {
    Fixed(dt.year, 4) + Fixed(dt.month, 2) + Fixed(dt.day, 2)
  }

  function CompactTime(dt: DateTime): string {
    Fixed(dt.hour, 2) + ":" + Fixed(dt.minute, 2) + ":" + Fixed(dt.second, 2)
  }

  lemma CompactDateSlices(dt: DateTime)
    ensures var d := CompactDate(dt);
      |d| == 8 && d[..4] == Fixed(dt.year, 4) && d[4..6] == Fixed(dt.month, 2) && d[6..] == Fixed(dt.day, 2)
  {
  }

  lemma CompactTimeSlices(dt: DateTime)
    ensures var t := CompactTime(dt);
      |t| == 8 && t[2] == ':' && t[5] == ':'
      && t[..2] == Fixed(dt.hour, 2) && t[3..5] == Fixed(dt.minute, 2) && t[6..] == Fixed(dt.second, 2)
  {
  }

  /** A valid moment written in the provider's format is well formed. */
  lemma CompactWellFormed(dt: DateTime)
    ensures IsCompactDate(CompactDate(dt)) && IsCompactTime(CompactTime(dt))
  {
    var d := CompactDate(dt);
    CompactDateSlices(dt);
    CompactTimeSlices(dt);
    assert d == d[..4] + d[4..6] + d[6..];
  }

  /** A valid moment written in the provider's format reads back as itself. */
  lemma CompactReadsBack(dt: DateTime)
    requires IsValid(dt)
    ensures IsCompactDate(CompactDate(dt)) && IsCompactTime(CompactTime(dt))
    ensures ReadCompact(CompactDate(dt), CompactTime(dt)) == dt
  {
    CompactWellFormed(dt);
    CompactDateSlices(dt);
    CompactTimeSlices(dt);
    var r := ReadCompact(CompactDate(dt), CompactTime(dt));
    assert Pow10(4) == 10000 && Pow10(2) == 100;
    FixedValue(dt.year, 4);
    FixedValue(dt.month, 2);
    FixedValue(dt.day, 2);
    FixedValue(dt.hour, 2);
    FixedValue(dt.minute, 2);
    FixedValue(dt.second, 2);
    assert r.year == dt.year && r.month == dt.month && r.day == dt.day;
    assert r.hour == dt.hour && r.minute == dt.minute && r.second == dt.second;
  }

  /** Every valid calendar date and clock time, written in the provider's format, is accepted. */
  lemma ParseDateTimeAcceptsValid(dt: DateTime, offset: string)
    requires IsValid(dt)
    ensures ParseDateTime(Some(CompactDate(dt)), Some(CompactTime(dt)), offset) == Some(IsoFormat(dt, offset))
  {
    CompactReadsBack(dt);
    CompactTimeSlices(dt);
    assert CompactDate(dt) != "" && CompactTime(dt) != "";
  }

  // ---------------------------------------------------------------------
  // The module's self-test expectations
  // ---------------------------------------------------------------------

  /** The ladder the self-test splits, "1_2_", is the encoding of [1, 2]. */
  lemma EncodesOneTwo(xs: seq<nat>)
    requires |xs| == 2 && xs[0] == 1 && xs[1] == 2
    ensures EncodeLadder(xs) == "1_2_"
  {
    assert LadderParts(xs) + [""] == ["1", "2", ""];
    assert Join(["2", ""], "_") == "2_";
  }

  /** The ladder "10_20_" is the encoding of [10, 20]. */
  lemma EncodesTenTwenty(xs: seq<nat>)
    requires |xs| == 2 && xs[0] == 10 && xs[1] == 20
    ensures EncodeLadder(xs) == "10_20_"
  {
    assert NatToString(10) == "10" by {
      assert NatToString(10) == NatToString(1) + [DigitChar(0)];
      assert NatToString(1) == [DigitChar(1)];
      assert DigitChar(0) == '0' && DigitChar(1) == '1';
    }
    assert NatToString(20) == "20" by {
      assert NatToString(20) == NatToString(2) + [DigitChar(0)];
      assert NatToString(2) == [DigitChar(2)];
      assert DigitChar(0) == '0' && DigitChar(2) == '2';
    }
    assert LadderParts(xs) + [""] == ["10", "20", ""];
    assert Join(["20", ""], "_") == "20_";
  }

  /** The ladder [1, 2] decodes back to the prices 1.0 and 2.0. */
  lemma LevelsOneTwo(xs: seq<nat>)
    requires |xs| == 2 && xs[0] == 1 && xs[1] == 2
    ensures SplitLevels(Some(EncodeLadder(xs))) == [Some(1.0), Some(2.0)]
  {
    LadderLevelsRoundTrip(xs);
    PairOf(SplitLevels(Some(EncodeLadder(xs))), Some(1.0), Some(2.0));
  }

  /** The ladder [10, 20] decodes back to the sizes 10 and 20. */
  lemma SizesTenTwenty(xs: seq<nat>)
    requires |xs| == 2 && xs[0] == 10 && xs[1] == 20
    ensures SplitSizes(Some(EncodeLadder(xs))) == [Some(10), Some(20)]
  {
    LadderSizesRoundTrip(xs);
    PairOf(SplitSizes(Some(EncodeLadder(xs))), Some(10), Some(20));
  }

  lemma SelfTestLevels()
    ensures SplitLevels(Some("1_2_")) == [Some(1.0), Some(2.0)]
  {
    var xs: seq<nat> := [1, 2];
    EncodesOneTwo(xs);
    LevelsOneTwo(xs);
  }

  lemma SelfTestSizes()
    ensures SplitSizes(Some("10_20_")) == [Some(10), Some(20)]
  {
    var xs: seq<nat> := [10, 20];
    EncodesTenTwenty(xs);
    SizesTenTwenty(xs);
  }

  lemma PairOf<T>(r: seq<T>, a: T, b: T)
    requires |r| == 2 && r[0] == a && r[1] == b
    ensures r == [a, b]
  {
  }

  lemma SelfTestSentinel()
    ensures ToFloat(Str("-")) == None
  {
    TrimKeeps("-");
  }

  lemma SelfTestGrouping()
    ensures ToInt(Str("1,000")) == Some(1000)
  {
    assert Grouped(1000) == "1,000" by {
      assert Fixed(0, 3) == "000";
    }
    GroupedDecodes(1000);
  }

  /** The self-test's date, 2025-09-19, in both layouts. */
  lemma SelfTestDate(dt: DateTime)
    requires dt.year == 2025 && dt.month == 9 && dt.day == 19
    ensures CompactDate(dt) == "20250919" && IsoDate(dt) == "2025-09-19"
  {
    assert Fixed(2, 1) == Fixed(0, 0) + [DigitChar(2)];
    assert Fixed(20, 2) == Fixed(2, 1) + [DigitChar(0)];
    assert Fixed(202, 3) == Fixed(20, 2) + [DigitChar(2)];
    assert Fixed(2025, 4) == Fixed(202, 3) + [DigitChar(5)];
    assert Fixed(0, 1) == Fixed(0, 0) + [DigitChar(0)];
    assert Fixed(9, 2) == Fixed(0, 1) + [DigitChar(9)];
    assert Fixed(1, 1) == Fixed(0, 0) + [DigitChar(1)];
    assert Fixed(19, 2) == Fixed(1, 1) + [DigitChar(9)];
    assert DigitChar(0) == '0' && DigitChar(1) == '1' && DigitChar(2) == '2';
    assert DigitChar(5) == '5' && DigitChar(9) == '9';
  }

  /** The self-test's clock time, 13:30:00. */
  lemma SelfTestTime(dt: DateTime)
    requires dt.hour == 13 && dt.minute == 30 && dt.second == 0
    ensures CompactTime(dt) == "13:30:00" && IsoTime(dt) == "13:30:00"
  {
    assert Fixed(1, 1) == Fixed(0, 0) + [DigitChar(1)];
    assert Fixed(13, 2) == Fixed(1, 1) + [DigitChar(3)];
    assert Fixed(3, 1) == Fixed(0, 0) + [DigitChar(3)];
    assert Fixed(30, 2) == Fixed(3, 1) + [DigitChar(0)];
    assert Fixed(0, 1) == Fixed(0, 0) + [DigitChar(0)];
    assert Fixed(0, 2) == Fixed(0, 1) + [DigitChar(0)];
    assert DigitChar(0) == '0' && DigitChar(1) == '1' && DigitChar(3) == '3';
  }

  lemma SelfTestMoment(dt: DateTime, offset: string)
    requires dt == DateTime(2025, 9, 19, 13, 30, 0)
    ensures ParseDateTime(Some(CompactDate(dt)), Some(CompactTime(dt)), offset) == Some(IsoFormat(dt, offset))
  {
    assert IsValid(dt) by {
      assert DaysInMonth(2025, 9) == 30;
    }
    ParseDateTimeAcceptsValid(dt, offset);
  }

  lemma SelfTestIso(dt: DateTime, offset: string)
    requires dt == DateTime(2025, 9, 19, 13, 30, 0)
    ensures IsoFormat(dt, offset) == "2025-09-19T13:30:00" + offset
  {
    SelfTestDate(dt);
    SelfTestTime(dt);
    assert "2025-09-19" + "T" + "13:30:00" == "2025-09-19T13:30:00";
  }

  /** The self-test's timestamp, whatever the zone's offset. */
  lemma SelfTestTimestamp(offset: string)
    ensures ParseDateTime(Some("20250919"), Some("13:30:00"), offset) == Some("2025-09-19T13:30:00" + offset)
  {
    var dt := DateTime(2025, 9, 19, 13, 30, 0);
    SelfTestMoment(dt, offset);
    SelfTestDate(dt);
    SelfTestTime(dt);
    SelfTestIso(dt, offset);
  }
}
