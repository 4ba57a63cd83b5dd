/** Decimal text as the app produces and reads it: `String(n)` /
    `JSON.stringify(n)` for integers, `parseInt(text, 10)`, `padStart(2, "0")`
    and the two time formats of the interface ("hh:mm:ss" and "Hh Mm"). */
module Text {
  import opened Common
  import opened Seqs

  predicate IsDigit(c: char)
  {
    '0' <= c <= '9'
  }

  predicate AllDigits(s: string)
  {
    forall i :: 0 <= i < |s| ==> IsDigit(s[i])
  }

  function DigitChar(d: nat): (c: char)
    requires d < 10
    ensures IsDigit(c)
  {
    ['0', '1', '2', '3', '4', '5', '6', '7', '8', '9'][d]
  }

  function DigitValue(c: char): (d: nat)
    requires IsDigit(c)
    ensures d < 10
  {
    (c as int - '0' as int) as nat
  }

  lemma {:induction false} DigitRoundTrip(d: nat)
    requires d < 10
    ensures DigitValue(DigitChar(d)) == d
  {
  }

  /** Decimal digits of a natural number, without leading zeros. */
  function NatText(n: nat): (s: string)
    ensures |s| >= 1 && AllDigits(s)
    ensures n < 10 <==> |s| == 1
    ensures 10 <= n < 100 ==> |s| == 2
    ensures |s| > 1 ==> s[0] != '0'
  {
    if n < 10 then [DigitChar(n)] else NatText(n / 10) + [DigitChar(n % 10)]
  }

  /** `String(n)` for an integer. */
  function IntText(n: int): (s: string)
    ensures |s| >= 1
  {
    if n < 0 then "-" + NatText(-n) else NatText(n)
  }

  /** The number written by a string of digits (most significant first). */
  function DigitsValue(s: string): nat
    requires AllDigits(s)
  {
    if s == [] then 0 else DigitsValue(s[..|s| - 1]) * 10 + DigitValue(s[|s| - 1])
  }

  lemma {:induction false} DigitsValueNatText(n: nat)
    ensures DigitsValue(NatText(n)) == n
  {
    if n >= 10 {
      var t := NatText(n / 10) + [DigitChar(n % 10)];
      assert t[..|t| - 1] == NatText(n / 10);
      DigitsValueNatText(n / 10);
      DigitRoundTrip(n % 10);
    } else {
      DigitRoundTrip(n);
    }
  }

  /** A leading zero does not change the value. */
  lemma {:induction false} DigitsValueLeadingZero(t: string)
    requires AllDigits(t)
    ensures AllDigits("0" + t) && DigitsValue("0" + t) == DigitsValue(t)
  {
    if t != [] {
      var z := "0" + t;
      assert z[..|z| - 1] == "0" + t[..|t| - 1];
      DigitsValueLeadingZero(t[..|t| - 1]);
    }
  }

  /** The characters parseInt skips before the number: ECMAScript's white
      space (tab, vertical tab, form feed, the byte order mark and the space
      separators) and line terminators. */
  predicate IsSpace(c: char)
  {
    c == ' ' || c == '\t' || c == '\n' || c == '\r' || c == '\U{000B}' || c == '\U{000C}'
    || c == '\U{00A0}' || c == '\U{FEFF}' || c == '\U{1680}' || '\U{2000}' <= c <= '\U{200A}'
    || c == '\U{2028}' || c == '\U{2029}' || c == '\U{202F}' || c == '\U{205F}' || c == '\U{3000}'
  }

  function TrimStart(s: string): (r: string)
    ensures |r| <= |s|
    ensures r == [] || !IsSpace(r[0])
  {
    if s != [] && IsSpace(s[0]) then TrimStart(s[1..]) else s
  }

  /** Length of the run of digits at the start of s. */
  function DigitPrefixLen(s: string): (k: nat)
    ensures k <= |s| && AllDigits(s[..k])
    ensures k < |s| ==> !IsDigit(s[k])
  {
    if s != [] && IsDigit(s[0]) then
      var k := 1 + DigitPrefixLen(s[1..]);
      assert s[..k] == [s[0]] + s[1..][..k - 1];
      k
    else 0
  }

  lemma {:induction false} DigitPrefixLenAll(s: string)
    requires AllDigits(s)
    ensures DigitPrefixLen(s) == |s|
  {
    if s != [] {
      DigitPrefixLenAll(s[1..]);
    }
  }

  /** `parseInt(text, 10)`: skip leading white space, read an optional sign and
      the longest run of decimal digits; `None` is NaN (no digit found). */
  function ParseInt(text: string): (r: Option<int>)
    ensures (forall i :: 0 <= i < |text| ==> !IsDigit(text[i])) ==> r.None?
  {
    var t := TrimStart(text);
    var negative := t != [] && t[0] == '-';
    var body := if t != [] && (t[0] == '-' || t[0] == '+') then t[1..] else t;
    var k := DigitPrefixLen(body);
    if k == 0 then None
    else
      var magnitude: int := DigitsValue(body[..k]);
      assert IsDigit(text[|text| - |body|]) by {
        TrimStartSuffix(text);
        assert body[0] == body[..k][0];
      }
      Some(if negative then -magnitude else magnitude)
  }

  lemma {:induction false} TrimStartSuffix(s: string)
    ensures TrimStart(s) == s[|s| - |TrimStart(s)|..]
  {
    if s != [] && IsSpace(s[0]) {
      TrimStartSuffix(s[1..]);
    }
  }

  /** A run of digits is read as its value. */
  lemma {:induction false} ParseIntDigits(d: string)
    requires |d| > 0 && AllDigits(d)
    ensures ParseInt(d) == Some(DigitsValue(d) as int)
  {
    assert IsDigit(d[0]);
    assert TrimStart(d) == d;
    DigitPrefixLenAll(d);
    assert d[..|d|] == d;
  }

  /** A minus sign followed by a run of digits is read as the negated value. */
  lemma {:induction false} ParseIntNegDigits(d: string)
    requires |d| > 0 && AllDigits(d)
    ensures ParseInt("-" + d) == Some(-(DigitsValue(d) as int))
  {
    var m := "-" + d;
    assert TrimStart(m) == m by {
      assert m[0] == '-';
    }
    assert m[1..] == d;
    assert DigitPrefixLen(d) == |d| by {
      DigitPrefixLenAll(d);
    }
    assert d[..|d|] == d;
  }

  /** What the app writes for a number is read back by parseInt as that number. */
  lemma {:induction false} ParseIntIntText(n: int)
    ensures ParseInt(IntText(n)) == Some(n)
  {
    if n < 0 {
      ParseIntNatText(-n, true);
    } else {
      ParseIntNatText(n, false);
    }
  }

  /** The decimal text of `m`, after a minus sign when `negative`, reads back
      as `m` or its negation. */
  lemma {:induction false} ParseIntNatText(m: nat, negative: bool)
    ensures ParseInt(if negative then "-" + NatText(m) else NatText(m)) == Some(if negative then -(m as int) else m as int)
  {
    DigitsValueNatText(m);
    if negative {
      ParseIntNegDigits(NatText(m));
    } else {
      ParseIntDigits(NatText(m));
    }
  }

  /** Reads back exactly the text IntText writes (JSON.parse of a stored
      number); any other text is a parse failure. */
  function DecodeInt(t: string): (r: Option<int>)
    ensures r.Some? ==> IntText(r.value) == t && ParseInt(t) == r
  {
    match ParseInt(t)
    case Some(n) => if IntText(n) == t then Some(n) else None
    case None => None
  }

  /** JSON text of an integer. */
  function IntFormat(): Format<int>
  {
    Format(IntText, DecodeInt)
  }

  lemma IntFormatLawful()
    ensures Lawful(IntFormat())
  {
    forall n: int ensures DecodeInt(IntText(n)) == Some(n) {
      ParseIntIntText(n);
    }
  }

  /** `n.toString().padStart(2, "0")`. */
  function Pad2(n: nat): (s: string)
    ensures AllDigits(s) && |s| >= 2
    ensures n < 100 ==> |s| == 2
  {
    var t := NatText(n);
    if |t| < 2 then "0" + t else t
  }

  lemma {:induction false} Pad2Value(n: nat)
    ensures DigitsValue(Pad2(n)) == n
  {
    DigitsValueNatText(n);
    if n < 10 {
      DigitsValueLeadingZero(NatText(n));
    }
  }

  /** The "hh:mm:ss" display of a number of seconds (the hours are not bounded
      to two digits). */
  function Clock(seconds: nat): (r: string)
    ensures |r| >= 8 && r[|r| - 3] == ':' && r[|r| - 6] == ':'
    ensures seconds < 360000 ==> |r| == 8
    ensures forall i :: 0 <= i < |r| && i != |r| - 3 && i != |r| - 6 ==> IsDigit(r[i])
  {
    var h, m, s := Pad2(seconds / 3600), Pad2(seconds % 3600 / 60), Pad2(seconds % 60);
    assert Join([h, m, s], ":") == h + ":" + (m + ":" + s);
    h + ":" + (m + ":" + s)
  }

  /** Reads an "hh:mm:ss" display back as seconds. */
  function ClockSeconds(t: string): Option<int>
  {
    var fields := Split(t, ":");
    if |fields| == 3 && AllDigits(fields[0]) && AllDigits(fields[1]) && AllDigits(fields[2])
    then Some(DigitsValue(fields[0]) * 3600 + DigitsValue(fields[1]) * 60 + DigitsValue(fields[2]))
    else None
  }

  lemma {:induction false} NoColon(s: string)
    requires AllDigits(s)
    ensures ':' !in s
  {
    forall i | 0 <= i < |s| ensures s[i] != ':' {
      assert IsDigit(s[i]);
    }
  }

  lemma {:induction false} ClockRoundTrip(seconds: nat)
    ensures ClockSeconds(Clock(seconds)) == Some(seconds)
  {
    Pad2Value(seconds / 3600);
    Pad2Value(seconds % 3600 / 60);
    Pad2Value(seconds % 60);
    ClockReads(Pad2(seconds / 3600), Pad2(seconds % 3600 / 60), Pad2(seconds % 60));
    ClockArithmetic(seconds);
  }

  /** Three digit runs joined with colons read back field by field. */
  lemma {:induction false} ClockReads(h: string, m: string, s: string)
    requires AllDigits(h) && AllDigits(m) && AllDigits(s)
    ensures ClockSeconds(Join([h, m, s], ":")) == Some(DigitsValue(h) * 3600 + DigitsValue(m) * 60 + DigitsValue(s))
  {
    var parts := [h, m, s];
    NoColon(h);
    NoColon(m);
    NoColon(s);
    assert forall i :: 0 <= i < |parts| ==> ':' !in parts[i];
    SplitJoin(parts, ':');
    assert ":" == [':'];
    var fields := Split(Join(parts, ":"), ":");
    assert fields[0] == h && fields[1] == m && fields[2] == s;
  }

  /** Hours, minutes and seconds add back up to the seconds. */
  lemma {:induction false} ClockArithmetic(seconds: nat)
    ensures (seconds / 3600) * 3600 + (seconds % 3600 / 60) * 60 + seconds % 60 == seconds
  {
    var r := seconds % 3600;
    assert seconds == (seconds / 3600) * 3600 + r;
    assert r == (r / 60) * 60 + r % 60;
    assert seconds == ((seconds / 3600) * 60 + r / 60) * 60 + r % 60;
    assert seconds % 60 == r % 60;
  }

  /** The "Hh Mm" / "Mm" display of a number of minutes. */
  function Duration(minutes: nat): (r: string)
    ensures |r| >= 2 && r[|r| - 1] == 'm'
    ensures minutes < 60 ==> |r| <= 3
  {
    var hours := minutes / 60;
    if hours > 0 then NatText(hours) + "h " + NatText(minutes % 60) + "m"
    else NatText(minutes % 60) + "m"
  }

  /** An hours part is shown exactly from 60 minutes on. */
  lemma {:induction false} DurationShowsHours(minutes: nat)
    ensures minutes >= 60 <==> 'h' in Duration(minutes)
  {
    var mm := NatText(minutes % 60);
    if minutes < 60 {
      assert Duration(minutes) == mm + "m";
      assert forall c :: c in mm ==> IsDigit(c);
    } else {
      var hh := NatText(minutes / 60);
      assert Duration(minutes)[|hh|] == 'h';
    }
  }

  /** Reads a "Hh Mm" / "Mm" display back as minutes. */
  function DurationMinutes(t: string): Option<int>
  {
    if t == [] || t[|t| - 1] != 'm' then None
    else
      var k := IndexFrom(t, "h ", 0);
      if k == |t| then
        (if AllDigits(t[..|t| - 1]) then Some(DigitsValue(t[..|t| - 1])) else None)
      else if k + 2 <= |t| - 1 && AllDigits(t[..k]) && AllDigits(t[k + 2..|t| - 1]) then
        Some(DigitsValue(t[..k]) * 60 + DigitsValue(t[k + 2..|t| - 1]))
      else None
  }

  lemma {:induction false} DurationRoundTrip(minutes: nat)
    ensures DurationMinutes(Duration(minutes)) == Some(minutes)
  {
    if minutes / 60 > 0 {
      DurationRoundTripHours(minutes);
    } else {
      DurationRoundTripMinutes(minutes);
    }
  }

  lemma {:induction false} DurationRoundTripHours(minutes: nat)
    requires minutes / 60 > 0
    ensures DurationMinutes(Duration(minutes)) == Some(minutes)
  {
    var hh, mm := NatText(minutes / 60), NatText(minutes % 60);
    assert Duration(minutes) == hh + "h " + mm + "m";
    DurationReadsHours(hh, mm);
    DigitsValueNatText(minutes / 60);
    DigitsValueNatText(minutes % 60);
    HoursMinutes(minutes);
  }

  lemma {:induction false} HoursMinutes(minutes: nat)
    ensures (minutes / 60) * 60 + minutes % 60 == minutes
  {
  }

  /** An "Hh Mm" display with digit runs for the hours and minutes reads
      back as hours times sixty plus minutes. */
  lemma {:induction false} DurationReadsHours(hh: string, mm: string)
    requires |hh| >= 1 && AllDigits(hh) && |mm| >= 1 && AllDigits(mm)
    ensures DurationMinutes(hh + "h " + mm + "m") == Some(DigitsValue(hh) * 60 + DigitsValue(mm))
  {
    var t := hh + "h " + mm + "m";
    assert t[..|hh|] == hh;
    assert t[|hh|..|hh| + 2] == "h ";
    forall j | 0 <= j < |hh| ensures t[j] != 'h' {
      assert t[j] == hh[j] && IsDigit(hh[j]);
    }
    IndexFromFirst(t, "h ", |hh|, 0);
    assert t[|hh| + 2..|t| - 1] == mm;
    assert t[|t| - 1] == 'm';
  }

  lemma {:induction false} DurationRoundTripMinutes(minutes: nat)
    requires minutes / 60 == 0
    ensures DurationMinutes(Duration(minutes)) == Some(minutes)
  {
    var mm := NatText(minutes % 60);
    DigitsValueNatText(minutes % 60);
    var t := Duration(minutes);
    assert t == mm + "m";
    assert t[..|t| - 1] == mm;
    forall j | 0 <= j < |t| ensures t[j] != 'h' {
      if j < |t| - 1 {
        assert t[j] == mm[j];
      }
    }
    IndexFromNone(t, "h ", 0);
  }
}
