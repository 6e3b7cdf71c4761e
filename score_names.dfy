/**
 * Parsing of correct-score column names ("R:h-a") and the "h-a" labels of
 * the top correct scores (app.py, lines 42-48 and 84).  Python's str.split,
 * str.strip and int() are written out for the characters they look at.
 */
module ScoreNames {
  import opened Wrappers

  // ---------------------------------------------------------------------
  // str.split(sep)
  // ---------------------------------------------------------------------

  /** The pieces of s between occurrences of sep, as Python's s.split(sep). */
  function Split(s: string, sep: char): (parts: seq<string>)
    ensures |parts| >= 1
    ensures forall i :: 0 <= i < |parts| ==> sep !in parts[i]
    decreases |s|
  {
    if s == [] then [[]]
    else
      var rest := Split(s[1..], sep);
      if s[0] == sep then [[]] + rest
      else [[s[0]] + rest[0]] + rest[1..]
  }

  /** Python's sep.join(parts): the inverse of Split. */
  function Join(parts: seq<string>, sep: char): string
    requires |parts| >= 1
  {
    if |parts| == 1 then parts[0] else parts[0] + [sep] + Join(parts[1..], sep)
  }

  /** Splitting loses nothing: joining the pieces gives the text back. */
  lemma {:induction false} SplitJoin(s: string, sep: char)
    ensures Join(Split(s, sep), sep) == s
  {
    if s != [] {
      var rest := Split(s[1..], sep);
      SplitJoin(s[1..], sep);
      if s[0] == sep {
        assert ([[]] + rest)[1..] == rest;
      } else if |rest| > 1 {
        var parts := [[s[0]] + rest[0]] + rest[1..];
        assert parts[1..] == rest[1..];
        assert Join(rest, sep) == rest[0] + [sep] + Join(rest[1..], sep);
        assert s == [s[0]] + s[1..];
      } else {
        assert s == [s[0]] + s[1..];
      }
    }
  }

  /** A text without the separator is a single piece. */
  lemma {:induction false} SplitNoSeparator(s: string, sep: char)
    requires sep !in s
    ensures Split(s, sep) == [s]
  {
    if s != [] {
      SplitNoSeparator(s[1..], sep);
      assert s == [s[0]] + s[1..];
    }
  }

  /** The first piece ends at the first separator. */
  lemma {:induction false} SplitAtFirst(a: string, b: string, sep: char)
    requires sep !in a
    ensures Split(a + [sep] + b, sep) == [a] + Split(b, sep)
  {
    if a == [] {
      assert [sep] + b == [sep] + b;
      assert ([sep] + b)[1..] == b;
    } else {
      SplitAtFirst(a[1..], b, sep);
      assert (a + [sep] + b)[1..] == a[1..] + [sep] + b;
      assert a == [a[0]] + a[1..];
    }
  }

  // ---------------------------------------------------------------------
  // int(text) for a base-10 literal
  // ---------------------------------------------------------------------

  predicate IsDigit(c: char) { '0' <= c <= '9' }

  /**
   * The white space int() strips: ASCII tab to carriage return and space, and
   * the non-ASCII characters str.isspace accepts. The ASCII separators
   * \x1c-\x1f pass through int() unchanged and are rejected as non-digits.
   */
  predicate IsSpace(c: char)
  {
    || '\t' <= c <= '\r'
    || c == ' ' || c == '\U{85}' || c == '\U{A0}' || c == '\U{1680}'
    || '\U{2000}' <= c <= '\U{200A}'
    || c == '\U{2028}' || c == '\U{2029}' || c == '\U{202F}' || c == '\U{205F}' || c == '\U{3000}'
  }

  function StripLeading(s: string): (r: string)
    ensures |r| <= |s| && r == s[|s| - |r|..]
    ensures r != [] ==> !IsSpace(r[0])
    ensures forall i :: 0 <= i < |s| - |r| ==> IsSpace(s[i])
  {
    if s != [] && IsSpace(s[0]) then StripLeading(s[1..]) else s
  }

  function StripTrailing(s: string): (r: string)
    ensures |r| <= |s| && r == s[..|r|]
    ensures r != [] ==> !IsSpace(r[|r| - 1])
    ensures forall i :: |r| <= i < |s| ==> IsSpace(s[i])
  {
    if s != [] && IsSpace(s[|s| - 1]) then StripTrailing(s[..|s| - 1]) else s
  }

  /**
   * The white space int() skips before and after the number; narrower than
   * Python's str.strip(), which also drops \x1c-\x1f.
   */
  function Strip(s: string): string
  {
    StripTrailing(StripLeading(s))
  }

  /** A base-10 digit string as int() accepts it: digits, with single underscores between digits. */
  predicate DigitRun(s: string)
  {
    s != [] && IsDigit(s[0]) && DigitTail(s[1..])
  }

  /** What may follow a digit in a digit run. */
  predicate DigitTail(t: string)
  {
    || t == []
    || (IsDigit(t[0]) && DigitTail(t[1..]))
    || (|t| >= 2 && t[0] == '_' && IsDigit(t[1]) && DigitTail(t[2..]))
  }

  lemma {:induction false} DigitsAreDigitTail(t: string)
    requires forall i :: 0 <= i < |t| ==> IsDigit(t[i])
    ensures DigitTail(t)
  {
    if t != [] {
      DigitsAreDigitTail(t[1..]);
    }
  }

  /** The number a digit run denotes; underscores are skipped. */
  function DigitsValue(s: string): nat
  {
    if s == [] then 0
    else
      var c := s[|s| - 1];
      if IsDigit(c) then 10 * DigitsValue(s[..|s| - 1]) + (c as int - '0' as int)
      else DigitsValue(s[..|s| - 1])
  }

  /** int() of a text with no surrounding white space: an optional sign, then a digit run. */
  function ParseSigned(t: string): (r: Option<int>)
    ensures r.Some? && r.value < 0 ==> t != [] && t[0] == '-'
  {
    if t == [] then None
    else if t[0] == '+' then (if DigitRun(t[1..]) then Some(DigitsValue(t[1..]) as int) else None)
    else if t[0] == '-' then (if DigitRun(t[1..]) then Some(-(DigitsValue(t[1..]) as int)) else None)
    else if DigitRun(t) then Some(DigitsValue(t) as int)
    else None
  }

  /** Python's int(s): None where int() raises ValueError. */
  function ParseInt(s: string): (r: Option<int>)
    ensures r.Some? && r.value < 0 ==> '-' in s
  {
    var r := ParseSigned(Strip(s));
    assert r.Some? && r.value < 0 ==> s[|s| - |StripLeading(s)|] == '-';
    r
  }

  // ---------------------------------------------------------------------
  // Score column names and score labels
  // ---------------------------------------------------------------------

  /**
   * The (home goals, away goals) a result column name stands for: the first
   * two '-'-separated parts of the text between the first and the second ':'.
   * None where the source's try block raises ValueError or IndexError.
   */
  function ParseScoreName(name: string): Option<(nat, nat)>
  {
    var fields := Split(name, ':');
    if |fields| < 2 then None else ParseGoals(fields[1])
  }

  /** The goal counts in the text after "R:"; '-' cannot reach int(), so neither is negative. */
  function ParseGoals(text: string): Option<(nat, nat)>
  {
    var goals := Split(text, '-');
    if |goals| < 2 then None
    else
      match (ParseInt(goals[0]), ParseInt(goals[1]))
      case (Some(h), Some(a)) => Some((h, a))
      case _ => None
  }

  function DigitChar(d: nat): char
    requires d < 10
  {
    ('0' as int + d) as char
  }

  /** Python's str(n) for a non-negative integer. */
  function NatToString(n: nat): (s: string)
    ensures s != [] && forall i :: 0 <= i < |s| ==> IsDigit(s[i])
    ensures |s| > 1 ==> s[0] != '0'
  {
    if n < 10 then [DigitChar(n)] else NatToString(n / 10) + [DigitChar(n % 10)]
  }

  /** The label f"{hg}-{ag}" of a correct score (app.py:84). */
  function ScoreLabel(hg: nat, ag: nat): string
  {
    NatToString(hg) + "-" + NatToString(ag)
  }

  lemma {:induction false} NatToStringValue(n: nat)
    ensures DigitsValue(NatToString(n)) == n
  {
    var s := NatToString(n);
    if n >= 10 {
      NatToStringValue(n / 10);
      assert s[..|s| - 1] == NatToString(n / 10);
    }
  }

  /** A plain digit string has no white space to strip. */
  lemma StripDigits(s: string)
    requires s != [] && forall i :: 0 <= i < |s| ==> IsDigit(s[i])
    ensures Strip(s) == s
  {
    assert !IsSpace(s[0]);
    assert StripLeading(s) == s;
    assert !IsSpace(s[|s| - 1]);
  }

  /** int() reads an unpadded text as it stands. */
  lemma ParseIntUnpadded(s: string)
    requires Strip(s) == s
    ensures ParseInt(s) == ParseSigned(s)
  {
  }

  /** An unsigned digit run is read as its value. */
  lemma ParseSignedOfDigitRun(s: string)
    requires DigitRun(s) && s[0] != '+' && s[0] != '-'
    ensures ParseSigned(s) == Some(DigitsValue(s) as int)
  {
  }

  /** A non-empty all-digit string is a digit run. */
  lemma DigitRunOfDigits(s: string)
    requires s != [] && forall i :: 0 <= i < |s| ==> IsDigit(s[i])
    ensures DigitRun(s) && s[0] != '+' && s[0] != '-'
  {
    DigitsAreDigitTail(s[1..]);
  }

  /** int() of a plain digit string is its value. */
  lemma ParseIntOfDigits(s: string)
    requires s != [] && forall i :: 0 <= i < |s| ==> IsDigit(s[i])
    ensures ParseInt(s) == Some(DigitsValue(s) as int)
  {
    calc {
      ParseInt(s);
    == { StripDigits(s); ParseIntUnpadded(s); }
      ParseSigned(s);
    == { DigitRunOfDigits(s); ParseSignedOfDigitRun(s); }
      Some(DigitsValue(s) as int);
    }
  }

  /** int(str(n)) == n. */
  lemma ParseIntNatToString(n: nat)
    ensures ParseInt(NatToString(n)) == Some(n)
  {
    ParseIntOfDigits(NatToString(n));
    NatToStringValue(n);
  }

  /** The score text of prefix:segment[:tail] is segment. */
  lemma {:induction false} ScoreTextOf(prefix: string, segment: string, tail: string)
    requires ':' !in prefix && ':' !in segment
    ensures ParseScoreName(prefix + ":" + segment) == ParseGoals(segment)
    ensures ParseScoreName(prefix + ":" + segment + ":" + tail) == ParseGoals(segment)
  {
    assert prefix + ":" + segment == prefix + [':'] + segment;
    SplitAtFirst(prefix, segment, ':');
    SplitNoSeparator(segment, ':');
    assert prefix + ":" + segment + ":" + tail == prefix + [':'] + (segment + [':'] + tail);
    SplitAtFirst(prefix, segment + [':'] + tail, ':');
    SplitAtFirst(segment, tail, ':');
  }

  /** x-y and x-y-rest split into x and y first. */
  lemma {:induction false} GoalPieces(x: string, y: string, rest: string)
    requires '-' !in x && '-' !in y
    ensures Split(x + "-" + y, '-') == [x, y]
    ensures var parts := Split(x + "-" + y + "-" + rest, '-'); |parts| >= 2 && parts[0] == x && parts[1] == y
  {
    assert x + "-" + y == x + ['-'] + y;
    SplitAtFirst(x, y, '-');
    SplitNoSeparator(y, '-');
    assert x + "-" + y + "-" + rest == x + ['-'] + (y + ['-'] + rest);
    SplitAtFirst(x, y + ['-'] + rest, '-');
    SplitAtFirst(y, rest, '-');
  }

  /** The goal text h-a[-rest] of two decimal numerals gives back the two numbers. */
  lemma {:induction false} GoalsOfNumerals(hg: nat, ag: nat, rest: string)
    ensures ParseGoals(NatToString(hg) + "-" + NatToString(ag)) == Some((hg, ag))
    ensures ParseGoals(NatToString(hg) + "-" + NatToString(ag) + "-" + rest) == Some((hg, ag))
  {
    var h, a := NatToString(hg), NatToString(ag);
    assert '-' !in h && '-' !in a;
    ParseIntNatToString(hg);
    ParseIntNatToString(ag);
    GoalPieces(h, a, rest);
  }

  /** A label parses back to its score once the "R:" prefix is put in front. */
  lemma ScoreLabelRoundTrip(hg: nat, ag: nat)
    ensures ParseScoreName("R:" + ScoreLabel(hg, ag)) == Some((hg, ag))
  {
    var h, a := NatToString(hg), NatToString(ag);
    assert ':' !in h && ':' !in a;
    assert "R:" + ScoreLabel(hg, ag) == "R" + ":" + ScoreLabel(hg, ag);
    ScoreTextOf("R", ScoreLabel(hg, ag), "");
    GoalsOfNumerals(hg, ag, "");
  }

  /** k zero digits. */
  function Zeros(k: nat): (z: string)
    ensures |z| == k && forall i :: 0 <= i < k ==> z[i] == '0'
  {
    if k == 0 then [] else Zeros(k - 1) + ['0']
  }

  lemma {:induction false} ZerosValue(k: nat)
    ensures DigitsValue(Zeros(k)) == 0
  {
    if k > 0 {
      assert Zeros(k)[..k - 1] == Zeros(k - 1);
      ZerosValue(k - 1);
    }
  }

  /** Leading zeros add nothing to the value of a digit text. */
  lemma {:induction false} ZerosPrefixValue(k: nat, s: string)
    ensures DigitsValue(Zeros(k) + s) == DigitsValue(s)
  {
    if s == [] {
      assert Zeros(k) + s == Zeros(k);
      ZerosValue(k);
    } else {
      var t := Zeros(k) + s;
      assert t[|t| - 1] == s[|s| - 1];
      assert t[..|t| - 1] == Zeros(k) + s[..|s| - 1];
      ZerosPrefixValue(k, s[..|s| - 1]);
    }
  }

  /** A zero-padded numeral is a non-empty text of digits only. */
  lemma PaddedNumeralDigits(k: nat, n: nat)
    ensures var t := Zeros(k) + NatToString(n);
      t != [] && forall i :: 0 <= i < |t| ==> IsDigit(t[i])
  {
    var z, d := Zeros(k), NatToString(n);
    forall i | 0 <= i < |z + d| ensures IsDigit((z + d)[i]) {
      if i < k {
        assert (z + d)[i] == z[i] == '0';
      } else {
        assert (z + d)[i] == d[i - k];
      }
    }
  }

  /** A goal count written with any number of leading zeros reads as the count itself. */
  lemma LeadingZeroIgnored(k: nat, n: nat)
    ensures ParseInt(Zeros(k) + NatToString(n)) == Some(n as int)
  {
    var t := Zeros(k) + NatToString(n);
    calc {
      ParseInt(t);
    == { PaddedNumeralDigits(k, n); ParseIntOfDigits(t); }
      Some(DigitsValue(t) as int);
    == { ZerosPrefixValue(k, NatToString(n)); NatToStringValue(n); }
      Some(n as int);
    }
  }

  /** Two dash-free pieces that int() reads give the pair of their values. */
  lemma GoalsOfPieces(x: string, y: string, hg: nat, ag: nat)
    requires '-' !in x && '-' !in y
    requires ParseInt(x) == Some(hg as int) && ParseInt(y) == Some(ag as int)
    ensures ParseGoals(x + "-" + y) == Some((hg, ag))
  {
    GoalPieces(x, y, "");
  }

  /** The column name "R:h-a" is the prefix "R", a colon and the score text "h-a". */
  lemma LabelSegment(h: string, a: string)
    ensures "R:" + h + "-" + a == "R" + ":" + (h + "-" + a)
  {
  }

  /** A goal pair written with zero-padded counts reads as the plain counts. */
  lemma PaddedGoalsParse(j: nat, hg: nat, k: nat, ag: nat)
    ensures var seg := (Zeros(j) + NatToString(hg)) + "-" + (Zeros(k) + NatToString(ag));
      ':' !in seg && ParseGoals(seg) == Some((hg, ag))
  {
    var h, a := Zeros(j) + NatToString(hg), Zeros(k) + NatToString(ag);
    PaddedNumeralDigits(j, hg);
    PaddedNumeralDigits(k, ag);
    assert ':' !in h && '-' !in h && ':' !in a && '-' !in a;
    LeadingZeroIgnored(j, hg);
    LeadingZeroIgnored(k, ag);
    GoalsOfPieces(h, a, hg, ag);
  }

  /** Zero-padded goal counts in a column name read as the plain counts. */
  lemma PaddedLabelParses(j: nat, hg: nat, k: nat, ag: nat)
    ensures ParseScoreName("R:" + (Zeros(j) + NatToString(hg)) + "-" + (Zeros(k) + NatToString(ag))) == Some((hg, ag))
  {
    var h, a := Zeros(j) + NatToString(hg), Zeros(k) + NatToString(ag);
    PaddedGoalsParse(j, hg, k, ag);
    LabelSegment(h, a);
    ScoreTextOf("R", h + "-" + a, "");
  }

  /** Parts after the second '-' do not matter. */
  lemma ExtraGoalPartsIgnored(hg: nat, ag: nat, rest: string)
    requires ':' !in rest
    ensures ParseScoreName("R:" + ScoreLabel(hg, ag) + "-" + rest) == Some((hg, ag))
  {
    var h, a := NatToString(hg), NatToString(ag);
    assert ':' !in h && ':' !in a;
    var seg := ScoreLabel(hg, ag) + "-" + rest;
    assert "R:" + ScoreLabel(hg, ag) + "-" + rest == "R" + ":" + seg;
    ScoreTextOf("R", seg, "");
    GoalsOfNumerals(hg, ag, rest);
  }

  /** Only the text between the first and the second ':' is read. */
  lemma TextAfterSecondColonIgnored(prefix: string, segment: string, tail: string)
    requires ':' !in prefix && ':' !in segment
    ensures ParseScoreName(prefix + ":" + segment + ":" + tail) == ParseScoreName(prefix + ":" + segment)
  {
    ScoreTextOf(prefix, segment, tail);
  }

  /** A name whose score text has no '-' is skipped (ValueError or IndexError in the source). */
  lemma SingleGoalPartRejected(prefix: string, segment: string)
    requires ':' !in prefix && ':' !in segment && '-' !in segment
    ensures ParseScoreName(prefix + ":" + segment) == None
  {
    ScoreTextOf(prefix, segment, "");
    SplitNoSeparator(segment, '-');
  }

  /** int() does not skip a leading ASCII separator \x1c: every text starting with one is rejected. */
  lemma SeparatorNotStripped(s: string)
    requires s != [] && s[0] == '\U{1C}'
    ensures ParseInt(s) == None
  {
    assert !IsSpace(s[0]);
    assert StripLeading(s) == s;
    var t := Strip(s);
    assert t != [] && t[0] == '\U{1C}';
    assert !DigitRun(t);
  }
}
