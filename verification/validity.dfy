/**
 * Validity-time parser: the start and end of a NOTAM's validity read from
 * its `B)` and `C)` items, falling back on standalone ten-digit date-time
 * groups, and rewritten as ISO 8601 text.
 */
module Validity {
  import opened Wrappers
  import opened Scan

  /** A `YYMMDDHHMM` date-time group: ten ASCII digits. */
  predicate IsStamp(d: string) { |d| == 10 && AllDigits(d) }

  /** What the end slot may hold: a date-time group or `PERM`. */
  predicate IsEnd(d: string) { IsStamp(d) || d == "PERM" }

  // ---------------------------------------------------------------------
  // The labelled items
  // ---------------------------------------------------------------------

  /**
   * `B\)\s*(\d{10})` anchored at `p`. Giving back spaces never helps, as a
   * space is not a digit, so the greedy space run is the match.
   */
  function StartAt(s: string, p: nat): (r: Option<string>)
    ensures r.Some? ==> IsStamp(r.value)
  {
    if !LitAt(s, p, "B)") then None
    else
      var q := SpanWhile(s, p + 2, Space);
      if !AllAt(s, q, 10, Digit) then None
      else
        DigitsSlice(s, q, 10);
        Some(s[q..q + 10])
  }

  /** `C\)\s*(\d{10}|PERM)` anchored at `p`, the digits tried before `PERM`. */
  function EndAt(s: string, p: nat): (r: Option<string>)
    ensures r.Some? ==> IsEnd(r.value)
  {
    if !LitAt(s, p, "C)") then None
    else
      var q := SpanWhile(s, p + 2, Space);
      if AllAt(s, q, 10, Digit) then
        DigitsSlice(s, q, 10);
        Some(s[q..q + 10])
      else if LitAt(s, q, "PERM") then Some("PERM")
      else None
  }

  // ---------------------------------------------------------------------
  // The fallback: re.findall(r"\b(\d{10})\b", text)
  // ---------------------------------------------------------------------

  /** A standalone group at `i`: ten digits with a word boundary on each side. */
  predicate StampAt(s: string, i: nat)
  {
    && (i == 0 || (i <= |s| && !IsWordChar(s[i - 1])))
    && AllAt(s, i, 10, Digit)
    && (i + 10 == |s| || (i + 10 < |s| && !IsWordChar(s[i + 10])))
  }

  /**
   * `findall` from `i`: a match resumes the scan after its last digit, a
   * failure one position further on.
   */
  function Tokens(s: string, i: nat): (r: seq<string>)
    ensures forall k :: 0 <= k < |r| ==> IsStamp(r[k])
    decreases |s| - i
  {
    if i + 10 > |s| then []
    else if StampAt(s, i) then
      DigitsSlice(s, i, 10);
      [s[i..i + 10]] + Tokens(s, i + 10)
    else Tokens(s, i + 1)
  }

  /**
   * Reference definition: every position from `i` on tried in turn, each
   * standalone group listed once.
   */
  function AllStamps(s: string, i: nat): (r: seq<string>)
    decreases |s| - i
  {
    if i + 10 > |s| then []
    else (if StampAt(s, i) then [s[i..i + 10]] else []) + AllStamps(s, i + 1)
  }

  /** No standalone group starts inside another one: the digit before it is a word character. */
  lemma NoStampInside(s: string, i: nat, k: nat)
    requires StampAt(s, i) && 0 < k < 10
    ensures !StampAt(s, i + k)
  {
    assert In(s[i + k - 1], Digit);
  }

  /** A stretch with no standalone group contributes nothing to the reference list. */
  lemma {:induction false} AllStampsSkip(s: string, a: nat, b: nat)
    requires a <= b && forall j :: a <= j < b ==> !StampAt(s, j)
    ensures AllStamps(s, a) == AllStamps(s, b)
    decreases b - a
  {
    if a < b && a + 10 <= |s| {
      AllStampsSkip(s, a + 1, b);
    }
  }

  /**
   * Skipping past a match loses nothing: `findall`'s groups are exactly
   * the standalone groups of the text, in order.
   */
  lemma {:induction false} TokensAreAllStamps(s: string, i: nat)
    ensures Tokens(s, i) == AllStamps(s, i)
    decreases |s| - i
  {
    if i + 10 <= |s| {
      if StampAt(s, i) {
        forall j | i + 1 <= j < i + 10 ensures !StampAt(s, j) {
          NoStampInside(s, i, j - i);
        }
        AllStampsSkip(s, i + 1, i + 10);
        TokensAreAllStamps(s, i + 10);
      } else {
        TokensAreAllStamps(s, i + 1);
      }
    }
  }

  /** The search for one standalone group, as `re.search` would run it. */
  function StampMatch(s: string, p: nat): (r: Option<string>)
  {
    if StampAt(s, p) then Some(s[p..p + 10]) else None
  }

  /** The first group `findall` returns is the one `re.search` finds. */
  lemma {:induction false} FirstToken(s: string, i: nat)
    ensures |Tokens(s, i)| >= 1 <==> Leftmost(s, i, StampMatch).Some?
    ensures |Tokens(s, i)| >= 1 ==> Tokens(s, i)[0] == Leftmost(s, i, StampMatch).value.1
    decreases |s| - i
  {
    if i + 10 > |s| {
      forall q | i <= q <= |s| ensures StampMatch(s, q).None? {}
    } else if !StampAt(s, i) {
      FirstToken(s, i + 1);
    }
  }

  // ---------------------------------------------------------------------
  // parse_validity_times
  // ---------------------------------------------------------------------

  /**
   * The raw start and end strings: the leftmost labelled item for each,
   * and only when one of them is missing the standalone groups, the
   * first for an unset start and the second for an unset end.
   */
  function RawTimes(text: string): (r: (Option<string>, Option<string>))
    ensures r.0.Some? ==> IsStamp(r.0.value)
    ensures r.1.Some? ==> IsEnd(r.1.value)
  {
    var b := Leftmost(text, 0, StartAt);
    var c := Leftmost(text, 0, EndAt);
    var start := if b.Some? then Some(b.value.1) else None;
    var end := if c.Some? then Some(c.value.1) else None;
    if start.None? || end.None? then
      var tokens := Tokens(text, 0);
      (if |tokens| >= 1 && start.None? then Some(tokens[0]) else start,
       if |tokens| >= 2 && end.None? then Some(tokens[1]) else end)
    else (start, end)
  }

  /** `YYMMDDHHMM` spliced into `20YY-MM-DDTHH:MM:00`. */
  function Splice(d: string): (r: string)
    requires IsStamp(d)
    ensures |r| == 19
  {
    "20" + d[0..2] + "-" + d[2..4] + "-" + d[4..6] + "T" + d[6..8] + ":" + d[8..10] + ":00"
  }

  /**
   * `convert_to_iso`: nothing for an absent value or `PERM`; otherwise
   * each two-digit field read as a number and formatted back, the year
   * offset by 2000. No calendar check is made.
   */
  function ConvertToIso(dt: Option<string>): (r: Option<string>)
    requires dt.Some? ==> IsEnd(dt.value)
    ensures r.None? <==> (dt.None? || dt.value == "PERM")
    ensures r.Some? ==> r.value == Splice(dt.value)
  {
    if dt.None? then None
    else if dt.value == "PERM" then None
    else
      var d := dt.value;
      var year := DigitsValue(d[..2]);
      var month := DigitsValue(d[2..4]);
      var day := DigitsValue(d[4..6]);
      var hour := DigitsValue(d[6..8]);
      var minute := DigitsValue(d[8..10]);
      YearSplice(d[..2]);
      PadDigitsValue(d[2..4]);
      PadDigitsValue(d[4..6]);
      PadDigitsValue(d[6..8]);
      PadDigitsValue(d[8..10]);
      assert d[..2] == d[0..2];
      Some(Pad(2000 + year, 4) + "-" + Pad(month, 2) + "-" + Pad(day, 2) + "T" + Pad(hour, 2) + ":" + Pad(minute, 2) + ":00")
  }

  /** The year field: `2000 + int(YY)` formatted to four digits is `20YY`. */
  lemma YearSplice(y: string)
    requires |y| == 2 && AllDigits(y)
    ensures Pad(2000 + DigitsValue(y), 4) == "20" + y
  {
    YearValue(y);
    PadDigitsValue("20" + y);
  }

  /** `20YY` read as a number is `2000 + YY`. */
  lemma YearValue(y: string)
    requires |y| == 2 && AllDigits(y)
    ensures AllDigits("20" + y) && |"20" + y| == 4 && DigitsValue("20" + y) == 2000 + DigitsValue(y)
  {
    DigitsValueConcat("20", y);
    var a, p := DigitsValue("20"), Pow10(|y|);
    assert a == 20 by {
      assert "20"[..1] == "2" && "2"[..0] == [];
    }
    assert p == 100;
    assert a * p == 2000;
  }

  /** `parse_validity_times`: the ISO start and end, `None` where absent or permanent. */
  function ParseValidityTimes(text: string): (r: (Option<string>, Option<string>))
    ensures r.0.Some? ==> |r.0.value| == 19
    ensures r.1.Some? ==> |r.1.value| == 19
  {
    var raw := RawTimes(text);
    (ConvertToIso(raw.0), ConvertToIso(raw.1))
  }

  // ---------------------------------------------------------------------
  // Properties
  // ---------------------------------------------------------------------

  /** A labelled item wins over the fallback, for the start and the end alike. */
  lemma LabelledWin(text: string)
    ensures Leftmost(text, 0, StartAt).Some? ==> RawTimes(text).0 == Some(Leftmost(text, 0, StartAt).value.1)
    ensures Leftmost(text, 0, EndAt).Some? ==> RawTimes(text).1 == Some(Leftmost(text, 0, EndAt).value.1)
  {
  }

  /**
   * Without a `B)` item the start is the first standalone group of the
   * text, and without a `C)` item the end is the second; with fewer
   * groups the slot stays empty.
   */
  lemma Fallback(text: string)
    ensures var all := AllStamps(text, 0);
      Leftmost(text, 0, StartAt).None? ==> RawTimes(text).0 == (if |all| >= 1 then Some(all[0]) else None)
    ensures var all := AllStamps(text, 0);
      Leftmost(text, 0, EndAt).None? ==> RawTimes(text).1 == (if |all| >= 2 then Some(all[1]) else None)
  {
    TokensAreAllStamps(text, 0);
  }

  /** `C) PERM` leaves the end open and stops the fallback from filling it. */
  lemma PermanentEnd(text: string)
    requires Leftmost(text, 0, EndAt).Some? && Leftmost(text, 0, EndAt).value.1 == "PERM"
    ensures ParseValidityTimes(text).1 == None
  {
    LabelledWin(text);
  }

  /** The converted times are the spliced raw strings, absent or permanent ones giving nothing. */
  lemma TimesAreSpliced(text: string)
    ensures var raw, r := RawTimes(text), ParseValidityTimes(text);
      && (r.0.Some? <==> raw.0.Some?)
      && (r.0.Some? ==> r.0.value == Splice(raw.0.value))
      && (r.1.Some? <==> raw.1.Some? && raw.1.value != "PERM")
      && (r.1.Some? ==> r.1.value == Splice(raw.1.value))
  {
  }

  /** `B) ` and a group at `p` are read as that start. */
  lemma StartAtLaid(s: string, p: nat, x: string)
    requires IsStamp(x) && LitAt(s, p, "B) ") && p + 13 <= |s| && s[p + 3..p + 13] == x
    ensures StartAt(s, p) == Some(x)
  {
    assert s[p] == 'B' && s[p + 1] == ')' && s[p + 2] == ' ';
    forall i | 0 <= i < 10 ensures s[p + 3 + i] == x[i] {
      assert s[p + 3..p + 13][i] == s[p + 3 + i];
    }
    assert s[p..p + 2] == "B)";
    assert In(s[p + 2], Space) && !In(s[p + 3], Space);
    SpanWhileExact(s, p + 2, p + 3, Space);
    assert AllAt(s, p + 3, 10, Digit);
  }

  /** `C) ` and a group at `p` are read as that end. */
  lemma EndAtLaid(s: string, p: nat, y: string)
    requires IsStamp(y) && LitAt(s, p, "C) ") && p + 13 <= |s| && s[p + 3..p + 13] == y
    ensures EndAt(s, p) == Some(y)
  {
    assert s[p] == 'C' && s[p + 1] == ')' && s[p + 2] == ' ';
    forall i | 0 <= i < 10 ensures s[p + 3 + i] == y[i] {
      assert s[p + 3..p + 13][i] == s[p + 3 + i];
    }
    assert s[p..p + 2] == "C)";
    assert In(s[p + 2], Space) && !In(s[p + 3], Space);
    SpanWhileExact(s, p + 2, p + 3, Space);
    assert AllAt(s, p + 3, 10, Digit);
  }

  /** The layout of `B) x C) y` as slices. */
  lemma LabelledLaid(x: string, y: string)
    requires IsStamp(x)
    ensures var s := "B) " + x + " C) " + y;
      && |s| == 17 + |y| && s[0..3] == "B) " && s[3..13] == x && s[13] == ' '
      && s[14..17] == "C) " && s[17..] == y
  {
  }

  /** The leftmost `B)` item of `B) x C) y` is the first one, whatever `y` is. */
  lemma LabelledStart(x: string, y: string)
    requires IsStamp(x)
    ensures Leftmost("B) " + x + " C) " + y, 0, StartAt) == Some((0, x))
  {
    var s := "B) " + x + " C) " + y;
    LabelledLaid(x, y);
    StartAtLaid(s, 0, x);
    LeftmostHit(s, 0, StartAt);
  }

  /** No `C)` item of `B) x C) y` starts before offset 14: nothing there reads `C`. */
  lemma NoEndBefore(x: string, y: string)
    requires IsStamp(x)
    ensures forall p :: 0 <= p < 14 ==> EndAt("B) " + x + " C) " + y, p).None?
  {
    var s := "B) " + x + " C) " + y;
    LabelledLaid(x, y);
    forall p | 0 <= p < 14 ensures EndAt(s, p).None? {
      if p < 3 {
        assert s[p] == s[0..3][p];
      } else if p < 13 {
        assert s[p] == s[3..13][p - 3];
      }
    }
  }

  /** The leftmost `C)` item of `B) x C) y` is at offset 14. */
  lemma LabelledEnd(x: string, y: string)
    requires IsStamp(x) && IsStamp(y)
    ensures Leftmost("B) " + x + " C) " + y, 0, EndAt) == Some((14, y))
  {
    var s := "B) " + x + " C) " + y;
    LabelledLaid(x, y);
    NoEndBefore(x, y);
    LeftmostSkip(s, 0, 14, EndAt);
    EndAtLaid(s, 14, y);
    LeftmostHit(s, 14, EndAt);
  }

  /**
   * `C)`, any spaces and `PERM` at `p` are read as a permanent end: PERM
   * starts with a letter, so the ten-digit alternative cannot match there.
   */
  lemma EndAtPerm(s: string, p: nat)
    requires LitAt(s, p, "C)") && LitAt(s, SpanWhile(s, p + 2, Space), "PERM")
    ensures EndAt(s, p) == Some("PERM")
  {
    var q := SpanWhile(s, p + 2, Space);
    assert s[q] == s[q..q + 4][0] == 'P';
  }

  /** A text opening with `C) PERM` has no end time, whatever follows. */
  lemma PermanentAtStart(rest: string)
    ensures ParseValidityTimes("C) PERM" + rest).1 == None
  {
    var s := "C) PERM" + rest;
    assert s[0..2] == "C)" && s[2] == ' ' && s[3..7] == "PERM";
    SpanWhileExact(s, 2, 3, Space);
    EndAtPerm(s, 0);
    LeftmostHit(s, 0, EndAt);
    PermanentEnd(s);
  }

  /** The leftmost `C)` item of `B) x C) PERM` is the permanent one at offset 14. */
  lemma PermanentLabelledEnd(x: string)
    requires IsStamp(x)
    ensures Leftmost("B) " + x + " C) " + "PERM", 0, EndAt) == Some((14, "PERM"))
  {
    var s := "B) " + x + " C) " + "PERM";
    LabelledLaid(x, "PERM");
    NoEndBefore(x, "PERM");
    assert s[14..16] == "C)" && s[16] == ' ' && s[17..21] == "PERM";
    SpanWhileExact(s, 16, 17, Space);
    EndAtPerm(s, 14);
    LeftmostSkip(s, 0, 14, EndAt);
    LeftmostHit(s, 14, EndAt);
  }

  /** `B) x C) PERM`: the start is `x` spliced and the end stays open. */
  lemma PermanentPair(x: string)
    requires IsStamp(x)
    ensures ParseValidityTimes("B) " + x + " C) PERM") == (Some(Splice(x)), None)
  {
    var s := "B) " + x + " C) PERM";
    assert s == "B) " + x + " C) " + "PERM";
    LabelledStart(x, "PERM");
    PermanentLabelledEnd(x);
    assert RawTimes(s) == (Some(x), Some("PERM"));
  }

  /** Round trip: the text `B) x C) y` gives back `x` and `y`, the fallback unused. */
  lemma LabelledPair(x: string, y: string)
    requires IsStamp(x) && IsStamp(y)
    ensures RawTimes("B) " + x + " C) " + y) == (Some(x), Some(y))
  {
    LabelledStart(x, y);
    LabelledEnd(x, y);
  }

  /** The layout of `x y` as slices. */
  lemma UnlabelledLaid(x: string, y: string)
    requires IsStamp(x) && IsStamp(y)
    ensures var s := x + " " + y;
      && |s| == 21 && s[0..10] == x && s[10] == ' ' && s[11..21] == y
  {
  }

  /** Two bare groups: the first is the start and the second the end. */
  lemma UnlabelledPair(x: string, y: string)
    requires IsStamp(x) && IsStamp(y)
    ensures RawTimes(x + " " + y) == (Some(x), Some(y))
  {
    var s := x + " " + y;
    UnlabelledLaid(x, y);
    forall p | 0 <= p <= |s| ensures StartAt(s, p).None? && EndAt(s, p).None? {
      if p < 10 {
        assert s[p] == x[p];
      } else if 10 < p < 21 {
        assert s[p] == y[p - 11];
      }
    }
    forall i | 0 <= i < 10 ensures s[i] == x[i] && s[11 + i] == y[i] {
      assert s[0..10][i] == s[i];
      assert s[11..21][i] == s[11 + i];
    }
    assert StampAt(s, 11) && Tokens(s, 21) == [];
    assert Tokens(s, 11) == [y];
    assert !StampAt(s, 10) && Tokens(s, 10) == [y];
    assert StampAt(s, 0);
    assert Tokens(s, 0) == [x, y];
  }

  /** Splicing a group written as its five two-digit fields. */
  lemma SpliceFields(yy: string, mm: string, dd: string, hh: string, mi: string)
    requires |yy| == |mm| == |dd| == |hh| == |mi| == 2
    requires IsStamp(yy + mm + dd + hh + mi)
    ensures Splice(yy + mm + dd + hh + mi) == "20" + yy + "-" + mm + "-" + dd + "T" + hh + ":" + mi + ":00"
  {
    var d := yy + mm + dd + hh + mi;
    assert d[0..2] == yy && d[2..4] == mm && d[4..6] == dd && d[6..8] == hh && d[8..10] == mi;
  }

  /** The example written beside the patterns: `B) 2512160925 C) 2512161200`. */
  lemma Example(text: string)
    requires text == "B) " + ("25" + "12" + "16" + "09" + "25") + " C) " + ("25" + "12" + "16" + "12" + "00")
    ensures ParseValidityTimes(text)
         == (Some("20" + "25" + "-" + "12" + "-" + "16" + "T" + "09" + ":" + "25" + ":00"),
             Some("20" + "25" + "-" + "12" + "-" + "16" + "T" + "12" + ":" + "00" + ":00"))
  {
    LabelledPair("25" + "12" + "16" + "09" + "25", "25" + "12" + "16" + "12" + "00");
    SpliceFields("25", "12", "16", "09", "25");
    SpliceFields("25", "12", "16", "12", "00");
  }
}
