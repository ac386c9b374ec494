/**
 * Q-line decoder: `Q) FIR/QCODE/TRAFFIC/PURPOSE/SCOPE/LOWER/UPPER/COORDS RADIUS`
 * found anywhere in a NOTAM text, decoded into subject, condition and
 * category, with absent numeric groups read as 0.
 */
module QLine {
  import opened Wrappers
  import opened Scan
  import Coordinates

  /** The six categories a Q-code subject is classified into. */
  datatype Category = Runway | Taxiway | Aerodrome | Obstruction | Airspace | Other

  /** The named groups of the Q-line pattern; an optional group that did not take part is None. */
  datatype Groups = Groups(
    fir: string, code: string, traffic: string, purpose: string, scope: string,
    lower: Option<string>, upper: Option<string>, coords: Option<string>, radius: Option<string>)

  /** The decoded Q-line. */
  datatype QLine = QLine(
    fir: string, qCode: string, subjectCode: string, conditionCode: string,
    traffic: string, purpose: string, scope: string,
    lowerFl: nat, upperFl: nat, rawCoords: Option<string>, radiusNm: nat,
    category: Category)

  predicate ThreeDigits(d: Option<string>) { d.Some? ==> |d.value| == 3 && AllDigits(d.value) }

  /** What any successful match captures. */
  predicate GroupsOk(g: Groups)
  {
    && |g.fir| == 4 && AllIn(g.fir, Upper)
    && |g.code| == 5 && g.code[0] == 'Q' && AllIn(g.code[1..], Upper)
    && AllIn(g.traffic, Traffic) && AllIn(g.purpose, Purpose) && AllIn(g.scope, Scope)
    && (g.lower.Some? <==> g.upper.Some?) && ThreeDigits(g.lower) && ThreeDigits(g.upper)
    && (g.coords.Some? ==> |g.coords.value| == 11 && Coordinates.TokenAt(g.coords.value, 0))
    && ThreeDigits(g.radius)
  }

  /** `[A-Z]{4}/Q[A-Z]{4}/` at `p`. */
  predicate HeadAt(s: string, p: nat)
  {
    && AllAt(s, p, 4, Upper) && At(s, p + 4, '/')
    && At(s, p + 5, 'Q') && AllAt(s, p + 6, 4, Upper) && At(s, p + 10, '/')
  }

  /**
   * A greedy `[...]*` run from `k` that must be followed by `/`: the end of
   * the run, or None. Giving back characters of the run would put a run
   * character where the `/` must be, so greedy is the only way to match.
   */
  function SlashField(s: string, k: nat, cl: Class): (r: Option<nat>)
    requires k <= |s|
    ensures r.Some? ==> k <= r.value < |s| && s[r.value] == '/' && AllIn(s[k..r.value], cl)
  {
    var e := SpanWhile(s, k, cl);
    assert forall i :: 0 <= i < e - k ==> s[k..e][i] == s[k + i];
    if At(s, e, '/') then Some(e) else None
  }

  /** The optional groups after `SCOPE/`: `(\d{3}/\d{3})?(/COORDS)?(\d{3})?`, each taken when present. */
  function TailAt(s: string, a: nat): (r: (Option<string>, Option<string>, Option<string>, Option<string>))
    ensures r.0.Some? <==> r.1.Some?
    ensures r.0.Some? <==> AllAt(s, a, 3, Digit) && At(s, a + 3, '/') && AllAt(s, a + 4, 3, Digit)
    ensures r.0.Some? ==> r.0.value == s[a..a + 3] && r.1.value == s[a + 4..a + 7]
    ensures var c := if r.0.Some? then a + 7 else a;
            && (r.2.Some? <==> At(s, c, '/') && Coordinates.TokenAt(s, c + 1))
            && (r.2.Some? ==> r.2.value == s[c + 1..c + 12])
    ensures var d := (if r.0.Some? then a + 7 else a) + (if r.2.Some? then 12 else 0);
            && (r.3.Some? <==> AllAt(s, d, 3, Digit))
            && (r.3.Some? ==> r.3.value == s[d..d + 3])
    ensures ThreeDigits(r.0) && ThreeDigits(r.1) && ThreeDigits(r.3)
    ensures r.2.Some? ==> |r.2.value| == 11 && Coordinates.TokenAt(r.2.value, 0)
  {
    var hasAlt := AllAt(s, a, 3, Digit) && At(s, a + 3, '/') && AllAt(s, a + 4, 3, Digit);
    var c := if hasAlt then a + 7 else a;
    var hasCoords := At(s, c, '/') && Coordinates.TokenAt(s, c + 1);
    var d := if hasCoords then c + 12 else c;
    var hasRadius := AllAt(s, d, 3, Digit);
    assert hasCoords ==> Coordinates.TokenAt(s[c + 1..c + 12], 0) by {
      if hasCoords {
        var token := s[c + 1..c + 12];
        forall i | 0 <= i < 11 ensures token[i] == s[c + 1 + i] { }
      }
    }
    (if hasAlt then Some(s[a..a + 3]) else None,
     if hasAlt then Some(s[a + 4..a + 7]) else None,
     if hasCoords then Some(s[c + 1..c + 12]) else None,
     if hasRadius then Some(s[d..d + 3]) else None)
  }

  /**
   * The pattern from the FIR onwards, anchored at `p`. Once `SCOPE/` has
   * matched, the rest is optional and the match cannot fail.
   */
  function BodyAt(s: string, p: nat): (r: Option<Groups>)
    ensures r.Some? <==> FieldsAt(s, p).Some?
    ensures r.Some? ==> GroupsOk(r.value)
    ensures r.Some? ==> r.value.fir == s[p..p + 4] && r.value.code == s[p + 5..p + 10]
  {
    match FieldsAt(s, p)
    case None => None
    case Some((t, u, v)) =>
      var tail := TailAt(s, v + 1);
      assert s[p + 5..p + 10][1..] == s[p + 6..p + 10];
      Some(Groups(s[p..p + 4], s[p + 5..p + 10], s[p + 11..t], s[t + 1..u], s[u + 1..v],
                  tail.0, tail.1, tail.2, tail.3))
  }

  /** The mandatory part `FIR/QCODE/TRAFFIC/PURPOSE/SCOPE/` at `p`: where its three runs end. */
  function FieldsAt(s: string, p: nat): (r: Option<(nat, nat, nat)>)
    ensures r.Some? ==> HeadAt(s, p) && SlashField(s, p + 11, Traffic) == Some(r.value.0)
    ensures r.Some? ==> SlashField(s, r.value.0 + 1, Purpose) == Some(r.value.1)
    ensures r.Some? ==> SlashField(s, r.value.1 + 1, Scope) == Some(r.value.2)
  {
    if !HeadAt(s, p) then None
    else match SlashField(s, p + 11, Traffic)
      case None => None
      case Some(t) =>
        match SlashField(s, t + 1, Purpose)
        case None => None
        case Some(u) =>
          match SlashField(s, u + 1, Scope)
          case None => None
          case Some(v) => Some((t, u, v))
  }

  /**
   * The whole pattern anchored at `p`, with its optional `Q)\s*` prefix.
   * The prefix is tried first with every space taken; giving back spaces
   * would leave a space where the FIR's first letter must be, so the only
   * other alternative is no prefix at all.
   */
  function MatchAt(s: string, p: nat): (r: Option<Groups>)
    ensures r.Some? <==> FieldsAt(s, p).Some? || (LitAt(s, p, "Q)") && FieldsAt(s, SpanWhile(s, p + 2, Space)).Some?)
    ensures LitAt(s, p, "Q)") && FieldsAt(s, SpanWhile(s, p + 2, Space)).Some? ==> r == BodyAt(s, SpanWhile(s, p + 2, Space))
    ensures r.Some? ==> GroupsOk(r.value)
  {
    if LitAt(s, p, "Q)") then
      var m := BodyAt(s, SpanWhile(s, p + 2, Space));
      if m.Some? then m else BodyAt(s, p)
    else BodyAt(s, p)
  }

  /** The subject code a category stands for; Other stands for every unlisted code. */
  function SubjectOf(c: Category): string
  {
    match c
    case Runway => "MR"
    case Taxiway => "MX"
    case Aerodrome => "FA"
    case Obstruction => "OB"
    case Airspace => "RT"
    case Other => ""
  }

  /** The if/elif chain classifying a subject code. */
  function Classify(subject: string): (c: Category)
    ensures c == Other <==> subject !in {"MR", "MX", "FA", "OB", "RT"}
    ensures c != Other ==> SubjectOf(c) == subject
  {
    if subject == "MR" then Runway
    else if subject == "MX" then Taxiway
    else if subject == "FA" then Aerodrome
    else if subject == "OB" then Obstruction
    else if subject == "RT" then Airspace
    else Other
  }

  /** Every category but Other is the classification of its own subject code. */
  lemma ClassifySubjectOf(c: Category)
    requires c != Other
    ensures Classify(SubjectOf(c)) == c
  {
  }

  /** What every decoded Q-line satisfies. */
  predicate Valid(q: QLine)
  {
    && |q.fir| == 4 && AllIn(q.fir, Upper)
    && |q.qCode| == 5 && q.qCode[0] == 'Q' && AllIn(q.qCode[1..], Upper)
    && q.subjectCode == q.qCode[1..3] && q.conditionCode == q.qCode[3..5]
    && AllIn(q.traffic, Traffic) && AllIn(q.purpose, Purpose) && AllIn(q.scope, Scope)
    && q.lowerFl <= 999 && q.upperFl <= 999 && q.radiusNm <= 999
    && (q.rawCoords.Some? ==> |q.rawCoords.value| == 11 && Coordinates.TokenAt(q.rawCoords.value, 0))
    && q.category == Classify(q.subjectCode)
  }

  function ValueOr0(d: Option<string>): nat
    requires ThreeDigits(d)
  {
    if d.Some? then DigitsValue(d.value) else 0
  }

  /** The dictionary built from a match's groups. */
  function Decode(g: Groups): (q: QLine)
    requires GroupsOk(g)
    ensures Valid(q)
    ensures q.fir == g.fir && q.qCode == g.code && q.rawCoords == g.coords
    ensures q.traffic == g.traffic && q.purpose == g.purpose && q.scope == g.scope
    ensures g.lower.None? ==> q.lowerFl == 0 && q.upperFl == 0
    ensures g.radius.None? ==> q.radiusNm == 0
  {
    var subject := g.code[1..3];
    var condition := g.code[3..5];
    QLine(g.fir, g.code, subject, condition, g.traffic, g.purpose, g.scope,
          ValueOr0(g.lower), ValueOr0(g.upper), g.coords, ValueOr0(g.radius),
          Classify(subject))
  }

  /**
   * A present numeric group is read as its own value: written back with
   * three digits, each number is the group it came from.
   */
  lemma DecodeNumbers(g: Groups)
    requires GroupsOk(g)
    ensures g.lower.Some? ==> Pad(Decode(g).lowerFl, 3) == g.lower.value && Pad(Decode(g).upperFl, 3) == g.upper.value
    ensures g.radius.Some? ==> Pad(Decode(g).radiusNm, 3) == g.radius.value
  {
    if g.lower.Some? {
      PadDigitsValue(g.lower.value);
      PadDigitsValue(g.upper.value);
    }
    if g.radius.Some? {
      PadDigitsValue(g.radius.value);
    }
  }

  /**
   * `parse_q_line`: None exactly when the pattern matches at no position of
   * the text; otherwise the decoding of the leftmost match.
   */
  function ParseQLine(text: string): (r: Option<QLine>)
    ensures r.None? <==> forall p :: 0 <= p <= |text| ==> MatchAt(text, p).None?
    ensures r.Some? ==> Valid(r.value)
    ensures r.Some? ==>
              exists p :: && 0 <= p <= |text| && MatchAt(text, p).Some?
                          && r.value == Decode(MatchAt(text, p).value)
                          && forall q :: 0 <= q < p ==> MatchAt(text, q).None?
  {
    match Leftmost(text, 0, MatchAt)
    case None => None
    case Some((p, g)) => Some(Decode(g))
  }
  // ---------------------------------------------------------------------
  // The inverse direction: writing a Q-line back out
  // ---------------------------------------------------------------------

  /** Groups in which every optional group took part. */
  predicate Complete(g: Groups)
  {
    g.lower.Some? && g.upper.Some? && g.coords.Some? && g.radius.Some?
  }

  /** The Q-line text whose match captures exactly `g`. */
  function Render(g: Groups): string
    requires Complete(g)
  {
    "Q) " + g.fir + "/" + g.code + "/" + g.traffic + "/" + g.purpose + "/" + g.scope + "/"
    + g.lower.value + "/" + g.upper.value + "/" + g.coords.value + g.radius.value
  }

  /** The groups that write out a decoded Q-line in full. */
  function FormatGroups(q: QLine): (g: Groups)
    requires q.rawCoords.Some?
    ensures Complete(g)
  {
    Groups(q.fir, q.qCode, q.traffic, q.purpose, q.scope,
           Some(Pad(q.lowerFl, 3)), Some(Pad(q.upperFl, 3)), q.rawCoords, Some(Pad(q.radiusNm, 3)))
  }

  /** The complete Q-line for a decoded value, altitude, coordinates and radius all present. */
  function Format(q: QLine): string
    requires q.rawCoords.Some?
  {
    Render(FormatGroups(q))
  }

  /** A segment followed by a one-character separator. */
  lemma Segment(x: string, w: string, c: char)
    ensures (x + w + [c])[|x|..|x| + |w|] == w && (x + w + [c])[|x| + |w|] == c
    ensures x <= x + w + [c]
  {
  }

  /** What holds of a prefix holds of the whole string. */
  lemma FromPrefix(pre: string, s: string, i: nat, j: nat)
    requires pre <= s && i <= j <= |pre|
    ensures s[i..j] == pre[i..j] && (j < |pre| ==> s[j] == pre[j])
  {
    assert s[..|pre|] == pre;
  }

  /** A string is a prefix of anything its extension is a prefix of. */
  lemma PrefixOfAppend(x: string, y: string, s: string)
    requires x + y <= s
    ensures x <= s
  {
    assert s[..|x|] == (x + y)[..|x|] == x;
  }

  /** The `|w|` characters at `k` spell `w`, all of whose characters are in class `cl`. */
  lemma Spelled(s: string, k: nat, w: string, cl: Class)
    requires AllIn(w, cl) && k + |w| <= |s| && s[k..k + |w|] == w
    ensures AllAt(s, k, |w|, cl)
  {
    forall i | k <= i < k + |w| ensures In(s[i], cl) {
      assert s[i] == w[i - k];
    }
  }

  /** A greedy run over `w`, stopped by `stop`, ends right after `w`. */
  lemma RunAt(s: string, k: nat, w: string, stop: char, cl: Class)
    requires AllIn(w, cl) && !In(stop, cl)
    requires k + |w| < |s| && s[k..k + |w|] == w && s[k + |w|] == stop
    ensures SpanWhile(s, k, cl) == k + |w|
  {
    forall i | k <= i < k + |w| ensures In(s[i], cl) {
      assert s[i] == w[i - k];
    }
    SpanWhileExact(s, k, k + |w|, cl);
  }

  /** A segment `w` and its separator `c` after `pre`, read off a string that starts with them. */
  lemma Piece(pre: string, w: string, c: char, s: string)
    requires pre + w + [c] <= s
    ensures |pre| + |w| < |s| && s[|pre|..|pre| + |w|] == w && s[|pre| + |w|] == c
  {
    Segment(pre, w, c);
    FromPrefix(pre + w + [c], s, |pre|, |pre| + |w|);
  }

  /** The optional tail written out in full after `pre` is read back whole. */
  lemma TailPieces(s: string, pre: string, lo: string, up: string, co: string, ra: string)
    requires |lo| == 3 && |up| == 3 && |ra| == 3 && AllDigits(lo) && AllDigits(up) && AllDigits(ra)
    requires |co| == 11 && Coordinates.TokenAt(co, 0)
    requires pre + lo + "/" + up + "/" + co + ra <= s
    ensures TailAt(s, |pre|) == (Some(lo), Some(up), Some(co), Some(ra))
  {
    var a := |pre|;
    var w := pre + lo + "/" + up + "/" + co + ra;
    assert s[..|w|] == w;
    assert s[a..a + 3] == lo && s[a + 3] == '/' && s[a + 4..a + 7] == up && s[a + 7] == '/';
    assert s[a + 8..a + 19] == co && s[a + 19..a + 22] == ra;
    Spelled(s, a, lo, Digit);
    Spelled(s, a + 4, up, Digit);
    Spelled(s, a + 19, ra, Digit);
    assert Coordinates.TokenAt(s, a + 8) by {
      forall i | 0 <= i < 11 ensures s[a + 8 + i] == co[i] { }
    }
  }

  /** FieldsAt assembled from the outcome of each of its stages. */
  lemma FieldsFromStages(s: string, p: nat, t: nat, u: nat, v: nat)
    requires HeadAt(s, p) && SlashField(s, p + 11, Traffic) == Some(t)
    requires SlashField(s, t + 1, Purpose) == Some(u) && SlashField(s, u + 1, Scope) == Some(v)
    ensures FieldsAt(s, p) == Some((t, u, v))
  {
  }

  /** Where the traffic, purpose and scope fields of a rendered line end. */
  function TrafficEnd(g: Groups): nat { 14 + |g.traffic| }
  function PurposeEnd(g: Groups): nat { TrafficEnd(g) + 1 + |g.purpose| }
  function ScopeEnd(g: Groups): nat { PurposeEnd(g) + 1 + |g.scope| }

  /** The rendered line up to and including the slash after its scope. */
  function Upto(g: Groups): string
  {
    "Q) " + g.fir + "/" + g.code + "/" + g.traffic + "/" + g.purpose + "/" + g.scope + "/"
  }

  /** `s` carries the mandatory part of a rendered line, field by field, at the rendered offsets. */
  predicate Laid(s: string, g: Groups)
  {
    && ScopeEnd(g) < |s|
    && s[0..3] == "Q) " && s[3..7] == g.fir && s[7] == '/' && s[8..13] == g.code && s[13] == '/'
    && s[14..TrafficEnd(g)] == g.traffic && s[TrafficEnd(g)] == '/'
    && s[TrafficEnd(g) + 1..PurposeEnd(g)] == g.purpose && s[PurposeEnd(g)] == '/'
    && s[PurposeEnd(g) + 1..ScopeEnd(g)] == g.scope && s[ScopeEnd(g)] == '/'
  }

  lemma UptoPrefix(g: Groups, s: string)
    requires GroupsOk(g) && Complete(g) && Render(g) <= s
    ensures Upto(g) <= s && |Upto(g)| == ScopeEnd(g) + 1
  {
    var w := g.lower.value + "/" + g.upper.value + "/" + g.coords.value + g.radius.value;
    assert Render(g) == Upto(g) + w;
    PrefixOfAppend(Upto(g), w, s);
  }

  lemma HeadLaid(g: Groups, s: string)
    requires |g.fir| == 4 && |g.code| == 5 && Upto(g) <= s
    ensures |s| > 13 && s[0..3] == "Q) " && s[3..7] == g.fir && s[7] == '/' && s[8..13] == g.code && s[13] == '/'
  {
    var pre := "Q) " + g.fir + "/" + g.code + "/";
    assert Upto(g) == pre + (g.traffic + "/" + g.purpose + "/" + g.scope + "/");
    PrefixOfAppend(pre, g.traffic + "/" + g.purpose + "/" + g.scope + "/", s);
    assert pre[0..3] == "Q) " && pre[3..7] == g.fir && pre[7] == '/' && pre[8..13] == g.code && pre[13] == '/';
    FromPrefix(pre, s, 0, 3);
    FromPrefix(pre, s, 3, 7);
    FromPrefix(pre, s, 8, 13);
    FromPrefix(pre, s, 13, 14);
  }

  lemma TrafficLaid(g: Groups, s: string)
    requires |g.fir| == 4 && |g.code| == 5 && Upto(g) <= s
    ensures TrafficEnd(g) < |s| && s[14..TrafficEnd(g)] == g.traffic && s[TrafficEnd(g)] == '/'
  {
    var pre := "Q) " + g.fir + "/" + g.code + "/";
    assert Upto(g) == pre + g.traffic + "/" + (g.purpose + "/" + g.scope + "/");
    PrefixOfAppend(pre + g.traffic + "/", g.purpose + "/" + g.scope + "/", s);
    Piece(pre, g.traffic, '/', s);
  }

  lemma PurposeLaid(g: Groups, s: string)
    requires |g.fir| == 4 && |g.code| == 5 && Upto(g) <= s
    ensures PurposeEnd(g) < |s| && s[TrafficEnd(g) + 1..PurposeEnd(g)] == g.purpose && s[PurposeEnd(g)] == '/'
  {
    var pre := "Q) " + g.fir + "/" + g.code + "/" + g.traffic + "/";
    assert Upto(g) == pre + g.purpose + "/" + (g.scope + "/");
    PrefixOfAppend(pre + g.purpose + "/", g.scope + "/", s);
    Piece(pre, g.purpose, '/', s);
  }

  lemma ScopeLaid(g: Groups, s: string)
    requires |g.fir| == 4 && |g.code| == 5 && Upto(g) <= s
    ensures ScopeEnd(g) < |s| && s[PurposeEnd(g) + 1..ScopeEnd(g)] == g.scope && s[ScopeEnd(g)] == '/'
  {
    var pre := "Q) " + g.fir + "/" + g.code + "/" + g.traffic + "/" + g.purpose + "/";
    assert Upto(g) == pre + g.scope + "/";
    Piece(pre, g.scope, '/', s);
  }

  lemma LaidOfUpto(g: Groups, s: string)
    requires |g.fir| == 4 && |g.code| == 5 && Upto(g) <= s
    ensures Laid(s, g)
  {
    HeadLaid(g, s);
    TrafficLaid(g, s);
    PurposeLaid(g, s);
    ScopeLaid(g, s);
  }

  lemma TailOfRender(g: Groups, s: string)
    requires GroupsOk(g) && Complete(g) && Render(g) <= s && |Upto(g)| == ScopeEnd(g) + 1
    ensures TailAt(s, ScopeEnd(g) + 1) == (g.lower, g.upper, g.coords, g.radius)
  {
    assert Render(g) == Upto(g) + g.lower.value + "/" + g.upper.value + "/" + g.coords.value + g.radius.value;
    TailPieces(s, Upto(g), g.lower.value, g.upper.value, g.coords.value, g.radius.value);
  }

  /** The mandatory fields laid out in `s` are found by FieldsAt. */
  lemma FieldsOfLaid(g: Groups, s: string)
    requires GroupsOk(g) && Laid(s, g)
    ensures FieldsAt(s, 3) == Some((TrafficEnd(g), PurposeEnd(g), ScopeEnd(g)))
  {
    HeadOfLaid(g, s);
    RunsOfLaid(g, s);
    FieldsFromStages(s, 3, TrafficEnd(g), PurposeEnd(g), ScopeEnd(g));
  }

  lemma HeadOfLaid(g: Groups, s: string)
    requires GroupsOk(g) && Laid(s, g)
    ensures HeadAt(s, 3)
  {
    Spelled(s, 3, g.fir, Upper);
    assert s[9..13] == g.code[1..];
    Spelled(s, 9, g.code[1..], Upper);
  }

  lemma RunsOfLaid(g: Groups, s: string)
    requires GroupsOk(g) && Laid(s, g)
    ensures SlashField(s, 14, Traffic) == Some(TrafficEnd(g))
    ensures SlashField(s, TrafficEnd(g) + 1, Purpose) == Some(PurposeEnd(g))
    ensures SlashField(s, PurposeEnd(g) + 1, Scope) == Some(ScopeEnd(g))
  {
    FieldRun(s, 14, g.traffic, Traffic);
    FieldRun(s, TrafficEnd(g) + 1, g.purpose, Purpose);
    FieldRun(s, PurposeEnd(g) + 1, g.scope, Scope);
  }

  /** A field `w` at `k`, followed by `/`, is read back by SlashField. */
  lemma FieldRun(s: string, k: nat, w: string, cl: Class)
    requires AllIn(w, cl) && !In('/', cl)
    requires k + |w| < |s| && s[k..k + |w|] == w && s[k + |w|] == '/'
    ensures SlashField(s, k, cl) == Some(k + |w|)
  {
    RunAt(s, k, w, '/', cl);
  }

  /** The body of a rendered line, read from after its `Q) `, gives back the groups. */
  lemma BodyOfRender(g: Groups, s: string)
    requires GroupsOk(g) && Laid(s, g)
    requires TailAt(s, ScopeEnd(g) + 1) == (g.lower, g.upper, g.coords, g.radius)
    ensures BodyAt(s, 3) == Some(g)
  {
    FieldsOfLaid(g, s);
  }

  /** A laid-out line starts with `Q)` and exactly one space. */
  lemma PrefixOfLaid(g: Groups, s: string)
    requires GroupsOk(g) && Laid(s, g)
    ensures LitAt(s, 0, "Q)") && SpanWhile(s, 2, Space) == 3
  {
    var head := s[0..3];
    assert head == "Q) ";
    assert s[0..2] == head[0..2] && s[2] == head[2];
    var fir := s[3..7];
    assert fir == g.fir;
    assert s[3] == fir[0] && IsUpper(fir[0]);
    SpanWhileExact(s, 2, 3, Space);
  }

  /**
   * Round trip of the matcher: a rendered Q-line, followed by anything, is
   * matched at its first character and captures exactly the groups it was
   * rendered from.
   */
  lemma {:induction false} MatchRender(g: Groups, rest: string)
    requires GroupsOk(g) && Complete(g)
    ensures MatchAt(Render(g) + rest, 0) == Some(g)
  {
    var s := Render(g) + rest;
    assert Render(g) <= s;
    UptoPrefix(g, s);
    LaidOfUpto(g, s);
    TailOfRender(g, s);
    BodyOfRender(g, s);
    PrefixOfLaid(g, s);
  }

  /**
   * Round trip of the decoder: a valid Q-line written out in full,
   * followed by anything, decodes to itself.
   */
  lemma {:induction false} RoundTrip(q: QLine, rest: string)
    requires Valid(q) && q.rawCoords.Some?
    ensures ParseQLine(Format(q) + rest) == Some(q)
  {
    var g := FormatGroups(q);
    PadValue(q.lowerFl, 3);
    PadValue(q.upperFl, 3);
    PadValue(q.radiusNm, 3);
    assert GroupsOk(g);
    MatchRender(g, rest);
    assert Leftmost(Format(q) + rest, 0, MatchAt) == Some((0, g));
    assert Decode(g) == q;
  }

  /** Groups in which no optional group took part. */
  predicate Bare(g: Groups)
  {
    g.lower.None? && g.upper.None? && g.coords.None? && g.radius.None?
  }

  /** What may follow a line without optional groups: nothing, or a character no optional group starts with. */
  predicate Stops(rest: string)
  {
    rest == [] || (rest[0] != '/' && !IsDigit(rest[0]))
  }

  /** The optional groups are absent where the text stops after the scope's slash. */
  lemma TailOfBare(g: Groups, s: string, rest: string)
    requires Upto(g) + rest == s && Stops(rest)
    ensures TailAt(s, |Upto(g)|) == (None, None, None, None)
  {
    var a := |Upto(g)|;
    if rest != [] {
      assert s[a] == rest[0];
    }
  }

  /**
   * Round trip of the matcher for a line carrying the mandatory part only:
   * the line, followed by anything that cannot start an optional group, is
   * matched at its first character with every optional group absent.
   */
  lemma {:induction false} MatchBare(g: Groups, rest: string)
    requires GroupsOk(g) && Bare(g) && Stops(rest)
    ensures MatchAt(Upto(g) + rest, 0) == Some(g)
  {
    var s := Upto(g) + rest;
    assert Upto(g) <= s;
    LaidOfUpto(g, s);
    assert |Upto(g)| == ScopeEnd(g) + 1;
    TailOfBare(g, s, rest);
    BodyOfRender(g, s);
    PrefixOfLaid(g, s);
  }

  /** The mandatory part of a decoded Q-line, written out with no optional group. */
  function FormatBare(q: QLine): string
  {
    Upto(Groups(q.fir, q.qCode, q.traffic, q.purpose, q.scope, None, None, None, None))
  }

  /**
   * Round trip of the decoder for lines without optional groups: a valid
   * Q-line with no coordinates and zero levels and radius, written out
   * without its optional groups, decodes to itself.
   */
  lemma {:induction false} RoundTripBare(q: QLine, rest: string)
    requires Valid(q) && q.rawCoords.None? && q.lowerFl == 0 && q.upperFl == 0 && q.radiusNm == 0
    requires Stops(rest)
    ensures ParseQLine(FormatBare(q) + rest) == Some(q)
  {
    var g := Groups(q.fir, q.qCode, q.traffic, q.purpose, q.scope, None, None, None, None);
    assert GroupsOk(g);
    MatchBare(g, rest);
    assert Leftmost(FormatBare(q) + rest, 0, MatchAt) == Some((0, g));
    assert Decode(g) == q;
  }

  /**
   * No Q-line is found exactly when `FIR/QCODE/TRAFFIC/PURPOSE/SCOPE/`
   * occurs nowhere in the text: the optional groups never make a match fail.
   */
  lemma NoneIffNoFields(text: string)
    ensures ParseQLine(text).None? <==> forall p :: 0 <= p <= |text| ==> FieldsAt(text, p).None?
  {
    if ParseQLine(text).None? {
      forall p | 0 <= p <= |text| ensures FieldsAt(text, p).None? {
        assert MatchAt(text, p).None?;
      }
    } else {
      var p :| 0 <= p <= |text| && MatchAt(text, p).Some?;
      if FieldsAt(text, p).None? {
        var k := SpanWhile(text, p + 2, Space);
        assert FieldsAt(text, k).Some?;
      }
    }
  }

  /** A Q-line without altitude, coordinates or radius decodes with all three read as 0. */
  lemma FixtureBare(text: string)
    requires text == "Q) " + "CZEG" + "/" + "QFAXX" + "/" + "IV" + "/" + "NBO" + "/" + "A" + "/"
    ensures ParseQLine(text) == Some(QLine("CZEG", "QFAXX", "FA", "XX", "IV", "NBO", "A", 0, 0, None, 0, Aerodrome))
  {
    var q := QLine("CZEG", "QFAXX", "FA", "XX", "IV", "NBO", "A", 0, 0, None, 0, Aerodrome);
    assert FormatBare(q) + [] == text;
    RoundTripBare(q, []);
  }

  /** The zero-padded numbers of the test suite's Q-line. */
  lemma FixturePads()
    ensures Pad(0, 3) == "000" && Pad(5, 3) == "005" && Pad(999, 3) == "999"
  {
    assert Decimal(0) == "0" && Decimal(5) == "5" && Zeros(2) == "00";
    assert Decimal(99) == "99" by { assert Decimal(9) == "9"; }
  }

  lemma FixtureValid()
    ensures Valid(QLine("CZEG", "QFAXX", "FA", "XX", "IV", "NBO", "A", 0, 999, Some("5319N11335W"), 5, Aerodrome))
  {
    assert Coordinates.TokenAt("5319N11335W", 0);
  }

  /** The Q-line of the test suite decodes as the test expects. */
  lemma Fixture(text: string)
    requires text == "Q) " + "CZEG" + "/" + "QFAXX" + "/" + "IV" + "/" + "NBO" + "/" + "A" + "/"
                   + "000" + "/" + "999" + "/" + "5319N11335W" + "005"
    ensures ParseQLine(text) == Some(QLine("CZEG", "QFAXX", "FA", "XX", "IV", "NBO", "A", 0, 999, Some("5319N11335W"), 5, Aerodrome))
  {
    var q := QLine("CZEG", "QFAXX", "FA", "XX", "IV", "NBO", "A", 0, 999, Some("5319N11335W"), 5, Aerodrome);
    assert Format(q) + [] == text by {
      FixturePads();
      assert FormatGroups(q) == Groups("CZEG", "QFAXX", "IV", "NBO", "A", Some("000"), Some("999"), Some("5319N11335W"), Some("005"));
    }
    FixtureValid();
    RoundTrip(q, []);
  }
}
