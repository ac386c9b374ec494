/**
 * AIXM 5.1 event extractor: one flat NOTAM record for each message
 * member that carries an event, its time slice and a NOTAM, read from an
 * already parsed element tree.
 */
module Aixm {
  import opened Wrappers
  import opened Scan
  import opened PyValue
  import Coordinates

  // ---------------------------------------------------------------------
  // The element tree
  // ---------------------------------------------------------------------

  const MsgNs := "http://www.aixm.aero/schema/5.1/message"
  const EventNs := "http://www.aixm.aero/schema/5.1/event"
  const GmlNs := "http://www.opengis.net/gml/3.2"

  /** A qualified name in ElementTree's `{namespace}local` spelling. */
  function Tag(ns: string, local: string): string { "{" + ns + "}" + local }

  /** An element: its qualified tag, attributes, text (`""` when it has none) and children in document order. */
  datatype Element = Element(tag: string, attrib: map<string, string>, text: string, children: seq<Element>)

  /** Every element below `e`, in document order (pre-order), `e` itself excluded. */
  function Descendants(e: Element): seq<Element>
    decreases e, |e.children| + 1
  {
    DescendantsFrom(e, 0)
  }

  /** The descendants reached through the children of `e` from the `i`-th on. */
  function DescendantsFrom(e: Element, i: nat): seq<Element>
    requires i <= |e.children|
    decreases e, |e.children| - i
  {
    if i == |e.children| then []
    else [e.children[i]] + Descendants(e.children[i]) + DescendantsFrom(e, i + 1)
  }

  /** The elements of `es` with tag `tag`, in order. */
  function WithTag(es: seq<Element>, tag: string): (r: seq<Element>)
    ensures |r| <= |es|
    ensures forall k :: 0 <= k < |r| ==> r[k].tag == tag && r[k] in es
    ensures forall x :: x in es && x.tag == tag ==> x in r
  {
    if es == [] then []
    else (if es[0].tag == tag then [es[0]] else []) + WithTag(es[1..], tag)
  }

  /** `es[k]` has tag `tag` and no element before it does. */
  predicate FirstWith(es: seq<Element>, tag: string, k: int)
  {
    0 <= k < |es| && es[k].tag == tag && forall j :: 0 <= j < k ==> es[j].tag != tag
  }

  /** The first element kept by WithTag is the first element of `es` with the tag. */
  lemma {:induction false} WithTagHead(es: seq<Element>, tag: string)
    ensures WithTag(es, tag) != [] ==> exists k :: FirstWith(es, tag, k) && WithTag(es, tag)[0] == es[k]
  {
    if es != [] && es[0].tag != tag && WithTag(es, tag) != [] {
      WithTagHead(es[1..], tag);
      var k :| FirstWith(es[1..], tag, k) && WithTag(es[1..], tag)[0] == es[1..][k];
      assert FirstWith(es, tag, k + 1);
    } else if es != [] && es[0].tag == tag {
      assert FirstWith(es, tag, 0);
    }
  }

  /** `e.findall(".//tag")`. */
  function FindAll(e: Element, tag: string): seq<Element>
  {
    WithTag(Descendants(e), tag)
  }

  /** The first element of a list, if any: `find` is the first result of `iterfind`. */
  function First(es: seq<Element>): (r: Option<Element>)
    ensures r.None? <==> es == []
    ensures r.Some? ==> r.value == es[0]
  {
    if es == [] then None else Some(es[0])
  }

  /** `e.find(".//tag")`: the first descendant with that tag. */
  function FindFirst(e: Element, tag: string): (r: Option<Element>)
    ensures r.None? <==> forall x :: x in Descendants(e) ==> x.tag != tag
    ensures r.Some? ==> r.value.tag == tag && r.value in Descendants(e)
    ensures r.Some? ==> exists k :: FirstWith(Descendants(e), tag, k) && r.value == Descendants(e)[k]
  {
    WithTagHead(Descendants(e), tag);
    First(FindAll(e, tag))
  }

  /** The children with tag `inner` of each element of `outers`, concatenated in order. */
  function ChildrenWithTag(outers: seq<Element>, inner: string): (r: seq<Element>)
    ensures forall k :: 0 <= k < |r| ==> r[k].tag == inner
  {
    if outers == [] then []
    else WithTag(outers[0].children, inner) + ChildrenWithTag(outers[1..], inner)
  }

  /** `o` has a child with tag `tag`. */
  predicate HasChild(o: Element, tag: string) { WithTag(o.children, tag) != [] }

  /** `outers[k]` has an `inner` child and no element before it does. */
  predicate FirstHaving(outers: seq<Element>, inner: string, k: int)
  {
    0 <= k < |outers| && HasChild(outers[k], inner) && forall j :: 0 <= j < k ==> !HasChild(outers[j], inner)
  }

  /** The concatenation is empty exactly when no element of `outers` has an `inner` child. */
  lemma {:induction false} ChildrenWithTagEmpty(outers: seq<Element>, inner: string)
    ensures ChildrenWithTag(outers, inner) == [] <==> forall k :: 0 <= k < |outers| ==> !HasChild(outers[k], inner)
  {
    if outers != [] {
      ChildrenWithTagEmpty(outers[1..], inner);
      assert forall k :: 1 <= k < |outers| ==> outers[k] == outers[1..][k - 1];
    }
  }

  /**
   * The first element of the concatenation is the first `inner` child of
   * the first element of `outers` that has one.
   */
  lemma {:induction false} ChildrenWithTagHead(outers: seq<Element>, inner: string)
    ensures ChildrenWithTag(outers, inner) != [] ==>
      exists k :: FirstHaving(outers, inner, k) && ChildrenWithTag(outers, inner)[0] == WithTag(outers[k].children, inner)[0]
  {
    if outers != [] && ChildrenWithTag(outers, inner) != [] {
      if HasChild(outers[0], inner) {
        assert FirstHaving(outers, inner, 0);
      } else {
        assert ChildrenWithTag(outers, inner) == ChildrenWithTag(outers[1..], inner);
        ChildrenWithTagHead(outers[1..], inner);
        var k :| FirstHaving(outers[1..], inner, k)
                 && ChildrenWithTag(outers[1..], inner)[0] == WithTag(outers[1..][k].children, inner)[0];
        assert FirstHaving(outers, inner, k + 1) by {
          forall j | 1 <= j < k + 1 ensures !HasChild(outers[j], inner) {
            assert outers[j] == outers[1..][j - 1];
          }
        }
      }
    }
  }

  /**
   * `e.find(".//outer/inner")`: among the `outer` descendants, in document
   * order, the first one with an `inner` child gives its first such child;
   * nothing when no `outer` descendant has one.
   */
  function FindPath(e: Element, outer: string, inner: string): (r: Option<Element>)
    ensures r.Some? ==> r.value.tag == inner
    ensures var outers := FindAll(e, outer);
      r.None? <==> forall k :: 0 <= k < |outers| ==> !HasChild(outers[k], inner)
    ensures var outers := FindAll(e, outer);
      r.Some? ==> exists k :: FirstHaving(outers, inner, k) && r.value == WithTag(outers[k].children, inner)[0]
  {
    ChildrenWithTagEmpty(FindAll(e, outer), inner);
    ChildrenWithTagHead(FindAll(e, outer), inner);
    First(ChildrenWithTag(FindAll(e, outer), inner))
  }

  /**
   * `e.findtext(tag, default)`: the text of the first child with that tag
   * (`""` when it has none), or `default` when there is no such child.
   */
  function FindText(e: Element, tag: string, default: string): (r: string)
    ensures (forall c :: c in e.children ==> c.tag != tag) ==> r == default
    ensures (exists c :: c in e.children && c.tag == tag) ==>
      exists k :: FirstWith(e.children, tag, k) && r == e.children[k].text
  {
    WithTagHead(e.children, tag);
    match First(WithTag(e.children, tag))
    case None => default
    case Some(c) => c.text
  }

  // ---------------------------------------------------------------------
  // parse_coordinate
  // ---------------------------------------------------------------------

  /**
   * `parse_coordinate`: the same conversion as the Q-line's coordinate
   * parser, with the position returned as the two-item list `[lon, lat]`.
   */
  function ParseCoordinate(coordStr: string): (r: Option<seq<real>>)
    ensures r.Some? ==> |r.value| == 2
  {
    if coordStr == [] then None
    else if !Coordinates.TokenAt(coordStr, 0) then None
    else
      var lat := Coordinates.SignedDegrees(DigitsValue(coordStr[..2]), DigitsValue(coordStr[2..4]), coordStr[4] == 'S');
      var lon := Coordinates.SignedDegrees(DigitsValue(coordStr[5..8]), DigitsValue(coordStr[8..10]), coordStr[10] == 'W');
      Some([lon, lat])
  }

  /** The two coordinate parsers agree on every string. */
  lemma ParseCoordinateAgrees(s: string)
    ensures ParseCoordinate(s).None? <==> Coordinates.ParseCoordinateStr(s).None?
    ensures ParseCoordinate(s).Some? ==>
      ParseCoordinate(s).value == [Coordinates.ParseCoordinateStr(s).value.lon, Coordinates.ParseCoordinateStr(s).value.lat]
  {
    if s != [] && Coordinates.TokenAt(s, 0) {
      assert s[..2] == s[0..2];
    }
  }

  // ---------------------------------------------------------------------
  // One record per NOTAM
  // ---------------------------------------------------------------------

  function EventTag(local: string): string { Tag(EventNs, local) }

  /** `int(radius_str)` with `0` on ValueError, the absent child reading as `"0"`. */
  function Radius(n: Element): (r: int)
    ensures ParsePyInt(FindText(n, EventTag("radius"), "0")).None? ==> r == 0
  {
    match ParsePyInt(FindText(n, EventTag("radius"), "0"))
    case Some(v) => v
    case None => 0
  }

  /** The GeoJSON point stored under `location`. */
  function PointValue(p: seq<real>): Value
    requires |p| == 2
  {
    Dict(map["type" := Str("Point"), "coordinates" := List([Float(p[0]), Float(p[1])])])
  }

  /** The fields of one extracted NOTAM, before they are laid out as a dictionary. */
  datatype Notam = Notam(
    notamId: Option<string>,
    number: string,
    text: string,
    locationCode: string,
    startTime: string,
    endTime: string,
    radiusNm: int,
    rawCoordinates: string,
    location: Option<seq<real>>)

  /** The keys every record has. */
  const BaseKeys: set<string> :=
    {"notam_id", "number", "text", "location_code", "start_time", "end_time", "radius_nm", "raw_coordinates"}

  /** The dictionary the generator yields: `location` only when the coordinates parsed. */
  function Doc(r: Notam): (doc: map<string, Value>)
    requires r.location.Some? ==> |r.location.value| == 2
    ensures "location" in doc <==> r.location.Some?
    ensures doc.Keys == BaseKeys || doc.Keys == BaseKeys + {"location"}
  {
    var doc := map[
      "notam_id" := (if r.notamId.Some? then Str(r.notamId.value) else Nil),
      "number" := Str(r.number),
      "text" := Str(r.text),
      "location_code" := Str(r.locationCode),
      "start_time" := Str(r.startTime),
      "end_time" := Str(r.endTime),
      "radius_nm" := Int(r.radiusNm),
      "raw_coordinates" := Str(r.rawCoordinates)
    ];
    match r.location
    case None => doc
    case Some(p) => doc["location" := PointValue(p)]
  }

  /** The fields read from a NOTAM element, each absent child read as its default. */
  function RecordOf(n: Element): (r: Notam)
    ensures r.location.Some? ==> |r.location.value| == 2
  {
    var idKey := Tag(GmlNs, "id");
    var rawCoords := FindText(n, EventTag("coordinates"), "");
    Notam(
      if idKey in n.attrib then Some(n.attrib[idKey]) else None,
      FindText(n, EventTag("series"), "") + FindText(n, EventTag("number"), "") + "/" + FindText(n, EventTag("year"), ""),
      FindText(n, EventTag("text"), ""),
      FindText(n, EventTag("location"), ""),
      FindText(n, EventTag("effectiveStart"), ""),
      FindText(n, EventTag("effectiveEnd"), ""),
      Radius(n),
      rawCoords,
      ParseCoordinate(rawCoords))
  }

  /** The NOTAM element of a member: its first event, that event's first time slice, and there `textNOTAM/NOTAM`. */
  function NotamOf(member: Element): (r: Option<Element>)
    ensures r.Some? ==> r.value.tag == EventTag("NOTAM")
  {
    match FindFirst(member, EventTag("Event"))
    case None => None
    case Some(event) =>
      match FindFirst(event, EventTag("EventTimeSlice"))
      case None => None
      case Some(slice) => FindPath(slice, EventTag("textNOTAM"), EventTag("NOTAM"))
  }

  /** What one member contributes: its record, or nothing when it lacks a NOTAM. */
  function MemberDocs(member: Element): (docs: seq<map<string, Value>>)
    ensures |docs| == if NotamOf(member).Some? then 1 else 0
  {
    match NotamOf(member)
    case None => []
    case Some(n) => [Doc(RecordOf(n))]
  }

  /** `f` applied to each item in turn, the results concatenated: a generator's yields over a loop. */
  function FlatMap<A, B>(f: A -> seq<B>, xs: seq<A>): seq<B>
  {
    if xs == [] then [] else FlatMap(f, xs[..|xs| - 1]) + f(xs[|xs| - 1])
  }

  /** The yields of two loops run one after the other are concatenated. */
  lemma {:induction false} FlatMapAppend<A, B>(f: A -> seq<B>, a: seq<A>, b: seq<A>)
    ensures FlatMap(f, a + b) == FlatMap(f, a) + FlatMap(f, b)
    decreases |b|
  {
    if b == [] {
      assert a + b == a;
    } else {
      var b', last := b[..|b| - 1], b[|b| - 1];
      assert (a + b)[..|a + b| - 1] == a + b' && (a + b)[|a + b| - 1] == last;
      FlatMapAppend(f, a, b');
    }
  }

  /** One more item adds its own yields at the end. */
  lemma FlatMapSnoc<A, B>(f: A -> seq<B>, xs: seq<A>, i: nat)
    requires i < |xs|
    ensures FlatMap(f, xs[..i + 1]) == FlatMap(f, xs[..i]) + f(xs[i])
  {
    assert xs[..i + 1][..i] == xs[..i];
  }

  /** A single item yields exactly its own results. */
  lemma FlatMapOne<A, B>(f: A -> seq<B>, x: A)
    ensures FlatMap(f, [x]) == f(x)
  {
    assert [x][..0] == [];
  }

  /** The records of a list of members, in order, members without a NOTAM skipped. */
  function Records(members: seq<Element>): seq<map<string, Value>>
  {
    FlatMap(MemberDocs, members)
  }

  const HasMember := Tag(MsgNs, "hasMember")

  /**
   * `_extract_notams_from_root`: the generator's loop over the
   * `hasMember` descendants, each miss skipped with `continue`, each hit
   * yielding its record.
   */
  method ExtractNotams(root: Element) returns (docs: seq<map<string, Value>>)
    ensures docs == Records(FindAll(root, HasMember))
  {
    var members := FindAll(root, HasMember);
    docs := [];
    for i := 0 to |members|
      invariant docs == Records(members[..i])
    {
      var member := members[i];
      FlatMapSnoc(MemberDocs, members, i);
      var event := FindFirst(member, EventTag("Event"));
      if event.None? {
        continue;
      }
      var slice := FindFirst(event.value, EventTag("EventTimeSlice"));
      if slice.None? {
        continue;
      }
      var notam := FindPath(slice.value, EventTag("textNOTAM"), EventTag("NOTAM"));
      if notam.None? {
        continue;
      }
      docs := docs + [Doc(RecordOf(notam.value))];
    }
    assert members[..|members|] == members;
  }

  /**
   * `parse_notam_str`: nothing for an empty or blank string; otherwise
   * the records of the tree the XML parser built, or nothing when it
   * raised. `parsed` stands for the outcome of `ET.fromstring(xml)`.
   */
  function ParseNotamStr(xml: string, parsed: Option<Element>): (docs: seq<map<string, Value>>)
    ensures IsBlank(xml) ==> docs == []
    ensures parsed.None? ==> docs == []
    ensures !IsBlank(xml) && parsed.Some? ==> docs == Records(FindAll(parsed.value, HasMember))
  {
    if Strip(xml) == [] then []
    else match parsed
      case None => []
      case Some(root) => Records(FindAll(root, HasMember))
  }

  // ---------------------------------------------------------------------
  // Properties of the records
  // ---------------------------------------------------------------------

  /** The number is spliced from its three parts; times and the other texts are copied verbatim. */
  lemma RecordFields(n: Element)
    ensures var r := RecordOf(n);
      && r.number == FindText(n, EventTag("series"), "") + FindText(n, EventTag("number"), "") + "/" + FindText(n, EventTag("year"), "")
      && r.startTime == FindText(n, EventTag("effectiveStart"), "")
      && r.endTime == FindText(n, EventTag("effectiveEnd"), "")
  {
  }

  /** A NOTAM element with no children gives every default: empty texts, number `/`, radius 0, no location. */
  lemma BareNotam(n: Element)
    requires n.children == []
    ensures RecordOf(n) == Notam(RecordOf(n).notamId, "/", "", "", "", "", 0, "", None)
  {
    ParsePyIntDigits("0");
  }

  /** The radius is the child's integer value, and 0 when the child is absent or not an integer. */
  lemma RadiusField(n: Element)
    ensures var text := FindText(n, EventTag("radius"), "0");
      && (ParsePyInt(text).Some? ==> RecordOf(n).radiusNm == ParsePyInt(text).value)
      && (ParsePyInt(text).None? ==> RecordOf(n).radiusNm == 0)
    ensures (forall c :: c in n.children ==> c.tag != EventTag("radius")) ==> RecordOf(n).radiusNm == 0
  {
    ParsePyIntDigits("0");
  }

  /**
   * `location` is present exactly when the raw coordinates parse, and then
   * holds a GeoJSON point at the parsed longitude and latitude.
   */
  lemma LocationField(n: Element)
    ensures var raw, doc := FindText(n, EventTag("coordinates"), ""), Doc(RecordOf(n));
      && ("location" in doc <==> Coordinates.ParseCoordinateStr(raw).Some?)
      && ("location" in doc ==>
            var p := Coordinates.ParseCoordinateStr(raw).value;
            doc["location"] == Dict(map["type" := Str("Point"), "coordinates" := List([Float(p.lon), Float(p.lat)])]))
  {
    ParseCoordinateAgrees(FindText(n, EventTag("coordinates"), ""));
  }

  /** Records of a concatenation are the concatenated records: members are handled one at a time. */
  lemma RecordsAppend(a: seq<Element>, b: seq<Element>)
    ensures Records(a + b) == Records(a) + Records(b)
  {
    FlatMapAppend(MemberDocs, a, b);
  }

  /** The members that carry an event, a time slice and a NOTAM, in order: none is dropped, none is added. */
  function Kept(members: seq<Element>): (r: seq<Element>)
    ensures forall m :: m in r <==> m in members && NotamOf(m).Some?
  {
    if members == [] then []
    else
      var head := if NotamOf(members[0]).Some? then [members[0]] else [];
      var rest := Kept(members[1..]);
      assert forall m :: m in members <==> m == members[0] || m in members[1..];
      assert forall m :: m in head + rest <==> m in head || m in rest;
      head + rest
  }

  /** The first member's contribution comes first, in the records and in the kept list alike. */
  lemma ConsStep(m: Element, rest: seq<Element>)
    ensures Records([m] + rest) == MemberDocs(m) + Records(rest)
    ensures Kept([m] + rest) == (if NotamOf(m).Some? then [m] else []) + Kept(rest)
  {
    FlatMapOne(MemberDocs, m);
    RecordsAppend([m], rest);
    assert ([m] + rest)[1..] == rest;
  }

  /** `d` is the record of member `m`'s NOTAM. */
  predicate DocOfMember(d: map<string, Value>, m: Element)
  {
    NotamOf(m).Some? && d == Doc(RecordOf(NotamOf(m).value))
  }

  /** Two lists related item by item stay so when one related pair is put in front. */
  lemma ConsPaired<A, B>(x: A, m: B, ds: seq<A>, ks: seq<B>, rel: (A, B) -> bool)
    requires rel(x, m) && |ds| == |ks|
    requires forall k :: 0 <= k < |ks| ==> rel(ds[k], ks[k])
    ensures forall k :: 0 <= k < |ks| + 1 ==> rel(([x] + ds)[k], ([m] + ks)[k])
  {
    forall k | 0 < k < |ks| + 1 ensures rel(([x] + ds)[k], ([m] + ks)[k]) {
      assert ([x] + ds)[k] == ds[k - 1] && ([m] + ks)[k] == ks[k - 1];
    }
  }

  /** Records and kept members correspond item by item. */
  predicate Paired(docs: seq<map<string, Value>>, kept: seq<Element>)
  {
    |docs| == |kept| && forall k :: 0 <= k < |kept| ==> DocOfMember(docs[k], kept[k])
  }

  /** A member with a NOTAM in front adds its record in front. */
  lemma PairedCons(m: Element, rest: seq<Element>)
    requires Paired(Records(rest), Kept(rest))
    ensures Paired(Records([m] + rest), Kept([m] + rest))
  {
    ConsStep(m, rest);
    if NotamOf(m).Some? {
      var x := Doc(RecordOf(NotamOf(m).value));
      assert MemberDocs(m) == [x];
      ConsPaired(x, m, Records(rest), Kept(rest), DocOfMember);
    }
  }

  /** Exactly one record per kept member, in document order, built from that member's NOTAM. */
  lemma {:induction false} RecordsOfKept(members: seq<Element>)
    ensures |Records(members)| == |Kept(members)|
    ensures forall k :: 0 <= k < |Kept(members)| ==> DocOfMember(Records(members)[k], Kept(members)[k])
    decreases |members|
  {
    if members != [] {
      var m, rest := members[0], members[1..];
      RecordsOfKept(rest);
      PairedCons(m, rest);
      assert members == [m] + rest;
    }
  }
}
