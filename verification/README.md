# NOTAM normalisation pipeline — a verified Dafny model

This project models the normalising core of a NOTAM (Notice to Air Missions)
ingestion service. The core turns NOTAM text, or an already parsed AIXM 5.1
event tree, into flat records and then into GeoJSON features:

- **Q-line decoder** (`QLine`). Finds the leftmost `Q) FIR/QCODE/TRAFFIC/PURPOSE/SCOPE[/LOWER/UPPER][/COORDS][RADIUS]`
  pattern in a text. It splits the Q-code into subject and condition, classifies the subject into one of six
  categories, and reads absent numeric groups as 0.
- **E-field extractor** (`EField`). Dispatches on the category. It takes the first runway (`RWY 04L/22R`),
  taxiway (`TWY B2`) or obstacle-height (`200FT AMSL`) mention. A height of more than 4300 digits makes `int()`
  raise ValueError, which nothing catches.
- **Coordinate converter** (`Coordinates`, and `Aixm.ParseCoordinate` for the XML side). Converts
  `DDMM[NS]DDDMM[EW]` to `[lon, lat]` in degrees plus minutes/60, negated for S and W.
- **Validity times** (`Validity`). Labelled `B)`/`C)` values win. Otherwise the first and second standalone
  ten-digit tokens are used. `PERM` means no end time. `YYMMDDHHMM` is rewritten as `20YY-MM-DDTHH:MM:00`.
- **AIXM extractor** (`Aixm`). Walks the `hasMember` elements of the event tree in document order. It skips
  members without `Event`, `EventTimeSlice` and `textNOTAM/NOTAM`, and builds one record per remaining member.
- **GeoJSON conversion** (`GeoJson`):
  - a 32-vertex circle approximation, as a loop appending vertices and then the closing point;
  - the per-document feature builder, which rewrites a copied property map and chooses Point or Polygon;
  - the collection, which keeps the located documents in order.
- **Pipeline** (`Pipeline`). Composes the two halves: from an extracted record to its feature.

Supporting modules:
- `Wrappers` has `Option` and `Result`.
- `Scan` has character classes, greedy spans, the generic leftmost search that stands for `re.search`, and
  decimal digit strings with zero padding.
- `PyValue` models the Python values the documents hold: truthiness, `d[k]`, `xs[i]`, `d.get`, `str.strip()`
  and `int(str)`. Python's exceptions appear as the `PyError` of a `Result`.

The circle builder and the feature builder update local state step by step. They are methods (`CreateCirclePolygon`,
`ToGeoJsonFeature`, `Aixm.ExtractNotams`), each proved equal to a specification function, and the properties are
proved about those functions. The text parsers and the comprehension are pure functions.

Two behaviours of the code are worth stating plainly:
- `convert_to_iso` performs no calendar check, so month 13 or day 32 is formatted like any other value
  (`Validity.ConvertToIso`).
- `to_feature_collection` filters only on a truthy `location`, not by category (`GeoJson.ToFeatureCollection`).

## Model

| member | source | states |
|---|---|---|
| Scan.Leftmost | app/notam_text_parser.py:52-54 | The `re.search` scan. It is None exactly when no position from `p` to the end matches; otherwise it is the first matching position and its match, and no earlier position matches. |
| Scan.SpanWhile | app/notam_text_parser.py:18-20 | A greedy character-class run. Every character inside belongs to the class and the character after it does not. |
| Scan.DecimalValue | app/notam_text_parser.py:188 | `int(str(n)) == n` at the digit level: the decimal rendering of `n` reads back as `n`. |
| Scan.PadDigitsValue | app/notam_text_parser.py:188 | Formatting a digit string's value to the string's own width with zero padding gives the string back. This is what makes `{x:02d}` of `int(xx)` equal to `xx`. |
| QLine.SlashField | app/notam_text_parser.py:18-20 | A `[...]*/` group. When present, it ends at a `/` and everything before it belongs to the class. |
| QLine.TailAt | app/notam_text_parser.py:21-23 | Each optional group is taken exactly when its text is there, and is that text. Lower and upper are taken together, exactly when `ddd/ddd` follows. The coordinates are taken exactly when `/` and an 11-character coordinate token follow. The radius is taken exactly when three digits follow. |
| QLine.MatchAt | app/notam_text_parser.py:14-24 | The anchored pattern succeeds exactly when the mandatory FIR/Q-code/traffic/purpose/scope prefix matches at the position, either directly or after `Q)` and spaces. When the `Q)` form matches, it is the one taken. Every match satisfies the group constraints (`GroupsOk`). |
| QLine.BodyAt | app/notam_text_parser.py:16-24 | The pattern without its `Q)` prefix succeeds exactly when the mandatory prefix matches; FIR and Q-code are the text at their offsets. |
| QLine.FieldsAt | app/notam_text_parser.py:16-20 | A match of the mandatory prefix is the FIR/Q-code head followed by the traffic, purpose and scope runs, each ending at a `/`. |
| QLine.Classify | app/notam_text_parser.py:65-71 | The result is Other exactly when the subject is not MR, MX, FA, OB or RT; any other result is the category of that subject code. |
| QLine.ClassifySubjectOf | app/notam_text_parser.py:66-71 | Each of the five named categories is produced by its own subject code. |
| QLine.Decode | app/notam_text_parser.py:56-86 | The record built from a match. It is Valid: a 5-character `Q` code, subject `q_code[1..3]`, condition `q_code[3..5]`, the category of the subject, and numbers within 0..999. Text groups are copied, and absent numeric groups give 0. |
| QLine.DecodeNumbers | app/notam_text_parser.py:81-84 | A present numeric group is read as its own value: written back with three digits it is the group. |
| QLine.ParseQLine | app/notam_text_parser.py:47-86 | None exactly when no position matches. Otherwise the result is Valid and is the decoding of the leftmost match. |
| QLine.NoneIffNoFields | app/notam_text_parser.py:52-54 | The parser returns None exactly when no position holds the mandatory FIR/Q-code/traffic/purpose/scope prefix; every later group is optional. |
| QLine.FormatGroups | app/notam_text_parser.py:14-24 | The groups that write a decoded line back out have every optional group present. |
| QLine.MatchRender | app/notam_text_parser.py:14-24 | Matching the rendering of groups with every optional group present, whatever follows it, captures exactly those groups. |
| QLine.RoundTrip | app/notam_text_parser.py:47-86 | Decoding a formatted Valid Q-line that has coordinates, written with every optional group, followed by any text, gives the same Q-line back. |
| QLine.MatchBare | app/notam_text_parser.py:14-24 | A line that stops after `SCOPE/`, followed by text that does not start with `/` or a digit, matches with lower, upper, coordinates and radius all absent. |
| QLine.RoundTripBare | app/notam_text_parser.py:47-86 | A Valid Q-line with no coordinates and zero levels and radius, written without its optional groups and followed by such text, decodes back to itself: absent groups read as 0 and the coordinates as None. |
| QLine.FixtureBare | app/notam_text_parser.py:81-84 | `Q) CZEG/QFAXX/IV/NBO/A/` decodes with levels 0 and 0, radius 0, no coordinates and category Aerodrome. |
| QLine.Fixture | tests/test_parser_and_geojson.py:15-26 | `Q) CZEG/QFAXX/IV/NBO/A/000/999/5319N11335W005` decodes to FIR CZEG, subject FA, condition XX, Aerodrome, radius 5, coordinates `5319N11335W`. |
| Coordinates.ParseCoordinateStr | app/notam_text_parser.py:119-148 | None exactly for the empty string or when the start is not `DDDD[NS]DDDDD[EW]`. Otherwise lat = DD + MM/60, negated iff S, and lon = DDD + MM/60, negated iff W. |
| Coordinates.RoundTrip | app/notam_text_parser.py:124-148 | Parsing a formatted coordinate, followed by any text, gives its signed degrees back. Trailing characters are ignored. |
| Coordinates.Fixture | tests/test_parser_and_geojson.py:28-35 | `5319N11335W` gives lon -(113 + 35/60) and lat 53 + 19/60. |
| EField.IdEnd | app/notam_text_parser.py:97 | The runway identifier after two digits takes at most one `L`, `R` or `C`. |
| EField.RwyAt | app/notam_text_parser.py:97 | Both captured runway ends, when present, are runway identifiers: two digits and at most one L, R or C. |
| EField.TwyAt | app/notam_text_parser.py:105 | The taxiway capture is a non-empty run of upper-case letters and digits. |
| EField.RefAt | app/notam_text_parser.py:111 | The height reference is AGL or AMSL. |
| EField.HeightAt | app/notam_text_parser.py:111 | The height pattern captures a non-empty run of digits and a reference in {AGL, AMSL}. |
| EField.UnitEnd | app/notam_text_parser.py:111 | The unit alternative tries FT first: it ends two characters on exactly when FT stands there, one character on exactly when M stands there instead, and matches nothing otherwise. |
| EField.RunwayMatch | app/notam_text_parser.py:97 | A runway match exists exactly when `RWY`, at least one space and two digits stand at the position. The first end is the identifier there. The second end is present exactly when `/` and two digits follow the first, and is the identifier after the `/`. |
| EField.TaxiwayMatch | app/notam_text_parser.py:105 | A taxiway match exists exactly when `TWY`, at least one space and an upper-case letter or digit stand at the position; the capture is the whole run of upper-case letters and digits. |
| EField.HeightMatch | app/notam_text_parser.py:111 | A height match exists exactly when digits, then FT or M, then at least one space and AGL or AMSL stand at the position. The captured digits are the whole digit run, FT or M follows it, and the reference is the AGL or AMSL found after the spaces. |
| EField.RunwayDetails | app/notam_text_parser.py:95-101 | The keys are within {rwy_id, rwy_id_2}, and `rwy_id_2` only comes with `rwy_id`. The map is empty exactly when no position matches. Otherwise it holds the entries of the leftmost match, and its values are runway identifiers. |
| EField.RunwayEntries | app/notam_text_parser.py:98-101 | `rwy_id` is always set to the first end. `rwy_id_2` is set exactly when a second end was captured, and is that end. |
| EField.TaxiwayDetails | app/notam_text_parser.py:103-107 | Only `twy_id` may be set. The map is empty exactly when no position matches; otherwise `twy_id` is the capture of the leftmost match. |
| EField.HeightDetails | app/notam_text_parser.py:109-114 | The map is empty exactly when no position matches. Otherwise the leftmost match decides: its digits go through `int()`, and the only error is ValueError. A successful map has exactly the keys `height_val` and `height_ref`, the reference being AGL or AMSL. |
| EField.HeightEntries | app/notam_text_parser.py:112-114 | `int()` of the captured digits fails exactly when there are more than 4300 of them, raising ValueError. Otherwise `height_val` is their value and `height_ref` the reference. |
| EField.ParseEField | app/notam_text_parser.py:89-116 | Runway and Taxiway give their branch's map and never fail. Obstruction gives the height branch's result. Every other category gives the empty map. Only Obstruction can raise, and only ValueError. |
| EField.RunwayPair | app/notam_text_parser.py:97-101 | `RWY a/b` with two runway identifiers sets both `rwy_id` and `rwy_id_2`. |
| EField.TaxiwayAtStart | app/notam_text_parser.py:105-107 | `TWY id` sets exactly `twy_id` to the whole identifier run. |
| EField.HeightAtStart | app/notam_text_parser.py:111-114 | `<digits>FT <ref>` or `<digits>M <ref>` sets `height_val` to the digits' value and `height_ref` to the reference when there are at most 4300 digits, and raises ValueError otherwise. |
| EField.HeightValueError | app/notam_text_parser.py:111-113 | An obstruction description opening with a height of more than 4300 digits makes `parse_e_field` raise ValueError. |
| EField.RunwaySingle | app/notam_text_parser.py:97-101 | `RWY a`, where a is a runway identifier not followed by `/` and two digits, sets `rwy_id` alone. |
| EField.RunwayExample | app/notam_text_parser.py:96 | `RWY 04L/22R` gives `rwy_id` 04L and `rwy_id_2` 22R. |
| EField.RunwaySingleExample | app/notam_text_parser.py:96 | `RWY 18` gives `rwy_id` 18 and no `rwy_id_2`. |
| EField.TaxiwayExample | app/notam_text_parser.py:104 | `TWY B2` gives `twy_id` B2. |
| EField.HeightExample | app/notam_text_parser.py:110 | `200FT AMSL` gives height 200 and reference AMSL. |
| EField.HeightMetresExample | app/notam_text_parser.py:111 | `100M AGL` gives height 100 and reference AGL. |
| Validity.StartAt | app/notam_text_parser.py:160 | A `B)` match captures ten digits. |
| Validity.EndAt | app/notam_text_parser.py:161 | A `C)` match captures ten digits or `PERM`. |
| Validity.Tokens | app/notam_text_parser.py:169 | `findall` of standalone ten-digit tokens: every token is ten digits. |
| Validity.TokensAreAllStamps | app/notam_text_parser.py:169 | The scanning `findall` equals the independent definition that tests every position: it misses no token and invents none. |
| Validity.FirstToken | app/notam_text_parser.py:169-171 | There is a first token exactly when some position holds a standalone token, and the first token is the leftmost one. |
| Validity.RawTimes | app/notam_text_parser.py:160-173 | The chosen start is ten digits; the chosen end is ten digits or PERM. |
| Validity.LabelledWin | app/notam_text_parser.py:160-164 | A labelled `B)` or `C)` value, when present, is the one chosen for its slot. |
| Validity.Fallback | app/notam_text_parser.py:166-173 | An unlabelled start is the first standalone token, if any; an unlabelled end is the second, if any. |
| Validity.LabelledPair | app/notam_text_parser.py:159-164 | `B) x C) y` gives start x and end y. |
| Validity.UnlabelledPair | app/notam_text_parser.py:166-173 | Two bare tokens separated by a space give start and end from the fallback. |
| Validity.ConvertToIso | app/notam_text_parser.py:175-190 | None exactly for an absent value or PERM; otherwise the fixed splice. |
| Validity.YearSplice | app/notam_text_parser.py:180-188 | `2000 + int(YY)` formatted to four digits is `20YY`, with no range check. |
| Validity.SpliceFields | app/notam_text_parser.py:179-188 | The splice is `20YY-MM-DDTHH:MM:00`, field by field. |
| Validity.ParseValidityTimes | app/notam_text_parser.py:151-192 | Both results, when present, are 19-character timestamps. |
| Validity.TimesAreSpliced | app/notam_text_parser.py:175-192 | The start is present exactly when a raw start was found; the end exactly when a raw end other than PERM was found. Each present result is the splice of its raw value. |
| Validity.PermanentEnd | app/notam_text_parser.py:177 | Whenever the first `C)` match captures PERM, there is no end time. |
| Validity.EndAtPerm | app/notam_text_parser.py:161 | `C)`, spaces and `PERM` at a position are matched, and the capture is PERM. |
| Validity.PermanentAtStart | app/notam_text_parser.py:161-177 | A text that opens with `C) PERM`, whatever follows, gives no end time. |
| Validity.PermanentLabelledEnd | app/notam_text_parser.py:161 | In `B) x C) PERM` the first `C)` match is at offset 14 and captures PERM. |
| Validity.PermanentPair | app/notam_text_parser.py:159-177 | `B) x C) PERM` gives the splice of x as the start and no end time. |
| Validity.Example | app/notam_text_parser.py:159 | `B) 2512160925 C) 2512161200` gives 2025-12-16T09:25:00 and 2025-12-16T12:00:00. |
| PyValue.Strip | app/xml_parser.py:124 | `s.strip()` is empty exactly for whitespace-only strings, and otherwise neither starts nor ends with whitespace. |
| PyValue.ParsePyInt | app/xml_parser.py:84 | `int(s)` fails on a string of `str.isspace()` characters only. |
| PyValue.IntStrip | app/xml_parser.py:84 | What `int()` removes around its numeral is empty exactly when the text is all skipped whitespace, and otherwise it starts and ends with a character `int()` does not skip. The ASCII separators U+001C to U+001F are not skipped. |
| PyValue.ParsePyIntAccepts | app/xml_parser.py:84-87 | `int(s)` succeeds exactly when the text inside the whitespace `int()` skips is, after at most one leading `+` or `-`, digits with single underscores between digits, and has at most 4300 digits. Any other text raises ValueError, here None. |
| PyValue.RejectedAt | app/xml_parser.py:84-87 | Unsigned text without surrounding skipped whitespace is rejected when some character cannot belong to a grouped numeral. |
| PyValue.ParsePyIntRejects | app/xml_parser.py:84-87 | `int()` rejects `5.0`, `abc` and `1__0`. |
| PyValue.SeparatorNotSkipped | app/xml_parser.py:84-87 | U+001C before `5` is removed by `str.strip()`, but `int()` does not skip it and rejects the text. |
| PyValue.TooManyDigits | app/xml_parser.py:84-87 | A numeral of more than 4300 digits is rejected. |
| PyValue.ParsePyIntDigits | app/xml_parser.py:84 | A digit string reads as its value when it has at most 4300 digits, and is rejected otherwise. |
| PyValue.ParsePyIntTight | app/xml_parser.py:84 | For text without surrounding skipped whitespace, `int()` reads the signed numeral itself, including the 4300-digit limit. |
| PyValue.ParsePyIntDecimal | app/xml_parser.py:84 | `int(str(n)) == n` for every natural number whose decimal text has at most 4300 digits; a longer one is rejected. |
| PyValue.ParsePyIntMinusDigits | app/xml_parser.py:84 | `int("-" + d) == -int(d)` for every string d of at most 4300 ASCII digits; a longer one is rejected. |
| PyValue.ParsePyIntPadded | app/xml_parser.py:84 | Surrounding whitespace of the kind `int()` skips does not change what `int()` reads. |
| Aixm.WithTag | app/xml_parser.py:53 | The filtered elements all carry the tag, are among the inputs, and include every input with the tag. |
| Aixm.WithTagHead | app/xml_parser.py:54-59 | The first element kept by the tag filter is the earliest input with the tag. |
| Aixm.FindFirst | app/xml_parser.py:54-59 | `find(".//tag")` is None exactly when no descendant has the tag; otherwise it is the first descendant with the tag in document order. |
| Aixm.FindPath | app/xml_parser.py:63 | `find(".//outer/inner")` is None exactly when no `outer` descendant has an `inner` child. Otherwise it is the first `inner` child of the first such `outer`, in document order. |
| Aixm.ChildrenWithTagEmpty | app/xml_parser.py:63 | The `inner` children of a sequence of elements are none exactly when no element has one. |
| Aixm.ChildrenWithTagHead | app/xml_parser.py:63 | The first `inner` child of a sequence of elements is the first `inner` child of the first element that has one. |
| Aixm.FindText | app/xml_parser.py:70-90 | With no child of the tag, `findtext` gives its default; otherwise it gives the text of the first child with the tag. |
| Aixm.ParseCoordinate | app/xml_parser.py:14-47 | A parsed coordinate is a two-element `[lon, lat]`. |
| Aixm.ParseCoordinateAgrees | app/xml_parser.py:14-47 | `parse_coordinate` agrees with the text parser's `parse_coordinate_str` on every string. |
| Aixm.Radius | app/xml_parser.py:82-86 | A radius text that `int()` rejects gives 0. Rejected texts include non-numerals, U+001C to U+001F padding and numerals of more than 4300 digits. |
| Aixm.RadiusField | app/xml_parser.py:82-86 | `radius_nm` is the integer value of the radius text when `int()` accepts it (see `PyValue.ParsePyIntAccepts`), otherwise 0, and 0 when the child is absent. |
| Aixm.RecordFields | app/xml_parser.py:70-90 | `number` is series + number + "/" + year; `start_time` and `end_time` are the effective texts verbatim. |
| Aixm.BareNotam | app/xml_parser.py:67-102 | A NOTAM element with no children gives number "/", empty texts, radius 0 and no location. |
| Aixm.LocationField | app/xml_parser.py:79-108 | `location` is present exactly when the coordinates parse, and then it is the GeoJSON point of the parsed `[lon, lat]`. |
| Aixm.Doc | app/xml_parser.py:93-108 | The record's keys are the eight base keys, plus `location` exactly when a location was parsed. |
| Aixm.NotamOf | app/xml_parser.py:54-65 | The Event, then EventTimeSlice, then textNOTAM/NOTAM lookup yields a NOTAM element when it succeeds. |
| Aixm.MemberDocs | app/xml_parser.py:53-110 | A member yields one record when its lookup chain succeeds and none otherwise. |
| Aixm.ExtractNotams | app/xml_parser.py:49-110 | The generator loop with `continue` yields exactly the records of the `hasMember` descendants, in document order. |
| Aixm.RecordsAppend | app/xml_parser.py:53 | Records of consecutive member lists concatenate. |
| Aixm.Kept | app/xml_parser.py:53-65 | An element is kept exactly when it is one of the members and has a NOTAM: none is dropped and none is added. |
| Aixm.RecordsOfKept | app/xml_parser.py:53-110 | There is exactly one record per member with a NOTAM, in order, and record k is the record of the k-th such member. |
| Aixm.ParseNotamStr | app/xml_parser.py:120-131 | Blank input, or input that fails to parse, yields nothing. Otherwise it yields the records of the `hasMember` descendants of the parsed root in document order, one per member with a NOTAM by `RecordsOfKept`. |
| GeoJson.CirclePolygon | app/geojson_converter.py:10-45 | No polygon exactly when the radius is not positive. It fails exactly when the radius is positive and either n = 0 (IndexError) or cos(lat) = 0 (ZeroDivisionError). Otherwise it is one ring of n + 1 positions: position i is vertex i, and the last equals the first. |
| GeoJson.CreateCirclePolygon | app/geojson_converter.py:10-45 | The loop's result, including its IndexError and ZeroDivisionError cases, equals the specification. |
| GeoJson.Ring | app/geojson_converter.py:33-40 | k steps of the loop give k positions. |
| GeoJson.RingVertex | app/geojson_converter.py:33-40 | Position i of the ring is vertex i: the centre plus r/60·cos θᵢ / cos(lat) and r/60·sin θᵢ, with θᵢ = 360·i/n degrees. |
| GeoJson.LatitudeOffset | app/geojson_converter.py:31-40 | Given a sine between -1 and 1 at every vertex angle, every ring position lies within r/60 degrees of latitude of the centre. |
| GeoJson.PolygonAt | app/geojson_converter.py:70-71 | A polygon built for a feature is one closed ring of 33 positions. |
| GeoJson.FeatureOf | app/geojson_converter.py:47-91 | The properties never hold `location`, and a geometry is present exactly when the document is located. |
| GeoJson.ToGeoJsonFeature | app/geojson_converter.py:47-91 | The in-place updates of the copied properties, and the chosen geometry, equal the specification. |
| GeoJson.Unlocated | app/geojson_converter.py:59-91 | A document with no location, or a falsy one, converts without raising and has geometry None. |
| GeoJson.PropertiesRule | app/geojson_converter.py:52-85 | The properties are the document's keys minus `location`, plus `longitude` and `latitude` when located. `_id` is stringified and the coordinates are `center[0]` and `center[1]`. Every other value is unchanged. |
| GeoJson.GeometryRule | app/geojson_converter.py:61-81 | When located, a radius over 0.5 gives the 32-vertex circle around the numeric centre; otherwise it gives a Point whose coordinates are the location's own. |
| GeoJson.PointExample | tests/test_parser_and_geojson.py:37-52 | The Obstruction document with radius 0 gives Point [-113.5, 53.3] and keeps its category. |
| GeoJson.PolygonExample | tests/test_parser_and_geojson.py:54-68 | Radius 60 at [0, 0] gives a Polygon with one ring of 33 positions. |
| GeoJson.Filter | app/geojson_converter.py:101 | The comprehension's filter keeps only accepted items. |
| GeoJson.ComprehensionOk | app/geojson_converter.py:98-102 | The comprehension succeeds exactly when every accepted item converts, and then holds their conversions in order. |
| GeoJson.ComprehensionErr | app/geojson_converter.py:98-102 | A failing comprehension raises the first failing accepted item's error. |
| GeoJson.ToFeatureCollection | app/geojson_converter.py:93-107 | Every feature in the collection has a geometry. |
| GeoJson.CollectionOfLocated | app/geojson_converter.py:93-107 | There is one feature per located document, in input order, each that document's conversion. Otherwise the error is that of the first located document that fails. |
| Pipeline.RecordFeature | app/xml_parser.py:93-108 | An extracted record converts without raising (cos(lat) ≠ 0 assumed for a circle). No coordinates gives no geometry, radius ≤ 0 gives the Point at the parsed coordinates, and a positive radius gives the circle around them. |

## Left out

- XML parsing itself (`ET.parse` and `ET.fromstring`). The parsed tree is a parameter of `Aixm.ParseNotamStr`, and a parse failure is `None`. The None input of `parse_notam_str` is not modelled; the input is a string.
- `parse_notam_xml` and its file access.
- Logging with `print`.
- Python's general regular-expression engine. Each fixed pattern is a hand-written matcher.
- Unicode `\d`, `\w` and Unicode digits accepted by `int()`. Digits and word characters are ASCII only. Whitespace for `\s` and `str.strip()` is the full `str.isspace` set. For `int()` it is that set minus U+001C to U+001F.
- Floating-point arithmetic and rounding. Coordinates and the circle use exact `real` arithmetic.
- `math.sin`, `math.cos` and `math.radians`. They are a `Trig` parameter giving sine and cosine of an angle in degrees.
- Python `str()` of the `_id` value, which is a parameter.
- Dictionary key order of the produced records and properties. Maps are unordered.
- The unused `SUBJECT_CODES` and `CONDITION_CODES` tables.
- An element whose text is `None` is treated the same as one whose text is `""`.
- RwyAt: its own contract gives only the shape of the captures. When it matches, and what it captures, is stated by the lemma `EField.RunwayMatch`, so that callers do not carry the full statement.
- HeightAt: its own contract gives only that the capture is digits and the reference is AGL or AMSL. The captured run and the unit are stated by the lemma `EField.HeightMatch`, for the same reason.
- ParsePyInt: its own contract states only the blank case. The full accept and reject condition is the lemma `PyValue.ParsePyIntAccepts`.
- MatchRender: it covers lines with every optional group present, and `QLine.MatchBare` covers lines with none. Lines with only some optional groups rest on the per-group conditions of `QLine.TailAt`, with no round-trip lemma of their own.
- Validity.ConvertToIso: its input is restricted to what `parse_validity_times` passes (ten ASCII digits or PERM), so the `except` branch is not modelled.
- Aixm.Radius: `int()` is modelled for `str` arguments only (sign, digits and underscore grouping), which is the only way the extractor calls it.
- ParsePyInt: the digit limit is fixed at CPython's default of 4300. Changing it with `sys.set_int_max_str_digits` or `PYTHONINTMAXSTRDIGITS` is not modelled.
- GeoJson.FeatureOf: `location` values other than dicts, and centres other than lists, are modelled only through the `TypeError`/`KeyError`/`IndexError` that `d[k]` and `xs[i]` raise. Custom `__getitem__` objects are not modelled.
