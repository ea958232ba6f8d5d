/** The regular-expression genealogy extractor (`extract_information` in
    src/extract_information_regex.py): per line of a service record it captures the
    father, mother, birth date, birth place and last residence, and campaigns; per
    text region it joins the lines and splits the result into dated events. */
module ExtractInformation {
  import opened Wrappers
  import opened Text
  import opened Page
  import opened Literals

  // ---------------------------------------------------------------------------
  // The field patterns (all under re.IGNORECASE)
  // ---------------------------------------------------------------------------

  /** The lower-case keyword `w` at `p`, followed by what `\s+(.+)` needs. */
  predicate KeyAt(t: string, w: string, p: nat) {
    MatchesIgnoreCaseAt(t, p, w) && SpaceDotStart(t, p + |w|).Some?
  }

  /** The group of `\s+(.+)` tried at `p`, stripped: `.+` runs to the end of the line. */
  function GroupFrom(t: string, p: nat): string
    requires p <= |t| && SpaceDotStart(t, p).Some?
  {
    var q := SpaceDotStart(t, p).value;
    Strip(LineFrom(t, q))
  }

  /** The positions where `KeyAt(t, w, _)` holds, as the predicate the searches take. */
  function KeyMatches(t: string, w: string): nat -> bool {
    (p: nat) => KeyAt(t, w, p)
  }

  /** The stripped group captured after the keyword `w` matched at `p`. */
  function KeyGroup(t: string, w: string, p: nat): string
    requires p < |t| && KeyAt(t, w, p)
  {
    GroupFrom(t, p + |w|)
  }

  /** Cases 1 and 2, `.*Vader\s+(.+)` and `.*Moeder\s+(.+)`: the search starts on the
      first line holding a keyword match, and the greedy `.*` takes the LAST match on
      that line. */
  function GreedyKeyword(t: string, w: string): Option<string> {
    match FindFirst(KeyMatches(t, w), 0, |t|)
    case None => None
    case Some(p0) =>
      match FindLast(KeyMatches(t, w), p0, LineEnd(t, p0))
      case None => None
      case Some(p) => Some(KeyGroup(t, w, p))
  }

  /** Case 3, `Geboren\s+(.+)`: the first match. */
  function FirstKeyword(t: string, w: string): Option<string> {
    match FindFirst(KeyMatches(t, w), 0, |t|)
    case None => None
    case Some(p) => Some(KeyGroup(t, w, p))
  }

  /** Case 1: `.*Vader\s+(.+)` */
  function VaderOf(t: string): Option<string> {
    GreedyKeyword(t, "vader")
  }

  /** Case 2: `.*Moeder\s+(.+)` */
  function MoederOf(t: string): Option<string> {
    GreedyKeyword(t, "moeder")
  }

  /** Case 3: `Geboren\s+(.+)` */
  function BirthDateOf(t: string): Option<string> {
    FirstKeyword(t, "geboren")
  }

  /** Case 4, `^te\s+(.+)`: without MULTILINE only at the start of the text. */
  function BirthPlaceOf(t: string): Option<string> {
    if KeyAt(t, "te", 0) then Some(GroupFrom(t, 2)) else None
  }

  /** Case 5 tried at `i`: `laatst`, then `\s*`, which must stop where `gewoond`
      begins, then `gewoond te\s+(.+)`. */
  predicate ResidenceAt(t: string, i: nat) {
    MatchesIgnoreCaseAt(t, i, "laatst") && KeyAt(t, "gewoond te", SkipSpaces(t, i + 6))
  }

  function ResidenceMatches(t: string): nat -> bool {
    (i: nat) => ResidenceAt(t, i)
  }

  /** The group of case 5 matched at `i`: what follows `gewoond te` and white space. */
  function ResidenceGroup(t: string, i: nat): string
    requires i < |t| && ResidenceAt(t, i)
  {
    GroupFrom(t, SkipSpaces(t, i + 6) + 10)
  }

  /** Case 5, `laatst\s*gewoond te\s+(.+)`: the first match. */
  function ResidenceOf(t: string): Option<string> {
    match FindFirst(ResidenceMatches(t), 0, |t|)
    case None => None
    case Some(i) => Some(ResidenceGroup(t, i))
  }

  datatype Campaign = Campaign(year: string, place: string)

  /** Case 6 tried at `i`: `\b`, four digits, `\s+`, then a letter; `\s+` must stop
      at that letter. */
  predicate CampaignAt(t: string, i: nat) {
    && i + 4 <= |t| && BoundaryBefore(t, i) && AllIn(t, i, i + 4, IsDigit)
    && var b := SkipSpaces(t, i + 4);
      i + 4 < b < |t| && IsLetterIgnoreCase(t[b])
  }

  function CampaignMatches(t: string): nat -> bool {
    (i: nat) => CampaignAt(t, i)
  }

  /** Case 6, `\b(\d{4})\s+([a-zA-Z]+.*)`: the first match; the place runs to the end
      of the line. */
  function CampaignOf(t: string): Option<Campaign> {
    match FindFirst(CampaignMatches(t), 0, |t|)
    case None => None
    case Some(i) =>
      var b := SkipSpaces(t, i + 4);
      Some(Campaign(Strip(t[i..i + 4]), Strip(LineFrom(t, b))))
  }

  // ---------------------------------------------------------------------------
  // The date pattern `[0-9]{1,2}\s[A-Z]+[a-z]*\s[1-9]{4}\.*`
  // ---------------------------------------------------------------------------

  predicate IsDot(c: char) { c == '.' }

  /** `[A-Z]` (or `[a-z]`), under re.IGNORECASE when `ci`. */
  function UpperClass(ci: bool): char -> bool {
    if ci then IsLetterIgnoreCase else IsUpper
  }

  function LowerClass(ci: bool): char -> bool {
    if ci then IsLetterIgnoreCase else IsLower
  }

  /** Where `\s[A-Z]+[a-z]*\s[1-9]{4}\.*` tried at `p` ends. Each run is greedy and
      giving any of it back cannot help (what follows a run never belongs to it). */
  function DateTail(t: string, p: nat, ci: bool): (r: Option<nat>)
    ensures r.Some? ==> p < r.value <= |t|
  {
    if p < |t| && IsSpace(t[p]) then
      var u := SkipWhile(t, p + 1, UpperClass(ci));
      var l := SkipWhile(t, u, LowerClass(ci));
      if p + 1 < u && l + 5 <= |t| && IsSpace(t[l]) && AllIn(t, l + 1, l + 5, IsNonZeroDigit) then
        Some(SkipWhile(t, l + 5, IsDot))
      else
        None
    else
      None
  }

  /** Where the date pattern tried at `k` ends: `[0-9]{1,2}` tries two digits first. */
  function DateEnd(t: string, k: nat, ci: bool): (r: Option<nat>)
    ensures r.Some? ==> k < r.value <= |t|
  {
    if k + 1 < |t| && IsDigit(t[k]) && IsDigit(t[k + 1]) && DateTail(t, k + 2, ci).Some? then
      DateTail(t, k + 2, ci)
    else if k < |t| && IsDigit(t[k]) then
      DateTail(t, k + 1, ci)
    else
      None
  }

  /** The positions where the date pattern matches. */
  function DateMatches(t: string, ci: bool): nat -> bool {
    (k: nat) => DateEnd(t, k, ci).Some?
  }

  predicate IsNewlineAt(t: string, j: nat) {
    j < |t| && t[j] == '\n'
  }

  function Newlines(t: string): nat -> bool {
    (j: nat) => IsNewlineAt(t, j)
  }

  /** Where a search that starts at `pos` and finds `.*?` ending at `k` begins: the
      lazy `.*?` cannot cross a newline, so on the line of `k`. */
  function LineStartBefore(t: string, pos: nat, k: nat): (s: nat)
    requires pos <= k
    ensures pos <= s <= k
  {
    match FindLast(Newlines(t), pos, k)
    case None => pos
    case Some(j) => j + 1
  }

  /** `re.findall(r"(.*?DATE)", text)` from `pos`, case-sensitive: each match is the
      text up to and including the next date, on the date's line. */
  function FindEvents(t: string, pos: nat): (r: seq<string>)
    requires pos <= |t|
    decreases |t| - pos
  {
    match FindFirst(DateMatches(t, false), pos, |t|)
    case None => []
    case Some(k) =>
      var e := DateEnd(t, k, false).value;
      [t[LineStartBefore(t, pos, k)..e]] + FindEvents(t, e)
  }

  datatype Event = Event(context: string, date: string)

  /** `re.search(r'(.*)?(DATE)', event, re.IGNORECASE)` from start `s`: the greedy
      `(.*)` takes the LAST position on the line from which the date pattern matches;
      a line without one moves the search to the next line. */
  function SearchEvent(e: string, s: nat): (r: Result<Event, Fault>)
    requires s <= |e|
    decreases |e| - s
  {
    var le := LineEnd(e, s);
    match FindLast(DateMatches(e, true), s, le + 1)
    case Some(j) => Ok(Event(Strip(e[s..j]), Strip(e[j..DateEnd(e, j, true).value])))
    case None => if le < |e| then SearchEvent(e, le + 1) else Err(NoEventMatch)
  }

  /** Lines 166-172 on the matches of one region. */
  function SplitEvents(ms: seq<string>): (r: Result<seq<Event>, Fault>)
    ensures r.Ok? ==> |r.value| == |ms|
  {
    if ms == [] then
      Ok([])
    else
      var ev :- SearchEvent(ms[0], 0);
      var rest :- SplitEvents(ms[1..]);
      Ok([ev] + rest)
  }

  /** Lines 162-172 on the text of one region: events only from two dates on. */
  function RegionEvents(text: string): Result<seq<Event>, Fault> {
    var ms := FindEvents(text, 0);
    if |ms| >= 2 then SplitEvents(ms) else Ok([])
  }

  /** The loop of lines 160-172 over `text_by_region.items()`. */
  function EventsOf(regions: seq<(string, string)>): Result<seq<Event>, Fault> {
    if regions == [] then
      Ok([])
    else
      var evs :- RegionEvents(regions[0].1);
      var rest :- EventsOf(regions[1..]);
      Ok(evs + rest)
  }

  // ---------------------------------------------------------------------------
  // text_by_region, an insertion-ordered dict as an association list
  // ---------------------------------------------------------------------------

  function Lookup(m: seq<(string, string)>, k: string): Option<string> {
    if m == [] then None else if m[0].0 == k then Some(m[0].1) else Lookup(m[1..], k)
  }

  function Keys(m: seq<(string, string)>): seq<string> {
    if m == [] then [] else [m[0].0] + Keys(m[1..])
  }

  /** Lines 119-124: `text_by_region[k] += f" {t}"`, or a new entry at the end. */
  function AddText(m: seq<(string, string)>, k: string, t: string): (r: seq<(string, string)>)
    ensures Lookup(r, k) == Some(if Lookup(m, k).Some? then Lookup(m, k).value + " " + t else t)
    ensures forall k' :: k' != k ==> Lookup(r, k') == Lookup(m, k')
    ensures Keys(r) == if Lookup(m, k).Some? then Keys(m) else Keys(m) + [k]
  {
    if m == [] then [(k, t)]
    else if m[0].0 == k then [(k, m[0].1 + " " + t)] + m[1..]
    else [m[0]] + AddText(m[1..], k, t)
  }

  // ---------------------------------------------------------------------------
  // The loop over the lines
  // ---------------------------------------------------------------------------

  datatype Info = Info(
    vader: Option<string>,
    moeder: Option<string>,
    birthDate: Option<string>,
    birthPlace: Option<string>,
    lastResidence: Option<string>)

  /** Lines 96-102: every field starts as None. */
  const NoInfo := Info(None, None, None, None, None)

  /** What the loop of lines 109-157 carries from line to line. */
  datatype Acc = Acc(info: Info, campaigns: seq<Campaign>, regions: seq<(string, string)>)

  const Start := Acc(NoInfo, [], [])

  /** `a` if it holds a value, else `b`. */
  function Or(a: Option<string>, b: Option<string>): Option<string> {
    if a.Some? then a else b
  }

  /** Cases 1-5 on one text: a match overwrites, except for the birth place, which is
      only set while still None. */
  function ReadFields(info: Info, t: string): Info {
    Info(
      Or(VaderOf(t), info.vader),
      Or(MoederOf(t), info.moeder),
      Or(BirthDateOf(t), info.birthDate),
      Or(info.birthPlace, BirthPlaceOf(t)),
      Or(ResidenceOf(t), info.lastResidence))
  }

  function CampaignList(c: Option<Campaign>): seq<Campaign> {
    if c.Some? then [c.value] else []
  }

  /** Lines 110-157 on one line; reading `.text` of a missing PlainText raises. */
  function Step(a: Acc, line: TextLine): Result<Acc, Fault> {
    match line.plainText
    case None => Err(NoPlainText)
    case Some(None) => Ok(a)
    case Some(Some(t)) =>
      Ok(Acc(ReadFields(a.info, t), a.campaigns + CampaignList(CampaignOf(t)), AddText(a.regions, line.regionId, t)))
  }

  function Scan(lines: seq<TextLine>, a: Acc): Result<Acc, Fault>
    decreases |lines|
  {
    if lines == [] then
      Ok(a)
    else
      var b :- Step(a, lines[0]);
      Scan(lines[1..], b)
  }

  datatype Extraction = Extraction(info: Info, campaigns: seq<Campaign>, regions: seq<(string, string)>, events: seq<Event>)

  /** Lines 96-172 on the selected lines of one page. */
  function Extract(lines: seq<TextLine>): Result<Extraction, Fault> {
    var a :- Scan(lines, Start);
    var events :- EventsOf(a.regions);
    Ok(Extraction(a.info, a.campaigns, a.regions, events))
  }

  // ---------------------------------------------------------------------------
  // The row written for a page
  // ---------------------------------------------------------------------------

  /** Line 177: `''.join(xml_file.split('/')[-1].split(".")[:-1])`. */
  function RowName(xmlFile: string): string {
    var pieces := Split(LastPiece(xmlFile, '/'), '.');
    Join(pieces[..|pieces| - 1], "")
  }

  datatype Row = Row(name: string, info: Info, campaigns: seq<Campaign>, events: seq<Event>)

  /** `extract_information(xml_file, output_file)`: the row it appends. The handler of
      line 186 prints `file_path`, which is not defined in the function. */
  function ExtractRow(xmlFile: string, doc: Document<seq<TextLine>>): (r: Result<Row, Fault>)
    ensures doc.Unreadable? ==> r == Err(MissingFile)
    ensures doc.Malformed? ==> r == Err(UndefinedName)
    ensures doc.Parsed? ==> (r.Ok? <==> Extract(doc.content).Ok?)
    ensures r.Ok? ==> r.value.name == RowName(xmlFile)
  {
    match doc
    case Unreadable => Err(MissingFile)
    case Malformed => Err(UndefinedName)
    case Parsed(lines) =>
      var x :- Extract(lines);
      Ok(Row(RowName(xmlFile), x.info, x.campaigns, x.events))
  }

  /** `{"Year": c.year, "Place": c.place}` for each campaign (line 155). */
  function CampaignPairs(cs: seq<Campaign>): (r: seq<(string, string)>)
    ensures |r| == |cs| && forall k :: 0 <= k < |cs| ==> r[k] == (cs[k].year, cs[k].place)
  {
    seq(|cs|, k requires 0 <= k < |cs| => (cs[k].year, cs[k].place))
  }

  /** `{'Context': e.context, 'Date': e.date}` for each event (lines 167-170). */
  function EventPairs(es: seq<Event>): (r: seq<(string, string)>)
    ensures |r| == |es| && forall k :: 0 <= k < |es| ==> r[k] == (es[k].context, es[k].date)
  {
    seq(|es|, k requires 0 <= k < |es| => (es[k].context, es[k].date))
  }

  /** The `csv` writer writes `None` as an empty cell, so a field never found and a
      field found empty look the same in the file. */
  function Cell(v: Option<string>): string {
    match v
    case None => ""
    case Some(s) => s
  }

  /** Lines 174-184: the eight cells handed to `csvwriter.writerow`. */
  function Cells(row: Row): (r: seq<string>)
    ensures |r| == 8 && r[0] == row.name
    ensures r[6] == [] <==> row.campaigns == []
    ensures r[7] == [] <==> row.events == []
  {
    ShowPairsEmpty("Year", "Place", CampaignPairs(row.campaigns));
    ShowPairsEmpty("Context", "Date", EventPairs(row.events));
    [row.name, Cell(row.info.vader), Cell(row.info.moeder), Cell(row.info.birthDate),
     Cell(row.info.birthPlace), Cell(row.info.lastResidence),
     ShowPairs("Year", "Place", CampaignPairs(row.campaigns)),
     ShowPairs("Context", "Date", EventPairs(row.events))]
  }

  // ---------------------------------------------------------------------------
  // The loops, as written
  // ---------------------------------------------------------------------------

  /** Cases 1-5 (lines 126-150) on one text. */
  method ReadLine(info0: Info, t: string) returns (info: Info)
    ensures info == ReadFields(info0, t)
  {
    info := info0;
    var vader := VaderOf(t);
    if vader.Some? {
      info := info.(vader := vader);
    }
    var moeder := MoederOf(t);
    if moeder.Some? {
      info := info.(moeder := moeder);
    }
    var born := BirthDateOf(t);
    if born.Some? {
      info := info.(birthDate := born);
    }
    assert info == Info(Or(vader, info0.vader), Or(moeder, info0.moeder), Or(born, info0.birthDate), info0.birthPlace, info0.lastResidence);
    var place := BirthPlaceOf(t);
    if place.Some? && info.birthPlace.None? {
      info := info.(birthPlace := place);
    }
    assert info == Info(Or(vader, info0.vader), Or(moeder, info0.moeder), Or(born, info0.birthDate), Or(info0.birthPlace, place), info0.lastResidence);
    var residence := ResidenceOf(t);
    if residence.Some? {
      info := info.(lastResidence := residence);
    }
  }

  /** The loop of lines 109-157: the fields are overwritten, the region texts extended
      and the campaigns appended line by line. */
  method ScanLines(lines: seq<TextLine>) returns (r: Result<Acc, Fault>)
    ensures r == Scan(lines, Start)
  {
    var info := NoInfo;
    var campaigns: seq<Campaign> := [];
    var regions: seq<(string, string)> := [];
    var i := 0;
    while i < |lines|
      invariant i <= |lines|
      invariant Scan(lines, Start) == Scan(lines[i..], Acc(info, campaigns, regions))
    {
      assert lines[i..][1..] == lines[i + 1..];
      ghost var a := Acc(info, campaigns, regions);
      var line := lines[i];
      if line.plainText.None? {
        return Err(NoPlainText);
      }
      if line.plainText.value.Some? {
        var t := line.plainText.value.value;
        regions := AddText(regions, line.regionId, t);
        info := ReadLine(info, t);
        var campaign := CampaignOf(t);
        if campaign.Some? {
          campaigns := campaigns + [campaign.value];
        } else {
          assert campaigns + [] == campaigns;
        }
        assert Step(a, line) == Ok(Acc(info, campaigns, regions));
      } else {
        assert Step(a, line) == Ok(a);
      }
      i := i + 1;
    }
    return Ok(Acc(info, campaigns, regions));
  }

  /** Lines 162-172 on one region's text. */
  method EventsOfRegion(text: string) returns (r: Result<seq<Event>, Fault>)
    ensures r == RegionEvents(text)
  {
    var found := FindEvents(text, 0);
    if |found| < 2 {
      return Ok([]);
    }
    var events: seq<Event> := [];
    assert found[0..] == found;
    assert forall v: seq<Event> :: [] + v == v;
    for k := 0 to |found|
      invariant SplitEvents(found) == After(events, SplitEvents(found[k..]))
    {
      assert found[k..][1..] == found[k + 1..];
      var ev := SearchEvent(found[k], 0);
      if ev.Err? {
        return Err(ev.error);
      }
      assert forall v: seq<Event> :: events + ([ev.value] + v) == (events + [ev.value]) + v;
      events := events + [ev.value];
    }
    assert found[|found|..] == [] && events + [] == events;
    return Ok(events);
  }

  /** The loop of lines 160-172 over the regions, in insertion order. */
  method AllEvents(regions: seq<(string, string)>) returns (r: Result<seq<Event>, Fault>)
    ensures r == EventsOf(regions)
  {
    var events: seq<Event> := [];
    assert regions[0..] == regions;
    assert forall v: seq<Event> :: [] + v == v;
    for j := 0 to |regions|
      invariant EventsOf(regions) == After(events, EventsOf(regions[j..]))
    {
      assert regions[j..][1..] == regions[j + 1..];
      var evs := EventsOfRegion(regions[j].1);
      if evs.Err? {
        return Err(evs.error);
      }
      assert forall v: seq<Event> :: events + (evs.value + v) == (events + evs.value) + v;
      events := events + evs.value;
    }
    assert regions[|regions|..] == [] && events + [] == events;
    return Ok(events);
  }

  /** Lines 96-172. */
  method ExtractInformation(lines: seq<TextLine>) returns (r: Result<Extraction, Fault>)
    ensures r == Extract(lines)
  {
    var a := ScanLines(lines);
    if a.Err? {
      return Err(a.error);
    }
    var events := AllEvents(a.value.regions);
    if events.Err? {
      return Err(events.error);
    }
    return Ok(Extraction(a.value.info, a.value.campaigns, a.value.regions, events.value));
  }
}
