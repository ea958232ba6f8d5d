/** The legacy line labeller of `src/label_regions.py`: a cascade of nine regular
    expression cases over the text of each line, each appending a marker
    ` structure {type:X;}` to the line's `custom` attribute, for the four labels
    Name, Date, Place and Orde. */
module LabelRegions {
  import opened Wrappers
  import opened Text
  import opened Page

  // ---------------------------------------------------------------------------
  // Markers
  // ---------------------------------------------------------------------------

  /** The text a case appends to `custom`. */
  function Marker(tag: string): string {
    " structure {type:" + tag + ";}"
  }

  const Tags: set<string> := {"Name", "Date", "Place", "Orde"}

  /** The literal the guards of Cases 7 and 9 look for. */
  function TypeTag(tag: string): string {
    "{type:" + tag + ";}"
  }

  // ---------------------------------------------------------------------------
  // The patterns, as predicates on the text of a line
  // ---------------------------------------------------------------------------

  /** `$` without MULTILINE: at the end, or just before a final newline. */
  predicate DollarAt(t: string, f: nat) {
    f == |t| || (f + 1 == |t| && t[f] == '\n')
  }

  /** Cases 1 and 2: `.*Vader\s+(.+)` and `.*Moeder\s+(.+)` under IGNORECASE, with
      `w` the keyword in lower case. A search may start anywhere, so the leading `.*`
      adds nothing: the keyword occurs, followed by white space and then a character
      other than a newline. */
  predicate KeywordMatch(t: string, w: string) {
    exists i | 0 <= i <= |t| :: MatchesIgnoreCaseAt(t, i, w) && SpaceDotStart(t, i + |w|).Some?
  }

  /** Case 3 tried at `i`, with `\s+` covering `t[i + 7..b]`, `(.+)` covering `t[b..e]`
      and `^` at `e`: without MULTILINE, `^` only matches at position 0. */
  predicate GeborenAt(t: string, i: nat, b: nat, e: nat) {
    && i + 7 < b < e <= |t|
    && MatchesIgnoreCaseAt(t, i, "geboren")
    && AllIn(t, i + 7, b, IsSpace)
    && AllIn(t, b, e, NotNewline)
    && e == 0
    && LookaheadTail(t, e)
  }

  /** `(?!.*te\\s+).+$` at `e`, under IGNORECASE. */
  predicate LookaheadTail(t: string, e: nat)
    requires e <= |t|
  {
    && !(exists j | e <= j <= |t| :: AllIn(t, e, j, NotNewline) && MatchesIgnoreCaseAt(t, j, "te")
           && j + 2 < |t| && IsSpace(t[j + 2]))
    && e < LineEnd(t, e) && DollarAt(t, LineEnd(t, e))
  }

  /** Case 3: `Geboren\s+(.+)^(?!.*te\s+).+$` under IGNORECASE. */
  predicate GeborenMatch(t: string) {
    exists i, b, e | 0 <= i <= b <= e <= |t| :: GeborenAt(t, i, b, e)
  }

  /** Case 4 tried at `i`: `\b`, `te`, `\s+` over `t[i + 2..b]`, `[A-Z]+` over `t[b..c]`,
      `(.+)` over `t[c..f]` and `$` at `f`; the case is case-sensitive. */
  predicate TeAt(t: string, i: nat, b: nat, c: nat, f: nat) {
    && i + 2 < b < c < f <= |t|
    && BoundaryBefore(t, i) && MatchesAt(t, i, "te")
    && AllIn(t, i + 2, b, IsSpace)
    && AllIn(t, b, c, IsUpper)
    && AllIn(t, c, f, NotNewline)
    && DollarAt(t, f)
  }

  /** Case 4: `\bte\s+[A-Z]+(.+)$` */
  predicate TeMatch(t: string) {
    exists i, b, c, f | 0 <= i <= b <= c <= f <= |t| :: TeAt(t, i, b, c, f)
  }

  /** Case 5 tried at `i`: `laatst`, `\s*` over `t[i + 6..j]`, then `gewoond te\s+(.+)`
      from `j`, under IGNORECASE. */
  predicate LaatstAt(t: string, i: nat, j: nat) {
    && i + 6 <= j <= |t|
    && MatchesIgnoreCaseAt(t, i, "laatst")
    && AllIn(t, i + 6, j, IsSpace)
    && MatchesIgnoreCaseAt(t, j, "gewoond te")
    && SpaceDotStart(t, j + 10).Some?
  }

  /** Case 5: `laatst\s*gewoond te\s+(.+)` under IGNORECASE. */
  predicate LaatstMatch(t: string) {
    exists i, j | 0 <= i <= j <= |t| :: LaatstAt(t, i, j)
  }

  /** Case 6 tried at `i`: `[0-9]{1,2}` over `t[i..i + d]`, `\s`, `[A-Z]+[a-z]*` over
      `t[i + d + 1..b]`, `\s` and `[1-9]{4}`; under IGNORECASE both letter classes are
      the letters of `IsLetterIgnoreCase`, and the trailing `\.*` may match nothing. */
  predicate DateAt(t: string, i: nat, d: nat, b: nat) {
    && 1 <= d <= 2 && i + d + 1 < b && b + 5 <= |t|
    && AllIn(t, i, i + d, IsDigit)
    && IsSpace(t[i + d])
    && AllIn(t, i + d + 1, b, IsLetterIgnoreCase)
    && IsSpace(t[b])
    && AllIn(t, b + 1, b + 5, IsNonZeroDigit)
  }

  /** Case 6: `[0-9]{1,2}\s[A-Z]+[a-z]*\s[1-9]{4}\.*` under IGNORECASE. */
  predicate DateMatch(t: string) {
    exists i, d, b | 0 <= i <= b <= |t| && 0 <= d <= 2 :: DateAt(t, i, d, b)
  }

  /** Case 7 at `i`: `\b[1-9]{4}\b` */
  predicate YearAt(t: string, i: nat) {
    i + 4 <= |t| && BoundaryBefore(t, i) && AllIn(t, i, i + 4, IsNonZeroDigit) && BoundaryAfter(t, i + 4)
  }

  predicate YearMatch(t: string) {
    exists i | 0 <= i <= |t| :: YearAt(t, i)
  }

  /** Case 8 at `i`: `\borde\b` under IGNORECASE. */
  predicate OrdeAt(t: string, i: nat) {
    i + 4 <= |t| && BoundaryBefore(t, i) && MatchesIgnoreCaseAt(t, i, "orde") && BoundaryAfter(t, i + 4)
  }

  predicate OrdeMatch(t: string) {
    exists i | 0 <= i <= |t| :: OrdeAt(t, i)
  }

  /** `[\s\W]` */
  predicate IsSeparator(c: char) {
    IsSpace(c) || !IsWordChar(c)
  }

  /** Where the scan of `[A-Z][a-z]*(?:[\s\W]+[A-Z][a-z]*)+` stands: before the first
      capital, inside a word, or inside a run of separators. */
  datatype NameState = BeforeWord | InWord | InSeparator

  /** The three classes `[A-Z]`, `[a-z]` and `[\s\W]` are disjoint, so one left-to-right
      scan decides whether `u[i..]` completes the pattern from state `st` after `words`
      words. */
  function NameScan(u: string, i: nat, st: NameState, words: nat): bool
    requires i <= |u|
    decreases |u| - i
  {
    if i == |u| then st == InWord && words >= 2
    else
      var c := u[i];
      match st
      case BeforeWord => IsUpper(c) && NameScan(u, i + 1, InWord, words + 1)
      case InWord =>
        if IsLower(c) then NameScan(u, i + 1, InWord, words)
        else IsSeparator(c) && NameScan(u, i + 1, InSeparator, words)
      case InSeparator =>
        if IsSeparator(c) then NameScan(u, i + 1, InSeparator, words)
        else IsUpper(c) && NameScan(u, i + 1, InWord, words + 1)
  }

  /** `[A-Z][a-z]*(?:[\s\W]+[A-Z][a-z]*)+[.!?]?` matching all of `u`. */
  predicate NameWords(u: string) {
    NameScan(u, 0, BeforeWord, 0)
    || (|u| > 0 && u[|u| - 1] in ".!?" && NameScan(u[..|u| - 1], 0, BeforeWord, 0))
  }

  /** Case 9: `^[A-Z][a-z]*(?:[\s\W]+[A-Z][a-z]*)+[.!?]?$`, case-sensitive. */
  predicate NameMatch(t: string) {
    NameWords(t) || (|t| > 0 && t[|t| - 1] == '\n' && NameWords(t[..|t| - 1]))
  }

  // ---------------------------------------------------------------------------
  // The cascade
  // ---------------------------------------------------------------------------

  /** `float(text_coordinates.split(",")[0])` for an integer first coordinate;
      `None` is the ValueError. */
  function FirstX(coords: string): Option<int> {
    ParseInt(Split(coords, ',')[0])
  }

  /** `int(width)`: a page without `imageWidth` gives `int(None)`. */
  function PageWidth(width: Option<string>): Result<int, Fault> {
    match width
    case None => Err(NoWidth)
    case Some(w) =>
      match ParseInt(w)
      case None => Err(BadNumber)
      case Some(n) => Ok(n)
  }

  /** The line's `custom` attribute and the variable `new_region`, which is shared by
      all lines of the page and unbound (`None`) until a case first assigns it. */
  datatype Carry = Carry(custom: string, stale: Option<string>)

  /** `new_region = v; line.set("custom", new_region)` */
  function Set(v: string): Carry {
    Carry(v, Some(v))
  }

  function Mark(c: Carry, tag: string): Carry {
    Set(c.custom + Marker(tag))
  }

  /** Cases 1 to 4. */
  function EarlyCases(t: string, c: Carry): Carry {
    var c1 := if KeywordMatch(t, "vader") then Mark(c, "Name") else c;
    var c2 := if KeywordMatch(t, "moeder") then Mark(c1, "Name") else c1;
    var c3 := if GeborenMatch(t) then Mark(c2, "Date") else c2;
    if TeMatch(t) then Mark(c3, "Place") else c3
  }

  /** Case 5, which reads `new_region` where it meant to assign `nnew_region`: the line
      takes the last value written by any case, of this line or an earlier one. */
  function Case5(t: string, c: Carry): Result<Carry, Fault> {
    if !LaatstMatch(t) then Ok(c)
    else if c.stale.None? then Err(UnboundRegion)
    else Ok(Set(c.stale.value + Marker("Place")))
  }

  /** Cases 6 to 8. */
  function LateCases(t: string, c: Carry): Carry {
    var c6 := if DateMatch(t) then Mark(c, "Date") else c;
    var c7 := if !YearMatch(t) then c6
              else if Contains(c6.custom, TypeTag("Date")) then Set(c6.custom)
              else Mark(c6, "Date");
    if OrdeMatch(t) then Mark(c7, "Orde") else c7
  }

  /** Case 9: the position test reads the first x coordinate, then the page width. */
  function Case9(t: string, coords: string, width: Option<string>, c: Carry): Result<Carry, Fault> {
    if !NameMatch(t) then Ok(c)
    else
      match FirstX(coords)
      case None => Err(BadNumber)
      case Some(x) =>
        var w :- PageWidth(width);
        if (x as real) < (w as real) / 4.0 then
          Ok(Set(if Contains(c.custom, TypeTag("Name")) then c.custom else c.custom + Marker("Name")))
        else Ok(c)
  }

  /** Lines 85-149 for a line whose text is `t`. */
  function Cascade(t: string, coords: string, width: Option<string>, c: Carry): Result<Carry, Fault> {
    var c5 :- Case5(t, EarlyCases(t, c));
    Case9(t, coords, width, LateCases(t, c5))
  }

  /** One iteration of the loop of lines 74-149: the text and the coordinates are
      fetched first, and a line without text is then skipped. */
  function LabelLine(line: TextLine, width: Option<string>, stale: Option<string>): Result<(TextLine, Option<string>), Fault> {
    match line.plainText
    case None => Err(NoPlainText)
    case Some(text) =>
      match line.coords
      case None => Err(NoCoords)
      case Some(cs) =>
        match text
        case None => Ok((line, stale))
        case Some(t) =>
          var c :- Cascade(t, cs, width, Carry(line.custom, stale));
          Ok((line.(custom := c.custom), c.stale))
  }

  function LabelLines(lines: seq<TextLine>, width: Option<string>, stale: Option<string>): (r: Result<seq<TextLine>, Fault>)
    ensures r.Ok? ==> |r.value| == |lines|
    decreases |lines|
  {
    if lines == [] then Ok([])
    else
      var step :- LabelLine(lines[0], width, stale);
      var rest :- LabelLines(lines[1..], width, step.1);
      Ok([step.0] + rest)
  }

  /** `label_xml` on the selected lines of one page whose `imageWidth` is `width`. The
      width is read through `result[0]`, which raises on a page without lines. */
  function LabelPage(lines: seq<TextLine>, width: Option<string>): Result<seq<TextLine>, Fault> {
    if lines == [] then Err(NoLines) else LabelLines(lines, width, None)
  }

  /** The name `label_xml` writes to: `strip('_fixed.xml')` removes characters of that
      set from both ends, not the suffix. */
  function OutputPath(xmlFile: string, outputDir: string): string {
    outputDir + "/labeled/" + StripChars(LastPiece(xmlFile, '/'), "_fixed.xml") + "_labeled.xml"
  }

  /** Case 3 never adds anything: without MULTILINE its `^` only matches at position 0,
      and the pattern places it after `Geboren`, white space and one character. */
  lemma GeborenNeverMatches(t: string)
    ensures !GeborenMatch(t)
  {
  }

  // ---------------------------------------------------------------------------
  // The labeller, in place
  // ---------------------------------------------------------------------------

  /** The lines with the `custom` attribute of line `i` set to `v`. */
  function WithCustom(s: seq<TextLine>, i: nat, v: string): (r: seq<TextLine>)
    requires i < |s|
    ensures |r| == |s| && r[i].custom == v
  {
    s[i := s[i].(custom := v)]
  }

  /** Setting the attribute twice is setting it to the later value. */
  lemma WithCustomTwice(s: seq<TextLine>, i: nat, a: string, b: string)
    requires i < |s|
    ensures WithCustom(WithCustom(s, i, a), i, b) == WithCustom(s, i, b)
  {
  }

  /** `new_region = line.get("custom") + marker; line.set("custom", new_region)` */
  method AppendMarker(lines: array<TextLine>, i: nat, tag: string) returns (v: string)
    requires i < lines.Length
    modifies lines
    ensures v == old(lines[i]).custom + Marker(tag)
    ensures lines[..] == WithCustom(old(lines[..]), i, v)
  {
    v := lines[i].custom + Marker(tag);
    lines[i] := lines[i].(custom := v);
  }

  /** `line.set("custom", v)` */
  method SetCustom(lines: array<TextLine>, i: nat, v: string)
    requires i < lines.Length
    modifies lines
    ensures lines[..] == WithCustom(old(lines[..]), i, v)
  {
    lines[i] := lines[i].(custom := v);
  }

  /** Cases 1 to 4 on `lines[i]`. */
  method EarlyCasesOn(lines: array<TextLine>, i: nat, t: string, newRegion0: Option<string>) returns (newRegion: Option<string>)
    requires i < lines.Length
    modifies lines
    ensures var c := EarlyCases(t, Carry(old(lines[i]).custom, newRegion0));
      newRegion == c.stale && lines[..] == WithCustom(old(lines[..]), i, c.custom)
  {
    newRegion := newRegion0;
    if KeywordMatch(t, "vader") {
      var v := AppendMarker(lines, i, "Name");
      newRegion := Some(v);
    }
    if KeywordMatch(t, "moeder") {
      var v := AppendMarker(lines, i, "Name");
      newRegion := Some(v);
    }
    // Case 3 cannot fire: its `^` stands after at least nine characters.
    GeborenNeverMatches(t);
    if TeMatch(t) {
      var v := AppendMarker(lines, i, "Place");
      newRegion := Some(v);
    }
  }

  /** Case 5 on `lines[i]`, which appends to the stale `new_region`. */
  method Case5On(lines: array<TextLine>, i: nat, t: string, newRegion0: Option<string>) returns (r: Result<Option<string>, Fault>)
    requires i < lines.Length
    modifies lines
    ensures var spec := Case5(t, Carry(old(lines[i]).custom, newRegion0));
      && (r.Ok? <==> spec.Ok?) && (r.Err? ==> r.error == spec.error)
      && (r.Ok? ==> r.value == spec.value.stale && lines[..] == WithCustom(old(lines[..]), i, spec.value.custom))
  {
    if LaatstMatch(t) {
      if newRegion0.None? {
        return Err(UnboundRegion);
      }
      var v := newRegion0.value + Marker("Place");
      SetCustom(lines, i, v);
      return Ok(Some(v));
    }
    assert lines[..] == WithCustom(old(lines[..]), i, lines[i].custom);
    return Ok(newRegion0);
  }

  /** Cases 6 to 8 on `lines[i]`. */
  method LateCasesOn(lines: array<TextLine>, i: nat, t: string, newRegion0: Option<string>) returns (newRegion: Option<string>)
    requires i < lines.Length
    modifies lines
    ensures var c := LateCases(t, Carry(old(lines[i]).custom, newRegion0));
      newRegion == c.stale && lines[..] == WithCustom(old(lines[..]), i, c.custom)
  {
    newRegion := newRegion0;
    if DateMatch(t) {
      var v := AppendMarker(lines, i, "Date");
      newRegion := Some(v);
    }
    if YearMatch(t) {
      var v := lines[i].custom;
      if !Contains(v, TypeTag("Date")) {
        v := v + Marker("Date");
        SetCustom(lines, i, v);
      }
      newRegion := Some(v);
    }
    if OrdeMatch(t) {
      var v := AppendMarker(lines, i, "Orde");
      newRegion := Some(v);
    }
  }

  /** Case 9 on `lines[i]`. */
  method Case9On(lines: array<TextLine>, i: nat, t: string, coords: string, width: Option<string>, newRegion0: Option<string>)
    returns (r: Result<Option<string>, Fault>)
    requires i < lines.Length
    modifies lines
    ensures var spec := Case9(t, coords, width, Carry(old(lines[i]).custom, newRegion0));
      && (r.Ok? <==> spec.Ok?) && (r.Err? ==> r.error == spec.error)
      && (r.Ok? ==> r.value == spec.value.stale && lines[..] == WithCustom(old(lines[..]), i, spec.value.custom))
  {
    assert lines[..] == WithCustom(old(lines[..]), i, lines[i].custom);
    if NameMatch(t) {
      var x := FirstX(coords);
      if x.None? {
        return Err(BadNumber);
      }
      var w := PageWidth(width);
      if w.Err? {
        return Err(w.error);
      }
      if (x.value as real) < (w.value as real) / 4.0 {
        var v := lines[i].custom;
        if !Contains(v, TypeTag("Name")) {
          v := v + Marker("Name");
        }
        SetCustom(lines, i, v);
        return Ok(Some(v));
      }
    }
    return Ok(newRegion0);
  }

  /** Cases 1-9 (lines 85-149) on `lines[i]`, whose text is `t`; `newRegion0` is the
      shared variable `new_region` before the line, and the result its value after. */
  method LabelText(lines: array<TextLine>, i: nat, t: string, coords: string, width: Option<string>, newRegion0: Option<string>)
    returns (r: Result<Option<string>, Fault>)
    requires i < lines.Length
    modifies lines
    ensures var spec := Cascade(t, coords, width, Carry(old(lines[i]).custom, newRegion0));
      && (r.Ok? <==> spec.Ok?) && (r.Err? ==> r.error == spec.error)
      && (r.Ok? ==> r.value == spec.value.stale && lines[..] == WithCustom(old(lines[..]), i, spec.value.custom))
  {
    ghost var s0 := lines[..];
    var n := EarlyCasesOn(lines, i, t, newRegion0);
    var s5 := Case5On(lines, i, t, n);
    if s5.Err? {
      return Err(s5.error);
    }
    WithCustomTwice(s0, i, EarlyCases(t, Carry(s0[i].custom, newRegion0)).custom, lines[i].custom);
    n := LateCasesOn(lines, i, t, s5.value);
    WithCustomTwice(s0, i, Case5(t, EarlyCases(t, Carry(s0[i].custom, newRegion0))).value.custom, lines[i].custom);
    ghost var s3 := lines[..];
    r := Case9On(lines, i, t, coords, width, n);
    if r.Ok? {
      WithCustomTwice(s0, i, s3[i].custom, lines[i].custom);
    }
  }

  /** One more line labelled moves it from the lines still to do to the lines done. */
  lemma LabelLinesStep(done: seq<TextLine>, rest: seq<TextLine>, width: Option<string>, stale: Option<string>,
                       line: TextLine, stale': Option<string>)
    requires rest != [] && LabelLine(rest[0], width, stale) == Ok((line, stale'))
    ensures After(done, LabelLines(rest, width, stale)) == After(done + [line], LabelLines(rest[1..], width, stale'))
  {
    match LabelLines(rest[1..], width, stale')
    case Err(_) =>
    case Ok(v) => assert done + ([line] + v) == done + [line] + v;
  }

  lemma AfterNothing<T, E>(r: Result<seq<T>, E>)
    ensures After([], r) == r
  {
    if r.Ok? {
      assert [] + r.value == r.value;
    }
  }

  /** The loop of lines 74-149 over the selected lines of a page, updating each line's
      `custom` in place. */
  method LabelXml(lines: array<TextLine>, width: Option<string>) returns (r: Result<(), Fault>)
    modifies lines
    ensures var spec := LabelPage(old(lines[..]), width);
      && (r.Ok? <==> spec.Ok?)
      && (r.Err? ==> r.error == spec.error)
      && (r.Ok? ==> lines[..] == spec.value)
  {
    if lines.Length == 0 {
      return Err(NoLines);
    }
    ghost var orig := lines[..];
    var newRegion: Option<string> := None;
    assert orig[0..] == orig;
    AfterNothing(LabelLines(orig, width, newRegion));
    for i := 0 to lines.Length
      invariant lines[i..] == orig[i..]
      invariant LabelPage(orig, width) == After(lines[..i], LabelLines(orig[i..], width, newRegion))
    {
      assert orig[i..][1..] == orig[i + 1..];
      ghost var before := lines[..];
      ghost var stale := newRegion;
      var line := lines[i];
      if line.plainText.None? {
        return Err(NoPlainText);
      }
      if line.coords.None? {
        return Err(NoCoords);
      }
      if line.plainText.value.Some? {
        var s := LabelText(lines, i, line.plainText.value.value, line.coords.value, width, newRegion);
        if s.Err? {
          return Err(s.error);
        }
        newRegion := s.value;
      }
      assert LabelLine(orig[i], width, stale) == Ok((lines[i], newRegion));
      LabelLinesStep(before[..i], orig[i..], width, stale, lines[i], newRegion);
      assert lines[..i + 1] == before[..i] + [lines[i]];
      assert lines[i + 1..] == before[i + 1..];
    }
    assert lines[..lines.Length] == lines[..];
    assert orig[lines.Length..] == [];
    return Ok(());
  }
}
