/** Properties of the legacy line labeller. */
module LabelRegionsFacts {
  import opened Wrappers
  import opened Text
  import opened Page
  import opened LabelRegions

  // ---------------------------------------------------------------------------
  // Strings of markers
  // ---------------------------------------------------------------------------

  /** The markers of `tags`, one after the other. */
  function Markers(tags: seq<string>): string
    decreases |tags|
  {
    if tags == [] then "" else Marker(tags[0]) + Markers(tags[1..])
  }

  /** `u` is a run of markers of the four labels. */
  ghost predicate IsMarkers(u: string) {
    exists tags: seq<string> :: (forall i :: 0 <= i < |tags| ==> tags[i] in Tags) && Markers(tags) == u
  }

  /** `b` is `a` followed by markers: what appending labels does to `custom`. */
  ghost predicate Extends(a: string, b: string) {
    |a| <= |b| && b[..|a|] == a && IsMarkers(b[|a|..])
  }

  lemma {:induction false} MarkersAppend(xs: seq<string>, ys: seq<string>)
    ensures Markers(xs + ys) == Markers(xs) + Markers(ys)
    decreases |xs|
  {
    if xs == [] {
      assert xs + ys == ys;
    } else {
      assert (xs + ys)[1..] == xs[1..] + ys;
      MarkersAppend(xs[1..], ys);
    }
  }

  lemma IsMarkersConcat(u: string, v: string)
    requires IsMarkers(u) && IsMarkers(v)
    ensures IsMarkers(u + v)
  {
    var xs :| (forall i :: 0 <= i < |xs| ==> xs[i] in Tags) && Markers(xs) == u;
    var ys :| (forall i :: 0 <= i < |ys| ==> ys[i] in Tags) && Markers(ys) == v;
    MarkersAppend(xs, ys);
    assert forall i :: 0 <= i < |xs + ys| ==> (xs + ys)[i] in Tags;
  }

  lemma MarkerIsMarkers(tag: string)
    requires tag in Tags
    ensures IsMarkers(Marker(tag))
  {
    assert Markers([tag]) == Marker(tag) + Markers([]);
  }

  lemma ExtendsRefl(a: string)
    ensures Extends(a, a)
  {
    assert a[|a|..] == [] == Markers([]);
  }

  lemma ExtendsTrans(a: string, b: string, c: string)
    requires Extends(a, b) && Extends(b, c)
    ensures Extends(a, c)
  {
    assert c[..|b|][..|a|] == c[..|a|];
    assert c[|a|..] == b[|a|..] + c[|b|..];
    IsMarkersConcat(b[|a|..], c[|b|..]);
  }

  lemma ExtendsMark(a: string, b: string, tag: string)
    requires Extends(a, b) && tag in Tags
    ensures Extends(a, b + Marker(tag))
  {
    var c := b + Marker(tag);
    MarkerIsMarkers(tag);
    assert c[..|b|] == b;
    assert c[|b|..] == Marker(tag);
    assert Extends(b, c);
    ExtendsTrans(a, b, c);
  }

  /** A string that extends `a + Marker(tag)` holds the literal `{type:tag;}`. */
  lemma ExtendsHoldsTag(a: string, tag: string, b: string)
    requires Extends(a + Marker(tag), b)
    ensures Contains(b, TypeTag(tag))
  {
    var m := a + Marker(tag);
    assert b[..|m|] == m;
    var p := |a| + 11;
    assert b[p..p + |TypeTag(tag)|] == m[p..p + |TypeTag(tag)|];
    assert MatchesAt(b, p, TypeTag(tag));
  }

  // ---------------------------------------------------------------------------
  // The cases, step by step
  // ---------------------------------------------------------------------------

  /** Some case among 1 to 4 matches. */
  predicate EarlyFires(t: string) {
    KeywordMatch(t, "vader") || KeywordMatch(t, "moeder") || GeborenMatch(t) || TeMatch(t)
  }

  /** After a case writes, `new_region` holds what was written. */
  ghost predicate Written(before: Carry, after: Carry) {
    after == before || after.stale == Some(after.custom)
  }

  lemma EarlyCasesAppend(t: string, c: Carry)
    ensures var e := EarlyCases(t, c);
      && Extends(c.custom, e.custom)
      && (EarlyFires(t) ==> e.stale == Some(e.custom))
      && (!EarlyFires(t) ==> e == c)
  {
    var c1 := if KeywordMatch(t, "vader") then Mark(c, "Name") else c;
    var c2 := if KeywordMatch(t, "moeder") then Mark(c1, "Name") else c1;
    var c3 := if GeborenMatch(t) then Mark(c2, "Date") else c2;
    ExtendsRefl(c.custom);
    if KeywordMatch(t, "vader") { ExtendsMark(c.custom, c.custom, "Name"); }
    if KeywordMatch(t, "moeder") { ExtendsMark(c.custom, c1.custom, "Name"); }
    GeborenNeverMatches(t);
    if TeMatch(t) { ExtendsMark(c.custom, c3.custom, "Place"); }
  }

  lemma LateCasesAppend(t: string, c: Carry)
    ensures var l := LateCases(t, c);
      Extends(c.custom, l.custom) && Written(c, l)
  {
    var c6 := if DateMatch(t) then Mark(c, "Date") else c;
    var c7 := if !YearMatch(t) then c6
              else if Contains(c6.custom, TypeTag("Date")) then Set(c6.custom)
              else Mark(c6, "Date");
    ExtendsRefl(c.custom);
    if DateMatch(t) { ExtendsMark(c.custom, c.custom, "Date"); }
    if YearMatch(t) && !Contains(c6.custom, TypeTag("Date")) { ExtendsMark(c.custom, c6.custom, "Date"); }
    if OrdeMatch(t) { ExtendsMark(c.custom, c7.custom, "Orde"); }
  }

  /** Case 9 adds at most one Name marker, only when the literal `{type:Name;}` is
      absent, and only for a name-shaped text in the left quarter of the page; when it
      applies, the line ends up holding that literal. */
  lemma Case9Guard(t: string, coords: string, width: Option<string>, c: Carry)
    ensures var r := Case9(t, coords, width, c); r.Ok? ==>
      && Written(c, r.value)
      && (r.value.custom == c.custom || (r.value.custom == c.custom + Marker("Name") && !Contains(c.custom, TypeTag("Name"))))
    ensures var r := Case9(t, coords, width, c); r.Ok? && r.value != c ==>
      && NameMatch(t) && FirstX(coords).Some? && PageWidth(width).Ok?
      && (FirstX(coords).value as real) < (PageWidth(width).value as real) / 4.0
    ensures (&& NameMatch(t) && FirstX(coords).Some? && PageWidth(width).Ok?
             && (FirstX(coords).value as real) < (PageWidth(width).value as real) / 4.0) ==>
      Case9(t, coords, width, c).Ok? && Contains(Case9(t, coords, width, c).value.custom, TypeTag("Name"))
    ensures Case9(t, coords, width, c).Err? ==> NameMatch(t) && (Case9(t, coords, width, c).error == BadNumber || Case9(t, coords, width, c).error == NoWidth)
  {
    var r := Case9(t, coords, width, c);
    if NameMatch(t) && FirstX(coords).Some? && PageWidth(width).Ok?
      && (FirstX(coords).value as real) < (PageWidth(width).value as real) / 4.0 {
      if !Contains(c.custom, TypeTag("Name")) {
        ExtendsRefl(c.custom + Marker("Name"));
        ExtendsHoldsTag(c.custom, "Name", c.custom + Marker("Name"));
      }
    }
  }

  lemma Case9Append(t: string, coords: string, width: Option<string>, c: Carry)
    ensures var r := Case9(t, coords, width, c); r.Ok? ==> Extends(c.custom, r.value.custom) && Written(c, r.value)
  {
    Case9Guard(t, coords, width, c);
    ExtendsRefl(c.custom);
    var r := Case9(t, coords, width, c);
    if r.Ok? && r.value.custom != c.custom {
      ExtendsMark(c.custom, c.custom, "Name");
    }
  }

  // ---------------------------------------------------------------------------
  // What a line ends up with
  // ---------------------------------------------------------------------------

  /** Once one of Cases 1 to 4 has written, the rest of the cascade only appends. */
  lemma CascadeAfterEarly(t: string, coords: string, width: Option<string>, c: Carry)
    requires EarlyFires(t)
    ensures var r := Cascade(t, coords, width, c); r.Ok? ==> Extends(EarlyCases(t, c).custom, r.value.custom)
  {
    var e := EarlyCases(t, c);
    EarlyCasesAppend(t, c);
    var c5 := Case5(t, e).value;
    ExtendsRefl(e.custom);
    if LaatstMatch(t) {
      ExtendsMark(e.custom, e.custom, "Place");
    }
    LateCasesAppend(t, c5);
    ExtendsTrans(e.custom, c5.custom, LateCases(t, c5).custom);
    Case9Append(t, coords, width, LateCases(t, c5));
    var r := Cascade(t, coords, width, c);
    if r.Ok? {
      ExtendsTrans(e.custom, LateCases(t, c5).custom, r.value.custom);
    }
  }

  /** Labels are only appended: unless Case 5 matches a line on which none of Cases 1
      to 4 wrote, the line keeps its `custom` as a prefix and gains whole markers. */
  lemma CascadeAppendOnly(t: string, coords: string, width: Option<string>, c: Carry)
    requires !LaatstMatch(t) || EarlyFires(t)
    ensures var r := Cascade(t, coords, width, c); r.Ok? ==> Extends(c.custom, r.value.custom)
  {
    var e := EarlyCases(t, c);
    EarlyCasesAppend(t, c);
    var r := Cascade(t, coords, width, c);
    if EarlyFires(t) {
      CascadeAfterEarly(t, coords, width, c);
      if r.Ok? {
        ExtendsTrans(c.custom, e.custom, r.value.custom);
      }
    } else {
      LateCasesAppend(t, e);
      Case9Append(t, coords, width, LateCases(t, e));
      if r.Ok? {
        ExtendsTrans(c.custom, LateCases(t, e).custom, r.value.custom);
      }
    }
  }

  /** The typo of Case 5: on a line where none of Cases 1 to 4 wrote, the line's own
      `custom` is thrown away and replaced by whatever an earlier line last wrote, plus
      a Place marker; with nothing written yet on the page, `new_region` is unbound. */
  lemma Case5ReadsStaleRegion(t: string, coords: string, width: Option<string>, c: Carry)
    requires LaatstMatch(t) && !EarlyFires(t)
    ensures c.stale.None? ==> Cascade(t, coords, width, c) == Err(UnboundRegion)
    ensures var r := Cascade(t, coords, width, c);
      c.stale.Some? && r.Ok? ==> Extends(c.stale.value + Marker("Place"), r.value.custom)
  {
    EarlyCasesAppend(t, c);
    if c.stale.Some? {
      var c5 := Set(c.stale.value + Marker("Place"));
      LateCasesAppend(t, c5);
      Case9Append(t, coords, width, LateCases(t, c5));
      var r := Cascade(t, coords, width, c);
      if r.Ok? {
        ExtendsTrans(c5.custom, LateCases(t, c5).custom, r.value.custom);
      }
    }
  }

  /** After a line, `new_region` holds the line's `custom` if any case wrote it, and is
      unchanged otherwise; a fault is the unbound `new_region` of Case 5 or a bad
      number or missing width in the position test of Case 9. */
  lemma CascadeWritten(t: string, coords: string, width: Option<string>, c: Carry)
    ensures var r := Cascade(t, coords, width, c); r.Ok? ==> Written(c, r.value)
    ensures var r := Cascade(t, coords, width, c); r.Err? ==>
      || (r.error == UnboundRegion && LaatstMatch(t) && !EarlyFires(t) && c.stale.None?)
      || (NameMatch(t) && (r.error == BadNumber || r.error == NoWidth))
  {
    var e := EarlyCases(t, c);
    EarlyCasesAppend(t, c);
    var c5 := Case5(t, e);
    if c5.Ok? {
      LateCasesAppend(t, c5.value);
      Case9Guard(t, coords, width, LateCases(t, c5.value));
    }
  }

  /** Labels are not exclusive: a line naming both the father and the mother gets two
      Name markers from Cases 1 and 2. */
  lemma FatherAndMotherGiveTwoNames(t: string, coords: string, width: Option<string>, c: Carry)
    requires KeywordMatch(t, "vader") && KeywordMatch(t, "moeder")
    ensures var r := Cascade(t, coords, width, c);
      r.Ok? ==> Extends(c.custom + Marker("Name") + Marker("Name"), r.value.custom)
  {
    var two := c.custom + Marker("Name") + Marker("Name");
    var e := EarlyCases(t, c);
    GeborenNeverMatches(t);
    ExtendsRefl(two);
    if TeMatch(t) {
      ExtendsMark(two, two, "Place");
    }
    assert Extends(two, e.custom);
    CascadeAfterEarly(t, coords, width, c);
    var r := Cascade(t, coords, width, c);
    if r.Ok? {
      ExtendsTrans(two, e.custom, r.value.custom);
    }
  }

  /** After Case 6, Case 7 finds `{type:Date;}` and adds nothing: a date and a year on
      one line give a single Date marker. */
  lemma DateSuppressesYear(t: string, c: Carry)
    requires DateMatch(t)
    ensures LateCases(t, c).custom == c.custom + Marker("Date") + (if OrdeMatch(t) then Marker("Orde") else "")
  {
    var c6 := Mark(c, "Date");
    if YearMatch(t) {
      ExtendsRefl(c6.custom);
      ExtendsHoldsTag(c.custom, "Date", c6.custom);
    }
    assert c.custom + Marker("Date") + "" == c.custom + Marker("Date");
  }

  /** Once Case 4 has written Place, the line keeps the literal `{type:Place;}`. */
  lemma PlaceSurvives(t: string, coords: string, width: Option<string>, c: Carry)
    requires TeMatch(t)
    ensures var r := Cascade(t, coords, width, c); r.Ok? ==> Contains(r.value.custom, TypeTag("Place"))
  {
    var c1 := if KeywordMatch(t, "vader") then Mark(c, "Name") else c;
    var c2 := if KeywordMatch(t, "moeder") then Mark(c1, "Name") else c1;
    GeborenNeverMatches(t);
    assert EarlyCases(t, c).custom == c2.custom + Marker("Place");
    CascadeAfterEarly(t, coords, width, c);
    var r := Cascade(t, coords, width, c);
    if r.Ok? {
      ExtendsHoldsTag(c2.custom, "Place", r.value.custom);
    }
  }

  /** Once Cases 6 and 8 have written Date and Orde, Case 9 keeps both literals. */
  lemma DateAndOrdeSurvive(t: string, coords: string, width: Option<string>, c5: Carry)
    requires DateMatch(t) && OrdeMatch(t)
    ensures var r := Case9(t, coords, width, LateCases(t, c5)); r.Ok? ==>
      Contains(r.value.custom, TypeTag("Date")) && Contains(r.value.custom, TypeTag("Orde"))
  {
    var l := LateCases(t, c5);
    var withDate := c5.custom + Marker("Date");
    DateSuppressesYear(t, c5);
    assert l.custom == withDate + Marker("Orde");
    Case9Append(t, coords, width, l);
    var r := Case9(t, coords, width, l);
    if r.Ok? {
      ExtendsHoldsTag(withDate, "Orde", r.value.custom);
      ExtendsRefl(withDate);
      ExtendsMark(withDate, withDate, "Orde");
      ExtendsTrans(withDate, l.custom, r.value.custom);
      ExtendsHoldsTag(c5.custom, "Date", r.value.custom);
    }
  }

  /** Labels are not exclusive: a place, a date and an order on one line give a line
      holding Place, Date and Orde together. */
  lemma PlaceDateAndOrdeTogether(t: string, coords: string, width: Option<string>, c: Carry)
    requires TeMatch(t) && DateMatch(t) && OrdeMatch(t)
    ensures var r := Cascade(t, coords, width, c); r.Ok? ==>
      && Contains(r.value.custom, TypeTag("Place"))
      && Contains(r.value.custom, TypeTag("Date"))
      && Contains(r.value.custom, TypeTag("Orde"))
  {
    PlaceSurvives(t, coords, width, c);
    var c5 := Case5(t, EarlyCases(t, c));
    if c5.Ok? {
      DateAndOrdeSurvive(t, coords, width, c5.value);
    }
  }

  const PlaceDateOrdeText := "te Amsterdam 12 Mei 1889 Orde"

  lemma PlaceExample(t: string)
    requires t == PlaceDateOrdeText
    ensures TeMatch(t)
  {
    PlaceParts(t);
    assert TeAt(t, 0, 3, 4, |t|);
  }

  /** The pieces of `^te\s+[A-Z]+.*$` in the example, one by one. */
  lemma PlaceParts(t: string)
    requires t == PlaceDateOrdeText
    ensures MatchesAt(t, 0, "te") && AllIn(t, 2, 3, IsSpace) && AllIn(t, 3, 4, IsUpper)
    ensures AllIn(t, 4, |t|, NotNewline)
  {
    assert MatchesAt(t, 0, "te");
    assert t[2] == ' ' && t[3] == 'A';
    forall k | 4 <= k < |t| ensures t[k] != '\n' {
      assert t[k] in "Amsterdam 12 Mei 1889 Orde";
    }
  }

  lemma DateExample(t: string)
    requires t == PlaceDateOrdeText
    ensures DateMatch(t)
  {
    assert DateAt(t, 13, 2, 19);
  }

  lemma OrdeExample(t: string)
    requires t == PlaceDateOrdeText
    ensures OrdeMatch(t)
  {
    assert MatchesIgnoreCaseAt(t, 25, "orde");
    assert OrdeAt(t, 25);
  }

  /** The three patterns do meet on one line. */
  lemma PlaceDateAndOrdeExample(t: string)
    requires t == PlaceDateOrdeText
    ensures TeMatch(t) && DateMatch(t) && OrdeMatch(t)
  {
    PlaceExample(t);
    DateExample(t);
    OrdeExample(t);
  }

  // ---------------------------------------------------------------------------
  // Case 9's pattern
  // ---------------------------------------------------------------------------

  lemma NamePatternExamples()
    ensures NameMatch("Jan Jansen")
    ensures NameMatch("Piet de Vries") == false
    ensures NameMatch("Kapitein") == false
  {
  }

  // ---------------------------------------------------------------------------
  // The page
  // ---------------------------------------------------------------------------

  /** What labelling did to one line: the line had PlainText and Coords, it keeps all
      its fields but `custom`, it is left as it is when its PlainText is empty, and it
      only gains markers when labelled without the Case 5 typo. */
  ghost predicate LabelledAs(l: TextLine, o: TextLine) {
    && l.plainText.Some? && l.coords.Some?
    && o == l.(custom := o.custom)
    && (l.plainText == Some(None) ==> o == l)
    && ((l.plainText.value.Some? && (!LaatstMatch(l.plainText.value.value) || EarlyFires(l.plainText.value.value)))
          ==> Extends(l.custom, o.custom))
  }

  lemma LabelLineShape(l: TextLine, width: Option<string>, stale: Option<string>)
    ensures var s := LabelLine(l, width, stale); s.Ok? ==> LabelledAs(l, s.value.0)
  {
    if l.plainText.Some? && l.coords.Some? && l.plainText.value.Some? {
      var t := l.plainText.value.value;
      if !LaatstMatch(t) || EarlyFires(t) {
        CascadeAppendOnly(t, l.coords.value, width, Carry(l.custom, stale));
      }
    }
  }

  /** The page faults on a line lacking PlainText or Coords; otherwise every line is
      labelled as `LabelledAs` says, and the page never raises `NoLines`. */
  lemma {:induction false} LabelLinesShape(lines: seq<TextLine>, width: Option<string>, stale: Option<string>)
    ensures var r := LabelLines(lines, width, stale); r.Ok? ==>
      forall i :: 0 <= i < |lines| ==> LabelledAs(lines[i], r.value[i])
    ensures LabelLines(lines, width, stale) != Err(NoLines)
    decreases |lines|
  {
    if lines != [] {
      var s := LabelLine(lines[0], width, stale);
      if s.Ok? {
        LabelLinesShape(lines[1..], width, s.value.1);
        LabelLineShape(lines[0], width, stale);
        var r := LabelLines(lines, width, stale);
        if r.Ok? {
          forall i | 0 < i < |lines| ensures LabelledAs(lines[i], r.value[i]) {
            assert lines[i] == lines[1..][i - 1] && r.value[i] == r.value[1..][i - 1];
          }
        }
      }
    }
  }

  /** `result[0]` raises exactly on a page without lines. */
  lemma NoLinesFault(lines: seq<TextLine>, width: Option<string>)
    ensures LabelPage(lines, width) == Err(NoLines) <==> lines == []
  {
    LabelLinesShape(lines, width, None);
  }

  // ---------------------------------------------------------------------------
  // The output name
  // ---------------------------------------------------------------------------

  /** The output name keeps the middle `keep` of the file name: `strip('_fixed.xml')`
      removes the suffix `_fixed.xml` together with any run `pre` before `keep` and
      any run `tail` after it made of the characters `_fixedxml.` (so `model_fixed.xml`
      gives `o`, with `pre` = `m` and `tail` = `del`); a stem that neither starts nor
      ends with one of them survives whole. */
  lemma OutputPathStem(dir: string, pre: string, keep: string, tail: string, outputDir: string)
    requires '/' !in pre && '/' !in keep && '/' !in tail
    requires forall k :: 0 <= k < |pre| ==> pre[k] in "_fixed.xml"
    requires forall k :: 0 <= k < |tail| ==> tail[k] in "_fixed.xml"
    requires keep != [] && keep[0] !in "_fixed.xml" && keep[|keep| - 1] !in "_fixed.xml"
    ensures OutputPath(dir + "/" + pre + keep + tail + "_fixed.xml", outputDir) == outputDir + "/labeled/" + keep + "_labeled.xml"
  {
    var name := pre + keep + tail + "_fixed.xml";
    assert dir + "/" + pre + keep + tail + "_fixed.xml" == dir + "/" + name;
    LastPieceAfter(dir, '/', name);
    StripSetSuffix(pre, keep, tail, "_fixed.xml");
  }
}
