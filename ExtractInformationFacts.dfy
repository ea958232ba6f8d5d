/** Properties of the genealogy extractor: which match each field keeps, how the
    region texts are built, and why the event split never fails. */
module ExtractInformationFacts {
  import opened Wrappers
  import opened Text
  import opened Page
  import opened ExtractInformation
  import opened Literals

  // ---------------------------------------------------------------------------
  // The field captures on one text
  // ---------------------------------------------------------------------------

  /** Cases 1 and 2 capture nothing exactly when no keyword is followed by white space
      and a character. */
  lemma GreedyKeywordNone(t: string, w: string)
    requires w != [] && IsLower(w[0])
    ensures GreedyKeyword(t, w).None? <==> forall p :: 0 <= p < |t| ==> !KeyAt(t, w, p)
  {
    match FindFirst(KeyMatches(t, w), 0, |t|)
    case None =>
      forall p | 0 <= p < |t| ensures !KeyAt(t, w, p) {
        assert !KeyMatches(t, w)(p);
      }
    case Some(p0) =>
      assert FoldsTo(t[p0 + 0], w[0]);
      assert p0 < LineEnd(t, p0);
  }

  /** On a text of one line, cases 1 and 2 capture after the LAST keyword followed by
      white space and a character. */
  lemma GreedyKeywordTakesLast(t: string, w: string, p: nat)
    requires w != [] && IsLower(w[0]) && '\n' !in t
    requires p < |t| && KeyAt(t, w, p)
    requires forall p' :: p < p' < |t| ==> !KeyAt(t, w, p')
    ensures GreedyKeyword(t, w) == Some(KeyGroup(t, w, p))
  {
    var p0 := KeyFirstExists(t, w, p);
    assert LineEnd(t, p0) == |t|;
    KeyLast(t, w, p0, p);
  }

  lemma KeyFirstExists(t: string, w: string, p: nat) returns (p0: nat)
    requires p < |t| && KeyAt(t, w, p)
    ensures FindFirst(KeyMatches(t, w), 0, |t|) == Some(p0) && p0 <= p
  {
    assert KeyMatches(t, w)(p);
    p0 := FindFirst(KeyMatches(t, w), 0, |t|).value;
  }

  lemma KeyLast(t: string, w: string, p0: nat, p: nat)
    requires p0 <= p < |t| && KeyAt(t, w, p)
    requires forall p' :: p < p' < |t| ==> !KeyAt(t, w, p')
    ensures FindLast(KeyMatches(t, w), p0, |t|) == Some(p)
  {
    forall k | p < k < |t| ensures !KeyMatches(t, w)(k) {
      assert !KeyAt(t, w, k);
    }
    FindLastIs(KeyMatches(t, w), p0, |t|, p);
  }

  /** Case 3 captures after the FIRST keyword followed by white space and a character,
      and captures nothing when there is none. */
  lemma FirstKeywordTakesFirst(t: string, w: string, p: nat)
    requires p < |t| && KeyAt(t, w, p)
    requires forall p' :: 0 <= p' < p ==> !KeyAt(t, w, p')
    ensures FirstKeyword(t, w) == Some(KeyGroup(t, w, p))
  {
    KeyFirst(t, w, p);
  }

  lemma KeyFirst(t: string, w: string, p: nat)
    requires p < |t| && KeyAt(t, w, p)
    requires forall p' :: 0 <= p' < p ==> !KeyAt(t, w, p')
    ensures FindFirst(KeyMatches(t, w), 0, |t|) == Some(p)
  {
    forall k | 0 <= k < p ensures !KeyMatches(t, w)(k) {
      assert !KeyAt(t, w, k);
    }
    FindFirstIs(KeyMatches(t, w), 0, |t|, p);
  }

  lemma FirstKeywordNone(t: string, w: string)
    ensures FirstKeyword(t, w).None? <==> forall p :: 0 <= p < |t| ==> !KeyAt(t, w, p)
  {
    if FirstKeyword(t, w).None? {
      forall p | 0 <= p < |t| ensures !KeyAt(t, w, p) {
        assert !KeyMatches(t, w)(p);
      }
    }
  }

  /** Case 5 captures after the first `laatst` that `gewoond te`, white space and a
      character follow, and captures nothing when there is none. */
  lemma ResidenceTakesFirst(t: string, i: nat)
    requires i < |t| && ResidenceAt(t, i)
    requires forall i' :: 0 <= i' < i ==> !ResidenceAt(t, i')
    ensures ResidenceOf(t) == Some(ResidenceGroup(t, i))
  {
    ResidenceFirst(t, i);
  }

  lemma ResidenceFirst(t: string, i: nat)
    requires i < |t| && ResidenceAt(t, i)
    requires forall i' :: 0 <= i' < i ==> !ResidenceAt(t, i')
    ensures FindFirst(ResidenceMatches(t), 0, |t|) == Some(i)
  {
    forall k | 0 <= k < i ensures !ResidenceMatches(t)(k) {
      assert !ResidenceAt(t, k);
    }
    FindFirstIs(ResidenceMatches(t), 0, |t|, i);
  }

  lemma ResidenceNone(t: string)
    ensures ResidenceOf(t).None? <==> forall i :: 0 <= i < |t| ==> !ResidenceAt(t, i)
  {
    if ResidenceOf(t).None? {
      forall i | 0 <= i < |t| ensures !ResidenceAt(t, i) {
        assert !ResidenceMatches(t)(i);
      }
    }
  }

  /** A text without leading white space is kept by `strip()` where it starts. */
  lemma StripKeepsFirst(s: string)
    requires s != [] && !IsSpace(s[0])
    ensures Strip(s) != [] && Strip(s) == s[..|Strip(s)|] && Strip(s)[0] == s[0]
  {
    DropPrefixNone(s, IsSpace);
    DropSuffixIsPrefix(s, IsSpace);
  }

  /** Case 6 takes the first four-digit run standing at a word boundary and followed
      by white space and a letter: the year is those four digits and the place starts
      with that letter. */
  lemma CampaignTakesFirst(t: string, i: nat)
    requires i < |t| && CampaignAt(t, i)
    requires forall i' :: 0 <= i' < i ==> !CampaignAt(t, i')
    ensures CampaignOf(t).Some?
    ensures CampaignOf(t).value.year == t[i..i + 4] && AllDigits(CampaignOf(t).value.year)
    ensures var place := CampaignOf(t).value.place;
      place != [] && place[0] == t[SkipSpaces(t, i + 4)] && IsLetterIgnoreCase(place[0])
  {
    forall k | 0 <= k < i ensures !CampaignMatches(t)(k) {
      assert !CampaignAt(t, k);
    }
    FindFirstIs(CampaignMatches(t), 0, |t|, i);
    YearKept(t, i);
    var b := SkipSpaces(t, i + 4);
    StripKeepsFirst(LineFrom(t, b));
  }

  lemma YearKept(t: string, i: nat)
    requires i + 4 <= |t| && AllIn(t, i, i + 4, IsDigit)
    ensures Strip(t[i..i + 4]) == t[i..i + 4] && AllDigits(t[i..i + 4])
  {
    var y := t[i..i + 4];
    assert y[0] == t[i] && y[3] == t[i + 3];
    DropPrefixNone(y, IsSpace);
    DropSuffixNone(y, IsSpace);
  }

  lemma CampaignNone(t: string)
    ensures CampaignOf(t).None? <==> forall i :: 0 <= i < |t| ==> !CampaignAt(t, i)
  {
    if CampaignOf(t).None? {
      forall i | 0 <= i < |t| ensures !CampaignAt(t, i) {
        assert !CampaignMatches(t)(i);
      }
    }
  }

  // ---------------------------------------------------------------------------
  // The loop over the lines
  // ---------------------------------------------------------------------------

  /** The text a line contributes: its PlainText's text, if it has one. */
  function TextOf(line: TextLine): seq<string> {
    if line.plainText.Some? && line.plainText.value.Some? then [line.plainText.value.value] else []
  }

  /** The texts the loop reads, in document order. */
  function Texts(lines: seq<TextLine>): seq<string> {
    if lines == [] then [] else TextOf(lines[0]) + Texts(lines[1..])
  }

  /** The texts of the lines of region `id`, in document order. */
  function RegionTexts(lines: seq<TextLine>, id: string): seq<string> {
    if lines == [] then
      []
    else
      var own := if lines[0].regionId == id then TextOf(lines[0]) else [];
      own + RegionTexts(lines[1..], id)
  }

  /** The capture `f` of the last text that has one. */
  function LastOf(ts: seq<string>, f: string -> Option<string>): Option<string> {
    if ts == [] then None
    else if LastOf(ts[1..], f).Some? then LastOf(ts[1..], f)
    else f(ts[0])
  }

  /** The capture `f` of the first text that has one. */
  function FirstOf(ts: seq<string>, f: string -> Option<string>): Option<string> {
    if ts == [] then None
    else if f(ts[0]).Some? then f(ts[0])
    else FirstOf(ts[1..], f)
  }

  /** `LastOf` is the capture of the text after which no text has one. */
  lemma {:induction false} LastOfIsLast(ts: seq<string>, f: string -> Option<string>)
    ensures LastOf(ts, f).None? <==> forall k :: 0 <= k < |ts| ==> f(ts[k]).None?
    ensures LastOf(ts, f).Some? ==>
      exists k :: 0 <= k < |ts| && f(ts[k]) == LastOf(ts, f) && forall j :: k < j < |ts| ==> f(ts[j]).None?
    decreases |ts|
  {
    if ts != [] {
      var rest := ts[1..];
      LastOfIsLast(rest, f);
      assert forall k :: 1 <= k < |ts| ==> rest[k - 1] == ts[k];
      if LastOf(rest, f).Some? {
        var k :| 0 <= k < |rest| && f(rest[k]) == LastOf(rest, f) && forall j :: k < j < |rest| ==> f(rest[j]).None?;
        assert f(ts[k + 1]) == LastOf(ts, f);
      } else {
        assert f(ts[0]) == LastOf(ts, f);
      }
    }
  }

  /** `FirstOf` is the capture of the text before which no text has one. */
  lemma {:induction false} FirstOfIsFirst(ts: seq<string>, f: string -> Option<string>)
    ensures FirstOf(ts, f).None? <==> forall k :: 0 <= k < |ts| ==> f(ts[k]).None?
    ensures FirstOf(ts, f).Some? ==>
      exists k :: 0 <= k < |ts| && f(ts[k]) == FirstOf(ts, f) && forall j :: 0 <= j < k ==> f(ts[j]).None?
    decreases |ts|
  {
    if ts != [] && f(ts[0]).None? {
      var rest := ts[1..];
      FirstOfIsFirst(rest, f);
      assert forall k :: 1 <= k < |ts| ==> rest[k - 1] == ts[k];
      if FirstOf(rest, f).Some? {
        var k :| 0 <= k < |rest| && f(rest[k]) == FirstOf(rest, f) && forall j :: 0 <= j < k ==> f(rest[j]).None?;
        assert f(ts[k + 1]) == FirstOf(ts, f);
      }
    }
  }

  /** The campaigns of the texts, at most one per text. */
  function Campaigns(ts: seq<string>): (r: seq<Campaign>)
    ensures |r| <= |ts|
  {
    if ts == [] then [] else CampaignList(CampaignOf(ts[0])) + Campaigns(ts[1..])
  }

  /** The loop faults exactly when a selected line has no PlainText. */
  lemma {:induction false} ScanFaults(lines: seq<TextLine>, a: Acc)
    ensures Scan(lines, a).Ok? <==> forall k :: 0 <= k < |lines| ==> lines[k].plainText.Some?
    ensures Scan(lines, a).Err? ==> Scan(lines, a).error == NoPlainText
    decreases |lines|
  {
    if lines != [] {
      assert forall k :: 1 <= k < |lines| ==> lines[1..][k - 1] == lines[k];
      if Step(a, lines[0]).Ok? {
        ScanFaults(lines[1..], Step(a, lines[0]).value);
      }
    }
  }

  /** One text: each overwriting field takes the text's capture when it has one, the
      birth place keeps an earlier value. */
  lemma ReadFieldsStep(info: Info, t: string, rest: seq<string>)
    ensures var i1 := ReadFields(info, t);
      && Or(LastOf(rest, VaderOf), i1.vader) == Or(LastOf([t] + rest, VaderOf), info.vader)
      && Or(LastOf(rest, MoederOf), i1.moeder) == Or(LastOf([t] + rest, MoederOf), info.moeder)
      && Or(LastOf(rest, BirthDateOf), i1.birthDate) == Or(LastOf([t] + rest, BirthDateOf), info.birthDate)
      && Or(i1.birthPlace, FirstOf(rest, BirthPlaceOf)) == Or(info.birthPlace, FirstOf([t] + rest, BirthPlaceOf))
      && Or(LastOf(rest, ResidenceOf), i1.lastResidence) == Or(LastOf([t] + rest, ResidenceOf), info.lastResidence)
  {
    assert ([t] + rest)[1..] == rest;
  }

  /** After the loop, Vader, Moeder, the birth date and the last residence hold the
      capture of the LAST text that has one, the birth place that of the FIRST, each
      keeping its earlier value when no text has one. */
  lemma {:induction false} ScanFields(lines: seq<TextLine>, a: Acc)
    requires Scan(lines, a).Ok?
    ensures var b := Scan(lines, a).value;
      && b.info.vader == Or(LastOf(Texts(lines), VaderOf), a.info.vader)
      && b.info.moeder == Or(LastOf(Texts(lines), MoederOf), a.info.moeder)
      && b.info.birthDate == Or(LastOf(Texts(lines), BirthDateOf), a.info.birthDate)
      && b.info.birthPlace == Or(a.info.birthPlace, FirstOf(Texts(lines), BirthPlaceOf))
      && b.info.lastResidence == Or(LastOf(Texts(lines), ResidenceOf), a.info.lastResidence)
    decreases |lines|
  {
    if lines != [] {
      var a1 := Step(a, lines[0]).value;
      var rest := Texts(lines[1..]);
      ScanFields(lines[1..], a1);
      if lines[0].plainText.value.Some? {
        var t := lines[0].plainText.value.value;
        assert Texts(lines) == [t] + rest;
        assert a1.info == ReadFields(a.info, t);
        ReadFieldsStep(a.info, t, rest);
      } else {
        assert Texts(lines) == rest;
      }
    }
  }

  lemma StepCampaigns(a: Acc, line: TextLine)
    requires Step(a, line).Ok?
    ensures Step(a, line).value.campaigns == a.campaigns + Campaigns(TextOf(line))
  {
    if line.plainText.value.Some? {
      var t := line.plainText.value.value;
      assert TextOf(line) == [t];
      assert Campaigns([t]) == CampaignList(CampaignOf(t)) + Campaigns([]);
    } else {
      assert a.campaigns + [] == a.campaigns;
    }
  }

  lemma CampaignsConcat(xs: seq<string>, ys: seq<string>)
    requires |xs| <= 1
    ensures Campaigns(xs + ys) == Campaigns(xs) + Campaigns(ys)
  {
    if xs == [] {
      assert xs + ys == ys;
    } else {
      assert (xs + ys)[1..] == ys;
    }
  }

  lemma ConcatAssoc<T>(x: seq<T>, y: seq<T>, z: seq<T>)
    ensures (x + y) + z == x + (y + z)
  {
  }

  /** The campaigns of the texts are appended in order, at most one per text. */
  lemma {:induction false} ScanCampaigns(lines: seq<TextLine>, a: Acc)
    requires Scan(lines, a).Ok?
    ensures Scan(lines, a).value.campaigns == a.campaigns + Campaigns(Texts(lines))
    decreases |lines|
  {
    if lines == [] {
      assert a.campaigns + [] == a.campaigns;
    } else {
      var a1 := Step(a, lines[0]).value;
      var ts0, ts1 := TextOf(lines[0]), Texts(lines[1..]);
      assert Scan(lines, a) == Scan(lines[1..], a1);
      assert Texts(lines) == ts0 + ts1;
      ScanCampaigns(lines[1..], a1);
      StepCampaigns(a, lines[0]);
      CampaignsConcat(ts0, ts1);
      var c0, c1 := Campaigns(ts0), Campaigns(ts1);
      var r := Scan(lines[1..], a1).value.campaigns;
      assert r == (a.campaigns + c0) + c1;
      assert Campaigns(Texts(lines)) == c0 + c1;
      ConcatAssoc(a.campaigns, c0, c1);
    }
  }

  /** The text a region ends with, given the text it had before. */
  function JoinAfter(before: Option<string>, ts: seq<string>): Option<string> {
    match before
    case None => if ts == [] then None else Some(Join(ts, " "))
    case Some(v) => Some(Join([v] + ts, " "))
  }

  lemma JoinFront(v: string, t: string, ts: seq<string>)
    ensures Join([v + " " + t] + ts, " ") == Join([v] + ([t] + ts), " ")
  {
    assert ([v + " " + t] + ts)[1..] == ts;
    assert ([v] + ([t] + ts))[1..] == [t] + ts;
    assert ([t] + ts)[1..] == ts;
  }

  /** Lines 119-124: a region's text is the texts of its lines, in document order,
      joined by single spaces, after what it held before. */
  lemma {:induction false} ScanRegions(lines: seq<TextLine>, a: Acc, id: string)
    requires Scan(lines, a).Ok?
    ensures Lookup(Scan(lines, a).value.regions, id) == JoinAfter(Lookup(a.regions, id), RegionTexts(lines, id))
    decreases |lines|
  {
    if lines == [] {
      match Lookup(a.regions, id)
      case None =>
      case Some(v) =>
        assert [v] + [] == [v];
    } else {
      var a1 := Step(a, lines[0]).value;
      var rest := RegionTexts(lines[1..], id);
      ScanRegions(lines[1..], a1, id);
      if lines[0].plainText.value.Some? && lines[0].regionId == id {
        var t := lines[0].plainText.value.value;
        assert RegionTexts(lines, id) == [t] + rest;
        match Lookup(a.regions, id)
        case None =>
          assert Lookup(a1.regions, id) == Some(t);
          assert ([t] + rest)[1..] == rest;
        case Some(v) =>
          assert Lookup(a1.regions, id) == Some(v + " " + t);
          JoinFront(v, t, rest);
      } else {
        assert RegionTexts(lines, id) == rest;
      }
    }
  }

  lemma {:induction false} LookupKeys(m: seq<(string, string)>, k: string)
    ensures Lookup(m, k).Some? <==> k in Keys(m)
    decreases |m|
  {
    if m != [] {
      LookupKeys(m[1..], k);
    }
  }

  predicate Distinct(ks: seq<string>) {
    forall i, j :: 0 <= i < j < |ks| ==> ks[i] != ks[j]
  }

  /** `text_by_region` is a dict: each region appears once among its keys. */
  lemma {:induction false} ScanKeysDistinct(lines: seq<TextLine>, a: Acc)
    requires Distinct(Keys(a.regions)) && Scan(lines, a).Ok?
    ensures Distinct(Keys(Scan(lines, a).value.regions))
    decreases |lines|
  {
    if lines != [] {
      var a1 := Step(a, lines[0]).value;
      if lines[0].plainText.value.Some? {
        LookupKeys(a.regions, lines[0].regionId);
      }
      ScanKeysDistinct(lines[1..], a1);
    }
  }

  // ---------------------------------------------------------------------------
  // Events
  // ---------------------------------------------------------------------------

  /** Under re.IGNORECASE `[A-Z]+[a-z]*` takes the same letters as without it when the
      case-sensitive pattern matches. */
  lemma DateTailIgnoresCase(t: string, p: nat)
    requires DateTail(t, p, false).Some?
    ensures DateTail(t, p, true) == DateTail(t, p, false)
  {
    var u := SkipWhile(t, p + 1, IsUpper);
    var l := SkipWhile(t, u, IsLower);
    LetterRun(t, p + 1, u, l);
  }

  /** A run of upper-case letters and then lower-case ones, followed by white space,
      is one run of letters under IGNORECASE. */
  lemma LetterRun(t: string, p: nat, u: nat, l: nat)
    requires p <= |t| && u == SkipWhile(t, p, IsUpper) && l == SkipWhile(t, u, IsLower)
    requires l < |t| && IsSpace(t[l])
    ensures SkipWhile(t, p, IsLetterIgnoreCase) == l && SkipWhile(t, l, IsLetterIgnoreCase) == l
  {
    assert AllIn(t, p, l, IsLetterIgnoreCase) by {
      forall k | p <= k < l ensures IsLetterIgnoreCase(t[k]) {
        if k < u {
          assert IsUpper(t[k]);
        } else {
          assert IsLower(t[k]);
        }
      }
    }
    SkipWhileExact(t, p, l, IsLetterIgnoreCase);
    SkipWhileExact(t, l, l, IsLetterIgnoreCase);
  }

  lemma DateEndIgnoresCase(t: string, k: nat)
    requires DateEnd(t, k, false).Some?
    ensures DateEnd(t, k, true) == DateEnd(t, k, false)
  {
    if k + 1 < |t| && IsDigit(t[k]) && IsDigit(t[k + 1]) && DateTail(t, k + 2, false).Some? {
      DateTailIgnoresCase(t, k + 2);
    } else {
      DateTailIgnoresCase(t, k + 1);
    }
  }

  /** A run found in `t` is found in any slice that holds it and what stops it. */
  lemma {:induction false} SkipWhileSlice(t: string, s: nat, e: nat, p: nat, P: char -> bool)
    requires s <= p <= e <= |t| && SkipWhile(t, p, P) <= e
    ensures SkipWhile(t[s..e], p - s, P) == SkipWhile(t, p, P) - s
    decreases e - p
  {
    if p < e && P(t[p]) {
      assert t[s..e][p - s] == t[p];
      SkipWhileSlice(t, s, e, p + 1, P);
    } else if p < e {
      assert t[s..e][p - s] == t[p];
    }
  }

  lemma AllInSlice(t: string, s: nat, e: nat, lo: nat, hi: nat, P: char -> bool)
    requires s <= lo <= hi <= e <= |t| && AllIn(t, lo, hi, P)
    ensures AllIn(t[s..e], lo - s, hi - s, P)
  {
    forall k | lo - s <= k < hi - s ensures P(t[s..e][k]) {
      assert t[s..e][k] == t[k + s];
    }
  }

  lemma DateTailElim(t: string, p: nat, ci: bool, e: nat)
    requires DateTail(t, p, ci) == Some(e)
    ensures p < |t| && IsSpace(t[p])
    ensures var u := SkipWhile(t, p + 1, UpperClass(ci)); var l := SkipWhile(t, u, LowerClass(ci));
      p + 1 < u && l + 5 <= |t| && IsSpace(t[l]) && AllIn(t, l + 1, l + 5, IsNonZeroDigit)
      && e == SkipWhile(t, l + 5, IsDot)
  {
  }

  /** The runs `DateTail` reads in `t`, read in a slice that holds them. */
  lemma DateRunsOnSlice(t: string, p: nat, ci: bool, s: nat, e: nat, u: nat, l: nat)
    requires s <= p < |t| && IsSpace(t[p])
    requires u == SkipWhile(t, p + 1, UpperClass(ci)) && l == SkipWhile(t, u, LowerClass(ci))
    requires p + 1 < u && l + 5 <= |t| && IsSpace(t[l]) && AllIn(t, l + 1, l + 5, IsNonZeroDigit)
    requires e == SkipWhile(t, l + 5, IsDot)
    ensures s <= p < u <= l < e <= |t|
    ensures p - s < |t[s..e]| && IsSpace(t[s..e][p - s])
    ensures u - s == SkipWhile(t[s..e], p - s + 1, UpperClass(ci))
    ensures l - s == SkipWhile(t[s..e], u - s, LowerClass(ci))
    ensures l - s + 5 <= |t[s..e]| && IsSpace(t[s..e][l - s])
    ensures AllIn(t[s..e], l - s + 1, l - s + 5, IsNonZeroDigit)
    ensures e - s == SkipWhile(t[s..e], l - s + 5, IsDot)
  {
    SkipWhileSlice(t, s, e, p + 1, UpperClass(ci));
    SkipWhileSlice(t, s, e, u, LowerClass(ci));
    SkipWhileSlice(t, s, e, l + 5, IsDot);
    assert t[s..e][p - s] == t[p] && t[s..e][l - s] == t[l];
    AllInSlice(t, s, e, l + 1, l + 5, IsNonZeroDigit);
  }

  /** `DateTail` matches the same way, under re.IGNORECASE, in a slice that holds what
      it reads. */
  lemma DateTailOnSlice(t: string, p: nat, s: nat, e: nat)
    requires s <= p < |t| && IsSpace(t[p])
    requires var u := SkipWhile(t, p + 1, IsLetterIgnoreCase); var l := SkipWhile(t, u, IsLetterIgnoreCase);
      p + 1 < u && l + 5 <= |t| && IsSpace(t[l]) && AllIn(t, l + 1, l + 5, IsNonZeroDigit)
      && e == SkipWhile(t, l + 5, IsDot)
    ensures DateTail(t[s..e], p - s, true) == Some(e - s)
  {
    var u := SkipWhile(t, p + 1, IsLetterIgnoreCase);
    var l := SkipWhile(t, u, IsLetterIgnoreCase);
    DateRunsOnSlice(t, p, true, s, e, u, l);
  }

  lemma DateTailSlice(t: string, p: nat, s: nat, e: nat)
    requires s <= p && DateTail(t, p, true) == Some(e)
    ensures DateTail(t[s..e], p - s, true) == Some(e - s)
  {
    DateTailElim(t, p, true, e);
    DateTailOnSlice(t, p, s, e);
  }

  /** Where the day of a date match ends (after one digit or two), and the rest of the
      pattern matching from there. */
  lemma DateEndElim(t: string, k: nat, e: nat) returns (d: nat)
    requires DateEnd(t, k, true) == Some(e)
    ensures k < d <= k + 2 && d <= |t| && IsDigit(t[k]) && (d == k + 2 ==> IsDigit(t[k + 1]))
    ensures DateTail(t, d, true) == Some(e)
  {
    if k + 1 < |t| && IsDigit(t[k]) && IsDigit(t[k + 1]) && DateTail(t, k + 2, true).Some? {
      d := k + 2;
    } else {
      d := k + 1;
    }
  }

  /** The converse of `DateEndElim` for a two-digit day. */
  lemma DateEndIntroTwo(m: string, k: nat, f: nat)
    requires k + 1 < |m| && IsDigit(m[k]) && IsDigit(m[k + 1])
    requires DateTail(m, k + 2, true) == Some(f)
    ensures DateEnd(m, k, true) == Some(f)
  {
  }

  /** The converse of `DateEndElim` for a one-digit day: what follows the digit is white
      space, so the two-digit reading does not apply. */
  lemma DateEndIntroOne(m: string, k: nat, f: nat)
    requires k < |m| && IsDigit(m[k])
    requires DateTail(m, k + 1, true) == Some(f)
    ensures DateEnd(m, k, true) == Some(f)
  {
    DateTailElim(m, k + 1, true, f);
    assert !IsDigit(m[k + 1]);
  }

  /** The date pattern, under re.IGNORECASE, reads nothing outside the text it matched. */
  lemma DateEndSlice(t: string, k: nat, s: nat, e: nat)
    requires s <= k && DateEnd(t, k, true) == Some(e)
    ensures DateEnd(t[s..e], k - s, true) == Some(e - s)
  {
    var d := DateEndElim(t, k, e);
    DateTailSlice(t, d, s, e);
    DayOnSlice(t, k, d, s, e);
  }

  /** The day digits read in a slice, with the rest of the date matching there. */
  lemma DayOnSlice(t: string, k: nat, d: nat, s: nat, e: nat)
    requires s <= k < d <= k + 2 && d <= e <= |t| && IsDigit(t[k]) && (d == k + 2 ==> IsDigit(t[k + 1]))
    requires DateTail(t[s..e], d - s, true) == Some(e - s)
    ensures DateEnd(t[s..e], k - s, true) == Some(e - s)
  {
    assert t[s..e][k - s] == t[k] && t[s..e][d - s - 1] == t[d - 1];
    if d == k + 2 {
      DateEndIntroTwo(t[s..e], k - s, e - s);
    } else {
      DateEndIntroOne(t[s..e], k - s, e - s);
    }
  }

  /** The search of line 167 finds a date in a text where one starts on the first line,
      so `match.group(1)` never meets None there. */
  lemma SearchEventFinds(m: string, k: nat)
    requires k < |m| && DateEnd(m, k, true).Some?
    requires forall j :: 0 <= j < k ==> m[j] != '\n'
    ensures SearchEvent(m, 0).Ok?
  {
    var le := LineEnd(m, 0);
    assert k <= le;
    assert DateMatches(m, true)(k);
  }

  lemma NoNewlineOnSlice(t: string, s: nat, k: nat, e: nat)
    requires s <= k <= e <= |t|
    requires forall j :: s <= j < k ==> t[j] != '\n'
    ensures forall j :: 0 <= j < k - s ==> t[s..e][j] != '\n'
  {
    forall j | 0 <= j < k - s ensures t[s..e][j] != '\n' {
      assert t[s..e][j] == t[s + j];
    }
  }

  /** A match `t[s..e]` of `findall`, whose date starts at `k` with no newline before it,
      is searched without fault. */
  lemma MatchSearchable(t: string, s: nat, k: nat, e: nat)
    requires s <= k && DateEnd(t, k, false) == Some(e)
    requires forall j :: s <= j < k ==> t[j] != '\n'
    ensures SearchEvent(t[s..e], 0).Ok?
  {
    DateEndIgnoresCase(t, k);
    DateEndSlice(t, k, s, e);
    NoNewlineOnSlice(t, s, k, e);
    SearchEventFinds(t[s..e], k - s);
  }

  /** Every text `findall` returns ends with a date on its own line, which the search of
      line 167 finds. */
  lemma {:induction false} FindEventsSearchable(t: string, pos: nat)
    requires pos <= |t|
    ensures forall m :: m in FindEvents(t, pos) ==> SearchEvent(m, 0).Ok?
    decreases |t| - pos
  {
    match FindFirst(DateMatches(t, false), pos, |t|)
    case None =>
    case Some(k) =>
      var e := DateEnd(t, k, false).value;
      var s := LineStartBefore(t, pos, k);
      assert forall j :: s <= j < k ==> t[j] != '\n' by {
        forall j | s <= j < k ensures t[j] != '\n' {
          match FindLast(Newlines(t), pos, k)
          case None =>
            assert !Newlines(t)(j);
          case Some(n) =>
            assert n < j && !Newlines(t)(j);
        }
      }
      MatchSearchable(t, s, k, e);
      FindEventsSearchable(t, e);
  }

  lemma {:induction false} SplitEventsSucceed(ms: seq<string>)
    requires forall m :: m in ms ==> SearchEvent(m, 0).Ok?
    ensures SplitEvents(ms).Ok?
    decreases |ms|
  {
    if ms != [] {
      assert forall m :: m in ms[1..] ==> m in ms;
      SplitEventsSucceed(ms[1..]);
    }
  }

  /** A region yields no event, or one event per date match when it has at least two;
      the split never raises. */
  lemma RegionEventsCount(text: string)
    ensures RegionEvents(text).Ok?
    ensures var n := |FindEvents(text, 0)|;
      |RegionEvents(text).value| == if n >= 2 then n else 0
  {
    FindEventsSearchable(text, 0);
    SplitEventsSucceed(FindEvents(text, 0));
  }

  lemma {:induction false} EventsNeverFail(regions: seq<(string, string)>)
    ensures EventsOf(regions).Ok?
    decreases |regions|
  {
    if regions != [] {
      RegionEventsCount(regions[0].1);
      EventsNeverFail(regions[1..]);
    }
  }

  /** `extract_information` on a parsed page faults exactly when a selected line has no
      PlainText, and it then faults with NoPlainText. */
  lemma ExtractFaults(lines: seq<TextLine>)
    ensures Extract(lines).Ok? <==> forall k :: 0 <= k < |lines| ==> lines[k].plainText.Some?
    ensures Extract(lines).Err? ==> Extract(lines).error == NoPlainText
  {
    ScanFaults(lines, Start);
    if Scan(lines, Start).Ok? {
      EventsNeverFail(Scan(lines, Start).value.regions);
    }
  }

  /** A date digit followed by another digit and the rest of the pattern: the second
      digit starts a one-digit date ending where the two-digit one does. */
  lemma DayShift(e: string, j: nat)
    requires DateEnd(e, j, true).Some? && j + 1 < |e|
    ensures IsDigit(e[j + 1]) ==> DateEnd(e, j + 1, true) == DateEnd(e, j, true)
  {
  }

  /** The last date match on a line never starts with two digits: the second digit
      would start a later match on the same line. */
  lemma LastDateNotTwoDigits(e: string, s: nat, j: nat)
    requires s <= |e| && FindLast(DateMatches(e, true), s, LineEnd(e, s) + 1) == Some(j)
    ensures j + 1 < |e| ==> !(IsDigit(e[j]) && IsDigit(e[j + 1]))
  {
    var le := LineEnd(e, s);
    if j + 1 < |e| && IsDigit(e[j]) {
      assert j < le;
      DayShift(e, j);
      assert !DateMatches(e, true)(j + 1);
    }
  }

  /** The stripped text of a date that starts with a digit begins with that text's
      first characters. */
  lemma StrippedDate(e: string, j: nat, end: nat)
    requires j < end <= |e| && IsDigit(e[j])
    ensures var d := Strip(e[j..end]);
      d != [] && d[0] == e[j] && (|d| >= 2 ==> j + 1 < |e| && d[1] == e[j + 1])
  {
    var part := e[j..end];
    assert part[0] == e[j];
    StripKeepsFirst(part);
  }

  /** The date the search takes from the last date match on a line. */
  lemma LastDateSplitsDay(e: string, s: nat, j: nat)
    requires s <= |e| && FindLast(DateMatches(e, true), s, LineEnd(e, s) + 1) == Some(j)
    ensures DateEnd(e, j, true).Some?
    ensures var d := Strip(e[j..DateEnd(e, j, true).value]);
      |d| >= 2 ==> !(IsDigit(d[0]) && IsDigit(d[1]))
  {
    assert DateMatches(e, true)(j);
    var end := DateEnd(e, j, true).value;
    var _ := DateEndElim(e, j, end);
    StrippedDate(e, j, end);
    LastDateNotTwoDigits(e, s, j);
  }

  /** The greedy `(.*)` of line 167 always leaves the first digit of a two-digit day in
      the context: an event's date never starts with two digits. */
  lemma {:induction false} EventDateSplitsDay(e: string, s: nat)
    requires s <= |e| && SearchEvent(e, s).Ok?
    ensures var d := SearchEvent(e, s).value.date;
      |d| >= 2 ==> !(IsDigit(d[0]) && IsDigit(d[1]))
    decreases |e| - s
  {
    var le := LineEnd(e, s);
    match FindLast(DateMatches(e, true), s, le + 1)
    case Some(j) =>
      LastDateSplitsDay(e, s, j);
    case None =>
      EventDateSplitsDay(e, le + 1);
  }

  // ---------------------------------------------------------------------------
  // The row name
  // ---------------------------------------------------------------------------

  lemma SplitWithout(s: string, c: char)
    requires c !in s
    ensures Split(s, c) == [s]
  {
    assert IndexOf(s, c).None?;
  }

  /** The row of `dir/stem.xml` is named `stem` when `stem` has no dot. */
  lemma RowNameOfStem(dir: string, stem: string)
    requires '/' !in stem && '.' !in stem
    ensures RowName(dir + "/" + stem + ".xml") == stem
  {
    var name := stem + ".xml";
    assert dir + "/" + stem + ".xml" == dir + ['/'] + name;
    LastPieceAfter(dir, '/', name);
    assert name == stem + ['.'] + "xml";
    SplitConcat(stem, '.', "xml");
    SplitWithout(stem, '.');
    SplitWithout("xml", '.');
    assert Split(name, '.') == [stem, "xml"];
    assert [stem, "xml"][..1] == [stem];
  }

  lemma SplitThree(a: string, b: string, c: string)
    requires '.' !in a && '.' !in b && '.' !in c
    ensures Split(a + "." + b + "." + c, '.') == [a, b, c]
  {
    assert a + "." + b + "." + c == a + ['.'] + (b + ['.'] + c);
    SplitConcat(a, '.', b + ['.'] + c);
    SplitConcat(b, '.', c);
    SplitWithout(a, '.');
    SplitWithout(b, '.');
    SplitWithout(c, '.');
  }

  lemma DotXml(x: string)
    ensures x + ".xml" == x + "." + "xml"
  {
  }

  /** The dots inside a stem disappear from the row name: `a.b.xml` gives `ab`. */
  lemma RowNameDropsDots(dir: string, a: string, b: string)
    requires '/' !in a && '.' !in a && '/' !in b && '.' !in b
    ensures RowName(dir + "/" + (a + "." + b + ".xml")) == a + b
  {
    var name := a + "." + b + ".xml";
    assert '/' !in name;
    RowNameIn(dir, name);
    DotXml(a + "." + b);
    SplitThree(a, b, "xml");
    JoinTwo(a, b);
  }

  /** The row name is made from the file name alone. */
  lemma RowNameIn(dir: string, name: string)
    requires '/' !in name
    ensures var pieces := Split(name, '.'); RowName(dir + "/" + name) == Join(pieces[..|pieces| - 1], "")
  {
    assert dir + "/" + name == dir + ['/'] + name;
    LastPieceAfter(dir, '/', name);
  }

  lemma JoinTwo(a: string, b: string)
    ensures var pieces := [a, b, "xml"]; Join(pieces[..|pieces| - 1], "") == a + b
  {
    var pieces := [a, b, "xml"];
    assert pieces[..|pieces| - 1] == [a, b];
    assert [a, b][1..] == [b];
    assert Join([a, b], "") == a + "" + Join([b], "");
    assert a + "" + b == a + b;
  }

  /** The campaign and event cells of a row read back into exactly its campaigns
      and events, in order: no place, context or date, whatever quotes, braces or
      `;` it holds, runs into the next dict. */
  lemma CellsReadBack(row: Row)
    ensures ReadPairs("Year", "Place", Cells(row)[6]) == Some(CampaignPairs(row.campaigns))
    ensures ReadPairs("Context", "Date", Cells(row)[7]) == Some(EventPairs(row.events))
  {
    ShowPairsRoundTrip("Year", "Place", CampaignPairs(row.campaigns));
    ShowPairsRoundTrip("Context", "Date", EventPairs(row.events));
  }
}
