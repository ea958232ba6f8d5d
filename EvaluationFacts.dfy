/** Properties of the polygon scorer. */
module EvaluationFacts {
  import opened Wrappers
  import opened Text
  import opened Page
  import opened Evaluation

  // ---------------------------------------------------------------------------
  // coords_to_int
  // ---------------------------------------------------------------------------

  /** The loop of lines 31-35 for any per-token conversion `parse`: `acc` followed
      by the converted tokens, or the error of the first token that fails. */
  function ParseEach<T>(acc: seq<T>, tokens: seq<string>, parse: string -> Result<T, Fault>): Result<seq<T>, Fault>
    decreases |tokens|
  {
    if tokens == [] then Ok(acc)
    else
      var p :- parse(tokens[0]);
      ParseEach(acc + [p], tokens[1..], parse)
  }

  lemma {:induction false} ParsePointsFromIsParseEach(acc: seq<Point>, tokens: seq<string>)
    ensures ParsePointsFrom(acc, tokens) == ParseEach(acc, tokens, ParsePoint)
    decreases |tokens|
  {
    if tokens != [] && ParsePoint(tokens[0]).Ok? {
      ParsePointsFromIsParseEach(acc + [ParsePoint(tokens[0]).value], tokens[1..]);
    }
  }

  /** The loop succeeds exactly when every token converts; it then keeps `acc` and
      adds the value of each token, in order. */
  lemma {:induction false} ParseEachShape<T>(acc: seq<T>, tokens: seq<string>, parse: string -> Result<T, Fault>)
    ensures ParseEach(acc, tokens, parse).Ok? <==> forall k :: 0 <= k < |tokens| ==> parse(tokens[k]).Ok?
    ensures ParseEach(acc, tokens, parse).Ok? ==>
      var ps := ParseEach(acc, tokens, parse).value;
      && |ps| == |acc| + |tokens| && ps[..|acc|] == acc
      && forall k :: 0 <= k < |tokens| ==> parse(tokens[k]) == Ok(ps[|acc| + k])
    decreases |tokens|
  {
    if tokens != [] {
      var p := parse(tokens[0]);
      var rest := tokens[1..];
      forall k | 0 < k < |tokens|
        ensures tokens[k] == rest[k - 1]
      {
      }
      if p.Ok? {
        ParseEachShape(acc + [p.value], rest, parse);
        var r := ParseEach(acc, tokens, parse);
        if r.Ok? {
          var ps := r.value;
          assert ps[..|acc| + 1] == acc + [p.value];
          assert ps[..|acc|] == (ps[..|acc| + 1])[..|acc|];
        }
      }
    }
  }

  /** The points come out one per token, in token order, and the parse fails
      exactly when some token fails. */
  lemma ParsePointsFromShape(acc: seq<Point>, tokens: seq<string>)
    ensures ParsePointsFrom(acc, tokens).Ok? <==> forall k :: 0 <= k < |tokens| ==> ParsePoint(tokens[k]).Ok?
    ensures ParsePointsFrom(acc, tokens).Ok? ==>
      var ps := ParsePointsFrom(acc, tokens).value;
      && |ps| == |acc| + |tokens| && ps[..|acc|] == acc
      && forall k :: 0 <= k < |tokens| ==> ParsePoint(tokens[k]) == Ok(ps[|acc| + k])
  {
    ParsePointsFromIsParseEach(acc, tokens);
    ParseEachShape(acc, tokens, ParsePoint);
  }

  /** `coords_to_int` gives one point per space-separated token, in order. */
  lemma CoordsOnePointPerToken(coords: string)
    ensures ParseCoords(coords).Ok? <==>
      forall k :: 0 <= k < |Split(coords, ' ')| ==> ParsePoint(Split(coords, ' ')[k]).Ok?
    ensures ParseCoords(coords).Ok? ==>
      && |ParseCoords(coords).value| == |Split(coords, ' ')|
      && forall k :: 0 <= k < |Split(coords, ' ')| ==>
           ParsePoint(Split(coords, ' ')[k]) == Ok(ParseCoords(coords).value[k])
  {
    var tokens := Split(coords, ' ');
    ParsePointsFromShape([], tokens);
    assert ParseCoords(coords) == ParsePointsFrom([], tokens);
    if !ParseCoords(coords).Ok? {
      var k0 :| 0 <= k0 < |tokens| && !ParsePoint(tokens[k0]).Ok?;
      assert !ParsePoint(Split(coords, ' ')[k0]).Ok?;
    }
  }

  /** An empty `points` attribute raises: `int("")` is a ValueError. */
  lemma EmptyCoordsFault()
    ensures ParseCoords("") == Err(BadNumber)
  {
    assert Split("", ' ') == [""];
  }

  /** The `points` text in the PAGE format: `x,y` pairs separated by single spaces. */
  function ShowPoint(p: Point): string {
    ShowInt(p.0) + "," + ShowInt(p.1)
  }

  function ShowPoints(ps: seq<Point>): seq<string> {
    Shows(ShowPoint, ps)
  }

  function ShowCoords(ps: seq<Point>): string {
    Join(ShowPoints(ps), " ")
  }

  lemma ShowIntAvoids(n: int, c: char)
    requires c != '-' && !IsDigit(c)
    ensures c !in ShowInt(n)
  {
    var s := ShowNat(if n < 0 then -n else n);
    assert forall k :: 0 <= k < |s| ==> IsDigit(s[k]);
    if n < 0 {
      assert ShowInt(n) == "-" + s;
      assert forall k :: 0 <= k < |ShowInt(n)| ==> ShowInt(n)[k] != c by {
        forall k | 0 <= k < |ShowInt(n)| ensures ShowInt(n)[k] != c {
          if k > 0 {
            assert ShowInt(n)[k] == s[k - 1];
          }
        }
      }
    }
  }

  lemma ParseShowPoint(p: Point)
    ensures ParsePoint(ShowPoint(p)) == Ok(p)
    ensures ' ' !in ShowPoint(p)
  {
    var a, b := ShowInt(p.0), ShowInt(p.1);
    ShowIntAvoids(p.0, ',');
    ShowIntAvoids(p.1, ',');
    ShowIntAvoids(p.0, ' ');
    ShowIntAvoids(p.1, ' ');
    assert Join([a, b], [',']) == ShowPoint(p) by {
      assert Join([a, b], [',']) == a + [','] + Join([b], [',']);
    }
    SplitJoin([a, b], ',');
    ParseShowInt(p.0);
    ParseShowInt(p.1);
    assert forall k :: 0 <= k < |ShowPoint(p)| ==> ShowPoint(p)[k] != ' ' by {
      forall k | 0 <= k < |ShowPoint(p)| ensures ShowPoint(p)[k] != ' ' {
        if k < |a| {
          assert ShowPoint(p)[k] == a[k];
        } else if k > |a| {
          assert ShowPoint(p)[k] == b[k - |a| - 1];
        }
      }
    }
  }

  lemma ParseShownPoints(acc: seq<Point>, ps: seq<Point>)
    ensures ParsePointsFrom(acc, ShowPoints(ps)) == Ok(acc + ps)
    decreases |ps|
  {
    forall p ensures ParsePoint(ShowPoint(p)) == Ok(p) {
      ParseShowPoint(p);
    }
    ParsePointsFromIsParseEach(acc, ShowPoints(ps));
    ParseEachShown(acc, ps, ParsePoint, ShowPoint);
  }

  /** Parsing what `show` wrote, with a `parse` that undoes it, gives the values back. */
  lemma {:induction false} ParseEachShown<T>(acc: seq<T>, ps: seq<T>, parse: string -> Result<T, Fault>, show: T -> string)
    requires forall p :: parse(show(p)) == Ok(p)
    ensures ParseEach(acc, Shows(show, ps), parse) == Ok(acc + ps)
    decreases |ps|
  {
    if ps == [] {
      assert Shows(show, ps) == [];
      assert acc + ps == acc;
    } else {
      ShowsTail(show, ps);
      ParseEachShown(acc + [ps[0]], ps[1..], parse, show);
      assert acc + [ps[0]] + ps[1..] == acc + ps;
    }
  }

  /** Reading back a non-empty polygon written in the PAGE `points` format gives it back. */
  lemma CoordsRoundTrip(ps: seq<Point>)
    requires |ps| >= 1
    ensures ParseCoords(ShowCoords(ps)) == Ok(ps)
  {
    forall k | 0 <= k < |ps| ensures ' ' !in ShowPoints(ps)[k] {
      ParseShowPoint(ps[k]);
    }
    var tokens := ShowPoints(ps);
    assert " " == [' '];
    SplitJoin(tokens, ' ');
    assert Split(ShowCoords(ps), ' ') == tokens;
    ParseShownPoints([], ps);
    assert [] + ps == ps;
  }

  // ---------------------------------------------------------------------------
  // Labels
  // ---------------------------------------------------------------------------

  /** `type:(.*?);` matches at `s` with group `g` exactly when "type:" starts at `s`,
      `g` follows it, a ';' follows `g`, and `g` holds neither ';' (the lazy group
      stops at the first one) nor '\n' (which `.` does not match). */
  lemma TypeGroupAtSpec(t: string, s: nat, g: string)
    ensures TypeGroupAt(t, s) == Some(g) <==>
      && MatchesAt(t, s, "type:")
      && s + 5 + |g| < |t| && t[s + 5..s + 5 + |g|] == g && t[s + 5 + |g|] == ';'
      && ';' !in g && '\n' !in g
  {
    if MatchesAt(t, s, "type:") {
      var e := IndexFrom(t, ';', s + 5);
      var le := LineEnd(t, s + 5);
      if TypeGroupAt(t, s) == Some(g) {
        assert forall k :: 0 <= k < |g| ==> g[k] == t[s + 5 + k];
      }
      if s + 5 + |g| < |t| && t[s + 5..s + 5 + |g|] == g && t[s + 5 + |g|] == ';' && ';' !in g && '\n' !in g {
        var q := s + 5 + |g|;
        assert forall k :: s + 5 <= k < q ==> t[k] == g[k - s - 5];
        assert e == Some(q);
        assert le >= q;
      }
    }
  }

  /** A `custom` attribute without any `type:...;` is labelled "no label", and
      otherwise the label is the group of the leftmost match. */
  lemma LabelOfIsLeftmost(custom: string, s: nat)
    requires s <= |custom| && TypeGroupAt(custom, s).Some?
    requires forall j :: 0 <= j < s ==> TypeGroupAt(custom, j).None?
    ensures LabelOf(custom) == TypeGroupAt(custom, s).value
  {
  }

  lemma LabelOfWithoutType(custom: string)
    requires forall j :: 0 <= j <= |custom| ==> TypeGroupAt(custom, j).None?
    ensures LabelOf(custom) == NoLabel
  {
  }

  /** "no label" is not one of the 18 dict keys. */
  lemma NoLabelIsNoKey()
    ensures LabelIndex(NoLabel).None?
  {
    assert forall j :: 0 <= j < |LabelKeys| ==> LabelKeys[j] != NoLabel;
  }

  const NameTagged := "structure {type:Name;}"

  lemma NameTagGroup()
    ensures TypeGroupAt(NameTagged, 11) == Some("Name")
  {
    TypeGroupAtSpec(NameTagged, 11, "Name");
    assert NameTagged[11..16] == "type:";
    assert NameTagged[16..20] == "Name";
  }

  lemma NoTypeBeforeName(j: nat)
    requires j < 11
    ensures TypeGroupAt(NameTagged, j).None?
  {
    assert NameTagged[j + 4] != ':';
    assert NameTagged[j..j + 5][4] == NameTagged[j + 4];
  }

  /** The label of a line tagged `structure {type:Name;}`. */
  lemma LabelOfNameTag()
    ensures LabelOf(NameTagged) == "Name"
  {
    NameTagGroup();
    forall j | 0 <= j < 11 ensures TypeGroupAt(NameTagged, j).None? {
      NoTypeBeforeName(j);
    }
    LabelOfIsLeftmost(NameTagged, 11);
  }

  // ---------------------------------------------------------------------------
  // The ground-truth dict
  // ---------------------------------------------------------------------------

  /** The position of key `g` in `m`. */
  function KeyIndex<G(==)>(m: seq<Entry<G>>, g: G): (r: Option<nat>)
    ensures r.Some? ==> r.value < |m| && m[r.value].geom == g
    ensures r.Some? ==> forall j :: 0 <= j < r.value ==> m[j].geom != g
    ensures r.None? ==> forall j :: 0 <= j < |m| ==> m[j].geom != g
    decreases |m|
  {
    if m == [] then None
    else if m[0].geom == g then Some(0)
    else match KeyIndex(m[1..], g)
      case None => None
      case Some(i) => Some(i + 1)
  }

  /** `d[g] = label` overwrites the entry of an existing key where it stands and
      appends a new key at the end. */
  lemma {:induction false} PutShape<G>(m: seq<Entry<G>>, g: G, tag: string)
    ensures KeyIndex(m, g).None? ==> Put(m, g, tag) == m + [Entry(g, tag)]
    ensures KeyIndex(m, g).Some? ==> Put(m, g, tag) == m[KeyIndex(m, g).value := Entry(g, tag)]
    ensures Lookup(m, g) == if KeyIndex(m, g).Some? then Some(m[KeyIndex(m, g).value].tag) else None
    decreases |m|
  {
    if m != [] && m[0].geom != g {
      PutShape(m[1..], g, tag);
      assert m == [m[0]] + m[1..];
    }
  }

  /** After `d[g] = label`, `d[g]` is `label`, every other key keeps its value,
      the dict grows by one exactly when `g` was new, and keys stay distinct. */
  lemma PutSpec<G>(m: seq<Entry<G>>, g: G, tag: string)
    ensures Lookup(Put(m, g, tag), g) == Some(tag)
    ensures forall h :: h != g ==> Lookup(Put(m, g, tag), h) == Lookup(m, h)
    ensures |Put(m, g, tag)| == if Lookup(m, g).Some? then |m| else |m| + 1
    ensures DistinctKeys(m) ==> DistinctKeys(Put(m, g, tag))
  {
    var r := Put(m, g, tag);
    PutShape(m, g, tag);
    PutShape(r, g, tag);
    forall h | h != g ensures Lookup(r, h) == Lookup(m, h) {
      PutOther(m, g, tag, h);
    }
    if DistinctKeys(m) {
      PutDistinct(m, g, tag);
    }
  }

  lemma PutOther<G>(m: seq<Entry<G>>, g: G, tag: string, h: G)
    requires h != g
    ensures Lookup(Put(m, g, tag), h) == Lookup(m, h)
  {
    PutShape(m, g, tag);
    PutShape(m, h, tag);
    PutShape(Put(m, g, tag), h, tag);
  }

  lemma PutDistinct<G>(m: seq<Entry<G>>, g: G, tag: string)
    requires DistinctKeys(m)
    ensures DistinctKeys(Put(m, g, tag))
  {
    var r := Put(m, g, tag);
    PutShape(m, g, tag);
    forall a, b | 0 <= a < b < |r| ensures r[a].geom != r[b].geom {
      if KeyIndex(m, g).None? {
        if b == |m| {
          assert r[b].geom == g && r[a] == m[a];
        }
      } else {
        assert m[a].geom != m[b].geom;
      }
    }
  }

  /** The number of lines a counter dict has counted. */
  function Total(m: Counts): nat
    decreases |m|
  {
    if m == [] then 0 else m[0] + Total(m[1..])
  }

  /** `Bump` raises the one count and leaves the others, so the total grows by one. */
  lemma {:induction false} BumpSpec(m: Counts, k: nat)
    requires k < |m|
    ensures Bump(m, k)[k] == m[k] + 1
    ensures forall j :: 0 <= j < |m| && j != k ==> Bump(m, k)[j] == m[j]
    ensures Total(Bump(m, k)) == Total(m) + 1
    decreases |m|
  {
    if k > 0 {
      BumpSpec(m[1..], k - 1);
      assert Bump(m, k)[1..] == Bump(m[1..], k - 1);
    } else {
      assert Bump(m, k)[1..] == m[1..];
    }
  }

  /** `d[tag] += 1` fails exactly for a tag outside the keys, and otherwise adds one
      under that tag and nowhere else. */
  lemma IncrementSpec(m: Counts, tag: string)
    requires |m| == LabelCount
    ensures Increment(m, tag).Err? <==> LabelIndex(tag).None?
    ensures Increment(m, tag).Ok? ==>
      var k := LabelIndex(tag).value;
      var r := Increment(m, tag).value;
      && r[k] == m[k] + 1
      && (forall j :: 0 <= j < |m| && j != k ==> r[j] == m[j])
      && Total(r) == Total(m) + 1
  {
    match LabelIndex(tag)
    case None =>
    case Some(k) =>
      IncrementAt(m, tag, k);
      BumpSpec(m, k);
  }

  lemma IncrementAt(m: Counts, tag: string, k: nat)
    requires |m| == LabelCount && LabelIndex(tag) == Some(k)
    ensures Increment(m, tag) == Ok(Bump(m, k))
  {
  }

  /** Every ground-truth line is counted once under its label, and the dict gains at
      most one entry per line and keeps its keys distinct. */
  lemma {:induction false} GtScanCounts<G>(geo: Geometry<G>, st: GtState<G>, lines: seq<TextLine>)
    requires |st.counts| == LabelCount && DistinctKeys(st.entries)
    ensures var r := GtScan(geo, st, lines);
      r.Ok? ==> && Total(r.value.counts) == Total(st.counts) + |lines|
                && |r.value.entries| <= |st.entries| + |lines|
                && DistinctKeys(r.value.entries)
    decreases |lines|
  {
    if lines != [] {
      var r1 := GtStep(geo, st, lines[0]);
      if r1.Ok? {
        var line := lines[0];
        var tag := LabelOf(line.custom);
        IncrementSpec(st.counts, tag);
        var g := MakePolygon(geo, ParseCoords(line.coords.value).value).value;
        PutSpec(st.entries, g, tag);
        GtScanCounts(geo, r1.value, lines[1..]);
      }
    }
  }

  /** The ground truth of a page has one count per line. */
  lemma GtPhaseCountsLines<G>(geo: Geometry<G>, lines: seq<TextLine>)
    ensures var r := GtPhase(geo, GtLines(lines));
      r.Ok? ==> Total(r.value.counts) == |lines| && |r.value.entries| <= |lines|
  {
    StartTotal<G>();
    GtScanCounts(geo, GtStart(), lines);
  }

  lemma StartTotal<G>()
    ensures var st: GtState<G> := GtStart(); Total(st.counts) == 0 && st.entries == [] && DistinctKeys(st.entries)
  {
    ZeroTotal(ZeroCounts());
  }

  lemma {:induction false} ZeroTotal(m: Counts)
    requires forall k :: 0 <= k < |m| ==> m[k] == 0
    ensures Total(m) == 0
    decreases |m|
  {
    if m != [] {
      ZeroTotal(m[1..]);
    }
  }

  /** Two ground-truth lines with the same polygon: both are counted, but the dict
      keeps one entry, holding the label of the later line. */
  lemma RepeatedPolygonKeepsLastLabel<G>(geo: Geometry<G>, st: GtState<G>, a: TextLine, b: TextLine)
    requires |st.counts| == LabelCount && a.coords == b.coords
    requires GtScan(geo, st, [a, b]).Ok?
    ensures var r := GtScan(geo, st, [a, b]).value;
      var g := MakePolygon(geo, ParseCoords(a.coords.value).value).value;
      && Lookup(r.entries, g) == Some(LabelOf(b.custom))
      && Total(r.counts) == Total(st.counts) + 2
      && |r.entries| <= |st.entries| + 1
  {
    var r1 := GtStep(geo, st, a).value;
    assert [a, b][1..] == [b];
    assert GtScan(geo, st, [a, b]) == GtScan(geo, r1, [b]);
    assert GtScan(geo, r1, [b]) == GtStep(geo, r1, b);
    var g := MakePolygon(geo, ParseCoords(a.coords.value).value).value;
    IncrementSpec(st.counts, LabelOf(a.custom));
    IncrementSpec(r1.counts, LabelOf(b.custom));
    PutSpec(st.entries, g, LabelOf(a.custom));
    PutSpec(r1.entries, g, LabelOf(b.custom));
  }

  /** A ground-truth line without a `type:...;` raises KeyError once its Coords are read. */
  lemma UnlabelledGtLineFaults<G>(geo: Geometry<G>, st: GtState<G>, line: TextLine)
    requires |st.counts| == LabelCount && line.coords.Some?
    requires forall j :: 0 <= j <= |line.custom| ==> TypeGroupAt(line.custom, j).None?
    ensures GtStep(geo, st, line) == Err(UnknownLabel(NoLabel))
  {
    LabelOfWithoutType(line.custom);
    NoLabelIsNoKey();
  }

  // ---------------------------------------------------------------------------
  // Matching one predicted line
  // ---------------------------------------------------------------------------

  /** The ground-truth entries that take part for the predicted polygon `pe`
      with label `tag`: same label and a positive intersection, in dict order. */
  function Hits<G>(geo: Geometry<G>, entries: seq<Entry<G>>, pe: G, tag: string): (r: seq<Entry<G>>)
    ensures |r| <= |entries|
    ensures forall i :: 0 <= i < |r| ==> r[i].tag == tag && geo.intersectionArea(r[i].geom, pe) > 0.0
    decreases |entries|
  {
    if entries == [] then []
    else
      var e := entries[0];
      (if geo.intersectionArea(e.geom, pe) > 0.0 && tag == e.tag then [e] else []) + Hits(geo, entries[1..], pe, tag)
  }

  ghost predicate PositiveUnions<G>(geo: Geometry<G>, hs: seq<Entry<G>>, pe: G) {
    forall i :: 0 <= i < |hs| ==> geo.unionArea(hs[i].geom, pe) > 0.0
  }

  /** The IoUs of the pairs `hs`, in order. */
  function Ious<G>(geo: Geometry<G>, hs: seq<Entry<G>>, pe: G): (r: seq<real>)
    requires PositiveUnions(geo, hs, pe)
    ensures |r| == |hs|
    decreases |hs|
  {
    if hs == [] then []
    else [geo.intersectionArea(hs[0].geom, pe) / geo.unionArea(hs[0].geom, pe)] + Ious(geo, hs[1..], pe)
  }

  function CountAtLeast(xs: seq<real>, bound: real): (n: nat)
    ensures n <= |xs|
    decreases |xs|
  {
    if xs == [] then 0 else (if xs[0] >= bound then 1 else 0) + CountAtLeast(xs[1..], bound)
  }

  /** Some pair of `hs` has an intersection area of at least 0.9. */
  function HasLarge<G>(geo: Geometry<G>, hs: seq<Entry<G>>, pe: G): bool
    decreases |hs|
  {
    hs != [] && (geo.intersectionArea(hs[0].geom, pe) >= AreaThreshold || HasLarge(geo, hs[1..], pe))
  }

  lemma HitsHavePositiveUnions<G(!new)>(geo: Geometry<G>, entries: seq<Entry<G>>, pe: G, tag: string)
    requires Laws(geo)
    ensures PositiveUnions(geo, Hits(geo, entries, pe, tag), pe)
  {
    var hs := Hits(geo, entries, pe, tag);
    forall i | 0 <= i < |hs| ensures geo.unionArea(hs[i].geom, pe) > 0.0 {
      assert geo.intersectionArea(hs[i].geom, pe) <= geo.unionArea(hs[i].geom, pe);
    }
  }

  lemma UpdateTwice<T>(s: seq<T>, k: nat, a: T, b: T)
    requires k < |s|
    ensures s[k := a][k := b] == s[k := b]
  {
  }

  /** `t` after the IoUs `xs` of one predicted line with label index `k` are
      recorded, `c2` of them counting for evaluation 2. */
  function Absorb(t: Tally, k: nat, xs: seq<real>, c2: nat): (r: Tally)
    requires Shaped(t) && k < LabelCount
    ensures Shaped(r)
  {
    t.(ious := t.ious + xs, perLabel := t.perLabel[k := t.perLabel[k] + xs],
       tp := t.tp[k := t.tp[k] + CountAtLeast(xs, IouThreshold)],
       eval2 := t.eval2[k := t.eval2[k] + c2])
  }

  lemma AbsorbNothing(t: Tally, k: nat)
    requires Shaped(t) && k < LabelCount
    ensures Absorb(t, k, [], 0) == t
  {
    assert t.ious + [] == t.ious;
    assert t.perLabel[k] + [] == t.perLabel[k];
  }

  /** Recording one IoU and then absorbing the rest is absorbing them all. */
  lemma AbsorbRecord(t: Tally, k: nat, iou: real, inter: real, found: bool, xs: seq<real>, c2: nat)
    requires Shaped(t) && k < LabelCount
    requires !found || c2 == 0
    ensures Absorb(Record(t, k, iou, inter, found), k, xs, c2)
         == Absorb(t, k, [iou] + xs, (if inter >= AreaThreshold && !found then 1 else 0) + c2)
  {
    var t' := Record(t, k, iou, inter, found);
    assert ([iou] + xs)[1..] == xs;
    assert t.ious + [iou] + xs == t.ious + ([iou] + xs);
    assert t.perLabel[k] + [iou] + xs == t.perLabel[k] + ([iou] + xs);
    UpdateTwice(t.perLabel, k, t.perLabel[k] + [iou], t.perLabel[k] + [iou] + xs);
    var c := if iou >= IouThreshold then 1 else 0;
    assert t'.tp == t.tp[k := t.tp[k] + c];
    UpdateTwice(t.tp, k, t.tp[k] + c, t.tp[k] + c + CountAtLeast(xs, IouThreshold));
    var d := if inter >= AreaThreshold && !found then 1 else 0;
    assert t'.eval2 == t.eval2[k := t.eval2[k] + d];
    UpdateTwice(t.eval2, k, t.eval2[k] + d, t.eval2[k] + d + c2);
  }

  /** A same-label overlapping entry at the head gives the first IoU. */
  lemma HitsHead<G(!new)>(geo: Geometry<G>, entries: seq<Entry<G>>, pe: G, tag: string)
    requires Laws(geo) && entries != []
    requires geo.intersectionArea(entries[0].geom, pe) > 0.0 && tag == entries[0].tag
    ensures PositiveUnions(geo, Hits(geo, entries, pe, tag), pe)
    ensures PositiveUnions(geo, Hits(geo, entries[1..], pe, tag), pe)
    ensures var e, hs, rest := entries[0], Hits(geo, entries, pe, tag), Hits(geo, entries[1..], pe, tag);
      && Ious(geo, hs, pe) == [geo.intersectionArea(e.geom, pe) / geo.unionArea(e.geom, pe)] + Ious(geo, rest, pe)
      && HasLarge(geo, hs, pe) == (geo.intersectionArea(e.geom, pe) >= AreaThreshold || HasLarge(geo, rest, pe))
  {
    HitsHavePositiveUnions(geo, entries, pe, tag);
    HitsHavePositiveUnions(geo, entries[1..], pe, tag);
    var hs, rest := Hits(geo, entries, pe, tag), Hits(geo, entries[1..], pe, tag);
    assert hs == [entries[0]] + rest;
    assert hs[1..] == rest;
  }

  /** Any other entry at the head takes no part. */
  lemma HitsSkip<G>(geo: Geometry<G>, entries: seq<Entry<G>>, pe: G, tag: string)
    requires entries != []
    requires !(geo.intersectionArea(entries[0].geom, pe) > 0.0 && tag == entries[0].tag)
    ensures Hits(geo, entries, pe, tag) == Hits(geo, entries[1..], pe, tag)
  {
    assert [] + Hits(geo, entries[1..], pe, tag) == Hits(geo, entries[1..], pe, tag);
  }

  /** With areas that obey the laws, the inner loop never divides by zero, and it
      appends to `ious` and to the label's list exactly the IoUs of the same-label
      overlapping entries in dict order, adds to evaluation 1 those that reach 0.5,
      and adds to evaluation 2 one count when the line has not yet been found and
      some such entry overlaps it by at least 0.9; nothing else changes. */
  lemma {:induction false} MatchGtSpec<G(!new)>(geo: Geometry<G>, entries: seq<Entry<G>>, pe: G, tag: string, t: Tally, found: bool)
    requires Laws(geo) && Shaped(t) && LabelIndex(tag).Some?
    ensures PositiveUnions(geo, Hits(geo, entries, pe, tag), pe)
    ensures var hs := Hits(geo, entries, pe, tag);
      MatchGt(geo, entries, pe, tag, t, found)
        == Ok(Absorb(t, LabelIndex(tag).value, Ious(geo, hs, pe), if !found && HasLarge(geo, hs, pe) then 1 else 0))
    decreases |entries|, 1
  {
    HitsHavePositiveUnions(geo, entries, pe, tag);
    if entries == [] {
      AbsorbNothing(t, LabelIndex(tag).value);
    } else if geo.intersectionArea(entries[0].geom, pe) > 0.0 && tag == entries[0].tag {
      MatchGtHit(geo, entries, pe, tag, t, found);
    } else {
      MatchGtSpec(geo, entries[1..], pe, tag, t, found);
      HitsSkip(geo, entries, pe, tag);
    }
  }

  /** `MatchGtSpec` when the first entry is a same-label overlap. */
  lemma {:induction false} MatchGtHit<G(!new)>(geo: Geometry<G>, entries: seq<Entry<G>>, pe: G, tag: string, t: Tally, found: bool)
    requires Laws(geo) && Shaped(t) && LabelIndex(tag).Some?
    requires entries != [] && geo.intersectionArea(entries[0].geom, pe) > 0.0 && tag == entries[0].tag
    ensures PositiveUnions(geo, Hits(geo, entries, pe, tag), pe)
    ensures var hs := Hits(geo, entries, pe, tag);
      MatchGt(geo, entries, pe, tag, t, found)
        == Ok(Absorb(t, LabelIndex(tag).value, Ious(geo, hs, pe), if !found && HasLarge(geo, hs, pe) then 1 else 0))
    decreases |entries|, 0
  {
    var k := LabelIndex(tag).value;
    var e := entries[0];
    var inter := geo.intersectionArea(e.geom, pe);
    var union := geo.unionArea(e.geom, pe);
    assert inter <= union;
    var iou := inter / union;
    var found' := found || inter >= AreaThreshold;
    HitsHead(geo, entries, pe, tag);
    MatchGtSpec(geo, entries[1..], pe, tag, Record(t, k, iou, inter, found), found');
    var rest := Hits(geo, entries[1..], pe, tag);
    AbsorbRecord(t, k, iou, inter, found, Ious(geo, rest, pe), if !found' && HasLarge(geo, rest, pe) then 1 else 0);
  }

  /** Every IoU recorded lies in (0, 1]. */
  lemma {:induction false} IousInUnitInterval<G(!new)>(geo: Geometry<G>, hs: seq<Entry<G>>, pe: G)
    requires Laws(geo)
    requires forall i :: 0 <= i < |hs| ==> geo.intersectionArea(hs[i].geom, pe) > 0.0
    ensures PositiveUnions(geo, hs, pe)
    ensures var xs := Ious(geo, hs, pe); forall i :: 0 <= i < |xs| ==> 0.0 < xs[i] <= 1.0
    decreases |hs|
  {
    assert PositiveUnions(geo, hs, pe) by {
      forall i | 0 <= i < |hs| ensures geo.unionArea(hs[i].geom, pe) > 0.0 {
        assert geo.intersectionArea(hs[i].geom, pe) <= geo.unionArea(hs[i].geom, pe);
      }
    }
    if hs != [] {
      IousInUnitInterval(geo, hs[1..], pe);
      var a, b := geo.intersectionArea(hs[0].geom, pe), geo.unionArea(hs[0].geom, pe);
      assert 0.0 < a <= b;
      assert a / b <= 1.0 by {
        assert a / b * b == a;
      }
      var xs := Ious(geo, hs, pe);
      assert xs == [a / b] + Ious(geo, hs[1..], pe);
      forall i | 0 < i < |xs| ensures 0.0 < xs[i] <= 1.0 {
        assert xs[i] == Ious(geo, hs[1..], pe)[i - 1];
      }
    }
  }

  lemma {:induction false} CountAtLeastMember(xs: seq<real>, x: real, bound: real)
    requires x in xs && x >= bound
    ensures CountAtLeast(xs, bound) >= 1
    decreases |xs|
  {
    if xs[0] != x {
      assert x in xs[1..];
      CountAtLeastMember(xs[1..], x, bound);
    }
  }

  lemma SelfHit<G(!new)>(geo: Geometry<G>, entries: seq<Entry<G>>, pe: G, tag: string, i: nat)
    requires Laws(geo) && i < |entries| && entries[i] == Entry(pe, tag)
    requires geo.intersectionArea(pe, pe) > 0.0
    ensures PositiveUnions(geo, Hits(geo, entries, pe, tag), pe)
    ensures 1.0 in Ious(geo, Hits(geo, entries, pe, tag), pe)
  {
    HitsHavePositiveUnions(geo, entries, pe, tag);
    HitsContain(geo, entries, pe, tag, i);
    IousContain(geo, Hits(geo, entries, pe, tag), pe, entries[i]);
    SelfIou(geo, pe);
  }

  /** Every same-label entry with a positive overlap is among the hits. */
  lemma {:induction false} HitsContain<G>(geo: Geometry<G>, entries: seq<Entry<G>>, pe: G, tag: string, i: nat)
    requires i < |entries| && entries[i].tag == tag && geo.intersectionArea(entries[i].geom, pe) > 0.0
    ensures entries[i] in Hits(geo, entries, pe, tag)
    decreases |entries|
  {
    var e := entries[0];
    var head := if geo.intersectionArea(e.geom, pe) > 0.0 && tag == e.tag then [e] else [];
    var rest := Hits(geo, entries[1..], pe, tag);
    assert Hits(geo, entries, pe, tag) == head + rest;
    if i == 0 {
      assert (head + rest)[0] == e;
    } else {
      HitsContain(geo, entries[1..], pe, tag, i - 1);
      var j :| 0 <= j < |rest| && rest[j] == entries[i];
      assert (head + rest)[|head| + j] == entries[i];
    }
  }

  /** The IoU of every pair of `hs` is in `Ious(hs)`. */
  lemma {:induction false} IousContain<G>(geo: Geometry<G>, hs: seq<Entry<G>>, pe: G, h: Entry<G>)
    requires PositiveUnions(geo, hs, pe) && h in hs
    ensures geo.intersectionArea(h.geom, pe) / geo.unionArea(h.geom, pe) in Ious(geo, hs, pe)
    decreases |hs|
  {
    var xs := Ious(geo, hs, pe);
    if hs[0] == h {
      assert xs[0] == geo.intersectionArea(h.geom, pe) / geo.unionArea(h.geom, pe);
    } else {
      assert h in hs[1..];
      assert PositiveUnions(geo, hs[1..], pe) by {
        forall i | 0 <= i < |hs| - 1 ensures geo.unionArea(hs[1..][i].geom, pe) > 0.0 {
          assert hs[1..][i] == hs[i + 1];
        }
      }
      IousContain(geo, hs[1..], pe, h);
      var j :| 0 <= j < |hs| - 1 && Ious(geo, hs[1..], pe)[j] == geo.intersectionArea(h.geom, pe) / geo.unionArea(h.geom, pe);
      assert xs[j + 1] == Ious(geo, hs[1..], pe)[j];
    }
  }

  /** A polygon of positive area has an IoU of 1.0 with itself. */
  lemma SelfIou<G(!new)>(geo: Geometry<G>, pe: G)
    requires Laws(geo) && geo.intersectionArea(pe, pe) > 0.0
    ensures geo.intersectionArea(pe, pe) / geo.unionArea(pe, pe) == 1.0
  {
    var a := geo.intersectionArea(pe, pe);
    assert geo.unionArea(pe, pe) == a;
    DivSelf(a);
  }

  lemma DivSelf(a: real)
    requires a > 0.0
    ensures a / a == 1.0
  {
  }

  /** A predicted line whose polygon is a ground-truth key with the same label, and
      whose area is positive, scores an IoU of exactly 1.0 against it, which counts
      for evaluation 1. */
  lemma SelfMatchScoresOne<G(!new)>(geo: Geometry<G>, entries: seq<Entry<G>>, pe: G, tag: string, i: nat)
    requires Laws(geo) && i < |entries| && entries[i] == Entry(pe, tag)
    requires geo.intersectionArea(pe, pe) > 0.0
    ensures PositiveUnions(geo, Hits(geo, entries, pe, tag), pe)
    ensures 1.0 in Ious(geo, Hits(geo, entries, pe, tag), pe)
    ensures CountAtLeast(Ious(geo, Hits(geo, entries, pe, tag), pe), IouThreshold) >= 1
  {
    SelfHit(geo, entries, pe, tag, i);
    CountAtLeastMember(Ious(geo, Hits(geo, entries, pe, tag), pe), 1.0, IouThreshold);
  }

  /** Ground-truth entries of other labels take no part: with no entry of the
      predicted label, the inner loop changes nothing, whatever the overlaps. */
  lemma {:induction false} OtherLabelsIgnored<G>(geo: Geometry<G>, entries: seq<Entry<G>>, pe: G, tag: string, t: Tally, found: bool)
    requires Shaped(t) && LabelIndex(tag).Some?
    requires forall i :: 0 <= i < |entries| ==> entries[i].tag != tag
    ensures MatchGt(geo, entries, pe, tag, t, found) == Ok(t)
    decreases |entries|
  {
    if entries != [] {
      OtherLabelsIgnored(geo, entries[1..], pe, tag, t, found);
    }
  }

  /** Whatever the areas, one predicted line adds at most one to evaluation 2 (and
      none once it has been found), and evaluation 1 counts only pairs whose IoU was
      recorded in the label's list. */
  lemma {:induction false} MatchGtBounds<G>(geo: Geometry<G>, entries: seq<Entry<G>>, pe: G, tag: string, t: Tally, found: bool)
    requires Shaped(t) && LabelIndex(tag).Some?
    ensures var r := MatchGt(geo, entries, pe, tag, t, found);
      var k := LabelIndex(tag).value;
      r.Ok? ==> forall j :: 0 <= j < LabelCount ==>
        && t.eval2[j] <= r.value.eval2[j] <= t.eval2[j] + (if j == k && !found then 1 else 0)
        && r.value.tp[j] - t.tp[j] <= |r.value.perLabel[j]| - |t.perLabel[j]|
    decreases |entries|
  {
    if entries != [] {
      var k := LabelIndex(tag).value;
      var e := entries[0];
      var inter := geo.intersectionArea(e.geom, pe);
      if inter > 0.0 && tag == e.tag {
        var union := geo.unionArea(e.geom, pe);
        if union != 0.0 {
          var t' := Record(t, k, inter / union, inter, found);
          MatchGtBounds(geo, entries[1..], pe, tag, t', found || inter >= AreaThreshold);
        }
      } else {
        MatchGtBounds(geo, entries[1..], pe, tag, t, found);
      }
    }
  }

  // ---------------------------------------------------------------------------
  // One page
  // ---------------------------------------------------------------------------

  /** Evaluation 2 never counts a label more often than it was predicted, and
      evaluation 1 never counts more pairs than IoUs were recorded for the label. */
  ghost predicate Sound(t: Tally) {
    Shaped(t) && forall j :: 0 <= j < LabelCount ==> t.eval2[j] <= t.pred[j] && t.tp[j] <= |t.perLabel[j]|
  }

  /** Every recorded IoU lies in (0, 1]. */
  ghost predicate UnitIous(t: Tally) {
    && (forall i :: 0 <= i < |t.ious| ==> 0.0 < t.ious[i] <= 1.0)
    && (forall j, i :: 0 <= j < |t.perLabel| && 0 <= i < |t.perLabel[j]| ==> 0.0 < t.perLabel[j][i] <= 1.0)
  }

  lemma ExpStepSound<G>(geo: Geometry<G>, entries: seq<Entry<G>>, t: Tally, cs: string, custom: string)
    requires Sound(t)
    ensures var r := ExpStep(geo, entries, t, cs, custom); r.Ok? ==> Sound(r.value)
  {
    var r := ExpStep(geo, entries, t, cs, custom);
    if r.Ok? {
      var pts := ParseCoords(cs).value;
      var pe := MakePolygon(geo, pts).value;
      var tag := LabelOf(custom);
      IncrementSpec(t.pred, tag);
      var t1 := t.(pred := Increment(t.pred, tag).value);
      MatchGtBounds(geo, entries, pe, tag, t1, false);
    }
  }

  /** Both bounds of `Sound` hold at every point of the predicted-line loop. */
  lemma {:induction false} ExpScanSound<G>(geo: Geometry<G>, entries: seq<Entry<G>>, t: Tally, lines: seq<TextLine>)
    requires Sound(t)
    ensures var r := ExpScan(geo, entries, t, lines); r.Ok? ==> Sound(r.value)
    decreases |lines|
  {
    if lines != [] && lines[0].coords.Some? {
      ExpStepSound(geo, entries, t, lines[0].coords.value, lines[0].custom);
      var r := ExpStep(geo, entries, t, lines[0].coords.value, lines[0].custom);
      if r.Ok? {
        ExpScanSound(geo, entries, r.value, lines[1..]);
      }
    }
  }

  lemma AbsorbUnit(t: Tally, k: nat, xs: seq<real>, c2: nat)
    requires Shaped(t) && k < LabelCount && UnitIous(t)
    requires forall i :: 0 <= i < |xs| ==> 0.0 < xs[i] <= 1.0
    ensures UnitIous(Absorb(t, k, xs, c2))
  {
    var r := Absorb(t, k, xs, c2);
    forall i | 0 <= i < |r.ious| ensures 0.0 < r.ious[i] <= 1.0 {
      if i >= |t.ious| {
        assert r.ious[i] == xs[i - |t.ious|];
      }
    }
    forall j, i | 0 <= j < |r.perLabel| && 0 <= i < |r.perLabel[j]| ensures 0.0 < r.perLabel[j][i] <= 1.0 {
      if j == k && i >= |t.perLabel[k]| {
        assert r.perLabel[j][i] == xs[i - |t.perLabel[k]|];
      }
    }
  }

  /** With areas that obey the laws, a predicted line never raises ZeroDivisionError
      and only records IoUs in (0, 1]. */
  lemma ExpStepUnderLaws<G(!new)>(geo: Geometry<G>, entries: seq<Entry<G>>, t: Tally, cs: string, custom: string)
    requires Laws(geo) && Shaped(t) && UnitIous(t)
    ensures var r := ExpStep(geo, entries, t, cs, custom);
      (r.Ok? ==> UnitIous(r.value)) && (r.Err? ==> r.error != ZeroUnion)
  {
    var pts := ParseCoords(cs);
    if pts.Ok? && MakePolygon(geo, pts.value).Ok? {
      var pe := MakePolygon(geo, pts.value).value;
      var tag := LabelOf(custom);
      var inc := Increment(t.pred, tag);
      if inc.Ok? {
        var t1 := t.(pred := inc.value);
        IncrementSpec(t.pred, tag);
        MatchGtSpec(geo, entries, pe, tag, t1, false);
        var hs := Hits(geo, entries, pe, tag);
        IousInUnitInterval(geo, hs, pe);
        AbsorbUnit(t1, LabelIndex(tag).value, Ious(geo, hs, pe), if HasLarge(geo, hs, pe) then 1 else 0);
      }
    }
  }

  lemma {:induction false} ExpScanUnderLaws<G(!new)>(geo: Geometry<G>, entries: seq<Entry<G>>, t: Tally, lines: seq<TextLine>)
    requires Laws(geo) && Shaped(t) && UnitIous(t)
    ensures var r := ExpScan(geo, entries, t, lines);
      (r.Ok? ==> UnitIous(r.value)) && (r.Err? ==> r.error != ZeroUnion)
    decreases |lines|
  {
    if lines != [] && lines[0].coords.Some? {
      ExpStepUnderLaws(geo, entries, t, lines[0].coords.value, lines[0].custom);
      var r := ExpStep(geo, entries, t, lines[0].coords.value, lines[0].custom);
      if r.Ok? {
        ExpScanUnderLaws(geo, entries, r.value, lines[1..]);
      }
    }
  }

  /** The loop stops at the first predicted line without Coords: what follows it is
      never read. */
  lemma {:induction false} ExpScanStopsAtMissingCoords<G>(geo: Geometry<G>, entries: seq<Entry<G>>, t: Tally, lines: seq<TextLine>, i: nat)
    requires Shaped(t) && i < |lines| && lines[i].coords.None?
    ensures ExpScan(geo, entries, t, lines) == ExpScan(geo, entries, t, lines[..i])
    decreases i
  {
    if i > 0 && lines[0].coords.Some? {
      assert lines[..i][1..] == lines[1..][..i - 1];
      var r := ExpStep(geo, entries, t, lines[0].coords.value, lines[0].custom);
      if r.Ok? {
        ExpScanStopsAtMissingCoords(geo, entries, r.value, lines[1..], i - 1);
      }
    }
  }

  /** The number of predicted lines before the first one without Coords. */
  function LeadingWithCoords(lines: seq<TextLine>): nat
    decreases |lines|
  {
    if lines == [] || lines[0].coords.None? then 0 else 1 + LeadingWithCoords(lines[1..])
  }

  lemma MatchGtKeepsPred<G>(geo: Geometry<G>, entries: seq<Entry<G>>, pe: G, tag: string, t: Tally)
    requires Shaped(t) && LabelIndex(tag).Some?
    ensures var r := MatchGt(geo, entries, pe, tag, t, false); r.Ok? ==> r.value.pred == t.pred
  {
  }

  /** Every predicted line read is counted once under its label. */
  lemma {:induction false} ExpScanCountsLines<G>(geo: Geometry<G>, entries: seq<Entry<G>>, t: Tally, lines: seq<TextLine>)
    requires Shaped(t)
    ensures var r := ExpScan(geo, entries, t, lines);
      r.Ok? ==> Total(r.value.pred) == Total(t.pred) + LeadingWithCoords(lines)
    decreases |lines|
  {
    if lines != [] && lines[0].coords.Some? {
      var line := lines[0];
      var r := ExpStep(geo, entries, t, line.coords.value, line.custom);
      if r.Ok? {
        var tag := LabelOf(line.custom);
        IncrementSpec(t.pred, tag);
        var pe := MakePolygon(geo, ParseCoords(line.coords.value).value).value;
        MatchGtKeepsPred(geo, entries, pe, tag, t.(pred := Increment(t.pred, tag).value));
        ExpScanCountsLines(geo, entries, r.value, lines[1..]);
      }
    }
  }

  /** Without ground-truth entries no pair is ever recorded. */
  lemma {:induction false} ExpScanWithoutEntries<G>(geo: Geometry<G>, t: Tally, lines: seq<TextLine>)
    requires Shaped(t)
    ensures var r := ExpScan(geo, [], t, lines);
      r.Ok? ==> r.value.ious == t.ious && r.value.perLabel == t.perLabel && r.value.tp == t.tp && r.value.eval2 == t.eval2
    decreases |lines|
  {
    if lines != [] && lines[0].coords.Some? {
      var r := ExpStep(geo, [], t, lines[0].coords.value, lines[0].custom);
      if r.Ok? {
        ExpScanWithoutEntries(geo, r.value, lines[1..]);
      }
    }
  }

  /** What one page contributes always satisfies both bounds of `Sound`. */
  lemma PageScoreSound<G>(geo: Geometry<G>, exp: Option<seq<TextLine>>, gt: GtFile)
    ensures var r := PageScore(geo, exp, gt); r.Ok? ==> Sound(r.value)
  {
    var st := GtPhase(geo, gt);
    if st.Ok? && exp.Some? {
      ExpScanSound(geo, st.value.entries, EmptyTally().(gt := st.value.counts), exp.value);
    }
  }

  /** With areas that obey the laws, a page never raises ZeroDivisionError and every
      IoU it records lies in (0, 1]. */
  lemma PageScoreUnderLaws<G(!new)>(geo: Geometry<G>, exp: Option<seq<TextLine>>, gt: GtFile)
    requires Laws(geo)
    ensures var r := PageScore(geo, exp, gt);
      (r.Ok? ==> UnitIous(r.value)) && (r.Err? ==> r.error != ZeroUnion)
  {
    var st := GtPhase(geo, gt);
    if st.Ok? && exp.Some? {
      ExpScanUnderLaws(geo, st.value.entries, EmptyTally().(gt := st.value.counts), exp.value);
    }
  }

  /** A malformed ground-truth file is read as a page without regions: nothing is
      matched and no true positive is counted, while the predicted lines still count
      as predictions. */
  lemma MalformedGtMatchesNothing<G>(geo: Geometry<G>, exp: Option<seq<TextLine>>)
    ensures var r := PageScore(geo, exp, MalformedGt);
      r.Ok? ==> r.value.ious == [] && forall k :: 0 <= k < LabelCount ==>
        r.value.perLabel[k] == [] && r.value.tp[k] == 0 && r.value.eval2[k] == 0 && r.value.gt[k] == 0
  {
    if exp.Some? {
      ExpScanWithoutEntries(geo, EmptyTally(), exp.value);
    }
  }

  // ---------------------------------------------------------------------------
  // Summing the pages
  // ---------------------------------------------------------------------------

  lemma MergeAssociative(a: Tally, b: Tally, c: Tally)
    requires Shaped(a) && Shaped(b) && Shaped(c)
    ensures Merge(Merge(a, b), c) == Merge(a, Merge(b, c))
  {
    assert a.ious + b.ious + c.ious == a.ious + (b.ious + c.ious);
    var l := Merge(Merge(a, b), c);
    var r := Merge(a, Merge(b, c));
    assert l.perLabel == r.perLabel by {
      forall k | 0 <= k < LabelCount ensures l.perLabel[k] == r.perLabel[k] {
        assert a.perLabel[k] + b.perLabel[k] + c.perLabel[k] == a.perLabel[k] + (b.perLabel[k] + c.perLabel[k]);
      }
    }
  }

  lemma MergeEmpty(t: Tally)
    requires Shaped(t)
    ensures Merge(EmptyTally(), t) == t && Merge(t, EmptyTally()) == t
  {
    assert [] + t.ious == t.ious && t.ious + [] == t.ious;
    forall k | 0 <= k < LabelCount ensures [] + t.perLabel[k] == t.perLabel[k] && t.perLabel[k] + [] == t.perLabel[k] {
    }
  }

  /** The totals are additive over the walk: summing two runs of pages and adding the
      two sums gives the sum of the whole run. */
  lemma {:induction false} FoldAppend(xs: seq<Tally>, ys: seq<Tally>)
    requires AllShaped(xs) && AllShaped(ys)
    ensures AllShaped(xs + ys) && Fold(xs + ys) == Merge(Fold(xs), Fold(ys))
    decreases |ys|
  {
    assert AllShaped(xs + ys) by {
      forall i | 0 <= i < |xs + ys| ensures Shaped((xs + ys)[i]) {
        if i >= |xs| {
          assert (xs + ys)[i] == ys[i - |xs|];
        }
      }
    }
    if ys == [] {
      assert xs + ys == xs;
      MergeEmpty(Fold(xs));
    } else {
      var ys' := ys[..|ys| - 1];
      var y := ys[|ys| - 1];
      assert (xs + ys)[..|xs + ys| - 1] == xs + ys';
      FoldAppend(xs, ys');
      MergeAssociative(Fold(xs), Fold(ys'), y);
    }
  }

  /** A single page summed on its own is that page. */
  lemma FoldSingle(t: Tally)
    requires Shaped(t)
    ensures AllShaped([t]) && Fold([t]) == t
  {
    assert [t][..0] == [];
    MergeEmpty(t);
  }

  lemma MergeSound(a: Tally, b: Tally)
    requires Sound(a) && Sound(b)
    ensures Sound(Merge(a, b))
  {
  }

  lemma MergeUnit(a: Tally, b: Tally)
    requires Shaped(a) && Shaped(b) && UnitIous(a) && UnitIous(b)
    ensures UnitIous(Merge(a, b))
  {
    var m := Merge(a, b);
    forall i | 0 <= i < |m.ious| ensures 0.0 < m.ious[i] <= 1.0 {
      if i >= |a.ious| {
        assert m.ious[i] == b.ious[i - |a.ious|];
      }
    }
    forall j, i | 0 <= j < |m.perLabel| && 0 <= i < |m.perLabel[j]| ensures 0.0 < m.perLabel[j][i] <= 1.0 {
      if i >= |a.perLabel[j]| {
        assert m.perLabel[j][i] == b.perLabel[j][i - |a.perLabel[j]|];
      }
    }
  }

  ghost predicate AllSound(ts: seq<Tally>) {
    forall i :: 0 <= i < |ts| ==> Sound(ts[i])
  }

  ghost predicate AllUnit(ts: seq<Tally>) {
    forall i :: 0 <= i < |ts| ==> Shaped(ts[i]) && UnitIous(ts[i])
  }

  lemma {:induction false} FoldKeeps(ts: seq<Tally>)
    requires AllShaped(ts)
    ensures AllSound(ts) ==> Sound(Fold(ts))
    ensures AllUnit(ts) ==> UnitIous(Fold(ts))
    decreases |ts|
  {
    if ts != [] {
      var init := ts[..|ts| - 1];
      var last := ts[|ts| - 1];
      FoldKeeps(init);
      if AllSound(ts) {
        assert AllSound(init);
        MergeSound(Fold(init), last);
      }
      if AllUnit(ts) {
        assert AllUnit(init);
        MergeUnit(Fold(init), last);
      }
    }
  }

  /** Each `.xml` file of the walk contributes one page, in walk order; any other
      file is skipped. */
  function XmlPages(pages: seq<PageInput>): seq<PageInput>
    decreases |pages|
  {
    if pages == [] then []
    else (if IsXmlName(pages[0].fileName) then [pages[0]] else []) + XmlPages(pages[1..])
  }

  /** `vs` holds the results of the pages `xml`, one each, in order: the first is
      the result of the first page, and so on. */
  predicate ScoredAs<G(==)>(geo: Geometry<G>, xml: seq<PageInput>, vs: seq<Tally>)
    decreases |xml|
  {
    |vs| == |xml| && (xml != [] ==> PageScore(geo, xml[0].exp, xml[0].gt) == Ok(vs[0]) && ScoredAs(geo, xml[1..], vs[1..]))
  }

  /** One page more in front. */
  lemma ScoredAsCons<G>(geo: Geometry<G>, p: PageInput, rest: seq<PageInput>, t: Tally, vs: seq<Tally>)
    requires PageScore(geo, p.exp, p.gt) == Ok(t) && ScoredAs(geo, rest, vs)
    ensures ScoredAs(geo, [p] + rest, [t] + vs)
  {
    assert ([p] + rest)[1..] == rest && ([t] + vs)[1..] == vs;
  }

  lemma {:induction false} PageScoresFromShape<G>(geo: Geometry<G>, done: seq<Tally>, pages: seq<PageInput>)
    requires AllShaped(done)
    ensures var r := PageScoresFrom(geo, done, pages);
      r.Ok? ==> |done| <= |r.value| && r.value[..|done|] == done && ScoredAs(geo, XmlPages(pages), r.value[|done|..])
    decreases |pages|
  {
    if pages != [] {
      if !IsXmlName(pages[0].fileName) {
        PageScoresFromShape(geo, done, pages[1..]);
        assert XmlPages(pages) == XmlPages(pages[1..]);
      } else {
        var t := PageScore(geo, pages[0].exp, pages[0].gt);
        if t.Ok? {
          PageScoresFromShape(geo, done + [t.value], pages[1..]);
          var r := PageScoresFrom(geo, done, pages);
          if r.Ok? {
            var v := r.value;
            assert XmlPages(pages) == [pages[0]] + XmlPages(pages[1..]);
            PrefixOfPrefix(v, done, t.value);
            ScoredAsCons(geo, pages[0], XmlPages(pages[1..]), t.value, v[|done| + 1..]);
            assert v[|done|..] == [t.value] + v[|done| + 1..];
          }
        }
      }
    }
  }

  lemma PrefixOfPrefix<T>(v: seq<T>, done: seq<T>, x: T)
    requires |done| + 1 <= |v| && v[..|done| + 1] == done + [x]
    ensures v[..|done|] == done && v[|done|] == x
  {
    assert v[..|done|] == (v[..|done| + 1])[..|done|];
    assert v[|done|] == (v[..|done| + 1])[|done|];
  }

  /** The per-page results the totals are summed from are the results of the
      `.xml` files, one each, in walk order. */
  lemma PageScoresAreXmlPages<G>(geo: Geometry<G>, pages: seq<PageInput>)
    ensures var r := PageScores(geo, pages); r.Ok? ==> ScoredAs(geo, XmlPages(pages), r.value)
  {
    PageScoresFromShape(geo, [], pages);
    var r := PageScores(geo, pages);
    if r.Ok? {
      assert r.value[0..] == r.value;
    }
  }

  lemma {:induction false} PageScoresFromKeep<G(!new)>(geo: Geometry<G>, done: seq<Tally>, pages: seq<PageInput>)
    requires AllShaped(done) && AllSound(done)
    ensures var r := PageScoresFrom(geo, done, pages); r.Ok? ==> AllSound(r.value)
    ensures var r := PageScoresFrom(geo, done, pages); Laws(geo) && AllUnit(done) ==>
      (r.Ok? ==> AllUnit(r.value)) && (r.Err? ==> r.error != ZeroUnion)
    decreases |pages|
  {
    if pages != [] {
      if !IsXmlName(pages[0].fileName) {
        PageScoresFromKeep(geo, done, pages[1..]);
      } else {
        var t := PageScore(geo, pages[0].exp, pages[0].gt);
        PageScoreSound(geo, pages[0].exp, pages[0].gt);
        if Laws(geo) {
          PageScoreUnderLaws(geo, pages[0].exp, pages[0].gt);
        }
        if t.Ok? {
          PageScoresFromKeep(geo, done + [t.value], pages[1..]);
        }
      }
    }
  }

  // ---------------------------------------------------------------------------
  // The printed metrics
  // ---------------------------------------------------------------------------

  /** A guarded division is defined exactly when the denominator is not zero, and
      then it is the quotient; a count no larger than its denominator gives at most 1. */
  lemma RatioSpec(num: nat, den: nat)
    ensures Ratio(num, den).Some? <==> den != 0
    ensures Ratio(num, den).Some? ==>
      var v := Ratio(num, den).value; 0.0 <= v && v * (den as real) == num as real
    ensures Ratio(num, den).Some? && num <= den ==> Ratio(num, den).value <= 1.0
  {
  }

  lemma QuotientBounds(x: real, s: real, lo: real, hi: real)
    requires 0.0 < s && lo * s <= x <= hi * s
    ensures lo <= x / s <= hi
  {
    var q := x / s;
    assert q * s == x;
    assert (q - hi) * s <= 0.0;
    assert (q - lo) * s >= 0.0;
  }

  /** The F-score is defined exactly when both operands are and they do not sum to
      zero; of two non-negative operands it lies between the smaller and the larger. */
  lemma F1Spec(p: Option<real>, r: Option<real>)
    ensures F1(p, r).Some? <==> p.Some? && r.Some? && p.value + r.value != 0.0
    ensures F1(p, r).Some? && 0.0 <= p.value && 0.0 <= r.value ==>
      var f := F1(p, r).value;
      (if p.value <= r.value then p.value else r.value) <= f <= (if p.value <= r.value then r.value else p.value)
  {
    if F1(p, r).Some? && 0.0 <= p.value && 0.0 <= r.value {
      var a, b := p.value, r.value;
      var lo := if a <= b then a else b;
      var hi := if a <= b then b else a;
      var s := a + b;
      assert s > 0.0;
      assert 2.0 * a * b <= hi * s by {
        assert a * b <= hi * b;
        assert a * b <= a * hi;
      }
      assert lo * s <= 2.0 * a * b by {
        assert lo * b <= a * b;
        assert a * lo <= a * b;
      }
      assert F1(p, r).value == 2.0 * a * b / s;
      QuotientBounds(2.0 * a * b, s, lo, hi);
    }
  }

  lemma {:induction false} SumBounds(xs: seq<real>, lo: real, hi: real)
    requires forall i :: 0 <= i < |xs| ==> lo <= xs[i] <= hi
    ensures (|xs| as real) * lo <= Sum(xs) <= (|xs| as real) * hi
    ensures |xs| > 0 && 0.0 < lo ==> 0.0 < Sum(xs)
    decreases |xs|
  {
    if xs != [] {
      SumBounds(xs[..|xs| - 1], lo, hi);
    }
  }

  lemma {:induction false} SumPositive(xs: seq<real>)
    requires forall i :: 0 <= i < |xs| ==> 0.0 < xs[i]
    ensures |xs| > 0 ==> 0.0 < Sum(xs)
    decreases |xs|
  {
    if xs != [] {
      SumPositive(xs[..|xs| - 1]);
    }
  }

  /** The mean lies within any bounds its values lie within, and is positive when
      they all are. */
  lemma MeanBounds(xs: seq<real>, lo: real, hi: real)
    requires |xs| > 0
    requires forall i :: 0 <= i < |xs| ==> lo <= xs[i] <= hi
    ensures lo <= Mean(xs) <= hi
    ensures (forall i :: 0 <= i < |xs| ==> 0.0 < xs[i]) ==> 0.0 < Mean(xs)
  {
    SumBounds(xs, lo, hi);
    var n := |xs| as real;
    assert Mean(xs) * n == Sum(xs);
    if forall i :: 0 <= i < |xs| ==> 0.0 < xs[i] {
      SumPositive(xs);
    }
  }

  /** The values kept by `Present` are exactly the defined entries. */
  lemma {:induction false} PresentSpec(xs: seq<Option<real>>)
    ensures forall i :: 0 <= i < |Present(xs)| ==> Some(Present(xs)[i]) in xs
    ensures forall j :: 0 <= j < |xs| && xs[j].Some? ==> xs[j].value in Present(xs)
    decreases |xs|
  {
    if xs != [] {
      PresentSpec(xs[1..]);
      var head := if xs[0].Some? then [xs[0].value] else [];
      assert Present(xs) == head + Present(xs[1..]);
      forall i | 0 <= i < |Present(xs)| ensures Some(Present(xs)[i]) in xs {
        if i >= |head| {
          assert Present(xs)[i] == Present(xs[1..])[i - |head|];
          assert Some(Present(xs)[i]) in xs[1..];
        }
      }
      forall j | 0 <= j < |xs| && xs[j].Some? ensures xs[j].value in Present(xs) {
        if j > 0 {
          assert xs[j] == xs[1..][j - 1];
        }
      }
    }
  }

  /** `np.nanmean` is NaN exactly when every value is, and otherwise lies within any
      bounds the defined values lie within. */
  lemma NanMeanBounds(xs: seq<Option<real>>, lo: real, hi: real)
    requires forall j :: 0 <= j < |xs| && xs[j].Some? ==> lo <= xs[j].value <= hi
    ensures NanMean(xs).Some? <==> exists j :: 0 <= j < |xs| && xs[j].Some?
    ensures NanMean(xs).Some? ==> lo <= NanMean(xs).value <= hi
    ensures NanMean(xs).Some? && (forall j :: 0 <= j < |xs| && xs[j].Some? ==> 0.0 < xs[j].value) ==>
      0.0 < NanMean(xs).value
  {
    PresentSpec(xs);
    var p := Present(xs);
    if exists j :: 0 <= j < |xs| && xs[j].Some? {
      var j :| 0 <= j < |xs| && xs[j].Some?;
      assert xs[j].value in p;
    }
    if |p| > 0 {
      forall i | 0 <= i < |p| ensures lo <= p[i] <= hi {
        var j :| 0 <= j < |xs| && xs[j] == Some(p[i]);
      }
      MeanBounds(p, lo, hi);
      if forall j :: 0 <= j < |xs| && xs[j].Some? ==> 0.0 < xs[j].value {
        forall i | 0 <= i < |p| ensures 0.0 < p[i] {
          var j :| 0 <= j < |xs| && xs[j] == Some(p[i]);
        }
      }
    }
  }

  /** `all_ious` holds every per-label IoU ... */
  lemma {:induction false} FlattenHoldsAll(xss: seq<seq<real>>)
    ensures |Flatten(xss)| == SumLengths(xss)
    ensures forall j, m :: 0 <= j < |xss| && 0 <= m < |xss[j]| ==> xss[j][m] in Flatten(xss)
    decreases |xss|
  {
    if xss != [] {
      var init := xss[..|xss| - 1];
      var last := xss[|xss| - 1];
      FlattenHoldsAll(init);
      var f := Flatten(xss);
      assert f == Flatten(init) + last;
      forall j, m | 0 <= j < |xss| && 0 <= m < |xss[j]| ensures xss[j][m] in f {
        if j < |init| {
          assert xss[j] == init[j];
          assert xss[j][m] in Flatten(init);
        } else {
          assert xss[j][m] == f[|Flatten(init)| + m];
        }
      }
    }
  }

  /** ... and nothing else: any bounds every per-label IoU lies within hold of all of it. */
  lemma {:induction false} FlattenWithin(xss: seq<seq<real>>, lo: real, hi: real)
    requires forall j, m :: 0 <= j < |xss| && 0 <= m < |xss[j]| ==> lo < xss[j][m] <= hi
    ensures forall i :: 0 <= i < |Flatten(xss)| ==> lo < Flatten(xss)[i] <= hi
    decreases |xss|
  {
    if xss != [] {
      var init := xss[..|xss| - 1];
      var last := xss[|xss| - 1];
      FlattenWithin(init, lo, hi);
      var f := Flatten(xss);
      assert f == Flatten(init) + last;
      forall i | 0 <= i < |f| ensures lo < f[i] <= hi {
        if i >= |Flatten(init)| {
          assert f[i] == xss[|xss| - 1][i - |Flatten(init)|];
        }
      }
    }
  }

  function SumLengths(xss: seq<seq<real>>): nat
    decreases |xss|
  {
    if xss == [] then 0 else SumLengths(xss[..|xss| - 1]) + |xss[|xss| - 1]|
  }

  /** Two IoUs of 0.5 for the first label, one of 1.0 for the second, none for the rest. */
  const ExampleIous: seq<seq<real>> := [[0.5, 0.5], [1.0]] + seq(16, _ => [])

  lemma {:induction false} FlattenEmptyTail(xss: seq<seq<real>>, n: nat)
    requires n <= |xss| && forall k :: n <= k < |xss| ==> xss[k] == []
    ensures Flatten(xss) == Flatten(xss[..n])
    decreases |xss| - n
  {
    if n < |xss| {
      FlattenEmptyTail(xss, n + 1);
      assert xss[..n + 1][..n] == xss[..n];
    } else {
      assert xss[..n] == xss;
    }
  }

  lemma ExampleFlatten()
    ensures Flatten(ExampleIous) == [0.5, 0.5, 1.0]
  {
    var ps := ExampleIous;
    FlattenEmptyTail(ps, 2);
    var two := ps[..2];
    assert two == [[0.5, 0.5], [1.0]];
    assert two[..1] == [[0.5, 0.5]];
    assert [[0.5, 0.5]][..0] == [];
  }

  lemma {:induction false} PresentNoneTail(xs: seq<Option<real>>, n: nat)
    requires n <= |xs| && forall k :: n <= k < |xs| ==> xs[k] == None
    ensures Present(xs[n..]) == []
    decreases |xs| - n
  {
    if n < |xs| {
      PresentNoneTail(xs, n + 1);
      assert xs[n..][1..] == xs[n + 1..];
    }
  }

  lemma ExamplePresent(means: seq<Option<real>>)
    requires |means| == LabelCount && means[0] == Some(0.5) && means[1] == Some(1.0)
    requires forall k :: 2 <= k < LabelCount ==> means[k] == None
    ensures Present(means) == [0.5, 1.0]
  {
    PresentNoneTail(means, 2);
    assert means[1..][1..] == means[2..];
  }

  lemma ExampleSums()
    ensures Sum([0.5, 0.5]) == 1.0 && Sum([1.0]) == 1.0
    ensures Sum([0.5, 0.5, 1.0]) == 2.0 && Sum([0.5, 1.0]) == 1.5
  {
    assert [0.5, 0.5][..1] == [0.5];
    assert [0.5][..0] == [] && [1.0][..0] == [];
    assert [0.5, 0.5, 1.0][..2] == [0.5, 0.5];
    assert [0.5, 1.0][..1] == [0.5];
  }

  /** The mIoU is the mean over every recorded match, not the mean of the per-label means. */
  lemma MeanOfAllVersusMacro()
    ensures var r := MakeReport(EmptyTally().(perLabel := ExampleIous));
      r.Ok? && r.value.miou == 2.0 / 3.0 && r.value.macroMiou == Some(0.75)
  {
    var t := EmptyTally().(perLabel := ExampleIous);
    assert Shaped(t);
    ExampleFlatten();
    ExampleSums();
    var rows := seq(LabelCount, k requires 0 <= k < LabelCount => MetricsOf(t, k));
    var means := seq(LabelCount, k requires 0 <= k < LabelCount => rows[k].meanIou);
    assert means[0] == Some(0.5) && means[1] == Some(1.0);
    assert forall k :: 2 <= k < LabelCount ==> means[k] == None;
    ExamplePresent(means);
  }

  /** The bounds of the printed figures for totals kept by the page scan: every
      IoU-based figure lies in (0, 1], every second-evaluation precision in [0, 1];
      `mean(all_ious)` raises exactly when no match was recorded for any label. */
  lemma ReportBounds(t: Tally)
    requires Sound(t) && UnitIous(t)
    ensures MakeReport(t).Err? <==> SumLengths(t.perLabel) == 0
    ensures var r := MakeReport(t); r.Ok? ==>
      && |r.value.perLabel| == LabelCount
      && 0.0 < r.value.miou <= 1.0
      && (r.value.macroMiou.Some? ==> 0.0 < r.value.macroMiou.value <= 1.0)
      && (r.value.macroPrecision2.Some? ==> 0.0 <= r.value.macroPrecision2.value <= 1.0)
      && forall k :: 0 <= k < LabelCount ==>
           && (r.value.perLabel[k].meanIou.Some? ==> 0.0 < r.value.perLabel[k].meanIou.value <= 1.0)
           && (r.value.perLabel[k].precision2.Some? ==> 0.0 <= r.value.perLabel[k].precision2.value <= 1.0)
  {
    FlattenHoldsAll(t.perLabel);
    if MakeReport(t).Ok? {
      FlattenWithin(t.perLabel, 0.0, 1.0);
      MeanBounds(Flatten(t.perLabel), 0.0, 1.0);
      ReportRows(t);
      ReportMacroMiou(t);
      ReportMacroPrecision2(t);
    }
  }

  lemma ReportRows(t: Tally)
    requires Sound(t) && UnitIous(t) && MakeReport(t).Ok?
    ensures var rows := MakeReport(t).value.perLabel;
      && |rows| == LabelCount
      && forall k :: 0 <= k < LabelCount ==>
           && (rows[k].meanIou.Some? ==> 0.0 < rows[k].meanIou.value <= 1.0)
           && (rows[k].precision2.Some? ==> 0.0 <= rows[k].precision2.value <= 1.0)
  {
    var rows := MakeReport(t).value.perLabel;
    forall k | 0 <= k < LabelCount
      ensures rows[k].meanIou.Some? ==> 0.0 < rows[k].meanIou.value <= 1.0
      ensures rows[k].precision2.Some? ==> 0.0 <= rows[k].precision2.value <= 1.0
    {
      assert rows[k] == MetricsOf(t, k);
      MetricsBounds(t, k);
    }
  }

  lemma ReportMacroMiou(t: Tally)
    requires Sound(t) && UnitIous(t) && MakeReport(t).Ok?
    ensures var m := MakeReport(t).value.macroMiou; m.Some? ==> 0.0 < m.value <= 1.0
  {
    var rows := MakeReport(t).value.perLabel;
    var means := seq(LabelCount, k requires 0 <= k < LabelCount => rows[k].meanIou);
    forall j | 0 <= j < |means| && means[j].Some? ensures 0.0 < means[j].value <= 1.0 {
      assert rows[j] == MetricsOf(t, j);
      MetricsBounds(t, j);
    }
    NanMeanBounds(means, 0.0, 1.0);
  }

  lemma ReportMacroPrecision2(t: Tally)
    requires Sound(t) && UnitIous(t) && MakeReport(t).Ok?
    ensures var m := MakeReport(t).value.macroPrecision2; m.Some? ==> 0.0 <= m.value <= 1.0
  {
    var rows := MakeReport(t).value.perLabel;
    var p2 := seq(LabelCount, k requires 0 <= k < LabelCount => rows[k].precision2);
    forall j | 0 <= j < |p2| && p2[j].Some? ensures 0.0 <= p2[j].value <= 1.0 {
      assert rows[j] == MetricsOf(t, j);
      MetricsBounds(t, j);
    }
    NanMeanBounds(p2, 0.0, 1.0);
  }

  /** One label's mean IoU lies in (0, 1] and its second precision in [0, 1]. */
  lemma MetricsBounds(t: Tally, k: nat)
    requires Sound(t) && UnitIous(t) && k < LabelCount
    ensures MetricsOf(t, k).meanIou.Some? ==> 0.0 < MetricsOf(t, k).meanIou.value <= 1.0
    ensures MetricsOf(t, k).precision2.Some? ==> 0.0 <= MetricsOf(t, k).precision2.value <= 1.0
  {
    if |t.perLabel[k]| > 0 {
      MeanBounds(t.perLabel[k], 0.0, 1.0);
    }
    RatioSpec(t.eval2[k], t.pred[k]);
  }

  /** Under well-behaved geometry the whole evaluation never divides by a zero union,
      and whatever it prints lies within the bounds of `ReportBounds`. */
  lemma OutcomeBounds<G(!new)>(geo: Geometry<G>, pages: seq<PageInput>)
    requires Laws(geo)
    ensures var r := Outcome(geo, pages); r.Err? ==> r.error != ZeroUnion
    ensures var r := Outcome(geo, pages); r.Ok? ==>
      && 0.0 < r.value.miou <= 1.0
      && (r.value.macroMiou.Some? ==> 0.0 < r.value.macroMiou.value <= 1.0)
      && (r.value.macroPrecision2.Some? ==> 0.0 <= r.value.macroPrecision2.value <= 1.0)
  {
    PageScoresFromKeep(geo, [], pages);
    var ts := PageScores(geo, pages);
    if ts.Ok? {
      FoldKeeps(ts.value);
      ReportBounds(Fold(ts.value));
    }
  }

  /** The first evaluation counts every overlapping ground-truth region of the right
      label as a true positive, so one predicted line over two such regions gives a
      precision of 2; the second evaluation counts that line once. */
  lemma PrecisionOneCanExceedOne()
    ensures var geo := Geometry((ps: seq<Point>) => Some(0), (a: int, b: int) => 1.0, (a: int, b: int) => 1.0);
      var t := EmptyTally().(pred := ZeroCounts()[0 := 1]);
      var r := MatchGt(geo, [Entry(1, "Name"), Entry(2, "Name")], 0, "Name", t, false);
      && Laws(geo)
      && r.Ok? && r.value.tp[0] == 2 && r.value.pred[0] == 1 && r.value.eval2[0] == 1
      && MetricsOf(r.value, 0).precision1 == Some(2.0)
      && MetricsOf(r.value, 0).precision2 == Some(1.0)
  {
    assert LabelIndex("Name") == Some(0);
  }

  /** The second evaluation thresholds the intersection area itself, not the IoU: a
      ground-truth region that shares an area of 0.95 with a very large predicted
      polygon is a hit for it and a miss for the first evaluation. */
  lemma AreaCriterionIgnoresIou()
    ensures var geo := Geometry((ps: seq<Point>) => Some(0),
        (a: int, b: int) => if a == b then 1000000.0 else 0.95, (a: int, b: int) => 1000000.0);
      var t := EmptyTally().(pred := ZeroCounts()[0 := 1]);
      var r := MatchGt(geo, [Entry(1, "Name")], 2, "Name", t, false);
      && Laws(geo)
      && r.Ok? && r.value.tp[0] == 0 && r.value.eval2[0] == 1
      && r.value.perLabel[0] == [0.95 / 1000000.0]
  {
    assert LabelIndex("Name") == Some(0);
  }
}
