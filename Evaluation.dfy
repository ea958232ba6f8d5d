/** The polygon scorer of src/evaluation.py: predicted lines are matched against
    ground-truth lines of the same page by polygon overlap, per tag, under two
    definitions of a true positive, and the counts of all pages are summed into
    per-tag and macro precision, recall, F1 and mean IoU. */
module Evaluation {
  import opened Wrappers
  import opened Text
  import opened Page

  type Point = (int, int)

  // ---------------------------------------------------------------------------
  // coords_to_int
  // ---------------------------------------------------------------------------

  /** One `x,y` token: `int()` of the first two comma-separated parts
      (the x part is converted before the y part is looked up). */
  function ParsePoint(token: string): Result<Point, Fault> {
    var parts := Split(token, ',');
    match ParseInt(parts[0])
    case None => Err(BadNumber)
    case Some(x) =>
      if |parts| < 2 then Err(MissingY)
      else
        match ParseInt(parts[1])
        case None => Err(BadNumber)
        case Some(y) => Ok((x, y))
  }

  /** `acc` followed by the points of `tokens`, or the error of the first bad token. */
  function ParsePointsFrom(acc: seq<Point>, tokens: seq<string>): (r: Result<seq<Point>, Fault>)
    ensures r.Err? ==> r.error == BadNumber || r.error == MissingY
    decreases |tokens|
  {
    if tokens == [] then Ok(acc)
    else
      var p :- ParsePoint(tokens[0]);
      ParsePointsFrom(acc + [p], tokens[1..])
  }

  /** The value `coords_to_int(coords)` returns (or the exception it raises). */
  function ParseCoords(coords: string): (r: Result<seq<Point>, Fault>)
    ensures r.Err? ==> r.error == BadNumber || r.error == MissingY
  {
    ParsePointsFrom([], Split(coords, ' '))
  }

  method CoordsToInt(coords: string) returns (r: Result<seq<Point>, Fault>)
    ensures r == ParseCoords(coords)
  {
    var tokens := Split(coords, ' ');
    var full: seq<Point> := [];
    var i := 0;
    while i < |tokens|
      invariant 0 <= i <= |tokens|
      invariant ParseCoords(coords) == ParsePointsFrom(full, tokens[i..])
    {
      assert tokens[i..][1..] == tokens[i + 1..];
      var p := ParsePoint(tokens[i]);
      if p.Err? {
        return Err(p.error);
      }
      full := full + [p.value];
      i := i + 1;
    }
    return Ok(full);
  }

  // ---------------------------------------------------------------------------
  // Labels
  // ---------------------------------------------------------------------------

  /** The keys of every per-label dict, in their dict order. */
  const LabelKeys: seq<string> := ["Name", "Award", "Birth Place", "Birth Date", "Father",
    "Mother", "Religion", "Marriage Location", "Spouse", "Children", "Rank", "Ship",
    "Departure", "Death Date", "Death Place", "Retirement", "Repatriation", "Text"]

  /** The number of per-label dict entries. */
  const LabelCount: nat := 18

  /** The position of `tag` among `LabelKeys[k..]`, if it is there. */
  function LabelIndexFrom(tag: string, k: nat): (r: Option<nat>)
    ensures r.Some? ==> k <= r.value < |LabelKeys| && LabelKeys[r.value] == tag
    ensures r.None? ==> forall j :: k <= j < |LabelKeys| ==> LabelKeys[j] != tag
    decreases |LabelKeys| - k
  {
    if k >= |LabelKeys| then None
    else if LabelKeys[k] == tag then Some(k)
    else LabelIndexFrom(tag, k + 1)
  }

  /** Where the dicts keep `tag`; `None` when `tag` is not one of their keys. */
  function LabelIndex(tag: string): (r: Option<nat>)
    ensures r.Some? ==> r.value < LabelCount
  {
    LabelIndexFrom(tag, 0)
  }

  /** The label given to a `custom` attribute without any `type:...;`. */
  const NoLabel: string := "no label"
  /** `type:(.*?);` tried at position `s`: its group, if it matches there.
      The lazy `.*?` stops at the first ';' and `.` cannot pass a '\n'. */
  function TypeGroupAt(t: string, s: nat): Option<string> {
    if MatchesAt(t, s, "type:") then
      match IndexFrom(t, ';', s + 5)
      case None => None
      case Some(e) => if e <= LineEnd(t, s + 5) then Some(t[s + 5..e]) else None
    else None
  }

  /** Where the leftmost match of `type:(.*?);` at or after `s` starts. */
  function FirstTypeAt(t: string, s: nat): (r: Option<nat>)
    requires s <= |t|
    ensures r.Some? ==> s <= r.value <= |t| && TypeGroupAt(t, r.value).Some?
    ensures r.Some? ==> forall j :: s <= j < r.value ==> TypeGroupAt(t, j).None?
    ensures r.None? ==> forall j :: s <= j <= |t| ==> TypeGroupAt(t, j).None?
    decreases |t| - s
  {
    if TypeGroupAt(t, s).Some? then Some(s)
    else if s == |t| then None
    else FirstTypeAt(t, s + 1)
  }

  /** `matches[0]` of `re.findall(r"type:(.*?);", custom)`, or "no label". */
  function LabelOf(custom: string): string {
    match FirstTypeAt(custom, 0)
    case Some(s) => TypeGroupAt(custom, s).value
    case None => NoLabel
  }

  /** A per-label counter dict, the count of `LabelKeys[k]` at index `k`. */
  type Counts = seq<nat>

  function ZeroCounts(): (m: Counts)
    ensures |m| == LabelCount && forall k :: 0 <= k < |m| ==> m[k] == 0
  {
    seq(LabelCount, k => 0)
  }

  /** `d[tag] += 1`, which raises KeyError for a label outside the dict. */
  function Increment(m: Counts, tag: string): (r: Result<Counts, Fault>)
    requires |m| == LabelCount
    ensures r.Ok? ==> |r.value| == LabelCount
  {
    match LabelIndex(tag)
    case None => Err(UnknownLabel(tag))
    case Some(k) => Ok(Bump(m, k))
  }

  /** One more under the key kept at position `k`. */
  function Bump(m: Counts, k: nat): (r: Counts)
    requires k < |m|
    ensures |r| == |m|
  {
    m[k := m[k] + 1]
  }

  // ---------------------------------------------------------------------------
  // Geometry
  // ---------------------------------------------------------------------------

  /** What the scorer asks of shapely, as functions of the caller's choosing:
      `polygon` is `make_valid(Polygon(points))` (`None` when shapely refuses the ring),
      `intersectionArea(a, b)` is `a.intersection(b).area`, `unionArea(a, b)` is `a.union(b).area`.
      `G` is the geometry type; two geometries are the same dict key when they are equal. */
  datatype Geometry<!G> = Geometry(
    polygon: seq<Point> -> Option<G>,
    intersectionArea: (G, G) -> real,
    unionArea: (G, G) -> real)

  /** The only facts about areas the model relies on. */
  ghost predicate Laws<G(!new)>(geo: Geometry<G>) {
    && (forall a, b :: 0.0 <= geo.intersectionArea(a, b) <= geo.unionArea(a, b))
    && (forall a :: geo.intersectionArea(a, a) == geo.unionArea(a, a))
  }

  function MakePolygon<G>(geo: Geometry<G>, pts: seq<Point>): Result<G, Fault> {
    match geo.polygon(pts)
    case None => Err(BadRing)
    case Some(g) => Ok(g)
  }

  // ---------------------------------------------------------------------------
  // The ground-truth dict `pols_gt_labels`
  // ---------------------------------------------------------------------------

  datatype Entry<G> = Entry(geom: G, tag: string)

  /** `d[g] = label` on an insertion-ordered dict: an existing key keeps its place
      and takes the new value, a new key goes to the end. */
  function Put<G(==)>(m: seq<Entry<G>>, g: G, tag: string): seq<Entry<G>>
    decreases |m|
  {
    if m == [] then [Entry(g, tag)]
    else if m[0].geom == g then [Entry(g, tag)] + m[1..]
    else [m[0]] + Put(m[1..], g, tag)
  }

  function Lookup<G(==)>(m: seq<Entry<G>>, g: G): Option<string>
    decreases |m|
  {
    if m == [] then None else if m[0].geom == g then Some(m[0].tag) else Lookup(m[1..], g)
  }

  /** No key occurs twice, as in a dict. */
  predicate DistinctKeys<G(==)>(m: seq<Entry<G>>) {
    forall i, j :: 0 <= i < j < |m| ==> m[i].geom != m[j].geom
  }

  datatype GtState<G> = GtState(entries: seq<Entry<G>>, counts: Counts)

  function GtStart<G>(): (st: GtState<G>)
    ensures |st.counts| == LabelCount
  {
    GtState([], ZeroCounts())
  }

  /** One ground-truth line: lines 96-114. */
  function GtStep<G(==)>(geo: Geometry<G>, st: GtState<G>, line: TextLine): (r: Result<GtState<G>, Fault>)
    requires |st.counts| == LabelCount
    ensures r.Ok? ==> |r.value.counts| == LabelCount
    ensures r.Err? ==> !r.error.ZeroUnion?
  {
    match line.coords
    case None => Err(NoCoords)
    case Some(cs) =>
      var tag := LabelOf(line.custom);
      var counts :- Increment(st.counts, tag);
      var pts :- ParseCoords(cs);
      var g :- MakePolygon(geo, pts);
      Ok(GtState(Put(st.entries, g, tag), counts))
  }

  function GtScan<G(==)>(geo: Geometry<G>, st: GtState<G>, lines: seq<TextLine>): (r: Result<GtState<G>, Fault>)
    requires |st.counts| == LabelCount
    ensures r.Ok? ==> |r.value.counts| == LabelCount
    ensures r.Err? ==> !r.error.ZeroUnion?
    decreases |lines|
  {
    if lines == [] then Ok(st)
    else
      var st' :- GtStep(geo, st, lines[0]);
      GtScan(geo, st', lines[1..])
  }

  // ---------------------------------------------------------------------------
  // The per-page results of calc_miou
  // ---------------------------------------------------------------------------

  /** The six values `calc_miou` returns: `ious`, `iou_per_label`,
      `true_positives_per_label` (evaluation 1), `regions_per_label_exp`,
      `regions_per_label_gt` and `eval2`. */
  datatype Tally = Tally(
    ious: seq<real>,
    perLabel: seq<seq<real>>,
    tp: Counts,
    pred: Counts,
    gt: Counts,
    eval2: Counts)

  /** Every per-label dict has an entry for each of the 18 labels. */
  predicate Shaped(t: Tally) {
    && |t.perLabel| == LabelCount && |t.tp| == LabelCount && |t.pred| == LabelCount
    && |t.gt| == LabelCount && |t.eval2| == LabelCount
  }

  /** The dicts as `calc_miou` creates them, before any line is read. */
  function EmptyTally(): (t: Tally)
    ensures Shaped(t) && t.ious == []
    ensures forall k :: 0 <= k < LabelCount ==>
      t.perLabel[k] == [] && t.tp[k] == 0 && t.pred[k] == 0 && t.gt[k] == 0 && t.eval2[k] == 0
  {
    Tally([], seq(LabelCount, k => []), ZeroCounts(), ZeroCounts(), ZeroCounts(), ZeroCounts())
  }

  /** The IoU threshold of evaluation 1 and the absolute area threshold of evaluation 2. */
  const IouThreshold: real := 0.5
  const AreaThreshold: real := 0.9

  /** One overlap of a same-label pair, lines 162-175, for the label at index `k`:
      the IoU is recorded in both lists, evaluation 1 counts it when the IoU reaches
      0.5, and evaluation 2 counts it when the intersection area reaches 0.9 and no
      earlier pair of this predicted line did. */
  function Record(t: Tally, k: nat, iou: real, inter: real, found: bool): (r: Tally)
    requires Shaped(t) && k < LabelCount
    ensures Shaped(r) && r.pred == t.pred && r.gt == t.gt
  {
    var t1 := t.(ious := t.ious + [iou], perLabel := t.perLabel[k := t.perLabel[k] + [iou]]);
    var t2 := if iou >= IouThreshold then t1.(tp := t1.tp[k := t1.tp[k] + 1]) else t1;
    if inter >= AreaThreshold && !found then t2.(eval2 := t2.eval2[k := t2.eval2[k] + 1]) else t2
  }

  /** The inner loop of lines 155-175 over the ground-truth entries still to visit,
      for the predicted polygon `pe` with label `tag`; `found` is `already_found`. */
  function MatchGt<G>(geo: Geometry<G>, entries: seq<Entry<G>>, pe: G, tag: string, t: Tally, found: bool): (r: Result<Tally, Fault>)
    requires Shaped(t) && LabelIndex(tag).Some?
    ensures r.Ok? ==> Shaped(r.value) && r.value.pred == t.pred && r.value.gt == t.gt
    decreases |entries|
  {
    if entries == [] then Ok(t)
    else
      var e := entries[0];
      var inter := geo.intersectionArea(e.geom, pe);
      if inter > 0.0 && tag == e.tag then
        var union := geo.unionArea(e.geom, pe);
        if union == 0.0 then Err(ZeroUnion)
        else
          var t' := Record(t, LabelIndex(tag).value, inter / union, inter, found);
          MatchGt(geo, entries[1..], pe, tag, t', found || inter >= AreaThreshold)
      else
        MatchGt(geo, entries[1..], pe, tag, t, found)
  }

  /** One predicted line that has a Coords child: lines 139-175. */
  function ExpStep<G>(geo: Geometry<G>, entries: seq<Entry<G>>, t: Tally, cs: string, custom: string): (r: Result<Tally, Fault>)
    requires Shaped(t)
    ensures r.Ok? ==> Shaped(r.value) && r.value.gt == t.gt
  {
    var pts :- ParseCoords(cs);
    var pe :- MakePolygon(geo, pts);
    var tag := LabelOf(custom);
    var pred :- Increment(t.pred, tag);
    MatchGt(geo, entries, pe, tag, t.(pred := pred), false)
  }

  /** The loop over predicted lines, which stops at the first line without Coords. */
  function ExpScan<G>(geo: Geometry<G>, entries: seq<Entry<G>>, t: Tally, lines: seq<TextLine>): (r: Result<Tally, Fault>)
    requires Shaped(t)
    ensures r.Ok? ==> Shaped(r.value) && r.value.gt == t.gt
    decreases |lines|
  {
    if lines == [] || lines[0].coords.None? then Ok(t)
    else
      var t' :- ExpStep(geo, entries, t, lines[0].coords.value, lines[0].custom);
      ExpScan(geo, entries, t', lines[1..])
  }

  /** A ground-truth file: absent (lxml raises OSError, which is not caught), malformed
      (XMLSyntaxError, caught: nothing is read), or its `//TextRegion/TextLine` lines. */
  datatype GtFile = MissingGt | MalformedGt | GtLines(lines: seq<TextLine>)

  /** The ground-truth phase: the counts and the dict it leaves. */
  function GtPhase<G(==)>(geo: Geometry<G>, gt: GtFile): (r: Result<GtState<G>, Fault>)
    ensures r.Ok? ==> |r.value.counts| == LabelCount
    ensures r.Err? ==> !r.error.ZeroUnion?
  {
    match gt
    case MissingGt => Err(MissingFile)
    case MalformedGt => Ok(GtStart())
    case GtLines(ls) => GtScan(geo, GtStart(), ls)
  }

  /** What `calc_miou` returns for one predicted file (`None`: malformed) and its
      ground truth. */
  function PageScore<G(==)>(geo: Geometry<G>, exp: Option<seq<TextLine>>, gt: GtFile): (r: Result<Tally, Fault>)
    ensures r.Ok? ==> Shaped(r.value)
  {
    var st :- GtPhase(geo, gt);
    var t0 := EmptyTally().(gt := st.counts);
    match exp
    case None => Ok(t0)
    case Some(ls) => ExpScan(geo, st.entries, t0, ls)
  }

  /** The ground-truth loop of lines 94-114. */
  method ScanGt<G(==)>(geo: Geometry<G>, lines: seq<TextLine>) returns (r: Result<GtState<G>, Fault>)
    ensures r == GtScan(geo, GtStart(), lines)
  {
    var entries: seq<Entry<G>> := [];
    var counts := ZeroCounts();
    var i := 0;
    while i < |lines|
      invariant 0 <= i <= |lines| && |counts| == LabelCount
      invariant GtScan(geo, GtStart(), lines) == GtScan(geo, GtState(entries, counts), lines[i..])
    {
      assert lines[i..][1..] == lines[i + 1..];
      ghost var before := GtState(entries, counts);
      var line := lines[i];
      if line.coords.None? {
        return Err(NoCoords);
      }
      var tag := LabelOf(line.custom);
      var c := Increment(counts, tag);
      if c.Err? {
        return Err(c.error);
      }
      counts := c.value;
      var pts := CoordsToInt(line.coords.value);
      if pts.Err? {
        return Err(pts.error);
      }
      var g := MakePolygon(geo, pts.value);
      if g.Err? {
        return Err(g.error);
      }
      entries := Put(entries, g.value, tag);
      assert GtStep(geo, before, line) == Ok(GtState(entries, counts));
      i := i + 1;
    }
    return Ok(GtState(entries, counts));
  }

  /** Lines 162-175 for one same-label overlapping pair: the tally after it, and
      `already_found` after it. */
  method RecordPair(t0: Tally, k: nat, iou: real, intersect: real, found: bool) returns (t: Tally, alreadyFound: bool)
    requires Shaped(t0) && k < LabelCount
    ensures t == Record(t0, k, iou, intersect, found)
    ensures alreadyFound == (found || intersect >= AreaThreshold)
  {
    t := t0.(ious := t0.ious + [iou], perLabel := t0.perLabel[k := t0.perLabel[k] + [iou]]);
    if iou >= IouThreshold {
      t := t.(tp := t.tp[k := t.tp[k] + 1]);
    }
    alreadyFound := found;
    if intersect >= AreaThreshold {
      if !alreadyFound {
        t := t.(eval2 := t.eval2[k := t.eval2[k] + 1]);
        alreadyFound := true;
      }
    }
  }

  /** The inner loop of lines 155-175 for one predicted polygon. */
  method MatchLine<G>(geo: Geometry<G>, entries: seq<Entry<G>>, pe: G, tag: string, t0: Tally) returns (r: Result<Tally, Fault>)
    requires Shaped(t0) && LabelIndex(tag).Some?
    ensures r == MatchGt(geo, entries, pe, tag, t0, false)
  {
    var k := LabelIndex(tag).value;
    var t := t0;
    var alreadyFound := false;
    var j := 0;
    while j < |entries|
      invariant 0 <= j <= |entries| && Shaped(t)
      invariant MatchGt(geo, entries, pe, tag, t0, false) == MatchGt(geo, entries[j..], pe, tag, t, alreadyFound)
    {
      assert entries[j..][1..] == entries[j + 1..];
      ghost var before, foundBefore := t, alreadyFound;
      var e := entries[j];
      var intersect := geo.intersectionArea(e.geom, pe);
      if intersect > 0.0 && tag == e.tag {
        var union := geo.unionArea(e.geom, pe);
        if union == 0.0 {
          return Err(ZeroUnion);
        }
        var iou := intersect / union;
        t, alreadyFound := RecordPair(t, k, iou, intersect, alreadyFound);
      }
      assert MatchGt(geo, entries[j..], pe, tag, before, foundBefore)
          == MatchGt(geo, entries[j + 1..], pe, tag, t, alreadyFound);
      j := j + 1;
    }
    return Ok(t);
  }

  /** The predicted-line loop of lines 128-175. */
  method ScanExp<G>(geo: Geometry<G>, entries: seq<Entry<G>>, t0: Tally, lines: seq<TextLine>) returns (r: Result<Tally, Fault>)
    requires Shaped(t0)
    ensures r == ExpScan(geo, entries, t0, lines)
  {
    var t := t0;
    var i := 0;
    while i < |lines|
      invariant 0 <= i <= |lines| && Shaped(t)
      invariant ExpScan(geo, entries, t0, lines) == ExpScan(geo, entries, t, lines[i..])
    {
      assert lines[i..][1..] == lines[i + 1..];
      var line := lines[i];
      if line.coords.None? {
        break;
      }
      var pts := CoordsToInt(line.coords.value);
      if pts.Err? {
        return Err(pts.error);
      }
      var g := MakePolygon(geo, pts.value);
      if g.Err? {
        return Err(g.error);
      }
      var tag := LabelOf(line.custom);
      var pred := Increment(t.pred, tag);
      if pred.Err? {
        return Err(pred.error);
      }
      ghost var before := t;
      t := t.(pred := pred.value);
      var m := MatchLine(geo, entries, g.value, tag, t);
      assert ExpStep(geo, entries, before, line.coords.value, line.custom) == m;
      if m.Err? {
        return m;
      }
      t := m.value;
      i := i + 1;
    }
    return Ok(t);
  }

  /** `calc_miou`. */
  method CalcMiou<G(==)>(geo: Geometry<G>, exp: Option<seq<TextLine>>, gt: GtFile) returns (r: Result<Tally, Fault>)
    ensures r == PageScore(geo, exp, gt)
  {
    var st := GtStart();
    if gt.MissingGt? {
      return Err(MissingFile);
    } else if gt.GtLines? {
      var s := ScanGt(geo, gt.lines);
      if s.Err? {
        return Err(s.error);
      }
      st := s.value;
    }
    var t0 := EmptyTally().(gt := st.counts);
    if exp.None? {
      return Ok(t0);
    }
    r := ScanExp(geo, st.entries, t0, exp.value);
  }

  // ---------------------------------------------------------------------------
  // main: summing the pages
  // ---------------------------------------------------------------------------

  /** One file of the predicted directory, in walk order, and its ground-truth
      namesake read from the ground-truth directory. */
  datatype PageInput = PageInput(fileName: string, exp: Option<seq<TextLine>>, gt: GtFile)

  /** `{k: plus(a[k], b[k]) for k in a}` over two dicts with the same keys. */
  function Pointwise<T>(a: seq<T>, b: seq<T>, plus: (T, T) -> T): (r: seq<T>)
    requires |a| == |b|
    ensures |r| == |a| && forall k :: 0 <= k < |a| ==> r[k] == plus(a[k], b[k])
  {
    seq(|a|, k requires 0 <= k < |a| => plus(a[k], b[k]))
  }

  function AddNat(x: nat, y: nat): nat { x + y }

  function Concat(x: seq<real>, y: seq<real>): seq<real> { x + y }

  /** The dict comprehensions of lines 246-251 adding one page to the totals. */
  function Merge(a: Tally, b: Tally): (r: Tally)
    requires Shaped(a) && Shaped(b)
    ensures Shaped(r)
  {
    Tally(a.ious + b.ious, Pointwise(a.perLabel, b.perLabel, Concat), Pointwise(a.tp, b.tp, AddNat),
      Pointwise(a.pred, b.pred, AddNat), Pointwise(a.gt, b.gt, AddNat), Pointwise(a.eval2, b.eval2, AddNat))
  }

  ghost predicate AllShaped(ts: seq<Tally>) {
    forall i :: 0 <= i < |ts| ==> Shaped(ts[i])
  }

  /** The totals of the pages `ts`, added in order. */
  function Fold(ts: seq<Tally>): (r: Tally)
    requires AllShaped(ts)
    ensures Shaped(r)
    decreases |ts|
  {
    if ts == [] then EmptyTally() else Merge(Fold(ts[..|ts| - 1]), ts[|ts| - 1])
  }

  /** `done` followed by the per-page results of the `.xml` files among `pages`,
      in order; the first page that raises ends the run. */
  function PageScoresFrom<G(==)>(geo: Geometry<G>, done: seq<Tally>, pages: seq<PageInput>): (r: Result<seq<Tally>, Fault>)
    requires AllShaped(done)
    ensures r.Ok? ==> AllShaped(r.value)
    decreases |pages|
  {
    if pages == [] then Ok(done)
    else if !IsXmlName(pages[0].fileName) then PageScoresFrom(geo, done, pages[1..])
    else
      var t :- PageScore(geo, pages[0].exp, pages[0].gt);
      PageScoresFrom(geo, done + [t], pages[1..])
  }

  function PageScores<G(==)>(geo: Geometry<G>, pages: seq<PageInput>): (r: Result<seq<Tally>, Fault>)
    ensures r.Ok? ==> AllShaped(r.value)
  {
    PageScoresFrom(geo, [], pages)
  }

  // ---------------------------------------------------------------------------
  // main: the metrics
  // ---------------------------------------------------------------------------

  function Sum(xs: seq<real>): real
    decreases |xs|
  {
    if xs == [] then 0.0 else Sum(xs[..|xs| - 1]) + xs[|xs| - 1]
  }

  /** `statistics.mean` / `np.nanmean` of a list without NaN, computed exactly. */
  function Mean(xs: seq<real>): real
    requires |xs| > 0
  {
    Sum(xs) / (|xs| as real)
  }

  /** The values of `xs` that are not NaN (`None`), in order. */
  function Present(xs: seq<Option<real>>): (r: seq<real>)
    ensures |r| <= |xs|
    decreases |xs|
  {
    if xs == [] then []
    else (if xs[0].Some? then [xs[0].value] else []) + Present(xs[1..])
  }

  /** `np.nanmean`: the mean of the values that are not NaN; NaN (`None`) when there are none. */
  function NanMean(xs: seq<Option<real>>): Option<real> {
    var p := Present(xs);
    if |p| == 0 then None else Some(Mean(p))
  }

  /** A division guarded by `denominator != 0`; the dict keeps NaN otherwise. */
  function Ratio(num: nat, den: nat): Option<real> {
    if den != 0 then Some(num as real / den as real) else None
  }

  /** `2pr / (p + r)` under the guard `p + r != 0`, where a NaN operand makes the
      sum NaN, the guard true and the quotient NaN again. */
  function F1(p: Option<real>, r: Option<real>): Option<real> {
    if p.Some? && r.Some? && p.value + r.value != 0.0
    then Some(2.0 * p.value * r.value / (p.value + r.value))
    else None
  }

  /** The seven per-label dicts of `main`, for one label; `None` is NaN. */
  datatype LabelMetrics = LabelMetrics(
    meanIou: Option<real>,
    precision1: Option<real>, recall1: Option<real>, f1: Option<real>,
    precision2: Option<real>, recall2: Option<real>, f2: Option<real>)

  /** What `main` prints. */
  datatype Report = Report(
    perLabel: seq<LabelMetrics>,
    miou: real,
    macroMiou: Option<real>,
    macroPrecision1: Option<real>, macroRecall1: Option<real>, macroF1: Option<real>,
    macroPrecision2: Option<real>, macroRecall2: Option<real>, macroF2: Option<real>)

  /** Lines 254-299 for the label at index `k`. */
  function MetricsOf(t: Tally, k: nat): LabelMetrics
    requires Shaped(t) && k < LabelCount
  {
    var p1 := Ratio(t.tp[k], t.pred[k]);
    var r1 := Ratio(t.tp[k], t.gt[k]);
    var p2 := Ratio(t.eval2[k], t.pred[k]);
    var r2 := Ratio(t.eval2[k], t.gt[k]);
    LabelMetrics(if |t.perLabel[k]| > 0 then Some(Mean(t.perLabel[k])) else None,
      p1, r1, F1(p1, r1), p2, r2, F1(p2, r2))
  }

  /** `all_ious`: the per-label lists one after the other, in label order. */
  function Flatten(xss: seq<seq<real>>): seq<real>
    decreases |xss|
  {
    if xss == [] then [] else Flatten(xss[..|xss| - 1]) + xss[|xss| - 1]
  }

  /** The printed metrics of the totals `t`; `mean(all_ious)` raises on an empty list. */
  function MakeReport(t: Tally): Result<Report, Fault>
    requires Shaped(t)
  {
    var rows := seq(LabelCount, k requires 0 <= k < LabelCount => MetricsOf(t, k));
    var all := Flatten(t.perLabel);
    if |all| == 0 then Err(EmptyMean)
    else
      Ok(Report(rows, Mean(all),
        NanMean(seq(LabelCount, k requires 0 <= k < LabelCount => rows[k].meanIou)),
        NanMean(seq(LabelCount, k requires 0 <= k < LabelCount => rows[k].precision1)),
        NanMean(seq(LabelCount, k requires 0 <= k < LabelCount => rows[k].recall1)),
        NanMean(seq(LabelCount, k requires 0 <= k < LabelCount => rows[k].f1)),
        NanMean(seq(LabelCount, k requires 0 <= k < LabelCount => rows[k].precision2)),
        NanMean(seq(LabelCount, k requires 0 <= k < LabelCount => rows[k].recall2)),
        NanMean(seq(LabelCount, k requires 0 <= k < LabelCount => rows[k].f2))))
  }

  /** What `main` prints for the walked files `pages`. */
  function Outcome<G(==)>(geo: Geometry<G>, pages: seq<PageInput>): Result<Report, Fault> {
    var ts :- PageScores(geo, pages);
    MakeReport(Fold(ts))
  }

  /** The per-label loops of lines 254-257 and 266-299, one label at a time. */
  method LabelTable(t: Tally) returns (rows: seq<LabelMetrics>)
    requires Shaped(t)
    ensures |rows| == LabelCount && forall k :: 0 <= k < LabelCount ==> rows[k] == MetricsOf(t, k)
  {
    rows := [];
    for k := 0 to LabelCount
      invariant |rows| == k && forall j :: 0 <= j < k ==> rows[j] == MetricsOf(t, j)
    {
      rows := rows + [MetricsOf(t, k)];
    }
  }

  /** `all_ious` (lines 260-263), built by the two nested loops. */
  method AllIous(perLabel: seq<seq<real>>) returns (all: seq<real>)
    ensures all == Flatten(perLabel)
  {
    all := [];
    var i := 0;
    while i < |perLabel|
      invariant 0 <= i <= |perLabel|
      invariant all == Flatten(perLabel[..i])
    {
      var j := 0;
      while j < |perLabel[i]|
        invariant 0 <= j <= |perLabel[i]|
        invariant all == Flatten(perLabel[..i]) + perLabel[i][..j]
      {
        all := all + [perLabel[i][j]];
        j := j + 1;
      }
      assert perLabel[..i + 1][..i] == perLabel[..i];
      i := i + 1;
    }
    assert perLabel[..i] == perLabel;
  }

  /** The walk over the predicted files, lines 240-251. */
  method Totals<G(==)>(geo: Geometry<G>, pages: seq<PageInput>) returns (r: Result<Tally, Fault>)
    ensures r == (var ts :- PageScores(geo, pages); Ok(Fold(ts)))
  {
    var totals := EmptyTally();
    ghost var done: seq<Tally> := [];
    var i := 0;
    while i < |pages|
      invariant 0 <= i <= |pages|
      invariant AllShaped(done) && totals == Fold(done)
      invariant PageScores(geo, pages) == PageScoresFrom(geo, done, pages[i..])
    {
      assert pages[i..][1..] == pages[i + 1..];
      if IsXmlName(pages[i].fileName) {
        var page := CalcMiou(geo, pages[i].exp, pages[i].gt);
        if page.Err? {
          return Err(page.error);
        }
        assert (done + [page.value])[..|done|] == done;
        totals := Merge(totals, page.value);
        done := done + [page.value];
      }
      i := i + 1;
    }
    return Ok(totals);
  }

  /** The metrics of lines 253-309 for the totals `t`. */
  method Metrics(t: Tally) returns (r: Result<Report, Fault>)
    requires Shaped(t)
    ensures r == MakeReport(t)
  {
    var rows := LabelTable(t);
    var all := AllIous(t.perLabel);
    if |all| == 0 {
      return Err(EmptyMean);
    }
    assert rows == seq(LabelCount, k requires 0 <= k < LabelCount => MetricsOf(t, k));
    r := Ok(Report(rows, Mean(all),
      NanMean(seq(LabelCount, k requires 0 <= k < LabelCount => rows[k].meanIou)),
      NanMean(seq(LabelCount, k requires 0 <= k < LabelCount => rows[k].precision1)),
      NanMean(seq(LabelCount, k requires 0 <= k < LabelCount => rows[k].recall1)),
      NanMean(seq(LabelCount, k requires 0 <= k < LabelCount => rows[k].f1)),
      NanMean(seq(LabelCount, k requires 0 <= k < LabelCount => rows[k].precision2)),
      NanMean(seq(LabelCount, k requires 0 <= k < LabelCount => rows[k].recall2)),
      NanMean(seq(LabelCount, k requires 0 <= k < LabelCount => rows[k].f2))));
  }

  /** `main`. */
  method Evaluate<G(==)>(geo: Geometry<G>, pages: seq<PageInput>) returns (r: Result<Report, Fault>)
    ensures r == Outcome(geo, pages)
  {
    var totals := Totals(geo, pages);
    if totals.Err? {
      return Err(totals.error);
    }
    r := Metrics(totals.value);
  }
}
