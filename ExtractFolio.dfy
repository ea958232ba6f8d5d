/** The folio finder (src/extract_folio.py): for every `.xml` file of a folder walk it
    keeps the texts of the `PlainText` elements that mention `folio <number>`, and it
    writes one CSV row per file that has any `PlainText` element. */
module ExtractFolio {
  import opened Wrappers
  import opened Text
  import opened Page

  // ---------------------------------------------------------------------------
  // The pattern `folio [0-9]+` under re.IGNORECASE
  // ---------------------------------------------------------------------------

  /** The pattern tried at `i`: the five letters fold, the space is a space, and
      `[0-9]+` needs one ASCII digit (digits have no other case). */
  predicate FolioAt(t: string, i: nat) {
    MatchesIgnoreCaseAt(t, i, "folio ") && i + 6 < |t| && IsDigit(t[i + 6])
  }

  /** `pattern.search(t)` from position `i` on. */
  predicate SearchFrom(t: string, i: nat)
    decreases |t| - i
  {
    i < |t| && (FolioAt(t, i) || SearchFrom(t, i + 1))
  }

  /** `pattern.search(t)` is not None. */
  predicate HasFolio(t: string) {
    SearchFrom(t, 0)
  }

  /** The search succeeds exactly when the pattern matches at some position. */
  lemma {:induction false} SearchFromSpec(t: string, i: nat)
    ensures SearchFrom(t, i) <==> exists j :: i <= j < |t| && FolioAt(t, j)
    decreases |t| - i
  {
    if i < |t| {
      SearchFromSpec(t, i + 1);
      if !FolioAt(t, i) && !SearchFrom(t, i + 1) {
        forall j | i <= j < |t| ensures !FolioAt(t, j) {
          if j > i {
            assert !(exists j' :: i + 1 <= j' < |t| && FolioAt(t, j'));
          }
        }
      }
    }
  }

  lemma HasFolioSpec(t: string)
    ensures HasFolio(t) <==> exists j :: 0 <= j < |t| && FolioAt(t, j)
  {
    SearchFromSpec(t, 0);
  }

  /** `element.text and pattern.search(element.text)`: a missing or empty text is
      skipped before the search. */
  predicate Kept(text: Option<string>) {
    text.Some? && text.value != [] && HasFolio(text.value)
  }

  /** The `folio` list built from the texts of the `PlainText` elements, in order. */
  function Folios(texts: seq<Option<string>>): seq<string>
    decreases |texts|
  {
    if texts == [] then []
    else
      var last := texts[|texts| - 1];
      Folios(texts[..|texts| - 1]) + (if Kept(last) then [last.value] else [])
  }

  /** A text is kept exactly when it holds `folio`, in any case, a space and a digit. */
  lemma KeptSpec(text: Option<string>)
    ensures Kept(text) <==> text.Some? && exists j :: 0 <= j < |text.value| && FolioAt(text.value, j)
  {
    if text.Some? {
      HasFolioSpec(text.value);
    }
  }

  /** The filter keeps order: the list of two runs of elements is the list of the
      first run followed by the list of the second. */
  lemma {:induction false} FoliosAppend(a: seq<Option<string>>, b: seq<Option<string>>)
    ensures Folios(a + b) == Folios(a) + Folios(b)
    decreases |b|
  {
    if b == [] {
      assert a + b == a;
    } else {
      var b' := b[..|b| - 1];
      FoliosAppend(a, b');
      assert (a + b)[..|a + b| - 1] == a + b';
      assert (a + b)[|a + b| - 1] == b[|b| - 1];
    }
  }

  /** One element contributes its text when it is kept and nothing otherwise;
      missing and empty texts contribute nothing. */
  lemma FoliosOne(text: Option<string>)
    ensures Folios([text]) == if Kept(text) then [text.value] else []
    ensures text.None? || text == Some([]) ==> Folios([text]) == []
  {
    assert [text][..0] == [];
  }

  /** Every text in the list mentions a folio. */
  lemma {:induction false} FoliosAreKept(texts: seq<Option<string>>)
    ensures forall k :: 0 <= k < |Folios(texts)| ==>
      Folios(texts)[k] != [] && HasFolio(Folios(texts)[k])
    decreases |texts|
  {
    if texts != [] {
      FoliosAreKept(texts[..|texts| - 1]);
    }
  }

  /** No more texts are kept than there are elements. */
  lemma {:induction false} FoliosBound(texts: seq<Option<string>>)
    ensures |Folios(texts)| <= |texts|
    decreases |texts|
  {
    if texts != [] {
      FoliosBound(texts[..|texts| - 1]);
    }
  }

  lemma FolioExamples()
    ensures HasFolio("FOLIO 7")
    ensures !HasFolio("folio x")
  {
    assert FolioAt("FOLIO 7", 0);
    HasFolioSpec("folio x");
  }

  // ---------------------------------------------------------------------------
  // process_xml
  // ---------------------------------------------------------------------------

  /** The dict `process_xml` returns. */
  datatype FolioRecord = FolioRecord(image: string, folio: seq<string>)

  /** What `process_xml` returns, and whether it appended the path to the error log. */
  datatype Processed = Processed(record: Option<FolioRecord>, logged: bool)

  /** `process_xml(path)`, where `doc` holds the texts of the `//PlainText` elements in
      document order. A missing file raises OSError, which is not caught. */
  function ProcessXml(path: string, doc: Document<seq<Option<string>>>): Result<Processed, Fault> {
    match doc
    case Unreadable => Err(MissingFile)
    case Malformed => Ok(Processed(None, false))
    case Parsed(texts) =>
      if texts == [] then Ok(Processed(None, true))
      else Ok(Processed(Some(FolioRecord(LastPiece(path, '/'), Folios(texts))), false))
  }

  /** Lines 11-39: `dict['image']` is set again for every element, and `dict['folio']`
      grows by the kept texts. */
  method ProcessFile(path: string, doc: Document<seq<Option<string>>>) returns (r: Result<Processed, Fault>)
    ensures r == ProcessXml(path, doc)
  {
    if doc.Unreadable? {
      return Err(MissingFile);
    }
    if doc.Malformed? {
      return Ok(Processed(None, false));
    }
    var texts := doc.content;
    if |texts| == 0 {
      return Ok(Processed(None, true));
    }
    var image: Option<string> := None;
    var folio: seq<string> := [];
    for i := 0 to |texts|
      invariant folio == Folios(texts[..i])
      invariant i > 0 ==> image == Some(LastPiece(path, '/'))
    {
      assert texts[..i + 1][..i] == texts[..i];
      image := Some(LastPiece(path, '/'));
      var text := texts[i];
      if text.Some? && text.value != [] && HasFolio(text.value) {
        folio := folio + [text.value];
      }
    }
    assert texts[..|texts|] == texts;
    return Ok(Processed(Some(FolioRecord(image.value, folio)), false));
  }

  // ---------------------------------------------------------------------------
  // process_all_xml_files
  // ---------------------------------------------------------------------------

  /** `os.path.join(a, b)` of posixpath. */
  function PathJoin(a: string, b: string): string {
    if |b| > 0 && b[0] == '/' then b
    else if a == [] || a[|a| - 1] == '/' then a + b
    else a + "/" + b
  }

  /** The image name is the file name, whatever directory the walk is in. */
  lemma ImageIsFileName(root: string, name: string)
    requires '/' !in name
    ensures LastPiece(PathJoin(root, name), '/') == name
  {
    if |name| > 0 {
      assert name[0] in name;
    }
    if root == [] {
      assert PathJoin(root, name) == name;
      LastPieceWithoutSeparator(name, '/');
    } else if root[|root| - 1] == '/' {
      var dir := root[..|root| - 1];
      assert root + name == dir + ['/'] + name;
      LastPieceAfter(dir, '/', name);
    } else {
      assert root + "/" + name == root + ['/'] + name;
      LastPieceAfter(root, '/', name);
    }
  }

  /** Python's order on strings: code point by code point, a prefix first. */
  predicate NameLe(a: string, b: string)
    decreases |a|
  {
    a == [] || (b != [] && (a[0] < b[0] || (a[0] == b[0] && NameLe(a[1..], b[1..]))))
  }

  lemma {:induction false} NameLeTotal(a: string, b: string)
    ensures NameLe(a, b) || NameLe(b, a)
    decreases |a|
  {
    if a != [] && b != [] && a[0] == b[0] {
      NameLeTotal(a[1..], b[1..]);
    }
  }

  predicate SortedNames(s: seq<string>) {
    forall i :: 0 < i < |s| ==> NameLe(s[i - 1], s[i])
  }

  function InsertName(x: string, s: seq<string>): seq<string>
    decreases |s|
  {
    if s == [] || NameLe(x, s[0]) then [x] + s else [s[0]] + InsertName(x, s[1..])
  }

  /** `sorted(files)` */
  function SortNames(s: seq<string>): seq<string>
    decreases |s|
  {
    if s == [] then [] else InsertName(s[0], SortNames(s[1..]))
  }

  lemma {:induction false} InsertNameSpec(x: string, s: seq<string>)
    requires SortedNames(s)
    ensures var r := InsertName(x, s);
      && SortedNames(r) && multiset(r) == multiset(s) + multiset{x}
      && r != [] && (r[0] == x || (s != [] && r[0] == s[0]))
    decreases |s|
  {
    if s != [] && !NameLe(x, s[0]) {
      var tail := s[1..];
      assert SortedNames(tail) by {
        forall i | 0 < i < |tail| ensures NameLe(tail[i - 1], tail[i]) {
          assert tail[i - 1] == s[i] && tail[i] == s[i + 1];
        }
      }
      InsertNameSpec(x, tail);
      NameLeTotal(x, s[0]);
      var rest := InsertName(x, tail);
      var r := [s[0]] + rest;
      forall i | 0 < i < |r| ensures NameLe(r[i - 1], r[i]) {
        if i > 1 {
          assert r[i - 1] == rest[i - 2] && r[i] == rest[i - 1];
        }
      }
      assert s == [s[0]] + tail;
    }
  }

  /** `sorted` returns the names in order, each as often as it was listed. */
  lemma {:induction false} SortNamesSpec(s: seq<string>)
    ensures SortedNames(SortNames(s)) && multiset(SortNames(s)) == multiset(s)
    decreases |s|
  {
    if s != [] {
      SortNamesSpec(s[1..]);
      InsertNameSpec(s[0], SortNames(s[1..]));
      assert s == [s[0]] + s[1..];
    }
  }

  /** One directory of the walk: its path and the names of its files, in the order
      `os.walk` lists them. */
  datatype Dir = Dir(root: string, files: seq<string>)

  /** `folio_list` and the paths appended to the error log so far. */
  datatype Collected = Collected(folios: seq<FolioRecord>, log: seq<string>)

  /** Lines 49-51 after `process_xml`: a returned dict is truthy and is appended. */
  function Absorb(acc: Collected, path: string, p: Processed): Collected {
    Collected(acc.folios + (if p.record.Some? then [p.record.value] else []),
              acc.log + (if p.logged then [path] else []))
  }

  /** The loop of lines 46-51 over the file names `names` of directory `root`;
      `read` is what `etree.parse` finds at a path. */
  function CollectFiles(root: string, names: seq<string>, read: string -> Document<seq<Option<string>>>, acc: Collected)
    : Result<Collected, Fault>
    decreases |names|
  {
    if names == [] then Ok(acc)
    else if !IsXmlName(names[0]) then CollectFiles(root, names[1..], read, acc)
    else
      var path := PathJoin(root, names[0]);
      var p :- ProcessXml(path, read(path));
      CollectFiles(root, names[1..], read, Absorb(acc, path, p))
  }

  /** The walk of lines 45-51. */
  function CollectWalk(dirs: seq<Dir>, read: string -> Document<seq<Option<string>>>, acc: Collected)
    : Result<Collected, Fault>
    decreases |dirs|
  {
    if dirs == [] then Ok(acc)
    else
      var acc' :- CollectFiles(dirs[0].root, SortNames(dirs[0].files), read, acc);
      CollectWalk(dirs[1..], read, acc')
  }

  /** The rows the CSV writer receives, lines 56-58. */
  function CsvRows(folios: seq<FolioRecord>): seq<seq<string>> {
    [["image", "folio"]] + seq(|folios|, i requires 0 <= i < |folios| => [folios[i].image, Join(folios[i].folio, ", ")])
  }

  /** What `process_all_xml_files` leaves behind: the CSV rows and the error log. */
  datatype Output = Output(rows: seq<seq<string>>, log: seq<string>)

  function ProcessAll(dirs: seq<Dir>, read: string -> Document<seq<Option<string>>>): Result<Output, Fault> {
    var c :- CollectWalk(dirs, read, Collected([], []));
    Ok(Output(CsvRows(c.folios), c.log))
  }

  /** The inner loop of lines 46-51 for one directory. */
  method CollectDir(root: string, names: seq<string>, read: string -> Document<seq<Option<string>>>, acc0: Collected)
    returns (r: Result<Collected, Fault>)
    ensures r == CollectFiles(root, names, read, acc0)
  {
    var folioList := acc0.folios;
    var errorLog := acc0.log;
    for j := 0 to |names|
      invariant CollectFiles(root, names, read, acc0) == CollectFiles(root, names[j..], read, Collected(folioList, errorLog))
    {
      assert names[j..][1..] == names[j + 1..];
      var fileName := names[j];
      if IsXmlName(fileName) {
        var filePath := PathJoin(root, fileName);
        var folios := ProcessFile(filePath, read(filePath));
        if folios.Err? {
          return Err(folios.error);
        }
        ghost var next := Absorb(Collected(folioList, errorLog), filePath, folios.value);
        if folios.value.logged {
          errorLog := errorLog + [filePath];
        }
        if folios.value.record.Some? {
          folioList := folioList + [folios.value.record.value];
        }
        assert Collected(folioList, errorLog) == next;
      }
    }
    return Ok(Collected(folioList, errorLog));
  }

  /** Lines 56-58: the header, then one row per collected dict. */
  method WriteRows(folios: seq<FolioRecord>) returns (rows: seq<seq<string>>)
    ensures rows == CsvRows(folios)
  {
    rows := [["image", "folio"]];
    for i := 0 to |folios|
      invariant rows == CsvRows(folios[..i])
    {
      rows := rows + [[folios[i].image, Join(folios[i].folio, ", ")]];
    }
    assert folios[..|folios|] == folios;
  }

  /** `process_all_xml_files(folder)`, with the walk of `folder` given as `dirs`. */
  method ProcessAllXmlFiles(dirs: seq<Dir>, read: string -> Document<seq<Option<string>>>) returns (r: Result<Output, Fault>)
    ensures r == ProcessAll(dirs, read)
  {
    var acc := Collected([], []);
    for i := 0 to |dirs|
      invariant CollectWalk(dirs, read, Collected([], [])) == CollectWalk(dirs[i..], read, acc)
    {
      assert dirs[i..][1..] == dirs[i + 1..];
      var c := CollectDir(dirs[i].root, SortNames(dirs[i].files), read, acc);
      if c.Err? {
        return Err(c.error);
      }
      acc := c.value;
    }
    var rows := WriteRows(acc.folios);
    return Ok(Output(rows, acc.log));
  }
}
