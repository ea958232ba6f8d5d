/** What the folio finder promises: which files end up in the CSV, which in the error
    log, when the run fails, and what the image and folio cells hold. */
module ExtractFolioFacts {
  import opened Wrappers
  import opened Text
  import opened Page
  import opened ExtractFolio

  type Reader = string -> Document<seq<Option<string>>>

  // ---------------------------------------------------------------------------
  // One file
  // ---------------------------------------------------------------------------

  /** The list is empty exactly when no element's text mentions a folio. */
  lemma {:induction false} FoliosEmpty(texts: seq<Option<string>>)
    ensures Folios(texts) == [] <==> forall k :: 0 <= k < |texts| ==> !Kept(texts[k])
    decreases |texts|
  {
    if texts != [] {
      var init := texts[..|texts| - 1];
      FoliosEmpty(init);
      assert forall k :: 0 <= k < |init| ==> init[k] == texts[k];
    }
  }

  /** A file that cannot be opened ends the run: lxml raises OSError. */
  lemma UnreadableFails(path: string)
    ensures ProcessXml(path, Unreadable).Err?
    ensures ProcessXml(path, Unreadable).error == MissingFile
  {
  }

  /** Each readable file gives at most one of a record and a log entry; a parsed
      document gives exactly one, a malformed one gives neither. */
  lemma ProcessXmlOutcome(path: string, doc: Document<seq<Option<string>>>)
    ensures ProcessXml(path, doc).Err? <==> doc.Unreadable?
    ensures ProcessXml(path, doc).Ok? ==>
      var p := ProcessXml(path, doc).value;
      && !(p.record.Some? && p.logged)
      && (p.record.Some? || p.logged <==> doc.Parsed?)
      && (p.logged <==> doc == Parsed([]))
  {
  }

  /** A document without `PlainText` elements is logged and gives no record. */
  lemma NoPlainTextIsLogged(path: string)
    ensures ProcessXml(path, Parsed([])) == Ok(Processed(None, true))
  {
  }

  /** A malformed document is skipped silently. */
  lemma MalformedIsSkipped(path: string)
    ensures ProcessXml(path, Malformed) == Ok(Processed(None, false))
  {
  }

  /** A document with `PlainText` elements gives a record whose image is the file
      name and whose folio list is empty exactly when no text mentions a folio. */
  lemma RecordOfParsed(root: string, name: string, texts: seq<Option<string>>)
    requires '/' !in name && texts != []
    ensures var r := ProcessXml(PathJoin(root, name), Parsed(texts));
      && r.Ok? && r.value.record.Some? && !r.value.logged
      && r.value.record.value.image == name
      && (r.value.record.value.folio == [] <==> forall k :: 0 <= k < |texts| ==> !Kept(texts[k]))
  {
    ImageIsFileName(root, name);
    FoliosEmpty(texts);
  }

  // ---------------------------------------------------------------------------
  // One directory
  // ---------------------------------------------------------------------------

  /** Some `.xml` name of the list names a file that cannot be opened. */
  predicate SomeUnreadable(root: string, names: seq<string>, read: Reader) {
    exists k :: 0 <= k < |names| && IsXmlName(names[k]) && read(PathJoin(root, names[k])).Unreadable?
  }

  /** The number of `.xml` names of the list whose documents parse. */
  function ParsedCount(root: string, names: seq<string>, read: Reader): nat
    decreases |names|
  {
    if names == [] then 0
    else
      var here := if IsXmlName(names[0]) && read(PathJoin(root, names[0])).Parsed? then 1 else 0;
      here + ParsedCount(root, names[1..], read)
  }

  /** The `.xml` names of the list, in order. */
  function XmlNames(names: seq<string>): (r: seq<string>)
    ensures forall k :: 0 <= k < |r| ==> IsXmlName(r[k])
    decreases |names|
  {
    if names == [] then []
    else if IsXmlName(names[0]) then [names[0]] + XmlNames(names[1..])
    else XmlNames(names[1..])
  }

  lemma SomeUnreadableStep(root: string, names: seq<string>, read: Reader)
    requires names != []
    ensures SomeUnreadable(root, names, read) <==>
      (IsXmlName(names[0]) && read(PathJoin(root, names[0])).Unreadable?) || SomeUnreadable(root, names[1..], read)
  {
    if SomeUnreadable(root, names[1..], read) {
      var k :| 0 <= k < |names[1..]| && IsXmlName(names[1..][k]) && read(PathJoin(root, names[1..][k])).Unreadable?;
      assert names[k + 1] == names[1..][k];
    }
    if SomeUnreadable(root, names, read) {
      var k :| 0 <= k < |names| && IsXmlName(names[k]) && read(PathJoin(root, names[k])).Unreadable?;
      if k > 0 {
        assert names[1..][k - 1] == names[k];
      }
    }
  }

  /** The directory loop fails exactly when one of its `.xml` files cannot be opened. */
  lemma {:induction false} CollectFilesFails(root: string, names: seq<string>, read: Reader, acc: Collected)
    ensures CollectFiles(root, names, read, acc).Err? <==> SomeUnreadable(root, names, read)
    decreases |names|
  {
    if names != [] {
      SomeUnreadableStep(root, names, read);
      if IsXmlName(names[0]) {
        var path := PathJoin(root, names[0]);
        ProcessXmlOutcome(path, read(path));
        if read(path).Unreadable? {
        } else {
          CollectFilesFails(root, names[1..], read, Absorb(acc, path, ProcessXml(path, read(path)).value));
        }
      } else {
        CollectFilesFails(root, names[1..], read, acc);
      }
    }
  }

  /** Records already collected stay, and every file that parses adds exactly one
      record or one log entry. */
  lemma {:induction false} CollectFilesCounts(root: string, names: seq<string>, read: Reader, acc: Collected)
    ensures CollectFiles(root, names, read, acc).Ok? ==>
      var c := CollectFiles(root, names, read, acc).value;
      && |acc.folios| <= |c.folios| && c.folios[..|acc.folios|] == acc.folios
      && |acc.log| <= |c.log| && c.log[..|acc.log|] == acc.log
      && |c.folios| + |c.log| == |acc.folios| + |acc.log| + ParsedCount(root, names, read)
    decreases |names|
  {
    if names != [] {
      if IsXmlName(names[0]) {
        var path := PathJoin(root, names[0]);
        ProcessXmlOutcome(path, read(path));
        if !read(path).Unreadable? {
          var next := Absorb(acc, path, ProcessXml(path, read(path)).value);
          CollectFilesCounts(root, names[1..], read, next);
          AbsorbPrefix(acc, path, ProcessXml(path, read(path)).value);
        }
      } else {
        CollectFilesCounts(root, names[1..], read, acc);
      }
    }
  }

  lemma AbsorbPrefix(acc: Collected, path: string, p: Processed)
    requires !(p.record.Some? && p.logged)
    ensures var n := Absorb(acc, path, p);
      && n.folios[..|acc.folios|] == acc.folios && n.log[..|acc.log|] == acc.log
      && |n.folios| + |n.log| == |acc.folios| + |acc.log| + (if p.record.Some? || p.logged then 1 else 0)
  {
    var n := Absorb(acc, path, p);
    assert n.folios[..|acc.folios|] == acc.folios;
    assert n.log[..|acc.log|] == acc.log;
  }

  /** What the CSV and the log may hold: every image is the name of a `.xml` file of
      `names`, and every logged path is a document without `PlainText` elements. */
  predicate Sound(c: Collected, names: set<string>, read: Reader) {
    && (forall r :: r in c.folios ==> r.image in names && IsXmlName(r.image))
    && (forall p :: p in c.log ==> read(p) == Parsed([]))
  }

  lemma {:induction false} CollectFilesSound(root: string, names: seq<string>, read: Reader, acc: Collected, all: set<string>)
    requires forall k :: 0 <= k < |names| ==> names[k] in all && '/' !in names[k]
    requires Sound(acc, all, read)
    ensures CollectFiles(root, names, read, acc).Ok? ==> Sound(CollectFiles(root, names, read, acc).value, all, read)
    decreases |names|
  {
    if names != [] {
      assert forall k :: 0 <= k < |names[1..]| ==> names[1..][k] == names[k + 1];
      if IsXmlName(names[0]) {
        var path := PathJoin(root, names[0]);
        if !read(path).Unreadable? {
          var p := ProcessXml(path, read(path)).value;
          AbsorbSound(root, names[0], read, acc, all);
          CollectFilesSound(root, names[1..], read, Absorb(acc, path, p), all);
        }
      } else {
        CollectFilesSound(root, names[1..], read, acc, all);
      }
    }
  }

  lemma AbsorbSound(root: string, name: string, read: Reader, acc: Collected, all: set<string>)
    requires name in all && '/' !in name && IsXmlName(name)
    requires Sound(acc, all, read)
    requires !read(PathJoin(root, name)).Unreadable?
    ensures var path := PathJoin(root, name);
      Sound(Absorb(acc, path, ProcessXml(path, read(path)).value), all, read)
  {
    ImageIsFileName(root, name);
  }

  /** Names that do not end in `.xml` are never opened: the loop over the `.xml`
      names alone gives the same result. */
  lemma {:induction false} CollectFilesOnlyXml(root: string, names: seq<string>, read: Reader, acc: Collected)
    ensures CollectFiles(root, names, read, acc) == CollectFiles(root, XmlNames(names), read, acc)
    decreases |names|
  {
    if names != [] {
      if IsXmlName(names[0]) {
        var path := PathJoin(root, names[0]);
        var xs := XmlNames(names);
        assert xs[0] == names[0] && xs[1..] == XmlNames(names[1..]);
        if !ProcessXml(path, read(path)).Err? {
          CollectFilesOnlyXml(root, names[1..], read, Absorb(acc, path, ProcessXml(path, read(path)).value));
        }
      } else {
        CollectFilesOnlyXml(root, names[1..], read, acc);
      }
    }
  }

  // ---------------------------------------------------------------------------
  // The walk
  // ---------------------------------------------------------------------------

  /** Some directory of the walk holds a `.xml` file that cannot be opened. */
  predicate WalkUnreadable(dirs: seq<Dir>, read: Reader) {
    exists i :: 0 <= i < |dirs| && SomeUnreadable(dirs[i].root, dirs[i].files, read)
  }

  /** The number of `.xml` files of the walk whose documents parse. */
  function WalkParsed(dirs: seq<Dir>, read: Reader): nat
    decreases |dirs|
  {
    if dirs == [] then 0 else ParsedCount(dirs[0].root, SortNames(dirs[0].files), read) + WalkParsed(dirs[1..], read)
  }

  /** Sorting the names of a directory does not change whether one is unreadable. */
  lemma SortedUnreadable(root: string, files: seq<string>, read: Reader)
    ensures SomeUnreadable(root, SortNames(files), read) <==> SomeUnreadable(root, files, read)
  {
    var s := SortNames(files);
    SortNamesSpec(files);
    if SomeUnreadable(root, s, read) {
      var k :| 0 <= k < |s| && IsXmlName(s[k]) && read(PathJoin(root, s[k])).Unreadable?;
      assert s[k] in multiset(s);
      var j :| 0 <= j < |files| && files[j] == s[k];
    }
    if SomeUnreadable(root, files, read) {
      var k :| 0 <= k < |files| && IsXmlName(files[k]) && read(PathJoin(root, files[k])).Unreadable?;
      assert files[k] in multiset(files);
      var j :| 0 <= j < |s| && s[j] == files[k];
    }
  }

  lemma WalkUnreadableStep(dirs: seq<Dir>, read: Reader)
    requires dirs != []
    ensures WalkUnreadable(dirs, read) <==>
      SomeUnreadable(dirs[0].root, dirs[0].files, read) || WalkUnreadable(dirs[1..], read)
  {
    if WalkUnreadable(dirs[1..], read) {
      var i :| 0 <= i < |dirs[1..]| && SomeUnreadable(dirs[1..][i].root, dirs[1..][i].files, read);
      assert dirs[i + 1] == dirs[1..][i];
    }
    if WalkUnreadable(dirs, read) {
      var i :| 0 <= i < |dirs| && SomeUnreadable(dirs[i].root, dirs[i].files, read);
      if i > 0 {
        assert dirs[1..][i - 1] == dirs[i];
      }
    }
  }

  lemma {:induction false} CollectWalkFails(dirs: seq<Dir>, read: Reader, acc: Collected)
    ensures CollectWalk(dirs, read, acc).Err? <==> WalkUnreadable(dirs, read)
    decreases |dirs|
  {
    if dirs != [] {
      WalkUnreadableStep(dirs, read);
      var d := dirs[0];
      CollectFilesFails(d.root, SortNames(d.files), read, acc);
      SortedUnreadable(d.root, d.files, read);
      var c := CollectFiles(d.root, SortNames(d.files), read, acc);
      if c.Ok? {
        CollectWalkFails(dirs[1..], read, c.value);
      }
    }
  }

  lemma {:induction false} CollectWalkCounts(dirs: seq<Dir>, read: Reader, acc: Collected)
    ensures CollectWalk(dirs, read, acc).Ok? ==>
      var c := CollectWalk(dirs, read, acc).value;
      |c.folios| + |c.log| == |acc.folios| + |acc.log| + WalkParsed(dirs, read)
    decreases |dirs|
  {
    if dirs != [] {
      var d := dirs[0];
      CollectFilesCounts(d.root, SortNames(d.files), read, acc);
      var c := CollectFiles(d.root, SortNames(d.files), read, acc);
      if c.Ok? {
        CollectWalkCounts(dirs[1..], read, c.value);
      }
    }
  }

  /** The file names of every directory of the walk. */
  function AllFiles(dirs: seq<Dir>): set<string> {
    set i, k | 0 <= i < |dirs| && 0 <= k < |dirs[i].files| :: dirs[i].files[k]
  }

  /** Directory entries never hold a `/`. */
  predicate PlainNames(dirs: seq<Dir>) {
    forall i, k :: 0 <= i < |dirs| && 0 <= k < |dirs[i].files| ==> '/' !in dirs[i].files[k]
  }

  lemma {:induction false} CollectWalkSound(dirs: seq<Dir>, read: Reader, acc: Collected, all: set<string>)
    requires PlainNames(dirs)
    requires forall i, k :: 0 <= i < |dirs| && 0 <= k < |dirs[i].files| ==> dirs[i].files[k] in all
    requires Sound(acc, all, read)
    ensures CollectWalk(dirs, read, acc).Ok? ==> Sound(CollectWalk(dirs, read, acc).value, all, read)
    decreases |dirs|
  {
    if dirs != [] {
      var d := dirs[0];
      var s := SortNames(d.files);
      SortedFilesIn(d.files, all);
      CollectFilesSound(d.root, s, read, acc, all);
      var c := CollectFiles(d.root, s, read, acc);
      if c.Ok? {
        assert forall i :: 0 <= i < |dirs[1..]| ==> dirs[1..][i] == dirs[i + 1];
        CollectWalkSound(dirs[1..], read, c.value, all);
      }
    }
  }

  lemma SortedFilesIn(files: seq<string>, all: set<string>)
    requires forall k :: 0 <= k < |files| ==> files[k] in all && '/' !in files[k]
    ensures forall k :: 0 <= k < |SortNames(files)| ==> SortNames(files)[k] in all && '/' !in SortNames(files)[k]
  {
    var s := SortNames(files);
    SortNamesSpec(files);
    forall k | 0 <= k < |s| ensures s[k] in all && '/' !in s[k] {
      assert s[k] in multiset(files);
      var j :| 0 <= j < |files| && files[j] == s[k];
    }
  }

  // ---------------------------------------------------------------------------
  // process_all_xml_files
  // ---------------------------------------------------------------------------

  /** The CSV has the header and then one row per record: the image and the
      folio texts joined with ", ". */
  lemma CsvRowsShape(folios: seq<FolioRecord>)
    ensures |CsvRows(folios)| == |folios| + 1
    ensures CsvRows(folios)[0] == ["image", "folio"]
    ensures forall i :: 0 <= i < |folios| ==>
      CsvRows(folios)[i + 1] == [folios[i].image, Join(folios[i].folio, ", ")]
  {
  }

  /** The run fails exactly when a `.xml` file of the walk cannot be opened. */
  lemma ProcessAllFails(dirs: seq<Dir>, read: Reader)
    ensures ProcessAll(dirs, read).Err? <==> WalkUnreadable(dirs, read)
  {
    CollectWalkFails(dirs, read, Collected([], []));
  }

  /** Every `.xml` file that parses is either a row of the CSV or a line of the log,
      never both. */
  lemma ProcessAllCounts(dirs: seq<Dir>, read: Reader)
    ensures ProcessAll(dirs, read).Ok? ==>
      var o := ProcessAll(dirs, read).value;
      |o.rows| - 1 + |o.log| == WalkParsed(dirs, read)
  {
    CollectWalkCounts(dirs, read, Collected([], []));
  }

  /** Every row after the header names a `.xml` file of the walk, and every logged
      path is a document without `PlainText` elements. */
  lemma ProcessAllSound(dirs: seq<Dir>, read: Reader)
    requires PlainNames(dirs)
    ensures ProcessAll(dirs, read).Ok? ==>
      var o := ProcessAll(dirs, read).value;
      && (forall i :: 1 <= i < |o.rows| ==> o.rows[i][0] in AllFiles(dirs) && IsXmlName(o.rows[i][0]))
      && (forall p :: p in o.log ==> read(p) == Parsed([]))
  {
    var all := AllFiles(dirs);
    CollectWalkSound(dirs, read, Collected([], []), all);
    var c := CollectWalk(dirs, read, Collected([], []));
    if c.Ok? {
      var fs := c.value.folios;
      forall i | 1 <= i < |CsvRows(fs)| ensures CsvRows(fs)[i][0] in all && IsXmlName(CsvRows(fs)[i][0]) {
        assert fs[i - 1] in fs;
      }
    }
  }
}
