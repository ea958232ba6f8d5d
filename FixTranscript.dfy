/** The transcript un-shifter (src/fix_transcript.py): the text of every `PlainText`
    and `Unicode` child of every `TextEquiv` element moves down by one code point,
    in place, and the document goes to a `fixed` directory two levels up. */
module FixTranscript {
  import opened Wrappers
  import opened Text
  import opened Page

  /** One `TextEquiv` element, each child encoded as `TextLine.plainText` is: `None`
      without the child, `Some(None)` when the child has no text. */
  datatype TextEquiv = TextEquiv(plainText: Option<Option<string>>, unicode: Option<Option<string>>)

  /** A code point Python's `chr` turns into a `char` here (no surrogate). */
  predicate IsScalar(n: int) {
    (0 <= n < 0xD800) || (0xE000 <= n < 0x11_0000)
  }

  /** A code point lxml accepts in element text: the characters of XML 1.0 (tab,
      newline, carriage return, and no other ASCII control character, no surrogate,
      neither U+FFFE nor U+FFFF). */
  predicate Storable(n: int) {
    n == 0x9 || n == 0xA || n == 0xD || (0x20 <= n < 0xD800) || (0xE000 <= n < 0xFFFE) || (0x1_0000 <= n < 0x11_0000)
  }

  /** `plain_text.text = ''.join(chr(ord(c) - 1) for c in text)`. The join is built
      first, so `chr(-1)` for a NUL raises before anything is stored; lxml then refuses
      the string if one of its code points is not `Storable`. */
  function Shift(t: string): (r: Result<string, Fault>)
    ensures r == Err(NoPredecessor) <==> '\0' in t
    ensures r.Ok? <==> forall k :: 0 <= k < |t| ==> Storable(t[k] as int - 1)
    ensures r.Err? ==> r.error == NoPredecessor || r.error == NotXmlText
    ensures r.Ok? ==> |r.value| == |t| && forall k :: 0 <= k < |t| ==> r.value[k] as int == t[k] as int - 1
  {
    if '\0' in t then
      Err(NoPredecessor)
    else if exists k :: 0 <= k < |t| && !Storable(t[k] as int - 1) then
      Err(NotXmlText)
    else
      Ok(seq(|t|, k requires 0 <= k < |t| => (t[k] as int - 1) as char))
  }

  /** The inverse direction: every code point one up, `None` if one leaves the scalars. */
  function Raise(u: string): (r: Option<string>)
  {
    if forall k :: 0 <= k < |u| ==> IsScalar(u[k] as int + 1) then
      Some(seq(|u|, k requires 0 <= k < |u| => (u[k] as int + 1) as char))
    else
      None
  }

  /** Shifting succeeds with `u` exactly when raising `u` gives the text back and lxml
      can store every character of `u`. */
  lemma ShiftRaise(t: string, u: string)
    ensures Shift(t) == Ok(u) <==> Raise(u) == Some(t) && forall k :: 0 <= k < |u| ==> Storable(u[k] as int)
  {
    if Shift(t) == Ok(u) {
      assert forall k :: 0 <= k < |u| ==> u[k] as int + 1 == t[k] as int;
      assert Raise(u).Some?;
      assert Raise(u).value == t;
    }
    if Raise(u) == Some(t) && forall k :: 0 <= k < |u| ==> Storable(u[k] as int) {
      assert forall k :: 0 <= k < |t| ==> t[k] as int - 1 == u[k] as int;
      assert Shift(t).Ok?;
      assert Shift(t).value == u;
    }
  }

  /** Two texts that shift to the same string are the same text. */
  lemma ShiftInjective(a: string, b: string)
    requires Shift(a).Ok? && Shift(b).Ok? && Shift(a) == Shift(b)
    ensures a == b
  {
    ShiftRaise(a, Shift(a).value);
    ShiftRaise(b, Shift(b).value);
  }

  /** A text holding a space cannot be shifted: U+001F is a control character. */
  lemma SpaceIsRefused(t: string)
    requires ' ' in t
    ensures Shift(t).Err?
  {
    var k :| 0 <= k < |t| && t[k] == ' ';
    assert !Storable(t[k] as int - 1);
  }

  // ---------------------------------------------------------------------------
  // One TextEquiv element
  // ---------------------------------------------------------------------------

  /** Lines 33-38 (or 40-45) on one child: a missing child raises `missing` when its
      `.text` is read, a child without text stays as it is, another one is shifted. */
  function FixChild(child: Option<Option<string>>, missing: Fault): (r: Result<Option<Option<string>>, Fault>)
    ensures child.None? ==> r == Err(missing)
    ensures child == Some(None) ==> r == Ok(child)
    ensures child.Some? && child.value.Some? ==> match Shift(child.value.value)
      case Ok(u) => r == Ok(Some(Some(u)))
      case Err(e) => r == Err(e)
  {
    match child
    case None => Err(missing)
    case Some(None) => Ok(child)
    case Some(Some(t)) =>
      var u :- Shift(t);
      Ok(Some(Some(u)))
  }

  /** Lines 33-45 on one `TextEquiv`: `PlainText` first, then `Unicode`. */
  function FixEquiv(e: TextEquiv): Result<TextEquiv, Fault> {
    var p :- FixChild(e.plainText, NoPlainText);
    var u :- FixChild(e.unicode, NoUnicode);
    Ok(TextEquiv(p, u))
  }

  /** The two children are fixed independently of each other; a fault of `PlainText`
      comes before anything about `Unicode`. */
  lemma FixEquivChildren(e: TextEquiv)
    ensures var p := FixChild(e.plainText, NoPlainText);
      var u := FixChild(e.unicode, NoUnicode);
      && (FixEquiv(e).Ok? <==> p.Ok? && u.Ok?)
      && (FixEquiv(e).Ok? ==> FixEquiv(e).value == TextEquiv(p.value, u.value))
      && (p.Err? ==> FixEquiv(e) == Err(p.error))
      && (p.Ok? && u.Err? ==> FixEquiv(e) == Err(u.error))
  {
  }

  /** A TextEquiv lacking a child faults; a child without text is kept unchanged. */
  lemma FixEquivMissing(e: TextEquiv)
    ensures e.plainText.None? ==> FixEquiv(e) == Err(NoPlainText)
    ensures FixChild(e.plainText, NoPlainText).Ok? && e.unicode.None? ==> FixEquiv(e) == Err(NoUnicode)
    ensures FixEquiv(e).Ok? && e.plainText == Some(None) ==> FixEquiv(e).value.plainText == Some(None)
    ensures FixEquiv(e).Ok? && e.unicode == Some(None) ==> FixEquiv(e).value.unicode == Some(None)
  {
  }

  /** The loop of lines 32-45 over the XPath result, on values. */
  function FixAll(es: seq<TextEquiv>): (r: Result<seq<TextEquiv>, Fault>)
    ensures r.Ok? ==> |r.value| == |es|
  {
    if es == [] then
      Ok([])
    else
      var e :- FixEquiv(es[0]);
      var rest :- FixAll(es[1..]);
      Ok([e] + rest)
  }

  /** The elements are fixed one by one: the result holds each element's own fix, and
      the fault is the one of the first element that faults. */
  lemma {:induction false} FixAllPointwise(es: seq<TextEquiv>)
    ensures FixAll(es).Ok? <==> forall k :: 0 <= k < |es| ==> FixEquiv(es[k]).Ok?
    ensures FixAll(es).Ok? ==> forall k :: 0 <= k < |es| ==> FixAll(es).value[k] == FixEquiv(es[k]).value
    ensures FixAll(es).Err? ==>
      exists k :: (0 <= k < |es| && FixEquiv(es[k]).Err? && FixAll(es).error == FixEquiv(es[k]).error
        && forall j :: 0 <= j < k ==> FixEquiv(es[j]).Ok?)
    decreases |es|
  {
    if es != [] {
      FixAllPointwise(es[1..]);
      assert forall k :: 1 <= k < |es| ==> es[1..][k - 1] == es[k];
      if FixEquiv(es[0]).Ok? && FixAll(es[1..]).Err? {
        var k :| 0 <= k < |es[1..]| && FixEquiv(es[1..][k]).Err?
          && FixAll(es[1..]).error == FixEquiv(es[1..][k]).error && forall j :: 0 <= j < k ==> FixEquiv(es[1..][j]).Ok?;
        assert FixEquiv(es[k + 1]).Err?;
        assert forall j :: 0 <= j < k + 1 ==> FixEquiv(es[j]).Ok?;
      }
    }
  }

  // ---------------------------------------------------------------------------
  // The output path
  // ---------------------------------------------------------------------------

  /** Lines 48-52: `'/'.join(xml_path.split('/')[:-2]) + "/fixed/"`, then the last
      piece stripped of the CHARACTERS `.xml` and `_fixed.xml`. */
  function OutputPath(xmlPath: string): string {
    var pieces := Split(xmlPath, '/');
    var up := if |pieces| >= 2 then |pieces| - 2 else 0;
    Join(pieces[..up], "/") + "/fixed/" + StripChars(Last(pieces), ".xml") + "_fixed.xml"
  }

  /** The output lies in `fixed` beside the directory that holds the input file. */
  lemma OutputPathTwoUp(dir: string, sub: string, name: string)
    requires '/' !in sub && '/' !in name
    ensures OutputPath(dir + "/" + sub + "/" + name) == dir + "/fixed/" + StripChars(name, ".xml") + "_fixed.xml"
  {
    var path := dir + "/" + sub + "/" + name;
    assert path == dir + ['/'] + (sub + ['/'] + name);
    SplitConcat(dir, '/', sub + ['/'] + name);
    SplitConcat(sub, '/', name);
    LastPieceWithoutSeparator(sub, '/');
    LastPieceWithoutSeparator(name, '/');
    assert Split(sub, '/') == [sub];
    assert Split(name, '/') == [name];
    var pieces := Split(dir, '/') + [sub, name];
    assert Split(path, '/') == pieces;
    assert pieces[..|pieces| - 2] == Split(dir, '/');
    JoinSplit(dir, '/');
  }

  /** With fewer than two separators nothing is left of the directory, and the output
      goes to `/fixed` at the root of the file system. */
  lemma OutputPathShallow(sub: string, name: string)
    requires '/' !in sub && '/' !in name
    ensures OutputPath(sub + "/" + name) == "/fixed/" + StripChars(name, ".xml") + "_fixed.xml"
    ensures OutputPath(name) == "/fixed/" + StripChars(name, ".xml") + "_fixed.xml"
  {
    SplitConcat(sub, '/', name);
    LastPieceWithoutSeparator(sub, '/');
    LastPieceWithoutSeparator(name, '/');
    assert Split(sub, '/') == [sub];
    assert Split(name, '/') == [name];
  }

  /** `strip('.xml')` removes a run of the characters `.`, `x`, `m` and `l` from both
      ends, so `model.xml` gives `ode`; a stem that neither starts nor ends with one of
      them keeps its name. */
  lemma OutputPathStem(dir: string, sub: string, pre: string, stem: string, tail: string)
    requires '/' !in sub && '/' !in pre + stem + tail
    requires forall k :: 0 <= k < |pre| ==> pre[k] in ".xml"
    requires forall k :: 0 <= k < |tail| ==> tail[k] in ".xml"
    requires stem != [] && stem[0] !in ".xml" && stem[|stem| - 1] !in ".xml"
    ensures OutputPath(dir + "/" + sub + "/" + pre + stem + tail + ".xml") == dir + "/fixed/" + stem + "_fixed.xml"
  {
    var name := pre + stem + tail + ".xml";
    assert dir + "/" + sub + "/" + pre + stem + tail + ".xml" == dir + "/" + sub + "/" + name;
    OutputPathTwoUp(dir, sub, name);
    StripSetSuffix(pre, stem, tail, ".xml");
  }

  // ---------------------------------------------------------------------------
  // The whole of `fix`
  // ---------------------------------------------------------------------------

  /** `fix(xml_path)`: the document to write and where. A missing file raises from
      `etree.parse`; a malformed one is caught, but the handler prints `file_path`, a
      name that `fix` does not define. */
  function FixDocument(xmlPath: string, doc: Document<seq<TextEquiv>>): (r: Result<(string, seq<TextEquiv>), Fault>)
    ensures doc.Unreadable? ==> r == Err(MissingFile)
    ensures doc.Malformed? ==> r == Err(UndefinedName)
    ensures doc.Parsed? ==> (r.Ok? <==> FixAll(doc.content).Ok?)
    ensures r.Ok? ==> r.value.0 == OutputPath(xmlPath) && r.value.1 == FixAll(doc.content).value
  {
    match doc
    case Unreadable => Err(MissingFile)
    case Malformed => Err(UndefinedName)
    case Parsed(es) =>
      var fixed :- FixAll(es);
      Ok((OutputPath(xmlPath), fixed))
  }

  // ---------------------------------------------------------------------------
  // The loop, in place
  // ---------------------------------------------------------------------------

  /** Lines 32-45 on the selected elements: each child's `.text` is overwritten as soon
      as it is shifted. */
  method Fix(equivs: array<TextEquiv>) returns (r: Result<(), Fault>)
    modifies equivs
    ensures var spec := FixAll(old(equivs[..]));
      && (r.Ok? <==> spec.Ok?)
      && (r.Err? ==> r.error == spec.error)
      && (r.Ok? ==> equivs[..] == spec.value)
  {
    ghost var orig := equivs[..];
    assert orig[0..] == orig;
    assert forall v: seq<TextEquiv> :: [] + v == v;
    for i := 0 to equivs.Length
      invariant equivs[i..] == orig[i..]
      invariant FixAll(orig) == After(equivs[..i], FixAll(orig[i..]))
    {
      assert orig[i..][1..] == orig[i + 1..];
      ghost var before := equivs[..];
      var e := equivs[i];
      if e.plainText.None? {
        return Err(NoPlainText);
      }
      if e.plainText.value.Some? {
        var s := Shift(e.plainText.value.value);
        if s.Err? {
          return Err(s.error);
        }
        equivs[i] := equivs[i].(plainText := Some(Some(s.value)));
      }
      if e.unicode.None? {
        return Err(NoUnicode);
      }
      if e.unicode.value.Some? {
        var s := Shift(e.unicode.value.value);
        if s.Err? {
          return Err(s.error);
        }
        equivs[i] := equivs[i].(unicode := Some(Some(s.value)));
      }
      assert FixEquiv(orig[i]) == Ok(equivs[i]);
      assert equivs[..i + 1] == before[..i] + [equivs[i]];
      assert equivs[i + 1..] == before[i + 1..];
      assert forall v: seq<TextEquiv> :: before[..i] + ([equivs[i]] + v) == equivs[..i + 1] + v;
    }
    assert equivs[..equivs.Length] == equivs[..];
    assert orig[equivs.Length..] == [];
    return Ok(());
  }
}
