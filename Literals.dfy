/** Python's `repr` of a string, `str` of a dict with two string entries, and
    `';'.join` of such dicts, with a reader that undoes them: the text the
    genealogy extractor writes into its campaign and event cells. */
module Literals {
  import opened Wrappers
  import opened Text

  // ---------------------------------------------------------------------------
  // repr(s)
  // ---------------------------------------------------------------------------

  /** The characters up to U+00FF that `repr` does not print as themselves and has
      no named escape for: the C0 controls other than tab, newline and carriage
      return, DEL, the C1 controls, the no-break space and the soft hyphen. */
  predicate HexEscaped(c: char) {
    (c < ' ' && c != '\t' && c != '\n' && c != '\r') || ('\U{7F}' <= c <= '\U{A0}') || c == '\U{AD}'
  }

  /** A lower-case hexadecimal digit. */
  function HexDigit(d: nat): char
    requires d < 16
  {
    if d < 10 then ('0' as int + d) as char else ('a' as int + d - 10) as char
  }

  function HexValue(c: char): (r: Option<nat>)
    ensures r.Some? ==> r.value < 16
  {
    if '0' <= c <= '9' then Some(c as int - '0' as int)
    else if 'a' <= c <= 'f' then Some(c as int - 'a' as int + 10)
    else None
  }

  /** How `repr` writes one character inside a literal quoted with `q`. */
  function EscapeChar(c: char, q: char): string {
    if c == q || c == '\\' then ['\\', c]
    else if c == '\t' then "\\t"
    else if c == '\n' then "\\n"
    else if c == '\r' then "\\r"
    else if HexEscaped(c) then ['\\', 'x', HexDigit(c as int / 16), HexDigit(c as int % 16)]
    else [c]
  }

  function Escaper(q: char): char -> string {
    c => EscapeChar(c, q)
  }

  /** `''.join(f(c) for c in s)` */
  function FlatMap(f: char -> string, s: string): string
    decreases |s|
  {
    if s == [] then "" else f(s[0]) + FlatMap(f, s[1..])
  }

  /** The quote `repr` chooses: a double quote only when the text holds a single
      quote and no double quote. */
  function QuoteOf(s: string): char {
    if '\'' in s && '"' !in s then '"' else '\''
  }

  /** `repr(s)` */
  function Repr(s: string): string {
    [QuoteOf(s)] + FlatMap(Escaper(QuoteOf(s)), s) + [QuoteOf(s)]
  }

  // ---------------------------------------------------------------------------
  // Reading a literal back
  // ---------------------------------------------------------------------------

  function Prepend(c: char, r: Option<(string, string)>): (p: Option<(string, string)>)
    ensures p.Some? <==> r.Some?
    ensures p.Some? ==> p.value.1 == r.value.1
  {
    match r
    case None => None
    case Some((v, rest)) => Some(([c] + v, rest))
  }

  /** Reads one character or escape sequence at the front of `t`, which does not
      start with the closing quote: the character it stands for and the rest. */
  function UnescapeOne(t: string): (r: Option<(char, string)>)
    requires t != []
    ensures r.Some? ==> |r.value.1| < |t|
  {
    if t[0] != '\\' then Some((t[0], t[1..]))
    else if |t| < 2 then None
    else
      var e := t[1];
      if e == '\\' || e == '\'' || e == '"' then Some((e, t[2..]))
      else if e == 't' then Some(('\t', t[2..]))
      else if e == 'n' then Some(('\n', t[2..]))
      else if e == 'r' then Some(('\r', t[2..]))
      else if e == 'x' && |t| >= 4 && HexValue(t[2]).Some? && HexValue(t[3]).Some? then
        Some(((HexValue(t[2]).value * 16 + HexValue(t[3]).value) as char, t[4..]))
      else None
  }

  /** Reads the body of a literal quoted with `q`, up to and including its closing
      quote: the text the body stands for and what follows the quote. */
  function Unescape(t: string, q: char): (r: Option<(string, string)>)
    ensures r.Some? ==> |r.value.1| < |t|
    decreases |t|
  {
    if t == [] then None
    else if t[0] == q then Some(("", t[1..]))
    else
      match UnescapeOne(t)
      case None => None
      case Some((c, rest)) => Prepend(c, Unescape(rest, q))
  }

  /** Reads one quoted literal at the front of `t`: its value and the rest of `t`. */
  function ReadRepr(t: string): (r: Option<(string, string)>)
    ensures r.Some? ==> |r.value.1| < |t|
  {
    if t != [] && (t[0] == '\'' || t[0] == '"') then Unescape(t[1..], t[0]) else None
  }

  lemma HexRoundTrip(c: char)
    requires HexEscaped(c)
    ensures HexValue(HexDigit(c as int / 16)) == Some(c as int / 16)
    ensures HexValue(HexDigit(c as int % 16)) == Some(c as int % 16)
    ensures (c as int / 16 * 16 + c as int % 16) as char == c
  {
  }

  /** Reading back one escaped character: it does not look like the closing quote,
      and the reader stops right after it. */
  lemma UnescapeChar(c: char, q: char, tail: string)
    requires q == '\'' || q == '"'
    ensures EscapeChar(c, q) != [] && EscapeChar(c, q)[0] != q
    ensures UnescapeOne(EscapeChar(c, q) + tail) == Some((c, tail))
  {
    var t := EscapeChar(c, q) + tail;
    if c == q || c == '\\' {
      assert t[2..] == tail;
    } else if c == '\t' || c == '\n' || c == '\r' {
      assert t[2..] == tail;
    } else if HexEscaped(c) {
      HexRoundTrip(c);
      assert t[4..] == tail;
    } else {
      assert t[1..] == tail;
    }
  }

  /** `esc` writes every character as a non-empty text that cannot be taken for
      the closing quote `q` and that `UnescapeOne` reads back. */
  ghost predicate Undoes(esc: char -> string, q: char) {
    forall c, tail :: esc(c) != [] && esc(c)[0] != q && UnescapeOne(esc(c) + tail) == Some((c, tail))
  }

  /** Reading back a body written with any `esc` that the reader undoes one
      character at a time, and its closing quote. */
  lemma {:induction false} UnescapeAll(esc: char -> string, q: char, s: string, rest: string)
    requires Undoes(esc, q)
    ensures Unescape(FlatMap(esc, s) + [q] + rest, q) == Some((s, rest))
    decreases |s|
  {
    if s == [] {
      assert FlatMap(esc, s) + [q] + rest == [q] + rest;
      assert ([q] + rest)[1..] == rest;
    } else {
      var tail := FlatMap(esc, s[1..]) + [q] + rest;
      var t := esc(s[0]) + tail;
      assert FlatMap(esc, s) + [q] + rest == t;
      assert t[0] == esc(s[0])[0];
      UnescapeAll(esc, q, s[1..], rest);
      assert [s[0]] + s[1..] == s;
    }
  }

  /** `ast.literal_eval(repr(s)) == s`: reading `repr(s)` gives `s` back, and stops
      right after the closing quote. */
  lemma ReprRoundTrip(s: string, rest: string)
    ensures ReadRepr(Repr(s) + rest) == Some((s, rest))
  {
    var q := QuoteOf(s);
    var esc := Escaper(q);
    var t := Repr(s) + rest;
    assert t[1..] == FlatMap(esc, s) + [q] + rest;
    forall c, tail ensures esc(c) != [] && esc(c)[0] != q && UnescapeOne(esc(c) + tail) == Some((c, tail)) {
      UnescapeChar(c, q, tail);
    }
    UnescapeAll(esc, q, s, rest);
  }

  // ---------------------------------------------------------------------------
  // str({k1: a, k2: b}) and ';'.join of them
  // ---------------------------------------------------------------------------

  /** `str({k1: a, k2: b})` */
  function ShowPair(k1: string, k2: string, a: string, b: string): string {
    "{" + Repr(k1) + ": " + Repr(a) + ", " + Repr(k2) + ": " + Repr(b) + "}"
  }

  /** `str` of each dict with the keys `k1` and `k2`. */
  function PairText(k1: string, k2: string): ((string, string)) -> string {
    (p: (string, string)) => ShowPair(k1, k2, p.0, p.1)
  }

  /** `';'.join([str(d) for d in ds])` for dicts with the keys `k1` and `k2`. */
  function ShowPairs(k1: string, k2: string, ps: seq<(string, string)>): string {
    Join(Shows(PairText(k1, k2), ps), ";")
  }

  /** The rest of `t` after the literal text `w`, if `t` starts with it. */
  function Expect(t: string, w: string): (r: Option<string>)
    ensures r.Some? ==> |r.value| == |t| - |w|
  {
    if |w| <= |t| && t[..|w|] == w then Some(t[|w|..]) else None
  }

  /** Reads one dict display with the keys `k1` and `k2` at the front of `t`. */
  function ReadPair(k1: string, k2: string, t: string): (r: Option<((string, string), string)>)
    ensures r.Some? ==> |r.value.1| < |t|
  {
    match Expect(t, "{" + Repr(k1) + ": ")
    case None => None
    case Some(t1) =>
      match ReadRepr(t1)
      case None => None
      case Some((a, t2)) =>
        match Expect(t2, ", " + Repr(k2) + ": ")
        case None => None
        case Some(t3) =>
          match ReadRepr(t3)
          case None => None
          case Some((b, t4)) =>
            match Expect(t4, "}")
            case None => None
            case Some(t5) => Some(((a, b), t5))
  }

  /** A reader that consumes something whenever it succeeds. */
  ghost predicate Consumes<T>(read: string -> Option<(T, string)>) {
    forall u :: read(u).Some? ==> |read(u).value.1| < |u|
  }

  /** Reads one or more items separated by `;` with `read`, up to the end of `t`. */
  function ReadSep<T>(read: string -> Option<(T, string)>, t: string): Option<seq<T>>
    requires Consumes(read)
    decreases |t|
  {
    match read(t)
    case None => None
    case Some((p, rest)) =>
      if rest == [] then Some([p])
      else if rest[0] != ';' then None
      else
        match ReadSep(read, rest[1..])
        case None => None
        case Some(ps) => Some([p] + ps)
  }

  function PairReader(k1: string, k2: string): (r: string -> Option<((string, string), string)>)
    ensures Consumes(r)
  {
    t => ReadPair(k1, k2, t)
  }

  /** Reads a cell written by `ShowPairs`: the empty cell is the empty list. */
  function ReadPairs(k1: string, k2: string, t: string): Option<seq<(string, string)>> {
    if t == [] then Some([]) else ReadSep(PairReader(k1, k2), t)
  }

  lemma ExpectFront(w: string, rest: string)
    ensures Expect(w + rest, w) == Some(rest)
  {
    assert (w + rest)[..|w|] == w;
    assert (w + rest)[|w|..] == rest;
  }

  lemma PairPieces(r1: string, ra: string, r2: string, rb: string, rest: string)
    ensures "{" + r1 + ": " + ra + ", " + r2 + ": " + rb + "}" + rest
         == ("{" + r1 + ": ") + (ra + ((", " + r2 + ": ") + (rb + ("}" + rest))))
  {
  }

  /** Reading back one dict display. */
  lemma ReadPairRoundTrip(k1: string, k2: string, a: string, b: string, rest: string)
    ensures ReadPair(k1, k2, ShowPair(k1, k2, a, b) + rest) == Some(((a, b), rest))
  {
    var p1 := "{" + Repr(k1) + ": ";
    var p2 := ", " + Repr(k2) + ": ";
    var t4 := "}" + rest;
    var t3 := Repr(b) + t4;
    var t2 := p2 + t3;
    var t1 := Repr(a) + t2;
    PairPieces(Repr(k1), Repr(a), Repr(k2), Repr(b), rest);
    ExpectFront(p1, t1);
    ReprRoundTrip(a, t2);
    ExpectFront(p2, t3);
    ReprRoundTrip(b, t4);
    ExpectFront("}", rest);
  }

  /** Items written with `show`, joined with `;`, read back with a `read` that
      undoes `show` and stops right after it. */
  lemma {:induction false} ReadSepRoundTrip<T>(read: string -> Option<(T, string)>, show: T -> string, ps: seq<T>)
    requires Consumes(read)
    requires forall p, rest :: read(show(p) + rest) == Some((p, rest))
    requires ps != []
    ensures ReadSep(read, Join(Shows(show, ps), ";")) == Some(ps)
    decreases |ps|
  {
    var ds := Shows(show, ps);
    if |ps| == 1 {
      assert Join(ds, ";") == show(ps[0]) + "";
      assert ps == [ps[0]];
    } else {
      var t := Join(ds[1..], ";");
      assert Join(ds, ";") == show(ps[0]) + (";" + t);
      assert ds[1..] == Shows(show, ps[1..]);
      ReadSepRoundTrip(read, show, ps[1..]);
      assert (";" + t)[1..] == t;
      assert [ps[0]] + ps[1..] == ps;
    }
  }

  /** A cell of dicts reads back into exactly the dicts written, in order: no
      value, however many quotes, braces or `;` it holds, can be confused with
      the separators around it. */
  lemma ShowPairsRoundTrip(k1: string, k2: string, ps: seq<(string, string)>)
    ensures ReadPairs(k1, k2, ShowPairs(k1, k2, ps)) == Some(ps)
  {
    if ps != [] {
      var read := PairReader(k1, k2);
      var show := PairText(k1, k2);
      forall p: (string, string), rest: string
        ensures read(show(p) + rest) == Some((p, rest))
      {
        ReadPairRoundTrip(k1, k2, p.0, p.1, rest);
      }
      ReadSepRoundTrip(read, show, ps);
      assert read([]).None?;
    }
  }

  /** The cell is empty exactly when there are no dicts to write. */
  lemma ShowPairsEmpty(k1: string, k2: string, ps: seq<(string, string)>)
    ensures ShowPairs(k1, k2, ps) == [] <==> ps == []
  {
    ShowPairsRoundTrip(k1, k2, ps);
  }
}
