/** Character classes and string operations of Python that the scripts rely on:
    the classes behind `\s`, `\w`, `[a-z]` and `re.IGNORECASE`, `str.split`,
    `str.join`, `str.strip`, and `int()` on a decimal literal. */
module Text {
  import opened Wrappers

  // ---------------------------------------------------------------------------
  // Character classes
  // ---------------------------------------------------------------------------

  /** `str.isspace()`, which is also the class `\s` of a str pattern. */
  predicate IsSpace(c: char) {
    ('\t' <= c <= '\r') || ('\U{1C}' <= c <= ' ') || c == '\U{85}' || c == '\U{A0}'
    || c == '\U{1680}' || ('\U{2000}' <= c <= '\U{200A}') || c == '\U{2028}'
    || c == '\U{2029}' || c == '\U{202F}' || c == '\U{205F}' || c == '\U{3000}'
  }

  /** `[0-9]` */
  predicate IsDigit(c: char) { '0' <= c <= '9' }

  /** `[1-9]` */
  predicate IsNonZeroDigit(c: char) { '1' <= c <= '9' }

  /** `[A-Z]` without re.IGNORECASE */
  predicate IsUpper(c: char) { 'A' <= c <= 'Z' }

  /** `[a-z]` without re.IGNORECASE */
  predicate IsLower(c: char) { 'a' <= c <= 'z' }

  /** `[a-zA-Z]`, `[A-Z]` or `[a-z]` under re.IGNORECASE: the 52 ASCII letters and
      the four letters whose case folding reaches ASCII (U+0130, U+0131, U+017F, U+212A). */
  predicate IsLetterIgnoreCase(c: char) {
    IsUpper(c) || IsLower(c) || c == '\U{130}' || c == '\U{131}' || c == '\U{17F}' || c == '\U{212A}'
  }

  /** `\w`: ASCII letters, digits and `_`, the alphanumerics of Latin-1 and the Latin
      Extended-A and -B blocks (U+0100 to U+024F). */
  predicate IsWordChar(c: char) {
    IsUpper(c) || IsLower(c) || IsDigit(c) || c == '_'
    || c == '\U{AA}' || c == '\U{B2}' || c == '\U{B3}' || c == '\U{B5}' || c == '\U{B9}'
    || c == '\U{BA}' || ('\U{BC}' <= c <= '\U{BE}')
    || ('\U{C0}' <= c <= '\U{24F}' && c != '\U{D7}' && c != '\U{F7}')
  }

  /** Does `c` match the pattern character `p` (written in lower case) under re.IGNORECASE? */
  predicate FoldsTo(c: char, p: char) {
    c == p
    || (IsLower(p) && c as int == p as int - 32)
    || (p == 'i' && (c == '\U{130}' || c == '\U{131}'))
    || (p == 's' && c == '\U{17F}')
    || (p == 'k' && c == '\U{212A}')
  }

  // ---------------------------------------------------------------------------
  // Positions in a string
  // ---------------------------------------------------------------------------

  /** The literal `w` occurs at position `i` of `t`. */
  predicate MatchesAt(t: string, i: nat, w: string) {
    i + |w| <= |t| && t[i..i + |w|] == w
  }

  /** The lower-case literal `w` occurs at position `i` of `t` under re.IGNORECASE. */
  predicate MatchesIgnoreCaseAt(t: string, i: nat, w: string) {
    i + |w| <= |t| && forall k :: 0 <= k < |w| ==> FoldsTo(t[i + k], w[k])
  }

  /** `w in t` (also `re.search(w, t)` for a pattern without special characters). */
  predicate Contains(t: string, w: string) {
    exists i :: 0 <= i <= |t| - |w| && MatchesAt(t, i, w)
  }

  /** `\b` just before position `i`, when `t[i]` is a word character. */
  predicate BoundaryBefore(t: string, i: nat)
    requires i <= |t|
  {
    i == 0 || !IsWordChar(t[i - 1])
  }

  /** `\b` at position `i`, when `t[i - 1]` is a word character. */
  predicate BoundaryAfter(t: string, i: nat)
    requires i <= |t|
  {
    i == |t| || !IsWordChar(t[i])
  }

  /** Every character of `t[lo..hi]` satisfies `P`. */
  predicate AllIn(t: string, lo: nat, hi: nat, P: char -> bool)
    requires lo <= hi <= |t|
  {
    forall k :: lo <= k < hi ==> P(t[k])
  }

  /** The first position at or after `p` whose character does not satisfy `P`. */
  function SkipWhile(t: string, p: nat, P: char -> bool): (e: nat)
    requires p <= |t|
    ensures p <= e <= |t|
    ensures AllIn(t, p, e, P)
    ensures e < |t| ==> !P(t[e])
    decreases |t| - p
  {
    if p < |t| && P(t[p]) then SkipWhile(t, p + 1, P) else p
  }

  /** A run of `P` from `p` that stops at `q` is the run `SkipWhile` finds. */
  lemma {:induction false} SkipWhileExact(t: string, p: nat, q: nat, P: char -> bool)
    requires p <= q <= |t| && AllIn(t, p, q, P) && (q == |t| || !P(t[q]))
    ensures SkipWhile(t, p, P) == q
    decreases q - p
  {
    if p < q {
      SkipWhileExact(t, p + 1, q, P);
    }
  }

  function SkipSpaces(t: string, p: nat): (e: nat)
    requires p <= |t|
    ensures p <= e <= |t|
    ensures AllIn(t, p, e, IsSpace)
    ensures e < |t| ==> !IsSpace(t[e])
  {
    SkipWhile(t, p, IsSpace)
  }

  predicate NotNewline(c: char) { c != '\n' }

  /** Where a `.` run starting at `p` must stop: the next '\n', or the end. */
  function LineEnd(t: string, p: nat): (e: nat)
    requires p <= |t|
    ensures p <= e <= |t|
    ensures AllIn(t, p, e, NotNewline)
    ensures e < |t| ==> t[e] == '\n'
  {
    SkipWhile(t, p, NotNewline)
  }

  /** What a run of `.` starting at `q` covers: the rest of the line. */
  function LineFrom(t: string, q: nat): string
    requires q <= |t|
    decreases |t| - q
  {
    if q < |t| && t[q] != '\n' then [t[q]] + LineFrom(t, q + 1) else []
  }

  lemma {:induction false} LineFromSlice(t: string, q: nat)
    requires q <= |t|
    ensures LineFrom(t, q) == t[q..LineEnd(t, q)]
    decreases |t| - q
  {
    if q < |t| && t[q] != '\n' {
      LineFromSlice(t, q + 1);
      assert t[q..LineEnd(t, q)] == [t[q]] + t[q + 1..LineEnd(t, q + 1)];
    }
  }

  /** The least `k` in `[lo, hi)` with `P(k)`. */
  function FindFirst(P: nat -> bool, lo: nat, hi: nat): (r: Option<nat>)
    ensures r.Some? ==> lo <= r.value < hi && P(r.value)
    ensures r.Some? ==> forall k :: lo <= k < r.value ==> !P(k)
    ensures r.None? ==> forall k :: lo <= k < hi ==> !P(k)
    decreases hi - lo
  {
    if lo >= hi then None else if P(lo) then Some(lo) else FindFirst(P, lo + 1, hi)
  }

  /** The greatest `k` in `[lo, hi)` with `P(k)`. */
  function FindLast(P: nat -> bool, lo: nat, hi: nat): (r: Option<nat>)
    ensures r.Some? ==> lo <= r.value < hi && P(r.value)
    ensures r.Some? ==> forall k :: r.value < k < hi ==> !P(k)
    ensures r.None? ==> forall k :: lo <= k < hi ==> !P(k)
    decreases hi - lo
  {
    if lo >= hi then None else if P(hi - 1) then Some(hi - 1) else FindLast(P, lo, hi - 1)
  }

  /** `FindFirst` finds the least position with `P`, whichever it is. */
  lemma {:induction false} FindFirstIs(P: nat -> bool, lo: nat, hi: nat, p: nat)
    requires lo <= p < hi && P(p)
    requires forall k :: lo <= k < p ==> !P(k)
    ensures FindFirst(P, lo, hi) == Some(p)
    decreases hi - lo
  {
    if lo < p {
      FindFirstIs(P, lo + 1, hi, p);
    }
  }

  /** `FindLast` finds the greatest position with `P`, whichever it is. */
  lemma {:induction false} FindLastIs(P: nat -> bool, lo: nat, hi: nat, p: nat)
    requires lo <= p < hi && P(p)
    requires forall k :: p < k < hi ==> !P(k)
    ensures FindLast(P, lo, hi) == Some(p)
    decreases hi - lo
  {
    if p < hi - 1 {
      FindLastIs(P, lo, hi - 1, p);
    }
  }

  /** `\s+` can cover `t[p..b]` and a `.` can then match `t[b]`. */
  predicate SpaceDotAt(t: string, p: nat, b: nat) {
    p < b < |t| && AllIn(t, p, b, IsSpace) && t[b] != '\n'
  }

  /** Where the group of `\s+(.+)` starts when the pattern is tried at `p`: `\s+` is
      greedy, so this is the greatest `b` for which `SpaceDotAt(t, p, b)` holds. */
  function SpaceDotStart(t: string, p: nat): (r: Option<nat>)
    requires p <= |t|
    ensures r.Some? ==> SpaceDotAt(t, p, r.value)
    ensures r.Some? ==> forall b :: r.value < b && SpaceDotAt(t, p, b) ==> false
    ensures r.None? ==> forall b :: !SpaceDotAt(t, p, b)
  {
    var e := SkipSpaces(t, p);
    if e == p then None
    else if e < |t| then Some(e)
    else LastNonNewline(t, p + 1, e)
  }

  /** The greatest `k` in `[lo, hi)` with `t[k] != '\n'`. */
  function LastNonNewline(t: string, lo: nat, hi: nat): (r: Option<nat>)
    requires hi <= |t|
    ensures r.Some? ==> lo <= r.value < hi && t[r.value] != '\n'
    ensures r.Some? ==> forall k :: r.value < k < hi ==> t[k] == '\n'
    ensures r.None? ==> forall k :: lo <= k < hi ==> t[k] == '\n'
    decreases hi
  {
    if lo >= hi then None
    else if t[hi - 1] != '\n' then Some(hi - 1)
    else LastNonNewline(t, lo, hi - 1)
  }

  // ---------------------------------------------------------------------------
  // str.strip
  // ---------------------------------------------------------------------------

  function DropPrefixWhile(s: string, P: char -> bool): (r: string)
    ensures |r| <= |s|
    ensures forall k :: 0 <= k < |s| - |r| ==> P(s[k])
    ensures r != [] ==> !P(r[0])
    decreases |s|
  {
    if s != [] && P(s[0]) then DropPrefixWhile(s[1..], P) else s
  }

  function DropSuffixWhile(s: string, P: char -> bool): (r: string)
    ensures |r| <= |s|
    ensures forall k :: |r| <= k < |s| ==> P(s[k])
    ensures r != [] ==> !P(r[|r| - 1])
    decreases |s|
  {
    if s != [] && P(s[|s| - 1]) then DropSuffixWhile(s[..|s| - 1], P) else s
  }

  /** Remove the characters satisfying `P` from both ends: the shape of `str.strip`. */
  function StripWhere(s: string, P: char -> bool): string {
    DropSuffixWhile(DropPrefixWhile(s, P), P)
  }

  /** `s.strip()` */
  function Strip(s: string): string {
    StripWhere(s, IsSpace)
  }

  /** `s.strip(chars)`: `chars` is a SET of characters, not a prefix or suffix. */
  function StripChars(s: string, chars: string): string {
    StripWhere(s, c => c in chars)
  }

  /** What `DropPrefixWhile` keeps is a suffix of its argument. */
  lemma {:induction false} DropPrefixIsSuffix(s: string, P: char -> bool)
    ensures DropPrefixWhile(s, P) == s[|s| - |DropPrefixWhile(s, P)|..]
    decreases |s|
  {
    if s != [] && P(s[0]) {
      DropPrefixIsSuffix(s[1..], P);
    }
  }

  /** What `DropSuffixWhile` keeps is a prefix of its argument. */
  lemma {:induction false} DropSuffixIsPrefix(s: string, P: char -> bool)
    ensures DropSuffixWhile(s, P) == s[..|DropSuffixWhile(s, P)|]
    decreases |s|
  {
    if s != [] && P(s[|s| - 1]) {
      DropSuffixIsPrefix(s[..|s| - 1], P);
    }
  }

  lemma DropPrefixNone(s: string, P: char -> bool)
    requires s == [] || !P(s[0])
    ensures DropPrefixWhile(s, P) == s
  {
  }

  lemma DropSuffixNone(s: string, P: char -> bool)
    requires s == [] || !P(s[|s| - 1])
    ensures DropSuffixWhile(s, P) == s
  {
  }

  /** `StripWhere` keeps a slice of its argument that neither starts nor ends with `P`,
      and drops only characters satisfying `P`. */
  lemma StripWhereShape(s: string, P: char -> bool)
    ensures var r := StripWhere(s, P);
      exists i, j :: 0 <= i <= j <= |s| && r == s[i..j]
        && (forall k :: 0 <= k < i ==> P(s[k]))
        && (forall k :: j <= k < |s| ==> P(s[k]))
        && (r != [] ==> !P(r[0]) && !P(r[|r| - 1]))
  {
    var d := DropPrefixWhile(s, P);
    var r := DropSuffixWhile(d, P);
    var i := |s| - |d|;
    var j := i + |r|;
    DropPrefixIsSuffix(s, P);
    DropSuffixIsPrefix(d, P);
    assert r == s[i..j];
    forall k | j <= k < |s| ensures P(s[k]) {
      assert s[k] == d[k - i];
    }
    if r != [] {
      assert r[0] == d[0];
    }
  }

  /** Stripping twice strips nothing more. */
  lemma {:induction false} StripWhereIdempotent(s: string, P: char -> bool)
    ensures StripWhere(StripWhere(s, P), P) == StripWhere(s, P)
  {
    var d := DropPrefixWhile(s, P);
    var r := DropSuffixWhile(d, P);
    if r != [] {
      DropSuffixIsPrefix(d, P);
      assert r[0] == d[0];
    }
    DropPrefixNone(r, P);
    DropSuffixNone(r, P);
  }

  lemma {:induction false} DropPrefixOver(pre: string, rest: string, P: char -> bool)
    requires forall k :: 0 <= k < |pre| ==> P(pre[k])
    requires rest != [] && !P(rest[0])
    ensures DropPrefixWhile(pre + rest, P) == rest
    decreases |pre|
  {
    if pre == [] {
      assert pre + rest == rest;
    } else {
      assert (pre + rest)[1..] == pre[1..] + rest;
      DropPrefixOver(pre[1..], rest, P);
    }
  }

  lemma {:induction false} DropSuffixOver(rest: string, suf: string, P: char -> bool)
    requires forall k :: 0 <= k < |suf| ==> P(suf[k])
    requires rest != [] && !P(rest[|rest| - 1])
    ensures DropSuffixWhile(rest + suf, P) == rest
    decreases |suf|
  {
    if suf == [] {
      assert rest + suf == rest;
    } else {
      assert (rest + suf)[..|rest + suf| - 1] == rest + suf[..|suf| - 1];
      DropSuffixOver(rest, suf[..|suf| - 1], P);
    }
  }

  /** `(pre + stem + suf).strip(chars)` is `stem` when `pre` and `suf` are made of
      characters of `chars` and `stem` neither starts nor ends with one. */
  lemma StripCharsAround(pre: string, stem: string, suf: string, chars: string)
    requires forall k :: 0 <= k < |pre| ==> pre[k] in chars
    requires forall k :: 0 <= k < |suf| ==> suf[k] in chars
    requires stem != [] && stem[0] !in chars && stem[|stem| - 1] !in chars
    ensures StripChars(pre + stem + suf, chars) == stem
  {
    var P := c => c in chars;
    assert pre + stem + suf == pre + (stem + suf);
    DropPrefixOver(pre, stem + suf, P);
    DropSuffixOver(stem, suf, P);
  }

  /** A file name `pre + stem + tail + suffix` stripped with the characters of `suffix`
      loses `suffix` together with the runs `pre` and `tail` made of those characters. */
  lemma StripSetSuffix(pre: string, stem: string, tail: string, suffix: string)
    requires forall k :: 0 <= k < |pre| ==> pre[k] in suffix
    requires forall k :: 0 <= k < |tail| ==> tail[k] in suffix
    requires stem != [] && stem[0] !in suffix && stem[|stem| - 1] !in suffix
    ensures StripChars(pre + stem + tail + suffix, suffix) == stem
  {
    var suf := tail + suffix;
    forall k | 0 <= k < |suf| ensures suf[k] in suffix {
      if k >= |tail| {
        assert suf[k] == suffix[k - |tail|];
      }
    }
    StripCharsAround(pre, stem, suf, suffix);
    assert pre + stem + suf == pre + stem + tail + suffix;
  }

  // ---------------------------------------------------------------------------
  // str.split and str.join
  // ---------------------------------------------------------------------------

  /** The first position at or after `p` holding `c`. */
  function IndexFrom(s: string, c: char, p: nat): (r: Option<nat>)
    requires p <= |s|
    ensures r.Some? ==> p <= r.value < |s| && s[r.value] == c
    ensures r.Some? ==> forall k :: p <= k < r.value ==> s[k] != c
    ensures r.None? ==> forall k :: p <= k < |s| ==> s[k] != c
    decreases |s| - p
  {
    if p == |s| then None else if s[p] == c then Some(p) else IndexFrom(s, c, p + 1)
  }

  /** `s.find(c)`, with `None` for -1. */
  function IndexOf(s: string, c: char): (r: Option<nat>)
    ensures r.Some? ==> r.value < |s| && s[r.value] == c && c !in s[..r.value]
    ensures r.None? ==> c !in s
  {
    var r := IndexFrom(s, c, 0);
    assert r.Some? ==> forall k :: 0 <= k < r.value ==> s[..r.value][k] != c;
    r
  }

  /** `s.split(c)`: every occurrence of `c` separates two pieces; empty pieces are kept. */
  function Split(s: string, c: char): (r: seq<string>)
    ensures |r| >= 1
    ensures forall k :: 0 <= k < |r| ==> c !in r[k]
    decreases |s|
  {
    match IndexOf(s, c)
    case None => [s]
    case Some(i) => [s[..i]] + Split(s[i + 1..], c)
  }

  /** `sep.join(ts)` */
  function Join(ts: seq<string>, sep: string): string
    decreases |ts|
  {
    if |ts| == 0 then "" else if |ts| == 1 then ts[0] else ts[0] + sep + Join(ts[1..], sep)
  }

  /** `[show(p) for p in ps]` */
  function Shows<T>(show: T -> string, ps: seq<T>): (r: seq<string>)
    ensures |r| == |ps| && forall k :: 0 <= k < |ps| ==> r[k] == show(ps[k])
  {
    seq(|ps|, k requires 0 <= k < |ps| => show(ps[k]))
  }

  lemma ShowsTail<T>(show: T -> string, ps: seq<T>)
    requires ps != []
    ensures Shows(show, ps) == [show(ps[0])] + Shows(show, ps[1..])
  {
    assert Shows(show, ps)[1..] == Shows(show, ps[1..]);
  }

  function Last<T>(s: seq<T>): T
    requires |s| > 0
  {
    s[|s| - 1]
  }

  /** `s.split(c)[-1]` */
  function LastPiece(s: string, c: char): (r: string)
    ensures c !in r
  {
    Last(Split(s, c))
  }

  /** A string without the separator is its own last piece. */
  lemma LastPieceWithoutSeparator(s: string, c: char)
    requires c !in s
    ensures LastPiece(s, c) == s
  {
    assert IndexOf(s, c).None?;
  }

  /** Joining the pieces with the separator gives the string back. */
  lemma {:induction false} JoinSplit(s: string, c: char)
    ensures Join(Split(s, c), [c]) == s
    decreases |s|
  {
    match IndexOf(s, c)
    case None =>
    case Some(i) =>
      var rest := Split(s[i + 1..], c);
      JoinSplit(s[i + 1..], c);
      var pieces := [s[..i]] + rest;
      assert Split(s, c) == pieces;
      assert pieces[1..] == rest;
      assert Join(pieces, [c]) == s[..i] + [c] + Join(rest, [c]);
      assert s == s[..i] + [c] + s[i + 1..];
  }

  /** Splitting a join of pieces free of the separator gives the pieces back. */
  lemma {:induction false} SplitJoin(ts: seq<string>, c: char)
    requires |ts| >= 1
    requires forall k :: 0 <= k < |ts| ==> c !in ts[k]
    ensures Split(Join(ts, [c]), c) == ts
    decreases |ts|
  {
    if |ts| > 1 {
      var s := Join(ts, [c]);
      var rest := Join(ts[1..], [c]);
      assert s == ts[0] + [c] + rest;
      assert IndexOf(s, c) == Some(|ts[0]|) by {
        assert s[|ts[0]|] == c;
        assert s[..|ts[0]|] == ts[0];
        assert forall k :: 0 <= k < |ts[0]| ==> s[k] == ts[0][k];
      }
      assert s[|ts[0]| + 1..] == rest;
      SplitJoin(ts[1..], c);
    } else {
      assert IndexOf(ts[0], c).None?;
    }
  }

  /** `find` gives the first occurrence. */
  lemma IndexOfFirst(s: string, c: char, i: nat)
    requires i < |s| && s[i] == c && c !in s[..i]
    ensures IndexOf(s, c) == Some(i)
  {
    assert s[..i + 1][i] == c;
  }

  /** Splitting at one separator splits both sides apart. */
  lemma {:induction false} SplitConcat(a: string, c: char, b: string)
    ensures Split(a + [c] + b, c) == Split(a, c) + Split(b, c)
    decreases |a|
  {
    var s := a + [c] + b;
    match IndexOf(a, c)
    case None =>
      assert s[..|a|] == a;
      IndexOfFirst(s, c, |a|);
      assert s[|a| + 1..] == b;
    case Some(i) =>
      assert s[..i] == a[..i];
      IndexOfFirst(s, c, i);
      assert s[i + 1..] == a[i + 1..] + [c] + b;
      SplitConcat(a[i + 1..], c, b);
  }

  /** The last piece is what follows the last separator. */
  lemma {:induction false} LastPieceIsSuffix(s: string, c: char)
    ensures var r := LastPiece(s, c);
      |r| <= |s| && s[|s| - |r|..] == r && (|r| < |s| ==> s[|s| - |r| - 1] == c)
    decreases |s|
  {
    match IndexOf(s, c)
    case None =>
    case Some(i) =>
      var t := s[i + 1..];
      LastPieceIsSuffix(t, c);
      LastPieceStep(s, c, i);
      var r := LastPiece(t, c);
      assert s[|s| - |r|..] == t[|t| - |r|..];
      if |r| < |t| {
        assert s[|s| - |r| - 1] == t[|t| - |r| - 1];
      }
  }

  /** Past the first separator, the last piece is the last piece of the rest. */
  lemma LastPieceStep(s: string, c: char, i: nat)
    requires IndexOf(s, c) == Some(i)
    ensures LastPiece(s, c) == LastPiece(s[i + 1..], c)
  {
    assert Split(s, c) == [s[..i]] + Split(s[i + 1..], c);
  }

  /** What follows the last separator is the last piece. */
  lemma LastPieceAfter(dir: string, c: char, name: string)
    requires c !in name
    ensures LastPiece(dir + [c] + name, c) == name
  {
    var s := dir + [c] + name;
    var r := LastPiece(s, c);
    LastPieceIsSuffix(s, c);
    assert s[|dir| + 1..] == name;
    assert s[|dir|] == c;
    assert |r| == |name|;
  }

  // ---------------------------------------------------------------------------
  // Decimal integers: int() and str()
  // ---------------------------------------------------------------------------

  predicate AllDigits(s: string) {
    forall k :: 0 <= k < |s| ==> IsDigit(s[k])
  }

  function DigitValue(c: char): nat
    requires IsDigit(c)
  {
    c as int - '0' as int
  }

  function DigitsValue(s: string): nat
    requires AllDigits(s)
    decreases |s|
  {
    if |s| == 0 then 0 else DigitsValue(s[..|s| - 1]) * 10 + DigitValue(s[|s| - 1])
  }

  /** An optional sign followed by at least one ASCII digit, with nothing around it. */
  function ParseSigned(s: string): Option<int> {
    if |s| > 1 && (s[0] == '-' || s[0] == '+') && AllDigits(s[1..]) then
      var v: int := DigitsValue(s[1..]);
      Some(if s[0] == '-' then -v else v)
    else if |s| > 0 && AllDigits(s) then
      Some(DigitsValue(s))
    else
      None
  }

  /** `int(s)`: white space (the `str.isspace` set) around the number is ignored;
      `None` is the ValueError raised for anything else. */
  function ParseInt(s: string): Option<int> {
    ParseSigned(Strip(s))
  }

  function DigitChar(d: nat): (c: char)
    requires d < 10
    ensures IsDigit(c) && DigitValue(c) == d
  {
    ('0' as int + d) as char
  }

  /** `str(n)` for a natural number. */
  function ShowNat(n: nat): (s: string)
    ensures |s| >= 1 && AllDigits(s)
    decreases n
  {
    if n < 10 then [DigitChar(n)] else ShowNat(n / 10) + [DigitChar(n % 10)]
  }

  /** `str(n)` */
  function ShowInt(n: int): string {
    if n < 0 then "-" + ShowNat(-n) else ShowNat(n)
  }

  lemma {:induction false} DigitsOfShowNat(n: nat)
    ensures DigitsValue(ShowNat(n)) == n
    decreases n
  {
    if n >= 10 {
      DigitsOfShowNat(n / 10);
      var s := ShowNat(n);
      assert s[..|s| - 1] == ShowNat(n / 10);
    }
  }

  /** `str(n)` neither starts nor ends with white space. */
  lemma ShowIntEnds(n: int)
    ensures ShowInt(n) != [] && !IsSpace(ShowInt(n)[0]) && !IsSpace(ShowInt(n)[|ShowInt(n)| - 1])
  {
    var s := ShowInt(n);
    if n < 0 {
      assert s[|s| - 1] == ShowNat(-n)[|ShowNat(-n)| - 1];
    }
  }

  /** `int(str(n)) == n` */
  lemma ParseShowInt(n: int)
    ensures ParseInt(ShowInt(n)) == Some(n)
  {
    ShowIntEnds(n);
    DropPrefixNone(ShowInt(n), IsSpace);
    DropSuffixNone(ShowInt(n), IsSpace);
    ParseSignedShowInt(n);
  }

  lemma ParseSignedShowInt(n: int)
    ensures ParseSigned(ShowInt(n)) == Some(n)
  {
    if n < 0 {
      DigitsOfShowNat(-n);
      assert ShowInt(n)[1..] == ShowNat(-n);
    } else {
      DigitsOfShowNat(n);
    }
  }

  /** `int(pre + str(n) + suf) == n` for any white space `pre` and `suf`, such as
      `int(" 2000")` or a token ending in a no-break space. */
  lemma ParsePaddedInt(pre: string, n: int, suf: string)
    requires forall k :: 0 <= k < |pre| ==> IsSpace(pre[k])
    requires forall k :: 0 <= k < |suf| ==> IsSpace(suf[k])
    ensures ParseInt(pre + ShowInt(n) + suf) == Some(n)
  {
    var x := ShowInt(n);
    ShowIntEnds(n);
    assert (x + suf)[0] == x[0];
    DropPrefixOver(pre, x + suf, IsSpace);
    assert pre + x + suf == pre + (x + suf);
    DropSuffixOver(x, suf, IsSpace);
    assert Strip(pre + x + suf) == x;
    ParseShowInt(n);
    DropPrefixNone(x, IsSpace);
    DropSuffixNone(x, IsSpace);
  }
}
