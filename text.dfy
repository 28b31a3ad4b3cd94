/** Character and string primitives shared by both scrapers: lower-casing, Python's notion of
    whitespace, substring occurrence (Python's `w in s`), `str.strip()` and splitting a text
    at separators (the block-tag regex split and `str.split('\n')`). */
module Text {

  datatype Option<T> = None | Some(value: T)

  /** Whitespace as Python's `str.isspace()` and the regex class `\s` see it, restricted to the
      ASCII and Latin-1 whitespace characters. */
  predicate IsSpace(c: char) {
    c == ' ' || c == '\t' || c == '\n' || c == '\r' || c == '\U{000B}' || c == '\U{000C}'
    || ('\U{001C}' <= c <= '\U{001F}') || c == '\U{0085}' || c == '\U{00A0}'
  }

  predicate IsDigit(c: char) {
    '0' <= c <= '9'
  }

  /** Python's `str.lower()` on one character: ASCII letters and the upper-case Romanian letters
      (both the comma-below and the cedilla forms of Ș and Ț); every other character is kept. */
  function LowerChar(c: char): char {
    if 'A' <= c <= 'Z' then (c as int + 32) as char
    else if c == 'Ă' then 'ă'
    else if c == 'Â' then 'â'
    else if c == 'Î' then 'î'
    else if c == 'Ș' then 'ș'
    else if c == 'Ş' then 'ş'
    else if c == 'Ț' then 'ț'
    else if c == 'Ţ' then 'ţ'
    else c
  }

  function Lower(s: string): (r: string)
    ensures |r| == |s|
    ensures forall i :: 0 <= i < |s| ==> r[i] == LowerChar(s[i])
  {
    seq(|s|, i requires 0 <= i < |s| => LowerChar(s[i]))
  }

  /** Lower-casing lower-case text changes nothing. */
  lemma LowerIdempotent(s: string)
    ensures Lower(Lower(s)) == Lower(s)
  {
    forall i | 0 <= i < |s| ensures Lower(Lower(s))[i] == Lower(s)[i] {
      assert Lower(s)[i] == LowerChar(s[i]);
    }
  }

  /** Characters that are not letters (white space, digits, ':', tag brackets, the date
      separators) are neither created nor removed by lower-casing. */
  lemma LowerKeepsSymbol(s: string, c: char)
    requires IsSpace(c) || IsDigit(c) || c == ':' || c == '<' || c == '>' || c == '.' || c == '/'
    ensures c in Lower(s) <==> c in s
  {
    if c in s {
      var i :| 0 <= i < |s| && s[i] == c;
      assert Lower(s)[i] == c;
    }
    if c in Lower(s) {
      var i :| 0 <= i < |s| && Lower(s)[i] == c;
      assert s[i] == c;
    }
  }

  predicate AllSpace(w: string) {
    forall i :: 0 <= i < |w| ==> IsSpace(w[i])
  }

  predicate StartsWith(s: string, p: string) {
    |p| <= |s| && s[..|p|] == p
  }

  /** `w` occurs in `s` starting at index `i`. */
  predicate OccursAt(w: string, s: string, i: int) {
    0 <= i && i + |w| <= |s| && s[i..i + |w|] == w
  }

  /** Python's `w in s`. */
  predicate Contains(s: string, w: string) {
    exists i :: 0 <= i <= |s| - |w| && OccursAt(w, s, i)
  }

  /** Python's `any(w in s for w in ws)`. */
  predicate ContainsAny(s: string, ws: seq<string>) {
    exists k :: 0 <= k < |ws| && Contains(s, ws[k])
  }

  lemma ContainsSlice(s: string, i: int, j: int)
    requires 0 <= i <= j <= |s|
    ensures Contains(s, s[i..j])
  {
    assert OccursAt(s[i..j], s, i);
  }

  /** Occurrence is transitive: a substring of a substring of `s` is a substring of `s`. */
  lemma ContainsTransitive(s: string, m: string, w: string)
    requires Contains(s, m) && Contains(m, w)
    ensures Contains(s, w)
  {
    var i :| 0 <= i <= |s| - |m| && OccursAt(m, s, i);
    var j :| 0 <= j <= |m| - |w| && OccursAt(w, m, j);
    forall x | 0 <= x < |w|
      ensures s[i + j + x] == w[x]
    {
      assert m[j + x] == w[x];
      assert s[i..i + |m|][j + x] == m[j + x];
    }
    assert s[i + j..i + j + |w|] == w;
    assert OccursAt(w, s, i + j);
  }

  /** Python's `t.find(c, from)`: the first index at or after `from` holding `c`. */
  function IndexOf(t: string, c: char, from: nat): (r: Option<nat>)
    requires from <= |t|
    ensures r.Some? ==> from <= r.value < |t| && t[r.value] == c && c !in t[from..r.value]
    ensures r.None? ==> c !in t[from..]
    decreases |t| - from
  {
    if from == |t| then None
    else if t[from] == c then Some(from)
    else
      var r := IndexOf(t, c, from + 1);
      assert r.Some? ==> t[from..r.value] == [t[from]] + t[from + 1..r.value];
      assert t[from..] == [t[from]] + t[from + 1..];
      r
  }

  /** Three steps of occurrence in a row. */
  lemma ContainsChain(a: string, b: string, c: string, d: string)
    requires Contains(a, b) && Contains(b, c) && Contains(c, d)
    ensures Contains(a, d)
  {
    ContainsTransitive(b, c, d);
    ContainsTransitive(a, b, d);
  }

  /** A string without leading or trailing whitespace. */
  predicate Trimmed(s: string) {
    s == [] || (!IsSpace(s[0]) && !IsSpace(s[|s| - 1]))
  }

  /** The first index at or after `i` that does not hold whitespace, or `|s|`. */
  function SkipSpaces(s: string, i: nat): (j: nat)
    requires i <= |s|
    ensures i <= j <= |s|
    ensures j < |s| ==> !IsSpace(s[j])
    ensures forall k :: i <= k < j ==> IsSpace(s[k])
    decreases |s| - i
  {
    if i < |s| && IsSpace(s[i]) then SkipSpaces(s, i + 1) else i
  }

  /** The last index at or before `j`, and not before `lo`, that follows a character other than
      whitespace, or `lo`. */
  function SkipSpacesBack(s: string, lo: nat, j: nat): (e: nat)
    requires lo <= j <= |s|
    ensures lo <= e <= j
    ensures lo < e ==> !IsSpace(s[e - 1])
    ensures forall k :: e <= k < j ==> IsSpace(s[k])
    decreases j
  {
    if lo < j && IsSpace(s[j - 1]) then SkipSpacesBack(s, lo, j - 1) else j
  }

  /** Number of whitespace characters `str.strip()` removes at the start of `s`. */
  function StripStart(s: string): (i: nat)
    ensures i <= |s|
  {
    SkipSpaces(s, 0)
  }

  /** Where the text `str.strip()` keeps ends. */
  function StripEnd(s: string): (e: nat)
    ensures StripStart(s) <= e <= |s|
  {
    SkipSpacesBack(s, StripStart(s), |s|)
  }

  /** Python's `str.lstrip()`. */
  function TrimStart(s: string): (r: string)
    ensures |r| <= |s| && r == s[|s| - |r|..]
    ensures r == [] || !IsSpace(r[0])
    ensures AllSpace(s[..|s| - |r|])
  {
    var i := StripStart(s);
    assert forall k :: 0 <= k < i ==> s[..i][k] == s[k];
    s[i..]
  }

  /** Python's `str.strip()`: `s` is whitespace, then `r` from index `StripStart(s)` on, then
      whitespace, and `r` has no whitespace at either end; these facts determine `r`. */
  function Strip(s: string): (r: string)
    ensures Trimmed(r)
    ensures StripStart(s) + |r| <= |s| && OccursAt(r, s, StripStart(s))
    ensures AllSpace(s[..StripStart(s)]) && AllSpace(s[StripStart(s) + |r|..])
  {
    var i := StripStart(s);
    var e := StripEnd(s);
    assert forall k :: 0 <= k < i ==> s[..i][k] == s[k];
    assert forall k :: 0 <= k < |s| - e ==> s[e..][k] == s[e + k];
    s[i..e]
  }

  lemma StripContained(s: string)
    ensures Contains(s, Strip(s))
  {
  }

  /** A string that is already trimmed is left alone by `Strip`. */
  lemma {:induction false} StripOfTrimmed(s: string)
    requires Trimmed(s)
    ensures Strip(s) == s
  {
    assert StripStart(s) == 0;
    assert StripEnd(s) == |s|;
  }

  /** The separators a text is split at: the block-tag boundaries of the regular expression
      `</?div|</?tr|</?p|</?li` (for `re.split`) and the newline (for `str.split('\n')`). */
  datatype Separator = BlockTag | Newline

  /** Length of the tag name `div`, `tr`, `p` or `li` that starts `r`, tried in that order, or 0
      when none does. */
  function TagNameLen(r: string): (n: nat)
    ensures n <= |r|
  {
    if |r| >= 3 && r[0] == 'd' && r[1] == 'i' && r[2] == 'v' then 3
    else if |r| >= 2 && r[0] == 't' && r[1] == 'r' then 2
    else if |r| >= 1 && r[0] == 'p' then 1
    else if |r| >= 2 && r[0] == 'l' && r[1] == 'i' then 2
    else 0
  }

  /** Length of the separator that starts `s`, or 0 when none does. For a block tag the match is
      `<`, an optional `/`, then one of the tag names in the order the alternation lists them
      (no name starts with `/`, so the optional `/` never has to be given back). */
  function SepLen(sep: Separator, s: string): (n: nat)
    ensures n <= |s|
  {
    match sep
    case Newline => if s != [] && s[0] == '\n' then 1 else 0
    case BlockTag =>
      if |s| >= 2 && s[0] == '<' then
        var o := if s[1] == '/' then 2 else 1;
        var name := TagNameLen(s[o..]);
        if name > 0 then o + name else 0
      else 0
  }

  /** A separator that lies inside a prefix of `q` is also found in `q` itself. */
  lemma SepLenPrefix(sep: Separator, p: string, q: string)
    requires StartsWith(q, p)
    requires SepLen(sep, p) > 0
    ensures SepLen(sep, q) == SepLen(sep, p)
  {
    forall x | 0 <= x < |p| ensures q[x] == p[x] {
      assert q[..|p|][x] == q[x];
    }
    match sep
    case Newline =>
    case BlockTag =>
      var o := if p[1] == '/' then 2 else 1;
      forall x | 0 <= x < |p| - o ensures q[o..][x] == p[o..][x] {
        assert q[o..][x] == q[o + x];
      }
  }

  predicate SeparatorFree(sep: Separator, w: string) {
    forall i :: 0 <= i < |w| ==> SepLen(sep, w[i..]) == 0
  }

  /** The pieces of `s` between separators, scanning left to right as `re.split` and
      `str.split` do: the first piece is the text before the first separator. */
  function Split(sep: Separator, s: string): (r: seq<string>)
    ensures |r| >= 1
    decreases |s|
  {
    if s == [] then [[]]
    else if SepLen(sep, s) > 0 then [[]] + Split(sep, s[SepLen(sep, s)..])
    else
      var rest := Split(sep, s[1..]);
      [[s[0]] + rest[0]] + rest[1..]
  }

  /** The first piece of a split is a prefix of the text. */
  lemma {:induction false} SplitFirstIsPrefix(sep: Separator, s: string)
    ensures StartsWith(s, Split(sep, s)[0])
    decreases |s|
  {
    if s != [] && SepLen(sep, s) == 0 {
      var rest := Split(sep, s[1..]);
      SplitFirstIsPrefix(sep, s[1..]);
      assert Split(sep, s)[0] == [s[0]] + rest[0];
      assert s == [s[0]] + s[1..];
    }
  }

  /** Pieces of a substring of `s` are substrings of `s`. */
  lemma ContainsEach(s: string, t: string, pieces: seq<string>)
    requires Contains(s, t)
    requires forall k :: 0 <= k < |pieces| ==> Contains(t, pieces[k])
    ensures forall k :: 0 <= k < |pieces| ==> Contains(s, pieces[k])
  {
    forall k | 0 <= k < |pieces| ensures Contains(s, pieces[k]) {
      ContainsTransitive(s, t, pieces[k]);
    }
  }

  /** Every piece of a split is a substring of the text. */
  lemma {:induction false} SplitPiecesContained(sep: Separator, s: string)
    ensures forall k :: 0 <= k < |Split(sep, s)| ==> Contains(s, Split(sep, s)[k])
    decreases |s|
  {
    var r := Split(sep, s);
    SplitFirstIsPrefix(sep, s);
    assert OccursAt(r[0], s, 0);
    if s != [] {
      var n := if SepLen(sep, s) > 0 then SepLen(sep, s) else 1;
      var t := s[n..];
      var rest := Split(sep, t);
      SplitPiecesContained(sep, t);
      ContainsSlice(s, n, |s|);
      assert s[n..|s|] == t;
      ContainsEach(s, t, rest);
      if SepLen(sep, s) > 0 {
        assert r == [[]] + rest;
      } else {
        assert r == [[s[0]] + rest[0]] + rest[1..];
      }
    }
  }

  /** No piece of a split holds a separator. */
  lemma {:induction false} SplitPiecesSeparatorFree(sep: Separator, s: string)
    ensures forall k :: 0 <= k < |Split(sep, s)| ==> SeparatorFree(sep, Split(sep, s)[k])
    decreases |s|
  {
    if s != [] && SepLen(sep, s) > 0 {
      SplitPiecesSeparatorFree(sep, s[SepLen(sep, s)..]);
    } else if s != [] {
      var t := s[1..];
      var rest := Split(sep, t);
      SplitPiecesSeparatorFree(sep, t);
      SplitFirstIsPrefix(sep, t);
      var first := [s[0]] + rest[0];
      assert first == s[..|first|];
      forall i | 0 <= i < |first|
        ensures SepLen(sep, first[i..]) == 0
      {
        if i == 0 {
          if SepLen(sep, first) > 0 {
            SepLenPrefix(sep, first, s);
          }
        } else {
          assert first[i..] == rest[0][i - 1..];
        }
      }
    }
  }

  /** A text with no separator in it is not split at all. */
  lemma {:induction false} SplitOfSeparatorFree(sep: Separator, s: string)
    requires SeparatorFree(sep, s)
    ensures Split(sep, s) == [s]
    decreases |s|
  {
    if s != [] {
      assert SepLen(sep, s[0..]) == 0;
      assert s[0..] == s;
      assert [s[0]] + s[1..] == s;
      forall i | 0 <= i < |s| - 1
        ensures SepLen(sep, s[1..][i..]) == 0
      {
        assert s[1..][i..] == s[i + 1..];
      }
      SplitOfSeparatorFree(sep, s[1..]);
    }
  }

  /** The separator that starts `s` is recognised in its own characters alone. */
  lemma SepLenOwn(sep: Separator, s: string)
    requires SepLen(sep, s) > 0
    ensures SepLen(sep, s[..SepLen(sep, s)]) == SepLen(sep, s)
  {
    var n := SepLen(sep, s);
    var c := s[..n];
    match sep
    case Newline =>
      assert c[0] == s[0];
    case BlockTag =>
      var o := if s[1] == '/' then 2 else 1;
      assert c[0] == s[0] && c[1] == s[1];
      forall x | 0 <= x < n - o ensures c[o..][x] == s[o..][x] {
        assert c[o..][x] == s[o + x];
      }
  }

  /** The separators a split cuts out, in order: one between each two neighbouring pieces;
      each is a whole separator match. */
  function Cuts(sep: Separator, s: string): (r: seq<string>)
    ensures |r| == |Split(sep, s)| - 1
    ensures forall k :: 0 <= k < |r| ==> 0 < |r[k]| && SepLen(sep, r[k]) == |r[k]|
    decreases |s|
  {
    if s == [] then []
    else if SepLen(sep, s) > 0 then
      SepLenOwn(sep, s);
      [s[..SepLen(sep, s)]] + Cuts(sep, s[SepLen(sep, s)..])
    else Cuts(sep, s[1..])
  }

  /** The pieces glued back together with the separators between them. */
  function Join(pieces: seq<string>, cuts: seq<string>): (r: string)
    requires |pieces| == |cuts| + 1
    decreases |cuts|
  {
    if cuts == [] then pieces[0] else pieces[0] + cuts[0] + Join(pieces[1..], cuts[1..])
  }

  /** Putting a character in front of the first piece puts it in front of the joined text. */
  lemma {:induction false} JoinCons(c: char, pieces: seq<string>, cuts: seq<string>)
    requires |pieces| == |cuts| + 1
    ensures Join([[c] + pieces[0]] + pieces[1..], cuts) == [c] + Join(pieces, cuts)
  {
    var ps := [[c] + pieces[0]] + pieces[1..];
    assert ps[0] == [c] + pieces[0];
    if cuts != [] {
      assert ps[1..] == pieces[1..];
    }
  }

  lemma SliceRejoin(s: string, n: nat)
    requires n <= |s|
    ensures s[..n] + s[n..] == s
  {
  }

  /** Joining after a first piece and a first cut. */
  lemma JoinFront(p: string, c: string, pieces: seq<string>, cuts: seq<string>)
    requires |pieces| == |cuts| + 1
    ensures Join([p] + pieces, [c] + cuts) == p + c + Join(pieces, cuts)
  {
    assert ([p] + pieces)[1..] == pieces && ([c] + cuts)[1..] == cuts;
  }

  /** One step of `SplitJoin`: a separator at the front becomes the first cut. */
  lemma SplitJoinAtSeparator(sep: Separator, s: string)
    requires SepLen(sep, s) > 0
    requires Join(Split(sep, s[SepLen(sep, s)..]), Cuts(sep, s[SepLen(sep, s)..])) == s[SepLen(sep, s)..]
    ensures Join(Split(sep, s), Cuts(sep, s)) == s
  {
    var n := SepLen(sep, s);
    var t := s[n..];
    var a := Split(sep, t);
    var b := Cuts(sep, t);
    var e: string := [];
    assert Split(sep, s) == [e] + a;
    assert Cuts(sep, s) == [s[..n]] + b;
    JoinFront(e, s[..n], a, b);
    assert e + s[..n] == s[..n];
    SliceRejoin(s, n);
  }

  /** One step of `SplitJoin`: a character that starts no separator joins the first piece. */
  lemma SplitJoinAtChar(sep: Separator, s: string)
    requires s != [] && SepLen(sep, s) == 0
    requires Join(Split(sep, s[1..]), Cuts(sep, s[1..])) == s[1..]
    ensures Join(Split(sep, s), Cuts(sep, s)) == s
  {
    var t := s[1..];
    var rest := Split(sep, t);
    JoinCons(s[0], rest, Cuts(sep, t));
    assert Split(sep, s) == [[s[0]] + rest[0]] + rest[1..];
    assert Cuts(sep, s) == Cuts(sep, t);
    assert [s[0]] + t == s;
  }

  /** A split loses nothing: its pieces, joined with the separators it cut out, give back the
      text. */
  lemma {:induction false} SplitJoin(sep: Separator, s: string)
    ensures Join(Split(sep, s), Cuts(sep, s)) == s
    decreases |s|
  {
    if s == [] {
    } else if SepLen(sep, s) > 0 {
      SplitJoin(sep, s[SepLen(sep, s)..]);
      SplitJoinAtSeparator(sep, s);
    } else {
      SplitJoin(sep, s[1..]);
      SplitJoinAtChar(sep, s);
    }
  }
}
