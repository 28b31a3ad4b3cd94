/** The field probes the interruption extractor runs on one section of the status page
    (custom_components/termo_bucuresti/binary_sensor.py): the service classifier, the three
    regular-expression searches (cause, estimated date, estimated time) and the tag-stripping
    text cleaner. Each regular expression is modelled by a hand-written matcher that follows
    Python's backtracking order, and each matcher is tied to a declarative description of the
    text it accepts. */
module Probes {
  import opened Text

  /** The sentinel every probe returns when its pattern finds nothing. */
  const Unspecified: string := "Nespecificat"

  // ---------------------------------------------------------------- service type

  datatype Service = HotWater | Heating | ThermalService

  /** The `serviciu` string stored in an interruption record. */
  function ServiceName(s: Service): string {
    match s
    case HotWater => "Apă caldă"
    case Heating => "Căldură"
    case ThermalService => "Serviciu termic"
  }

  /** The hot-water keyword is tested first, then the two heating keywords; anything else is an
      unspecified thermal service. */
  function ExtractServiceType(text: string): (r: Service)
    ensures Contains(Lower(text), "apă caldă") ==> r == HotWater
    ensures r == Heating <==>
      !Contains(Lower(text), "apă caldă")
      && (Contains(Lower(text), "căldură") || Contains(Lower(text), "încălzire"))
    ensures r == ThermalService <==>
      !Contains(Lower(text), "apă caldă") && !Contains(Lower(text), "căldură")
      && !Contains(Lower(text), "încălzire")
  {
    var lower := Lower(text);
    if Contains(lower, "apă caldă") then HotWater
    else if Contains(lower, "căldură") || Contains(lower, "încălzire") then Heating
    else ThermalService
  }

  // ---------------------------------------------------------------- cleaning

  /** No substring of `s` matches `<[^>]+>`: every `<` is either directly followed by `>` or has
      no `>` anywhere after it. */
  predicate TagFree(s: string) {
    forall i, k :: 0 <= i < k < |s| && s[i] == '<' && s[k] == '>' ==> s[i + 1] == '>'
  }

  /** No two whitespace characters in a row. */
  predicate NoSpaceRun(s: string) {
    forall i :: 0 <= i < |s| - 1 ==> !IsSpace(s[i]) || !IsSpace(s[i + 1])
  }

  /** The only whitespace character is the plain blank. */
  predicate PlainSpaces(s: string) {
    forall i :: 0 <= i < |s| ==> IsSpace(s[i]) ==> s[i] == ' '
  }

  /** What `_clean_text` guarantees of its output. */
  predicate Cleaned(s: string) {
    TagFree(s) && NoSpaceRun(s) && PlainSpaces(s) && Trimmed(s)
  }

  /** Where the tag that opens `t` ends: the `>` of `<[^>]+>` matched at index 0. The class
      `[^>]+` runs up to the first `>` and needs at least one character. */
  function TagEnd(t: string): (r: Option<nat>)
    requires t != [] && t[0] == '<'
    ensures r.Some? ==> 2 <= r.value < |t| && t[r.value] == '>' && '>' !in t[1..r.value]
    ensures r.None? <==> (|t| > 1 && t[1] == '>') || '>' !in t[1..]
  {
    match IndexOf(t, '>', 1)
    case Some(k) => if k >= 2 then Some(k) else None
    case None => None
  }

  lemma TagFreeCons(c: char, r: string)
    ensures TagFree(r) && (c == '<' ==> (r != [] && r[0] == '>') || '>' !in r) ==> TagFree([c] + r)
  {
    var s := [c] + r;
    if TagFree(r) && (c == '<' ==> (r != [] && r[0] == '>') || '>' !in r) {
      forall i, k | 0 <= i < k < |s| && s[i] == '<' && s[k] == '>'
      ensures s[i + 1] == '>'
    {
        if i == 0 {
          assert r[k - 1] == '>';
        } else {
          assert r[i - 1] == '<' && r[k - 1] == '>';
        }
      }
    }
  }

  /** In a tag-free text an opening `<` is closed at once or never. */
  lemma TagFreeOpening(t: string)
    requires t != []
    ensures TagFree(t) && t[0] == '<' ==> (|t| > 1 && t[1] == '>') || '>' !in t[1..]
  {
    if TagFree(t) && t[0] == '<' && '>' in t[1..] {
      var k :| 0 <= k < |t| - 1 && t[1..][k] == '>';
      assert t[k + 1] == '>';
    }
  }

  /** The three cleaning properties hold of every substring of a string that has them. */
  lemma CleanShapeOfOccurrence(w: string, s: string, i: int)
    requires OccursAt(w, s, i)
    ensures TagFree(s) ==> TagFree(w)
    ensures NoSpaceRun(s) ==> NoSpaceRun(w)
    ensures PlainSpaces(s) ==> PlainSpaces(w)
  {
    assert forall x :: 0 <= x < |w| ==> w[x] == s[i + x];
  }

  /** `re.sub(r'<[^>]+>', '', t)`: scanning left to right, every tag is removed and scanning
      resumes after its `>`. */
  function StripTags(t: string): (r: string)
    ensures TagFree(r)
    ensures forall c :: c in r ==> c in t
    ensures t != [] && t[0] != '<' ==> r != [] && r[0] == t[0]
    decreases |t|
  {
    if t == [] then []
    else if t[0] == '<' && TagEnd(t).Some? then StripTags(t[TagEnd(t).value + 1..])
    else
      var rest := StripTags(t[1..]);
      assert t == [t[0]] + t[1..];
      TagFreeCons(t[0], rest);
      [t[0]] + rest
  }

  /** A `<` closed at once opens no tag (`[^>]+` needs a character): `<>` is kept and stripping
      goes on after it. */
  lemma StripTagsEmptyBrackets(b: string)
    ensures StripTags(['<', '>'] + b) == ['<', '>'] + StripTags(b)
  {
    var t := ['<', '>'] + b;
    assert TagEnd(t).None?;
    assert t[1..] == ['>'] + b;
    assert (['>'] + b)[1..] == b;
  }

  lemma {:induction false} StripTagsOfTagFree(t: string)
    requires TagFree(t)
    ensures StripTags(t) == t
    decreases |t|
  {
    if t != [] {
      if t[0] == '<' {
        TagFreeOpening(t);
        assert TagEnd(t).None?;
      }
      CleanShapeOfOccurrence(t[1..], t, 1);
      StripTagsOfTagFree(t[1..]);
      assert t == [t[0]] + t[1..];
    }
  }

  /** Text without `<` passes through tag stripping unchanged, in front of whatever follows. */
  lemma {:induction false} StripTagsPlain(a: string, b: string)
    requires '<' !in a
    ensures StripTags(a + b) == a + StripTags(b)
    decreases |a|
  {
    if a != [] {
      var t := a + b;
      assert t[0] == a[0] && t[1..] == a[1..] + b;
      StripTagsPlain(a[1..], b);
      assert t[0] != '<';
      assert StripTags(t) == [a[0]] + StripTags(a[1..] + b);
      assert a + StripTags(b) == [a[0]] + (a[1..] + StripTags(b));
    } else {
      assert a + b == b;
    }
  }

  /** A whole tag `<m>`, with `m` non-empty and free of `>`, is removed and stripping resumes
      after it. */
  lemma StripTagsTag(m: string, b: string)
    requires m != [] && '>' !in m
    ensures StripTags(['<'] + m + ['>'] + b) == StripTags(b)
  {
    var t := ['<'] + m + ['>'] + b;
    assert t[1..|m| + 1] == m;
    assert t[|m| + 1] == '>';
    assert '>' in t[1..];
    assert TagEnd(t) == Some(|m| + 1);
    assert t[|m| + 2..] == b;
  }

  /** `re.sub(r'\s+', ' ', t)`: every maximal run of whitespace becomes one blank. */
  function CollapseSpaces(t: string): (r: string)
    ensures NoSpaceRun(r) && PlainSpaces(r)
    ensures r == [] <==> t == []
    ensures r != [] ==> (IsSpace(r[0]) <==> IsSpace(t[0]))
    ensures r != [] && !IsSpace(t[0]) ==> r[0] == t[0]
    decreases |t|
  {
    if t == [] then []
    else if IsSpace(t[0]) then [' '] + CollapseSpaces(TrimStart(t))
    else [t[0]] + CollapseSpaces(t[1..])
  }

  /** Collapsing adds no character other than the blank. */
  lemma {:induction false} CollapseKeepsChars(t: string)
    ensures forall c :: c in CollapseSpaces(t) ==> c in t || c == ' '
    decreases |t|
  {
    if t != [] {
      var rest0 := if IsSpace(t[0]) then TrimStart(t) else t[1..];
      CollapseKeepsChars(rest0);
      assert forall c :: c in rest0 ==> c in t by {
        assert rest0 == t[|t| - |rest0|..];
        forall c | c in rest0 ensures c in t {
          var x :| 0 <= x < |rest0| && rest0[x] == c;
          assert t[|t| - |rest0| + x] == c;
        }
      }
    }
  }

  /** Collapsing keeps a text free of tags. */
  lemma {:induction false} CollapseKeepsTagFree(t: string)
    requires TagFree(t)
    ensures TagFree(CollapseSpaces(t))
    decreases |t|
  {
    if t != [] {
      if IsSpace(t[0]) {
        var rest0 := TrimStart(t);
        CleanShapeOfOccurrence(rest0, t, |t| - |rest0|);
        CollapseKeepsTagFree(rest0);
        TagFreeCons(' ', CollapseSpaces(rest0));
      } else {
        CleanShapeOfOccurrence(t[1..], t, 1);
        CollapseKeepsTagFree(t[1..]);
        CollapseKeepsChars(t[1..]);
        TagFreeOpening(t);
        TagFreeCons(t[0], CollapseSpaces(t[1..]));
      }
    }
  }

  lemma {:induction false} CollapseOfCollapsed(t: string)
    requires NoSpaceRun(t) && PlainSpaces(t)
    ensures CollapseSpaces(t) == t
    decreases |t|
  {
    if t != [] {
      assert t == [t[0]] + t[1..];
      CleanShapeOfOccurrence(t[1..], t, 1);
      CollapseOfCollapsed(t[1..]);
      if IsSpace(t[0]) {
        assert t[1..] == [] || !IsSpace(t[1..][0]);
        assert TrimStart(t[1..]) == t[1..];
        assert TrimStart(t) == t[1..];
      }
    }
  }

  /** Text without whitespace passes through collapsing unchanged, in front of whatever follows. */
  lemma {:induction false} CollapsePlain(a: string, b: string)
    requires forall i :: 0 <= i < |a| ==> !IsSpace(a[i])
    ensures CollapseSpaces(a + b) == a + CollapseSpaces(b)
    decreases |a|
  {
    if a != [] {
      var t := a + b;
      assert t[0] == a[0] && t[1..] == a[1..] + b;
      CollapsePlain(a[1..], b);
      assert !IsSpace(t[0]);
      assert CollapseSpaces(t) == [a[0]] + CollapseSpaces(a[1..] + b);
      assert a + CollapseSpaces(b) == [a[0]] + (a[1..] + CollapseSpaces(b));
    } else {
      assert a + b == b;
    }
  }

  /** A maximal run of whitespace becomes exactly one blank. */
  lemma CollapseRun(w: string, b: string)
    requires w != [] && AllSpace(w)
    requires b == [] || !IsSpace(b[0])
    ensures CollapseSpaces(w + b) == [' '] + CollapseSpaces(b)
  {
    var t := w + b;
    assert t[0] == w[0];
    TrimStartOfRun(w, b);
  }

  lemma TrimStartOfRun(w: string, b: string)
    requires AllSpace(w)
    requires b == [] || !IsSpace(b[0])
    ensures TrimStart(w + b) == b
  {
    var s := w + b;
    SkipSpacesToEndOfRun(s, 0, |w|);
    assert s[|w|..] == b;
  }

  lemma {:induction false} SkipSpacesToEndOfRun(s: string, i: nat, n: nat)
    requires i <= n <= |s|
    requires forall k :: i <= k < n ==> IsSpace(s[k])
    requires n == |s| || !IsSpace(s[n])
    ensures SkipSpaces(s, i) == n
    decreases n - i
  {
    if i < n {
      SkipSpacesToEndOfRun(s, i + 1, n);
    }
  }

  /** `_clean_text`: strip tags, collapse whitespace, strip. */
  function CleanText(t: string): (r: string)
    ensures Cleaned(r)
  {
    var collapsed := CollapseSpaces(StripTags(t));
    CollapseKeepsTagFree(StripTags(t));
    StripKeepsCleanShape(collapsed);
    Strip(collapsed)
  }

  lemma StripKeepsCleanShape(s: string)
    ensures TagFree(s) ==> TagFree(Strip(s))
    ensures NoSpaceRun(s) ==> NoSpaceRun(Strip(s))
    ensures PlainSpaces(s) ==> PlainSpaces(Strip(s))
  {
    CleanShapeOfOccurrence(Strip(s), s, StripStart(s));
  }

  /** A string that is already clean is returned unchanged. */
  lemma CleanTextOfCleaned(t: string)
    requires Cleaned(t)
    ensures CleanText(t) == t
  {
    StripTagsOfTagFree(t);
    CollapseOfCollapsed(t);
    StripOfTrimmed(t);
  }

  /** Cleaning twice is cleaning once. */
  lemma CleanTextIdempotent(t: string)
    ensures CleanText(CleanText(t)) == CleanText(t)
  {
    CleanTextOfCleaned(CleanText(t));
  }

  // ---------------------------------------------------------------- regular expressions

  /** The four regular expressions the probes search with:
      Reason `(?:cauză|motiv)[:\s]*([^\.\n]+)` and DueTo `datorită[\s]*([^\.\n]+)`, both
      case-insensitive; Date `(\d{1,2}[\.\/]\d{1,2}[\.\/]\d{4})`; Time `(\d{1,2}:\d{2})`. */
  datatype Pattern = Reason | DueTo | Date | Time {
    predicate IsCause() { Reason? || DueTo? }
  }

  /** Where group 1 of a match lies in the searched text. */
  datatype Span = Span(start: nat, end: nat)

  /** A match found by `re.search`: the index it starts at and its group 1. */
  datatype Match = Match(pos: nat, group: Span)

  predicate IsStop(c: char) {
    c == '.' || c == '\n'
  }

  /** The class between a cause keyword and the group: `[:\s]` after cauză/motiv, `[\s]` after
      datorită. */
  predicate IsGap(p: Pattern, c: char) {
    IsSpace(c) || (p == Reason && c == ':')
  }

  predicate IsDateSep(c: char) {
    c == '.' || c == '/'
  }

  /** `kw` (lower-case) matches `t` at `i` under `re.IGNORECASE`. */
  predicate MatchesIgnoringCase(t: string, i: int, kw: string) {
    0 <= i && i + |kw| <= |t| && forall x :: 0 <= x < |kw| ==> LowerChar(t[i + x]) == kw[x]
  }

  function KeywordLen(p: Pattern): nat
    requires p.IsCause()
  {
    if p == Reason then 5 else 8
  }

  predicate KeywordAt(p: Pattern, t: string, i: int)
    requires p.IsCause()
  {
    if p == Reason then MatchesIgnoringCase(t, i, "cauză") || MatchesIgnoringCase(t, i, "motiv")
    else MatchesIgnoringCase(t, i, "datorită")
  }

  /** Group 1 of a cause pattern may start at `s` when the gap class covers `t[j..s]` and `t[s]`
      can begin `[^\.\n]+`. */
  predicate CanStartGroup(p: Pattern, t: string, j: int, s: int) {
    0 <= j <= s < |t| && (forall x :: j <= x < s ==> IsGap(p, t[x])) && !IsStop(t[s])
  }

  /** Group 1 of the cause pattern tried at `i` may start at `s`. */
  predicate GroupCanStartAt(p: Pattern, t: string, i: int, s: int)
    requires p.IsCause()
  {
    CanStartGroup(p, t, i + KeywordLen(p), s)
  }

  /** End of the greedy run of gap characters from `j`. */
  function GapEnd(p: Pattern, t: string, j: nat): (k: nat)
    requires j <= |t|
    ensures j <= k <= |t|
    ensures forall x :: j <= x < k ==> IsGap(p, t[x])
    ensures k == |t| || !IsGap(p, t[k])
    decreases |t| - j
  {
    if j < |t| && IsGap(p, t[j]) then GapEnd(p, t, j + 1) else j
  }

  /** End of the greedy run of `[^\.\n]` from `k`. */
  function StopFrom(t: string, k: nat): (e: nat)
    requires k <= |t|
    ensures k <= e <= |t|
    ensures forall x :: k <= x < e ==> !IsStop(t[x])
    ensures e == |t| || IsStop(t[e])
    decreases |t| - k
  {
    if k < |t| && !IsStop(t[k]) then StopFrom(t, k + 1) else k
  }

  /** The regex engine's backtracking: the greedy gap run is given back one character at a time,
      from `s` down to `j`, until `[^\.\n]+` can start. */
  function GroupStart(p: Pattern, t: string, j: nat, s: nat): (r: Option<nat>)
    requires j <= s <= |t|
    requires forall x :: j <= x < s ==> IsGap(p, t[x])
    ensures r.Some? ==> CanStartGroup(p, t, j, r.value) && r.value <= s
    ensures r.Some? ==> forall x :: r.value < x <= s ==> x == |t| || IsStop(t[x])
    ensures r.None? ==> forall x :: j <= x <= s ==> x == |t| || IsStop(t[x])
    decreases s
  {
    if s < |t| && !IsStop(t[s]) then Some(s)
    else if s == j then None
    else GroupStart(p, t, j, s - 1)
  }

  /** Group 1 cannot start past the end of the greedy gap run, since the gap class must cover
      everything before it. */
  lemma GroupWithinGap(p: Pattern, t: string, j: nat, k: nat, s: nat)
    requires j <= k <= |t| && (k == |t| || !IsGap(p, t[k]))
    requires CanStartGroup(p, t, j, s)
    ensures s <= k
  {
  }

  /** A cause pattern tried at index `i` (see `CauseMatchAtSpec`). */
  function CauseMatchAt(p: Pattern, t: string, i: nat): (r: Option<Span>)
    requires p.IsCause() && i <= |t|
    ensures r.Some? ==> r.value.start < r.value.end <= |t|
  {
    if !KeywordAt(p, t, i) then None
    else
      var j := i + KeywordLen(p);
      var k := GapEnd(p, t, j);
      match GroupStart(p, t, j, k)
      case None => None
      case Some(s) => Some(Span(s, StopFrom(t, s)))
  }

  /** The cause pattern matches at `i` exactly when its keyword is there and group 1 can start
      after it; the group then starts as late as it can (the greedy gap run is given back only
      as far as needed) and runs up to the first `.` or newline. */
  lemma CauseMatchAtSpec(p: Pattern, t: string, i: nat)
    requires p.IsCause() && i <= |t|
    ensures CauseMatchAt(p, t, i).Some? <==> KeywordAt(p, t, i) && exists s :: GroupCanStartAt(p, t, i, s)
    ensures CauseMatchAt(p, t, i).Some? ==>
      var g := CauseMatchAt(p, t, i).value;
      GroupCanStartAt(p, t, i, g.start)
      && (forall s :: GroupCanStartAt(p, t, i, s) ==> s <= g.start)
      && (forall x :: g.start <= x < g.end ==> !IsStop(t[x]))
      && (g.end == |t| || IsStop(t[g.end]))
  {
    if KeywordAt(p, t, i) {
      var j := i + KeywordLen(p);
      var k := GapEnd(p, t, j);
      match GroupStart(p, t, j, k)
      case None =>
        assert forall s :: !CanStartGroup(p, t, j, s) by {
          forall s | CanStartGroup(p, t, j, s) ensures false {
          }
        }
      case Some(s) =>
        assert GroupCanStartAt(p, t, i, s);
        forall s' | CanStartGroup(p, t, j, s') ensures s' <= s {
          GroupWithinGap(p, t, j, k, s');
        }
    }
  }

  /** Date: 1-2 digits, `.` or `/`, 1-2 digits, `.` or `/`, 4 digits. */
  predicate DateShapedWith(w: string, a: nat, b: nat) {
    |w| == a + b + 6 && DigitsIn(w, 0, a) && IsDateSep(w[a]) && DigitsIn(w, a + 1, a + 1 + b)
    && IsDateSep(w[a + 1 + b]) && DigitsIn(w, a + 2 + b, |w|)
  }

  /** `w[lo..hi]` is all digits. */
  predicate DigitsIn(w: string, lo: int, hi: int) {
    0 <= lo <= hi <= |w| && forall x :: lo <= x < hi ==> IsDigit(w[x])
  }

  /** Time: 1-2 digits, `:`, 2 digits. */
  predicate TimeShapedWith(w: string, a: nat) {
    |w| == a + 3 && DigitsIn(w, 0, a) && w[a] == ':' && DigitsIn(w, a + 1, |w|)
  }

  /** The strings the date and the time patterns match, as a whole. */
  predicate Shaped(p: Pattern, w: string) {
    match p
    case Date =>
      DateShapedWith(w, 1, 1) || DateShapedWith(w, 1, 2) || DateShapedWith(w, 2, 1) || DateShapedWith(w, 2, 2)
    case Time => TimeShapedWith(w, 1) || TimeShapedWith(w, 2)
    case _ => false
  }

  /** `\d{lo,n}` taken greedily from `i`: the end of the run of at most `n` digits. */
  function DigitsEnd(t: string, i: nat, n: nat): (e: nat)
    requires i <= |t|
    ensures i <= e <= |t| && e <= i + n
    ensures forall x :: i <= x < e ==> IsDigit(t[x])
    ensures e == i + n || e == |t| || !IsDigit(t[e])
    decreases n
  {
    if n > 0 && i < |t| && IsDigit(t[i]) then DigitsEnd(t, i + 1, n - 1) else i
  }

  /** The date or time pattern tried at index `i`: each digit run is taken greedily (see
      `ShapeMatchAtSound` and `ShapeMatchAtComplete`). */
  function ShapeMatchAt(p: Pattern, t: string, i: nat): (r: Option<Span>)
    requires (p.Date? || p.Time?) && i <= |t|
    ensures r.Some? ==> r.value.start == i <= r.value.end <= |t|
  {
    var a := DigitsEnd(t, i, 2);
    if p == Date then
      if a == i || a == |t| || !IsDateSep(t[a]) then None
      else
        var b := DigitsEnd(t, a + 1, 2);
        if b == a + 1 || b == |t| || !IsDateSep(t[b]) then None
        else
          var c := DigitsEnd(t, b + 1, 4);
          if c < b + 5 then None else Some(Span(i, c))
    else
      if a == i || a == |t| || t[a] != ':' then None
      else
        var c := DigitsEnd(t, a + 1, 2);
        if c < a + 3 then None else Some(Span(i, c))
  }

  /** Digits of `t` seen through the slice `t[i..e]`. */
  lemma DigitsInSlice(t: string, i: nat, e: nat, lo: nat, hi: nat)
    requires i <= e <= |t| && lo <= hi <= e - i
    requires forall x :: i + lo <= x < i + hi ==> IsDigit(t[x])
    ensures DigitsIn(t[i..e], lo, hi)
  {
    forall x | lo <= x < hi ensures IsDigit(t[i..e][x]) {
      assert t[i..e][x] == t[i + x];
    }
  }

  /** What the date pattern matches at `i` is a date. */
  lemma DateMatchSound(t: string, i: nat)
    requires i <= |t|
    ensures ShapeMatchAt(Date, t, i).Some? ==> Shaped(Date, t[i..ShapeMatchAt(Date, t, i).value.end])
  {
    var a := DigitsEnd(t, i, 2);
    if !(a == i || a == |t| || !IsDateSep(t[a])) {
      var b := DigitsEnd(t, a + 1, 2);
      if !(b == a + 1 || b == |t| || !IsDateSep(t[b])) {
        var c := DigitsEnd(t, b + 1, 4);
        if c >= b + 5 {
          var w := t[i..c];
          DigitsInSlice(t, i, c, 0, a - i);
          DigitsInSlice(t, i, c, a - i + 1, b - i);
          DigitsInSlice(t, i, c, b - i + 1, c - i);
          assert w[a - i] == t[a] && w[b - i] == t[b];
          assert DateShapedWith(w, a - i, b - a - 1);
        }
      }
    }
  }

  /** What the time pattern matches at `i` is a time. */
  lemma TimeMatchSound(t: string, i: nat)
    requires i <= |t|
    ensures ShapeMatchAt(Time, t, i).Some? ==> Shaped(Time, t[i..ShapeMatchAt(Time, t, i).value.end])
  {
    var a := DigitsEnd(t, i, 2);
    if !(a == i || a == |t| || t[a] != ':') {
      var c := DigitsEnd(t, a + 1, 2);
      if c >= a + 3 {
        var w := t[i..c];
        DigitsInSlice(t, i, c, 0, a - i);
        DigitsInSlice(t, i, c, a - i + 1, c - i);
        assert w[a - i] == t[a];
        assert TimeShapedWith(w, a - i);
      }
    }
  }

  /** What the date or time pattern matches at `i` has the pattern's shape. */
  lemma ShapeMatchAtSound(p: Pattern, t: string, i: nat)
    requires (p.Date? || p.Time?) && i <= |t|
    ensures ShapeMatchAt(p, t, i).Some? ==> Shaped(p, t[i..ShapeMatchAt(p, t, i).value.end])
  {
    if p == Date {
      DateMatchSound(t, i);
    } else {
      TimeMatchSound(t, i);
    }
  }

  /** Every string of the date or time shape that starts at `i` is what the pattern matches
      there. A separator is never a digit, so the greedy digit runs are the only ones the
      regex engine can keep. */
  lemma ShapeMatchAtComplete(p: Pattern, t: string, i: nat)
    requires (p.Date? || p.Time?) && i <= |t|
    ensures forall e :: i <= e <= |t| && Shaped(p, t[i..e]) ==> ShapeMatchAt(p, t, i) == Some(Span(i, e))
  {
    forall e | i <= e <= |t| && Shaped(p, t[i..e])
      ensures ShapeMatchAt(p, t, i) == Some(Span(i, e))
    {
      var w := t[i..e];
      if p == Date {
        if DateShapedWith(w, 1, 1) {
          DateMatchesAt(t, i, e, 1, 1);
        } else if DateShapedWith(w, 1, 2) {
          DateMatchesAt(t, i, e, 1, 2);
        } else if DateShapedWith(w, 2, 1) {
          DateMatchesAt(t, i, e, 2, 1);
        } else {
          DateMatchesAt(t, i, e, 2, 2);
        }
      } else {
        if TimeShapedWith(w, 1) {
          TimeMatchesAt(t, i, e, 1);
        } else {
          TimeMatchesAt(t, i, e, 2);
        }
      }
    }
  }

  /** A greedy run of at most two digits from `i` ends after `x` digits when `x` digits follow `i`
      and then a non-digit. */
  lemma DigitsEndAt(t: string, i: nat, n: nat, x: nat)
    requires i + x <= |t| && x <= n
    requires forall z :: i <= z < i + x ==> IsDigit(t[z])
    requires x == n || (i + x < |t| && !IsDigit(t[i + x]))
    ensures DigitsEnd(t, i, n) == i + x
    decreases x
  {
    if x > 0 {
      DigitsEndAt(t, i + 1, n - 1, x - 1);
    }
  }

  /** Where the digit runs of a date of shape (`x`, `y`) starting at `i` end. */
  lemma DateAtWith(t: string, i: nat, e: nat, x: nat, y: nat)
    requires i <= e <= |t| && DateShapedWith(t[i..e], x, y) && 1 <= x <= 2 && 1 <= y <= 2
    ensures DigitsEnd(t, i, 2) == i + x && IsDateSep(t[i + x])
    ensures DigitsEnd(t, i + x + 1, 2) == i + x + 1 + y && IsDateSep(t[i + x + 1 + y])
    ensures e == i + x + y + 6 && DigitsEnd(t, i + x + y + 2, 4) == e
  {
    var w := t[i..e];
    forall z | i <= z < i + x ensures IsDigit(t[z]) {
      assert w[z - i] == t[z];
    }
    DigitsEndAt(t, i, 2, x);
    forall z | i + x + 1 <= z < i + x + 1 + y ensures IsDigit(t[z]) {
      assert w[z - i] == t[z];
    }
    DigitsEndAt(t, i + x + 1, 2, y);
    forall z | i + x + y + 2 <= z < e ensures IsDigit(t[z]) {
      assert w[z - i] == t[z];
    }
    DigitsEndAt(t, i + x + y + 2, 4, 4);
  }

  /** A date of shape (`x`, `y`) that starts at `i` is what the date pattern matches there. */
  lemma DateMatchesAt(t: string, i: nat, e: nat, x: nat, y: nat)
    requires i <= e <= |t| && DateShapedWith(t[i..e], x, y) && 1 <= x <= 2 && 1 <= y <= 2
    ensures ShapeMatchAt(Date, t, i) == Some(Span(i, e))
  {
    DateAtWith(t, i, e, x, y);
  }

  /** Where the digit runs of a time of shape `x` starting at `i` end. */
  lemma TimeAtWith(t: string, i: nat, e: nat, x: nat)
    requires i <= e <= |t| && TimeShapedWith(t[i..e], x) && 1 <= x <= 2
    ensures DigitsEnd(t, i, 2) == i + x && t[i + x] == ':'
    ensures e == i + x + 3 && DigitsEnd(t, i + x + 1, 2) == e
  {
    var w := t[i..e];
    forall z | i <= z < i + x ensures IsDigit(t[z]) {
      assert w[z - i] == t[z];
    }
    DigitsEndAt(t, i, 2, x);
    forall z | i + x + 1 <= z < e ensures IsDigit(t[z]) {
      assert w[z - i] == t[z];
    }
    DigitsEndAt(t, i + x + 1, 2, 2);
  }

  /** A time of shape `x` that starts at `i` is what the time pattern matches there. */
  lemma TimeMatchesAt(t: string, i: nat, e: nat, x: nat)
    requires i <= e <= |t| && TimeShapedWith(t[i..e], x) && 1 <= x <= 2
    ensures ShapeMatchAt(Time, t, i) == Some(Span(i, e))
  {
    TimeAtWith(t, i, e, x);
  }

  /** One of the four patterns tried at index `i`, as `re.search` tries it at each index. */
  function MatchAt(p: Pattern, t: string, i: nat): (r: Option<Span>)
    requires i <= |t|
    ensures r.Some? ==> r.value.start <= r.value.end <= |t|
  {
    if p.IsCause() then CauseMatchAt(p, t, i) else ShapeMatchAt(p, t, i)
  }

  /** `i` is where `re.search` finds its match: the pattern matches there and nowhere before. */
  predicate FirstMatchAt(p: Pattern, t: string, i: int) {
    0 <= i <= |t| && MatchAt(p, t, i).Some? && forall j :: 0 <= j < i ==> MatchAt(p, t, j).None?
  }

  predicate HasMatch(p: Pattern, t: string) {
    exists i :: 0 <= i <= |t| && MatchAt(p, t, i).Some?
  }

  /** Group 1 of the match at `i`. */
  function MatchedGroup(p: Pattern, t: string, i: nat): string
    requires i <= |t| && MatchAt(p, t, i).Some?
  {
    var g := MatchAt(p, t, i).value;
    t[g.start..g.end]
  }

  /** The scan `re.search` makes: the leftmost index from `i` to `n` at which the matcher `m`
      succeeds, with what it matched there. */
  function FirstMatchFrom(m: nat -> Option<Span>, i: nat, n: nat): (r: Option<Match>)
    requires i <= n
    ensures r.Some? ==> i <= r.value.pos <= n && m(r.value.pos) == Some(r.value.group)
    ensures r.Some? ==> forall j :: i <= j < r.value.pos ==> m(j).None?
    ensures r.None? ==> forall j :: i <= j <= n ==> m(j).None?
    decreases n - i
  {
    if m(i).Some? then Some(Match(i, m(i).value))
    else if i == n then None
    else FirstMatchFrom(m, i + 1, n)
  }

  /** The pattern tried at each index of `t`. */
  function Matcher(p: Pattern, t: string): (m: nat -> Option<Span>)
    ensures forall j: nat :: j <= |t| ==> m(j) == MatchAt(p, t, j)
  {
    (j: nat) => if j <= |t| then MatchAt(p, t, j) else None
  }

  /** `re.search` over the whole text. */
  function Search(p: Pattern, t: string): (r: Option<Match>)
    ensures r.Some? ==> FirstMatchAt(p, t, r.value.pos) && MatchAt(p, t, r.value.pos) == Some(r.value.group)
    ensures r.None? <==> !HasMatch(p, t)
  {
    FirstMatchFrom(Matcher(p, t), 0, |t|)
  }

  // ---------------------------------------------------------------- the probes

  /** `_extract_cause`: group 1 of the leftmost match of the cauză/motiv pattern, cleaned; only
      when that pattern matches nowhere, the same for the datorită pattern; else the sentinel. */
  function ExtractCause(t: string): (r: string)
    ensures !HasMatch(Reason, t) && !HasMatch(DueTo, t) ==> r == Unspecified
    ensures HasMatch(Reason, t) ==>
      exists i :: FirstMatchAt(Reason, t, i) && r == CleanText(MatchedGroup(Reason, t, i))
    ensures !HasMatch(Reason, t) && HasMatch(DueTo, t) ==>
      exists i :: FirstMatchAt(DueTo, t, i) && r == CleanText(MatchedGroup(DueTo, t, i))
    ensures r == Unspecified || Cleaned(r)
  {
    match Search(Reason, t)
    case Some(m) => CleanText(MatchedGroup(Reason, t, m.pos))
    case None =>
      match Search(DueTo, t)
      case Some(m) => CleanText(MatchedGroup(DueTo, t, m.pos))
      case None => Unspecified
  }

  /** `i..e` is the leftmost occurrence in `t` of a string the date or time pattern matches. */
  predicate FirstShapedAt(p: Pattern, t: string, i: int, e: int) {
    0 <= i <= e <= |t| && Shaped(p, t[i..e])
    && forall i', e' :: 0 <= i' < i && i' <= e' <= |t| ==> !Shaped(p, t[i'..e'])
  }

  /** The sentinel is not a date or a time: those start with a digit. */
  lemma UnspecifiedNotShaped(p: Pattern)
    ensures !Shaped(p, Unspecified)
  {
    assert !IsDigit(Unspecified[0]);
  }

  /** What `re.search` finds for the date or time pattern, stated on shapes. */
  lemma ShapeSearch(p: Pattern, t: string)
    requires p.Date? || p.Time?
    ensures Search(p, t).None? <==> forall i, e :: 0 <= i <= e <= |t| ==> !Shaped(p, t[i..e])
    ensures Search(p, t).Some? ==>
      var m := Search(p, t).value;
      m.group.start == m.pos && FirstShapedAt(p, t, m.pos, m.group.end)
  {
    var r := Search(p, t);
    if r.None? {
      forall i, e | 0 <= i <= e <= |t| ensures !Shaped(p, t[i..e]) {
        assert MatchAt(p, t, i).None?;
        ShapeMatchAtComplete(p, t, i);
      }
    } else {
      var m := r.value;
      assert MatchAt(p, t, m.pos) == Some(m.group);
      ShapeMatchAtSound(p, t, m.pos);
      forall i', e' | 0 <= i' < m.pos && i' <= e' <= |t| ensures !Shaped(p, t[i'..e']) {
        assert MatchAt(p, t, i').None?;
        ShapeMatchAtComplete(p, t, i');
      }
    }
  }

  /** `_extract_estimated_date`: the leftmost date in the text, or the sentinel exactly when
      there is none. */
  function ExtractEstimatedDate(t: string): (r: string)
    ensures r == Unspecified <==> forall i, e :: 0 <= i <= e <= |t| ==> !Shaped(Date, t[i..e])
    ensures r != Unspecified ==> exists i, e :: FirstShapedAt(Date, t, i, e) && r == t[i..e]
  {
    ShapeSearch(Date, t);
    UnspecifiedNotShaped(Date);
    match Search(Date, t)
    case Some(m) => t[m.group.start..m.group.end]
    case None => Unspecified
  }

  /** `_extract_estimated_time`: the leftmost time in the text, or the sentinel exactly when
      there is none. */
  function ExtractEstimatedTime(t: string): (r: string)
    ensures r == Unspecified <==> forall i, e :: 0 <= i <= e <= |t| ==> !Shaped(Time, t[i..e])
    ensures r != Unspecified ==> exists i, e :: FirstShapedAt(Time, t, i, e) && r == t[i..e]
  {
    ShapeSearch(Time, t);
    UnspecifiedNotShaped(Time);
    match Search(Time, t)
    case Some(m) => t[m.group.start..m.group.end]
    case None => Unspecified
  }
}
