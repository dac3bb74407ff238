/** The parts of Python's string built-ins the fan controller relies on:
    `str.strip()`, `re.split(r"\s+", ...)`, `int(text)` and `str(n)`. */
module PyText {
  import opened Wrappers

  /** Python's `str.isspace()`, which is also what `\s` and `str.strip()`
      treat as whitespace. */
  predicate IsSpace(c: char) {
    || ('\t' <= c <= '\r')
    || ('\U{1c}' <= c <= ' ')
    || c == '\U{85}' || c == '\U{a0}' || c == '\U{1680}'
    || ('\U{2000}' <= c <= '\U{200a}')
    || c == '\U{2028}' || c == '\U{2029}' || c == '\U{202f}' || c == '\U{205f}' || c == '\U{3000}'
  }

  /** What `int()` skips around a literal. CPython turns every non-ASCII
      whitespace character into a blank and then skips only the ASCII
      whitespace characters, so the four information separators
      U+001C..U+001F, which `str.isspace()` accepts, are not skipped. */
  predicate IsIntSpace(c: char) {
    IsSpace(c) && !('\U{1c}' <= c <= '\U{1f}')
  }

  /** Which whitespace a strip removes: that of `str.strip()`, or that of `int()`. */
  datatype Blanks = StrSpace | IntSpace

  predicate IsBlank(b: Blanks, c: char) {
    match b
    case StrSpace => IsSpace(c)
    case IntSpace => IsIntSpace(c)
  }

  predicate AllBlank(b: Blanks, s: string) {
    forall i :: 0 <= i < |s| ==> IsBlank(b, s[i])
  }

  predicate AllSpace(s: string) {
    AllBlank(StrSpace, s)
  }

  predicate AllIntSpace(s: string) {
    AllBlank(IntSpace, s)
  }

  predicate NoSpace(s: string) {
    forall i :: 0 <= i < |s| ==> !IsSpace(s[i])
  }

  predicate IsDigit(c: char) {
    '0' <= c <= '9'
  }

  function DigitValue(c: char): (d: nat)
    requires IsDigit(c)
    ensures d < 10
  {
    (c as int) - ('0' as int)
  }

  function DigitChar(d: nat): (c: char)
    requires d < 10
    ensures IsDigit(c) && DigitValue(c) == d
  {
    (('0' as int) + d) as char
  }

  // ---------------------------------------------------------------- strip

  /** What is left of `s` after dropping its leading whitespace of kind `b`
      (`s.lstrip()` for `StrSpace`). */
  function TrimLeft(b: Blanks, s: string): string {
    if s != [] && IsBlank(b, s[0]) then TrimLeft(b, s[1..]) else s
  }

  /** What is left of `s` after dropping its trailing whitespace of kind `b`
      (`s.rstrip()` for `StrSpace`). */
  function TrimRight(b: Blanks, s: string): string {
    if s != [] && IsBlank(b, s[|s| - 1]) then TrimRight(b, s[..|s| - 1]) else s
  }

  /** Trimming the left keeps a suffix, drops only whitespace, and stops at
      the first character that is not whitespace. */
  lemma {:induction false} TrimLeftShape(b: Blanks, s: string)
    ensures var r := TrimLeft(b, s);
      && |r| <= |s| && r == s[|s| - |r|..]
      && AllBlank(b, s[..|s| - |r|])
      && (r != [] ==> !IsBlank(b, r[0]))
  {
    if s != [] && IsBlank(b, s[0]) {
      TrimLeftShape(b, s[1..]);
      var r := TrimLeft(b, s);
      assert s[1..][..|s| - 1 - |r|] == s[1..|s| - |r|];
      assert forall i :: 1 <= i < |s| - |r| ==> s[i] == s[1..][i - 1];
    }
  }

  /** Trimming the right keeps a prefix, drops only whitespace, and stops at
      the last character that is not whitespace. */
  lemma {:induction false} TrimRightShape(b: Blanks, s: string)
    ensures var r := TrimRight(b, s);
      && |r| <= |s| && r == s[..|r|]
      && AllBlank(b, s[|r|..])
      && (r != [] ==> !IsBlank(b, r[|r| - 1]))
  {
    if s != [] && IsBlank(b, s[|s| - 1]) {
      TrimRightShape(b, s[..|s| - 1]);
      var r := TrimRight(b, s);
      var t := s[..|s| - 1];
      forall i | |r| <= i < |s|
        ensures IsBlank(b, s[i])
      {
        if i < |s| - 1 {
          assert s[i] == t[|r|..][i - |r|];
        }
      }
    }
  }

  function StripWith(b: Blanks, s: string): string {
    TrimRight(b, TrimLeft(b, s))
  }

  /** `s.strip()`. */
  function Strip(s: string): string {
    StripWith(StrSpace, s)
  }

  /** The part of `int(s)`'s argument between the whitespace it skips. */
  function IntStrip(s: string): string {
    StripWith(IntSpace, s)
  }

  lemma {:induction false} TrimLeftOfSpaces(b: Blanks, w: string, y: string)
    requires AllBlank(b, w)
    requires y == [] || !IsBlank(b, y[0])
    ensures TrimLeft(b, w + y) == y
  {
    if w != [] {
      assert (w + y)[1..] == w[1..] + y;
      TrimLeftOfSpaces(b, w[1..], y);
    } else {
      assert w + y == y;
    }
  }

  lemma {:induction false} TrimRightOfSpaces(b: Blanks, y: string, w: string)
    requires AllBlank(b, w)
    requires y == [] || !IsBlank(b, y[|y| - 1])
    ensures TrimRight(b, y + w) == y
  {
    if w != [] {
      assert (y + w)[..|y + w| - 1] == y + w[..|w| - 1];
      TrimRightOfSpaces(b, y, w[..|w| - 1]);
    } else {
      assert y + w == y;
    }
  }

  /** Stripping removes exactly the whitespace around a text that neither
      begins nor ends with whitespace. */
  lemma StripAround(b: Blanks, w1: string, x: string, w2: string)
    requires AllBlank(b, w1) && AllBlank(b, w2)
    requires x == [] || (!IsBlank(b, x[0]) && !IsBlank(b, x[|x| - 1]))
    ensures StripWith(b, w1 + x + w2) == x
  {
    assert w1 + x + w2 == w1 + (x + w2);
    if x == [] {
      assert AllBlank(b, w1 + w2);
      TrimLeftOfSpaces(b, w1 + w2, []);
      assert w1 + x + w2 == (w1 + w2) + [];
    } else {
      TrimLeftOfSpaces(b, w1, x + w2);
    }
    TrimRightOfSpaces(b, x, w2);
  }

  /** A text that neither begins nor ends with whitespace strips to itself. */
  lemma StripBare(b: Blanks, x: string)
    requires x == [] || (!IsBlank(b, x[0]) && !IsBlank(b, x[|x| - 1]))
    ensures StripWith(b, x) == x
  {
    StripAround(b, [], x, []);
    assert [] + x + [] == x;
  }

  /** What is stripped is a slice: `s[a..e]` with whitespace before `a` and
      from `e` on. */
  lemma StripSlice(b: Blanks, s: string) returns (a: nat, e: nat)
    ensures a <= e <= |s| && StripWith(b, s) == s[a..e]
    ensures forall k :: 0 <= k < a ==> IsBlank(b, s[k])
    ensures forall k :: e <= k < |s| ==> IsBlank(b, s[k])
    ensures a < e ==> !IsBlank(b, s[a]) && !IsBlank(b, s[e - 1])
  {
    var l := TrimLeft(b, s);
    TrimLeftShape(b, s);
    var r := TrimRight(b, l);
    TrimRightShape(b, l);
    a, e := |s| - |l|, |s| - |l| + |r|;
    if r != [] {
      assert r[0] == l[0] == s[a];
      assert r[|r| - 1] == l[|r| - 1] == s[e - 1];
    }
    assert forall k :: 0 <= k < a ==> s[k] == s[..a][k];
    assert forall k :: e <= k < |s| ==> s[k] == l[|r|..][k - e];
  }

  // ---------------------------------------------------------------- split

  /** Index of the first whitespace character of `s`, or `|s|` when there is none. */
  function FirstSpace(s: string): (i: nat)
    ensures i <= |s| && NoSpace(s[..i])
    ensures i < |s| ==> IsSpace(s[i])
  {
    if s == [] || IsSpace(s[0]) then 0 else 1 + FirstSpace(s[1..])
  }

  /** The characters of `s` that are not whitespace, in order. */
  function NonSpace(s: string): (r: string)
    ensures NoSpace(r)
  {
    if s == [] then []
    else if IsSpace(s[0]) then NonSpace(s[1..])
    else [s[0]] + NonSpace(s[1..])
  }

  function Concat(ts: seq<string>): string {
    if ts == [] then [] else ts[0] + Concat(ts[1..])
  }

  /** The words `ts` with the whitespace run `gaps[k]` between `ts[k]` and
      `ts[k + 1]`. */
  function JoinWith(ts: seq<string>, gaps: seq<string>): string
    requires |ts| == |gaps| + 1
  {
    if |ts| == 1 then ts[0] else ts[0] + gaps[0] + JoinWith(ts[1..], gaps[1..])
  }

  /** Each separator is a non-empty run of whitespace. */
  predicate Gaps(gaps: seq<string>) {
    forall k :: 0 <= k < |gaps| ==> gaps[k] != [] && AllSpace(gaps[k])
  }

  /** Pieces free of whitespace, every one but the first and the last non-empty. */
  predicate Pieces(ts: seq<string>) {
    && (forall k :: 0 <= k < |ts| ==> NoSpace(ts[k]))
    && (forall k :: 0 < k < |ts| - 1 ==> ts[k] != [])
  }

  lemma {:induction false} NonSpaceConcat(a: string, b: string)
    ensures NonSpace(a + b) == NonSpace(a) + NonSpace(b)
  {
    if a != [] {
      assert (a + b)[1..] == a[1..] + b;
      NonSpaceConcat(a[1..], b);
    } else {
      assert a + b == b;
    }
  }

  lemma {:induction false} NonSpaceOfNoSpace(s: string)
    requires NoSpace(s)
    ensures NonSpace(s) == s
  {
    if s != [] {
      NonSpaceOfNoSpace(s[1..]);
    }
  }

  lemma {:induction false} NonSpaceOfAllSpace(s: string)
    requires AllSpace(s)
    ensures NonSpace(s) == []
  {
    if s != [] {
      NonSpaceOfAllSpace(s[1..]);
    }
  }

  /** Splitting at the first whitespace run: `s` is a word, then the run,
      then the rest. */
  lemma SplitStep(s: string, i: nat)
    requires i < |s| && NoSpace(s[..i]) && IsSpace(s[i])
    ensures NonSpace(s) == s[..i] + NonSpace(TrimLeft(StrSpace, s[i..]))
  {
    var a, u := s[..i], s[i..];
    var rest := TrimLeft(StrSpace, u);
    var w := LeadingRun(u);
    assert NonSpace(u) == NonSpace(rest) by {
      NonSpaceConcat(w, rest);
      NonSpaceOfAllSpace(w);
    }
    assert NonSpace(s) == a + NonSpace(u) by {
      assert s == a + u;
      NonSpaceConcat(a, u);
      NonSpaceOfNoSpace(a);
    }
  }

  /** `re.split(r"\s+", s)`: the pieces of `s` between maximal runs of
      whitespace. A leading (trailing) run gives an empty first (last)
      piece, and the empty string gives `[""]`. No piece contains
      whitespace, and together the pieces hold every other character of `s`
      in order. */
  function SplitWs(s: string): (r: seq<string>)
    ensures |r| >= 1
    ensures forall k :: 0 <= k < |r| ==> NoSpace(r[k])
    ensures Concat(r) == NonSpace(s)
    decreases |s|
  {
    var i := FirstSpace(s);
    if i == |s| then
      NonSpaceOfNoSpace(s);
      assert Concat([s]) == s + Concat([]);
      [s]
    else
      var rest := TrimLeft(StrSpace, s[i..]);
      TrimLeftShape(StrSpace, s[i..]);
      SplitStep(s, i);
      var tail := SplitWs(rest);
      assert ([s[..i]] + tail)[1..] == tail;
      [s[..i]] + tail
  }

  /** The whitespace runs `re.split(r"\s+", s)` splits at, in order. */
  function SplitGaps(s: string): seq<string>
    decreases |s|
  {
    var i := FirstSpace(s);
    if i == |s| then []
    else
      var rest := TrimLeft(StrSpace, s[i..]);
      TrimLeftShape(StrSpace, s[i..]);
      [s[i..|s| - |rest|]] + SplitGaps(rest)
  }

  lemma GapsCons(g: string, gaps: seq<string>)
    requires g != [] && AllSpace(g) && Gaps(gaps)
    ensures Gaps([g] + gaps)
  {
    assert forall k :: 0 < k < |gaps| + 1 ==> ([g] + gaps)[k] == gaps[k - 1];
  }

  lemma PiecesCons(t: string, ts: seq<string>)
    requires NoSpace(t) && Pieces(ts) && ts != []
    requires |ts| > 1 ==> ts[0] != []
    ensures Pieces([t] + ts)
  {
    assert forall k :: 0 < k < |ts| + 1 ==> ([t] + ts)[k] == ts[k - 1];
  }

  /** A text that starts with whitespace is a whitespace run followed by
      what trimming leaves. */
  lemma LeadingRun(u: string) returns (g: string)
    requires u != [] && IsSpace(u[0])
    ensures var rest := TrimLeft(StrSpace, u);
      && u == g + rest && g == u[..|u| - |rest|]
      && g != [] && AllSpace(g) && (rest == [] || !IsSpace(rest[0]))
  {
    var rest := TrimLeft(StrSpace, u);
    TrimLeftShape(StrSpace, u);
    g := u[..|u| - |rest|];
    assert u == g + rest;
  }

  lemma SeqAssoc<T>(a: seq<T>, b: seq<T>, c: seq<T>)
    ensures a + b + c == a + (b + c)
  {
  }

  /** One step of the split: the first piece, the run after it, and the rest. */
  lemma SplitFirst(s: string) returns (i: nat, g: string, rest: string)
    requires FirstSpace(s) < |s|
    ensures i == FirstSpace(s) && s == s[..i] + g + rest
    ensures g != [] && AllSpace(g) && (rest == [] || !IsSpace(rest[0]))
    ensures |rest| < |s| && rest == TrimLeft(StrSpace, s[i..]) && g == s[i..|s| - |rest|]
  {
    i := FirstSpace(s);
    var u := s[i..];
    rest := TrimLeft(StrSpace, u);
    g := LeadingRun(u);
    assert s == s[..i] + u;
    SeqAssoc(s[..i], g, rest);
  }

  /** Every text is its pieces joined by the runs between them: the pieces
      break exactly at maximal whitespace runs. */
  lemma {:induction false} SplitRebuilds(s: string)
    ensures var ts, gaps := SplitWs(s), SplitGaps(s);
      && |ts| == |gaps| + 1
      && Gaps(gaps) && Pieces(ts)
      && JoinWith(ts, gaps) == s
    decreases |s|
  {
    if FirstSpace(s) < |s| {
      var i, g, rest := SplitFirst(s);
      assert SplitWs(s) == [s[..i]] + SplitWs(rest);
      assert SplitGaps(s) == [g] + SplitGaps(rest);
      SplitRebuilds(rest);
      var tail, tgaps := SplitWs(rest), SplitGaps(rest);
      assert |tail| > 1 ==> tail[0] != [] by {
        if rest != [] {
          assert FirstSpace(rest) > 0;
        }
      }
      GapsCons(g, tgaps);
      PiecesCons(s[..i], tail);
      assert ([s[..i]] + tail)[1..] == tail && ([g] + tgaps)[1..] == tgaps;
      assert JoinWith(SplitWs(s), SplitGaps(s)) == s[..i] + g + rest;
    }
  }

  /** Splitting undoes joining: pieces joined by whitespace runs split back
      into the same pieces, however long each run is. */
  lemma {:induction false} SplitJoinWith(ts: seq<string>, gaps: seq<string>)
    requires |ts| == |gaps| + 1 && Gaps(gaps) && Pieces(ts)
    ensures SplitWs(JoinWith(ts, gaps)) == ts
  {
    var s := JoinWith(ts, gaps);
    if |ts| == 1 {
      assert FirstSpace(s) == |s| by { FirstSpaceOfNoSpace(s); }
    } else {
      var t, g := ts[0], gaps[0];
      var rest := JoinWith(ts[1..], gaps[1..]);
      assert s == t + (g + rest);
      assert rest == [] || !IsSpace(rest[0]) by {
        if ts[1] != [] {
          if |ts| > 2 {
            assert rest == ts[1] + (gaps[1] + JoinWith(ts[2..], gaps[2..]));
          }
          assert rest[0] == ts[1][0];
        } else {
          assert |ts| == 2;
        }
      }
      FirstSpaceAt(t, g + rest);
      assert s[|t|..] == g + rest;
      TrimLeftOfSpaces(StrSpace, g, rest);
      assert s[..|t|] == t;
      assert Pieces(ts[1..]) by {
        assert forall k :: 0 < k < |ts| - 2 ==> ts[1..][k] == ts[k + 1];
      }
      SplitJoinWith(ts[1..], gaps[1..]);
    }
  }

  lemma {:induction false} FirstSpaceOfNoSpace(s: string)
    requires NoSpace(s)
    ensures FirstSpace(s) == |s|
  {
    if s != [] {
      FirstSpaceOfNoSpace(s[1..]);
    }
  }

  lemma {:induction false} FirstSpaceAt(t: string, u: string)
    requires NoSpace(t)
    requires u != [] && IsSpace(u[0])
    ensures FirstSpace(t + u) == |t|
  {
    if t != [] {
      assert (t + u)[1..] == t[1..] + u;
      FirstSpaceAt(t[1..], u);
    } else {
      assert t + u == u;
    }
  }

  /** A line of non-empty words begins and ends with a non-blank. */
  lemma {:induction false} JoinWithEnds(ts: seq<string>, gaps: seq<string>)
    requires |ts| == |gaps| + 1
    requires forall k :: 0 <= k < |ts| ==> ts[k] != [] && NoSpace(ts[k])
    ensures var s := JoinWith(ts, gaps); s != [] && !IsSpace(s[0]) && !IsSpace(s[|s| - 1])
  {
    if |ts| > 1 {
      JoinWithEnds(ts[1..], gaps[1..]);
      var rest := JoinWith(ts[1..], gaps[1..]);
      assert JoinWith(ts, gaps) == ts[0] + gaps[0] + rest;
      assert JoinWith(ts, gaps)[0] == ts[0][0];
    }
  }

  // ---------------------------------------------------------------- int()

  /** The digits of a Python integer literal: ASCII digits, with single
      underscores allowed between two digits. */
  predicate IsDigitRun(s: string) {
    && s != [] && IsDigit(s[0]) && IsDigit(s[|s| - 1])
    && (forall k :: 0 <= k < |s| ==> IsDigit(s[k]) || s[k] == '_')
    && (forall j, k :: 0 <= j < |s| && 0 <= k < |s| && k == j + 1 && s[j] == '_' ==> s[k] != '_')
  }

  /** The number the digits of `s` spell, read right to left; underscores
      are skipped. */
  function DigitsValue(s: string): nat {
    if s == [] then 0
    else if IsDigit(s[|s| - 1]) then 10 * DigitsValue(s[..|s| - 1]) + DigitValue(s[|s| - 1])
    else DigitsValue(s[..|s| - 1])
  }

  /** CPython's default limit on the number of digits `int()` converts
      from a decimal string (`sys.int_info.default_max_str_digits`). */
  const MaxStrDigits: nat := 4300

  /** The number of digits in `s`; underscores and signs are not counted,
      leading zeros are. */
  function DigitCount(s: string): nat {
    if s == [] then 0
    else DigitCount(s[..|s| - 1]) + (if IsDigit(s[|s| - 1]) then 1 else 0)
  }

  /** The value of a digit run, or None when `s` is not one or has more
      digits than `int()` converts (a ValueError, too). */
  function DigitRun(s: string): Option<nat> {
    if IsDigitRun(s) && DigitCount(s) <= MaxStrDigits then Some(DigitsValue(s)) else None
  }

  /** `int()` after the surrounding whitespace is gone: an optional sign,
      then a digit run. */
  function ParseSigned(t: string): (r: Option<int>)
    ensures r.Some? ==> t != []
  {
    if t != [] && (t[0] == '+' || t[0] == '-') then
      match DigitRun(t[1..])
      case None => None
      case Some(v) =>
        var n: int := v;
        Some(if t[0] == '-' then -n else n)
    else
      match DigitRun(t)
      case None => None
      case Some(v) => Some(v)
  }

  /** Python's `int(text)` for base 10: surrounding whitespace, an optional
      sign, then a digit run of at most `MaxStrDigits` digits. Anything else
      is a `ValueError`, here `None`. */
  function ParseInt(text: string): (r: Option<int>)
    ensures r.Some? ==> IntStrip(text) != []
  {
    ParseSigned(IntStrip(text))
  }

  /** A character other than a digit, an underscore or a leading sign,
      anywhere between the whitespace `int()` skips, makes `int()` fail. */
  lemma ParseRejectsForeignChar(text: string, k: nat)
    requires k < |IntStrip(text)|
    requires var c := IntStrip(text)[k]; !IsDigit(c) && c != '_' && !(k == 0 && c in "+-")
    ensures ParseInt(text) == None
  {
    var t := IntStrip(text);
    if t[0] == '+' || t[0] == '-' {
      assert t[1..][k - 1] == t[k];
    }
  }

  /** An information separator U+001C..U+001F anywhere in the text makes
      `int()` fail, although `str.strip()` would drop it: `int("\x1c5")`
      raises. */
  lemma ParseRejectsSeparator(text: string, k: nat)
    requires k < |text| && '\U{1c}' <= text[k] <= '\U{1f}'
    ensures ParseInt(text) == None
  {
    var a, e := StripSlice(IntSpace, text);
    assert a <= k < e by {
      assert !IsBlank(IntSpace, text[k]);
    }
    assert IntStrip(text)[k - a] == text[k];
    ParseRejectsForeignChar(text, k - a);
  }

  /** Text made only of whitespace makes `int()` fail. */
  lemma ParseRejectsBlank(text: string)
    requires AllSpace(text)
    ensures ParseInt(text) == None
  {
    var a, e := StripSlice(IntSpace, text);
    if a < e {
      assert IsSpace(text[a]) && !IsIntSpace(text[a]);
      ParseRejectsSeparator(text, a);
    }
  }

  /** An underscore that does not sit between two digits — first after the
      sign, last, or next to another underscore — makes `int()` fail. */
  lemma ParseRejectsStrayUnderscore(text: string, k: nat)
    requires var t := IntStrip(text);
      && k < |t| && t[k] == '_'
      && (k == 0 || (k == 1 && t[0] in "+-") || k == |t| - 1 || (k + 1 < |t| && t[k + 1] == '_'))
    ensures ParseInt(text) == None
  {
    var t := IntStrip(text);
    if t[0] == '+' || t[0] == '-' {
      var d := t[1..];
      assert d[k - 1] == '_';
      if k + 1 < |t| && t[k + 1] == '_' {
        assert d[k] == '_';
      }
      assert !IsDigitRun(d);
    } else {
      assert !IsDigitRun(t) by {
        if k + 1 < |t| && t[k + 1] == '_' {
          assert t[k] == '_' && t[k + 1] == '_';
        }
      }
    }
  }

  lemma {:induction false} DigitCountConcat(a: string, b: string)
    ensures DigitCount(a + b) == DigitCount(a) + DigitCount(b)
  {
    var t := a + b;
    if b == [] {
      assert t == a;
    } else {
      assert t[..|t| - 1] == a + b[..|b| - 1];
      assert t[|t| - 1] == b[|b| - 1];
      DigitCountConcat(a, b[..|b| - 1]);
    }
  }

  lemma {:induction false} DigitCountOfDigits(s: string)
    requires forall k :: 0 <= k < |s| ==> IsDigit(s[k])
    ensures DigitCount(s) == |s|
  {
    if s != [] {
      DigitCountOfDigits(s[..|s| - 1]);
    }
  }

  /** More than `MaxStrDigits` digits make `int()` fail, whatever they
      spell and however many of them are leading zeros. */
  lemma ParseRejectsTooManyDigits(text: string)
    requires DigitCount(IntStrip(text)) > MaxStrDigits
    ensures ParseInt(text) == None
  {
    var t := IntStrip(text);
    if t[0] == '+' || t[0] == '-' {
      assert t[..1] + t[1..] == t;
      assert t[..1][..0] == [];
      DigitCountConcat(t[..1], t[1..]);
    }
  }

  // ---------------------------------------------------------------- str()

  /** `str(n)` for a natural number: decimal digits, no leading zero. */
  function ShowNat(n: nat): (s: string)
    ensures s != [] && forall k :: 0 <= k < |s| ==> IsDigit(s[k])
    ensures |s| > 1 ==> s[0] != '0'
  {
    if n < 10 then [DigitChar(n)] else ShowNat(n / 10) + [DigitChar(n % 10)]
  }

  /** The number of decimal digits `str()` writes for `i`. */
  function Digits(i: int): nat {
    if i < 0 then |ShowNat(-i)| else |ShowNat(i)|
  }

  /** The decimal text of `i`; `str()` gives it for an `i` of at most
      `MaxStrDigits` digits. */
  function ShowInt(i: int): (s: string)
    ensures s != [] && !IsSpace(s[0]) && !IsSpace(s[|s| - 1])
  {
    if i < 0 then "-" + ShowNat(-i) else ShowNat(i)
  }

  lemma {:induction false} DigitsValueOfShowNat(n: nat)
    ensures DigitsValue(ShowNat(n)) == n
  {
    var s := ShowNat(n);
    if n >= 10 {
      assert s[..|s| - 1] == ShowNat(n / 10);
      DigitsValueOfShowNat(n / 10);
    }
  }

  /** The digits `str()` writes for a natural number read back as that
      number, unless there are too many of them. */
  lemma DigitRunOfShowNat(n: nat)
    ensures DigitRun(ShowNat(n)) == if |ShowNat(n)| <= MaxStrDigits then Some(n) else None
  {
    DigitsValueOfShowNat(n);
    DigitCountOfDigits(ShowNat(n));
  }

  lemma ParseSignedShowInt(i: int)
    ensures ParseSigned(ShowInt(i)) == if Digits(i) <= MaxStrDigits then Some(i) else None
  {
    var t := ShowInt(i);
    if i < 0 {
      var digits := ShowNat(-i);
      assert t == "-" + digits && t[0] == '-';
      assert t[1..] == digits;
      DigitRunOfShowNat(-i);
    } else {
      assert t == ShowNat(i);
      assert IsDigit(t[0]);
      DigitRunOfShowNat(i);
    }
  }

  /** `int()` reads back what `str()` writes, whatever whitespace `int()`
      skips surrounds it, as long as it has at most `MaxStrDigits` digits;
      a longer one is a ValueError. */
  lemma ParseShowInt(i: int, w1: string, w2: string)
    requires AllIntSpace(w1) && AllIntSpace(w2)
    ensures ParseInt(w1 + ShowInt(i) + w2) == if Digits(i) <= MaxStrDigits then Some(i) else None
  {
    StripAround(IntSpace, w1, ShowInt(i), w2);
    ParseSignedShowInt(i);
  }

  lemma ParseShowIntBare(i: int)
    ensures ParseInt(ShowInt(i)) == if Digits(i) <= MaxStrDigits then Some(i) else None
  {
    ParseShowInt(i, [], []);
    assert [] + ShowInt(i) + [] == ShowInt(i);
  }

  /** `z` zeros. */
  function Zeros(z: nat): (s: string)
    ensures |s| == z && forall k :: 0 <= k < z ==> s[k] == '0'
  {
    seq(z, _ => '0')
  }

  lemma {:induction false} DigitsValueOfZeros(z: nat)
    ensures DigitsValue(Zeros(z)) == 0
  {
    if z > 0 {
      assert Zeros(z)[..z - 1] == Zeros(z - 1);
      DigitsValueOfZeros(z - 1);
    }
  }

  lemma {:induction false} DigitsValueLeadingZeros(z: nat, s: string)
    ensures DigitsValue(Zeros(z) + s) == DigitsValue(s)
  {
    var t := Zeros(z) + s;
    if s == [] {
      assert t == Zeros(z);
      DigitsValueOfZeros(z);
    } else {
      assert t[..|t| - 1] == Zeros(z) + s[..|s| - 1];
      assert t[|t| - 1] == s[|s| - 1];
      DigitsValueLeadingZeros(z, s[..|s| - 1]);
    }
  }

  /** Leading zeros do not change the value of a digit run, but they count
      towards the digit limit. */
  lemma DigitRunLeadingZeros(z: nat, n: nat)
    ensures var d := Zeros(z) + ShowNat(n); IsDigit(d[0]) && IsDigit(d[|d| - 1])
    ensures DigitRun(Zeros(z) + ShowNat(n)) == if z + |ShowNat(n)| <= MaxStrDigits then Some(n) else None
  {
    var d := Zeros(z) + ShowNat(n);
    assert forall k :: 0 <= k < |d| ==> IsDigit(d[k]) by {
      assert forall k :: 0 <= k < |d| ==> d[k] == (if k < z then '0' else ShowNat(n)[k - z]);
    }
    assert IsDigitRun(d);
    DigitCountOfDigits(d);
    DigitsValueLeadingZeros(z, ShowNat(n));
    DigitsValueOfShowNat(n);
  }

  /** A sign followed by a digit run is read as that run's value, signed. */
  lemma ParseSignedRun(sign: string, d: string)
    requires sign == "" || sign == "+" || sign == "-"
    requires d != [] && IsDigit(d[0]) && IsDigit(d[|d| - 1])
    ensures ParseInt(sign + d) ==
      match DigitRun(d)
      case None => None
      case Some(v) => Some(if sign == "-" then -(v as int) else v as int)
  {
    var t := sign + d;
    assert t[|t| - 1] == d[|d| - 1];
    if sign == "" {
      assert t == d;
    } else {
      assert t[0] == sign[0];
      assert t[1..] == d;
    }
    StripBare(IntSpace, t);
  }

  /** `int()` accepts a `+` or `-` sign and leading zeros: `int("+007") == 7`;
      the zeros count towards the digit limit. */
  lemma ParseSignedZeros(sign: string, z: nat, n: nat)
    requires sign == "" || sign == "+" || sign == "-"
    ensures ParseInt(sign + Zeros(z) + ShowNat(n)) ==
      if z + |ShowNat(n)| <= MaxStrDigits then Some(if sign == "-" then -(n as int) else n as int) else None
  {
    var d := Zeros(z) + ShowNat(n);
    SeqAssoc(sign, Zeros(z), ShowNat(n));
    DigitRunLeadingZeros(z, n);
    ParseSignedRun(sign, d);
    if z + |ShowNat(n)| <= MaxStrDigits {
      assert DigitRun(d) == Some(n);
    } else {
      assert DigitRun(d) == None;
    }
  }

  lemma {:induction false} DigitsValueSkipsUnderscore(a: string, b: string)
    ensures DigitsValue(a + "_" + b) == DigitsValue(a + b)
  {
    var s, t := a + "_" + b, a + b;
    if b == [] {
      assert s[..|s| - 1] == a && t == a;
    } else {
      var b' := b[..|b| - 1];
      assert s[|s| - 1] == t[|t| - 1] == b[|b| - 1];
      assert s[..|s| - 1] == a + "_" + b' && t[..|t| - 1] == a + b';
      DigitsValueSkipsUnderscore(a, b');
    }
  }

  lemma DigitRunSkipsUnderscore(a: string, b: string)
    requires a != [] && forall k :: 0 <= k < |a| ==> IsDigit(a[k])
    requires b != [] && forall k :: 0 <= k < |b| ==> IsDigit(b[k])
    ensures DigitRun(a + "_" + b) == DigitRun(a + b)
    ensures DigitRun(a + b).Some? <==> |a| + |b| <= MaxStrDigits
  {
    DigitsValueSkipsUnderscore(a, b);
    DigitCountOfDigits(a);
    DigitCountOfDigits(b);
    DigitCountConcat(a, b);
    DigitCountConcat(a, "_");
    DigitCountConcat(a + "_", b);
    assert "_"[..0] == [];
    var s, t := a + "_" + b, a + b;
    assert IsDigitRun(t) by {
      assert forall k :: 0 <= k < |t| ==> t[k] == (if k < |a| then a[k] else b[k - |a|]);
    }
    assert IsDigitRun(s) by {
      assert forall k :: 0 <= k < |s| ==> s[k] == (if k < |a| then a[k] else if k == |a| then '_' else b[k - |a| - 1]);
    }
  }

  /** `int()` ignores a single underscore between two digits:
      `int("1_000") == int("1000")`, and the underscore does not count
      towards the digit limit. */
  lemma ParseSkipsUnderscore(a: string, b: string)
    requires a != [] && forall k :: 0 <= k < |a| ==> IsDigit(a[k])
    requires b != [] && forall k :: 0 <= k < |b| ==> IsDigit(b[k])
    ensures ParseInt(a + "_" + b) == ParseInt(a + b)
    ensures ParseInt(a + b).Some? <==> |a| + |b| <= MaxStrDigits
  {
    var s, t := a + "_" + b, a + b;
    DigitRunSkipsUnderscore(a, b);
    assert s[0] == a[0] && s[|s| - 1] == b[|b| - 1];
    assert t[0] == a[0] && t[|t| - 1] == b[|b| - 1];
    StripBare(IntSpace, s);
    StripBare(IntSpace, t);
  }
}
