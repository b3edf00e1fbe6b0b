/**
 * The pieces of Python's `str` behaviour the monitor relies on: whitespace
 * and digit classes, `startswith`, `in`, `split(sep)`, `'sep'.join(...)`,
 * `strip()`, `upper()` and decimal digit strings.
 */
module Text {
  import opened Wrappers

  /** `str.isspace()`: the characters `strip()` removes and `\s` matches. */
  predicate IsSpace(c: char) {
    c == ' ' || '\t' <= c <= '\r' || '\U{1C}' <= c <= '\U{1F}' ||
    c == '\U{85}' || c == '\U{A0}' || c == '\U{1680}' ||
    '\U{2000}' <= c <= '\U{200A}' || c == '\U{2028}' || c == '\U{2029}' ||
    c == '\U{202F}' || c == '\U{205F}' || c == '\U{3000}'
  }


  /** The ASCII decimal digits, which is what `\d` and `int()` meet in `usb-devices` output. */
  predicate IsDigit(c: char) { '0' <= c <= '9' }

  predicate AllSpace(s: string) { forall k :: 0 <= k < |s| ==> IsSpace(s[k]) }

  predicate AllNonSpace(s: string) { forall k :: 0 <= k < |s| ==> !IsSpace(s[k]) }

  predicate AllDigits(s: string) { forall k :: 0 <= k < |s| ==> IsDigit(s[k]) }

  /** What `\S+` can match: a non-empty run of non-whitespace. */
  predicate IsToken(s: string) { s != [] && AllNonSpace(s) }

  /** What `\d+` can match: a non-empty run of digits. */
  predicate IsDigits(s: string) { s != [] && AllDigits(s) }

  /** `p` occurs in `s` at position `i`. */
  predicate StartsAt(s: string, i: nat, p: string) {
    i + |p| <= |s| && s[i..i + |p|] == p
  }

  /** `s.startswith(p)`. */
  predicate StartsWith(s: string, p: string) { StartsAt(s, 0, p) }

  /** The first position at or after `from` where `p` occurs (`s.find(p, from)`). */
  function IndexOf(s: string, p: string, from: nat): (r: Option<nat>)
    requires p != []
    decreases |s| - from
    ensures r.Some? ==> from <= r.value && StartsAt(s, r.value, p)
    ensures r.Some? ==> forall j :: from <= j < r.value ==> !StartsAt(s, j, p)
    ensures r.None? ==> forall j :: from <= j ==> !StartsAt(s, j, p)
  {
    if from + |p| > |s| then None
    else if s[from..from + |p|] == p then Some(from)
    else IndexOf(s, p, from + 1)
  }

  /** `p in s`, for a non-empty `p`. */
  predicate Contains(s: string, p: string)
    requires p != []
  {
    IndexOf(s, p, 0).Some?
  }

  lemma ContainsIff(s: string, p: string)
    requires p != []
    ensures Contains(s, p) <==> exists i :: StartsAt(s, i, p)
  {
  }

  /** The first occurrence of `p` is the one with no occurrence before it. */
  lemma IndexOfIs(s: string, p: string, i: nat)
    requires p != [] && StartsAt(s, i, p) && forall j :: 0 <= j < i ==> !StartsAt(s, j, p)
    ensures IndexOf(s, p, 0) == Some(i)
  {
  }

  lemma IndexOfNone(s: string, p: string)
    requires p != [] && forall j :: 0 <= j ==> !StartsAt(s, j, p)
    ensures !Contains(s, p)
  {
  }

  /** `s.split(sep)` for a non-empty separator: the pieces between the leftmost non-overlapping occurrences. */
  function Split(s: string, sep: string): (r: seq<string>)
    requires sep != []
    decreases |s|
    ensures |r| >= 1
  {
    var idx := IndexOf(s, sep, 0);
    if idx.None? then [s] else [s[..idx.value]] + Split(s[idx.value + |sep|..], sep)
  }

  /** `sep.join(xs)`. */
  function Join(xs: seq<string>, sep: string): string
    decreases |xs|
  {
    if xs == [] then ""
    else if |xs| == 1 then xs[0]
    else xs[0] + sep + Join(xs[1..], sep)
  }

  /** `[sep.join(x) for x in xss]`. */
  function JoinEach(xss: seq<seq<string>>, sep: string): (r: seq<string>)
    ensures |r| == |xss|
    ensures forall k :: 0 <= k < |xss| ==> r[k] == Join(xss[k], sep)
  {
    seq(|xss|, k requires 0 <= k < |xss| => Join(xss[k], sep))
  }

  lemma JoinCons(x: string, tail: seq<string>, sep: string)
    requires tail != []
    ensures Join([x] + tail, sep) == x + sep + Join(tail, sep)
  {
    assert ([x] + tail)[1..] == tail;
  }

  /** Joining two non-empty lists is joining each and putting one separator between. */
  lemma {:induction false} JoinAppend(a: seq<string>, b: seq<string>, sep: string)
    requires a != [] && b != []
    ensures Join(a + b, sep) == Join(a, sep) + sep + Join(b, sep)
    decreases |a|
  {
    if |a| == 1 {
      assert a + b == [a[0]] + b;
      JoinCons(a[0], b, sep);
    } else {
      assert a + b == [a[0]] + (a[1..] + b);
      JoinCons(a[0], a[1..] + b, sep);
      JoinAppend(a[1..], b, sep);
    }
  }

  /** `s` around an occurrence of `p` at `i`. */
  lemma AroundOccurrence(s: string, p: string, i: nat)
    requires StartsAt(s, i, p)
    ensures s == s[..i] + p + s[i + |p|..]
  {
    assert s == s[..i] + s[i..i + |p|] + s[i + |p|..];
  }

  lemma SplitUnfold(s: string, sep: string, i: nat)
    requires sep != [] && IndexOf(s, sep, 0).Some? && IndexOf(s, sep, 0).value == i
    ensures i + |sep| <= |s|
    ensures Split(s, sep) == [s[..i]] + Split(s[i + |sep|..], sep)
    ensures s == s[..i] + sep + s[i + |sep|..]
  {
    AroundOccurrence(s, sep, i);
  }

  /** Joining the pieces of a split gives back the original text. */
  lemma {:induction false} SplitJoin(s: string, sep: string)
    requires sep != []
    ensures Join(Split(s, sep), sep) == s
    decreases |s|
  {
    var idx := IndexOf(s, sep, 0);
    if idx.Some? {
      var i := idx.value;
      SplitUnfold(s, sep, i);
      var rest := s[i + |sep|..];
      SplitJoin(rest, sep);
      JoinCons(s[..i], Split(rest, sep), sep);
    }
  }

  /** No piece of a split contains the separator. */
  lemma {:induction false} SplitPiecesFree(s: string, sep: string)
    requires sep != []
    ensures forall k, j :: 0 <= k < |Split(s, sep)| ==> !StartsAt(Split(s, sep)[k], j, sep)
    decreases |s|
  {
    match IndexOf(s, sep, 0)
    case None =>
      forall j ensures !StartsAt(s, j, sep) { }
    case Some(i) =>
      var rest := s[i + |sep|..];
      SplitPiecesFree(rest, sep);
      forall j: nat | StartsAt(s[..i], j, sep) ensures false {
        assert s[..i][j..j + |sep|] == s[j..j + |sep|];
        assert StartsAt(s, j, sep);
      }
  }

  /** `s.split(sep)[0]`: the text before the first occurrence of `sep`, or all of `s`. */
  lemma SplitFirstPiece(s: string, sep: string)
    requires sep != []
    ensures var v := Split(s, sep)[0];
      |v| <= |s| && s[..|v|] == v && (|v| == |s| || StartsAt(s, |v|, sep))
  {
    match IndexOf(s, sep, 0)
    case None =>
    case Some(j) => SplitUnfold(s, sep, j);
  }

  lemma SplitSecondIsFirstOfRest(s: string, sep: string, i: nat)
    requires sep != [] && IndexOf(s, sep, 0).Some? && IndexOf(s, sep, 0).value == i
    ensures |Split(s, sep)| >= 2 && Split(s, sep)[1] == Split(s[i + |sep|..], sep)[0]
  {
    SplitUnfold(s, sep, i);
  }

  /** A prefix of the suffix `s[a..]`, read as a slice of `s`. */
  lemma PrefixOfSuffix(s: string, a: nat, v: string, sep: string)
    requires a <= |s| && |v| <= |s[a..]| && s[a..][..|v|] == v
    requires |v| == |s[a..]| || StartsAt(s[a..], |v|, sep)
    ensures a + |v| <= |s| && s[a..a + |v|] == v && (a + |v| == |s| || StartsAt(s, a + |v|, sep))
  {
    var rest := s[a..];
    assert s[a..a + |v|] == rest[..|v|];
    if |v| < |rest| && StartsAt(rest, |v|, sep) {
      assert rest[|v|..|v| + |sep|] == s[a + |v|..a + |v| + |sep|];
    }
  }

  /**
   * `s.split(sep)[1]` when `sep` first occurs at `i`: the text that follows
   * that occurrence, up to the next occurrence or the end of `s`.
   */
  lemma SplitSecondPiece(s: string, sep: string, i: nat) returns (v: string)
    requires sep != [] && IndexOf(s, sep, 0).Some? && IndexOf(s, sep, 0).value == i
    ensures |Split(s, sep)| >= 2 && v == Split(s, sep)[1]
    ensures i + |sep| + |v| <= |s| && s[i + |sep|..i + |sep| + |v|] == v
    ensures i + |sep| + |v| == |s| || StartsAt(s, i + |sep| + |v|, sep)
  {
    SplitSecondIsFirstOfRest(s, sep, i);
    var a := i + |sep|;
    var rest := s[a..];
    SplitFirstPiece(rest, sep);
    v := Split(rest, sep)[0];
    PrefixOfSuffix(s, a, v, sep);
  }

  /** `x` followed by `sep` holds no occurrence of `sep` that starts inside `x`. */
  predicate SepOnlyAfter(x: string, sep: string) {
    forall j :: 0 <= j < |x| ==> !StartsAt(x + sep, j, sep)
  }

  /** A piece that lets no occurrence start early holds no occurrence. */
  lemma SepOnlyAfterNone(x: string, sep: string)
    requires sep != [] && SepOnlyAfter(x, sep)
    ensures IndexOf(x, sep, 0).None?
  {
    forall j: nat ensures !StartsAt(x, j, sep) {
      if j + |sep| <= |x| {
        assert j < |x| && !StartsAt(x + sep, j, sep);
        assert (x + sep)[j..j + |sep|] == x[j..j + |sep|];
      }
    }
  }

  /** In `x + sep + rest`, the first occurrence of `sep` is the one after `x`. */
  lemma SepOnlyAfterFirst(x: string, sep: string, rest: string)
    requires sep != [] && SepOnlyAfter(x, sep)
    ensures IndexOf(x + sep + rest, sep, 0).Some? && IndexOf(x + sep + rest, sep, 0).value == |x|
  {
    var s := x + sep + rest;
    forall j | 0 <= j < |x| ensures !StartsAt(s, j, sep) {
      if StartsAt(s, j, sep) {
        assert s[j..j + |sep|] == (x + sep)[j..j + |sep|];
        assert StartsAt(x + sep, j, sep);
      }
    }
    assert s[|x|..|x| + |sep|] == sep;
    IndexOfIs(s, sep, |x|);
  }

  /** Splitting a join gives back the pieces, when no piece lets an occurrence of the separator start early. */
  lemma {:induction false} JoinSplit(xs: seq<string>, sep: string)
    requires sep != [] && xs != []
    requires forall k :: 0 <= k < |xs| ==> SepOnlyAfter(xs[k], sep)
    ensures Split(Join(xs, sep), sep) == xs
    decreases |xs|
  {
    var x := xs[0];
    if |xs| == 1 {
      SepOnlyAfterNone(x, sep);
    } else {
      var rest := Join(xs[1..], sep);
      var s := x + sep + rest;
      assert Join(xs, sep) == s;
      SepOnlyAfterFirst(x, sep, rest);
      SplitUnfold(s, sep, |x|);
      assert s[..|x|] == x;
      assert s[|x| + |sep|..] == rest;
      JoinSplit(xs[1..], sep);
      assert Split(s, sep) == [x] + xs[1..];
    }
  }

  /** A piece free of the one-character separator lets no occurrence start early. */
  lemma CharSepOnlyAfter(x: string, c: char)
    requires c !in x
    ensures SepOnlyAfter(x, [c])
  {
    forall j | 0 <= j < |x| ensures !StartsAt(x + [c], j, [c]) {
      assert (x + [c])[j] == x[j];
      if j + 1 <= |x + [c]| {
        assert (x + [c])[j..j + 1][0] == x[j];
      }
    }
  }

  /** A join starts with the first piece's first character. */
  lemma JoinFirst(xs: seq<string>, sep: string)
    requires xs != [] && xs[0] != []
    ensures Join(xs, sep) != [] && Join(xs, sep)[0] == xs[0][0]
  {
  }

  /** A join ends with the last piece's last character. */
  lemma JoinLast(xs: seq<string>, sep: string)
    requires xs != [] && xs[|xs| - 1] != []
    ensures Join(xs, sep) != [] && Join(xs, sep)[|Join(xs, sep)| - 1] == xs[|xs| - 1][|xs[|xs| - 1]| - 1]
  {
    var n := |xs| - 1;
    if n > 0 {
      assert xs == xs[..n] + [xs[n]];
      JoinAppend(xs[..n], [xs[n]], sep);
    }
  }

  /** Text free of `c` does not hold `c` twice in a row. */
  lemma CharFreeNoPair(x: string, c: char, j: nat)
    requires c !in x
    ensures !StartsAt(x, j, [c, c])
  {
    if j + 2 <= |x| {
      assert x[j..j + 2][0] == x[j];
    }
  }

  /**
   * Non-empty pieces free of the character `c`, joined by `c`, never hold
   * `c` twice in a row.
   */
  lemma {:induction false} JoinNoDoubled(xs: seq<string>, c: char)
    requires forall k :: 0 <= k < |xs| ==> xs[k] != [] && c !in xs[k]
    ensures forall j :: 0 <= j ==> !StartsAt(Join(xs, [c]), j, [c, c])
    decreases |xs|
  {
    if |xs| == 1 {
      forall j | 0 <= j ensures !StartsAt(Join(xs, [c]), j, [c, c]) {
        CharFreeNoPair(xs[0], c, j);
      }
    } else if |xs| > 1 {
      var x := xs[0];
      var r := Join(xs[1..], [c]);
      var s := Join(xs, [c]);
      assert s == x + [c] + r;
      JoinNoDoubled(xs[1..], c);
      JoinFirst(xs[1..], [c]);
      forall j | 0 <= j ensures !StartsAt(s, j, [c, c]) {
        if StartsAt(s, j, [c, c]) {
          assert s[j] == c && s[j + 1] == c by {
            assert s[j..j + 2][0] == s[j] && s[j..j + 2][1] == s[j + 1];
          }
          if j > |x| {
            var i := j - |x| - 1;
            assert r[i..i + 2] == s[j..j + 2];
            assert StartsAt(r, i, [c, c]);
          }
        }
      }
    }
  }

  /** `s.lstrip()`. */
  function LStrip(s: string): (r: string)
    decreases |s|
  {
    if s != [] && IsSpace(s[0]) then LStrip(s[1..]) else s
  }

  /** `s.rstrip()`. */
  function RStrip(s: string): (r: string)
    decreases |s|
  {
    if s != [] && IsSpace(s[|s| - 1]) then RStrip(s[..|s| - 1]) else s
  }

  /** `s.strip()`. */
  function Strip(s: string): string {
    RStrip(LStrip(s))
  }

  lemma {:induction false} LStripShape(s: string)
    ensures |LStrip(s)| <= |s|
    ensures LStrip(s) == s[|s| - |LStrip(s)|..] && AllSpace(s[..|s| - |LStrip(s)|])
    ensures LStrip(s) == [] || !IsSpace(LStrip(s)[0])
    decreases |s|
  {
    if s != [] && IsSpace(s[0]) {
      var t := s[1..];
      LStripShape(t);
      var i := |t| - |LStrip(t)|;
      assert t[i..] == s[i + 1..];
      var w := s[..i + 1];
      forall k | 0 <= k < |w| ensures IsSpace(w[k]) {
        if k > 0 { assert w[k] == t[..i][k - 1]; }
      }
    } else {
      assert s[0..] == s && s[..0] == [];
    }
  }

  lemma {:induction false} RStripShape(s: string)
    ensures |RStrip(s)| <= |s|
    ensures RStrip(s) == s[..|RStrip(s)|] && AllSpace(s[|RStrip(s)|..])
    ensures RStrip(s) == [] || !IsSpace(RStrip(s)[|RStrip(s)| - 1])
    decreases |s|
  {
    if s != [] && IsSpace(s[|s| - 1]) {
      var t := s[..|s| - 1];
      RStripShape(t);
      var j := |RStrip(t)|;
      assert t[..j] == s[..j];
      var w := s[j..];
      forall k | 0 <= k < |w| ensures IsSpace(w[k]) {
        if k < |w| - 1 { assert w[k] == t[j..][k]; }
      }
    } else {
      assert s[..|s|] == s && s[|s|..] == [];
    }
  }

  /** `strip()` removes only leading and trailing whitespace: what is left is a slice of `s` between two runs of whitespace. */
  lemma StripShape(s: string) returns (i: nat)
    ensures i + |Strip(s)| <= |s| && Strip(s) == s[i..i + |Strip(s)|]
    ensures AllSpace(s[..i]) && AllSpace(s[i + |Strip(s)|..])
  {
    LStripShape(s);
    var l := LStrip(s);
    i := |s| - |l|;
    RStripShape(l);
    var j := |RStrip(l)|;
    assert l[..j] == s[i..i + j];
    assert s[i + j..] == l[j..];
  }

  /** `strip()` leaves no whitespace at either end. */
  lemma StripEnds(s: string)
    ensures Strip(s) == [] || (!IsSpace(Strip(s)[0]) && !IsSpace(Strip(s)[|Strip(s)| - 1]))
  {
    LStripShape(s);
    var l := LStrip(s);
    RStripShape(l);
    if Strip(s) != [] {
      assert Strip(s)[0] == l[0];
    }
  }

  /** Text that neither starts nor ends with whitespace is left alone by `strip()`. */
  lemma StripUnchanged(s: string)
    requires s == [] || (!IsSpace(s[0]) && !IsSpace(s[|s| - 1]))
    ensures Strip(s) == s
  {
  }

  /** `strip()` leaves nothing to strip. */
  lemma StripIdempotent(s: string)
    ensures Strip(Strip(s)) == Strip(s)
  {
    StripEnds(s);
    StripUnchanged(Strip(s));
  }

  /** ASCII `upper()` on one character. */
  function UpperChar(c: char): char {
    if 'a' <= c <= 'z' then (c as int - 'a' as int + 'A' as int) as char else c
  }

  /** `s.upper()` on ASCII text. */
  function Upper(s: string): (r: string)
    ensures |r| == |s|
    ensures forall k :: 0 <= k < |s| ==> r[k] == UpperChar(s[k])
  {
    seq(|s|, k requires 0 <= k < |s| => UpperChar(s[k]))
  }

  /** The end of the greedy run of whitespace that starts at `i` (`\s*`). */
  function SpaceEnd(s: string, i: nat): (r: nat)
    requires i <= |s|
    decreases |s| - i
    ensures i <= r <= |s| && AllSpace(s[i..r]) && (r < |s| ==> !IsSpace(s[r]))
  {
    if i < |s| && IsSpace(s[i]) then
      var r := SpaceEnd(s, i + 1);
      assert s[i..r] == [s[i]] + s[i + 1..r];
      r
    else i
  }

  /** The end of the greedy run of non-whitespace that starts at `i` (`\S*`). */
  function NonSpaceEnd(s: string, i: nat): (r: nat)
    requires i <= |s|
    decreases |s| - i
    ensures i <= r <= |s| && AllNonSpace(s[i..r]) && (r < |s| ==> IsSpace(s[r]))
  {
    if i < |s| && !IsSpace(s[i]) then
      var r := NonSpaceEnd(s, i + 1);
      assert s[i..r] == [s[i]] + s[i + 1..r];
      r
    else i
  }

  /** The end of the greedy run of digits that starts at `i` (`\d*`). */
  function DigitEnd(s: string, i: nat): (r: nat)
    requires i <= |s|
    decreases |s| - i
    ensures i <= r <= |s| && AllDigits(s[i..r]) && (r < |s| ==> !IsDigit(s[r]))
  {
    if i < |s| && IsDigit(s[i]) then
      var r := DigitEnd(s, i + 1);
      assert s[i..r] == [s[i]] + s[i + 1..r];
      r
    else i
  }

  /** A greedy run is determined by where it starts. */
  lemma SpaceEndIs(s: string, i: nat, j: nat)
    requires i <= j <= |s| && AllSpace(s[i..j]) && (j < |s| ==> !IsSpace(s[j]))
    ensures SpaceEnd(s, i) == j
  {
    var r := SpaceEnd(s, i);
    forall k | i <= k < j ensures IsSpace(s[k]) { assert s[i..j][k - i] == s[k]; }
    forall k | i <= k < r ensures IsSpace(s[k]) { assert s[i..r][k - i] == s[k]; }
  }

  lemma NonSpaceEndIs(s: string, i: nat, j: nat)
    requires i <= j <= |s| && AllNonSpace(s[i..j]) && (j < |s| ==> IsSpace(s[j]))
    ensures NonSpaceEnd(s, i) == j
  {
    var r := NonSpaceEnd(s, i);
    forall k | i <= k < j ensures !IsSpace(s[k]) { assert s[i..j][k - i] == s[k]; }
    forall k | i <= k < r ensures !IsSpace(s[k]) { assert s[i..r][k - i] == s[k]; }
  }

  lemma DigitEndIs(s: string, i: nat, j: nat)
    requires i <= j <= |s| && AllDigits(s[i..j]) && (j < |s| ==> !IsDigit(s[j]))
    ensures DigitEnd(s, i) == j
  {
    var r := DigitEnd(s, i);
    forall k | i <= k < j ensures IsDigit(s[k]) { assert s[i..j][k - i] == s[k]; }
    forall k | i <= k < r ensures IsDigit(s[k]) { assert s[i..r][k - i] == s[k]; }
  }

  function DigitValue(c: char): nat
    requires IsDigit(c)
  {
    c as int - '0' as int
  }

  function DigitChar(d: nat): (c: char)
    requires d < 10
    ensures IsDigit(c) && DigitValue(c) == d
  {
    ('0' as int + d) as char
  }

  /** `int(s)` for a string of decimal digits. */
  function DigitsValue(s: string): nat
    requires forall k :: 0 <= k < |s| ==> IsDigit(s[k])
    decreases |s|
  {
    if s == [] then 0 else DigitsValue(s[..|s| - 1]) * 10 + DigitValue(s[|s| - 1])
  }

  /** `str(n)`: the decimal digits of `n`, without leading zeros. */
  function DecimalString(n: nat): (r: string)
    decreases n
    ensures IsDigits(r)
    ensures r[0] == '0' ==> r == "0"
  {
    if n < 10 then [DigitChar(n)] else DecimalString(n / 10) + [DigitChar(n % 10)]
  }

  /** `int(str(n)) == n`. */
  lemma {:induction false} DecimalRoundTrip(n: nat)
    ensures DigitsValue(DecimalString(n)) == n
    decreases n
  {
    if n >= 10 {
      DecimalRoundTrip(n / 10);
      var s := DecimalString(n);
      assert s[..|s| - 1] == DecimalString(n / 10);
    }
  }
}
