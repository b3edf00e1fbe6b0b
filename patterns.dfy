/**
 * The five regular expressions of the block parser, each as a matcher tried
 * at one position, and `re.search`, which takes the leftmost position where
 * the matcher succeeds.
 *
 * In each pattern the greedy runs (`\s*`, `\s+`, `\S+`, `\d+`) are followed by
 * something the run's class excludes, so backtracking into a run never
 * yields a match: a pattern matches at a position iff the maximal runs do.
 * Each matcher comes with a soundness lemma (a match is made of the pieces
 * the pattern names) and a completeness lemma (text made of those pieces
 * matches, with exactly those groups).
 */
module Patterns {
  import opened Wrappers
  import opened Text

  /** The leftmost position at or after `from` where `m` succeeds. */
  function FirstMatchFrom<T>(s: string, m: (string, nat) -> Option<T>, from: nat): (r: Option<nat>)
    decreases |s| + 1 - from
    ensures r.Some? ==> from <= r.value <= |s| && m(s, r.value).Some?
    ensures forall j :: from <= j <= |s| && (r.None? || j < r.value) ==> m(s, j).None?
  {
    if from > |s| then None
    else if m(s, from).Some? then Some(from)
    else FirstMatchFrom(s, m, from + 1)
  }

  /** `re.search`: the groups of the leftmost match, if there is one. */
  function Search<T>(s: string, m: (string, nat) -> Option<T>): (r: Option<T>)
    ensures r.None? <==> forall i :: 0 <= i <= |s| ==> m(s, i).None?
  {
    match FirstMatchFrom(s, m, 0)
    case None => None
    case Some(i) => m(s, i)
  }

  /** A match found by `Search` is the one at the leftmost matching position. */
  lemma SearchIsLeftmost<T>(s: string, m: (string, nat) -> Option<T>, i: nat)
    requires i <= |s| && m(s, i).Some?
    requires forall j :: 0 <= j < i ==> m(s, j).None?
    ensures Search(s, m) == m(s, i)
  {
  }

  /** A match found by `Search` comes from a position before which nothing matches. */
  lemma SearchSome<T>(s: string, m: (string, nat) -> Option<T>) returns (i: nat)
    requires Search(s, m).Some?
    ensures i <= |s| && m(s, i).Some? && m(s, i).value == Search(s, m).value
    ensures forall j :: 0 <= j < i ==> m(s, j).None?
  {
    i := FirstMatchFrom(s, m, 0).value;
  }

  /** Cutting a suffix of `s` at a position splits it into two suffixes. */
  lemma CutSuffix(s: string, i: nat, x: string, y: string)
    requires i <= |s| && s[i..] == x + y
    ensures i + |x| <= |s| && s[i..i + |x|] == x && s[i + |x|..] == y
  {
    assert s[i..][..|x|] == x && s[i..][|x|..] == y;
  }

  lemma CutSlice(s: string, i: nat, j: nat, x: string, y: string)
    requires i <= j <= |s| && s[i..j] == x + y
    ensures i + |x| <= j && s[i..i + |x|] == x && s[i + |x|..j] == y
  {
    assert s[i..j][..|x|] == x && s[i..j][|x|..] == y;
  }

  /** A suffix of `s` cut at the positions `cuts`, written as the concatenation of its pieces. */
  lemma Glue3(s: string, i: nat, a: nat, b: nat)
    requires i <= a <= b <= |s|
    ensures s[i..] == s[i..a] + s[a..b] + s[b..]
  {
  }

  lemma Glue4(s: string, i: nat, a: nat, b: nat, c: nat)
    requires i <= a <= b <= c <= |s|
    ensures s[i..] == s[i..a] + s[a..b] + s[b..c] + s[c..]
  {
  }

  lemma Glue5(s: string, i: nat, a: nat, b: nat, c: nat, d: nat)
    requires i <= a <= b <= c <= d <= |s|
    ensures s[i..] == s[i..a] + s[a..b] + s[b..c] + s[c..d] + s[d..]
  {
  }

  lemma Glue6(s: string, i: nat, a: nat, b: nat, c: nat, d: nat, e: nat)
    requires i <= a <= b <= c <= d <= e <= |s|
    ensures s[i..] == s[i..a] + s[a..b] + s[b..c] + s[c..d] + s[d..e] + s[e..]
  {
  }

  lemma GlueSlice3(s: string, a: nat, b: nat, c: nat, d: nat)
    requires a <= b <= c <= d <= |s|
    ensures s[a..d] == s[a..b] + s[b..c] + s[c..d]
  {
  }

  /** `Spd=\s*(\S+)` at position `i`. */
  function SpdAt(s: string, i: nat): (r: Option<string>)
    ensures r.Some? ==> IsToken(r.value)
  {
    if !StartsAt(s, i, "Spd=") then None
    else
      var b := SpaceEnd(s, i + 4);
      var e := NonSpaceEnd(s, b);
      if b < e then Some(s[b..e]) else None
  }

  lemma SpdAtSound(s: string, i: nat) returns (w: string, rest: string)
    requires SpdAt(s, i).Some?
    ensures i <= |s| && s[i..] == "Spd=" + w + SpdAt(s, i).value + rest
    ensures AllSpace(w) && (rest == [] || IsSpace(rest[0]))
  {
    var b := SpaceEnd(s, i + 4);
    var e := NonSpaceEnd(s, b);
    w, rest := s[i + 4..b], s[e..];
    Glue4(s, i, i + 4, b, e);
  }

  lemma SpdAtFromSlices(s: string, i: nat, b: nat, e: nat)
    requires i + 4 <= b < e <= |s| && s[i..i + 4] == "Spd="
    requires AllSpace(s[i + 4..b]) && IsToken(s[b..e]) && (e < |s| ==> IsSpace(s[e]))
    ensures SpdAt(s, i).Some? && SpdAt(s, i).value == s[b..e]
  {
    SpaceEndIs(s, i + 4, b);
    NonSpaceEndIs(s, b, e);
  }

  lemma SpdAtComplete(s: string, i: nat, w: string, g: string, rest: string)
    requires i <= |s| && s[i..] == "Spd=" + w + g + rest
    requires AllSpace(w) && IsToken(g) && (rest == [] || IsSpace(rest[0]))
    ensures SpdAt(s, i).Some? && SpdAt(s, i).value == g
  {
    var b := i + 4 + |w|;
    var e := b + |g|;
    CutSuffix(s, i, "Spd=" + w + g, rest);
    CutSlice(s, i, e, "Spd=" + w, g);
    CutSlice(s, i, b, "Spd=", w);
    SpdAtFromSlices(s, i, b, e);
  }

  /** `Bus=(\d+)` at position `i`. */
  function BusAt(s: string, i: nat): (r: Option<string>)
    ensures r.Some? ==> IsDigits(r.value)
  {
    if !StartsAt(s, i, "Bus=") then None
    else
      var e := DigitEnd(s, i + 4);
      if i + 4 < e then Some(s[i + 4..e]) else None
  }

  lemma BusAtSound(s: string, i: nat) returns (rest: string)
    requires BusAt(s, i).Some?
    ensures i <= |s| && s[i..] == "Bus=" + BusAt(s, i).value + rest
    ensures rest == [] || !IsDigit(rest[0])
  {
    var e := DigitEnd(s, i + 4);
    rest := s[e..];
    Glue3(s, i, i + 4, e);
  }

  lemma BusAtFromSlices(s: string, i: nat, e: nat)
    requires i + 4 < e <= |s| && s[i..i + 4] == "Bus="
    requires IsDigits(s[i + 4..e]) && (e < |s| ==> !IsDigit(s[e]))
    ensures BusAt(s, i).Some? && BusAt(s, i).value == s[i + 4..e]
  {
    DigitEndIs(s, i + 4, e);
  }

  lemma BusAtComplete(s: string, i: nat, d: string, rest: string)
    requires i <= |s| && s[i..] == "Bus=" + d + rest
    requires IsDigits(d) && (rest == [] || !IsDigit(rest[0]))
    ensures BusAt(s, i).Some? && BusAt(s, i).value == d
  {
    var e := i + 4 + |d|;
    CutSuffix(s, i, "Bus=" + d, rest);
    CutSlice(s, i, e, "Bus=", d);
    BusAtFromSlices(s, i, e);
  }

  /** `Ver=\s*(\d+\.\d+)` at position `i`. */
  function VerAt(s: string, i: nat): (r: Option<string>)
  {
    if !StartsAt(s, i, "Ver=") then None
    else
      var b := SpaceEnd(s, i + 4);
      var c := DigitEnd(s, b);
      if b < c && c < |s| && s[c] == '.' then
        var e := DigitEnd(s, c + 1);
        if c + 1 < e then Some(s[b..e]) else None
      else None
  }

  lemma VerAtSound(s: string, i: nat) returns (w: string, major: string, minor: string, rest: string)
    requires VerAt(s, i).Some?
    ensures i <= |s| && s[i..] == "Ver=" + w + major + "." + minor + rest
    ensures VerAt(s, i).value == major + "." + minor
    ensures AllSpace(w) && IsDigits(major) && IsDigits(minor) && (rest == [] || !IsDigit(rest[0]))
  {
    var b, c, e := VerAtSlices(s, i);
    w, major, minor, rest := s[i + 4..b], s[b..c], s[c + 1..e], s[e..];
    VerGlue(s, i, b, c, e);
  }

  /** The cut points of a `Ver=` match: spaces up to `b`, major digits up to `c`, the point, minor digits up to `e`. */
  lemma VerAtSlices(s: string, i: nat) returns (b: nat, c: nat, e: nat)
    requires VerAt(s, i).Some?
    ensures i + 4 <= b < c < e <= |s| && StartsAt(s, i, "Ver=") && s[c] == '.'
    ensures AllSpace(s[i + 4..b]) && IsDigits(s[b..c]) && IsDigits(s[c + 1..e])
    ensures e < |s| ==> !IsDigit(s[e])
    ensures VerAt(s, i).value == s[b..e]
  {
    b := SpaceEnd(s, i + 4);
    c := DigitEnd(s, b);
    e := DigitEnd(s, c + 1);
  }

  lemma VerGlue(s: string, i: nat, b: nat, c: nat, e: nat)
    requires i + 4 <= b < c < e <= |s| && StartsAt(s, i, "Ver=") && s[c] == '.'
    ensures s[i..] == "Ver=" + s[i + 4..b] + s[b..c] + "." + s[c + 1..e] + s[e..]
    ensures s[b..e] == s[b..c] + "." + s[c + 1..e]
  {
    Glue6(s, i, i + 4, b, c, c + 1, e);
    GlueSlice3(s, b, c, c + 1, e);
    assert s[c..c + 1] == ".";
  }

  lemma VerAtFromSlices(s: string, i: nat, b: nat, c: nat, e: nat)
    requires i + 4 <= b < c < e <= |s| && s[i..i + 4] == "Ver=" && s[c..c + 1] == "."
    requires AllSpace(s[i + 4..b]) && IsDigits(s[b..c]) && IsDigits(s[c + 1..e])
    requires e < |s| ==> !IsDigit(s[e])
    ensures VerAt(s, i).Some? && VerAt(s, i).value == s[b..e]
  {
    SpaceEndIs(s, i + 4, b);
    DigitEndIs(s, b, c);
    DigitEndIs(s, c + 1, e);
    assert s[c] == s[c..c + 1][0];
  }

  /** The pieces of a suffix of the shape `Ver=<w><major>.<minor><rest>`, as slices of `s`. */
  lemma VerCut(s: string, i: nat, w: string, major: string, minor: string, rest: string) returns (b: nat, c: nat, e: nat)
    requires i <= |s| && s[i..] == "Ver=" + w + major + "." + minor + rest
    ensures b == i + 4 + |w| && c == b + |major| && e == c + 1 + |minor| && e <= |s|
    ensures s[i..i + 4] == "Ver=" && s[i + 4..b] == w && s[b..c] == major
    ensures s[c..c + 1] == "." && s[c + 1..e] == minor && s[e..] == rest
  {
    b := i + 4 + |w|;
    c := b + |major|;
    e := c + 1 + |minor|;
    CutSuffix(s, i, "Ver=" + w + major + "." + minor, rest);
    CutSlice(s, i, e, "Ver=" + w + major + ".", minor);
    CutSlice(s, i, c + 1, "Ver=" + w + major, ".");
    CutSlice(s, i, c, "Ver=" + w, major);
    CutSlice(s, i, b, "Ver=", w);
  }

  lemma VerAtComplete(s: string, i: nat, w: string, major: string, minor: string, rest: string)
    requires i <= |s| && s[i..] == "Ver=" + w + major + "." + minor + rest
    requires AllSpace(w) && IsDigits(major) && IsDigits(minor) && (rest == [] || !IsDigit(rest[0]))
    ensures VerAt(s, i).Some? && VerAt(s, i).value == major + "." + minor
  {
    var b, c, e := VerCut(s, i, w, major, minor, rest);
    assert e < |s| ==> !IsDigit(s[e]) by {
      if e < |s| { assert s[e] == s[e..][0]; }
    }
    VerAtFromSlices(s, i, b, c, e);
    GlueSlice3(s, b, c, c + 1, e);
  }

  /** `Vendor=(\S+)\s+ProdID=(\S+)` at position `i`: the vendor and product tokens. */
  function VendorProdAt(s: string, i: nat): (r: Option<(string, string)>)
    ensures r.Some? ==> IsToken(r.value.0) && IsToken(r.value.1)
  {
    if !StartsAt(s, i, "Vendor=") then None
    else
      var a := i + 7;
      var c := NonSpaceEnd(s, a);
      var d := SpaceEnd(s, c);
      if a < c && c < d && StartsAt(s, d, "ProdID=") then
        var e := NonSpaceEnd(s, d + 7);
        if d + 7 < e then Some((s[a..c], s[d + 7..e])) else None
      else None
  }

  lemma VendorProdAtSound(s: string, i: nat) returns (w: string, rest: string)
    requires VendorProdAt(s, i).Some?
    ensures i <= |s| && s[i..] == "Vendor=" + VendorProdAt(s, i).value.0 + w + "ProdID=" + VendorProdAt(s, i).value.1 + rest
    ensures w != [] && AllSpace(w) && (rest == [] || IsSpace(rest[0]))
  {
    var a := i + 7;
    var c := NonSpaceEnd(s, a);
    var d := SpaceEnd(s, c);
    var e := NonSpaceEnd(s, d + 7);
    assert VendorProdAt(s, i).value.0 == s[a..c] && VendorProdAt(s, i).value.1 == s[d + 7..e];
    w, rest := s[c..d], s[e..];
    Glue6(s, i, a, c, d, d + 7, e);
  }

  lemma VendorProdAtFromSlices(s: string, i: nat, c: nat, d: nat, e: nat)
    requires i + 7 < c < d && d + 7 < e <= |s| && s[i..i + 7] == "Vendor=" && s[d..d + 7] == "ProdID="
    requires IsToken(s[i + 7..c]) && AllSpace(s[c..d]) && IsToken(s[d + 7..e]) && (e < |s| ==> IsSpace(s[e]))
    ensures VendorProdAt(s, i).Some? && VendorProdAt(s, i).value == (s[i + 7..c], s[d + 7..e])
  {
    NonSpaceEndIs(s, i + 7, c);
    SpaceEndIs(s, c, d);
    NonSpaceEndIs(s, d + 7, e);
  }

  /** The pieces of a suffix of the shape `Vendor=<v><w>ProdID=<p><rest>`, as slices of `s`. */
  lemma VendorProdCut(s: string, i: nat, v: string, w: string, p: string, rest: string) returns (c: nat, d: nat, e: nat)
    requires i <= |s| && s[i..] == "Vendor=" + v + w + "ProdID=" + p + rest
    ensures c == i + 7 + |v| && d == c + |w| && e == d + 7 + |p| && e <= |s|
    ensures s[i..i + 7] == "Vendor=" && s[i + 7..c] == v && s[c..d] == w
    ensures s[d..d + 7] == "ProdID=" && s[d + 7..e] == p && s[e..] == rest
  {
    c := i + 7 + |v|;
    d := c + |w|;
    e := d + 7 + |p|;
    CutSuffix(s, i, "Vendor=" + v + w + "ProdID=" + p, rest);
    CutSlice(s, i, e, "Vendor=" + v + w + "ProdID=", p);
    CutSlice(s, i, d + 7, "Vendor=" + v + w, "ProdID=");
    CutSlice(s, i, d, "Vendor=" + v, w);
    CutSlice(s, i, c, "Vendor=", v);
  }

  lemma VendorProdAtComplete(s: string, i: nat, v: string, w: string, p: string, rest: string)
    requires i <= |s| && s[i..] == "Vendor=" + v + w + "ProdID=" + p + rest
    requires IsToken(v) && w != [] && AllSpace(w) && IsToken(p) && (rest == [] || IsSpace(rest[0]))
    ensures VendorProdAt(s, i).Some? && VendorProdAt(s, i).value == (v, p)
  {
    var c, d, e := VendorProdCut(s, i, v, w, p, rest);
    assert e < |s| ==> IsSpace(s[e]) by {
      if e < |s| { assert s[e] == s[e..][0]; }
    }
    VendorProdAtFromSlices(s, i, c, d, e);
  }

  /** `MxPwr=\s*(\d+)mA` at position `i`: the milliamp digits. */
  function MxPwrAt(s: string, i: nat): (r: Option<string>)
    ensures r.Some? ==> IsDigits(r.value)
  {
    if !StartsAt(s, i, "MxPwr=") then None
    else
      var b := SpaceEnd(s, i + 6);
      var c := DigitEnd(s, b);
      if b < c && StartsAt(s, c, "mA") then Some(s[b..c]) else None
  }

  lemma MxPwrAtSound(s: string, i: nat) returns (w: string, rest: string)
    requires MxPwrAt(s, i).Some?
    ensures i <= |s| && s[i..] == "MxPwr=" + w + MxPwrAt(s, i).value + "mA" + rest
    ensures AllSpace(w)
  {
    var b := SpaceEnd(s, i + 6);
    var c := DigitEnd(s, b);
    w, rest := s[i + 6..b], s[c + 2..];
    Glue5(s, i, i + 6, b, c, c + 2);
  }

  lemma MxPwrAtFromSlices(s: string, i: nat, b: nat, c: nat)
    requires i + 6 <= b < c && c + 2 <= |s| && s[i..i + 6] == "MxPwr=" && s[c..c + 2] == "mA"
    requires AllSpace(s[i + 6..b]) && IsDigits(s[b..c])
    ensures MxPwrAt(s, i).Some? && MxPwrAt(s, i).value == s[b..c]
  {
    SpaceEndIs(s, i + 6, b);
    DigitEndIs(s, b, c);
  }

  lemma MxPwrAtComplete(s: string, i: nat, w: string, d: string, rest: string)
    requires i <= |s| && s[i..] == "MxPwr=" + w + d + "mA" + rest
    requires AllSpace(w) && IsDigits(d)
    ensures MxPwrAt(s, i).Some? && MxPwrAt(s, i).value == d
  {
    var b := i + 6 + |w|;
    var c := b + |d|;
    CutSuffix(s, i, "MxPwr=" + w + d + "mA", rest);
    CutSlice(s, i, c + 2, "MxPwr=" + w + d, "mA");
    CutSlice(s, i, c, "MxPwr=" + w, d);
    CutSlice(s, i, b, "MxPwr=", w);
    MxPwrAtFromSlices(s, i, b, c);
  }

  /** `re.search` finds the groups of the leftmost position where the text has the pattern's shape. */
  lemma SpdSearch(s: string, i: nat, w: string, g: string, rest: string)
    requires i <= |s| && s[i..] == "Spd=" + w + g + rest
    requires AllSpace(w) && IsToken(g) && (rest == [] || IsSpace(rest[0]))
    requires forall j :: 0 <= j < i ==> SpdAt(s, j).None?
    ensures Search(s, SpdAt).Some? && Search(s, SpdAt).value == g
  {
    SpdAtComplete(s, i, w, g, rest);
    SearchIsLeftmost(s, SpdAt, i);
  }

  lemma BusSearch(s: string, i: nat, d: string, rest: string)
    requires i <= |s| && s[i..] == "Bus=" + d + rest
    requires IsDigits(d) && (rest == [] || !IsDigit(rest[0]))
    requires forall j :: 0 <= j < i ==> BusAt(s, j).None?
    ensures Search(s, BusAt).Some? && Search(s, BusAt).value == d
  {
    BusAtComplete(s, i, d, rest);
    SearchIsLeftmost(s, BusAt, i);
  }

  lemma VerSearch(s: string, i: nat, w: string, major: string, minor: string, rest: string)
    requires i <= |s| && s[i..] == "Ver=" + w + major + "." + minor + rest
    requires AllSpace(w) && IsDigits(major) && IsDigits(minor) && (rest == [] || !IsDigit(rest[0]))
    requires forall j :: 0 <= j < i ==> VerAt(s, j).None?
    ensures Search(s, VerAt).Some? && Search(s, VerAt).value == major + "." + minor
  {
    VerAtComplete(s, i, w, major, minor, rest);
    SearchIsLeftmost(s, VerAt, i);
  }

  lemma VendorProdSearch(s: string, i: nat, v: string, w: string, p: string, rest: string)
    requires i <= |s| && s[i..] == "Vendor=" + v + w + "ProdID=" + p + rest
    requires IsToken(v) && w != [] && AllSpace(w) && IsToken(p) && (rest == [] || IsSpace(rest[0]))
    requires forall j :: 0 <= j < i ==> VendorProdAt(s, j).None?
    ensures Search(s, VendorProdAt).Some? && Search(s, VendorProdAt).value == (v, p)
  {
    VendorProdAtComplete(s, i, v, w, p, rest);
    SearchIsLeftmost(s, VendorProdAt, i);
  }

  lemma MxPwrSearch(s: string, i: nat, w: string, d: string, rest: string)
    requires i <= |s| && s[i..] == "MxPwr=" + w + d + "mA" + rest
    requires AllSpace(w) && IsDigits(d)
    requires forall j :: 0 <= j < i ==> MxPwrAt(s, j).None?
    ensures Search(s, MxPwrAt).Some? && Search(s, MxPwrAt).value == d
  {
    MxPwrAtComplete(s, i, w, d, rest);
    SearchIsLeftmost(s, MxPwrAt, i);
  }

  /** What `re.search` found: the groups at the leftmost position where the pattern matches, and the text around them. */
  lemma SpdFound(s: string) returns (i: nat, w: string, rest: string)
    requires Search(s, SpdAt).Some?
    ensures i <= |s| && s[i..] == "Spd=" + w + Search(s, SpdAt).value + rest
    ensures AllSpace(w) && IsToken(Search(s, SpdAt).value) && (rest == [] || IsSpace(rest[0]))
    ensures forall j :: 0 <= j < i ==> SpdAt(s, j).None?
  {
    i := SearchSome(s, SpdAt);
    w, rest := SpdAtSound(s, i);
  }

  lemma BusFound(s: string) returns (i: nat, rest: string)
    requires Search(s, BusAt).Some?
    ensures i <= |s| && s[i..] == "Bus=" + Search(s, BusAt).value + rest
    ensures IsDigits(Search(s, BusAt).value) && (rest == [] || !IsDigit(rest[0]))
    ensures forall j :: 0 <= j < i ==> BusAt(s, j).None?
  {
    i := SearchSome(s, BusAt);
    rest := BusAtSound(s, i);
  }

  lemma VerFound(s: string) returns (i: nat, w: string, major: string, minor: string, rest: string)
    requires Search(s, VerAt).Some?
    ensures i <= |s| && s[i..] == "Ver=" + w + major + "." + minor + rest
    ensures Search(s, VerAt).value == major + "." + minor
    ensures AllSpace(w) && IsDigits(major) && IsDigits(minor) && (rest == [] || !IsDigit(rest[0]))
    ensures forall j :: 0 <= j < i ==> VerAt(s, j).None?
  {
    i := SearchSome(s, VerAt);
    w, major, minor, rest := VerAtSound(s, i);
  }

  lemma VendorProdFound(s: string) returns (i: nat, w: string, rest: string)
    requires Search(s, VendorProdAt).Some?
    ensures i <= |s| && s[i..] == "Vendor=" + Search(s, VendorProdAt).value.0 + w + "ProdID=" + Search(s, VendorProdAt).value.1 + rest
    ensures IsToken(Search(s, VendorProdAt).value.0) && IsToken(Search(s, VendorProdAt).value.1)
    ensures w != [] && AllSpace(w) && (rest == [] || IsSpace(rest[0]))
    ensures forall j :: 0 <= j < i ==> VendorProdAt(s, j).None?
  {
    i := SearchSome(s, VendorProdAt);
    w, rest := VendorProdAtSound(s, i);
  }

  lemma MxPwrFound(s: string) returns (i: nat, w: string, rest: string)
    requires Search(s, MxPwrAt).Some?
    ensures i <= |s| && s[i..] == "MxPwr=" + w + Search(s, MxPwrAt).value + "mA" + rest
    ensures AllSpace(w) && IsDigits(Search(s, MxPwrAt).value)
    ensures forall j :: 0 <= j < i ==> MxPwrAt(s, j).None?
  {
    i := SearchSome(s, MxPwrAt);
    w, rest := MxPwrAtSound(s, i);
  }

  /** What the current search captures is a run of digits. */
  lemma MxPwrDigits(s: string)
    requires Search(s, MxPwrAt).Some?
    ensures IsDigits(Search(s, MxPwrAt).value)
  {
    var i := SearchSome(s, MxPwrAt);
  }
}
