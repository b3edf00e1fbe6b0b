/**
 * `UsbFallbackParser.parse_usb_devices_fallback`: the text printed by
 * `usb-devices` is cut into device blocks, each block into lines, and the
 * blocks that `parse_usb_block` accepts become the result, in order.
 *
 * Blocks are normally separated by a blank line. When the stripped output
 * holds no blank line, the lines are grouped instead: a `T:` line starts a
 * new group whenever one is already open.
 */
module Segmenter {
  import opened Wrappers
  import opened Text
  import opened BlockParser

  /** A topology line opens a device in the `usb-devices` listing. */
  predicate IsHeader(line: string) {
    StartsWith(line, "T:")
  }

  /** The state of the grouping loop: the groups already closed and the open one. */
  datatype Grouping = Grouping(done: seq<seq<string>>, current: seq<string>)

  /** One turn of the grouping loop. */
  function Step(g: Grouping, line: string): Grouping {
    if IsHeader(line) && g.current != [] then Grouping(g.done + [g.current], [line])
    else Grouping(g.done, g.current + [line])
  }

  /** The state of the grouping loop after the given lines. */
  function Scan(lines: seq<string>): Grouping
    decreases |lines|
  {
    if lines == [] then Grouping([], []) else Step(Scan(lines[..|lines| - 1]), lines[|lines| - 1])
  }

  /** The groups once the open one, if any, is closed. */
  function Flush(g: Grouping): seq<seq<string>> {
    if g.current != [] then g.done + [g.current] else g.done
  }

  /** The groups the fallback builds from the lines of the output. */
  function HeaderGroups(lines: seq<string>): seq<seq<string>> {
    Flush(Scan(lines))
  }

  /** The groups laid end to end. */
  function Concat(gs: seq<seq<string>>): seq<string>
    decreases |gs|
  {
    if gs == [] then [] else Concat(gs[..|gs| - 1]) + gs[|gs| - 1]
  }

  /** No line of the group after its first is a header. */
  predicate NoInnerHeader(g: seq<string>) {
    forall j :: 0 < j < |g| ==> !IsHeader(g[j])
  }

  /**
   * Groups as the fallback means them: none is empty, a header line only
   * ever opens a group, and every group but the first opens with one.
   */
  predicate WellGrouped(gs: seq<seq<string>>) {
    (forall k :: 0 <= k < |gs| ==> gs[k] != [] && NoInnerHeader(gs[k])) &&
    (forall k :: 0 < k < |gs| ==> IsHeader(gs[k][0]))
  }

  /** What the grouping loop keeps true of its state. */
  predicate ScanOk(g: Grouping) {
    WellGrouped(g.done) && NoInnerHeader(g.current) &&
    (g.done != [] ==> g.current != [] && IsHeader(g.current[0]))
  }

  lemma ConcatSnoc(gs: seq<seq<string>>, g: seq<string>)
    ensures Concat(gs + [g]) == Concat(gs) + g
  {
    assert (gs + [g])[..|gs|] == gs;
  }

  lemma WellGroupedSnoc(gs: seq<seq<string>>, g: seq<string>)
    requires WellGrouped(gs) && g != [] && NoInnerHeader(g) && (gs != [] ==> IsHeader(g[0]))
    ensures WellGrouped(gs + [g])
  {
  }

  /** One turn of the loop keeps its invariant and loses no line. */
  lemma StepKeeps(g: Grouping, line: string)
    requires ScanOk(g)
    ensures ScanOk(Step(g, line)) && Step(g, line).current != []
    ensures Concat(Step(g, line).done) + Step(g, line).current == Concat(g.done) + g.current + [line]
  {
    if IsHeader(line) && g.current != [] {
      WellGroupedSnoc(g.done, g.current);
      ConcatSnoc(g.done, g.current);
    } else {
      var c := g.current + [line];
      forall j | 0 < j < |c| ensures !IsHeader(c[j]) {
        if j < |g.current| {
          assert c[j] == g.current[j];
        }
      }
    }
  }

  /** What the grouping loop keeps true. */
  lemma {:induction false} ScanInvariant(lines: seq<string>)
    ensures Concat(Scan(lines).done) + Scan(lines).current == lines
    ensures ScanOk(Scan(lines))
    ensures lines != [] ==> Scan(lines).current != []
    decreases |lines|
  {
    if lines != [] {
      var prefix := lines[..|lines| - 1];
      var line := lines[|lines| - 1];
      ScanInvariant(prefix);
      var g := Scan(prefix);
      assert Scan(lines) == Step(g, line);
      StepKeeps(g, line);
      assert prefix + [line] == lines;
    }
  }

  /**
   * The fallback's groups hold every line once, in order; none is empty; a
   * `T:` line opens a group whenever one is open, and nothing else does.
   */
  lemma HeaderGroupsSound(lines: seq<string>)
    ensures Concat(HeaderGroups(lines)) == lines
    ensures WellGrouped(HeaderGroups(lines))
  {
    ScanInvariant(lines);
    var g := Scan(lines);
    if g.current != [] {
      ConcatSnoc(g.done, g.current);
      WellGroupedSnoc(g.done, g.current);
    }
  }

  /** Groups that are well formed before a further well-formed group stay well formed. */
  lemma WellGroupedInit(gs: seq<seq<string>>, g: seq<string>)
    requires WellGrouped(gs + [g])
    ensures WellGrouped(gs) && g != [] && NoInnerHeader(g) && (gs != [] ==> IsHeader(g[0]))
  {
    assert forall k :: 0 <= k < |gs| ==> (gs + [g])[k] == gs[k];
    assert (gs + [g])[|gs|] == g;
  }

  lemma ScanSnoc(pre: seq<string>, line: string)
    ensures Scan(pre + [line]) == Step(Scan(pre), line)
  {
    assert (pre + [line])[..|pre|] == pre;
  }

  /** The last group split off the others. */
  lemma ConcatLast(gs: seq<seq<string>>) returns (n: nat)
    requires gs != []
    ensures n == |gs| - 1 && gs[..n] + [gs[n]] == gs
    ensures gs[n][..|gs[n]|] == gs[n]
    ensures Concat(gs[..n]) + gs[n][..|gs[n]|] == Concat(gs)
  {
    n := |gs| - 1;
    assert gs[..n] + [gs[n]] == gs;
    ConcatSnoc(gs[..n], gs[n]);
    assert gs[n][..|gs[n]|] == gs[n];
  }

  /** The first line of a group: it opens a new group after the earlier ones. */
  lemma ScanFirst(gs: seq<seq<string>>, g: seq<string>)
    requires g != [] && (gs != [] ==> IsHeader(g[0]))
    requires gs == [] ==> Concat(gs) == []
    requires gs != [] ==> Scan(Concat(gs)) == Grouping(gs[..|gs| - 1], gs[|gs| - 1]) && gs[|gs| - 1] != []
    requires gs != [] ==> gs[..|gs| - 1] + [gs[|gs| - 1]] == gs
    ensures Scan(Concat(gs) + g[..1]) == Grouping(gs, g[..1])
  {
    assert g[..1] == [g[0]];
    ScanSnoc(Concat(gs), g[0]);
    if gs == [] {
      assert Scan([]) == Grouping([], []);
    }
  }

  /** A line that is not a header joins the open group. */
  lemma ScanNext(pre: seq<string>, g: Grouping, line: string)
    requires Scan(pre) == g && !IsHeader(line)
    ensures Scan(pre + [line]) == Grouping(g.done, g.current + [line])
  {
    ScanSnoc(pre, line);
  }

  lemma SnocSlice<T>(a: seq<T>, g: seq<T>, j: nat)
    requires 0 < j <= |g|
    ensures g[..j - 1] + [g[j - 1]] == g[..j]
    ensures a + g[..j - 1] + [g[j - 1]] == a + g[..j]
  {
    assert g[..j - 1] + [g[j - 1]] == g[..j];
  }

  /** Scanning the lines of well-formed groups, part way into the last one, leaves exactly those groups. */
  lemma {:induction false} ScanGroups(gs: seq<seq<string>>, g: seq<string>, j: nat)
    requires WellGrouped(gs + [g]) && 1 <= j <= |g|
    ensures Scan(Concat(gs) + g[..j]) == Grouping(gs, g[..j])
    decreases |gs|, j
  {
    WellGroupedInit(gs, g);
    if j > 1 {
      ScanGroups(gs, g, j - 1);
      assert !IsHeader(g[j - 1]);
      ScanNext(Concat(gs) + g[..j - 1], Grouping(gs, g[..j - 1]), g[j - 1]);
      SnocSlice(Concat(gs), g, j);
    } else if gs == [] {
      ScanFirst(gs, g);
    } else {
      var n := ConcatLast(gs);
      ScanGroups(gs[..n], gs[n], |gs[n]|);
      ScanFirst(gs, g);
    }
  }

  /** Well-formed groups of the lines are the fallback's groups: there is no other way to group them. */
  lemma HeaderGroupsUnique(gs: seq<seq<string>>, lines: seq<string>)
    requires WellGrouped(gs) && Concat(gs) == lines
    ensures HeaderGroups(lines) == gs
  {
    if gs == [] {
      assert Scan(lines) == Grouping([], []);
    } else {
      var n := ConcatLast(gs);
      WellGroupedInit(gs[..n], gs[n]);
      ScanGroups(gs[..n], gs[n], |gs[n]|);
    }
  }

  lemma JoinEachSnoc(gs: seq<seq<string>>, g: seq<string>, sep: string)
    ensures JoinEach(gs + [g], sep) == JoinEach(gs, sep) + [Join(g, sep)]
  {
  }

  /** The grouping loop of `parse_usb_devices_fallback`: each group is joined back into one block of text. */
  method SegmentByHeader(lines: seq<string>) returns (blocks: seq<string>)
    ensures blocks == JoinEach(HeaderGroups(lines), "\n")
  {
    blocks := [];
    var current: seq<string> := [];
    for i := 0 to |lines|
      invariant blocks == JoinEach(Scan(lines[..i]).done, "\n")
      invariant current == Scan(lines[..i]).current
    {
      var line := lines[i];
      assert lines[..i + 1][..i] == lines[..i];
      if IsHeader(line) && current != [] {
        JoinEachSnoc(Scan(lines[..i]).done, current, "\n");
        blocks := blocks + [Join(current, "\n")];
        current := [line];
      } else {
        current := current + [line];
      }
    }
    assert lines[..|lines|] == lines;
    if current != [] {
      JoinEachSnoc(Scan(lines).done, current, "\n");
      blocks := blocks + [Join(current, "\n")];
    }
  }

  /** Joining the joined groups is joining all their lines. */
  lemma {:induction false} JoinGroups(gs: seq<seq<string>>, sep: string)
    requires forall k :: 0 <= k < |gs| ==> gs[k] != []
    ensures Join(JoinEach(gs, sep), sep) == Join(Concat(gs), sep)
    decreases |gs|
  {
    if |gs| > 1 {
      var init := gs[..|gs| - 1];
      var last := gs[|gs| - 1];
      assert gs == init + [last];
      JoinGroups(init, sep);
      JoinEachSnoc(init, last, sep);
      JoinAppend(JoinEach(init, sep), [Join(last, sep)], sep);
      assert Concat(init) != [] by {
        ConcatNonEmpty(init);
      }
      JoinAppend(Concat(init), last, sep);
    } else if |gs| == 1 {
      assert Concat(gs) == gs[0] by {
        assert gs[..0] == [];
      }
    }
  }

  lemma ConcatNonEmpty(gs: seq<seq<string>>)
    requires gs != [] && forall k :: 0 <= k < |gs| ==> gs[k] != []
    ensures Concat(gs) != []
  {
  }

  /** The blocks of text the aggregation loop goes through. */
  function Blocks(output: string): seq<string> {
    var text := Strip(output);
    var blocks := Split(text, "\n\n");
    if |blocks| <= 1 then JoinEach(HeaderGroups(Split(text, "\n")), "\n") else blocks
  }

  /**
   * The blocks are the stripped output cut apart: joined back with the blank
   * line they were split on, or, when the fallback grouped lines, with the
   * line break, they give the stripped output again.
   */
  lemma BlocksJoin(output: string)
    ensures |Split(Strip(output), "\n\n")| > 1 ==> Join(Blocks(output), "\n\n") == Strip(output)
    ensures |Split(Strip(output), "\n\n")| <= 1 ==> Join(Blocks(output), "\n") == Strip(output)
  {
    var text := Strip(output);
    SplitJoin(text, "\n\n");
    var lines := Split(text, "\n");
    SplitJoin(text, "\n");
    HeaderGroupsSound(lines);
    JoinGroups(HeaderGroups(lines), "\n");
  }

  /** `block.strip().split('\n')`. */
  function BlockLines(block: string): seq<string> {
    Split(Strip(block), "\n")
  }

  /** What `parse_usb_block` returns for each block. */
  function Parsed(blocks: seq<string>): (r: seq<Option<Record>>)
    ensures |r| == |blocks|
    ensures forall k :: 0 <= k < |blocks| ==> r[k] == BlockRecord(BlockLines(blocks[k]))
  {
    seq(|blocks|, k requires 0 <= k < |blocks| => BlockRecord(BlockLines(blocks[k])))
  }

  /** The present values, in order: the `if entry:` filter of the aggregation loop. */
  function Somes<T>(xs: seq<Option<T>>): seq<T>
    decreases |xs|
  {
    if xs == [] then []
    else Somes(xs[..|xs| - 1]) + (if xs[|xs| - 1].Some? then [xs[|xs| - 1].value] else [])
  }

  /** The records of the blocks that parse, in block order. */
  function Devices(blocks: seq<string>): seq<Record> {
    Somes(Parsed(blocks))
  }

  /** The outcome of running `usb-devices`: its standard output, or one of the two failures the source catches. */
  datatype CommandOutput = Output(text: string) | Failed

  /** What `parse_usb_devices_fallback` returns, with the dictionary's values in insertion order. */
  function UsbDevices(out: CommandOutput): seq<Record> {
    match out
    case Failed => []
    case Output(text) => Devices(Blocks(text))
  }

  lemma SomesSnoc<T>(xs: seq<Option<T>>, i: nat)
    requires i < |xs|
    ensures Somes(xs[..i + 1]) == Somes(xs[..i]) + (if xs[i].Some? then [xs[i].value] else [])
  {
    assert xs[..i + 1][..i] == xs[..i];
  }

  /** The aggregation loop: the records of the blocks that parse, in order. */
  method CollectDevices(blocks: seq<string>) returns (devices: seq<Record>)
    ensures devices == Devices(blocks)
  {
    devices := [];
    for i := 0 to |blocks|
      invariant devices == Somes(Parsed(blocks)[..i])
    {
      SomesSnoc(Parsed(blocks), i);
      var entry := ParseUsbBlock(BlockLines(blocks[i]));
      if entry.Some? {
        devices := devices + [entry.value];
      }
    }
    assert Parsed(blocks)[..|blocks|] == Parsed(blocks);
  }

  /** `parse_usb_devices_fallback`, with the command's outcome passed in. */
  method ParseUsbDevicesFallback(out: CommandOutput) returns (devices: seq<Record>)
    ensures devices == UsbDevices(out)
    ensures out.Failed? ==> devices == []
    ensures forall k :: 0 <= k < |devices| ==> IsDevice(devices[k])
  {
    if out.Failed? {
      return [];
    }
    var text := Strip(out.text);
    var blocks := Split(text, "\n\n");
    if |blocks| <= 1 {
      blocks := SegmentByHeader(Split(text, "\n"));
    }
    devices := CollectDevices(blocks);
    DevicesAreDevices(blocks);
  }

  /** Every value `Somes` keeps was present in the input, and it keeps no more values than there are. */
  lemma {:induction false} SomesFrom<T>(xs: seq<Option<T>>)
    ensures |Somes(xs)| <= |xs|
    ensures forall y :: y in Somes(xs) ==> Some(y) in xs
    decreases |xs|
  {
    if xs != [] {
      var init := xs[..|xs| - 1];
      SomesFrom(init);
      assert xs == init + [xs[|xs| - 1]];
    }
  }

  /** `Somes` of consecutive runs is the runs' `Somes` laid end to end. */
  lemma {:induction false} SomesAppend<T>(a: seq<Option<T>>, b: seq<Option<T>>)
    ensures Somes(a + b) == Somes(a) + Somes(b)
    decreases |b|
  {
    if b == [] {
      assert a + b == a;
    } else {
      var n := |b| - 1;
      SomesAppend(a, b[..n]);
      assert (a + b)[..|a| + n] == a + b[..n];
      assert b[..n] == b[..n];
    }
  }

  /** The positions of `xs` that hold a value. */
  function SomeIndices<T>(xs: seq<Option<T>>): set<nat> {
    set k: nat | k < |xs| && xs[k].Some?
  }

  /**
   * Every present value is kept, in its place: the value at position `k`
   * comes right after the values kept from the positions before `k`.
   */
  lemma SomesAt<T>(xs: seq<Option<T>>, k: nat)
    requires k < |xs| && xs[k].Some?
    ensures |Somes(xs[..k])| < |Somes(xs)| && Somes(xs)[|Somes(xs[..k])|] == xs[k].value
    ensures xs[k].value in Somes(xs)
  {
    SomesSnoc(xs, k);
    SomesAppend(xs[..k + 1], xs[k + 1..]);
    assert xs[..k + 1] + xs[k + 1..] == xs;
  }

  /** `Somes` keeps exactly one value per position that holds one. */
  lemma {:induction false} SomesCount<T>(xs: seq<Option<T>>)
    ensures |Somes(xs)| == |SomeIndices(xs)|
    decreases |xs|
  {
    if xs != [] {
      var n := |xs| - 1;
      var init := xs[..n];
      SomesCount(init);
      assert forall k: nat :: k in SomeIndices(init) <==> k < n && xs[k].Some?;
      if xs[n].Some? {
        assert SomeIndices(xs) == SomeIndices(init) + {n};
        assert n !in SomeIndices(init);
      } else {
        assert SomeIndices(xs) == SomeIndices(init);
      }
    }
  }

  /** The blocks that `parse_usb_block` accepts. */
  function DeviceBlocks(blocks: seq<string>): set<nat> {
    set k: nat | k < |blocks| && BlockRecord(BlockLines(blocks[k])).Some?
  }

  /**
   * Each block that parses puts its record in the result, after the records
   * of the blocks before it, and the result holds one record per such block.
   */
  lemma DevicesComplete(blocks: seq<string>, k: nat)
    requires k < |blocks| && BlockRecord(BlockLines(blocks[k])).Some?
    ensures BlockRecord(BlockLines(blocks[k])).value in Devices(blocks)
    ensures |Devices(blocks[..k])| < |Devices(blocks)|
    ensures Devices(blocks)[|Devices(blocks[..k])|] == BlockRecord(BlockLines(blocks[k])).value
  {
    var xs := Parsed(blocks);
    SomesAt(xs, k);
    assert Parsed(blocks[..k]) == xs[..k];
  }

  /** The result holds exactly as many records as there are blocks that parse. */
  lemma DevicesCount(blocks: seq<string>)
    ensures |Devices(blocks)| == |DeviceBlocks(blocks)|
  {
    SomesCount(Parsed(blocks));
    assert SomeIndices(Parsed(blocks)) == DeviceBlocks(blocks);
  }

  /** Every record in the result is a device, and there are no more records than blocks. */
  lemma DevicesAreDevices(blocks: seq<string>)
    ensures |Devices(blocks)| <= |blocks|
    ensures forall k :: 0 <= k < |Devices(blocks)| ==> IsDevice(Devices(blocks)[k])
  {
    SomesFrom(Parsed(blocks));
    forall k | 0 <= k < |Devices(blocks)| ensures IsDevice(Devices(blocks)[k]) {
      assert Devices(blocks)[k] in Somes(Parsed(blocks));
    }
  }

  /** `Somes` of a single value. */
  lemma SomesOne<T>(x: Option<T>)
    ensures Somes([x]) == if x.Some? then [x.value] else []
  {
    assert [x][..0] == [];
  }

  /** Text of nothing but whitespace is one empty block. */
  lemma BlankBlocks(output: string)
    requires Strip(output) == ""
    ensures Blocks(output) == [""]
  {
    assert IndexOf("", "\n\n", 0).None?;
    assert IndexOf("", "\n", 0).None?;
    assert Split("", "\n") == [""];
    HeaderGroupsOne("");
  }

  /** A single line is a single group. */
  lemma HeaderGroupsOne(line: string)
    ensures HeaderGroups([line]) == [[line]]
  {
    var lines := [line];
    assert lines[..|lines| - 1] == [] && lines[|lines| - 1] == line;
    assert Scan([]) == Grouping([], []);
    var g := Scan(lines);
    assert g == Step(Scan([]), line);
    assert g == Grouping([], [line]);
  }

  /** The empty block names no device. */
  lemma EmptyBlockNone()
    ensures BlockRecord(BlockLines("")).None?
  {
    assert IndexOf("", "\n", 0).None?;
    assert BlockLines("") == [""];
    NoIdentityNoDevice([""]);
  }

  /** The single empty block gives no device. */
  lemma EmptyBlockDevices()
    ensures Devices([""]) == []
  {
    EmptyBlockNone();
    var xs := Parsed([""]);
    assert xs == [xs[0]];
    SomesOne(xs[0]);
  }

  /** Output that is empty or all whitespace gives no device. */
  lemma BlankOutput(output: string)
    requires Strip(output) == ""
    ensures UsbDevices(Output(output)) == []
  {
    BlankBlocks(output);
    EmptyBlockDevices();
  }

  /** A line of `usb-devices` output: non-empty and free of line breaks. */
  predicate CleanLine(line: string) {
    line != [] && '\n' !in line
  }

  /** Laying clean groups end to end gives clean lines. */
  lemma {:induction false} ConcatClean(gs: seq<seq<string>>)
    requires forall i, j :: 0 <= i < |gs| && 0 <= j < |gs[i]| ==> CleanLine(gs[i][j])
    ensures forall k :: 0 <= k < |Concat(gs)| ==> CleanLine(Concat(gs)[k])
    decreases |gs|
  {
    if gs != [] {
      var n := |gs| - 1;
      ConcatClean(gs[..n]);
      forall k | 0 <= k < |Concat(gs)| ensures CleanLine(Concat(gs)[k]) {
        var m := |Concat(gs[..n])|;
        if k >= m {
          assert Concat(gs)[k] == gs[n][k - m];
        } else {
          assert Concat(gs)[k] == Concat(gs[..n])[k];
        }
      }
    }
  }

  /** Text without a blank line splits at blank lines into itself alone. */
  lemma NoSepSplit(s: string, sep: string)
    requires sep != [] && forall j :: 0 <= j ==> !StartsAt(s, j, sep)
    ensures Split(s, sep) == [s]
  {
  }

  /** Text that holds no blank line and does not end in a line break lets no blank line start inside it. */
  lemma BlockSepOnlyAfter(x: string)
    requires x != [] && x[|x| - 1] != '\n'
    requires forall j :: 0 <= j ==> !StartsAt(x, j, ['\n', '\n'])
    ensures SepOnlyAfter(x, "\n\n")
  {
    forall j | 0 <= j < |x| ensures !StartsAt(x + "\n\n", j, "\n\n") {
      if StartsAt(x + "\n\n", j, "\n\n") {
        assert (x + "\n\n")[j] == '\n';
        if j + 1 < |x| {
          assert (x + "\n\n")[j + 1] == '\n';
          assert x[j..j + 2] == ['\n', '\n'];
          assert StartsAt(x, j, ['\n', '\n']);
        }
        assert false;
      }
    }
  }

  /** A group of clean lines, joined by line breaks, is a block that the blank-line split keeps whole. */
  lemma GroupBlock(g: seq<string>)
    requires g != [] && forall j :: 0 <= j < |g| ==> CleanLine(g[j])
    ensures Join(g, "\n") != [] && SepOnlyAfter(Join(g, "\n"), "\n\n")
  {
    assert "\n" == ['\n'];
    JoinNoDoubled(g, '\n');
    JoinLast(g, "\n");
    var l := g[|g| - 1];
    assert l[|l| - 1] in l;
    BlockSepOnlyAfter(Join(g, "\n"));
  }

  /** The joined groups open with the first line's first character and close with the last line's last one. */
  lemma JoinedEnds(gs: seq<seq<string>>, sep: string)
    requires gs != [] && forall i :: 0 <= i < |gs| ==> gs[i] != []
    requires gs[0][0] != [] && gs[|gs| - 1][|gs[|gs| - 1]| - 1] != []
    ensures var t := Join(JoinEach(gs, "\n"), sep);
      var l := gs[|gs| - 1][|gs[|gs| - 1]| - 1];
      t != [] && t[0] == gs[0][0][0] && t[|t| - 1] == l[|l| - 1]
  {
    var blocks := JoinEach(gs, "\n");
    JoinFirst(gs[0], "\n");
    JoinLast(gs[|gs| - 1], "\n");
    JoinFirst(blocks, sep);
    JoinLast(blocks, sep);
  }

  /**
   * Output that separates the devices' blocks by blank lines is cut into
   * those blocks.
   */
  lemma BlankLineBlocks(gs: seq<seq<string>>)
    requires |gs| >= 2 && WellGrouped(gs)
    requires forall i, j :: 0 <= i < |gs| && 0 <= j < |gs[i]| ==> CleanLine(gs[i][j])
    requires Strip(Join(JoinEach(gs, "\n"), "\n\n")) == Join(JoinEach(gs, "\n"), "\n\n")
    ensures Blocks(Join(JoinEach(gs, "\n"), "\n\n")) == JoinEach(gs, "\n")
  {
    var blocks := JoinEach(gs, "\n");
    forall k | 0 <= k < |blocks| ensures SepOnlyAfter(blocks[k], "\n\n") {
      GroupBlock(gs[k]);
    }
    JoinSplit(blocks, "\n\n");
  }

  /** Clean lines joined by line breaks hold no blank line. */
  lemma PackedNoBlank(lines: seq<string>)
    requires forall k :: 0 <= k < |lines| ==> CleanLine(lines[k])
    ensures Split(Join(lines, "\n"), "\n\n") == [Join(lines, "\n")]
  {
    assert "\n" == ['\n'] && "\n\n" == ['\n', '\n'];
    JoinNoDoubled(lines, '\n');
    NoSepSplit(Join(lines, "\n"), "\n\n");
  }

  /** Clean lines joined by line breaks split back into themselves. */
  lemma PackedLines(lines: seq<string>)
    requires lines != [] && forall k :: 0 <= k < |lines| ==> CleanLine(lines[k])
    ensures Split(Join(lines, "\n"), "\n") == lines
  {
    forall k | 0 <= k < |lines| ensures SepOnlyAfter(lines[k], "\n") {
      CharSepOnlyAfter(lines[k], '\n');
    }
    JoinSplit(lines, "\n");
  }

  /**
   * Output that lists the devices' lines with no blank line between them is
   * grouped at the `T:` lines into the same blocks.
   */
  lemma HeaderLineBlocks(gs: seq<seq<string>>)
    requires gs != [] && WellGrouped(gs)
    requires forall i, j :: 0 <= i < |gs| && 0 <= j < |gs[i]| ==> CleanLine(gs[i][j])
    requires Strip(Join(Concat(gs), "\n")) == Join(Concat(gs), "\n")
    ensures Blocks(Join(Concat(gs), "\n")) == JoinEach(gs, "\n")
  {
    var lines := Concat(gs);
    ConcatClean(gs);
    ConcatNonEmpty(gs);
    PackedNoBlank(lines);
    PackedLines(lines);
    HeaderGroupsUnique(gs, lines);
  }

  /**
   * The two layouts the fallback exists for agree: the same device blocks,
   * printed with blank lines between them or run together, are cut into the
   * same blocks and so give the same devices.
   */
  lemma LayoutsAgree(gs: seq<seq<string>>)
    requires gs != [] && WellGrouped(gs)
    requires forall i, j :: 0 <= i < |gs| && 0 <= j < |gs[i]| ==> CleanLine(gs[i][j])
    requires gs[0] != [] && gs[0][0] != [] && !IsSpace(gs[0][0][0])
    requires var g := gs[|gs| - 1]; g != [] && g[|g| - 1] != [] && !IsSpace(g[|g| - 1][|g[|g| - 1]| - 1])
    ensures Blocks(Join(JoinEach(gs, "\n"), "\n\n")) == Blocks(Join(Concat(gs), "\n")) == JoinEach(gs, "\n")
    ensures Devices(Blocks(Join(JoinEach(gs, "\n"), "\n\n"))) == Devices(Blocks(Join(Concat(gs), "\n")))
  {
    var blocks := JoinEach(gs, "\n");
    var spaced := Join(blocks, "\n\n");
    var packed := Join(Concat(gs), "\n");
    JoinGroups(gs, "\n");
    assert packed == Join(blocks, "\n");
    JoinedEnds(gs, "\n\n");
    JoinedEnds(gs, "\n");
    StripUnchanged(spaced);
    StripUnchanged(packed);
    HeaderLineBlocks(gs);
    if |gs| == 1 {
      assert spaced == blocks[0] == packed;
    } else {
      BlankLineBlocks(gs);
    }
  }
}
