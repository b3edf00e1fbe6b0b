/**
 * `UsbFallbackParser.parse_usb_block`: one `usb-devices` block, as a list of
 * lines, becomes a device record. Each line is dispatched on its two-letter
 * tag (`T:`, `D:`, `P:`, `S:`, `C:`); the tag decides which fields the line
 * may set, and a later line overwrites what an earlier one set. The block is
 * a device only when it names a vendor/product pair, a product or a
 * manufacturer.
 */
module BlockParser {
  import opened Wrappers
  import opened Text
  import opened Patterns
  import opened Power

  /** The keys of the record dictionary. */
  datatype Field = Speed | BusInfo | Version | VidPid | Manufacturer | Product | Serial | MaxPower

  /** A device record: the dictionary `entry` with the fields parsed so far. */
  type Record = map<Field, string>

  /** `entry.get(f)` is truthy: the field is set and not empty. */
  predicate Present(e: Record, f: Field) {
    f in e && e[f] != ""
  }

  /** The test that decides whether a block is kept. */
  predicate IsDevice(e: Record) {
    Present(e, VidPid) || Present(e, Product) || Present(e, Manufacturer)
  }

  /** The tag of the lines that may set field `f`. */
  function Tag(f: Field): string {
    match f
    case Speed | BusInfo => "T:"
    case Version => "D:"
    case VidPid => "P:"
    case Manufacturer | Product | Serial => "S:"
    case MaxPower => "C:"
  }

  /** A `T:` (topology) line: `Spd=\s*(\S+)` gives the speed, `Bus=(\d+)` the bus. */
  function TopologyFields(line: string): Record {
    var spd := Search(line, SpdAt);
    var bus := Search(line, BusAt);
    (if spd.Some? then map[Speed := spd.value] else map[])
      + (if bus.Some? then map[BusInfo := "Bus " + bus.value] else map[])
  }

  /** A `D:` (device descriptor) line: `Ver=\s*(\d+\.\d+)` gives the USB version. */
  function DescriptorFields(line: string): Record {
    var ver := Search(line, VerAt);
    if ver.Some? then map[Version := ver.value] else map[]
  }

  /** A `P:` (product) line: the vendor and product ids, upper-cased, joined by `:`. */
  function ProductFields(line: string): Record {
    var ids := Search(line, VendorProdAt);
    if ids.Some? then map[VidPid := Upper(ids.value.0) + ":" + Upper(ids.value.1)] else map[]
  }

  /** `line.split(marker)[1].strip()`. */
  function MarkerValue(line: string, marker: string): string
    requires marker != [] && Contains(line, marker)
  {
    SplitSecondIsFirstOfRest(line, marker, IndexOf(line, marker, 0).value);
    Strip(Split(line, marker)[1])
  }

  /** An `S:` (string descriptor) line: at most one of the three strings, in this priority. */
  function StringFields(line: string): Record {
    if Contains(line, "Manufacturer=") then map[Manufacturer := MarkerValue(line, "Manufacturer=")]
    else if Contains(line, "Product=") then map[Product := MarkerValue(line, "Product=")]
    else if Contains(line, "SerialNumber=") then map[Serial := MarkerValue(line, "SerialNumber=")]
    else map[]
  }

  /**
   * A `C:` (configuration) line: `MxPwr=\s*(\d+)mA` gives the maximum power.
   * The current is taken exactly, whatever its size; the float conversion's
   * failures on huge values are not modelled.
   */
  function ConfigFields(line: string): Record {
    var mx := Search(line, MxPwrAt);
    if mx.Some? then
      MxPwrDigits(line);
      map[MaxPower := MaxPowerText(mx.value)]
    else map[]
  }

  /** The assignments one line makes to the record, chosen by its tag. */
  function LineFields(line: string): Record {
    if StartsWith(line, "T:") then TopologyFields(line)
    else if StartsWith(line, "D:") then DescriptorFields(line)
    else if StartsWith(line, "P:") then ProductFields(line)
    else if StartsWith(line, "S:") then StringFields(line)
    else if StartsWith(line, "C:") then ConfigFields(line)
    else map[]
  }

  /** The record after the updates have been applied in order; a later update overwrites. */
  function Overwrite(updates: seq<Record>): Record
    decreases |updates|
  {
    if updates == [] then map[] else Overwrite(updates[..|updates| - 1]) + updates[|updates| - 1]
  }

  /** The update each line of the block makes. */
  function Updates(lines: seq<string>): (r: seq<Record>)
    ensures |r| == |lines| && forall k :: 0 <= k < |lines| ==> r[k] == LineFields(lines[k])
  {
    seq(|lines|, k requires 0 <= k < |lines| => LineFields(lines[k]))
  }

  /** The record `parse_usb_block` builds from the lines of a block. */
  function Fill(lines: seq<string>): Record {
    Overwrite(Updates(lines))
  }

  lemma FillSnoc(lines: seq<string>, i: nat)
    requires i < |lines|
    ensures Fill(lines[..i + 1]) == Fill(lines[..i]) + LineFields(lines[i])
  {
    var us := Updates(lines[..i + 1]);
    assert us[..i] == Updates(lines[..i]);
  }

  /** What `parse_usb_block` returns: the record, or `None` when it is not a device. */
  function BlockRecord(lines: seq<string>): Option<Record> {
    var e := Fill(lines);
    if IsDevice(e) then Some(e) else None
  }

  /** The `T:` branch of the loop body of `parse_usb_block`. */
  method ApplyTopology(entry: Record, line: string) returns (updated: Record)
    ensures updated == entry + TopologyFields(line)
  {
    updated := entry;
    var spd := Search(line, SpdAt);
    if spd.Some? { updated := updated[Speed := spd.value]; }
    var bus := Search(line, BusAt);
    if bus.Some? { updated := updated[BusInfo := "Bus " + bus.value]; }
    UpdateTwice(entry, spd, Speed, bus, BusInfo, "Bus ");
  }

  /** Setting `k1` (when `x1` is present) then `k2` (when `x2` is present, with `prefix`) is one union. */
  lemma UpdateTwice(entry: Record, x1: Option<string>, k1: Field, x2: Option<string>, k2: Field, prefix: string)
    requires k1 != k2
    ensures var e1 := if x1.Some? then entry[k1 := x1.value] else entry;
      (if x2.Some? then e1[k2 := prefix + x2.value] else e1) ==
      entry + ((if x1.Some? then map[k1 := x1.value] else map[]) + (if x2.Some? then map[k2 := prefix + x2.value] else map[]))
  {
  }

  /** The `D:` branch. */
  method ApplyDescriptor(entry: Record, line: string) returns (updated: Record)
    ensures updated == entry + DescriptorFields(line)
  {
    updated := entry;
    var ver := Search(line, VerAt);
    if ver.Some? { updated := updated[Version := ver.value]; }
  }

  /** The `P:` branch. */
  method ApplyProduct(entry: Record, line: string) returns (updated: Record)
    ensures updated == entry + ProductFields(line)
  {
    updated := entry;
    var ids := Search(line, VendorProdAt);
    if ids.Some? { updated := updated[VidPid := Upper(ids.value.0) + ":" + Upper(ids.value.1)]; }
  }

  /** The `S:` branch. */
  method ApplyString(entry: Record, line: string) returns (updated: Record)
    ensures updated == entry + StringFields(line)
  {
    updated := entry;
    if Contains(line, "Manufacturer=") {
      updated := updated[Manufacturer := MarkerValue(line, "Manufacturer=")];
    } else if Contains(line, "Product=") {
      updated := updated[Product := MarkerValue(line, "Product=")];
    } else if Contains(line, "SerialNumber=") {
      updated := updated[Serial := MarkerValue(line, "SerialNumber=")];
    }
  }

  /** The `C:` branch. */
  method ApplyConfig(entry: Record, line: string) returns (updated: Record)
    ensures updated == entry + ConfigFields(line)
  {
    updated := entry;
    var mx := Search(line, MxPwrAt);
    if mx.Some? {
      MxPwrDigits(line);
      updated := updated[MaxPower := MaxPowerText(mx.value)];
    }
  }

  /** The loop body of `parse_usb_block`: the if/elif chain over the line's tag. */
  method ApplyLine(entry: Record, line: string) returns (updated: Record)
    ensures updated == entry + LineFields(line)
  {
    if StartsWith(line, "T:") {
      updated := ApplyTopology(entry, line);
    } else if StartsWith(line, "D:") {
      updated := ApplyDescriptor(entry, line);
    } else if StartsWith(line, "P:") {
      updated := ApplyProduct(entry, line);
    } else if StartsWith(line, "S:") {
      updated := ApplyString(entry, line);
    } else if StartsWith(line, "C:") {
      updated := ApplyConfig(entry, line);
    } else {
      updated := entry;
    }
  }

  /** `parse_usb_block`: one pass over the lines, updating the record. */
  method ParseUsbBlock(lines: seq<string>) returns (r: Option<Record>)
    ensures r == BlockRecord(lines)
    ensures r.Some? ==> IsDevice(r.value)
  {
    var entry: Record := map[];
    for i := 0 to |lines|
      invariant entry == Fill(lines[..i])
    {
      entry := ApplyLine(entry, lines[i]);
      FillSnoc(lines, i);
    }
    assert lines[..|lines|] == lines;
    if IsDevice(entry) {
      r := Some(entry);
    } else {
      r := None;
    }
  }

  /** A field some update sets is in the result. */
  lemma {:induction false} OverwriteKeeps(updates: seq<Record>, k: nat, f: Field)
    requires k < |updates| && f in updates[k]
    ensures f in Overwrite(updates)
    decreases |updates|
  {
    var n := |updates| - 1;
    if k < n {
      var init := updates[..n];
      assert init[k] == updates[k];
      OverwriteKeeps(init, k, f);
    }
  }

  /** A field no update sets is not in the result. */
  lemma {:induction false} OverwriteOnly(updates: seq<Record>, f: Field)
    requires forall k :: 0 <= k < |updates| ==> f !in updates[k]
    ensures f !in Overwrite(updates)
    decreases |updates|
  {
    if updates != [] {
      var init := updates[..|updates| - 1];
      assert forall k :: 0 <= k < |init| ==> init[k] == updates[k];
      OverwriteOnly(init, f);
    }
  }

  /** Last write wins: a field holds what the last update that sets it gave it. */
  lemma {:induction false} OverwriteLast(updates: seq<Record>, j: nat, f: Field)
    requires j < |updates| && f in updates[j]
    requires forall k :: j < k < |updates| ==> f !in updates[k]
    ensures f in Overwrite(updates) && Overwrite(updates)[f] == updates[j][f]
    decreases |updates|
  {
    var n := |updates| - 1;
    if j < n {
      var init := updates[..n];
      assert forall k :: 0 <= k < |init| ==> init[k] == updates[k];
      OverwriteLast(init, j, f);
    }
  }

  /** A field some line of the block sets is in the record. */
  lemma FillKeeps(lines: seq<string>, k: nat, f: Field)
    requires k < |lines| && f in LineFields(lines[k])
    ensures f in Fill(lines)
  {
    OverwriteKeeps(Updates(lines), k, f);
  }

  /** A field no line of the block sets is not in the record. */
  lemma FillOnlyFromLines(lines: seq<string>, f: Field)
    requires forall k :: 0 <= k < |lines| ==> f !in LineFields(lines[k])
    ensures f !in Fill(lines)
  {
    OverwriteOnly(Updates(lines), f);
  }

  /** Last write wins: a field holds what the last line of the block that sets it gave it. */
  lemma FillLastWrite(lines: seq<string>, j: nat, f: Field)
    requires j < |lines| && f in LineFields(lines[j])
    requires forall k :: j < k < |lines| ==> f !in LineFields(lines[k])
    ensures f in Fill(lines) && Fill(lines)[f] == LineFields(lines[j])[f]
  {
    OverwriteLast(Updates(lines), j, f);
  }

  /** Which per-tag function gives a line's update. */
  lemma LineFieldsByTag(line: string)
    ensures StartsWith(line, "T:") ==> LineFields(line) == TopologyFields(line)
    ensures StartsWith(line, "D:") ==> LineFields(line) == DescriptorFields(line)
    ensures StartsWith(line, "P:") ==> LineFields(line) == ProductFields(line)
    ensures StartsWith(line, "S:") ==> LineFields(line) == StringFields(line)
    ensures StartsWith(line, "C:") ==> LineFields(line) == ConfigFields(line)
    ensures (!StartsWith(line, "T:") && !StartsWith(line, "D:") && !StartsWith(line, "P:") &&
             !StartsWith(line, "S:") && !StartsWith(line, "C:")) ==> LineFields(line) == map[]
  {
    TagsExclusive(line);
  }

  /** A line carries at most one of the five tags. */
  lemma TagsExclusive(line: string)
    ensures StartsWith(line, "T:") ==> !StartsWith(line, "D:") && !StartsWith(line, "P:") && !StartsWith(line, "S:") && !StartsWith(line, "C:")
    ensures StartsWith(line, "D:") ==> !StartsWith(line, "P:") && !StartsWith(line, "S:") && !StartsWith(line, "C:")
    ensures StartsWith(line, "P:") ==> !StartsWith(line, "S:") && !StartsWith(line, "C:")
    ensures StartsWith(line, "S:") ==> !StartsWith(line, "C:")
  {
  }

  lemma TopologyLine(line: string)
    requires StartsWith(line, "T:")
    ensures LineFields(line) == TopologyFields(line)
  {
    TagsExclusive(line);
  }

  lemma DescriptorLine(line: string)
    requires StartsWith(line, "D:")
    ensures LineFields(line) == DescriptorFields(line)
  {
    TagsExclusive(line);
  }

  lemma ProductLine(line: string)
    requires StartsWith(line, "P:")
    ensures LineFields(line) == ProductFields(line)
  {
    TagsExclusive(line);
  }

  lemma StringLine(line: string)
    requires StartsWith(line, "S:")
    ensures LineFields(line) == StringFields(line)
  {
    TagsExclusive(line);
  }

  lemma ConfigLine(line: string)
    requires StartsWith(line, "C:")
    ensures LineFields(line) == ConfigFields(line)
  {
    TagsExclusive(line);
  }

  /** A line with none of the five tags sets nothing. */
  lemma UntaggedLine(line: string)
    ensures (!StartsWith(line, "T:") && !StartsWith(line, "D:") && !StartsWith(line, "P:") &&
             !StartsWith(line, "S:") && !StartsWith(line, "C:")) ==> LineFields(line) == map[]
  {
  }

  lemma TopologyTag(line: string, f: Field)
    requires StartsWith(line, "T:") && f in LineFields(line)
    ensures f == Speed || f == BusInfo
  {
    TopologyLine(line);
  }

  lemma DescriptorTag(line: string, f: Field)
    requires StartsWith(line, "D:") && f in LineFields(line)
    ensures f == Version
  {
    DescriptorLine(line);
  }

  lemma ProductTag(line: string, f: Field)
    requires StartsWith(line, "P:") && f in LineFields(line)
    ensures f == VidPid
  {
    ProductLine(line);
  }

  lemma StringTag(line: string, f: Field)
    requires StartsWith(line, "S:") && f in LineFields(line)
    ensures f == Manufacturer || f == Product || f == Serial
  {
    StringLine(line);
  }

  lemma ConfigTag(line: string, f: Field)
    requires StartsWith(line, "C:") && f in LineFields(line)
    ensures f == MaxPower
  {
    ConfigLine(line);
  }

  /** A field is only ever set by a line carrying that field's tag; untagged lines set nothing. */
  lemma FieldFromTag(line: string, f: Field)
    requires f in LineFields(line)
    ensures StartsWith(line, Tag(f))
  {
    UntaggedLine(line);
    if StartsWith(line, "T:") {
      TopologyTag(line, f);
    } else if StartsWith(line, "D:") {
      DescriptorTag(line, f);
    } else if StartsWith(line, "P:") {
      ProductTag(line, f);
    } else if StartsWith(line, "S:") {
      StringTag(line, f);
    } else if StartsWith(line, "C:") {
      ConfigTag(line, f);
    }
  }

  /** A line tagged neither `P:` nor `S:` sets none of the fields that make a device. */
  lemma NoIdentityLine(line: string)
    requires !StartsWith(line, "P:") && !StartsWith(line, "S:")
    ensures VidPid !in LineFields(line) && Product !in LineFields(line) && Manufacturer !in LineFields(line)
  {
    forall f | f in LineFields(line) ensures f != VidPid && f != Product && f != Manufacturer {
      FieldFromTag(line, f);
    }
  }

  /**
   * An `S:` line sets at most one field: the manufacturer if the line names
   * one, else the product, else the serial number; the value is what
   * follows the marker, stripped.
   */
  lemma StringLinePriority(line: string)
    requires StartsWith(line, "S:")
    ensures |LineFields(line)| <= 1
    ensures Manufacturer in LineFields(line) <==> Contains(line, "Manufacturer=")
    ensures Product in LineFields(line) <==> !Contains(line, "Manufacturer=") && Contains(line, "Product=")
    ensures Serial in LineFields(line) <==>
      !Contains(line, "Manufacturer=") && !Contains(line, "Product=") && Contains(line, "SerialNumber=")
    ensures Manufacturer in LineFields(line) ==>
      LineFields(line)[Manufacturer] == MarkerValue(line, "Manufacturer=")
    ensures Product in LineFields(line) ==> LineFields(line)[Product] == MarkerValue(line, "Product=")
    ensures Serial in LineFields(line) ==> LineFields(line)[Serial] == MarkerValue(line, "SerialNumber=")
  {
    StringLine(line);
  }

  /**
   * The value of an `S:` field: the text after the first occurrence of the
   * marker, up to the next occurrence or the end of the line, with the
   * surrounding whitespace stripped.
   */
  lemma MarkerValueShape(line: string, marker: string) returns (i: nat, piece: string)
    requires marker != [] && Contains(line, marker)
    ensures StartsAt(line, i, marker) && forall j :: 0 <= j < i ==> !StartsAt(line, j, marker)
    ensures i + |marker| + |piece| <= |line| && line[i + |marker|..i + |marker| + |piece|] == piece
    ensures i + |marker| + |piece| == |line| || StartsAt(line, i + |marker| + |piece|, marker)
    ensures MarkerValue(line, marker) == Strip(piece)
    ensures Strip(MarkerValue(line, marker)) == MarkerValue(line, marker)
  {
    i := IndexOf(line, marker, 0).value;
    piece := SplitSecondPiece(line, marker, i);
    StripIdempotent(piece);
  }

  /** A block with no `P:` and no `S:` line names no device. */
  lemma NoIdentityNoDevice(lines: seq<string>)
    requires forall k :: 0 <= k < |lines| ==> !StartsWith(lines[k], "P:") && !StartsWith(lines[k], "S:")
    ensures BlockRecord(lines).None?
  {
    forall k | 0 <= k < |lines| {
      NoIdentityLine(lines[k]);
    }
    FillOnlyFromLines(lines, VidPid);
    FillOnlyFromLines(lines, Product);
    FillOnlyFromLines(lines, Manufacturer);
  }

  lemma TopologyValues(line: string)
    ensures Speed in TopologyFields(line) <==> Search(line, SpdAt).Some?
    ensures Speed in TopologyFields(line) ==> TopologyFields(line)[Speed] == Search(line, SpdAt).value
    ensures BusInfo in TopologyFields(line) <==> Search(line, BusAt).Some?
    ensures BusInfo in TopologyFields(line) ==> TopologyFields(line)[BusInfo] == "Bus " + Search(line, BusAt).value
  {
  }

  lemma DescriptorValue(line: string)
    ensures Version in DescriptorFields(line) <==> Search(line, VerAt).Some?
    ensures Version in DescriptorFields(line) ==> DescriptorFields(line)[Version] == Search(line, VerAt).value
  {
  }

  lemma ProductValue(line: string)
    ensures VidPid in ProductFields(line) <==> Search(line, VendorProdAt).Some?
    ensures VidPid in ProductFields(line) ==>
              ProductFields(line)[VidPid] ==
              Upper(Search(line, VendorProdAt).value.0) + ":" + Upper(Search(line, VendorProdAt).value.1)
  {
  }

  lemma ConfigValue(line: string)
    ensures MaxPower in ConfigFields(line) <==> Search(line, MxPwrAt).Some?
    ensures MaxPower in ConfigFields(line) ==>
              IsDigits(Search(line, MxPwrAt).value) &&
              ConfigFields(line)[MaxPower] == MaxPowerText(Search(line, MxPwrAt).value)
  {
    if Search(line, MxPwrAt).Some? {
      var i := SearchSome(line, MxPwrAt);
    }
  }

  /** The speed is the `\S+` group after the leftmost `Spd=\s*` that is followed by one. */
  lemma SpeedValue(line: string) returns (i: nat, w: string, rest: string)
    requires Speed in LineFields(line)
    ensures StartsWith(line, "T:") && i <= |line|
    ensures line[i..] == "Spd=" + w + LineFields(line)[Speed] + rest
    ensures AllSpace(w) && IsToken(LineFields(line)[Speed]) && (rest == [] || IsSpace(rest[0]))
    ensures forall j :: 0 <= j < i ==> SpdAt(line, j).None?
  {
    FieldFromTag(line, Speed);
    TopologyLine(line);
    TopologyValues(line);
    i, w, rest := SpdFound(line);
  }

  lemma SpeedFromText(line: string, i: nat, w: string, g: string, rest: string)
    requires StartsWith(line, "T:") && i <= |line| && line[i..] == "Spd=" + w + g + rest
    requires AllSpace(w) && IsToken(g) && (rest == [] || IsSpace(rest[0]))
    requires forall j :: 0 <= j < i ==> SpdAt(line, j).None?
    ensures Speed in LineFields(line) && LineFields(line)[Speed] == g
  {
    SpdSearch(line, i, w, g, rest);
    TopologyLine(line);
    TopologyValues(line);
  }

  /** The bus is `Bus ` followed by the digits after the leftmost `Bus=` that has some. */
  lemma BusInfoValue(line: string) returns (i: nat, d: string, rest: string)
    requires BusInfo in LineFields(line)
    ensures StartsWith(line, "T:") && i <= |line|
    ensures line[i..] == "Bus=" + d + rest && LineFields(line)[BusInfo] == "Bus " + d
    ensures IsDigits(d) && (rest == [] || !IsDigit(rest[0]))
    ensures forall j :: 0 <= j < i ==> BusAt(line, j).None?
  {
    FieldFromTag(line, BusInfo);
    TopologyLine(line);
    TopologyValues(line);
    d := Search(line, BusAt).value;
    i, rest := BusFound(line);
  }

  lemma BusInfoFromText(line: string, i: nat, d: string, rest: string)
    requires StartsWith(line, "T:") && i <= |line| && line[i..] == "Bus=" + d + rest
    requires IsDigits(d) && (rest == [] || !IsDigit(rest[0]))
    requires forall j :: 0 <= j < i ==> BusAt(line, j).None?
    ensures BusInfo in LineFields(line) && LineFields(line)[BusInfo] == "Bus " + d
  {
    BusSearch(line, i, d, rest);
    TopologyLine(line);
    TopologyValues(line);
  }

  /** The version is `<digits>.<digits>` after the leftmost `Ver=\s*` that has one. */
  lemma VersionValue(line: string) returns (i: nat, w: string, major: string, minor: string, rest: string)
    requires Version in LineFields(line)
    ensures StartsWith(line, "D:") && i <= |line|
    ensures line[i..] == "Ver=" + w + major + "." + minor + rest
    ensures LineFields(line)[Version] == major + "." + minor
    ensures AllSpace(w) && IsDigits(major) && IsDigits(minor) && (rest == [] || !IsDigit(rest[0]))
    ensures forall j :: 0 <= j < i ==> VerAt(line, j).None?
  {
    FieldFromTag(line, Version);
    DescriptorLine(line);
    DescriptorValue(line);
    i, w, major, minor, rest := VerFound(line);
  }

  lemma VersionFromText(line: string, i: nat, w: string, major: string, minor: string, rest: string)
    requires StartsWith(line, "D:") && i <= |line| && line[i..] == "Ver=" + w + major + "." + minor + rest
    requires AllSpace(w) && IsDigits(major) && IsDigits(minor) && (rest == [] || !IsDigit(rest[0]))
    requires forall j :: 0 <= j < i ==> VerAt(line, j).None?
    ensures Version in LineFields(line) && LineFields(line)[Version] == major + "." + minor
  {
    VerSearch(line, i, w, major, minor, rest);
    DescriptorLine(line);
    DescriptorValue(line);
  }

  /** The VID:PID is the two ids after the leftmost `Vendor=... ProdID=...`, upper-cased. */
  lemma VidPidValue(line: string) returns (i: nat, v: string, w: string, p: string, rest: string)
    requires VidPid in LineFields(line)
    ensures StartsWith(line, "P:") && i <= |line|
    ensures line[i..] == "Vendor=" + v + w + "ProdID=" + p + rest
    ensures LineFields(line)[VidPid] == Upper(v) + ":" + Upper(p)
    ensures IsToken(v) && w != [] && AllSpace(w) && IsToken(p) && (rest == [] || IsSpace(rest[0]))
    ensures forall j :: 0 <= j < i ==> VendorProdAt(line, j).None?
  {
    FieldFromTag(line, VidPid);
    ProductLine(line);
    ProductValue(line);
    v, p := Search(line, VendorProdAt).value.0, Search(line, VendorProdAt).value.1;
    i, w, rest := VendorProdFound(line);
  }

  lemma VidPidFromText(line: string, i: nat, v: string, w: string, p: string, rest: string)
    requires StartsWith(line, "P:") && i <= |line| && line[i..] == "Vendor=" + v + w + "ProdID=" + p + rest
    requires IsToken(v) && w != [] && AllSpace(w) && IsToken(p) && (rest == [] || IsSpace(rest[0]))
    requires forall j :: 0 <= j < i ==> VendorProdAt(line, j).None?
    ensures VidPid in LineFields(line) && LineFields(line)[VidPid] == Upper(v) + ":" + Upper(p)
  {
    VendorProdSearch(line, i, v, w, p, rest);
    ProductLine(line);
    ProductValue(line);
  }

  /** The maximum power is the watt text of the milliamps after the leftmost `MxPwr=\s*<digits>mA`. */
  lemma MaxPowerValue(line: string) returns (i: nat, w: string, d: string, rest: string)
    requires MaxPower in LineFields(line)
    ensures StartsWith(line, "C:") && i <= |line|
    ensures line[i..] == "MxPwr=" + w + d + "mA" + rest
    ensures AllSpace(w) && IsDigits(d) && LineFields(line)[MaxPower] == MaxPowerText(d)
    ensures forall j :: 0 <= j < i ==> MxPwrAt(line, j).None?
  {
    FieldFromTag(line, MaxPower);
    ConfigLine(line);
    ConfigValue(line);
    d := Search(line, MxPwrAt).value;
    i, w, rest := MxPwrFound(line);
  }

  lemma MaxPowerFromText(line: string, i: nat, w: string, d: string, rest: string)
    requires StartsWith(line, "C:") && i <= |line| && line[i..] == "MxPwr=" + w + d + "mA" + rest
    requires AllSpace(w) && IsDigits(d)
    requires forall j :: 0 <= j < i ==> MxPwrAt(line, j).None?
    ensures MaxPower in LineFields(line) && LineFields(line)[MaxPower] == MaxPowerText(d)
  {
    MxPwrSearch(line, i, w, d, rest);
    ConfigLine(line);
    ConfigValue(line);
  }
}
