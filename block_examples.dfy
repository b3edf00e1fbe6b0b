/**
 * The block parser on the Kingston DataTraveler block of the `usb-devices`
 * listing used by the unit tests, and on a block that names no device.
 * The lines are written as concatenations of short pieces; joined, each is
 * exactly the line of the listing.
 */
module BlockExamples {
  import opened Wrappers
  import opened Text
  import opened Patterns
  import opened Power
  import opened BlockParser

  const TopologyText: string := "T:  " + "Bus=" + "01" + " Lev=01 Prnt=01 Port=00" + " Cnt=01 Dev#=  2 " + "Spd=" + "480" + "  MxCh= 0"
  const DescriptorText: string := "D:  " + "Ver=" + " " + "2" + "." + "00" + " Cls=00(>ifc ) Sub=00" + " Prot=00 MxPS=64 #Cfgs=  1"
  const ProductText: string := "P:  " + "Vendor=" + "0951" + " " + "ProdID=" + "1666" + " Rev= 1.00"
  const ManufacturerText: string := "S:  " + "Manufacturer=" + "Kingston"
  const ProductNameText: string := "S:  " + "Product=" + "DataTraveler 3.0"
  const SerialText: string := "S:  " + "SerialNumber=" + "001CC0EC34E8BB30F9A00B8C"
  const ConfigText: string := "C:* #Ifs= 1 Cfg#= 1 Atr=80 " + "MxPwr=" + "224" + "mA"

  const Kingston: seq<string> :=
    [TopologyText, DescriptorText, ProductText, ManufacturerText, ProductNameText, SerialText, ConfigText]

  /** The record the tests expect for the Kingston block. */
  const KingstonRecord: Record := map[
    Speed := "480", BusInfo := "Bus 01", Version := "2.00", VidPid := "0951:1666",
    Manufacturer := "Kingston", Product := "DataTraveler 3.0",
    Serial := "001CC0EC34E8BB30F9A00B8C", MaxPower := "1.12"]

  /** `p` does not occur in `s` when `p`'s first character does not. */
  lemma NotContained(s: string, p: string)
    requires p != [] && p[0] !in s
    ensures !Contains(s, p)
  {
    forall j: nat ensures !StartsAt(s, j, p) {
      if j + |p| <= |s| {
        assert s[j..j + |p|][0] == s[j];
      }
    }
    IndexOfNone(s, p);
  }

  /**
   * The value `MarkerValue` reads from `pre + marker + value`, when the
   * marker does not start inside `pre` and its first character occurs
   * neither later in the marker nor in `value`.
   */
  lemma MarkerValueIs(line: string, pre: string, marker: string, value: string)
    requires marker != [] && line == pre + marker + value
    requires forall j :: 0 <= j < |pre| ==> !StartsAt(line, j, marker)
    requires marker[0] !in marker[1..] && marker[0] !in value
    ensures Contains(line, marker) && MarkerValue(line, marker) == Strip(value)
  {
    var i := |pre|;
    assert line[i..i + |marker|] == marker;
    IndexOfIs(line, marker, i);
    var i', piece := MarkerValueShape(line, marker);
    var k := i + |marker| + |piece|;
    assert piece == line[i + |marker|..];
  }

  /** In `pre + tail`, the tail starts at `|pre|`, and `p` starts nowhere in `pre` when its first character is absent from it. */
  lemma After(pre: string, tail: string, p: string)
    requires p != [] && p[0] !in pre
    ensures (pre + tail)[|pre|..] == tail
    ensures forall j :: 0 <= j < |pre| ==> !StartsAt(pre + tail, j, p)
  {
    var s := pre + tail;
    forall j | 0 <= j < |pre| ensures !StartsAt(s, j, p) {
      assert s[j] == pre[j];
      if j + |p| <= |s| {
        assert s[j..j + |p|][0] == s[j];
      }
    }
  }

  lemma TopologyBus()
    ensures Search(TopologyText, BusAt).Some? && Search(TopologyText, BusAt).value == "01"
  {
    var s := TopologyText;
    var m := " Lev=01 Prnt=01 Port=00" + " Cnt=01 Dev#=  2 ";
    assert s == "T:  " + ("Bus=" + "01" + (m + "Spd=" + "480" + "  MxCh= 0"));
    After("T:  ", "Bus=" + "01" + (m + "Spd=" + "480" + "  MxCh= 0"), "Bus=");
    BusSearch(s, 4, "01", m + "Spd=" + "480" + "  MxCh= 0");
  }

  lemma TopologySpeed()
    ensures Search(TopologyText, SpdAt).Some? && Search(TopologyText, SpdAt).value == "480"
  {
    var s := TopologyText;
    var m := " Lev=01 Prnt=01 Port=00" + " Cnt=01 Dev#=  2 ";
    assert s == ("T:  " + "Bus=" + "01" + m) + ("Spd=" + "" + "480" + "  MxCh= 0");
    After("T:  " + "Bus=" + "01" + m, "Spd=" + "" + "480" + "  MxCh= 0", "Spd=");
    SpdSearch(s, |"T:  " + "Bus=" + "01" + m|, "", "480", "  MxCh= 0");
  }

  lemma TopologyFieldsOf(line: string, spd: string, bus: string)
    requires Search(line, SpdAt).Some? && Search(line, SpdAt).value == spd
    requires Search(line, BusAt).Some? && Search(line, BusAt).value == bus
    ensures TopologyFields(line) == map[Speed := spd, BusInfo := "Bus " + bus]
  {
  }

  /** The same, for a text written as three pieces. */
  lemma After3(a: string, b: string, c: string, p: string)
    requires p != [] && p[0] !in a
    ensures (a + b + c)[|a|..] == b + c
    ensures forall j :: 0 <= j < |a| ==> !StartsAt(a + b + c, j, p)
  {
    assert a + b + c == a + (b + c);
    After(a, b + c, p);
  }

  lemma TopologyExample()
    ensures LineFields(TopologyText) == map[Speed := "480", BusInfo := "Bus 01"]
  {
    TopologyLine(TopologyText);
    TopologyBus();
    TopologySpeed();
    TopologyFieldsOf(TopologyText, "480", "01");
    assert "Bus " + "01" == "Bus 01";
  }

  lemma DescriptorVersion()
    ensures Search(DescriptorText, VerAt).Some? && Search(DescriptorText, VerAt).value == "2" + "." + "00"
  {
    var s := DescriptorText;
    var r := " Cls=00(>ifc ) Sub=00" + " Prot=00 MxPS=64 #Cfgs=  1";
    assert s == "D:  " + ("Ver=" + " " + "2" + "." + "00" + r);
    After("D:  ", "Ver=" + " " + "2" + "." + "00" + r, "Ver=");
    VerSearch(s, 4, " ", "2", "00", r);
  }

  lemma DescriptorExample()
    ensures LineFields(DescriptorText) == map[Version := "2.00"]
  {
    DescriptorLine(DescriptorText);
    DescriptorVersion();
    assert "2" + "." + "00" == "2.00";
  }

  lemma ProductIds()
    ensures Search(ProductText, VendorProdAt).Some? && Search(ProductText, VendorProdAt).value == ("0951", "1666")
  {
    var s := ProductText;
    assert s == "P:  " + ("Vendor=" + "0951" + " " + "ProdID=" + "1666" + " Rev= 1.00");
    After("P:  ", "Vendor=" + "0951" + " " + "ProdID=" + "1666" + " Rev= 1.00", "Vendor=");
    VendorProdSearch(s, 4, "0951", " ", "1666", " Rev= 1.00");
  }

  /** Upper-casing leaves text without lower-case letters alone. */
  lemma UpperUnchanged(s: string)
    requires forall k :: 0 <= k < |s| ==> !('a' <= s[k] <= 'z')
    ensures Upper(s) == s
  {
  }

  lemma ProductFieldsOf(line: string, v: string, p: string)
    requires Search(line, VendorProdAt).Some? && Search(line, VendorProdAt).value == (v, p)
    ensures ProductFields(line) == map[VidPid := Upper(v) + ":" + Upper(p)]
  {
  }

  lemma ProductExample()
    ensures LineFields(ProductText) == map[VidPid := "0951:1666"]
  {
    ProductLine(ProductText);
    ProductIds();
    ProductFieldsOf(ProductText, "0951", "1666");
    UpperIds();
  }

  /** The ids are digits, which upper-casing leaves alone. */
  lemma UpperIds()
    ensures Upper("0951") + ":" + Upper("1666") == "0951:1666"
  {
    UpperUnchanged("0951");
    UpperUnchanged("1666");
    assert "0951" + ":" + "1666" == "0951:1666";
  }

  lemma ManufacturerFieldsOf(line: string, v: string)
    requires Contains(line, "Manufacturer=") && MarkerValue(line, "Manufacturer=") == v
    ensures StringFields(line) == map[Manufacturer := v]
  {
  }

  lemma ProductNameFieldsOf(line: string, v: string)
    requires !Contains(line, "Manufacturer=")
    requires Contains(line, "Product=") && MarkerValue(line, "Product=") == v
    ensures StringFields(line) == map[Product := v]
  {
  }

  lemma SerialFieldsOf(line: string, v: string)
    requires !Contains(line, "Manufacturer=") && !Contains(line, "Product=")
    requires Contains(line, "SerialNumber=") && MarkerValue(line, "SerialNumber=") == v
    ensures StringFields(line) == map[Serial := v]
  {
  }

  lemma ManufacturerMarker()
    ensures Contains(ManufacturerText, "Manufacturer=")
    ensures MarkerValue(ManufacturerText, "Manufacturer=") == Strip("Kingston")
  {
    After3("S:  ", "Manufacturer=", "Kingston", "Manufacturer=");
    MarkerValueIs(ManufacturerText, "S:  ", "Manufacturer=", "Kingston");
  }

  lemma ManufacturerExample()
    ensures LineFields(ManufacturerText) == map[Manufacturer := "Kingston"]
  {
    StringLine(ManufacturerText);
    ManufacturerMarker();
    StripUnchanged("Kingston");
    ManufacturerFieldsOf(ManufacturerText, "Kingston");
  }

  lemma ProductNameMarker()
    ensures Contains(ProductNameText, "Product=")
    ensures MarkerValue(ProductNameText, "Product=") == Strip("DataTraveler 3.0")
  {
    After3("S:  ", "Product=", "DataTraveler 3.0", "Product=");
    MarkerValueIs(ProductNameText, "S:  ", "Product=", "DataTraveler 3.0");
  }

  lemma ProductNameExample()
    ensures LineFields(ProductNameText) == map[Product := "DataTraveler 3.0"]
  {
    StringLine(ProductNameText);
    NotContained(ProductNameText, "Manufacturer=");
    ProductNameMarker();
    StripUnchanged("DataTraveler 3.0");
    ProductNameFieldsOf(ProductNameText, "DataTraveler 3.0");
  }

  /** `SerialNumber=` does not start in `S:  `: the colon after the first `S` is not an `e`. */
  lemma SerialNotBefore()
    ensures forall j :: 0 <= j < 4 ==> !StartsAt(SerialText, j, "SerialNumber=")
  {
    var s := SerialText;
    var m := "SerialNumber=";
    After3("S:  ", m, "001CC0EC34E8BB30F9A00B8C", "e");
    forall j | 0 <= j < 4 ensures !StartsAt(s, j, m) {
      if j + |m| <= |s| {
        assert s[j..j + |m|][1] == s[j + 1];
        if j < 3 {
          assert !StartsAt(s, j + 1, "e");
          assert s[j + 1..j + 2][0] == s[j + 1];
        }
      }
    }
  }

  lemma SerialOnly()
    ensures !Contains(SerialText, "Manufacturer=") && !Contains(SerialText, "Product=")
  {
    NotContained(SerialText, "Manufacturer=");
    NotContained(SerialText, "Product=");
  }

  lemma SerialMarker()
    ensures Contains(SerialText, "SerialNumber=")
    ensures MarkerValue(SerialText, "SerialNumber=") == Strip("001CC0EC34E8BB30F9A00B8C")
  {
    SerialNotBefore();
    MarkerValueIs(SerialText, "S:  ", "SerialNumber=", "001CC0EC34E8BB30F9A00B8C");
  }

  lemma SerialExample()
    ensures LineFields(SerialText) == map[Serial := "001CC0EC34E8BB30F9A00B8C"]
  {
    StringLine(SerialText);
    SerialOnly();
    SerialMarker();
    StripUnchanged("001CC0EC34E8BB30F9A00B8C");
    SerialFieldsOf(SerialText, "001CC0EC34E8BB30F9A00B8C");
  }

  lemma ConfigPower()
    ensures Search(ConfigText, MxPwrAt).Some? && Search(ConfigText, MxPwrAt).value == "224"
  {
    var s := ConfigText;
    var pre := "C:* #Ifs= 1 Cfg#= 1 Atr=80 ";
    assert s == pre + ("MxPwr=" + "" + "224" + "mA" + "");
    After(pre, "MxPwr=" + "" + "224" + "mA" + "", "MxPwr=");
    MxPwrSearch(s, |pre|, "", "224", "");
  }

  lemma ConfigExample()
    ensures LineFields(ConfigText) == map[MaxPower := "1.12"]
  {
    ConfigLine(ConfigText);
    ConfigPower();
    MaxPowerText224();
  }

  /** The record of a seven-line block is the union of the lines' updates, later lines winning. */
  lemma Fill7(l0: string, l1: string, l2: string, l3: string, l4: string, l5: string, l6: string)
    ensures Fill([l0, l1, l2, l3, l4, l5, l6]) ==
      map[] + LineFields(l0) + LineFields(l1) + LineFields(l2) + LineFields(l3) +
      LineFields(l4) + LineFields(l5) + LineFields(l6)
  {
    var lines := [l0, l1, l2, l3, l4, l5, l6];
    assert Fill(lines[..0]) == map[];
    FillSnoc(lines, 0);
    FillSnoc(lines, 1);
    FillSnoc(lines, 2);
    FillSnoc(lines, 3);
    FillSnoc(lines, 4);
    FillSnoc(lines, 5);
    FillSnoc(lines, 6);
    assert lines[..7] == lines;
  }

  lemma UnionEmpty(m: Record)
    ensures map[] + m == m
  {
  }

  lemma UnionOne(m: Record, f: Field, v: string)
    ensures m + map[f := v] == m[f := v]
  {
  }

  /** The union of the Kingston lines' updates: each line sets its own fields. */
  lemma KingstonUnion()
    ensures map[] + map[Speed := "480", BusInfo := "Bus 01"] + map[Version := "2.00"] + map[VidPid := "0951:1666"] +
      map[Manufacturer := "Kingston"] + map[Product := "DataTraveler 3.0"] +
      map[Serial := "001CC0EC34E8BB30F9A00B8C"] + map[MaxPower := "1.12"] == KingstonRecord
  {
    var m1: Record := map[Speed := "480", BusInfo := "Bus 01"];
    UnionEmpty(m1);
    UnionOne(m1, Version, "2.00");
    var m2 := m1[Version := "2.00"];
    UnionOne(m2, VidPid, "0951:1666");
    var m3 := m2[VidPid := "0951:1666"];
    UnionOne(m3, Manufacturer, "Kingston");
    var m4 := m3[Manufacturer := "Kingston"];
    UnionOne(m4, Product, "DataTraveler 3.0");
    var m5 := m4[Product := "DataTraveler 3.0"];
    UnionOne(m5, Serial, "001CC0EC34E8BB30F9A00B8C");
    var m6 := m5[Serial := "001CC0EC34E8BB30F9A00B8C"];
    UnionOne(m6, MaxPower, "1.12");
  }

  /** The Kingston block gives the record the tests expect, field for field. */
  lemma KingstonFill()
    ensures Fill(Kingston) == KingstonRecord
  {
    Fill7(TopologyText, DescriptorText, ProductText, ManufacturerText, ProductNameText, SerialText, ConfigText);
    TopologyExample();
    DescriptorExample();
    ProductExample();
    ManufacturerExample();
    ProductNameExample();
    SerialExample();
    ConfigExample();
    KingstonUnion();
  }

  /** `parse_usb_block` keeps the Kingston block as a device with that record. */
  lemma KingstonBlock()
    ensures BlockRecord(Kingston) == Some(KingstonRecord)
  {
    KingstonFill();
  }

  /** A text whose first character differs from that of `p` does not start with `p`. */
  lemma FirstCharDiffers(s: string, p: string)
    requires p != [] && s != [] && s[0] != p[0]
    ensures !StartsWith(s, p)
  {
    if |p| <= |s| {
      assert s[..|p|][0] == s[0];
    }
  }

  /** A block with only its `T:` and `D:` lines names no device: `parse_usb_block` gives `None`. */
  lemma TopologyAndDescriptorOnly()
    ensures BlockRecord([TopologyText, DescriptorText]).None?
  {
    FirstCharDiffers(TopologyText, "P:");
    FirstCharDiffers(TopologyText, "S:");
    FirstCharDiffers(DescriptorText, "P:");
    FirstCharDiffers(DescriptorText, "S:");
    NoIdentityNoDevice([TopologyText, DescriptorText]);
  }
}
