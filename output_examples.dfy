/**
 * The whole of `parse_usb_devices_fallback` on the output of one Kingston
 * DataTraveler flash drive: the listing holds no blank line, so the lines are
 * grouped at their `T:` header, and the single block gives the drive's record.
 */
module OutputExamples {
  import opened Wrappers
  import opened Text
  import opened BlockParser
  import opened BlockExamples
  import opened Segmenter

  /** The drive's block: its seven lines joined by line breaks. */
  const KingstonText: string := Join(Kingston, "\n")

  /** What `usb-devices` prints for the drive: the block between two line breaks. */
  const KingstonOutput: string := "\n" + KingstonText + "\n"

  /** A line free of line breaks, written as pieces. */
  lemma NoBreak(a: string, b: string)
    requires '\n' !in a && '\n' !in b
    ensures '\n' !in a + b
  {
  }

  /** No line of the block is empty or holds a line break. */
  lemma KingstonLinesClean()
    ensures forall k :: 0 <= k < |Kingston| ==> Kingston[k] != [] && '\n' !in Kingston[k]
  {
    TopologyTextClean();
    DescriptorTextClean();
    ProductTextClean();
    ManufacturerTextClean();
    ProductNameTextClean();
    SerialTextClean();
    ConfigTextClean();
  }

  lemma TopologyTextClean()
    ensures TopologyText != [] && '\n' !in TopologyText
  {
    assert '\n' !in "T:  ";
    assert '\n' !in "Bus=";
    assert '\n' !in "01";
    assert '\n' !in " Lev=01 Prnt=01 Port=00";
    assert '\n' !in " Cnt=01 Dev#=  2 ";
    assert '\n' !in "Spd=";
    assert '\n' !in "480";
    assert '\n' !in "  MxCh= 0";
    NoBreak("T:  ", "Bus=");
    NoBreak("T:  " + "Bus=", "01");
    NoBreak("T:  " + "Bus=" + "01", " Lev=01 Prnt=01 Port=00");
    NoBreak("T:  " + "Bus=" + "01" + " Lev=01 Prnt=01 Port=00", " Cnt=01 Dev#=  2 ");
    NoBreak("T:  " + "Bus=" + "01" + " Lev=01 Prnt=01 Port=00" + " Cnt=01 Dev#=  2 ", "Spd=");
    NoBreak("T:  " + "Bus=" + "01" + " Lev=01 Prnt=01 Port=00" + " Cnt=01 Dev#=  2 " + "Spd=", "480");
    NoBreak("T:  " + "Bus=" + "01" + " Lev=01 Prnt=01 Port=00" + " Cnt=01 Dev#=  2 " + "Spd=" + "480", "  MxCh= 0");
  }

  lemma DescriptorTextClean()
    ensures DescriptorText != [] && '\n' !in DescriptorText
  {
    assert '\n' !in "D:  ";
    assert '\n' !in "Ver=";
    assert '\n' !in " ";
    assert '\n' !in "2";
    assert '\n' !in ".";
    assert '\n' !in "00";
    assert '\n' !in " Cls=00(>ifc ) Sub=00";
    assert '\n' !in " Prot=00 MxPS=64 #Cfgs=  1";
    NoBreak("D:  ", "Ver=");
    NoBreak("D:  " + "Ver=", " ");
    NoBreak("D:  " + "Ver=" + " ", "2");
    NoBreak("D:  " + "Ver=" + " " + "2", ".");
    NoBreak("D:  " + "Ver=" + " " + "2" + ".", "00");
    NoBreak("D:  " + "Ver=" + " " + "2" + "." + "00", " Cls=00(>ifc ) Sub=00");
    NoBreak("D:  " + "Ver=" + " " + "2" + "." + "00" + " Cls=00(>ifc ) Sub=00", " Prot=00 MxPS=64 #Cfgs=  1");
  }

  lemma ProductTextClean()
    ensures ProductText != [] && '\n' !in ProductText
  {
    assert '\n' !in "P:  ";
    assert '\n' !in "Vendor=";
    assert '\n' !in "0951";
    assert '\n' !in " ";
    assert '\n' !in "ProdID=";
    assert '\n' !in "1666";
    assert '\n' !in " Rev= 1.00";
    NoBreak("P:  ", "Vendor=");
    NoBreak("P:  " + "Vendor=", "0951");
    NoBreak("P:  " + "Vendor=" + "0951", " ");
    NoBreak("P:  " + "Vendor=" + "0951" + " ", "ProdID=");
    NoBreak("P:  " + "Vendor=" + "0951" + " " + "ProdID=", "1666");
    NoBreak("P:  " + "Vendor=" + "0951" + " " + "ProdID=" + "1666", " Rev= 1.00");
  }

  lemma ManufacturerTextClean()
    ensures ManufacturerText != [] && '\n' !in ManufacturerText
  {
    assert '\n' !in "S:  ";
    assert '\n' !in "Manufacturer=";
    assert '\n' !in "Kingston";
    NoBreak("S:  ", "Manufacturer=");
    NoBreak("S:  " + "Manufacturer=", "Kingston");
  }

  lemma ProductNameTextClean()
    ensures ProductNameText != [] && '\n' !in ProductNameText
  {
    assert '\n' !in "S:  ";
    assert '\n' !in "Product=";
    assert '\n' !in "DataTraveler 3.0";
    NoBreak("S:  ", "Product=");
    NoBreak("S:  " + "Product=", "DataTraveler 3.0");
  }

  lemma SerialTextClean()
    ensures SerialText != [] && '\n' !in SerialText
  {
    assert '\n' !in "S:  ";
    assert '\n' !in "SerialNumber=";
    assert '\n' !in "001CC0EC34E8BB30F9A00B8C";
    NoBreak("S:  ", "SerialNumber=");
    NoBreak("S:  " + "SerialNumber=", "001CC0EC34E8BB30F9A00B8C");
  }

  lemma ConfigTextClean()
    ensures ConfigText != [] && '\n' !in ConfigText
  {
    assert '\n' !in "C:* #Ifs= 1 Cfg#= 1 Atr=80 ";
    assert '\n' !in "MxPwr=";
    assert '\n' !in "224";
    assert '\n' !in "mA";
    NoBreak("C:* #Ifs= 1 Cfg#= 1 Atr=80 ", "MxPwr=");
    NoBreak("C:* #Ifs= 1 Cfg#= 1 Atr=80 " + "MxPwr=", "224");
    NoBreak("C:* #Ifs= 1 Cfg#= 1 Atr=80 " + "MxPwr=" + "224", "mA");
  }

  /** The block opens with `T` and closes with the `A` of `mA`. */
  lemma KingstonTextEnds()
    ensures KingstonText != [] && KingstonText[0] == 'T' && KingstonText[|KingstonText| - 1] == 'A'
  {
    assert TopologyText[0] == 'T';
    assert ConfigText[|ConfigText| - 1] == 'A';
    JoinFirst(Kingston, "\n");
    JoinLast(Kingston, "\n");
  }

  /** One leading line break before a non-blank character goes. */
  lemma LeadingBreak(t: string)
    requires t != [] && !IsSpace(t[0])
    ensures LStrip("\n" + t) == t
  {
    assert ("\n" + t)[1..] == t;
  }

  /** The leading line break is stripped, and nothing more. */
  lemma KingstonLStrip()
    ensures LStrip(KingstonOutput) == KingstonText + "\n"
  {
    KingstonTextEnds();
    LeadingBreak(KingstonText + "\n");
  }

  /** The trailing line break is stripped, and nothing more. */
  lemma KingstonRStrip()
    ensures RStrip(KingstonText + "\n") == KingstonText
  {
    KingstonTextEnds();
    var tail := KingstonText + "\n";
    assert tail[|tail| - 1] == '\n' && tail[..|tail| - 1] == KingstonText;
  }

  /** Stripping the output leaves the block. */
  lemma KingstonStrip()
    ensures Strip(KingstonOutput) == KingstonText
  {
    KingstonLStrip();
    KingstonRStrip();
  }

  /** Splitting the block at line breaks gives its lines back. */
  lemma KingstonLines()
    ensures Split(KingstonText, "\n") == Kingston
  {
    KingstonLinesClean();
    forall k | 0 <= k < |Kingston| ensures SepOnlyAfter(Kingston[k], "\n") {
      CharSepOnlyAfter(Kingston[k], '\n');
    }
    JoinSplit(Kingston, "\n");
  }

  /** The block holds no blank line. */
  lemma KingstonNoBlankLine()
    ensures Split(KingstonText, "\n\n") == [KingstonText]
  {
    KingstonLinesClean();
    JoinNoDoubled(Kingston, '\n');
    assert "\n\n" == ['\n', '\n'];
    assert IndexOf(KingstonText, "\n\n", 0).None?;
  }

  /** Only the first line of the block is a `T:` header. */
  lemma KingstonOneGroup()
    ensures HeaderGroups(Kingston) == [Kingston]
  {
    assert Kingston[1][0] == 'D' && Kingston[2][0] == 'P' && Kingston[3][0] == 'S';
    assert Kingston[4][0] == 'S' && Kingston[5][0] == 'S' && Kingston[6][0] == 'C';
    assert NoInnerHeader(Kingston);
    assert WellGrouped([Kingston]);
    assert [Kingston][..0] == [];
    assert Concat([Kingston]) == Kingston;
    HeaderGroupsUnique([Kingston], Kingston);
  }

  /** The fallback grouping turns the output into the one block. */
  lemma KingstonBlocks()
    ensures Blocks(KingstonOutput) == [KingstonText]
  {
    KingstonStrip();
    KingstonNoBlankLine();
    KingstonLines();
    KingstonOneGroup();
  }

  /** The block's lines, as the aggregation loop reads them. */
  lemma KingstonBlockLines()
    ensures BlockLines(KingstonText) == Kingston
  {
    KingstonTextEnds();
    StripUnchanged(KingstonText);
    KingstonLines();
  }

  /** The drive's output gives exactly the drive's record. */
  lemma KingstonDevices()
    ensures UsbDevices(Output(KingstonOutput)) == [KingstonRecord]
  {
    KingstonBlocks();
    KingstonBlockLines();
    KingstonBlock();
    var xs := Parsed([KingstonText]);
    assert xs == [xs[0]];
    SomesOne(xs[0]);
  }
}
