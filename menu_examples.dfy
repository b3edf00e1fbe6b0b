/**
 * The menu entry of the Kingston DataTraveler flash drive whose
 * `usb-devices` block is worked through in `BlockExamples`.
 */
module MenuExamples {
  import opened BlockParser
  import opened BlockExamples
  import opened Menu

  /** A device that reports ids but no product name is listed as an unknown device. */
  lemma UnnamedLabel()
    ensures MainLabel(map[VidPid := "0951:1666", Manufacturer := "Kingston"]) == "Unknown Device (0951:1666)"
  {
    assert "Unknown Device" + " (" + "0951:1666" + ")" == "Unknown Device (0951:1666)";
  }

  /** The drive is listed by its product name and ids. */
  lemma KingstonLabel()
    ensures MainLabel(KingstonRecord) == "DataTraveler 3.0 (0951:1666)"
  {
    assert "DataTraveler 3.0" + " (" + "0951:1666" + ")" == "DataTraveler 3.0 (0951:1666)";
  }

  lemma KingstonManufacturerLine()
    ensures DetailsUpTo(KingstonRecord, 1) == DetailsUpTo(KingstonRecord, 0) + ["Manufacturer: Kingston"]
  {
    assert KingstonRecord[Manufacturer] == "Kingston";
    assert "Manufacturer: " + "Kingston" == "Manufacturer: Kingston";
  }

  lemma KingstonVidPidLine()
    ensures DetailsUpTo(KingstonRecord, 2) == DetailsUpTo(KingstonRecord, 1) + ["VID:PID: 0951:1666"]
  {
    assert KingstonRecord[VidPid] == "0951:1666";
    assert "VID:PID: " + "0951:1666" == "VID:PID: 0951:1666";
  }

  lemma KingstonSerialLine()
    ensures DetailsUpTo(KingstonRecord, 3) == DetailsUpTo(KingstonRecord, 2) + ["Serial: 001CC0EC34E8BB30F9A00B8C"]
  {
    assert KingstonRecord[Serial] == "001CC0EC34E8BB30F9A00B8C";
    assert "Serial: " + "001CC0EC34E8BB30F9A00B8C" == "Serial: 001CC0EC34E8BB30F9A00B8C";
  }

  lemma KingstonVersionLine()
    ensures DetailsUpTo(KingstonRecord, 4) == DetailsUpTo(KingstonRecord, 3) + ["USB Version: 2.00"]
  {
    assert KingstonRecord[Version] == "2.00";
    assert "USB Version: " + "2.00" == "USB Version: 2.00";
  }

  lemma KingstonSpeedLine()
    ensures DetailsUpTo(KingstonRecord, 5) == DetailsUpTo(KingstonRecord, 4) + ["Speed: 480 Mbps"]
  {
    assert KingstonRecord[Speed] == "480";
    assert "Speed: " + "480" + " Mbps" == "Speed: 480 Mbps";
  }

  lemma KingstonMaxPowerLine()
    ensures DetailsUpTo(KingstonRecord, 6) == DetailsUpTo(KingstonRecord, 5) + ["Power: 1.12 W"]
  {
    assert KingstonRecord[MaxPower] == "1.12";
    assert "Power: " + "1.12" + " W" == "Power: 1.12 W";
  }

  /** Its submenu shows all six details, in the fixed order. */
  lemma KingstonDetails()
    ensures DetailLines(KingstonRecord) == [
      "Manufacturer: Kingston", "VID:PID: 0951:1666", "Serial: 001CC0EC34E8BB30F9A00B8C",
      "USB Version: 2.00", "Speed: 480 Mbps", "Power: 1.12 W"]
  {
    DetailsUpToLines(KingstonRecord, 6);
    assert DetailOrder[..6] == DetailOrder;
    assert DetailsUpTo(KingstonRecord, 0) == [];
    KingstonManufacturerLine();
    KingstonVidPidLine();
    KingstonSerialLine();
    KingstonVersionLine();
    KingstonSpeedLine();
    KingstonMaxPowerLine();
  }
}
