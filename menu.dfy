/**
 * `UsbMenuApp.rebuild_menu`: the indicator menu lists one item per device,
 * labelled with its product name and ids, each with a submenu of detail
 * lines; an empty listing shows a notice instead. A separator and a `Quit`
 * item close the menu. GTK widgets are modelled as `MenuItem` values.
 */
module Menu {
  import opened Text
  import opened BlockParser
  import opened Segmenter

  /** `info.get('product', 'Unknown Device')`: the default stands in only for a missing key. */
  function ProductName(info: Record): string {
    if Product in info then info[Product] else "Unknown Device"
  }

  /** `info.get('vidpid', '')`. */
  function VidPidText(info: Record): string {
    if VidPid in info then info[VidPid] else ""
  }

  /** The device item's label: the product, followed by the ids in parentheses when there are any. */
  function MainLabel(info: Record): string {
    var vidpid := VidPidText(info);
    if vidpid != "" then ProductName(info) + " (" + vidpid + ")" else ProductName(info)
  }

  /**
   * The label opens with the product name, or `Unknown Device` when the
   * record has none, and is followed by ` (<ids>)` exactly when the device
   * has ids.
   */
  lemma LabelShape(info: Record)
    ensures ProductName(info) <= MainLabel(info)
    ensures Product !in info ==> ProductName(info) == "Unknown Device"
    ensures Product in info ==> ProductName(info) == info[Product]
    ensures |MainLabel(info)| == |ProductName(info)| <==> VidPidText(info) == ""
    ensures VidPidText(info) != "" ==> MainLabel(info)[|ProductName(info)|..] == " (" + VidPidText(info) + ")"
    ensures VidPidText(info) != "" ==> MainLabel(info)[|MainLabel(info)| - 1] == ')'
  {
    var p := ProductName(info);
    if VidPidText(info) != "" {
      assert MainLabel(info) == p + (" (" + VidPidText(info) + ")");
    }
  }

  /** The fields shown in a device's submenu, in the order they are shown. */
  const DetailOrder: seq<Field> := [Manufacturer, VidPid, Serial, Version, Speed, MaxPower]

  /** The position of each field in `DetailOrder`; the fields not shown there come after. */
  function Rank(f: Field): nat {
    match f
    case Manufacturer => 0
    case VidPid => 1
    case Serial => 2
    case Version => 3
    case Speed => 4
    case MaxPower => 5
    case Product => 6
    case BusInfo => 7
  }

  /** The values for which a field's detail line is left out. */
  function Skipped(f: Field): set<string> {
    match f
    case VidPid => {""}
    case MaxPower => {"", "0.00", "N/A"}
    case _ => {"", "N/A"}
  }

  /** The field has a detail line: it is set and its value is not one of the skipped ones. */
  predicate Shown(info: Record, f: Field) {
    f in info && info[f] !in Skipped(f)
  }

  /** The text of a detail line. */
  function Caption(f: Field, v: string): string {
    match f
    case Manufacturer => "Manufacturer: " + v
    case VidPid => "VID:PID: " + v
    case Serial => "Serial: " + v
    case Version => "USB Version: " + v
    case Speed => "Speed: " + v + " Mbps"
    case MaxPower => "Power: " + v + " W"
    case Product => "Product: " + v
    case BusInfo => "Bus: " + v
  }

  /** `[f]` when the field is shown, else nothing. */
  function Pick(info: Record, f: Field): seq<Field> {
    if Shown(info, f) then [f] else []
  }

  /** The fields of `fs` that are shown, in the order of `fs`. */
  function ShownFields(info: Record, fs: seq<Field>): (r: seq<Field>)
    ensures forall k :: 0 <= k < |r| ==> Shown(info, r[k])
    decreases |fs|
  {
    if fs == [] then []
    else ShownFields(info, fs[..|fs| - 1]) + Pick(info, fs[|fs| - 1])
  }

  /** The captions of the given fields, in their order. */
  function Captions(info: Record, fs: seq<Field>): (r: seq<string>)
    requires forall k :: 0 <= k < |fs| ==> fs[k] in info
    ensures |r| == |fs|
  {
    seq(|fs|, k requires 0 <= k < |fs| => Caption(fs[k], info[fs[k]]))
  }

  /** The detail lines of a device: one caption per shown field. */
  function DetailLines(info: Record): (r: seq<string>)
    ensures |r| == |ShownFields(info, DetailOrder)|
  {
    Captions(info, ShownFields(info, DetailOrder))
  }

  /** The check of the detail field at position `i`. */
  lemma ShownNext(info: Record, i: nat)
    requires i < |DetailOrder|
    ensures ShownFields(info, DetailOrder[..i + 1]) == ShownFields(info, DetailOrder[..i]) + Pick(info, DetailOrder[i])
  {
    assert DetailOrder[..i + 1][..i] == DetailOrder[..i];
  }

  /** One more caption at the end. */
  lemma CaptionsSnoc(info: Record, fs: seq<Field>, f: Field)
    requires (forall k :: 0 <= k < |fs| ==> fs[k] in info) && f in info
    ensures Captions(info, fs + [f]) == Captions(info, fs) + [Caption(f, info[f])]
  {
  }

  /** `filter(None, details)`: the non-empty lines, in order. */
  function NonEmptyLines(xs: seq<string>): seq<string>
    decreases |xs|
  {
    if xs == [] then [] else (if xs[0] != "" then [xs[0]] else []) + NonEmptyLines(xs[1..])
  }

  /** A field has a detail line exactly when it is a detail field and is shown. */
  lemma {:induction false} ShownFieldsMembers(info: Record, fs: seq<Field>, f: Field)
    ensures f in ShownFields(info, fs) <==> f in fs && Shown(info, f)
    decreases |fs|
  {
    if fs != [] {
      var init := fs[..|fs| - 1];
      ShownFieldsMembers(info, init, f);
      assert fs == init + [fs[|fs| - 1]];
    }
  }

  /** Fields listed in increasing `Rank`. */
  predicate Ascending(fs: seq<Field>) {
    forall i, j :: 0 <= i < j < |fs| ==> Rank(fs[i]) < Rank(fs[j])
  }

  /** Leaving fields out keeps the rest in order. */
  lemma {:induction false} ShownFieldsAscending(info: Record, fs: seq<Field>)
    requires Ascending(fs)
    ensures Ascending(ShownFields(info, fs))
    decreases |fs|
  {
    if fs != [] {
      var n := |fs| - 1;
      var init := fs[..n];
      assert Ascending(init) by {
        forall i, j | 0 <= i < j < |init| ensures Rank(init[i]) < Rank(init[j]) {
          assert init[i] == fs[i] && init[j] == fs[j];
        }
      }
      ShownFieldsAscending(info, init);
      var front := ShownFields(info, init);
      forall f | f in front ensures Rank(f) < Rank(fs[n]) {
        ShownFieldsMembers(info, init, f);
        var j :| 0 <= j < |init| && init[j] == f;
        assert fs[j] == f;
      }
    }
  }

  /**
   * The detail lines follow `DetailOrder`: manufacturer, ids, serial, USB
   * version, speed, power; a field has a line exactly when it is shown.
   */
  lemma DetailOrderKept(info: Record)
    ensures Ascending(ShownFields(info, DetailOrder))
    ensures forall f :: f in ShownFields(info, DetailOrder) <==> f in DetailOrder && Shown(info, f)
  {
    ShownFieldsAscending(info, DetailOrder);
    forall f ensures f in ShownFields(info, DetailOrder) <==> f in DetailOrder && Shown(info, f) {
      ShownFieldsMembers(info, DetailOrder, f);
    }
  }

  /** No detail line is empty, so `filter(None, …)` keeps them all. */
  lemma {:induction false} NonEmptyLinesKeep(xs: seq<string>)
    requires forall k :: 0 <= k < |xs| ==> xs[k] != ""
    ensures NonEmptyLines(xs) == xs
    decreases |xs|
  {
    if xs != [] {
      NonEmptyLinesKeep(xs[1..]);
    }
  }

  lemma DetailLinesNonEmpty(info: Record)
    ensures forall k :: 0 <= k < |DetailLines(info)| ==> DetailLines(info)[k] != ""
  {
  }

  /** The detail lines of the first `i` detail fields, one check after the other. */
  function DetailsUpTo(info: Record, i: nat): seq<string>
    requires i <= |DetailOrder|
  {
    if i == 0 then []
    else
      var f := DetailOrder[i - 1];
      DetailsUpTo(info, i - 1) + (if Shown(info, f) then [Caption(f, info[f])] else [])
  }

  /** The checks so far give the lines of the first `i` detail fields. */
  lemma {:induction false} DetailsUpToLines(info: Record, i: nat)
    requires i <= |DetailOrder|
    ensures DetailsUpTo(info, i) == Captions(info, ShownFields(info, DetailOrder[..i]))
  {
    if i > 0 {
      DetailsUpToLines(info, i - 1);
      ShownNext(info, i - 1);
      if Shown(info, DetailOrder[i - 1]) {
        CaptionsSnoc(info, ShownFields(info, DetailOrder[..i - 1]), DetailOrder[i - 1]);
      }
    } else {
      assert DetailOrder[..0] == [];
    }
  }

  /** One check of `rebuild_menu`: the field's caption is appended when the field is shown. */
  method AppendDetail(info: Record, details: seq<string>, f: Field) returns (r: seq<string>)
    ensures Shown(info, f) ==> r == details + [Caption(f, info[f])]
    ensures !Shown(info, f) ==> r == details
  {
    r := details;
    if Shown(info, f) {
      r := r + [Caption(f, info[f])];
    }
  }

  /** The six checks of `rebuild_menu`, in order. */
  method BuildDetails(info: Record) returns (details: seq<string>)
    ensures details == DetailLines(info)
  {
    details := [];
    details := AppendDetail(info, details, Manufacturer);
    assert details == DetailsUpTo(info, 1);
    details := AppendDetail(info, details, VidPid);
    assert details == DetailsUpTo(info, 2);
    details := AppendDetail(info, details, Serial);
    assert details == DetailsUpTo(info, 3);
    details := AppendDetail(info, details, Version);
    assert details == DetailsUpTo(info, 4);
    details := AppendDetail(info, details, Speed);
    assert details == DetailsUpTo(info, 5);
    details := AppendDetail(info, details, MaxPower);
    assert details == DetailsUpTo(info, 6);
    DetailsUpToLines(info, 6);
    assert DetailOrder[..6] == DetailOrder;
  }

  /** A menu entry. */
  datatype MenuItem =
    | Device(title: string, details: seq<string>)  // a device item and its submenu
    | Notice(text: string)                          // an insensitive item
    | Separator
    | Quit

  /** The item of one device. */
  function DeviceItem(info: Record): MenuItem {
    Device(MainLabel(info), DetailLines(info))
  }

  /** The items of the devices, in order. */
  function DeviceItems(devices: seq<Record>): (r: seq<MenuItem>)
    ensures |r| == |devices|
    ensures forall k :: 0 <= k < |devices| ==> r[k] == DeviceItem(devices[k])
  {
    seq(|devices|, k requires 0 <= k < |devices| => DeviceItem(devices[k]))
  }

  lemma DeviceItemsSnoc(devices: seq<Record>, i: nat)
    requires i < |devices|
    ensures DeviceItems(devices[..i + 1]) == DeviceItems(devices[..i]) + [DeviceItem(devices[i])]
  {
    var a := DeviceItems(devices[..i + 1]);
    var b := DeviceItems(devices[..i]) + [DeviceItem(devices[i])];
    assert |a| == |b|;
    forall k | 0 <= k < |a| ensures a[k] == b[k] {
      assert devices[..i + 1][k] == devices[k];
    }
  }

  /** The whole menu for the given devices. */
  function MenuItems(devices: seq<Record>): seq<MenuItem> {
    (if devices == [] then [Notice("No USB devices found")] else DeviceItems(devices)) + [Separator, Quit]
  }

  /**
   * The menu holds one item per device in order (or the notice when there is
   * none), each with its detail lines, and ends with the separator and `Quit`.
   */
  lemma MenuShape(devices: seq<Record>)
    ensures var m := MenuItems(devices);
      |m| == (if devices == [] then 1 else |devices|) + 2 &&
      m[|m| - 2] == Separator && m[|m| - 1] == Quit
    ensures devices == [] ==> MenuItems(devices)[0] == Notice("No USB devices found")
    ensures forall k :: 0 <= k < |devices| ==>
      MenuItems(devices)[k].Device? &&
      MenuItems(devices)[k].title == MainLabel(devices[k]) &&
      MenuItems(devices)[k].details == DetailLines(devices[k])
  {
  }

  /** When `usb-devices` cannot be run, or prints nothing, the menu is the notice, the separator and `Quit`. */
  lemma NoDeviceMenu(out: CommandOutput)
    requires out.Failed? || Strip(out.text) == ""
    ensures MenuItems(UsbDevices(out)) == [Notice("No USB devices found"), Separator, Quit]
  {
    if out.Output? {
      BlankOutput(out.text);
    }
  }

  /** `UsbMenuApp`: the indicator's menu. */
  class MenuApp {
    var menu: seq<MenuItem>

    /** The application builds its menu once at start. */
    constructor (out: CommandOutput)
      ensures menu == MenuItems(UsbDevices(out))
    {
      menu := [];
      new;
      RebuildMenu(out);
    }

    /** `rebuild_menu`: clear the menu, then append the items for the devices `usb-devices` reports. */
    method RebuildMenu(out: CommandOutput)
      modifies this
      ensures menu == MenuItems(UsbDevices(out))
    {
      var devices := ParseUsbDevicesFallback(out);
      Populate(devices);
    }

    /** The body of `rebuild_menu` once the devices are known. */
    method Populate(devices: seq<Record>)
      modifies this
      ensures menu == MenuItems(devices)
    {
      menu := [];
      if devices == [] {
        menu := menu + [Notice("No USB devices found")];
      } else {
        for i := 0 to |devices|
          invariant menu == DeviceItems(devices[..i])
        {
          var details := BuildDetails(devices[i]);
          DetailLinesNonEmpty(devices[i]);
          NonEmptyLinesKeep(details);
          DeviceItemsSnoc(devices, i);
          menu := menu + [Device(MainLabel(devices[i]), NonEmptyLines(details))];
        }
        assert devices[..|devices|] == devices;
      }
      menu := menu + [Separator, Quit];
    }
  }
}
