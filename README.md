# USB device monitor — a Dafny model

This project models the core of the USB device monitor, a tray application
for Linux that lists the USB devices attached to the machine. It covers the
following parts:

- **Parsing one `usb-devices` block** (`UsbFallbackParser.parse_usb_block`).
  Each line is dispatched on its two-letter tag: `T:`, `D:`, `P:`, `S:` or `C:`.
  - Five regular expressions pick out the speed, the bus, the USB version,
    the vendor/product ids and the maximum current.
  - `S:` lines give the manufacturer, the product name or the serial number,
    in that order of priority.
  - The current in milliamps becomes the power at 5 V, in watts with two
    decimals.
  - A block is a device only when it names a vendor/product pair, a product
    or a manufacturer.
- **Cutting the output into blocks** (`parse_usb_devices_fallback`). The
  whole output of `usb-devices` is stripped and split at blank lines. When
  that gives a single piece, the lines are grouped instead: each `T:` line
  opens a new group. The blocks that parse become the result, in order. A
  command that fails or is not found gives no device.
- **The polling monitor** (`UsbMonitor`):
  - `get_current_devices` keeps the sysfs entries whose names hold no `:`.
  - `run` asks for a menu rebuild each time that set changes.
  - `stop` ends the loop.
- **The menu** (`UsbMenuApp.rebuild_menu`):
  - There is one item per device. Its label is the product name, followed by
    the vendor/product ids in parentheses when they are known.
  - Each device item has a submenu of detail lines in a fixed order. A line
    is left out when its value is missing or is a placeholder.
  - A notice replaces the device items when there is none.
  - A separator and `Quit` close the menu.

Modules:

- `Text`: the string operations the code relies on.
  - `str.split` and `str.join`.
  - `str.strip`, with Python's whitespace set.
  - `str.upper`.
  - Decimal digits.
- `Patterns`: the five regular expressions. Each is a matcher at one position, and a leftmost search over positions gives `re.search`.
- `Power`: the conversion of milliamps to watts and its two-decimal text.
- `BlockParser`: `parse_usb_block`.
  - The pure record function `BlockRecord`.
  - The loop `ParseUsbBlock`, proved equal to it.
- `Segmenter`: `parse_usb_devices_fallback`.
  - The grouping loop `SegmentByHeader`.
  - The aggregation loop `CollectDevices`.
- `Monitor`: `get_current_devices` and the `UsbMonitor` class.
  - The directory listing is a parameter.
- `Menu`: `rebuild_menu`.
  - The GTK menu is a sequence of `MenuItem` values held by the `MenuApp` class.
- `BlockExamples`, `MenuExamples` and `OutputExamples`: the Kingston drive of the repository's tests, taken through every stage.

The output of `usb-devices` and the sysfs directory listing are parameters
(`CommandOutput` and `Listing`). The dictionary that `parse_usb_devices_fallback`
returns is keyed by random UUIDs. Only its values in insertion order are
observable, so the model returns a sequence of records.

Where the tests and the code disagree, the model follows the code.
tests/test_usb_monitor.py:96-106 expects the root hubs `usb1` and `usb2`
to be filtered out of `get_current_devices`. The code at
usb_device_monitor/main.py:108 drops only names that contain `:`, so it
keeps them. `Monitor.RootHubsKept` states what the code does.

## Model

| member | source | states |
|---|---|---|
| Text.SplitJoin | usb_device_monitor/main.py:50 | joining the pieces of `s.split(sep)` with `sep` gives `s` back |
| Text.SplitPiecesFree | usb_device_monitor/main.py:50 | no piece of `s.split(sep)` contains `sep` |
| Text.JoinSplit | usb_device_monitor/main.py:58-66 | splitting `sep.join(xs)` at `sep` gives `xs` back when no piece holds a separator that could start inside it |
| Text.JoinNoDoubled | usb_device_monitor/main.py:58 | lines that are non-empty and free of line breaks, joined by line breaks, contain no blank line |
| Text.StripShape | usb_device_monitor/main.py:50 | `strip()` returns a slice of its input, and only whitespace lies on either side of it |
| Text.StripEnds | usb_device_monitor/main.py:50 | the result of `strip()` neither starts nor ends with whitespace |
| Text.StripUnchanged | usb_device_monitor/main.py:50 | `strip()` leaves a string that starts and ends with non-whitespace unchanged |
| Text.StripIdempotent | usb_device_monitor/main.py:66 | stripping twice is stripping once (blocks are stripped again at line 66) |
| Text.DecimalRoundTrip | usb_device_monitor/main.py:91-92 | reading back the decimal digits of `n` gives `n` |
| Patterns.SearchIsLeftmost | usb_device_monitor/main.py:77-89 | `re.search` returns the match at the leftmost position where the pattern matches |
| Patterns.SearchSome | usb_device_monitor/main.py:77-89 | a search that succeeds found a match at some position, and no position before it matches |
| Patterns.SpdAtSound | usb_device_monitor/main.py:77 | a `Spd=\s*(\S+)` match is `Spd=`, whitespace, a non-empty run of non-whitespace, then the end or whitespace |
| Patterns.SpdAtComplete | usb_device_monitor/main.py:77 | text of that shape matches, capturing the whole run |
| Patterns.BusAtSound | usb_device_monitor/main.py:78 | a `Bus=(\d+)` match is `Bus=` followed by a maximal run of digits |
| Patterns.BusAtComplete | usb_device_monitor/main.py:78 | text of that shape matches, capturing the digits |
| Patterns.VerAtSound | usb_device_monitor/main.py:80 | a `Ver=\s*(\d+\.\d+)` match is `Ver=`, whitespace, digits, a point and a maximal run of digits |
| Patterns.VerAtComplete | usb_device_monitor/main.py:80 | text of that shape matches, capturing `major.minor` |
| Patterns.VendorProdAtSound | usb_device_monitor/main.py:82 | a `Vendor=(\S+)\s+ProdID=(\S+)` match is the vendor token, whitespace, `ProdID=` and the product token |
| Patterns.VendorProdAtComplete | usb_device_monitor/main.py:82 | text of that shape matches, capturing both tokens |
| Patterns.MxPwrAtSound | usb_device_monitor/main.py:89 | a `MxPwr=\s*(\d+)mA` match is `MxPwr=`, whitespace, digits and `mA` |
| Patterns.MxPwrAtComplete | usb_device_monitor/main.py:89 | text of that shape matches, capturing the digits |
| Patterns.SpdFound | usb_device_monitor/main.py:77 | a found speed has the match's shape at the first position where the pattern matches |
| Patterns.BusFound | usb_device_monitor/main.py:78 | the same for the bus number |
| Patterns.VerFound | usb_device_monitor/main.py:80 | the same for the version |
| Patterns.VendorProdFound | usb_device_monitor/main.py:82 | the same for the vendor and product ids |
| Patterns.MxPwrFound | usb_device_monitor/main.py:89 | the same for the current |
| Patterns.SpdSearch | usb_device_monitor/main.py:77 | the first text of the speed shape is what the search finds |
| Patterns.BusSearch | usb_device_monitor/main.py:78 | the first text of the bus shape is what the search finds |
| Patterns.VerSearch | usb_device_monitor/main.py:80 | the first text of the version shape is what the search finds |
| Patterns.VendorProdSearch | usb_device_monitor/main.py:82 | the first text of the ids shape is what the search finds |
| Patterns.MxPwrSearch | usb_device_monitor/main.py:89 | the first text of the current shape is what the search finds |
| Power.Hundredths | usb_device_monitor/main.py:91 | `mA / 1000 * 5` W is `mA / 2` hundredths of a watt, exact for an even current |
| Power.ParseFormatFixed2 | usb_device_monitor/main.py:92 | the `.2f` text of a number of hundredths reads back as that number |
| Power.FormatFixed2Injective | usb_device_monitor/main.py:92 | two amounts have the same `.2f` text exactly when they are equal |
| Power.MaxPowerTextValue | usb_device_monitor/main.py:89-92 | the power text for a current of `d` mA is a two-decimal number worth `d / 2` hundredths |
| Power.MaxPowerTextZero | usb_device_monitor/main.py:89-92 | the power text is `0.00` exactly when the current is zero |
| Power.MaxPowerText224 | tests/test_usb_monitor.py:61-73 | 224 mA is shown as `1.12` |
| BlockParser.FillSnoc | usb_device_monitor/main.py:75-93 | one more line overwrites the record with the fields that line sets |
| BlockParser.ApplyTopology | usb_device_monitor/main.py:76-78 | a `T:` line sets the speed and `Bus <n>` when their patterns match, and changes nothing else |
| BlockParser.ApplyDescriptor | usb_device_monitor/main.py:79-80 | a `D:` line sets the version when its pattern matches |
| BlockParser.ApplyProduct | usb_device_monitor/main.py:81-83 | a `P:` line sets `VENDOR:PRODID`, upper-cased, when its pattern matches |
| BlockParser.ApplyString | usb_device_monitor/main.py:84-87 | an `S:` line sets the manufacturer, else the product, else the serial, from the text after the marker |
| BlockParser.ApplyConfig | usb_device_monitor/main.py:88-93 | a `C:` line sets the power text when the current pattern matches |
| BlockParser.ApplyLine | usb_device_monitor/main.py:76-93 | one loop turn adds the fields that the line's tag allows |
| BlockParser.ParseUsbBlock | usb_device_monitor/main.py:73-94 | the loop computes `BlockRecord`; a record it returns is a device |
| BlockParser.UpdateTwice | usb_device_monitor/main.py:77-78 | two updates of distinct keys in turn are the union of both |
| BlockParser.OverwriteKeeps | usb_device_monitor/main.py:74-93 | a key that some update sets ends up in the dictionary |
| BlockParser.OverwriteOnly | usb_device_monitor/main.py:74-93 | a key that no update sets stays out of the dictionary |
| BlockParser.OverwriteLast | usb_device_monitor/main.py:74-93 | a key ends up with the value of the last update that set it |
| BlockParser.FillKeeps | usb_device_monitor/main.py:75-93 | a field that some line sets is in the record |
| BlockParser.FillOnlyFromLines | usb_device_monitor/main.py:75-93 | a field that no line sets is not in the record |
| BlockParser.FillLastWrite | usb_device_monitor/main.py:75-93 | a field holds the value from the last line that set it |
| BlockParser.LineFieldsByTag | usb_device_monitor/main.py:76-88 | each tag selects its own branch of the dispatch |
| BlockParser.TagsExclusive | usb_device_monitor/main.py:76-88 | a line starts with at most one of the five tags |
| BlockParser.TopologyLine | usb_device_monitor/main.py:76 | a `T:` line is handled by the topology branch |
| BlockParser.DescriptorLine | usb_device_monitor/main.py:79 | a `D:` line is handled by the descriptor branch |
| BlockParser.ProductLine | usb_device_monitor/main.py:81 | a `P:` line is handled by the product branch |
| BlockParser.StringLine | usb_device_monitor/main.py:84 | an `S:` line is handled by the string branch |
| BlockParser.ConfigLine | usb_device_monitor/main.py:88 | a `C:` line is handled by the configuration branch |
| BlockParser.UntaggedLine | usb_device_monitor/main.py:76-93 | a line with none of the five tags sets nothing |
| BlockParser.TopologyTag | usb_device_monitor/main.py:76-78 | a `T:` line sets only the speed and the bus |
| BlockParser.DescriptorTag | usb_device_monitor/main.py:79-80 | a `D:` line sets only the version |
| BlockParser.ProductTag | usb_device_monitor/main.py:81-83 | a `P:` line sets only the ids |
| BlockParser.StringTag | usb_device_monitor/main.py:84-87 | an `S:` line sets only the manufacturer, the product or the serial |
| BlockParser.ConfigTag | usb_device_monitor/main.py:88-93 | a `C:` line sets only the power |
| BlockParser.FieldFromTag | usb_device_monitor/main.py:76-93 | a line that sets a field carries that field's tag |
| BlockParser.NoIdentityLine | usb_device_monitor/main.py:81-87 | only `P:` and `S:` lines set the ids, the product or the manufacturer |
| BlockParser.StringLinePriority | usb_device_monitor/main.py:84-87 | an `S:` line sets at most one field; each field is set exactly when its marker is present and no earlier marker is |
| BlockParser.MarkerValueShape | usb_device_monitor/main.py:85-87 | the value is the stripped text after the first marker, up to the next marker or the end |
| BlockParser.NoIdentityNoDevice | usb_device_monitor/main.py:94 | a block without `P:` and `S:` lines is not a device |
| BlockParser.TopologyValues | usb_device_monitor/main.py:76-78 | the speed and bus fields are set exactly when their searches succeed, with the searched values |
| BlockParser.DescriptorValue | usb_device_monitor/main.py:79-80 | the version is set exactly when its search succeeds, with the match |
| BlockParser.ProductValue | usb_device_monitor/main.py:81-83 | the ids are set exactly when their search succeeds, with both captures upper-cased around `:` |
| BlockParser.ConfigValue | usb_device_monitor/main.py:88-93 | the power is set exactly when the current search succeeds, with the power text of the captured digits |
| BlockParser.SpeedValue | usb_device_monitor/main.py:77 | a speed field comes from the first `Spd=` match of a `T:` line |
| BlockParser.SpeedFromText | usb_device_monitor/main.py:77 | the first `Spd=` match of a `T:` line is the speed field |
| BlockParser.BusInfoValue | usb_device_monitor/main.py:78 | a bus field is `Bus ` followed by the digits of the first `Bus=` match |
| BlockParser.BusInfoFromText | usb_device_monitor/main.py:78 | the first `Bus=` match of a `T:` line gives the bus field |
| BlockParser.VersionValue | usb_device_monitor/main.py:80 | a version field comes from the first `Ver=` match of a `D:` line |
| BlockParser.VersionFromText | usb_device_monitor/main.py:80 | the first `Ver=` match of a `D:` line gives the version field |
| BlockParser.VidPidValue | usb_device_monitor/main.py:82-83 | an ids field comes from the first `Vendor=… ProdID=…` match of a `P:` line |
| BlockParser.VidPidFromText | usb_device_monitor/main.py:82-83 | the first such match of a `P:` line gives the ids field |
| BlockParser.MaxPowerValue | usb_device_monitor/main.py:89-92 | a power field comes from the first `MxPwr=…mA` match of a `C:` line |
| BlockParser.MaxPowerFromText | usb_device_monitor/main.py:89-92 | the first such match of a `C:` line gives the power field |
| BlockExamples.TopologyExample | tests/test_usb_monitor.py:55 | the test's `T:` line gives speed `480` and `Bus 01` |
| BlockExamples.DescriptorExample | tests/test_usb_monitor.py:56 | the test's `D:` line gives version `2.00` |
| BlockExamples.ProductExample | tests/test_usb_monitor.py:57 | the test's `P:` line gives `0951:1666` |
| BlockExamples.ManufacturerExample | tests/test_usb_monitor.py:58 | the test's first `S:` line gives manufacturer `Kingston` |
| BlockExamples.ProductNameExample | tests/test_usb_monitor.py:59 | the second gives product `DataTraveler 3.0` |
| BlockExamples.SerialExample | tests/test_usb_monitor.py:60 | the third gives the serial number |
| BlockExamples.ConfigExample | tests/test_usb_monitor.py:61 | the `C:` line gives power `1.12` |
| BlockExamples.KingstonBlock | tests/test_usb_monitor.py:53-73 | the test's block parses to a record with the seven fields the test checks, plus `Bus 01` from the `T:` line |
| BlockExamples.TopologyAndDescriptorOnly | tests/test_usb_monitor.py:75-84 | a block of only a `T:` and a `D:` line is not a device |
| Segmenter.StepKeeps | usb_device_monitor/main.py:57-61 | one grouping step keeps every line, in order, and opens groups only at `T:` lines |
| Segmenter.ScanInvariant | usb_device_monitor/main.py:56-61 | the grouping loop keeps all lines read so far, in order, and keeps the groups well formed |
| Segmenter.HeaderGroupsSound | usb_device_monitor/main.py:52-63 | the groups concatenate to the lines; each is non-empty, and only a group's first line may be a `T:` line, and every group but the first starts with one |
| Segmenter.HeaderGroupsUnique | usb_device_monitor/main.py:52-63 | any well-formed grouping of the lines is the one the loop builds |
| Segmenter.HeaderGroupsOne | usb_device_monitor/main.py:52-63 | a single line is a single group |
| Segmenter.SegmentByHeader | usb_device_monitor/main.py:53-63 | the loop's blocks are its groups joined by line breaks |
| Segmenter.JoinGroups | usb_device_monitor/main.py:58-63 | joining the joined groups by line breaks gives the joined lines |
| Segmenter.BlocksJoin | usb_device_monitor/main.py:50-63 | the blocks, joined by the separator they were cut at, give the stripped output back |
| Segmenter.BlankBlocks | usb_device_monitor/main.py:50-63 | blank output gives a single empty block |
| Segmenter.CollectDevices | usb_device_monitor/main.py:65-70 | the loop keeps the records of the blocks that parse, in block order |
| Segmenter.ParseUsbDevicesFallback | usb_device_monitor/main.py:41-71 | the result is `UsbDevices(out)`; a failed command gives none; every record is a device |
| Segmenter.SomesFrom | usb_device_monitor/main.py:68-70 | no more records than blocks, and each is the parse of some block |
| Segmenter.SomesAt | usb_device_monitor/main.py:65-70 | a present value is kept, right after the values kept from the positions before it |
| Segmenter.SomesCount | usb_device_monitor/main.py:65-70 | exactly one value is kept per position that holds one |
| Segmenter.DevicesComplete | usb_device_monitor/main.py:65-70 | every block that parses puts its record in the result, after the records of the blocks before it |
| Segmenter.DevicesCount | usb_device_monitor/main.py:65-70 | the result holds as many records as there are blocks that parse |
| Segmenter.SomesAppend | usb_device_monitor/main.py:65-70 | the devices of two runs of blocks are the devices of each, in order |
| Segmenter.DevicesAreDevices | usb_device_monitor/main.py:65-70 | at most one record per block, and each one is a device |
| Segmenter.EmptyBlockNone | usb_device_monitor/main.py:66-67 | an empty block parses to nothing |
| Segmenter.EmptyBlockDevices | usb_device_monitor/main.py:65-70 | an empty block yields no device |
| Segmenter.BlankOutput | usb_device_monitor/main.py:50-71 | blank output yields no device |
| Segmenter.ConcatClean | usb_device_monitor/main.py:53-63 | grouping clean lines and laying the groups end to end gives clean lines |
| Segmenter.NoSepSplit | usb_device_monitor/main.py:50 | text without the separator splits into itself alone |
| Segmenter.BlockSepOnlyAfter | usb_device_monitor/main.py:50 | a block that holds no blank line and does not end in a line break is kept whole by the blank-line split |
| Segmenter.GroupBlock | usb_device_monitor/main.py:50-58 | a group of clean lines joined by line breaks is such a block |
| Segmenter.JoinedEnds | usb_device_monitor/main.py:50 | the joined groups start with the first line's first character and end with the last line's last one |
| Segmenter.BlankLineBlocks | usb_device_monitor/main.py:50 | output that separates the device blocks by blank lines is cut into those blocks |
| Segmenter.PackedNoBlank | usb_device_monitor/main.py:50-52 | clean lines joined by line breaks hold no blank line, so the fallback runs |
| Segmenter.PackedLines | usb_device_monitor/main.py:53 | clean lines joined by line breaks split back into themselves |
| Segmenter.HeaderLineBlocks | usb_device_monitor/main.py:52-63 | output that runs the devices' lines together is grouped at the `T:` lines into the same blocks |
| Segmenter.LayoutsAgree | usb_device_monitor/main.py:50-70 | the same device blocks, printed with blank lines between them or run together, are cut into the same blocks and give the same devices |
| OutputExamples.KingstonStrip | tests/test_usb_monitor.py:21-29 | stripping the mock output removes exactly its leading and trailing line breaks |
| OutputExamples.KingstonLines | usb_device_monitor/main.py:53 | splitting the stripped mock output at line breaks gives the seven lines |
| OutputExamples.KingstonNoBlankLine | usb_device_monitor/main.py:50-52 | the mock output holds no blank line, so the grouping fallback runs |
| OutputExamples.KingstonOneGroup | usb_device_monitor/main.py:52-63 | the seven lines form one group |
| OutputExamples.KingstonBlocks | usb_device_monitor/main.py:50-63 | the mock output is one block |
| OutputExamples.KingstonBlockLines | usb_device_monitor/main.py:66 | that block splits back into its seven lines |
| OutputExamples.KingstonDevices | tests/test_usb_monitor.py:19-41 | the mock output yields exactly one device, with the manufacturer, product and speed the test checks |
| Monitor.CurrentDevicesOrderFree | usb_device_monitor/main.py:108 | the device set depends only on which names are listed |
| Monitor.InterfaceEntryIgnored | usb_device_monitor/main.py:108 | an extra entry whose name holds `:` does not change the set |
| Monitor.RootHubsKept | tests/test_usb_monitor.py:98-106 | the test's listing gives all five names, the root hubs included |
| Monitor.InterfacesDropped | usb_device_monitor/main.py:108 | interface entries such as `1-1:1.0` are left out and the rest kept |
| Monitor.NotificationsBound | usb_device_monitor/main.py:113-120 | at most one rebuild per poll |
| Monitor.NotificationsQuiet | usb_device_monitor/main.py:113-120 | no rebuild is asked for exactly when every poll sees the set already known |
| Monitor.NotificationsAppend | usb_device_monitor/main.py:113-120 | the rebuilds of successive runs of polls add up, each run starting from the set the previous one left |
| Monitor.UsbMonitor.constructor | usb_device_monitor/main.py:97-102 | a new monitor is running and knows no device |
| Monitor.UsbMonitor.Stop | usb_device_monitor/main.py:122-123 | `stop` clears the running flag and keeps the known set |
| Monitor.UsbMonitor.Poll | usb_device_monitor/main.py:115-119 | a rebuild is scheduled exactly when the listed set differs from the known one, and the listed set becomes the known one |
| Monitor.UsbMonitor.Run | usb_device_monitor/main.py:113-120 | a running monitor schedules `Notifications` rebuilds and ends knowing the last listing's set; a stopped one does nothing |
| Menu.LabelShape | usb_device_monitor/main.py:163-167 | the label is the product name (`Unknown Device` when the record has none), followed by ` (<ids>)` exactly when the ids are non-empty |
| Menu.ShownFields | usb_device_monitor/main.py:175-187 | every field picked for a detail line is set and not a placeholder |
| Menu.DetailLines | usb_device_monitor/main.py:175-187 | one detail line per shown field |
| Menu.ShownFieldsMembers | usb_device_monitor/main.py:176-187 | a field has a detail line exactly when it is in the list and shown |
| Menu.ShownFieldsAscending | usb_device_monitor/main.py:175-187 | picking shown fields keeps their order |
| Menu.DetailOrderKept | usb_device_monitor/main.py:175-187 | the detail lines follow the fixed order manufacturer, ids, serial, version, speed, power, and hold exactly the shown fields |
| Menu.ShownNext | usb_device_monitor/main.py:176-187 | each `if` of the detail block adds the field's line when it is shown |
| Menu.CaptionsSnoc | usb_device_monitor/main.py:176-187 | appending a field appends its caption |
| Menu.NonEmptyLinesKeep | usb_device_monitor/main.py:189 | `filter(None, …)` keeps a list of non-empty lines unchanged |
| Menu.DetailLinesNonEmpty | usb_device_monitor/main.py:175-189 | no detail line is empty |
| Menu.DetailsUpToLines | usb_device_monitor/main.py:175-187 | after the first `i` tests the list holds the captions of the shown fields among the first `i` |
| Menu.AppendDetail | usb_device_monitor/main.py:176-187 | one test appends the field's caption when the field is shown, and otherwise leaves the list unchanged |
| Menu.BuildDetails | usb_device_monitor/main.py:175-187 | the detail block builds exactly `DetailLines` |
| Menu.DeviceItemsSnoc | usb_device_monitor/main.py:162-194 | one more device appends its item |
| Menu.MenuShape | usb_device_monitor/main.py:157-200 | the notice or one item per device, with its label and details, then the separator and `Quit` |
| Menu.NoDeviceMenu | usb_device_monitor/main.py:155-160 | a failed or blank `usb-devices` gives the notice, the separator and `Quit` |
| Menu.MenuApp.constructor | usb_device_monitor/main.py:141-145 | the application starts with the menu built from the current output |
| Menu.MenuApp.RebuildMenu | usb_device_monitor/main.py:149-200 | the menu is rebuilt from scratch from the devices `usb-devices` reports |
| Menu.MenuApp.Populate | usb_device_monitor/main.py:157-200 | the menu becomes `MenuItems(devices)` |
| MenuExamples.UnnamedLabel | usb_device_monitor/main.py:163-167 | a device with ids and no product name is labelled `Unknown Device (0951:1666)` |
| MenuExamples.KingstonLabel | usb_device_monitor/main.py:163-167 | the Kingston drive is labelled `DataTraveler 3.0 (0951:1666)` |
| MenuExamples.KingstonDetails | usb_device_monitor/main.py:175-187 | the Kingston drive's submenu holds its six detail lines in order |

## Left out

- The GTK and AppIndicator front end is not modelled. That covers the icon and the indicator (main.py:128-142), `show_all`, and the insensitive state of the notice and the detail items. The menu is a value; `RebuildMenu` replaces it whole.
- Menu.MenuApp.constructor: the source's `__init__` goes on to create a `UsbMonitor` with `rebuild_menu` as its callback and start it (main.py:146-147). That wiring is not modelled: nothing ties a rebuild scheduled by `Monitor.UsbMonitor.Poll` or `Run` to `Menu.MenuApp.RebuildMenu`.
- `quit` (main.py:204-206) and `main` (208-217) are not modelled. `quit` only calls `stop` and leaves the GTK loop; `Monitor.UsbMonitor.Stop` models the first part.
- The import-time probing for the indicator library (main.py:16-36) is left out; it only prints and exits.
- Running `usb-devices` is left out: its standard output is the `CommandOutput` parameter. `Failed` stands for exactly the two exceptions caught at main.py:45, `CalledProcessError` and `FileNotFoundError`. Other failures propagate out of `parse_usb_devices_fallback` and `rebuild_menu`, and are not modelled. They include a `PermissionError` when the command is not executable and a `UnicodeDecodeError` when its output cannot be decoded. The error message printed on stderr is left out.
- The sysfs listing is left out: the `Listing` parameter stands for the path being absent, `listdir` raising, or the names it returns. The error message is left out.
- The UUID keys of the result dictionary are not modelled: the result is the sequence of its values in insertion order.
- Monitor.UsbMonitor.Run: the thread, the two-second sleep and `GLib.idle_add` are not modelled. The callback is counted instead of run. A `stop` from another thread while the loop runs is not modelled; the listings seen up to that point are the input of one `Run`.
- Power.Hundredths: for an odd current the exact power ends in half a hundredth. Python's float `.2f` rounds that half either way, depending on the binary value of the float. The model rounds it up; its lemmas claim only that the result is within half a hundredth.
- Text.IsDigit: `\d` and `int()` also accept non-ASCII decimal digits; the model takes ASCII digits only.
- BlockParser.ConfigFields: the current is converted exactly, whatever its size. The source converts it to a float (main.py:91). With more than 4300 digits, `int()` raises the `ValueError` caught at main.py:93, and no power is recorded. Otherwise, a current above about 1.8e308 (the largest double) makes the float conversion raise an `OverflowError` that nothing catches, so `parse_usb_devices_fallback` fails. From about 16 significant digits, the float's `.2f` text can differ from the exact hundredths. None of these paths is modelled; `usb-devices` prints currents of at most a few thousand milliamps.
- Text.Upper: only ASCII letters are upper-cased; Python's `str.upper` also maps other letters.
