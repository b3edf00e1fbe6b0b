/**
 * `UsbMonitor`: a background loop that lists `/sys/bus/usb/devices/`, keeps
 * the device entries (interface entries carry a `:` in their name) and asks
 * for the menu to be rebuilt whenever the set of entries changes.
 *
 * The directory listing is passed in as a `Listing`; the two-second sleep,
 * the thread and the scheduling on the GTK main loop are not modelled.
 */
module Monitor {

  /** What listing the sysfs directory gives: no such path, an exception, or its entry names. */
  datatype Listing = PathMissing | ListingFailed | Entries(names: seq<string>)

  /** `get_current_devices`: the entry names without a `:`, or the empty set when the listing fails. */
  function CurrentDevices(listing: Listing): set<string> {
    match listing
    case PathMissing => {}
    case ListingFailed => {}
    case Entries(names) => set n | n in names && ':' !in n
  }

  /** Only the set of names matters, not their order or repetition. */
  lemma CurrentDevicesOrderFree(names1: seq<string>, names2: seq<string>)
    requires forall n :: n in names1 <==> n in names2
    ensures CurrentDevices(Entries(names1)) == CurrentDevices(Entries(names2))
  {
  }

  /** Listing one more interface entry changes nothing. */
  lemma InterfaceEntryIgnored(names: seq<string>, n: string)
    requires ':' in n
    ensures CurrentDevices(Entries(names + [n])) == CurrentDevices(Entries(names))
  {
    assert forall m :: m in names + [n] <==> m in names || m == n;
  }

  /** Root hubs such as `usb1` have no `:` and are kept. */
  lemma RootHubsKept()
    ensures CurrentDevices(Entries(["1-1", "1-2", "2-1", "usb1", "usb2"])) == {"1-1", "1-2", "2-1", "usb1", "usb2"}
  {
    var names := ["1-1", "1-2", "2-1", "usb1", "usb2"];
    assert forall n :: n in names ==> ':' !in n;
  }

  /** The interface entries of a listing are left out. */
  lemma InterfacesDropped()
    ensures CurrentDevices(Entries(["1-0:1.0", "1-1", "1-1:1.0", "usb1"])) == {"1-1", "usb1"}
  {
    var names := ["1-0:1.0", "1-1", "1-1:1.0", "usb1"];
    assert names[0][3] == ':' && names[2][3] == ':';
    assert "1-1" == names[1] && "usb1" == names[3];
  }

  /** How many of the successive listings ask for a menu rebuild, starting from the set `last`. */
  function Notifications(last: set<string>, listings: seq<Listing>): nat
    decreases |listings|
  {
    if listings == [] then 0
    else
      var current := CurrentDevices(listings[0]);
      (if current != last then 1 else 0) + Notifications(current, listings[1..])
  }

  /** The set the monitor remembers after the successive listings. */
  function LastSeen(last: set<string>, listings: seq<Listing>): set<string> {
    if listings == [] then last else CurrentDevices(listings[|listings| - 1])
  }

  /** At most one rebuild per poll. */
  lemma {:induction false} NotificationsBound(last: set<string>, listings: seq<Listing>)
    ensures Notifications(last, listings) <= |listings|
    decreases |listings|
  {
    if listings != [] {
      NotificationsBound(CurrentDevices(listings[0]), listings[1..]);
    }
  }

  /** No rebuild is asked for exactly when every listing shows the set already known. */
  lemma {:induction false} NotificationsQuiet(last: set<string>, listings: seq<Listing>)
    ensures Notifications(last, listings) == 0 <==> forall k :: 0 <= k < |listings| ==> CurrentDevices(listings[k]) == last
    decreases |listings|
  {
    if listings != [] {
      var current := CurrentDevices(listings[0]);
      NotificationsQuiet(current, listings[1..]);
      if current == last {
        assert forall k :: 1 <= k < |listings| ==> listings[k] == listings[1..][k - 1];
      }
    }
  }

  /** Polls that follow one another: the count splits at any point. */
  lemma {:induction false} NotificationsAppend(last: set<string>, a: seq<Listing>, b: seq<Listing>)
    ensures Notifications(last, a + b) == Notifications(last, a) + Notifications(LastSeen(last, a), b)
    decreases |a|
  {
    if a != [] {
      var current := CurrentDevices(a[0]);
      assert (a + b)[0] == a[0] && (a + b)[1..] == a[1..] + b;
      NotificationsAppend(current, a[1..], b);
      if |a| > 1 {
        assert a[1..][|a[1..]| - 1] == a[|a| - 1];
      }
      assert LastSeen(current, a[1..]) == LastSeen(last, a);
    } else {
      assert a + b == b;
    }
  }

  /** `UsbMonitor`: the polling thread's state. */
  class UsbMonitor {
    /** Cleared by `stop`; the loop runs while it is set. */
    var running: bool
    /** The device set seen at the last poll that found a change. */
    var lastDeviceList: set<string>

    /** A new monitor is running and has seen no device yet. */
    constructor ()
      ensures running && lastDeviceList == {}
    {
      running := true;
      lastDeviceList := {};
    }

    /** `stop`: the loop ends at its next test. */
    method Stop()
      modifies this
      ensures !running && lastDeviceList == old(lastDeviceList)
    {
      running := false;
    }

    /**
     * One turn of `run`: list the devices and, when the set differs from the
     * one remembered, remember it and schedule the callback.
     */
    method Poll(listing: Listing) returns (scheduled: bool)
      modifies this
      ensures scheduled <==> CurrentDevices(listing) != old(lastDeviceList)
      ensures lastDeviceList == CurrentDevices(listing)
      ensures running == old(running)
    {
      var current := CurrentDevices(listing);
      scheduled := false;
      if current != lastDeviceList {
        lastDeviceList := current;
        scheduled := true;
      }
    }

    /**
     * `run`, over the listings its successive turns see: the number of
     * callbacks scheduled and the set remembered at the end. A stopped
     * monitor does not poll at all.
     */
    method Run(listings: seq<Listing>) returns (calls: nat)
      modifies this
      ensures running == old(running)
      ensures old(running) ==> calls == Notifications(old(lastDeviceList), listings)
      ensures old(running) ==> lastDeviceList == LastSeen(old(lastDeviceList), listings)
      ensures !old(running) ==> calls == 0 && lastDeviceList == old(lastDeviceList)
    {
      calls := 0;
      var i := 0;
      while running && i < |listings|
        invariant 0 <= i <= |listings|
        invariant running == old(running)
        invariant !running ==> i == 0 && lastDeviceList == old(lastDeviceList)
        invariant calls + Notifications(lastDeviceList, listings[i..]) == Notifications(old(lastDeviceList), listings)
        invariant lastDeviceList == LastSeen(old(lastDeviceList), listings[..i])
        decreases |listings| - i
      {
        var scheduled := Poll(listings[i]);
        if scheduled {
          calls := calls + 1;
        }
        assert listings[i..][1..] == listings[i + 1..];
        assert listings[..i + 1][i] == listings[i];
        i := i + 1;
      }
      assert running ==> listings[..i] == listings;
    }
  }
}
