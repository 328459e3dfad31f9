/**
 * The libusb calls the library makes, as an abstract state: a reference count per
 * device, the set of open handles and whether the context exists. Each native call
 * appends itself to a log; what the device or the driver answers (status codes,
 * bytes) is passed in as a parameter.
 */
module Native {
  import opened Status
  import opened UsbTypes

  /** An opaque libusb_device; `NativeDevice?` is the nullable `libusb_device*`. */
  class NativeDevice { }

  /** An opaque libusb_device_handle; `NativeHandle?` is the nullable pointer. */
  class NativeHandle { }

  /**
   * What libusb keeps: whether the context is initialised, the reference count of each
   * device (its multiplicity in `counts`; a device with no reference is freed) and the
   * handles that are open.
   */
  datatype Ledger = Ledger(live: bool, counts: multiset<NativeDevice?>, open: set<NativeHandle?>)
  {
    /** A device libusb_ref_device and libusb_unref_device may be given: non-null and not freed. */
    predicate Alive(d: NativeDevice?)
    {
      live && d != null && d in counts
    }

    function Ref(d: NativeDevice?): Ledger
      requires Alive(d)
    {
      this.(counts := counts + multiset{d})
    }

    function Unref(d: NativeDevice?): Ledger
      requires Alive(d)
    {
      this.(counts := counts - multiset{d})
    }

    /** `if (d) libusb_unref_device (d);` is defined. */
    predicate CanRelease(d: NativeDevice?)
    {
      d != null ==> Alive(d)
    }

    function Release(d: NativeDevice?): Ledger
      requires CanRelease(d)
    {
      if d == null then this else Unref(d)
    }

    predicate IsOpen(h: NativeHandle?)
    {
      live && h != null && h in open
    }

    /** `if (h) libusb_close (h);` is defined. */
    predicate CanShut(h: NativeHandle?)
    {
      h != null ==> IsOpen(h)
    }

    function Shut(h: NativeHandle?): Ledger
      requires CanShut(h)
    {
      if h == null then this else this.(open := open - {h})
    }
  }

  /** The reference one pointer stands for: none when it is null. */
  function Owned(p: NativeDevice?): multiset<NativeDevice?>
  {
    if p == null then multiset{} else multiset{p}
  }

  /** The references a sequence of pointers stands for: one per non-null pointer. */
  function Held(ps: seq<NativeDevice?>): (m: multiset<NativeDevice?>)
    ensures null !in m
  {
    if ps == [] then multiset{} else Held(ps[..|ps| - 1]) + Owned(ps[|ps| - 1])
  }

  /** Extending a prefix by one pointer adds that pointer's reference. */
  lemma HeldStep(ps: seq<NativeDevice?>, i: nat)
    requires i < |ps|
    ensures Held(ps[..i + 1]) == Held(ps[..i]) + Owned(ps[i])
  {
    var prefix := ps[..i + 1];
    assert prefix[..|prefix| - 1] == ps[..i] && prefix[|prefix| - 1] == ps[i];
  }

  /** What a prefix holds is part of what the whole sequence holds. */
  lemma {:induction false} HeldPrefix(ps: seq<NativeDevice?>, j: nat)
    requires j <= |ps|
    ensures Held(ps[..j]) <= Held(ps)
    decreases |ps|
  {
    if j < |ps| {
      HeldPrefix(ps[..|ps| - 1], j);
      assert ps[..|ps| - 1][..j] == ps[..j];
    } else {
      assert ps[..j] == ps;
    }
  }

  /** Pointers that are all non-null hold one reference each. */
  lemma {:induction false} HeldOfDevices(ps: seq<NativeDevice>)
    ensures Held(ps) == multiset(ps)
  {
    if ps != [] {
      var n := |ps| - 1;
      HeldOfDevices(ps[..n]);
      assert ps == ps[..n] + [ps[n]];
    }
  }

  /** Adding the same multiset to two sides can be undone. */
  lemma Cancel<T>(a: multiset<T>, b: multiset<T>, m: multiset<T>)
    requires a + m == b + m
    ensures a == b
  {
    forall e ensures a[e] == b[e] {
      assert (a + m)[e] == (b + m)[e];
    }
  }

  /** Taking one x out of counts, when x is among the references still owed to total. */
  lemma TakeOne<T>(counts: multiset<T>, total: multiset<T>, owed: multiset<T>, x: T)
    requires counts + owed == total
    requires owed + multiset{x} <= total
    ensures x in counts
    ensures counts - multiset{x} + (owed + multiset{x}) == total
  {
    assert total[x] == counts[x] + owed[x];
    assert (owed + multiset{x})[x] == owed[x] + 1;
  }

  /** One call into libusb, as the log records it. */
  datatype Call =
    | Init
    | Exit
    | GetDeviceList
    | FreeDeviceList(devices: seq<NativeDevice>, unrefDevices: bool)
    | RefDevice(device: NativeDevice?)
    | UnrefDevice(device: NativeDevice?)
    | Open(device: NativeDevice?)
    | Close(handle: NativeHandle?)
    | GetDeviceDescriptor(device: NativeDevice?)
    | ControlTransfer(handle: NativeHandle?, requestType: u8, transfer: UsbTypes.ControlTransfer, data: seq<u8>, length: u16, timeoutMs: int)
    | GetStringDescriptorAscii(handle: NativeHandle?, index: u8, capacity: int)

  /** The libusb library, with the preconditions its documentation and implementation impose. */
  class Libusb {
    ghost var ledger: Ledger
    ghost var log: seq<Call>

    constructor ()
      ensures ledger == Ledger(false, multiset{}, {}) && log == []
    {
      ledger := Ledger(false, multiset{}, {});
      log := [];
    }

    /** libusb_init: the context exists afterwards unless an error is reported. */
    method LibusbInit(status: int) returns (err: int)
      requires !ledger.live
      modifies this
      ensures err == status
      ensures ledger == old(ledger).(live := !IsError(status))
      ensures log == old(log) + [Call.Init]
    {
      ledger := ledger.(live := !IsError(status));
      log := log + [Call.Init];
      err := status;
    }

    /** libusb_exit. */
    method LibusbExit()
      requires ledger.live
      modifies this
      ensures ledger == old(ledger).(live := false)
      ensures log == old(log) + [Call.Exit]
    {
      ledger := ledger.(live := false);
      log := log + [Call.Exit];
    }

    /**
     * libusb_get_device_list: on success it returns the number of devices and takes one
     * reference on each device of the list; on failure a libusb_error.
     */
    method GetDeviceList(count: int, list: seq<NativeDevice>) returns (n: int)
      requires ledger.live
      requires count >= 0 ==> |list| == count
      modifies this
      ensures n == count
      ensures ledger == if count >= 0 then old(ledger).(counts := old(ledger).counts + multiset(list)) else old(ledger)
      ensures log == old(log) + [Call.GetDeviceList]
    {
      if count >= 0 {
        ledger := ledger.(counts := ledger.counts + multiset(list));
      }
      log := log + [Call.GetDeviceList];
      n := count;
    }

    /** libusb_free_device_list: with its flag set, drops the list's reference on each device. */
    method FreeDeviceList(list: seq<NativeDevice>, unrefDevices: bool)
      requires ledger.live
      requires unrefDevices ==> multiset(list) <= ledger.counts
      modifies this
      ensures ledger == if unrefDevices then old(ledger).(counts := old(ledger).counts - multiset(list)) else old(ledger)
      ensures log == old(log) + [Call.FreeDeviceList(list, unrefDevices)]
    {
      if unrefDevices {
        ledger := ledger.(counts := ledger.counts - multiset(list));
      }
      log := log + [Call.FreeDeviceList(list, unrefDevices)];
    }

    method LibusbRefDevice(d: NativeDevice?)
      requires ledger.Alive(d)
      modifies this
      ensures ledger == old(ledger).Ref(d)
      ensures log == old(log) + [Call.RefDevice(d)]
    {
      ledger := ledger.Ref(d);
      log := log + [Call.RefDevice(d)];
    }

    method LibusbUnrefDevice(d: NativeDevice?)
      requires ledger.Alive(d)
      modifies this
      ensures ledger == old(ledger).Unref(d)
      ensures log == old(log) + [Call.UnrefDevice(d)]
    {
      ledger := ledger.Unref(d);
      log := log + [Call.UnrefDevice(d)];
    }

    /** libusb_open: a new handle unless an error is reported. */
    method LibusbOpen(d: NativeDevice?, status: int) returns (err: int, h: NativeHandle?)
      requires ledger.Alive(d)
      modifies this
      ensures err == status
      ensures IsError(status) ==> h == null && ledger == old(ledger)
      ensures !IsError(status) ==> h != null && fresh(h) && ledger == old(ledger).(open := old(ledger).open + {h})
      ensures log == old(log) + [Call.Open(d)]
    {
      err := status;
      if IsError(status) {
        h := null;
      } else {
        h := new NativeHandle;
        ledger := ledger.(open := ledger.open + {h});
      }
      log := log + [Call.Open(d)];
    }

    method LibusbClose(h: NativeHandle?)
      requires ledger.IsOpen(h)
      modifies this
      ensures ledger == old(ledger).Shut(h)
      ensures log == old(log) + [Call.Close(h)]
    {
      ledger := ledger.Shut(h);
      log := log + [Call.Close(h)];
    }

    /** libusb_get_device_descriptor: reads the device; the record it yields is passed in by the caller. */
    method GetDeviceDescriptorOf(d: NativeDevice?, status: int) returns (err: int)
      requires ledger.Alive(d)
      modifies this
      ensures err == status
      ensures ledger == old(ledger)
      ensures log == old(log) + [Call.GetDeviceDescriptor(d)]
    {
      log := log + [Call.GetDeviceDescriptor(d)];
      err := status;
    }

    /**
     * libusb_control_transfer on an open handle, handed the buffer `data` and the length
     * `length`; returns a byte count or a status.
     */
    method LibusbControlTransfer(h: NativeHandle?, requestType: u8, ct: UsbTypes.ControlTransfer,
                                 data: seq<u8>, length: u16, timeoutMs: int, status: int) returns (n: int)
      requires ledger.IsOpen(h)
      modifies this
      ensures n == status
      ensures ledger == old(ledger)
      ensures log == old(log) + [Call.ControlTransfer(h, requestType, ct, data, length, timeoutMs)]
    {
      log := log + [Call.ControlTransfer(h, requestType, ct, data, length, timeoutMs)];
      n := status;
    }

    /**
     * libusb_get_string_descriptor_ascii into `buffer`: on success it writes `text`,
     * at most length - 1 bytes, then a NUL, and returns the length of `text`; on failure
     * it writes nothing and returns a negative code.
     */
    method GetStringDescriptorAsciiInto(h: NativeHandle?, index: u8, buffer: array<u8>, status: int, text: seq<u8>)
      returns (n: int)
      requires ledger.IsOpen(h)
      requires status >= 0 ==> status == |text| < buffer.Length
      requires status < 0 ==> text == []
      modifies this, buffer
      ensures n == status
      ensures status >= 0 ==> buffer[..] == text + [0] + old(buffer[..])[|text| + 1..]
      ensures status < 0 ==> buffer[..] == old(buffer[..])
      ensures ledger == old(ledger)
      ensures log == old(log) + [Call.GetStringDescriptorAscii(h, index, buffer.Length)]
    {
      var i := 0;
      while i < |text|
        invariant 0 <= i <= |text|
        invariant forall k :: 0 <= k < i ==> buffer[k] == text[k]
        invariant forall k :: i <= k < buffer.Length ==> buffer[k] == old(buffer[k])
        invariant ledger == old(ledger) && log == old(log)
      {
        buffer[i] := text[i];
        i := i + 1;
      }
      if status >= 0 {
        buffer[|text|] := 0;
        assert buffer[..] == text + [0] + old(buffer[..])[|text| + 1..];
      } else {
        assert buffer[..] == old(buffer[..]);
      }
      log := log + [Call.GetStringDescriptorAscii(h, index, buffer.Length)];
      n := status;
    }
  }
}
