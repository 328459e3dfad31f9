/**
 * Session (libusbcc.cc:331-379, libusbcc.h:318-343): the libusb context and the cached
 * list of DeviceDescriptors.
 */
module Sessions {
  import opened Wrappers
  import opened Status
  import opened Native
  import opened Devices

  const CreateContext: string := "failed to create libusb session"
  const ListContext: string := "failed to get device list"

  /** The pointers the descriptors hold, in order. */
  function Pointers(ds: seq<DeviceDescriptor>): (ps: seq<NativeDevice?>)
    reads set d | d in ds
    ensures |ps| == |ds|
    ensures forall i :: 0 <= i < |ds| ==> ps[i] == ds[i].device
  {
    if ds == [] then [] else Pointers(ds[..|ds| - 1]) + [ds[|ds| - 1].device]
  }

  /**
   * Destroying the pointers' owners in order: when the counts plus what the first i
   * still hold give the original counts, the (i+1)-th device is referenced, and
   * dropping it keeps the balance for i + 1.
   */
  lemma NextRelease(counts: multiset<NativeDevice?>, total: multiset<NativeDevice?>, ps: seq<NativeDevice?>, i: nat)
    requires i < |ps|
    requires Held(ps) <= total
    requires counts + Held(ps[..i]) == total
    ensures ps[i] != null ==> ps[i] in counts && counts - multiset{ps[i]} + Held(ps[..i + 1]) == total
    ensures ps[i] == null ==> counts + Held(ps[..i + 1]) == total
  {
    HeldStep(ps, i);
    if ps[i] != null {
      HeldPrefix(ps, i + 1);
      TakeOne(counts, total, Held(ps[..i]), ps[i]);
    }
  }

  /** The log `start` followed by the native calls the destructors of the descriptors make, in order. */
  function Released(start: seq<Call>, ps: seq<NativeDevice?>): seq<Call>
  {
    if ps == [] then start else Released(start, ps[..|ps| - 1]) + ReleaseCalls(ps[|ps| - 1])
  }

  lemma ReleasedStep(start: seq<Call>, ps: seq<NativeDevice?>, i: nat)
    requires i < |ps|
    ensures Released(start, ps[..i + 1]) == Released(start, ps[..i]) + ReleaseCalls(ps[i])
  {
    var prefix := ps[..i + 1];
    assert prefix[..|prefix| - 1] == ps[..i] && prefix[|prefix| - 1] == ps[i];
  }

  /** One libusb_ref_device per device of the list, in order. */
  function RefCalls(list: seq<NativeDevice>): seq<Call>
  {
    seq(|list|, i requires 0 <= i < |list| => Call.RefDevice(list[i]))
  }

  /**
   * The log `start` followed by the native calls of `emplace_back (list[i])` for each i
   * in order, on a vector that already holds descriptors of list[..i]. grows[i] says
   * whether that call reallocates. When it does, the new element is constructed in the
   * new storage first (one ref). Then each old element is copied, because the move
   * constructor is not noexcept and a copy constructor exists (one ref each, in order).
   * Then the old elements are destroyed (one unref each, in order).
   */
  function EmplaceLog(start: seq<Call>, list: seq<NativeDevice>, grows: seq<bool>): seq<Call>
    requires |list| <= |grows|
  {
    if list == [] then start
    else
      var n := |list| - 1;
      var built := EmplaceLog(start, list[..n], grows) + [Call.RefDevice(list[n])];
      if grows[n] then Released(built + RefCalls(list[..n]), list[..n]) else built
  }

  lemma EmplaceLogStep(start: seq<Call>, list: seq<NativeDevice>, grows: seq<bool>, i: nat)
    requires i < |list| <= |grows|
    ensures var built := EmplaceLog(start, list[..i], grows) + [Call.RefDevice(list[i])];
      EmplaceLog(start, list[..i + 1], grows) == if grows[i] then Released(built + RefCalls(list[..i]), list[..i]) else built
  {
    var prefix := list[..i + 1];
    assert prefix[..|prefix| - 1] == list[..i] && prefix[|prefix| - 1] == list[i];
  }

  /** With the capacity reserved beforehand, so that no call reallocates, each device is referenced exactly once, in order. */
  lemma {:induction false} EmplaceWithoutGrowth(start: seq<Call>, list: seq<NativeDevice>, grows: seq<bool>)
    requires |list| <= |grows|
    requires forall i :: 0 <= i < |list| ==> !grows[i]
    ensures EmplaceLog(start, list, grows) == start + RefCalls(list)
  {
    if list != [] {
      var n := |list| - 1;
      EmplaceWithoutGrowth(start, list[..n], grows);
      assert RefCalls(list) == RefCalls(list[..n]) + [Call.RefDevice(list[n])];
    }
  }

  /** Two devices, where the second emplace_back grows the vector: the first device is referenced again by its copy, and the original is then unreferenced. */
  lemma TwoDevicesWithGrowth(d0: NativeDevice, d1: NativeDevice)
    ensures EmplaceLog([], [d0, d1], [false, true])
      == [Call.RefDevice(d0), Call.RefDevice(d1), Call.RefDevice(d0), Call.UnrefDevice(d0)]
  {
    var list, grows := [d0, d1], [false, true];
    assert list[..1] == [d0] && [d0][..0] == [];
    assert EmplaceLog([], [d0][..0], grows) == [];
    var first := EmplaceLog([], [d0], grows);
    assert first == [Call.RefDevice(d0)];
    var built := first + [Call.RefDevice(d1)];
    assert EmplaceLog([], list, grows) == Released(built + RefCalls([d0]), [d0]);
    var copied := built + RefCalls([d0]);
    assert Released(copied, [d0]) == Released(copied, []) + ReleaseCalls(d0);
  }

  /** Destroying owners of non-null pointers is one libusb_unref_device each, in order. */
  lemma {:induction false} ReleasedDevices(ps: seq<NativeDevice>, start: seq<Call>)
    ensures Released(start, ps) == start + seq(|ps|, i requires 0 <= i < |ps| => Call.UnrefDevice(ps[i]))
  {
    if ps != [] {
      var n := |ps| - 1;
      ReleasedDevices(ps[..n], start);
    }
  }

  class Session {
    var deviceDescriptors: seq<DeviceDescriptor>

    constructor Empty()
      ensures deviceDescriptors == []
    {
      deviceDescriptors := [];
    }

    /**
     * Session(): libusb_init; an error is thrown as a StatusException nested in
     * "failed to create libusb session".
     */
    static method Create(lib: Libusb, status: int) returns (r: Result<Session, Error>)
      requires !lib.ledger.live
      modifies lib
      ensures lib.ledger == old(lib.ledger).(live := !IsError(status))
      ensures lib.log == old(lib.log) + [Call.Init]
      ensures IsError(status) ==> r == Err(Nested(CreateContext, StatusError(status)))
      ensures !IsError(status) ==> r.Ok? && fresh(r.value) && r.value.deviceDescriptors == []
    {
      var err := lib.LibusbInit(status);
      if IsError(err) {
        return Err(Nested(CreateContext, StatusError(err)));
      }
      var s := new Session.Empty();
      r := Ok(s);
    }

    /**
     * device_descriptors(): a non-empty cached list is returned with no native call.
     * Otherwise libusb_get_device_list, whose ssize_t result is stored in a size_t and
     * handed to is_error as an int; on an error the count is set to 0 before the
     * StatusException is built from it, so the thrown code is 0. On success one
     * DeviceDescriptor per entry, each keeping one reference, through the copies and
     * destructions of the vector's reallocations (grows, see EmplaceLog); then the list
     * is freed with its unref flag set.
     */
    method DeviceDescriptors(lib: Libusb, count: int, list: seq<NativeDevice>, grows: seq<bool>)
      returns (r: Result<seq<DeviceDescriptor>, Error>)
      requires lib.ledger.live
      requires |grows| == |list|
      requires IsSsize(count)
      requires count >= 0 ==> |list| == count
      requires count < 0 ==> count in ErrorCodes
      modifies this, lib
      ensures old(deviceDescriptors) != [] ==>
        && r == Ok(old(deviceDescriptors)) && deviceDescriptors == old(deviceDescriptors)
        && lib.ledger == old(lib.ledger) && lib.log == old(lib.log)
      ensures old(deviceDescriptors) == [] && IsError(AsInt(AsSize(count))) ==>
        && r == Err(Nested(ListContext, StatusError(0))) && deviceDescriptors == []
        && lib.ledger == (if count >= 0 then old(lib.ledger).(counts := old(lib.ledger).counts + multiset(list)) else old(lib.ledger))
        && lib.log == old(lib.log) + [Call.GetDeviceList]
      ensures old(deviceDescriptors) == [] && !IsError(AsInt(AsSize(count))) ==>
        && r == Ok(deviceDescriptors) && |deviceDescriptors| == |list|
        && (forall i :: 0 <= i < |list| ==> fresh(deviceDescriptors[i]) && deviceDescriptors[i].device == list[i])
        && lib.ledger == old(lib.ledger).(counts := old(lib.ledger).counts + multiset(list))
        && lib.log == EmplaceLog(old(lib.log) + [Call.GetDeviceList], list, grows) + [Call.FreeDeviceList(list, true)]
    {
      if deviceDescriptors != [] {
        return Ok(deviceDescriptors);
      }
      var result := lib.GetDeviceList(count, list);
      var numDevices := AsSize(result);
      if IsError(AsInt(numDevices)) {
        numDevices := 0;
        return Err(Nested(ListContext, StatusError(numDevices)));
      }
      if count < 0 {
        ConversionKeepsCodes(count);
      }
      deviceDescriptors := NewDescriptors(lib, list, grows);
      lib.FreeDeviceList(list, true);
      r := Ok(deviceDescriptors);
    }

    /**
     * ~Session(), in the order the header asks of every user: the cached descriptors are
     * destroyed while the context exists, then libusb_exit. The source's destructor calls
     * libusb_exit first and lets the member destructors run afterwards.
     */
    method Destroy(lib: Libusb)
      requires lib.ledger.live
      requires Held(Pointers(deviceDescriptors)) <= lib.ledger.counts
      modifies lib
      ensures !lib.ledger.live && lib.ledger.open == old(lib.ledger.open)
      ensures lib.ledger.counts + Held(old(Pointers(deviceDescriptors))) == old(lib.ledger.counts)
      ensures lib.log == Released(old(lib.log), old(Pointers(deviceDescriptors))) + [Call.Exit]
    {
      DestroyAll(lib, deviceDescriptors);
      lib.LibusbExit();
    }
  }

  /**
   * The loop of device_descriptors(): `emplace_back (list[i])` for each entry into the
   * empty cached vector; grows[i] says whether the i-th call reallocates (the vector's
   * growth policy). Each entry ends up with one new DeviceDescriptor and one reference,
   * whatever the reallocations copied and destroyed on the way.
   */
  method NewDescriptors(lib: Libusb, list: seq<NativeDevice>, grows: seq<bool>) returns (ds: seq<DeviceDescriptor>)
    requires |grows| == |list|
    requires lib.ledger.live && forall k :: 0 <= k < |list| ==> list[k] in lib.ledger.counts
    modifies lib
    ensures |ds| == |list|
    ensures forall k :: 0 <= k < |list| ==> fresh(ds[k]) && ds[k].device == list[k]
    ensures lib.ledger == old(lib.ledger).(counts := old(lib.ledger).counts + multiset(list))
    ensures lib.log == EmplaceLog(old(lib.log), list, grows)
  {
    ds := [];
    var i := 0;
    while i < |list|
      invariant 0 <= i <= |list| && |ds| == i
      invariant forall k :: 0 <= k < i ==> fresh(ds[k]) && ds[k].device == list[k]
      invariant lib.ledger == old(lib.ledger).(counts := old(lib.ledger).counts + multiset(list[..i]))
      invariant lib.log == EmplaceLog(old(lib.log), list[..i], grows)
    {
      ds := EmplaceNext(lib, ds, list, grows, i, old(lib.ledger), old(lib.log));
      i := i + 1;
    }
    assert list[..i] == list;
  }

  /** One turn of the loop of NewDescriptors: the i-th emplace_back. */
  method EmplaceNext(lib: Libusb, ds: seq<DeviceDescriptor>, list: seq<NativeDevice>, grows: seq<bool>, i: nat,
                     ghost l0: Ledger, ghost start: seq<Call>) returns (next: seq<DeviceDescriptor>)
    requires i < |list| == |grows| && |ds| == i
    requires forall k :: 0 <= k < i ==> ds[k].device == list[k]
    requires l0.live && forall k :: 0 <= k < |list| ==> list[k] in l0.counts
    requires lib.ledger == l0.(counts := l0.counts + multiset(list[..i]))
    requires lib.log == EmplaceLog(start, list[..i], grows)
    modifies lib
    ensures |next| == i + 1
    ensures forall k :: 0 <= k < i + 1 ==> (fresh(next[k]) || next[k] in ds) && next[k].device == list[k]
    ensures lib.ledger == l0.(counts := l0.counts + multiset(list[..i + 1]))
    ensures lib.log == EmplaceLog(start, list[..i + 1], grows)
  {
    EmplaceLogStep(start, list, grows, i);
    assert list[..i + 1] == list[..i] + [list[i]];
    next := EmplaceBack(lib, ds, list[i], grows[i], list[..i]);
  }

  /**
   * `emplace_back (d)` on a vector of descriptors of ps. Without reallocation the new
   * element is appended. With it, the new element is built first, the old ones are copied
   * into the new storage and then destroyed.
   */
  method EmplaceBack(lib: Libusb, ds: seq<DeviceDescriptor>, d: NativeDevice, grow: bool, ghost ps: seq<NativeDevice>)
    returns (next: seq<DeviceDescriptor>)
    requires |ps| == |ds| && forall k :: 0 <= k < |ds| ==> ds[k].device == ps[k]
    requires lib.ledger.live && d in lib.ledger.counts
    requires multiset(ps) <= lib.ledger.counts
    modifies lib
    ensures |next| == |ds| + 1
    ensures forall k :: 0 <= k < |next| ==> (fresh(next[k]) || next[k] in ds) && next[k].device == (ps + [d])[k]
    ensures grow ==> forall k :: 0 <= k < |next| ==> fresh(next[k])
    ensures !grow ==> next[..|ds|] == ds && fresh(next[|ds|])
    ensures lib.ledger == old(lib.ledger).(counts := old(lib.ledger).counts + multiset{d})
    ensures lib.log == if grow then Released(old(lib.log) + [Call.RefDevice(d)] + RefCalls(ps), ps)
                       else old(lib.log) + [Call.RefDevice(d)]
  {
    var built := new DeviceDescriptor(lib, d);
    if grow {
      var copies := Reallocate(lib, ds, ps);
      next := copies + [built];
    } else {
      next := ds + [built];
    }
  }

  /**
   * The reallocation inside emplace_back: the old elements are copied into the new
   * storage, then destroyed. libusb ends up as it was; the log gains one ref and then
   * one unref per element.
   */
  method Reallocate(lib: Libusb, ds: seq<DeviceDescriptor>, ghost ps: seq<NativeDevice>) returns (copies: seq<DeviceDescriptor>)
    requires |ps| == |ds| && forall k :: 0 <= k < |ds| ==> ds[k].device == ps[k]
    requires lib.ledger.live && multiset(ps) <= lib.ledger.counts
    modifies lib
    ensures |copies| == |ds|
    ensures forall k :: 0 <= k < |ds| ==> fresh(copies[k]) && copies[k].device == ps[k]
    ensures lib.ledger == old(lib.ledger)
    ensures lib.log == Released(old(lib.log) + RefCalls(ps), ps)
  {
    copies := CopyAll(lib, ds, ps);
    HeldOfDevices(ps);
    assert Pointers(ds) == ps;
    DestroyAll(lib, ds);
    Cancel(lib.ledger.counts, old(lib.ledger).counts, multiset(ps));
  }

  /** The copies a reallocation makes: one copy-constructed DeviceDescriptor per old element, in order. */
  method CopyAll(lib: Libusb, ds: seq<DeviceDescriptor>, ghost ps: seq<NativeDevice>) returns (copies: seq<DeviceDescriptor>)
    requires |ps| == |ds| && forall k :: 0 <= k < |ds| ==> ds[k].device == ps[k]
    requires lib.ledger.live && multiset(ps) <= lib.ledger.counts
    modifies lib
    ensures |copies| == |ds|
    ensures forall k :: 0 <= k < |ds| ==> fresh(copies[k]) && copies[k].device == ps[k]
    ensures lib.ledger == old(lib.ledger).(counts := old(lib.ledger).counts + multiset(ps))
    ensures lib.log == old(lib.log) + RefCalls(ps)
  {
    copies := [];
    var i := 0;
    while i < |ds|
      invariant 0 <= i <= |ds| && |copies| == i
      invariant forall k :: 0 <= k < i ==> fresh(copies[k]) && copies[k].device == ps[k]
      invariant lib.ledger == old(lib.ledger).(counts := old(lib.ledger).counts + multiset(ps[..i]))
      invariant lib.log == old(lib.log) + RefCalls(ps[..i])
    {
      var c := CopyNext(lib, ds[i], ps, i, old(lib.ledger), old(lib.log));
      copies := copies + [c];
      i := i + 1;
    }
    assert ps[..i] == ps;
  }

  /** One turn of the loop of CopyAll: the copy of the i-th element. */
  method CopyNext(lib: Libusb, src: DeviceDescriptor, ghost ps: seq<NativeDevice>, i: nat,
                  ghost l0: Ledger, ghost start: seq<Call>) returns (c: DeviceDescriptor)
    requires i < |ps| && src.device == ps[i]
    requires l0.live && multiset(ps) <= l0.counts
    requires lib.ledger == l0.(counts := l0.counts + multiset(ps[..i]))
    requires lib.log == start + RefCalls(ps[..i])
    modifies lib
    ensures fresh(c) && c.device == ps[i]
    ensures lib.ledger == l0.(counts := l0.counts + multiset(ps[..i + 1]))
    ensures lib.log == start + RefCalls(ps[..i + 1])
  {
    ghost var calls := RefCalls(ps[..i]);
    assert ps[..i + 1] == ps[..i] + [ps[i]];
    assert RefCalls(ps[..i + 1]) == calls + [Call.RefDevice(ps[i])];
    assert ps[i] in multiset(ps);
    c := new DeviceDescriptor.Copy(lib, src);
    assert lib.log == start + (calls + [Call.RefDevice(ps[i])]);
  }

  /** Destroys each descriptor of ds in turn, as the vector's destructor does. */
  method DestroyAll(lib: Libusb, ds: seq<DeviceDescriptor>)
    requires lib.ledger.live
    requires Held(Pointers(ds)) <= lib.ledger.counts
    modifies lib
    ensures lib.ledger.live && lib.ledger.open == old(lib.ledger.open)
    ensures lib.ledger.counts + Held(old(Pointers(ds))) == old(lib.ledger.counts)
    ensures lib.log == Released(old(lib.log), old(Pointers(ds)))
  {
    ghost var ps := Pointers(ds);
    var i := 0;
    while i < |ds|
      invariant 0 <= i <= |ds|
      invariant lib.ledger.live && lib.ledger.open == old(lib.ledger.open)
      invariant lib.ledger.counts + Held(ps[..i]) == old(lib.ledger.counts)
      invariant lib.log == Released(old(lib.log), ps[..i])
      invariant forall k :: 0 <= k < |ds| ==> ds[k].device == ps[k]
    {
      DestroyNext(lib, ds[i], ps, i, old(lib.ledger.counts), old(lib.log));
      i := i + 1;
    }
    assert ps[..i] == ps;
  }

  /** One turn of the loop of DestroyAll: destroying the owner of ps[i] keeps the balance for i + 1. */
  method DestroyNext(lib: Libusb, d: DeviceDescriptor, ghost ps: seq<NativeDevice?>, i: nat,
                     ghost total: multiset<NativeDevice?>, ghost start: seq<Call>)
    requires i < |ps| && d.device == ps[i] && Held(ps) <= total
    requires lib.ledger.live && lib.ledger.counts + Held(ps[..i]) == total
    requires lib.log == Released(start, ps[..i])
    modifies lib
    ensures lib.ledger.live && lib.ledger.open == old(lib.ledger.open)
    ensures lib.ledger.counts + Held(ps[..i + 1]) == total
    ensures lib.log == Released(start, ps[..i + 1])
  {
    NextRelease(lib.ledger.counts, total, ps, i);
    ReleasedStep(start, ps, i);
    d.Destroy(lib);
  }
}
