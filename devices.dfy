/**
 * DeviceDescriptor and Device (libusbcc.cc:37-67, 179-328; libusbcc.h:99-312): the
 * wrappers that own a reference on a libusb_device and, for Device, an open handle.
 * C++ copy and move constructors are named constructors, assignments are methods,
 * and a destructor is the method Destroy, which runs cleanup().
 */
module Devices {
  import opened Wrappers
  import opened Status
  import opened UsbTypes
  import opened Format
  import opened Native

  /** LIBUSB_REQUEST_TYPE_VENDOR | LIBUSB_RECIPIENT_DEVICE | LIBUSB_ENDPOINT_OUT. */
  const VendorDeviceOut: u8 := 0x40
  /** LIBUSB_REQUEST_TYPE_VENDOR | LIBUSB_RECIPIENT_DEVICE | LIBUSB_ENDPOINT_IN. */
  const VendorDeviceIn: u8 := 0xC0
  /** The size of the vector receive() reads into: the most a control transfer carries. */
  const ReceiveCapacity: nat := 64
  /** The size of the stack buffer get_usb_string() reads into. */
  const StringBufferSize: nat := 256

  /** The native calls of `if (d) libusb_unref_device (d);`. */
  function ReleaseCalls(d: NativeDevice?): seq<Call>
  {
    if d == null then [] else [Call.UnrefDevice(d)]
  }

  /** The native calls of Device::cleanup(): close the handle, then drop the reference. */
  function CleanupCalls(h: NativeHandle?, d: NativeDevice?): seq<Call>
  {
    (if h == null then [] else [Call.Close(h)]) + ReleaseCalls(d)
  }

  /** An opened device: a reference on the libusb_device, an open handle and a lazily filled descriptor cache. */
  class Device {
    var device: NativeDevice?
    var handle: NativeHandle?
    var cache: Option<DescriptorRecord>

    /** Device (device, handle): both must be non-null; references the device. */
    constructor (lib: Libusb, device: NativeDevice?, handle: NativeHandle?)
      requires device != null && handle != null
      requires lib.ledger.Alive(device)
      modifies lib
      ensures this.device == device && this.handle == handle && cache == None
      ensures lib.ledger == old(lib.ledger).Ref(device)
      ensures lib.log == old(lib.log) + [Call.RefDevice(device)]
    {
      this.device := device;
      this.handle := handle;
      cache := None;
      new;
      lib.LibusbRefDevice(device);
    }

    /** Device (Device&&): takes both pointers and empties the source; the cache is not taken. */
    constructor Move(other: Device)
      modifies other`device, other`handle
      ensures device == old(other.device) && handle == old(other.handle) && cache == None
      ensures other.device == null && other.handle == null
    {
      device := other.device;
      handle := other.handle;
      cache := None;
      new;
      other.Reset();
    }

    /** ~Device(). */
    method Destroy(lib: Libusb)
      requires lib.ledger.CanShut(handle) && lib.ledger.Shut(handle).CanRelease(device)
      modifies lib
      ensures lib.ledger == old(lib.ledger).Shut(handle).Release(device)
      ensures lib.log == old(lib.log) + CleanupCalls(handle, device)
    {
      Cleanup(lib);
    }

    /**
     * operator= (Device&&): cleans this up, takes the other's pointers and empties the
     * other. Neither cache is touched, so this keeps the record of the device it held before.
     */
    method MoveAssign(lib: Libusb, other: Device)
      requires lib.ledger.CanShut(handle) && lib.ledger.Shut(handle).CanRelease(device)
      modifies this`device, this`handle, other`device, other`handle, lib
      ensures lib.ledger == old(lib.ledger).Shut(old(handle)).Release(old(device))
      ensures lib.log == old(lib.log) + CleanupCalls(old(handle), old(device))
      ensures other != this ==> device == old(other.device) && handle == old(other.handle)
      ensures other.device == null && other.handle == null
      ensures cache == old(cache) && other.cache == old(other.cache)
    {
      Cleanup(lib);
      handle := other.handle;
      device := other.device;
      other.Reset();
    }

    /** reset(): empties the object, so that its destructor does nothing. */
    method Reset()
      modifies this`device, this`handle
      ensures device == null && handle == null
    {
      handle := null;
      device := null;
    }

    /** cleanup(): closes the handle if there is one, then unreferences the device if there is one. */
    method Cleanup(lib: Libusb)
      requires lib.ledger.CanShut(handle) && lib.ledger.Shut(handle).CanRelease(device)
      modifies lib
      ensures lib.ledger == old(lib.ledger).Shut(handle).Release(device)
      ensures lib.log == old(lib.log) + CleanupCalls(handle, device)
    {
      if handle != null {
        lib.LibusbClose(handle);
      }
      if device != null {
        lib.LibusbUnrefDevice(device);
      }
    }

    /**
     * descriptor(): the cached record if there is one, with no native call. Otherwise it
     * caches a zero record first and then asks libusb, which fills in `fetched` unless it
     * reports an error; after an error the zero record stays cached.
     */
    method Descriptor(lib: Libusb, status: int, fetched: DescriptorRecord) returns (r: Result<DescriptorRecord, Error>)
      requires cache == None ==> lib.ledger.Alive(device)
      modifies this`cache, lib
      ensures lib.ledger == old(lib.ledger)
      ensures old(cache).Some? ==> r == Ok(old(cache).value) && cache == old(cache) && lib.log == old(lib.log)
      ensures old(cache) == None ==> lib.log == old(lib.log) + [Call.GetDeviceDescriptor(device)]
      ensures old(cache) == None && IsError(status) ==> r == Err(StatusError(status)) && cache == Some(ZeroRecord)
      ensures old(cache) == None && !IsError(status) ==> r == Ok(fetched) && cache == Some(fetched)
    {
      if cache.Some? {
        return Ok(cache.value);
      }
      cache := Some(ZeroRecord);
      var err := lib.GetDeviceDescriptorOf(device, status);
      if IsError(err) {
        return Err(StatusError(err));
      }
      cache := Some(fetched);
      r := Ok(fetched);
    }

    /**
     * get_usb_string (string_id): empty text for an index of zero or below, without a
     * native call. Otherwise libusb writes `text` into a 256-byte stack buffer whose other
     * bytes are whatever `garbage` holds; a negative count is thrown, and a NUL written at
     * the count ends the text.
     */
    method GetUsbString(lib: Libusb, stringId: int, garbage: seq<u8>, status: int, text: seq<u8>)
      returns (r: Result<seq<u8>, Error>)
      requires stringId > 0 ==> lib.ledger.IsOpen(handle)
      requires |garbage| == StringBufferSize
      requires status >= 0 ==> status == |text| < StringBufferSize
      requires status < 0 ==> text == []
      modifies lib
      ensures lib.ledger == old(lib.ledger)
      ensures stringId <= 0 ==> r == Ok([]) && lib.log == old(lib.log)
      ensures stringId > 0 ==>
        lib.log == old(lib.log) + [Call.GetStringDescriptorAscii(handle, (stringId % 0x100) as u8, StringBufferSize)]
      ensures stringId > 0 && status < 0 ==> r == Err(StatusError(status))
      ensures stringId > 0 && status >= 0 ==> r == Ok(CString(text)) && |r.value| <= status
    {
      if stringId > 0 {
        var buffer := new u8[StringBufferSize](i requires 0 <= i < StringBufferSize => garbage[i]);
        var chars := lib.GetStringDescriptorAsciiInto(handle, (stringId % 0x100) as u8, buffer, status, text);
        if chars < 0 {
          return Err(StatusError(chars));
        }
        buffer[chars] := 0;
        assert buffer[..][..chars] == text;
        CStringStopsAtNul(buffer[..], chars);
        r := Ok(CString(buffer[..]));
      } else {
        r := Ok([]);
      }
    }

    /**
     * send (ct, timeout_ms, buffer): a vendor, device-recipient, host-to-device control
     * transfer that hands libusb the payload bytes themselves; only a status is_error lists is thrown, so a short write
     * counts as success. The length goes to libusb as a 16-bit wLength.
     */
    method Send(lib: Libusb, ct: UsbTypes.ControlTransfer, timeoutMs: int, payload: seq<u8>, status: int)
      returns (r: Result<(), Error>)
      requires lib.ledger.IsOpen(handle)
      modifies lib
      ensures lib.ledger == old(lib.ledger)
      ensures lib.log == old(lib.log) + [Call.ControlTransfer(handle, VendorDeviceOut, ct, payload, (|payload| % 0x1_0000) as u16, timeoutMs)]
      ensures IsError(status) ==> r == Err(StatusError(status))
      ensures !IsError(status) ==> r == Ok(())
    {
      var n := lib.LibusbControlTransfer(handle, VendorDeviceOut, ct, payload, (|payload| % 0x1_0000) as u16, timeoutMs, status);
      if IsError(n) {
        return Err(StatusError(n));
      }
      r := Ok(());
    }

    /**
     * receive (ct, timeout_ms): a vendor, device-recipient, device-to-host control transfer
     * into a zeroed 64-byte vector, which libusb overwrites with `data`; the vector is then
     * resized to the returned count. A negative count is_error does not list makes resize
     * throw std::length_error.
     */
    method Receive(lib: Libusb, ct: UsbTypes.ControlTransfer, timeoutMs: int, status: int, data: seq<u8>)
      returns (r: Result<seq<u8>, Error>)
      requires lib.ledger.IsOpen(handle)
      requires |data| <= ReceiveCapacity
      requires 0 <= status <= ReceiveCapacity ==> |data| == status
      modifies lib
      ensures lib.ledger == old(lib.ledger)
      ensures lib.log == old(lib.log) + [Call.ControlTransfer(handle, VendorDeviceIn, ct, seq(ReceiveCapacity, _ => 0), ReceiveCapacity as u16, timeoutMs)]
      ensures IsError(status) ==> r == Err(StatusError(status))
      ensures !IsError(status) && status < 0 ==> r == Err(LengthError)
      ensures status >= 0 ==> r.Ok? && |r.value| == status
      ensures 0 <= status <= ReceiveCapacity ==> r == Ok(data)
    {
      var buffer: seq<u8> := seq(ReceiveCapacity, _ => 0);
      var n := lib.LibusbControlTransfer(handle, VendorDeviceIn, ct, buffer, |buffer| as u16, timeoutMs, status);
      buffer := data + buffer[|data|..];
      if IsError(n) {
        return Err(StatusError(n));
      }
      if n < 0 {
        return Err(LengthError);
      }
      buffer := Resize(buffer, n);
      r := Ok(buffer);
    }
  }

  /** A device that is not opened: one reference on a libusb_device. */
  class DeviceDescriptor {
    var device: NativeDevice?

    /** DeviceDescriptor (libusb_device*): references the device. */
    constructor (lib: Libusb, device: NativeDevice?)
      requires lib.ledger.Alive(device)
      modifies lib
      ensures this.device == device
      ensures lib.ledger == old(lib.ledger).Ref(device)
      ensures lib.log == old(lib.log) + [Call.RefDevice(device)]
    {
      this.device := device;
      new;
      lib.LibusbRefDevice(device);
    }

    /**
     * DeviceDescriptor (DeviceDescriptor const&): shares the pointer and references it
     * again, which needs a source that was not moved from.
     */
    constructor Copy(lib: Libusb, other: DeviceDescriptor)
      requires lib.ledger.Alive(other.device)
      modifies lib
      ensures device == other.device
      ensures lib.ledger == old(lib.ledger).Ref(other.device)
      ensures lib.log == old(lib.log) + [Call.RefDevice(other.device)]
    {
      device := other.device;
      new;
      lib.LibusbRefDevice(device);
    }

    /** DeviceDescriptor (DeviceDescriptor&&): takes the pointer and empties the source; no native call. */
    constructor Move(other: DeviceDescriptor)
      modifies other
      ensures device == old(other.device)
      ensures other.device == null
    {
      device := other.device;
      new;
      other.Reset();
    }

    /** ~DeviceDescriptor(). */
    method Destroy(lib: Libusb)
      requires lib.ledger.CanRelease(device)
      modifies lib
      ensures lib.ledger == old(lib.ledger).Release(device)
      ensures lib.log == old(lib.log) + ReleaseCalls(device)
    {
      Cleanup(lib);
    }

    /**
     * operator= (DeviceDescriptor const&): cleanup() first, then take and reference the
     * other's pointer. Assigning an object to itself unreferences before it references
     * again, so the device must keep another reference.
     */
    method CopyAssign(lib: Libusb, other: DeviceDescriptor)
      requires lib.ledger.CanRelease(device)
      requires lib.ledger.Release(device).Alive(other.device)
      modifies this, lib
      ensures device == old(other.device)
      ensures lib.ledger == old(lib.ledger).Release(old(device)).Ref(old(other.device))
      ensures lib.log == old(lib.log) + ReleaseCalls(old(device)) + [Call.RefDevice(old(other.device))]
    {
      Cleanup(lib);
      device := other.device;
      lib.LibusbRefDevice(device);
    }

    /** operator= (DeviceDescriptor&&): cleanup() first, then take the other's pointer and empty the other. */
    method MoveAssign(lib: Libusb, other: DeviceDescriptor)
      requires lib.ledger.CanRelease(device)
      modifies this, other, lib
      ensures other != this ==> device == old(other.device)
      ensures other.device == null
      ensures lib.ledger == old(lib.ledger).Release(old(device))
      ensures lib.log == old(lib.log) + ReleaseCalls(old(device))
    {
      Cleanup(lib);
      device := other.device;
      other.Reset();
    }

    /**
     * open(): libusb_open, then a Device that references the device again and owns the
     * new handle; an error is thrown.
     */
    method Open(lib: Libusb, status: int) returns (r: Result<Device, Error>)
      requires lib.ledger.Alive(device)
      modifies lib
      ensures IsError(status) ==>
        r == Err(StatusError(status)) && lib.ledger == old(lib.ledger) && lib.log == old(lib.log) + [Call.Open(device)]
      ensures !IsError(status) ==>
        && r.Ok? && fresh(r.value) && fresh(r.value.handle)
        && r.value.device == device && r.value.handle != null && r.value.cache == None
        && lib.ledger == old(lib.ledger).(open := old(lib.ledger).open + {r.value.handle}).Ref(device)
        && lib.log == old(lib.log) + [Call.Open(device), Call.RefDevice(device)]
    {
      var err, handle := lib.LibusbOpen(device, status);
      if IsError(err) {
        return Err(StatusError(err));
      }
      var dev := new Device(lib, device, handle);
      r := Ok(dev);
    }

    /** reset(). */
    method Reset()
      modifies this
      ensures device == null
    {
      device := null;
    }

    /** cleanup(): unreferences the device if there is one. */
    method Cleanup(lib: Libusb)
      requires lib.ledger.CanRelease(device)
      modifies lib
      ensures lib.ledger == old(lib.ledger).Release(device)
      ensures lib.log == old(lib.log) + ReleaseCalls(device)
    {
      if device != null {
        lib.LibusbUnrefDevice(device);
      }
    }
  }
}
