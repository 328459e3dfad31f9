# libusbcc in Dafny

libusbcc is a thin C++ layer over libusb. It has three classes that own libusb resources:

- `Session` owns a libusb context and a cached vector of `DeviceDescriptor`s.
- `DeviceDescriptor` owns one reference on a `libusb_device`.
- `Device` is an opened device. It owns a reference on the device, an open `libusb_device_handle` and a lazily filled copy of the device descriptor record.

Most of the library forwards calls to libusb. This project models its own logic:

- the reference and handle ownership of the two device classes (constructors, copies, moves, assignments, `reset()`, `cleanup()`, destructors);
- the two lazy caches, `Device::descriptor()` and `Session::device_descriptors()`;
- the status classification `Session::is_error`;
- the text and buffer handling of `usb_version_str`, `release_version_str`, `get_usb_string`, `send` and `receive`.

libusb itself is an abstract state (`Native.Ledger`):

- whether the context is live;
- a reference count per device, as the multiplicity of the device in a multiset;
- the set of open handles.

Every native call also appends itself to a ghost log (`Native.Libusb.log`). The preconditions of the methods of `Native.Libusb` are what libusb needs to be called validly. For example, `libusb_ref_device` and `libusb_unref_device` need a live context and a device that is not freed, and `libusb_close` needs an open handle. What the device or libusb answers is a parameter: status codes, byte counts, the descriptor record, the string bytes, the device list. A C++ exception is the `Err` case of a `Result`, carrying `Status.Error`.

The model has two layers:

- The classes `Devices.Device`, `Devices.DeviceDescriptor` and `Sessions.Session` follow the C++ classes member by member. Their fields are nullable references, and their methods change those fields and the libusb state in place.
- Module `Ownership` follows whole programs over these objects. A program is a sequence of constructions, copies, moves, assignments and destructions. A step is undefined exactly when it would make an invalid libusb call or use an object already destroyed. The steps use the same `Ledger` operations as the class methods. The lemmas there show the following:
  - References and unreferences balance.
  - Every handle is closed exactly once.
  - While the context is live, a use of a live object is defined exactly when it is permitted (`Ownership.Permitted`). The headers forbid none of these uses, but three are not permitted:
    - copying a moved-from descriptor, which references a null pointer;
    - opening a moved-from descriptor, which passes a null device to `libusb_open`;
    - self copy-assignment of a descriptor that holds the only reference to its device, which frees the device before referencing it again.
  - Each class method agrees with its step: under the method's precondition the step is defined and leaves libusb as the method's postcondition says.

Quirks of the source are modelled as written:

- `device_descriptors()` sets the count to 0 before it builds the exception, so the thrown code is 0. It also passes an `ssize_t` through `size_t` to `is_error(int)` (`Status.AsSize`, `Status.AsInt`).
- `Device`'s move assignment keeps the target's cached descriptor record (stale after the swap).
- `descriptor()` caches a zeroed record before the fetch, so after a failed fetch it keeps returning zeros without error.
- `emplace_back` in `device_descriptors()` may reallocate the vector. `DeviceDescriptor`'s move constructor is not `noexcept` and a copy constructor exists, so a reallocation copies every element (a ref each) and destroys the old ones (an unref each).
- `receive` turns a negative count that `is_error` does not list into `std::length_error` from `resize`.
- `release_version_str` writes both bytes of bcdDevice in decimal: 0x0110 reads "1.16", not "1.1.0".

## Model

| member | source | states |
|---|---|---|
| Status.IsError | src/libusbcc/libusbcc.cc:382-408 | true exactly for the thirteen listed libusb_error codes; false for success, for every non-negative value and for unlisted negative values; every error lies in -99..-1 |
| Status.ErrorCodeCount | src/libusbcc/libusbcc.cc:390-403 | the switch lists thirteen distinct codes |
| Status.AsSize | src/libusbcc/libusbcc.cc:358 | storing the ssize_t result in a size_t keeps non-negative counts and adds 2^64 to negative ones |
| Status.AsInt | src/libusbcc/libusbcc.cc:360 | passing the size_t to is_error(int) keeps the low 32 bits, read as two's complement |
| Status.ConversionKeepsCodes | src/libusbcc/libusbcc.cc:358-360 | a count below 2^31 and every libusb_error survive the size_t and int conversions unchanged |
| Format.Decimal | src/libusbcc/libusbcc.cc:105 | std::to_string of a non-negative number: at least one digit, all decimal digits, no leading zero |
| Format.DecimalRoundTrip | src/libusbcc/libusbcc.cc:105 | the digits std::to_string writes read back as the number |
| Format.ReleaseVersionStr | src/libusbcc/libusbcc.cc:101-106 | the high byte of bcdDevice in decimal, a dot, the low byte in decimal |
| Format.ReleaseVersionRoundTrip | src/libusbcc/libusbcc.cc:101-106 | splitting release_version_str at its dot and parsing both parts as the high and low byte gives back bcdDevice |
| Format.ReleaseVersionStrInjective | src/libusbcc/libusbcc.cc:101-106 | two release numbers with the same text are equal |
| Format.ReleaseVersionExample | src/libusbcc/libusbcc.cc:101-106 | bcdDevice 0x0102 reads "1.2" |
| Format.UsbVersionStr | src/libusbcc/libusbcc.cc:77-91 | the text is "unknown" exactly when bcdUSB is none of the three USBVersion values |
| Format.UsbVersionStrMatchesBcd | src/libusbcc/libusbcc.h:36-41 | for each USBVersion value the text is the major and minor version that bcdUSB encodes in BCD |
| Format.CString | src/libusbcc/libusbcc.cc:251 | std::string(const char*) is the longest NUL-free prefix of the buffer |
| Format.CStringStopsAtNul | src/libusbcc/libusbcc.cc:250-251 | after a NUL is written at index k, the text is at most k bytes and ignores whatever follows in the buffer |
| Format.Resize | src/libusbcc/libusbcc.cc:201 | vector::resize keeps the first n bytes and pads with zeros |
| Native.HeldOfDevices | src/libusbcc/libusbcc.cc:367-368 | non-null device pointers hold one reference each |
| Native.Libusb.GetStringDescriptorAsciiInto | src/libusbcc/libusbcc.cc:246-247 | on success the text libusb returns lands at the start of the buffer, followed by a NUL, and the bytes after that keep their old contents; on failure the buffer is unchanged |
| Devices.Device.constructor | src/libusbcc/libusbcc.cc:37-42 | non-null device and handle are stored; exactly one libusb_ref_device; the descriptor cache starts empty |
| Devices.Device.Move | src/libusbcc/libusbcc.cc:51-56 | the new object takes both pointers, the source is left with two nulls, no native call |
| Devices.Device.Destroy | src/libusbcc/libusbcc.cc:45-48 | closes the handle if non-null, then unreferences the device if non-null, and nothing else |
| Devices.Device.MoveAssign | src/libusbcc/libusbcc.cc:59-67 | cleanup of the old pointers, takes the other's pointers, empties the other, keeps both caches (stale record) |
| Devices.Device.Reset | src/libusbcc/libusbcc.cc:206-211 | both pointers become null |
| Devices.Device.Cleanup | src/libusbcc/libusbcc.cc:214-221 | libusb_close iff the handle is non-null, libusb_unref_device iff the device is non-null, in that order |
| Devices.Device.Descriptor | src/libusbcc/libusbcc.cc:224-237 | a filled cache is returned with no native call; otherwise exactly one fetch, and the cache holds the record, or zeros after a failed fetch |
| Devices.Device.GetUsbString | src/libusbcc/libusbcc.cc:240-255 | empty text with no native call for an index of zero or below; a negative count is thrown; otherwise the text up to the first NUL, at most count bytes |
| Devices.Device.Send | src/libusbcc/libusbcc.cc:179-189 | one vendor host-to-device control transfer that hands libusb the payload bytes and their count as wLength; an error is raised exactly when is_error holds for the result |
| Devices.Device.Receive | src/libusbcc/libusbcc.cc:192-203 | one vendor device-to-host transfer into a zeroed 64-byte buffer; a StatusError exactly when is_error holds; a length error for other negative counts; otherwise exactly count bytes, which are the received data when count is 0..64 |
| Devices.DeviceDescriptor.constructor | src/libusbcc/libusbcc.cc:258-262 | stores the device and references it once |
| Devices.DeviceDescriptor.Copy | src/libusbcc/libusbcc.cc:265-269 | shares the pointer and references it once more; needs a source that was not moved from |
| Devices.DeviceDescriptor.Move | src/libusbcc/libusbcc.cc:272-276 | takes the pointer and nulls the source, with no native call |
| Devices.DeviceDescriptor.Destroy | src/libusbcc/libusbcc.cc:279-282 | unreferences the device iff the pointer is non-null |
| Devices.DeviceDescriptor.CopyAssign | src/libusbcc/libusbcc.cc:285-292 | unreferences the old device, then takes and references the other's; the device must survive the unref |
| Devices.DeviceDescriptor.MoveAssign | src/libusbcc/libusbcc.cc:295-302 | unreferences the old device, takes the other's pointer, nulls the other |
| Devices.DeviceDescriptor.Open | src/libusbcc/libusbcc.cc:305-313 | libusb_open; on error nothing changes and the error is thrown; on success a fresh Device owning the new open handle and one more reference |
| Devices.DeviceDescriptor.Reset | src/libusbcc/libusbcc.cc:316-320 | the pointer becomes null |
| Devices.DeviceDescriptor.Cleanup | src/libusbcc/libusbcc.cc:323-328 | libusb_unref_device iff the pointer is non-null |
| Sessions.Session.Create | src/libusbcc/libusbcc.cc:331-342 | libusb_init; the context is live unless is_error holds, and then the error is nested in "failed to create libusb session" |
| Sessions.Session.DeviceDescriptors | src/libusbcc/libusbcc.cc:351-379 | a non-empty cache is returned with no native call; on a listing error the code thrown is 0; otherwise one new descriptor per listed device, a net one reference each, the emplace_back calls including the reallocation copies and destructions, then the list is freed with unref set |
| Sessions.NewDescriptors | src/libusbcc/libusbcc.cc:367-368 | one fresh descriptor per list entry, in order; net one reference per entry; the log is exactly the emplace_back calls, reallocations included |
| Sessions.EmplaceLog | src/libusbcc/libusbcc.cc:368 | the calls of one emplace_back: ref the new element; on reallocation, then ref each copy and unref each old element, in order |
| Sessions.EmplaceWithoutGrowth | src/libusbcc/libusbcc.cc:367-368 | when no emplace_back reallocates, the calls are exactly one libusb_ref_device per entry, in order |
| Sessions.TwoDevicesWithGrowth | src/libusbcc/libusbcc.cc:367-368 | listing d0 and d1 where the second emplace_back reallocates calls ref d0, ref d1, ref d0 (the copy), unref d0 (the original) |
| Sessions.ReleasedDevices | src/libusbcc/libusbcc.cc:279-282 | destroying owners of non-null pointers makes exactly one unref each, in order |
| Sessions.EmplaceBack | src/libusbcc/libusbcc.cc:368 | one emplace_back: net one reference on the new device; the elements keep their devices; without reallocation the old elements stay and a fresh one is appended, with it every element is fresh (copies of the old ones and the new one) |
| Sessions.Reallocate | src/libusbcc/libusbcc.cc:264-282 | copying every element and destroying the originals leaves libusb's counts unchanged, with one ref then one unref per element in the log |
| Sessions.CopyAll | src/libusbcc/libusbcc.cc:264-269 | one fresh copy per element, sharing its device, and exactly one libusb_ref_device each |
| Sessions.DestroyAll | src/libusbcc/libusbcc.h:342 | destroying the cached vector drops exactly the references its descriptors hold, one unref per non-null pointer, in order |
| Sessions.Session.Destroy | src/libusbcc/libusbcc.cc:345-348 | the descriptors' references are all dropped while the context is live, then libusb_exit; open handles are untouched |
| Ownership.NewStep | src/libusbcc/libusbcc.cc:258-262 | DeviceDescriptor(libusb_device*): references a live device and adds an object holding it |
| Ownership.CopyStep | src/libusbcc/libusbcc.cc:265-269 | copy construction: references the source's device again and adds an object sharing it |
| Ownership.MoveOutStep | src/libusbcc/libusbcc.cc:272-276 | move construction: the new object takes the pointers and the source is emptied, with no native call |
| Ownership.CopyAssignStep | src/libusbcc/libusbcc.cc:285-292 | copy assignment: cleanup of the target, then the target shares the source's device and references it |
| Ownership.MoveAssignStep | src/libusbcc/libusbcc.cc:295-302 | move assignment: cleanup of the target, which takes the source's pointers; the source is emptied |
| Ownership.AttachStep | src/libusbcc/libusbcc.cc:37-42 | a Device on a newly opened handle: the handle becomes open and the device gains one reference |
| Ownership.OpenStep | src/libusbcc/libusbcc.cc:305-313 | open() of a descriptor where libusb_open succeeds |
| Ownership.DestroyStep | src/libusbcc/libusbcc.cc:279-282 | a destructor: cleanup of a live object, which is then gone |
| Ownership.Step | src/libusbcc/libusbcc.cc:258-328 | one special member, open() or libusb_exit, undefined exactly when it would make an invalid libusb call or use an object already destroyed |
| Ownership.Run | src/libusbcc/libusbcc.cc:258-328 | a program: its steps in order, undefined from the first undefined step |
| Ownership.NewKeeps | src/libusbcc/libusbcc.cc:258-262 | construction keeps the balance: libusb's counts are the outside references plus one per pointer held, and the open handles are exactly the ones held |
| Ownership.CopyKeeps | src/libusbcc/libusbcc.cc:265-269 | copy construction keeps the balance |
| Ownership.MoveOutKeeps | src/libusbcc/libusbcc.cc:272-276 | move construction of a DeviceDescriptor or a Device keeps the balance |
| Ownership.MoveOutHolds | src/libusbcc/libusbcc.cc:51-56 | a move moves the references held and does not change them |
| Ownership.MoveOutHandles | src/libusbcc/libusbcc.cc:51-56 | a move moves the handles held and does not change them |
| Ownership.CopyAssignKeeps | src/libusbcc/libusbcc.cc:285-292 | copy assignment keeps the balance |
| Ownership.MoveAssignCounts | src/libusbcc/libusbcc.cc:295-302 | after a move assignment, libusb's counts match the references held |
| Ownership.MoveAssignHandles | src/libusbcc/libusbcc.cc:59-67 | after a move assignment of Devices, the open handles are exactly the ones held |
| Ownership.MoveAssignKeeps | src/libusbcc/libusbcc.cc:59-67 | move assignment of DeviceDescriptors or Devices keeps the balance |
| Ownership.AttachKeeps | src/libusbcc/libusbcc.cc:305-313 | a successful open(), or the Device constructor on a freshly opened handle, keeps the balance: the new Device holds the new handle and one more reference |
| Ownership.DestroyKeeps | src/libusbcc/libusbcc.cc:279-282 | a destructor keeps the balance |
| Ownership.StepPreservesInv | src/libusbcc/libusbcc.cc:258-328 | every defined step keeps the balance |
| Ownership.RunPreservesInv | src/libusbcc/libusbcc.cc:258-328 | every defined program keeps the balance |
| Ownership.BalanceOfDestroyed | src/libusbcc/libusbcc.cc:279-282 | once every object is destroyed, libusb is left with the outside references only and no handle open |
| Ownership.Balance | src/libusbcc/libusbcc.cc:258-328 | a program that starts with no wrappers and ends with all destroyed leaves every reference count as it found it and every handle closed |
| Ownership.HeldIsLive | src/libusbcc/libusbcc.h:233-244 | a pointer held by a live object is referenced in libusb, and a handle it holds is open |
| Ownership.HeldTwice | src/libusbcc/libusbcc.cc:285-292 | two distinct objects sharing a device account for two references |
| Ownership.CleanIsDefined | src/libusbcc/libusbcc.cc:214-221 | cleanup of a live object is a valid pair of libusb calls while the context is live |
| Ownership.CopyAssignIsDefined | src/libusbcc/libusbcc.cc:285-292 | a permitted copy assignment is defined: a source that was not moved from, and for self-assignment a device with another reference |
| Ownership.PermittedStepIsDefined | src/libusbcc/libusbcc.h:99-128 | while the context is live and the balance holds, every permitted use is defined: every use of a live object except copying or opening a moved-from descriptor and self copy-assignment of the sole owner |
| Ownership.DefinedStepIsPermitted | src/libusbcc/libusbcc.h:271-312 | every defined use is permitted, so the two together say a step is defined exactly when it is permitted |
| Ownership.MovedFromDestroyIsNoOp | src/libusbcc/libusbcc.h:233-237 | the destructor of a moved-from object makes no native call, even after libusb_exit |
| Ownership.NothingAfterExit | src/libusbcc/libusbcc.h:99-102 | after libusb_exit no step changes libusb's state |
| Ownership.CopyOfMovedFrom | src/libusbcc/libusbcc.cc:265-269 | copying a moved-from descriptor is undefined (it would reference a null pointer) |
| Ownership.OpenOfMovedFrom | src/libusbcc/libusbcc.cc:305-313 | opening a moved-from descriptor is undefined (libusb_open would get a null device) |
| Ownership.SelfCopyAssignOfSoleOwner | src/libusbcc/libusbcc.cc:285-292 | self copy-assignment of the sole owner is undefined (the device is freed before it is referenced again) |
| Ownership.NewMatches | src/libusbcc/libusbcc.cc:258-262 | under the constructor's precondition, its step is defined and leaves libusb as the constructor does |
| Ownership.CopyMatches | src/libusbcc/libusbcc.cc:265-269 | under the copy constructor's precondition, its step leaves libusb as the copy constructor does |
| Ownership.MoveMatches | src/libusbcc/libusbcc.cc:272-276 | a move of either class is a step that leaves libusb unchanged and empties the source |
| Ownership.CopyAssignMatches | src/libusbcc/libusbcc.cc:285-292 | under the copy assignment's precondition, its step leaves libusb as the copy assignment does |
| Ownership.MoveAssignMatches | src/libusbcc/libusbcc.cc:295-302 | under the move assignment's precondition, its step leaves libusb as the move assignment does |
| Ownership.MoveAssignDeviceMatches | src/libusbcc/libusbcc.cc:59-67 | under Device's move assignment's precondition, its step closes and unreferences as the method does |
| Ownership.OpenMatches | src/libusbcc/libusbcc.cc:305-313 | a successful open() is a step that leaves libusb as the method does |
| Ownership.DestroyMatches | src/libusbcc/libusbcc.cc:45-48 | under either destructor's precondition, its step leaves libusb as the destructor does |
| Ownership.TeardownAsWritten | src/libusbcc/libusbcc.cc:345-348 | ~Session as written: libusb_exit, then the destructors of the cached descriptors |
| Ownership.Teardown | src/libusbcc/libusbcc.cc:345-348 | ~Session corrected: the destructors of the cached descriptors, then libusb_exit |
| Ownership.DestroyAfterExitFails | src/libusbcc/libusbcc.cc:345-348 | after libusb_exit, destroying the objects in order fails at the first one that still holds a device |
| Ownership.TeardownAsWrittenFails | src/libusbcc/libusbcc.cc:345-348 | with libusb_exit before the member destructors, any cached descriptor that holds a device makes the teardown invalid |
| Ownership.DestroyFromSucceeds | src/libusbcc/libusbcc.cc:345-348 | while the context is live, destroying the remaining objects in order is defined and keeps the balance |
| Ownership.DestroyOne | src/libusbcc/libusbcc.cc:279-282 | one destructor of a live object while the context is live is defined and keeps the balance |
| Ownership.TeardownSucceeds | src/libusbcc/libusbcc.cc:345-348 | destructors first, then libusb_exit: defined, and it leaves the counts as before any wrapper existed, no handle open and the context gone |

## Left out

- The libusb functions themselves are not modelled. `Native.Libusb` states only what the library relies on: reference counts, open handles and context liveness. Their answers are parameters.
- libusb's own internal references are not counted. `libusb_open` takes one on the device and `libusb_close` drops it. The balance covers the references the wrappers take.
- Only a successful `open()` is a step in `Ownership`. A failed one changes nothing (`Devices.DeviceDescriptor.Open`).
- The public `Device (libusb_device*, libusb_device_handle*)` constructor is a step (`NewDevice`) only on a handle the caller has just opened, which the Device then owns. A handle the caller keeps and closes itself is not modelled.
- Which `emplace_back` reallocates depends on the vector's capacity and growth policy. It is a parameter (`grows`). The order of a reallocation's calls is the one libstdc++ uses: construct the new element, copy the old ones in order, destroy the old ones in order.
- The thin accessors of `Device` read one field of the cached record each: `usb_version`, `release_version`, `vendor_id`, `product_id`, `usb_class`, `usb_sub_class`, `usb_protocol`, `num_configurations`, `max_packet_size_0`. `manufacturer`, `product` and `serial_number` pass one index to `get_usb_string`. These are covered by `Devices.Device.Descriptor` and `Devices.Device.GetUsbString`, not as separate members.
- Exception message text (`libusb_strerror`) and the message texts of nested exceptions beyond the two context strings are left out.
- Timeouts, blocking and threads are left out. The timeout is passed through to the logged call.
- Only one libusb context exists at a time: `Native.Libusb.LibusbInit` requires that none is live.
- UTF-16 string descriptors are left out (a TODO in the source).
- `size_t` is 64 bits wide (`Status.SizeModulus` is 2^64), as on the usual LP64 and LLP64 targets. 32-bit targets are not modelled.
- `DeviceClass`, `DeviceSubClass` and `DeviceProtocol` are plain bytes.
- `ControlTransfer` is a datatype whose constructor stores its three fields. `Device`'s deleted copy operations appear as the absence of a copy constructor and copy assignment on `Devices.Device`.
- The ownership of the `std::vector` returned by `device_descriptors()` by reference is not modelled. Callers may copy it; each copy is a `CopyDescriptor` in `Ownership`.
- Devices.Device.GetUsbString: requires that libusb returns fewer than 256 characters. `libusb_get_string_descriptor_ascii` never fills the whole buffer, so `buffer[chars] = 0` stays in bounds; a count of 256 is not modelled.
- Devices.Device.Receive: requires that libusb writes at most 64 bytes, the length it is given. For a count above 64 it states only the length of the result.
- Sessions.Session.DeviceDescriptors: requires that a negative result of `libusb_get_device_list` is one of the listed libusb_error codes and that the count fits in an `ssize_t`.
- Sessions.Session.Destroy: requires that libusb counts every reference the cached descriptors hold. The ownership balance in `Ownership.RunPreservesInv` establishes this for whole programs, but the class model does not carry it as an object invariant. The method uses the corrected order (see Findings).

## Findings

| source | as written | input that shows it | evidently intended | confidence | as-written member | corrected member |
|---|---|---|---|---|---|---|
| src/libusbcc/libusbcc.cc:345-348 | `~Session()` calls `libusb_exit` in its body. The member `_device_descriptors` is destroyed only after the body, so each cached descriptor calls `libusb_unref_device` after the context is gone. | A session on which `device_descriptors()` listed one device, then destroyed | Destroy the cached descriptors while the context is live, then call `libusb_exit` (the order the header demands of every Device) | not executed; high | Ownership.TeardownAsWrittenFails | Ownership.TeardownSucceeds |

`Ownership.TeardownAsWritten` is the destructor order as written. `Ownership.Teardown` is the corrected order, and `Sessions.Session.Destroy` uses it.
