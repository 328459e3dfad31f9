/** The plain value types of libusbcc.h and the libusb descriptor record they are read from. */
module UsbTypes {

  newtype u8 = x: int | 0 <= x < 0x100
  newtype u16 = x: int | 0 <= x < 0x1_0000

  // enum class USBVersion: uint16_t (libusbcc.h:36-41), values of bcdUSB.
  const V_1_1: u16 := 0x0110
  const V_2_0: u16 := 0x0200
  const V_3_0: u16 := 0x0300

  /** The three versions USBVersion names. */
  const KnownVersions: set<u16> := {V_1_1, V_2_0, V_3_0}

  /** ControlTransfer: the request code and the value and index words of a control request. */
  datatype ControlTransfer = ControlTransfer(request: u8, value: u16, index: u16)

  /**
   * libusb_device_descriptor, the fixed record Device::descriptor() caches.
   * Device class, subclass and protocol are plain bytes.
   */
  datatype DescriptorRecord = DescriptorRecord(
    bLength: u8,
    bDescriptorType: u8,
    bcdUSB: u16,
    bDeviceClass: u8,
    bDeviceSubClass: u8,
    bDeviceProtocol: u8,
    bMaxPacketSize0: u8,
    idVendor: u16,
    idProduct: u16,
    bcdDevice: u16,
    iManufacturer: u8,
    iProduct: u8,
    iSerialNumber: u8,
    bNumConfigurations: u8)

  /** The value-initialised record `libusb_device_descriptor()`. */
  const ZeroRecord: DescriptorRecord := DescriptorRecord(0, 0, 0, 0, 0, 0, 0, 0, 0, 0, 0, 0, 0, 0)
}
