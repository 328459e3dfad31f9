/**
 * Session::is_error and the exceptions built from native status codes
 * (libusbcc.cc:382-408, libusbcc.h:66-80).
 */
module Status {

  // The libusb_error values of libusb.h.
  const Success: int := 0
  const ErrorIo: int := -1
  const ErrorInvalidParam: int := -2
  const ErrorAccess: int := -3
  const ErrorNoDevice: int := -4
  const ErrorNotFound: int := -5
  const ErrorBusy: int := -6
  const ErrorTimeout: int := -7
  const ErrorOverflow: int := -8
  const ErrorPipe: int := -9
  const ErrorInterrupted: int := -10
  const ErrorNoMem: int := -11
  const ErrorNotSupported: int := -12
  const ErrorOther: int := -99

  /** The thirteen codes that is_error lists as failures. */
  const ErrorCodes: set<int> :=
    {ErrorIo, ErrorInvalidParam, ErrorAccess, ErrorNoDevice, ErrorNotFound, ErrorBusy, ErrorTimeout,
     ErrorOverflow, ErrorPipe, ErrorInterrupted, ErrorNoMem, ErrorNotSupported, ErrorOther}

  /**
   * Session::is_error: a switch over the status with LIBUSB_SUCCESS mapped to false,
   * the thirteen listed errors to true and every other value (byte counts, unknown
   * negative values) to false.
   */
  function IsError(status: int): (r: bool)
    ensures r <==> status in ErrorCodes
    ensures status >= Success ==> !r
    ensures r ==> ErrorOther <= status <= ErrorIo
  {
    if status == Success then false
    else if status == ErrorIo || status == ErrorInvalidParam || status == ErrorAccess
         || status == ErrorNoDevice || status == ErrorNotFound || status == ErrorBusy
         || status == ErrorTimeout || status == ErrorOverflow || status == ErrorPipe
         || status == ErrorInterrupted || status == ErrorNoMem || status == ErrorNotSupported
         || status == ErrorOther then true
    else false
  }

  /** is_error names exactly thirteen distinct codes. */
  lemma ErrorCodeCount()
    ensures |ErrorCodes| == 13
  {
  }

  /**
   * The exceptions of the library. StatusException carries the libusb_error it was
   * built from; std::throw_with_nested wraps a cause in an Exception with a context text;
   * std::vector::resize throws std::length_error for a size beyond max_size().
   */
  datatype Error =
    | StatusError(code: int)
    | LengthError
    | Nested(context: string, cause: Error)

  const SizeModulus: int := 0x1_0000_0000_0000_0000
  const IntModulus: int := 0x1_0000_0000

  /** The range of ssize_t, the type libusb_get_device_list returns. */
  predicate IsSsize(n: int)
  {
    -0x8000_0000_0000_0000 <= n < 0x8000_0000_0000_0000
  }

  /** Conversion of an ssize_t to size_t (modulo 2^64). */
  function AsSize(n: int): (r: nat)
    requires IsSsize(n)
    ensures r < SizeModulus
    ensures n >= 0 ==> r == n
    ensures n < 0 ==> r == n + SizeModulus
  {
    n % SizeModulus
  }

  /** Conversion of a size_t to the 32-bit int parameter of is_error: the low 32 bits, read as two's complement. */
  function AsInt(n: nat): (r: int)
    ensures -0x8000_0000 <= r < 0x8000_0000
    ensures (n - r) % IntModulus == 0
  {
    var low := n % IntModulus;
    if low < 0x8000_0000 then low else low - IntModulus
  }

  /** A count that fits in an int reaches is_error unchanged, and so does every libusb_error. */
  lemma ConversionKeepsCodes(n: int)
    requires IsSsize(n)
    requires 0 <= n < 0x8000_0000 || n in ErrorCodes
    ensures AsInt(AsSize(n)) == n
  {
    if n < 0 {
      assert AsSize(n) % IntModulus == n + IntModulus;
    }
  }
}
