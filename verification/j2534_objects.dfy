/**
 The small J2534 vocabulary the simulation and session code share: instance
 status, API version, and the filter record a channel or a reader
 configuration holds.
 */
module J2534Objects {
  import opened Base

  /** Status of a DLL, a device, a session or a filter. */
  datatype PTInstanceStatus = NULL | INITIALIZED

  /** The J2534 API version a DLL or device implements. */
  datatype JVersion = V0404 | V0500

  /** A message filter of a channel: type, flags, status, mask, pattern, flow-control pattern and id. */
  datatype J2534Filter = J2534Filter(
    filterType: string,
    filterFlags: uint32,
    filterStatus: PTInstanceStatus,
    filterMask: string,
    filterPattern: string,
    filterFlowCtl: string,
    filterId: uint32)
}
