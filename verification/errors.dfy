/** The exception kinds the modelled core raises. */
module Errors {

  /** Why a firmware transfer failed: the device refused the connection, or any other fault. */
  datatype TransferCause = ConnectionRefused | TransportFault

  datatype Error =
    // Device client errors of ecopilot_api/errors.py
    | RequestError
    | InvalidUserNameError
    | ResponseError
    | NotFoundError
    | UnsupportedError
    | UnauthorizedError
    // Firmware update errors of ecopilot_api/errors.py
    | MetadataError
    | DownloadError
    | IntegrityError
    | TransferError(cause: TransferCause)
    // Failure of the body decoder (mashumaro / orjson), whichever class it raises
    | DecodeError
    // Python built-in exceptions that the core lets escape
    | ValueError
    | TypeError
    | AttributeError
    // `asyncio.TimeoutError`, which the firmware download does not catch
    | TimeoutError
}
