/** The exceptions the facade and the manager raise, as values. */
module Errors {

  datatype FsError =
    /** FileNotFoundException: a read of `path` failed in the driver. */
    | FileNotFound(path: string)
    /** FileWriteException: a write of `path` failed in the driver. */
    | FileWrite(path: string)
    /** InvalidDiskException: `disk` has no usable configuration or an unknown driver kind. */
    | InvalidDisk(disk: string)
    /** The RuntimeException raised when the S3 adapter package is not installed. */
    | MissingS3Adapter
    /** The TypeError PHP raises under strict types when configuration entry `key`
        is passed to a `string` parameter but does not hold a string. */
    | ConfigType(key: string)
}
