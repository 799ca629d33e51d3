module StatusCodes {
  /** Status in include/berrydb/status.h */
  datatype Status = Success | IoError | NotFound | AlreadyLocked | AlreadyExists
                  | AlreadyClosed | PoolFull | DataCorrupted | DatabaseTooLarge
}
