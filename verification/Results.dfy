/** Result codes and limits shared by the engine's modules. */
module Results {

  const MAX_CHUNK_SIZE := 900000000
  const MAX_CHUNK_COUNT := 500
  const INT_MAX := 0x7FFF_FFFF

  datatype Code =
    | Ok
    | Handle
    | MustBeNull
    | MustBeZero
    | InvalidArg
    | Overflow
    | NoMountedDatabase
    | MountedDatabase
    | TransactionPending
    | WrongSessionType
    | NoKeyForSession
    | KeyIsDecryptOnly
    | KeyIsRevoked
    | KeyIsTooSmall
    | InsufficientKeyBytesRemain
    | OffsetPlusSizeExceedsTotal
    | KeyOffsetOverflow
    | ChunkOffsetOverflow
    | ChunkSizeOverflow
    | MaximumKeySizeExceeded
    | CacheIsTooSmall
    | NoCache
    | NoStorage
    | KeyNotFound
    | InvalidChunkId
    | NoKeyDatabaseForSession
    | Started
    | SocketFailure
    | OutOfMemory
    | OutOfQueueBuffers
    | InvalidQueueBuffer
    | AlreadyInsertedIntoQueue
    | FileFailure        // any error code of the file system
    | StoreFailure       // any result code of the storage library

  datatype Option<+T> = None | Some(value: T)

  function Min(a: nat, b: nat): nat
  {
    if a <= b then a else b
  }
}
