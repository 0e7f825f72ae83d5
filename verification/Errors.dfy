/** The client's error values (zk/constants.go:102-141, zk/lock.go:10-15, zk/structs.go:13-17). */
module Errors {
  datatype Error =
    | ErrConnectionClosed | ErrSessionExpired | ErrClosing | ErrNoServer
    | ErrNoNode | ErrNodeExists | ErrAPIError
    | ErrDeadlock | ErrNotLocked | ErrInvalidPath
    | ErrShortBuffer | ErrUnhandledFieldType
    | ErrSyntax                 // strconv.Atoi
    | ErrOther(code: int)       // any other server code, I/O or dial error

  datatype Reply<+T> = Ok(value: T) | Err(error: Error)
}
