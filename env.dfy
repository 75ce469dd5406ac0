/** Values exchanged with the hosting platform and the local machine:
    file contents, HTTP-like status codes and the pauses the program makes.
    The platform's client library, the clock and the file system are not
    modelled; what the program observes from them is given as these values. */
module Env {

  /** One byte of a file's contents. */
  newtype byte = x: int | 0 <= x < 256

  /** The decoded contents of a blob, kept opaque. */
  type Bytes = seq<byte>

  /** The status codes the program treats as transient server errors. */
  predicate Is5xx(status: int)
  {
    500 <= status < 600
  }

  /** The two quota classes the program waits on. */
  datatype Resource = Search | Core

  /** A suspension of the program: a fixed sleep of some seconds, or a wait
      until the platform's quota for a resource class resets (its length is
      computed from the platform's clock and is not modelled). */
  datatype Pause = Sleep(seconds: nat) | QuotaWait(resource: Resource)
}
