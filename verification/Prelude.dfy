/** Shared result types. */
module Prelude {
  datatype Option<+T> = None | Some(value: T)

  function OrElse<T>(a: Option<T>, b: T): T {
    if a.Some? then a.value else b
  }

  /**
    Guards a definition: `forall u :: Key(l, u) ==> P` is unfolded only where some Key(l, u) is
    mentioned, which keeps large definitions out of proofs that do not need them.
   */
  datatype Lock = ViewLock | ChainLock | AppendLock | ReadLock | LogLock | FoldLock | TailLock | UseLock | ListLock

  ghost predicate Key(l: Lock, u: nat) { true }

  datatype Result<+T> = Ok(value: T) | Err(error: string)
}
