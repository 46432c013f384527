/** Optional values, results, and the failures a bundle build can report. */
module Wrappers {

  datatype Option<T> = None | Some(value: T)

  /** The kinds of failure the builder passes to its completion callback. */
  datatype Error =
    | StatFailed(path: string)   // the modification time of a local file could not be read
    | ReadFailed(path: string)   // a local file (or a nested bundle's output) could not be read
    | FetchFailed(url: string)   // a remote entry could not be fetched
    | HookFailed(name: string)   // the extension hook reported an error for this entry

  datatype Result<T> = Ok(value: T) | Err(error: Error)
}
