/** Failure-carrying wrappers and the keyword-argument values shared by the
    provider factory, the configuration store and the pipeline. */
module Common {

  datatype Option<+T> = None | Some(value: T)

  /** The outcome of an operation that the source either completes or aborts
      by raising an exception. */
  datatype Result<+R, +E> = Success(value: R) | Failure(error: E)

  /** A keyword-argument value as it appears in a provider's settings
      (`dimension=512`, `model="text-embedding-3-small"`). */
  datatype Setting = IntValue(n: int) | TextValue(s: string)

  /** Keyword arguments (`**kwargs`), keyed by parameter name. */
  type Kwargs = map<string, Setting>
}
