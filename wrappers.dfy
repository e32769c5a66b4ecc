/** Failure-carrying result types used for the archives' exceptions. */
module Wrappers {

  datatype Option<+T> = None | Some(value: T)

  datatype Result<+T, +E> = Success(value: T) | Failure(error: E)

  /** The outcome of an operation that returns nothing but may throw. */
  datatype Outcome<+E> = Pass | Fail(error: E)
}

/** The stack operations both archives perform on their `std::stack`/`std::vector` members. */
module Stacks {

  /** The top of a stack kept as a sequence whose last element is the top. */
  function Last<T>(s: seq<T>): T
    requires |s| > 0
  {
    s[|s| - 1]
  }

  /** Everything but the top. */
  function Pop<T>(s: seq<T>): seq<T>
    requires |s| > 0
  {
    s[..|s| - 1]
  }

  /** The stack with its top replaced, as `stack.top() = x` does. */
  function WithTop<T>(s: seq<T>, x: T): (r: seq<T>)
    requires |s| > 0
    ensures |r| == |s| && Last(r) == x && Pop(r) == Pop(s)
  {
    Pop(s) + [x]
  }
}
