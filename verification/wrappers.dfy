/** Optional values: JavaScript's `undefined`/`null` on a field, a `find` that
    matched nothing, a parse that produced `NaN`. */
module Wrappers {

  datatype Option<+T> = None | Some(value: T) {

    /** The value, or `default` when absent (JavaScript's `??`). */
    function GetOr(default: T): T {
      match this
      case Some(v) => v
      case None => default
    }
  }

  /** JavaScript truthiness of an optional string: present and non-empty. */
  predicate Truthy(s: Option<string>) {
    s.Some? && |s.value| > 0
  }

  /** `a || b` on optional strings: `a` when it is truthy, otherwise `b`. */
  function OrElse(a: Option<string>, b: Option<string>): Option<string> {
    if Truthy(a) then a else b
  }

  /** `a || fallback`, where the fallback is a definite string. */
  function OrDefault(a: Option<string>, fallback: string): string {
    if Truthy(a) then a.value else fallback
  }
}
