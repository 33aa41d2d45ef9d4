/** The JavaScript values the routers and registries receive from their callers. */
module Js {

  /** An argument typed `string` in the source but not checked by the type
      system at run time: a real string, or some other value together with the
      text it turns into when used as a property key (`String(value)`). */
  datatype Arg = Str(s: string) | Other(asKey: string)

  /** The property key an argument denotes in `key in object` or `object[key]`. */
  function Key(a: Arg): (k: string)
    ensures a.Str? ==> k == a.s
  {
    match a
    case Str(s) => s
    case Other(k) => k
  }

  /** A value passed where a function is expected: not a function at all, or a
      function identified by `id` whose calls throw when `throws` holds. */
  datatype Callback = NotAFunction | Function(id: nat, throws: bool)
}
