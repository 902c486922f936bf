/** The JavaScript values that settings and fetched items can hold, with truthiness and String(). */
module Js {
  import opened Dom

  datatype Value = VStr(str: string) | VBool(b: bool) | VNull | VUndefined | VElement(element: Element)

  /** An object's own properties. */
  type Object = map<string, Value>

  /** JavaScript truthiness: the empty string, false, null and undefined are falsy. */
  predicate Truthy(v: Value)
  {
    match v
    case VStr(s) => s != ""
    case VBool(b) => b
    case VNull => false
    case VUndefined => false
    case VElement(_) => true
  }

  /** String(v), as template interpolation and string concatenation apply it. */
  function ToStr(v: Value): (r: string)
    ensures v.VStr? ==> r == v.str
    ensures Truthy(v) ==> r != ""
  {
    match v
    case VStr(s) => s
    case VBool(b) => if b then "true" else "false"
    case VNull => "null"
    case VUndefined => "undefined"
    case VElement(_) => "[object HTMLElement]"
  }

  /** Property read: a missing key reads as undefined. */
  function Get(o: Object, key: string): (r: Value)
    ensures key !in o ==> r == VUndefined
    ensures key in o ==> r == o[key]
  {
    if key in o then o[key] else VUndefined
  }

  /** a + b where at least one operand converts to a string. */
  function Concat(a: Value, b: Value): (r: string)
    ensures |r| == |ToStr(a)| + |ToStr(b)|
    ensures r[..|ToStr(a)|] == ToStr(a) && r[|ToStr(a)|..] == ToStr(b)
  {
    ToStr(a) + ToStr(b)
  }
}
