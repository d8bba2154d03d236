/**
 * What a plain JavaScript object literal inherits from `Object.prototype`:
 * the property names every such object answers, and the text a template
 * string gives for the inherited value.
 */
module JsObjects {

  /** The one property name whose assignment replaces the prototype instead of adding a property. */
  const ProtoKey := "__proto__"

  /** The properties every plain object inherits from `Object.prototype`. */
  const ObjectPrototypeMembers: set<string> := {
    "constructor", "__defineGetter__", "__defineSetter__", "hasOwnProperty",
    "__lookupGetter__", "__lookupSetter__", "isPrototypeOf", "propertyIsEnumerable",
    "toString", "valueOf", "__proto__", "toLocaleString" }

  /**
   * `${value}` for the inherited member `name`: `Object.prototype` itself
   * prints as `[object Object]`, a built-in method as its native-function text
   * (`constructor` is the function `Object`).
   */
  function InheritedText(name: string): (r: string)
    ensures |r| > 0
    ensures name == ProtoKey ==> r == "[object Object]"
    ensures name != ProtoKey ==> r[0] == 'f'
  {
    if name == ProtoKey then "[object Object]"
    else if name == "constructor" then NativeFunctionText("Object")
    else NativeFunctionText(name)
  }

  /** The text of a built-in function: `function name() { [native code] }`. */
  function NativeFunctionText(name: string): (r: string)
    ensures |r| == |name| + 29 && r[..9] == "function "
  {
    "function " + name + "() { [native code] }"
  }
}
