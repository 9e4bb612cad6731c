/**
 * Property lookup on a JavaScript object literal: `obj[key]` finds the
 * object's own entries and also the names every object inherits from
 * `Object.prototype`, whose values are functions (or, for `__proto__`, the
 * prototype object itself) and so are truthy.
 */
module JsObjects {
  /** The property names an object literal inherits from `Object.prototype`. */
  const InheritedNames: set<string> := {
    "constructor", "__proto__", "__defineGetter__", "__defineSetter__", "__lookupGetter__",
    "__lookupSetter__", "hasOwnProperty", "isPrototypeOf", "propertyIsEnumerable",
    "toLocaleString", "toString", "valueOf"
  }
}
