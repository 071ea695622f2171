/** The optional value of JavaScript's `undefined`-or-value results (`Array.prototype.pop`,
    `Array.prototype.find`, `?.` chains). */
module Wrappers {

  datatype Option<+T> = None | Some(value: T)

}
