/** An optional value: the result of reading a form control that may hold
    nothing (jQuery's `.val()` yields null or undefined in that case). */
module Wrappers {

  datatype Option<+T> = None | Some(value: T)

}
