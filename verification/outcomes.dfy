/** Optional values, the exceptions the widget code can raise, and results that carry them. */
module Outcomes {

  datatype Option<+T> = None | Some(value: T)

  /** The exceptions raised while building and registering widgets, named after their cause. */
  datatype Error =
    | TitleNotText          // `.split` on a title that is not a string (AttributeError)
    | MissingName           // `name[1]` on a title without a `.` (IndexError)
    | EmptyDropdown         // a dropdown without options (ValueError)
    | SliderArity(count: nat) // a slider with neither 4 nor 5 parameters (SyntaxError)
    | NotANumber            // `float(...)` of a parameter that is no number (ValueError, TypeError)
    | NoTitle               // `.title` of an entry that is a list, not a control (AttributeError)

  /** Either a value or the exception that aborted the computation. */
  datatype Result<+T> = Ok(value: T) | Err(error: Error)
}
