/** The failures the core can raise, and the Result and Option wrappers
    that carry them. The core defines no exception classes of its own: every
    failure is one that Python, numpy or Qt raises on a bad argument, and
    each constructor below names the situation and the Python class. */
module Failures {

  datatype Error =
    | EmptyMax              // ValueError: max() of an empty sequence
    | EmptyConcatenate      // ValueError: need at least one array to concatenate
    | ZeroDimConcatenate    // ValueError: zero-dimensional arrays cannot be concatenated
    | ConcatenateMismatch   // ValueError: array dimensions except the concatenation axis must match
    | BadReshape            // ValueError: cannot reshape array of size n into a shape
    | TooManyIndices        // IndexError: too many indices for array
    | IndexOutOfRange       // IndexError: index out of bounds
    | MissingKey            // KeyError: a disabled cell of the checkbox grid
    | NoItem                // AttributeError: 'NoneType' object (no Qt item at that row and column)
    | BadAxis               // numpy AxisError: axis out of bounds for a zero-dimensional array
    | EmptyArgmax           // ValueError: attempt to get argmax of an empty sequence
    | EmptyDialogInput      // ValueError: rows, cols, and state should be non-empty
    | EstimatorError        // whatever the wrapped estimator itself raises

  datatype Result<+T> = Ok(value: T) | Err(error: Error)

  datatype Option<+T> = None | Some(value: T)
}
