/** The two ways a solve can stop without a score vector, as values.
    `EmptyGraph` is the `ZeroDivisionError` of `1.0 / N` with no nodes.
    `ZeroRawSum` is a zero raw sum in `normalize`: on plain floats that division
    raises, but inside the solver the scores are numpy floats, and the division
    gives infinite or NaN scores instead. Exact reals have neither value, so the
    model stops with this error. */
module Results {

  datatype Error =
    | EmptyGraph   // `1.0 / N` with no nodes, when the initial vector is built
    | ZeroRawSum   // `target / raw` in `normalize` when the scores sum to zero

  datatype Result<T> = Ok(value: T) | Err(error: Error)
}
