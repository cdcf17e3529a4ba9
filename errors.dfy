/**
 * The failures of the template operations. Each corresponds to an
 * `anyhow` error the Rust code returns with `?`; conditions under which
 * the Rust code panics (`unwrap`, amount underflow) are preconditions of
 * the model instead.
 */
module Errors {

  datatype Error =
    | InvalidAddressForNetwork  // `require_network` rejected an address
    | DataTooLarge              // a data output does not fit in one script push
    | MissingSequence           // a template without a sequence cannot spend

  datatype Result<+T> = Ok(value: T) | Err(error: Error)
}
