/** The ways an operation of the crawler can fail. The source raises Python
    exceptions; here each one becomes a value that the caller inspects. */
module Errors {

  datatype Failure =
    | FetchFailed          // `parse(url)` could not fetch or parse the page (IOError)
    | NoTable              // no data table on a commission page (`assert len(table)`)
    | NoRows               // the data table has no rows (`assert len(rows)`)
    | NotAnInteger         // `int(...)` of a cell or field that is not a number (ValueError)
    | WrongRowCount        // the table does not have exactly 27 rows
    | NotASeparator(row: nat)  // original row 0 or 19 holds bold cells
    | RaggedRow            // a remaining row's width differs from the number of labels
    | WriteFailed          // the output stream refused a write
    | AmbiguousLeaf        // more than one commission-site link on a region page
    | MissingHref          // an anchor without `href` (`None.startswith`, AttributeError)
    | MissingText          // a kept anchor without text (`prefix + None`, TypeError)
    | MissingField         // an index past the end of a record's fields (IndexError)

  datatype Result<+T> = Ok(value: T) | Err(error: Failure)
}
