/** Option and Result values, and the errors the sync tool can raise. */
module Wrappers {

  datatype Option<+T> = None | Some(value: T)

  datatype Result<+T, +E> = Ok(value: T) | Err(error: E)

  /** One constructor per exception the core raises (or lets escape). */
  datatype Error =
    | ArgumentCount(given: nat)      // TypeError: a row with the wrong number of fields
    | IndexOutOfRange                // IndexError: `row[1]` on a row with fewer than two fields
    | BadTime(text: string)          // ValueError: strptime rejects the text
    | DateOverflow                   // OverflowError: a shifted date before 0001-01-01
    | BadLiteral(text: string)       // ValueError: int() rejects the text
    | NoSuchFile(path: string)       // RuntimeError "File '<path>' does not exist"
    | UndetectedSource               // RuntimeError "Could not detect source"
    | UnknownBudget(name: string)    // ValueError "Invalid budget: <name>"
    | UnknownAccount(name: string)   // ValueError "Invalid account: <name>"
    | EmptyBatch                     // RuntimeError "No transactions to upload"
    | BadEndpoint                    // ValueError "Endpoint must begin with /"
    | HttpFailure(url: string)       // raise_for_status on an unsuccessful response
}
