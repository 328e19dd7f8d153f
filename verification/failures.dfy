/** The recoverable errors of the spreadsheet: each one is an
    IllegalArgumentException in the program, caught per instruction. */
module Failures {

  datatype Error =
    | NegativeCoordinate   // a negative row or column reached the grid
    | InvertedRegion       // a region whose end precedes its start
    | InvalidRow           // a row token holding a non-letter character

  /** The exception message carried by each error. */
  function Message(e: Error): string {
    match e
    case NegativeCoordinate => "Row or column cannot be negative"
    case InvertedRegion => "End coordinates must be greater than or equal to start coordinates"
    case InvalidRow => "Invalid row"
  }
}
