/** Option and Result values standing in for Java's null and for the
    exceptions the generator throws. */
module Outcomes {

  datatype Option<+T> = None | Some(value: T)

  /** The failures the modelled code can end in. Java throws them as
      exceptions (or runs out of stack); here they are returned. */
  datatype Error =
    | EmptyProductionSide   // Production.create: left side null or right side empty
    | NoProductions         // Grammar.creat: empty production list
    | StartMismatch         // Grammar.creat: first left side is not the start symbol
    | DotAtEnd              // ProductionItem.create(item): dot already at the end
    | IndexOutOfBounds      // a list or string index outside its bounds
    | NullPointer           // a missing map entry or an uninitialised memo dereferenced
    | StackOverflow         // unbounded recursion (indirect left recursion in FIRST)

  datatype Result<+T> = Ok(value: T) | Err(error: Error)
}
