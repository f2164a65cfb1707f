/** The world around one statement of a program that shares its database with others. */
module Scheduling {

  /** What others get done before the statement takes effect, and whether it then fails for an
      outside reason. A statement that still has to wait after that runs into its deadline. */
  datatype Turn<E> = Turn(others: seq<E>, fault: bool)
}
