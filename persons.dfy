/** The person record exchanged between the component and the person service. */
module Persons {

  /** A person as the backend stores it; `id` 0 marks a record the backend has not numbered yet. */
  datatype Person = Person(id: int, firstName: string, lastName: string, email: string)

  /** A value or nothing, for the service's `Person | undefined` results. */
  datatype Option<T> = None | Some(value: T)
}
