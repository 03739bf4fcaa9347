/**
 * What passes between the controller and the todo API: the requests the
 * controller issues and the single reply each request produces.
 */
module Http {
  import opened Todos

  /** Each request ends in exactly one success with a payload, or one failure. */
  datatype Reply<T> = Success(payload: T) | Failure

  /**
   * A request to the todo endpoint: GET of the whole list, POST of a new
   * record's name and date (its id is not sent), PUT of a full record under
   * its id, DELETE of an id.
   */
  datatype Request =
    | GetAll
    | Post(taskName: string, taskDate: Date)
    | Put(id: int, todo: Todo)
    | Delete(id: int)
}
