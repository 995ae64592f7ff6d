/** The result of a resolver: a value, or the DoesNotExist error raised by a failed lookup by id. */
module Outcomes {
  /** Which model's lookup failed: Django raises Project.DoesNotExist and Task.DoesNotExist separately. */
  datatype Kind = ProjectModel | TaskModel

  datatype Outcome<T> = Ok(value: T) | NotFound(model: Kind)
}
