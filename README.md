# Project/task tracker store, modelled in Dafny

The tracker keeps two tables, Project and Task. Every Task has a mandatory foreign key
to its Project, and deleting a Project cascades to its Tasks. Eleven GraphQL resolvers
read and write the tables: four queries (`projects`, `tasks`, `project(id)`, `task(id)`)
and seven mutations (create, update and delete for each entity, plus `changeStateTask`,
which flips `Task.done`).

The model has four modules:

- `Outcomes` (outcomes.dfy) is a resolver's result: `Ok(value)` or `NotFound(model)`.
  It mirrors Django's `Project.DoesNotExist` and `Task.DoesNotExist`. The model is kept,
  so the order of lookups in `updateTask` is observable.
- `Models` (models.py) has the record shapes and the 200-character limit on
  `name`/`title`. It also has the `done=False` default and the creation date, both
  `__str__` methods, the foreign-key constraint and the `CASCADE` rule as a function
  on the Task table.
- `Tables` reads a whole table the way `objects.all()` does: each row exactly once, in
  an order the database picks.
- `Schema` (schema.py) holds the `Store` class. Its fields are `projects: map<nat, Project>`,
  `tasks: map<nat, Task>`, one auto-increment counter per table and a ghost `clock`.
  Each resolver is a method of `Store`. `Store.Valid()` is the invariant that every
  mutation keeps. It covers referential integrity, ids below their counter, the declared
  lengths, and every task's date being no later than `clock`.

A failed lookup returns `NotFound` and leaves the store unchanged. Every mutation states
its whole new state (both tables, both counters and the clock), so "only this row
changes" is part of its postcondition. A null id, as in `project(id: null)` or
`updateTask(project_id: null)`, reaches `objects.get(pk=None)`, which matches no row.
The model writes it as `Schema.NullId` (0). Ids are handed out from 1 and `Valid()`
keeps 0 out of both tables, so a lookup with it returns `NotFound` like any absent id.

## Model

| member | source | states |
|---|---|---|
| Models.TaskStr | app/models.py:21-22 | a task's string form is its title, then " - ", then its project's string form |
| Models.Cascade | app/models.py:19 | after a cascade, exactly the tasks that did not reference the deleted project remain, each one unchanged |
| Models.CascadeKeepsForeignKeys | app/models.py:19 | removing a project together with its cascade keeps every remaining task's project key valid |
| Tables.AllRows | app/schema.py:36-40 | `objects.all()` yields every row of the table once, paired with its id, and nothing else |
| Schema.Store.ResolveProjects | app/schema.py:36-37 | query `projects` lists every stored project once and changes nothing |
| Schema.Store.ResolveTasks | app/schema.py:39-40 | query `tasks` lists every stored task once and changes nothing |
| Schema.Store.ResolveProject | app/schema.py:42-43 | query `project(id)` succeeds exactly when the id is stored and returns that row; otherwise it is Project.DoesNotExist; the store is unchanged |
| Schema.Store.ResolveTask | app/schema.py:45-46 | query `task(id)` succeeds exactly when the id is stored and returns that row; otherwise it is Task.DoesNotExist; the store is unchanged |
| Schema.Store.ProjectLabel | app/models.py:10-11 | `Project.__str__` of a stored project is its name, and is at most 200 characters because every stored row keeps the declared length |
| Schema.Store.TaskLabel | app/models.py:21-22 | `Task.__str__` of a stored task is always defined, because the task's project is stored, and is at most 403 characters |
| Schema.Store.CreateProject | app/schema.py:56-59 | adds exactly one project with the given name and description under the table's next id, which is then advanced, so no id is handed out twice; all other rows, the Task counter and the clock are unchanged |
| Schema.Store.CreateTask | app/schema.py:72-77 | fails with Project.DoesNotExist and changes nothing if the project is absent; otherwise adds exactly one task with the given title, description, done and project, dated `now` by auto_now_add (app/models.py:18), under the Task table's next id; the clock moves to `now`; the invariant is kept |
| Schema.Store.DeleteProject | app/schema.py:86-89 | fails with Project.DoesNotExist and changes nothing if the project is absent; otherwise removes it, cascades to its tasks, and returns its former fields; the invariant is kept |
| Schema.Store.DeleteTask | app/schema.py:98-101 | fails with Task.DoesNotExist and changes nothing if the task is absent; otherwise removes only that task and returns "Task deleted" |
| Schema.Store.UpdateProject | app/schema.py:112-117 | fails with Project.DoesNotExist and changes nothing if the project is absent; otherwise overwrites both name and description of that row only |
| Schema.Store.UpdateTask | app/schema.py:130-139 | looks up the project first, then the task, and fails with the matching DoesNotExist while changing nothing; otherwise overwrites every field of that task only, and sets its date to `now`, which is no earlier than the old date |
| Schema.Store.ChangeStateTask | app/schema.py:148-155 | fails with Task.DoesNotExist and changes nothing if the task is absent; otherwise flips only that task's `done` |
| Schema.Toggled | app/schema.py:150-153 | the toggled record has the opposite `done`; title, description, date and project are kept |
| Schema.ToggledInvolutive | app/schema.py:150-153 | toggling twice gives back the original record |
| Schema.ChangeStateTwice | app/schema.py:148-155 | two `changeStateTask` calls on one id leave both tables as they were |
| Schema.CreateThenFetch | app/schema.py:56-59 | in any valid store, fetching a just-created project by its returned id gives back its name and description |
| Schema.DeletedIdNotReused | app/schema.py:86-89 | in any valid store, a project created after another was deleted gets a different id, and the deleted id stays absent |
| Schema.EndToEnd | app/schema.py:72-89 | create P1, create T1 in P1, toggle T1: T1 is done; updating T1 re-dates it; after P1 is deleted, `task(T1)` is Task.DoesNotExist |

## Left out

- GraphQL plumbing is not modelled. That means the graphene type classes, argument
  declarations, `Query`/`Mutation` composition and the schema object (app/schema.py:7-27,
  app/schema.py:158-168). They only dispatch by name.
- Django persistence is not modelled: the database, migrations and connections. The ORM's
  `get`/`save`/`delete` and the cascade are taken as map lookup, map update and map
  removal.
- Time is the `now` parameter of `CreateTask` and `UpdateTask`. In `CreateTask` it stands
  for the value of Django's `timezone.now()` at insert, which `auto_now_add` fills in
  (app/models.py:18). In
  `UpdateTask` it stands for the naive `datetime.now()` of app/schema.py:137. The ghost
  `clock` records the latest such time. The model assumes time never goes backwards
  between requests (`requires clock <= now`).
- Schema.Store.UpdateTask: its "new date is no earlier than the old one" holds because
  both clocks are treated as one. The model does not capture a naive local time being
  read in another time zone, which can store a date earlier than the creation date.
- Ids are natural numbers handed out by one counter per table, starting at 1. The
  coercion of graphene `ID` strings is not modelled.
- The model does not fix the order of `objects.all()`. The listing methods promise only
  that each row appears exactly once.
- Schema.Store.DeleteProject: returns only the deleted project's name and description,
  not its id, because Django clears the primary key of a deleted instance.
- Omitted arguments and null strings or booleans are not modelled. An argument that
  `mutate` requires but the request omits ends in a Python `TypeError`. A null `title`,
  `name`, `description` or `done` ends in a database integrity error when the row is
  saved. Neither is a resolver result.
- Schema.Store.CreateProject: requires `|name| <= 200`, and `UpdateProject`, `CreateTask`
  and `UpdateTask` require the same of `name`/`title`. This mirrors `max_length=200`.
  `save()` does not check it itself, and whether the database rejects a longer value
  depends on the backend.
- Models.NewTask: the `done=False` default (app/models.py:17) is kept only as that
  function's default parameter. No resolver reaches it, because `createTask` always
  passes `done` explicitly (app/schema.py:74-75).
- Concurrent requests and last-write-wins are not modelled. Each resolver is one
  sequential step.
