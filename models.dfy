/** The two record shapes of the tracker, their field constraints, their string forms,
    and the foreign key from Task to Project with its delete rule. */
module Models {
  /** Declared max_length of Project.name and Task.title. */
  const MaxLength: nat := 200

  /** A Project row without its id (the id is the key of the table). */
  datatype Project = Project(name: string, description: string)

  /** A Task row without its id; `project` is the id of the owning Project and
      `date` is a timestamp (seconds of some monotone clock). */
  datatype Task = Task(title: string, description: string, done: bool, date: nat, project: nat)

  predicate ValidProject(p: Project) { |p.name| <= MaxLength }

  predicate ValidTask(t: Task) { |t.title| <= MaxLength }

  /** Task(...) as the model's constructor builds it: `done` defaults to false and `date`
      is the creation time (auto_now_add). */
  function NewTask(title: string, description: string, project: nat, now: nat, done: bool := false): Task
  {
    Task(title, description, done, now, project)
  }

  /** A task built without an explicit `done` is pending. */
  lemma NewTaskIsPending(title: string, description: string, project: nat, now: nat)
    ensures !NewTask(title, description, project, now).done
  {
  }

  /** Project.__str__. */
  function ProjectStr(p: Project): string
  {
    p.name
  }

  /** Task.__str__, given the project the task's foreign key points at. */
  function TaskStr(t: Task, owner: Project): (r: string)
    ensures |r| == |t.title| + 3 + |owner.name|
    ensures r[..|t.title|] == t.title
    ensures r[|t.title|..|t.title| + 3] == " - "
    ensures r[|t.title| + 3..] == owner.name
  {
    t.title + " - " + ProjectStr(owner)
  }

  /** The ForeignKey constraint: every task's project is a row of the Project table. */
  ghost predicate ForeignKeysHold(projects: map<nat, Project>, tasks: map<nat, Task>)
  {
    forall id :: id in tasks ==> tasks[id].project in projects
  }

  /** on_delete=CASCADE: the tasks that survive deleting project `p`. */
  function Cascade(tasks: map<nat, Task>, p: nat): (r: map<nat, Task>)
    ensures forall id :: id in r ==> id in tasks && r[id] == tasks[id] && r[id].project != p
    ensures forall id :: id in tasks && tasks[id].project != p ==> id in r
  {
    map id | id in tasks && tasks[id].project != p :: tasks[id]
  }

  /** Deleting a project together with its cascade keeps every foreign key valid. */
  lemma CascadeKeepsForeignKeys(projects: map<nat, Project>, tasks: map<nat, Task>, p: nat)
    requires ForeignKeysHold(projects, tasks)
    ensures ForeignKeysHold(projects - {p}, Cascade(tasks, p))
  {
  }
}
