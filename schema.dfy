/** The queries and mutations of the API, over a store holding the two tables. */
module Schema {
  import opened Outcomes
  import opened Models
  import Tables

  /** Fixed reply of deleteTask. */
  const TaskDeleted: string := "Task deleted"

  /** The record changeStateTask saves: `done` flipped, every other field kept. */
  function Toggled(t: Task): (r: Task)
    ensures r.done == !t.done
    ensures r.title == t.title && r.description == t.description
    ensures r.date == t.date && r.project == t.project
  {
    if t.done then t.(done := false) else t.(done := true)
  }

  /** Toggling twice restores the original task. */
  lemma ToggledInvolutive(t: Task)
    ensures Toggled(Toggled(t)) == t
  {
  }

  /** Stands for a null id argument: `objects.get(pk=None)` matches no row. Ids are handed
      out from 1, so this one is never stored. */
  const NullId: nat := 0

  /** The database: the Project and Task tables, the next id each table hands out,
      and (ghost) the latest time the store has seen. */
  class Store {
    var projects: map<nat, Project>
    var tasks: map<nat, Task>
    var nextProjectId: nat
    var nextTaskId: nat
    ghost var clock: nat

    /** Referential integrity, ids between the null id and the counters, declared lengths,
        and dates in the past. */
    ghost predicate Valid()
      reads this
    {
      && ForeignKeysHold(projects, tasks)
      && NullId < nextProjectId && NullId < nextTaskId
      && (forall id :: id in projects ==> NullId < id < nextProjectId && ValidProject(projects[id]))
      && (forall id :: id in tasks ==> NullId < id < nextTaskId && ValidTask(tasks[id]) && tasks[id].date <= clock)
    }

    constructor ()
      ensures Valid()
      ensures projects == map[] && tasks == map[]
      ensures nextProjectId == 1 && nextTaskId == 1 && clock == 0
    {
      projects := map[];
      tasks := map[];
      nextProjectId := 1;
      nextTaskId := 1;
      clock := 0;
    }

    /** Query `projects`: every project row once, in no particular order. */
    method ResolveProjects() returns (rows: seq<(nat, Project)>)
      ensures forall i :: 0 <= i < |rows| ==> rows[i].0 in projects && projects[rows[i].0] == rows[i].1
      ensures forall id :: id in projects ==> exists i :: 0 <= i < |rows| && rows[i].0 == id
      ensures forall i, j :: 0 <= i < j < |rows| ==> rows[i].0 != rows[j].0
    {
      rows := Tables.AllRows(projects);
    }

    /** Query `tasks`: every task row once, in no particular order. */
    method ResolveTasks() returns (rows: seq<(nat, Task)>)
      ensures forall i :: 0 <= i < |rows| ==> rows[i].0 in tasks && tasks[rows[i].0] == rows[i].1
      ensures forall id :: id in tasks ==> exists i :: 0 <= i < |rows| && rows[i].0 == id
      ensures forall i, j :: 0 <= i < j < |rows| ==> rows[i].0 != rows[j].0
    {
      rows := Tables.AllRows(tasks);
    }

    /** Query `project(id)`. */
    method ResolveProject(id: nat) returns (r: Outcome<Project>)
      ensures r.Ok? <==> id in projects
      ensures r.Ok? ==> r.value == projects[id]
      ensures r.NotFound? ==> r.model == ProjectModel
    {
      if id in projects {
        r := Ok(projects[id]);
      } else {
        r := NotFound(ProjectModel);
      }
    }

    /** Query `task(id)`. */
    method ResolveTask(id: nat) returns (r: Outcome<Task>)
      ensures r.Ok? <==> id in tasks
      ensures r.Ok? ==> r.value == tasks[id]
      ensures r.NotFound? ==> r.model == TaskModel
    {
      if id in tasks {
        r := Ok(tasks[id]);
      } else {
        r := NotFound(TaskModel);
      }
    }

    /** Project.__str__ of a stored project: its name, within the declared length. */
    function ProjectLabel(id: nat): (r: string)
      reads this
      requires Valid() && id in projects
      ensures r == projects[id].name
      ensures |r| <= MaxLength
    {
      ProjectStr(projects[id])
    }

    /** Task.__str__ of a stored task; total because its project is always stored. */
    function TaskLabel(id: nat): (r: string)
      reads this
      requires Valid() && id in tasks
      ensures tasks[id].project in projects
      ensures r == TaskStr(tasks[id], projects[tasks[id].project])
      ensures |r| <= 2 * MaxLength + 3
    {
      TaskStr(tasks[id], projects[tasks[id].project])
    }

    /** Mutation `createProject`: one new row under the next id of the Project table. */
    method CreateProject(name: string, description: string) returns (id: nat, p: Project)
      requires Valid() && |name| <= MaxLength
      modifies this
      ensures Valid()
      ensures id == old(nextProjectId) && id !in old(projects)
      ensures p == Project(name, description)
      ensures projects == old(projects)[id := p]
      ensures nextProjectId == old(nextProjectId) + 1 && nextTaskId == old(nextTaskId)
      ensures tasks == old(tasks) && clock == old(clock)
    {
      p := Project(name, description);
      id := nextProjectId;
      projects := projects[id := p];
      nextProjectId := nextProjectId + 1;
    }

    /** Mutation `createTask`: look up the project, then insert one task under the next id
        of the Task table, dated `now` by auto_now_add. */
    method CreateTask(title: string, description: string, done: bool, projectId: nat, now: nat)
      returns (r: Outcome<(nat, Task)>)
      requires Valid() && |title| <= MaxLength && clock <= now
      modifies this
      ensures Valid()
      ensures projectId !in old(projects) ==> r == NotFound(ProjectModel) && unchanged(this)
      ensures projectId in old(projects) ==>
        && r == Ok((old(nextTaskId), NewTask(title, description, projectId, now, done)))
        && old(nextTaskId) !in old(tasks)
        && tasks == old(tasks)[old(nextTaskId) := NewTask(title, description, projectId, now, done)]
        && projects == old(projects)
        && nextTaskId == old(nextTaskId) + 1 && nextProjectId == old(nextProjectId)
        && clock == now
    {
      if projectId !in projects {
        return NotFound(ProjectModel);
      }
      var t := NewTask(title, description, projectId, now, done);
      var id := nextTaskId;
      tasks := tasks[id := t];
      nextTaskId := nextTaskId + 1;
      clock := now;
      r := Ok((id, t));
    }

    /** Mutation `deleteProject`: removes the project and, by the cascade, every task that
        references it; returns the deleted record's fields. */
    method DeleteProject(id: nat) returns (r: Outcome<Project>)
      requires Valid()
      modifies this
      ensures Valid()
      ensures id !in old(projects) ==> r == NotFound(ProjectModel) && unchanged(this)
      ensures id in old(projects) ==>
        && r == Ok(old(projects)[id])
        && projects == old(projects) - {id}
        && tasks == Cascade(old(tasks), id)
        && nextProjectId == old(nextProjectId) && nextTaskId == old(nextTaskId)
        && clock == old(clock)
    {
      if id !in projects {
        return NotFound(ProjectModel);
      }
      var p := projects[id];
      // The collector deletes the dependent tasks first, then the project itself.
      var pending := tasks.Keys;
      while pending != {}
        invariant pending <= old(tasks).Keys
        invariant projects == old(projects) && nextProjectId == old(nextProjectId)
        invariant nextTaskId == old(nextTaskId) && clock == old(clock)
        invariant tasks == map k | k in old(tasks) && (k in pending || old(tasks)[k].project != id) :: old(tasks)[k]
        decreases pending
      {
        var k :| k in pending;
        if tasks[k].project == id {
          tasks := tasks - {k};
        }
        pending := pending - {k};
      }
      CascadeKeepsForeignKeys(projects, old(tasks), id);
      projects := projects - {id};
      r := Ok(p);
    }

    /** Mutation `deleteTask`: removes that one task. */
    method DeleteTask(id: nat) returns (r: Outcome<string>)
      requires Valid()
      modifies this
      ensures Valid()
      ensures id !in old(tasks) ==> r == NotFound(TaskModel) && unchanged(this)
      ensures id in old(tasks) ==>
        && r == Ok(TaskDeleted)
        && tasks == old(tasks) - {id}
        && projects == old(projects)
        && nextProjectId == old(nextProjectId) && nextTaskId == old(nextTaskId)
        && clock == old(clock)
    {
      if id !in tasks {
        return NotFound(TaskModel);
      }
      tasks := tasks - {id};
      r := Ok(TaskDeleted);
    }

    /** Mutation `updateProject`: overwrites both fields of that row. */
    method UpdateProject(id: nat, name: string, description: string) returns (r: Outcome<Project>)
      requires Valid() && |name| <= MaxLength
      modifies this
      ensures Valid()
      ensures id !in old(projects) ==> r == NotFound(ProjectModel) && unchanged(this)
      ensures id in old(projects) ==>
        && r == Ok(Project(name, description))
        && projects == old(projects)[id := Project(name, description)]
        && tasks == old(tasks)
        && nextProjectId == old(nextProjectId) && nextTaskId == old(nextTaskId)
        && clock == old(clock)
    {
      if id !in projects {
        return NotFound(ProjectModel);
      }
      var p := projects[id];
      p := p.(name := name);
      p := p.(description := description);
      projects := projects[id := p];
      r := Ok(p);
    }

    /** Mutation `updateTask`: looks up the project first, then the task, and overwrites
        every field, including `date`, which becomes `now`. */
    method UpdateTask(id: nat, title: string, description: string, done: bool, projectId: nat, now: nat)
      returns (r: Outcome<Task>)
      requires Valid() && |title| <= MaxLength && clock <= now
      modifies this
      ensures Valid()
      ensures projectId !in old(projects) ==> r == NotFound(ProjectModel) && unchanged(this)
      ensures projectId in old(projects) && id !in old(tasks) ==> r == NotFound(TaskModel) && unchanged(this)
      ensures projectId in old(projects) && id in old(tasks) ==>
        && r == Ok(Task(title, description, done, now, projectId))
        && tasks == old(tasks)[id := Task(title, description, done, now, projectId)]
        && projects == old(projects)
        && nextProjectId == old(nextProjectId) && nextTaskId == old(nextTaskId)
        && clock == now
        && old(tasks)[id].date <= tasks[id].date
    {
      if projectId !in projects {
        return NotFound(ProjectModel);
      }
      if id !in tasks {
        return NotFound(TaskModel);
      }
      var t := tasks[id];
      t := t.(title := title);
      t := t.(description := description);
      t := t.(done := done);
      t := t.(project := projectId);
      t := t.(date := now);
      tasks := tasks[id := t];
      clock := now;
      r := Ok(t);
    }

    /** Mutation `changeStateTask`: flips `done` and saves the row. */
    method ChangeStateTask(id: nat) returns (r: Outcome<Task>)
      requires Valid()
      modifies this
      ensures Valid()
      ensures id !in old(tasks) ==> r == NotFound(TaskModel) && unchanged(this)
      ensures id in old(tasks) ==>
        && r == Ok(Toggled(old(tasks)[id]))
        && tasks == old(tasks)[id := Toggled(old(tasks)[id])]
        && projects == old(projects)
        && nextProjectId == old(nextProjectId) && nextTaskId == old(nextTaskId)
        && clock == old(clock)
    {
      if id !in tasks {
        return NotFound(TaskModel);
      }
      var t := Toggled(tasks[id]);
      tasks := tasks[id := t];
      r := Ok(t);
    }
  }

  /** Toggling the same task twice leaves the Task table as it was. */
  method ChangeStateTwice(s: Store, id: nat) returns (first: Outcome<Task>, second: Outcome<Task>)
    requires s.Valid()
    modifies s
    ensures s.Valid()
    ensures s.tasks == old(s.tasks) && s.projects == old(s.projects)
    ensures first.Ok? <==> id in old(s.tasks)
    ensures first.Ok? ==> second.Ok? && first.value.done != second.value.done
  {
    first := s.ChangeStateTask(id);
    second := s.ChangeStateTask(id);
    if id in old(s.tasks) {
      ToggledInvolutive(old(s.tasks)[id]);
    }
  }

  /** Create a project in any store and fetch it back by the returned id. */
  method CreateThenFetch(s: Store, name: string, description: string) returns (fetched: Outcome<Project>)
    requires s.Valid() && |name| <= MaxLength
    modifies s
    ensures s.Valid()
    ensures fetched == Ok(Project(name, description))
  {
    var id, _ := s.CreateProject(name, description);
    fetched := s.ResolveProject(id);
  }

  /** A deleted project's id is not handed out again: the next project gets a new one. */
  method DeletedIdNotReused(s: Store, name: string, description: string) returns (first: nat, second: nat)
    requires s.Valid() && |name| <= MaxLength
    modifies s
    ensures s.Valid()
    ensures first != second && first !in s.projects && second in s.projects
  {
    var created, _ := s.CreateProject(name, description);
    var _ := s.DeleteProject(created);
    var recreated, _ := s.CreateProject(name, description);
    first, second := created, recreated;
  }

  /** Create P1, add T1 to it at time 5, toggle T1, update it at time 9, delete P1:
      T1 is done after the toggle, re-dated by the update, and gone with its project. */
  method EndToEnd() returns (toggled: Outcome<Task>, updated: Outcome<Task>, afterDelete: Outcome<Task>)
    ensures toggled.Ok? && toggled.value.done
    ensures updated.Ok? && updated.value.date == 9 && updated.value.description == "d2"
    ensures afterDelete == NotFound(TaskModel)
  {
    var s := new Store();
    var p1, _ := s.CreateProject("P1", "d1");
    var created := s.CreateTask("T1", "d1", false, p1, 5);
    var t1 := created.value.0;
    toggled := s.ChangeStateTask(t1);
    updated := s.UpdateTask(t1, "T1", "d2", true, p1, 9);
    var _ := s.DeleteProject(p1);
    afterDelete := s.ResolveTask(t1);
  }
}
