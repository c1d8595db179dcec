/** The task-list slice: the client's view `{tasks, loading, error}` of the
    current user's tasks and the reducers that settle fetch, add, update and
    delete requests into it. */
module TaskSlice {
  import opened Records

  const FetchFailed := "Failed to fetch tasks"

  /** `tasks.findIndex(t => t.id === id)`: the first index holding that id, or -1. */
  function FindIndex(ts: seq<Task>, id: int): (r: int)
    ensures -1 <= r < |ts|
    ensures r == -1 <==> forall k :: 0 <= k < |ts| ==> ts[k].id != id
    ensures r != -1 ==> ts[r].id == id && forall k :: 0 <= k < r ==> ts[k].id != id
  {
    if ts == [] then -1
    else if ts[0].id == id then 0
    else
      var i := FindIndex(ts[1..], id);
      assert forall k :: 1 <= k < |ts| ==> ts[k] == ts[1..][k - 1];
      if i == -1 then -1 else i + 1
  }

  /** What an update does to the view, defined by walking the list: the first task
      with the payload's id is replaced, everything after it is left alone. */
  function UpdateFirst(ts: seq<Task>, t: Task): (r: seq<Task>)
    ensures |r| == |ts|
    ensures forall k :: 0 <= k < |ts| ==> r[k] == if k == FindIndex(ts, t.id) then t else ts[k]
  {
    if ts == [] then []
    else if ts[0].id == t.id then [t] + ts[1..]
    else
      var rest := UpdateFirst(ts[1..], t);
      assert forall k :: 1 <= k < |ts| ==> ts[k] == ts[1..][k - 1];
      [ts[0]] + rest
  }

  /** An update whose id is not in the view leaves the view as it was. */
  lemma UpdateFirstMissing(ts: seq<Task>, t: Task)
    requires forall k :: 0 <= k < |ts| ==> ts[k].id != t.id
    ensures UpdateFirst(ts, t) == ts
  {
  }

  /** `action.error.message || "Failed to fetch tasks"`: never empty. */
  function FetchErrorText(message: Option<string>): (s: string)
    ensures s != ""
    ensures message.Some? && message.value != "" ==> s == message.value
    ensures message.None? || message.value == "" ==> s == FetchFailed
  {
    if message.Some? && message.value != "" then message.value else FetchFailed
  }

  /** The slice state. `error` is `string | null`. */
  class TaskListState {
    var tasks: seq<Task>
    var loading: bool
    var error: Option<string>

    /** `initialState`: no tasks, not loading, no error. */
    constructor ()
      ensures tasks == [] && !loading && error == None
    {
      tasks := [];
      loading := false;
      error := None;
    }

    /** `fetchTasks.pending`: loading; nothing else changes. */
    method FetchPending()
      modifies this`loading
      ensures loading && tasks == old(tasks) && error == old(error)
    {
      loading := true;
    }

    /** `fetchTasks.fulfilled`: the payload replaces the list and loading ends; an old error stays. */
    method FetchFulfilled(payload: seq<Task>)
      modifies this`tasks, this`loading
      ensures tasks == payload && !loading && error == old(error)
    {
      tasks := payload;
      loading := false;
    }

    /** `fetchTasks.rejected`: the error message (or the fallback) is kept, loading ends,
        the list stays. */
    method FetchRejected(message: Option<string>)
      modifies this`error, this`loading
      ensures error == Some(FetchErrorText(message)) && !loading && tasks == old(tasks)
    {
      error := Some(FetchErrorText(message));
      loading := false;
    }

    /** `addTask.fulfilled`: the created task is pushed at the end. */
    method AddFulfilled(t: Task)
      modifies this`tasks
      ensures tasks == old(tasks) + [t]
      ensures loading == old(loading) && error == old(error)
    {
      tasks := tasks + [t];
    }

    /** `updateTask.fulfilled`: `findIndex`, then the entry at that index is overwritten
        when there is one. */
    method UpdateFulfilled(t: Task)
      modifies this`tasks
      ensures tasks == UpdateFirst(old(tasks), t)
      ensures loading == old(loading) && error == old(error)
    {
      var index := FindIndex(tasks, t.id);
      if index != -1 {
        tasks := tasks[index := t];
      }
    }

    /** `deleteTask.fulfilled`: every entry with that id is filtered out. */
    method DeleteFulfilled(id: int)
      modifies this`tasks
      ensures tasks == WithoutId(old(tasks), id)
      ensures loading == old(loading) && error == old(error)
    {
      tasks := WithoutId(tasks, id);
    }
  }
}
