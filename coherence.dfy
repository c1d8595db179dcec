/** How the client's task view relates to the backend's store: applying a
    settled mutation to a fetched view gives the same list as fetching again
    after the backend applied it. */
module Coherence {
  import opened Records
  import opened MockBackend
  import opened TaskSlice

  /** POST /tasks then GET /tasks: the owner sees the new task at the end of the list,
      exactly where `addTask.fulfilled` pushes it; other users see no change. */
  lemma FetchAfterCreate(ts: seq<Task>, t: Task, username: string)
    ensures OwnedBy(ts + [t], username)
         == if t.username == username then OwnedBy(ts, username) + [t] else OwnedBy(ts, username)
  {
    OwnedByAppend(ts, [t], username);
    assert OwnedBy([t][1..], username) == [];
  }

  /** DELETE /tasks/:id then GET /tasks gives the fetched view with `deleteTask.fulfilled` applied. */
  lemma {:induction false} DeleteCommutes(ts: seq<Task>, id: int, username: string)
    ensures OwnedBy(WithoutId(ts, id), username) == WithoutId(OwnedBy(ts, username), id)
  {
    if ts != [] {
      DeleteCommutes(ts[1..], id, username);
    }
  }

  /** With unique ids, the view's first-match update and the store's replace-every-match
      update agree. */
  lemma UpdateAgrees(ts: seq<Task>, id: int, d: TaskDraft)
    requires UniqueIds(ts)
    ensures UpdateFirst(ts, WithId(d, id)) == ReplaceAll(ts, id, d)
  {
  }

  /** PUT /tasks/:id then GET /tasks gives the fetched view with `updateTask.fulfilled`
      applied to the answer `{ ...body, id }`, as long as ids are unique and the task keeps
      its owner. */
  lemma {:induction false} UpdateCommutes(ts: seq<Task>, id: int, d: TaskDraft)
    requires UniqueIds(ts)
    requires forall k :: 0 <= k < |ts| && ts[k].id == id ==> ts[k].username == d.username
    ensures OwnedBy(ReplaceAll(ts, id, d), d.username) == UpdateFirst(OwnedBy(ts, d.username), WithId(d, id))
  {
    if ts != [] {
      var rest := ts[1..];
      assert forall k :: 1 <= k < |ts| ==> ts[k] == rest[k - 1];
      assert ReplaceAll(ts, id, d) == [ReplaceAll(ts, id, d)[0]] + ReplaceAll(rest, id, d);
      if ts[0].id == id {
        ReplaceAllMissing(rest, id, d);
        assert OwnedBy(ReplaceAll(ts, id, d), d.username) == [WithId(d, id)] + OwnedBy(rest, d.username);
        assert OwnedBy(ts, d.username) == [ts[0]] + OwnedBy(rest, d.username);
      } else {
        assert UniqueIds(rest);
        UpdateCommutes(rest, id, d);
        if ts[0].username == d.username {
          assert OwnedBy(ts, d.username) == [ts[0]] + OwnedBy(rest, d.username);
        }
      }
    }
  }

  /** The walk-through of the service: register, duplicate register, bad and good login,
      two creates (ids 1 and 2), then update and delete of the first task, listing after each
      step and keeping the owner's view in step. */
  method ServiceScenario() returns (created: seq<Task>, finalListing: seq<Task>)
    ensures |created| == 2 && created[0].id == 1 && created[1].id == created[0].id + 1
    ensures finalListing == []
  {
    var server := new MockServer([], []);
    assert server.nextId == 1;

    var alice := User("alice", "a@x.com", "pw");
    var r := server.Register(alice);
    assert r.status == Created;
    r := server.Register(alice);
    assert r.status == Conflict;
    r := server.Login("alice", "wrong");
    assert !HasCredentials(server.users[0], "alice", "wrong");
    assert r == Response(Unauthorized, Message("Invalid credentials"));
    r := server.Login("alice", "pw");
    assert HasCredentials(server.users[0], "alice", "pw");
    assert r == Response(Ok, LoggedIn("alice"));

    var draft := TaskDraft("t1", "d1", Pending, "alice");
    var first := server.CreateTask(draft);
    var t1 := Task(1, "t1", "d1", Pending, "alice");
    assert first == Response(Created, OneTask(t1));
    var second := server.CreateTask(TaskDraft("t2", "d2", Pending, "bob"));
    var t2 := Task(2, "t2", "d2", Pending, "bob");
    assert second == Response(Created, OneTask(t2));
    created := [first.body.task, second.body.task];
    r := server.ListTasks("alice");
    assert r.body.tasks == [t1];

    var view := new TaskListState();
    view.FetchFulfilled(r.body.tasks);

    r := server.UpdateTask(1, draft.(status := Completed));
    var done := Task(1, "t1", "d1", Completed, "alice");
    assert r.body.task == done;
    view.UpdateFulfilled(r.body.task);
    assert view.tasks == [done];
    r := server.ListTasks("alice");
    assert r.body.tasks == view.tasks;

    r := server.DeleteTask(1);
    assert r == Response(Ok, Message("Task deleted"));
    view.DeleteFulfilled(1);
    r := server.ListTasks("alice");
    assert r.body.tasks == [] == view.tasks;
    finalListing := r.body.tasks;
  }
}
