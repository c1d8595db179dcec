/** Records shared by the mock REST backend and the two state slices: users,
    tasks, and the list operations that both sides apply to them. */
module Records {

  datatype Option<+T> = None | Some(value: T)

  /** A registered account `{username, email, password}`; the password is kept as typed. */
  datatype User = User(username: string, email: string, password: string)

  datatype TaskStatus = Pending | Completed

  /** A task body before the backend has given it an id (`Omit<Task, "id">`). */
  datatype TaskDraft = TaskDraft(title: string, description: string, status: TaskStatus, username: string)

  /** A stored task; `username` is its owner. */
  datatype Task = Task(id: int, title: string, description: string, status: TaskStatus, username: string)

  /** The body without its id. */
  function Draft(t: Task): TaskDraft {
    TaskDraft(t.title, t.description, t.status, t.username)
  }

  /** `{ ...draft, id }`: the draft's fields under the given id. */
  function WithId(d: TaskDraft, id: int): (t: Task)
    ensures t.id == id && Draft(t) == d
  {
    Task(id, d.title, d.description, d.status, d.username)
  }

  predicate HasCredentials(u: User, username: string, password: string) {
    u.username == username && u.password == password
  }

  /** `users.find(u => u.username === username && u.password === password)`:
      the first user whose name and password both match exactly. */
  function FindCredentials(users: seq<User>, username: string, password: string): (r: Option<User>)
    ensures r.Some? <==> exists k :: 0 <= k < |users| && HasCredentials(users[k], username, password)
    ensures r.Some? ==> r.value in users && HasCredentials(r.value, username, password)
  {
    if users == [] then None
    else if HasCredentials(users[0], username, password) then Some(users[0])
    else FindCredentials(users[1..], username, password)
  }

  /** Looking up in a longer list: the first list wins, the second is searched only after it. */
  lemma {:induction false} FindCredentialsAppend(a: seq<User>, b: seq<User>, username: string, password: string)
    ensures FindCredentials(a + b, username, password)
         == if FindCredentials(a, username, password).Some? then FindCredentials(a, username, password)
            else FindCredentials(b, username, password)
  {
    if a != [] {
      assert (a + b)[0] == a[0];
      assert (a + b)[1..] == a[1..] + b;
      FindCredentialsAppend(a[1..], b, username, password);
    } else {
      assert a + b == b;
    }
  }

  /** `tasks.filter(t => t.id !== id)`: every task with that id is removed, the rest keep their order. */
  function WithoutId(ts: seq<Task>, id: int): (r: seq<Task>)
    ensures |r| <= |ts|
    ensures forall t :: t in r <==> t in ts && t.id != id
    ensures (forall k :: 0 <= k < |ts| ==> ts[k].id != id) ==> r == ts
  {
    if ts == [] then []
    else if ts[0].id == id then WithoutId(ts[1..], id)
    else [ts[0]] + WithoutId(ts[1..], id)
  }

  /** Removal works piecewise, so the survivors stay in their original order. */
  lemma {:induction false} WithoutIdAppend(a: seq<Task>, b: seq<Task>, id: int)
    ensures WithoutId(a + b, id) == WithoutId(a, id) + WithoutId(b, id)
  {
    if a == [] {
      assert a + b == b;
    } else {
      assert (a + b)[0] == a[0];
      assert (a + b)[1..] == a[1..] + b;
      WithoutIdAppend(a[1..], b, id);
    }
  }

  /** Every id in the list is below `bound`. */
  ghost predicate IdsBelow(ts: seq<Task>, bound: int) {
    forall k :: 0 <= k < |ts| ==> ts[k].id < bound
  }

  /** No two tasks share an id. */
  ghost predicate UniqueIds(ts: seq<Task>) {
    forall i, j :: 0 <= i < j < |ts| ==> ts[i].id != ts[j].id
  }

  /** A task whose id no later task has can be put in front of a list with unique ids. */
  lemma UniqueIdsCons(t: Task, tail: seq<Task>)
    requires UniqueIds(tail)
    requires forall j :: 0 <= j < |tail| ==> tail[j].id != t.id
    ensures UniqueIds([t] + tail)
  {
    var all := [t] + tail;
    forall i, j | 0 <= i < j < |all| ensures all[i].id != all[j].id {
      assert all[j] == tail[j - 1];
      if i > 0 {
        assert all[i] == tail[i - 1];
      }
    }
  }

  /** Removing tasks never creates a duplicate id. */
  lemma {:induction false} WithoutIdKeepsUnique(ts: seq<Task>, id: int)
    requires UniqueIds(ts)
    ensures UniqueIds(WithoutId(ts, id))
  {
    if ts != [] {
      var rest := ts[1..];
      assert UniqueIds(rest) by {
        forall i, j | 0 <= i < j < |rest| ensures rest[i].id != rest[j].id {
          assert rest[i] == ts[i + 1] && rest[j] == ts[j + 1];
        }
      }
      WithoutIdKeepsUnique(rest, id);
      if ts[0].id != id {
        var tail := WithoutId(rest, id);
        forall j | 0 <= j < |tail| ensures tail[j].id != ts[0].id {
          assert tail[j] in rest;
          var m :| 0 <= m < |rest| && rest[m] == tail[j];
          assert ts[m + 1] == tail[j];
        }
        UniqueIdsCons(ts[0], tail);
      }
    }
  }

  /** No two users share a username. */
  ghost predicate DistinctUsernames(users: seq<User>) {
    forall i, j :: 0 <= i < j < |users| ==> users[i].username != users[j].username
  }

  /** No two users share an email address. */
  ghost predicate DistinctEmails(users: seq<User>) {
    forall i, j :: 0 <= i < j < |users| ==> users[i].email != users[j].email
  }
}
