/** The in-browser mock REST backend: a users collection and a tasks collection,
    each read and written whole, and a process-wide task id counter. */
module MockBackend {
  import opened Records

  const Ok := 200
  const Created := 201
  const Unauthorized := 401
  const Conflict := 409

  /** The JSON bodies the handlers answer with. */
  datatype Body =
    | Message(text: string)
    | LoggedIn(username: string)
    | TaskList(tasks: seq<Task>)
    | OneTask(task: Task)

  datatype Response = Response(status: int, body: Body)

  /** `tasks.reduce((max, task) => Math.max(max, task.id), acc)`. */
  function MaxIdFrom(acc: int, ts: seq<Task>): (r: int)
    ensures acc <= r
    ensures forall k :: 0 <= k < |ts| ==> ts[k].id <= r
    ensures r == acc || exists k :: 0 <= k < |ts| && ts[k].id == r
    decreases ts
  {
    if ts == [] then acc
    else
      var r := MaxIdFrom(if acc < ts[0].id then ts[0].id else acc, ts[1..]);
      assert forall k :: 1 <= k < |ts| ==> ts[k] == ts[1..][k - 1];
      r
  }

  /** `users.some(u => u.username === username)`. */
  predicate UsernameTaken(users: seq<User>, username: string)
    ensures UsernameTaken(users, username) <==> exists k :: 0 <= k < |users| && users[k].username == username
  {
    users != [] && (users[0].username == username || UsernameTaken(users[1..], username))
  }

  /** `tasks.filter(t => t.username === username)`: the tasks owned by `username`, in stored order. */
  function OwnedBy(ts: seq<Task>, username: string): (r: seq<Task>)
    ensures |r| <= |ts|
    ensures forall t :: t in r <==> t in ts && t.username == username
  {
    if ts == [] then []
    else if ts[0].username == username then [ts[0]] + OwnedBy(ts[1..], username)
    else OwnedBy(ts[1..], username)
  }

  /** Selecting the owner's tasks works piecewise, so stored order is kept. */
  lemma {:induction false} OwnedByAppend(a: seq<Task>, b: seq<Task>, username: string)
    ensures OwnedBy(a + b, username) == OwnedBy(a, username) + OwnedBy(b, username)
  {
    if a == [] {
      assert a + b == b;
    } else {
      assert (a + b)[0] == a[0];
      assert (a + b)[1..] == a[1..] + b;
      OwnedByAppend(a[1..], b, username);
    }
  }

  /** `tasks.map(t => t.id === id ? { ...draft, id } : t)`. */
  function ReplaceAll(ts: seq<Task>, id: int, d: TaskDraft): (r: seq<Task>)
    ensures |r| == |ts|
    ensures forall k :: 0 <= k < |ts| ==> r[k].id == ts[k].id
    ensures forall k :: 0 <= k < |ts| ==> r[k] == if ts[k].id == id then WithId(d, id) else ts[k]
  {
    if ts == [] then []
    else [if ts[0].id == id then WithId(d, id) else ts[0]] + ReplaceAll(ts[1..], id, d)
  }

  /** An update for an id nobody has leaves the collection as it was. */
  lemma ReplaceAllMissing(ts: seq<Task>, id: int, d: TaskDraft)
    requires forall k :: 0 <= k < |ts| ==> ts[k].id != id
    ensures ReplaceAll(ts, id, d) == ts
  {
  }

  /** After registering a fresh username, logging in with the same credentials finds that user. */
  lemma RegisterThenLogin(users: seq<User>, u: User)
    requires !UsernameTaken(users, u.username)
    ensures FindCredentials(users + [u], u.username, u.password) == Some(u)
  {
    FindCredentialsAppend(users, [u], u.username, u.password);
    assert FindCredentials([u][1..], u.username, u.password) == None;
  }

  /** The server's state: the "mock_users" and "mock_tasks" collections and `taskIdCounter`. */
  class MockServer {
    var users: seq<User>
    var tasks: seq<Task>
    var nextId: int

    /** The counter is positive and above every stored id, so the next id it hands out is fresh. */
    ghost predicate Valid()
      reads this
    {
      1 <= nextId && IdsBelow(tasks, nextId)
    }

    /** Module start-up: the collections are what storage holds, the counter is `max(ids, 0) + 1`. */
    constructor (storedUsers: seq<User>, storedTasks: seq<Task>)
      ensures users == storedUsers && tasks == storedTasks
      ensures nextId == MaxIdFrom(0, storedTasks) + 1
      ensures Valid()
    {
      users := storedUsers;
      tasks := storedTasks;
      nextId := MaxIdFrom(0, storedTasks) + 1;
    }

    /** POST /register: 409 if the username is taken, otherwise the body is appended and 201. */
    method Register(body: User) returns (r: Response)
      requires Valid()
      modifies this`users
      ensures Valid()
      ensures UsernameTaken(old(users), body.username) ==>
                r == Response(Conflict, Message("Username already exists")) && users == old(users)
      ensures !UsernameTaken(old(users), body.username) ==>
                r == Response(Created, Message("Registered successfully")) && users == old(users) + [body]
      ensures UsernameTaken(users, body.username)
      ensures DistinctUsernames(old(users)) ==> DistinctUsernames(users)
    {
      if UsernameTaken(users, body.username) {
        return Response(Conflict, Message("Username already exists"));
      }
      users := users + [body];
      assert users[|users| - 1] == body;
      r := Response(Created, Message("Registered successfully"));
    }

    /** POST /login: 200 with the username iff some stored user matches name and password exactly. */
    method Login(username: string, password: string) returns (r: Response)
      ensures r.status == Ok <==> exists k :: 0 <= k < |users| && HasCredentials(users[k], username, password)
      ensures r.status == Ok ==> r.body == LoggedIn(username)
      ensures r.status != Ok ==> r == Response(Unauthorized, Message("Invalid credentials"))
    {
      var user := FindCredentials(users, username, password);
      if user.None? {
        return Response(Unauthorized, Message("Invalid credentials"));
      }
      r := Response(Ok, LoggedIn(user.value.username));
    }

    /** GET /tasks?username=: always 200, with the owner's tasks in stored order. */
    method ListTasks(username: string) returns (r: Response)
      ensures r.status == Ok && r.body.TaskList?
      ensures r.body.tasks == OwnedBy(tasks, username)
    {
      r := Response(Ok, TaskList(OwnedBy(tasks, username)));
    }

    /** POST /tasks: the task takes the counter's value, the counter moves on by one,
        the task is appended and returned with 201. */
    method CreateTask(body: TaskDraft) returns (r: Response)
      requires Valid()
      modifies this`tasks, this`nextId
      ensures Valid()
      ensures r == Response(Created, OneTask(WithId(body, old(nextId))))
      ensures nextId == old(nextId) + 1
      ensures tasks == old(tasks) + [r.body.task]
      ensures forall k :: 0 <= k < |old(tasks)| ==> old(tasks)[k].id < r.body.task.id
      ensures UniqueIds(old(tasks)) ==> UniqueIds(tasks)
    {
      var task := WithId(body, nextId);
      nextId := nextId + 1;
      tasks := tasks + [task];
      r := Response(Created, OneTask(task));
    }

    /** PUT /tasks/:id: every task with that id gets the new fields under the same id;
        the answer is `{ ...body, id }` with 200 whether or not the id existed. */
    method UpdateTask(id: int, body: TaskDraft) returns (r: Response)
      requires Valid()
      modifies this`tasks
      ensures Valid()
      ensures tasks == ReplaceAll(old(tasks), id, body)
      ensures r == Response(Ok, OneTask(WithId(body, id)))
      ensures UniqueIds(old(tasks)) ==> UniqueIds(tasks)
    {
      tasks := ReplaceAll(tasks, id, body);
      r := Response(Ok, OneTask(WithId(body, id)));
    }

    /** DELETE /tasks/:id: every task with that id is dropped; always 200 "Task deleted". */
    method DeleteTask(id: int) returns (r: Response)
      requires Valid()
      modifies this`tasks
      ensures Valid()
      ensures tasks == WithoutId(old(tasks), id)
      ensures r == Response(Ok, Message("Task deleted"))
      ensures UniqueIds(old(tasks)) ==> UniqueIds(tasks)
    {
      if UniqueIds(tasks) {
        WithoutIdKeepsUnique(tasks, id);
      }
      tasks := WithoutId(tasks, id);
      r := Response(Ok, Message("Task deleted"));
    }
  }
}
