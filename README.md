# Task manager data layer, modelled in Dafny

This project models the data layer of a small task-management web client. There are three parts:

- **The mock REST backend** (`src/mocks/handlers.ts`). It keeps a users collection (`"mock_users"`) and a tasks collection (`"mock_tasks"`). Each is read and written whole. A process-wide counter assigns task ids. It serves register, login, list, create, update and delete, each with an HTTP status.
- **The authentication slice** (`src/features/auth/authSlice.ts`). It has its own store, separate from the backend's: registered users under `"registered_users"` and the current session under `"user"`. Its `register` and `login` thunks work on that store directly. Its reducers drive `{user, loading, error}`.
- **The task-list slice** (`src/features/tasks/taskSlice.ts`). Its reducers settle fetch, add, update and delete results into `{tasks, loading, error}`.

Files:

- `records.dfy`, module `Records`: the user and task records, plus the list operations both sides share. These are the `filter` that drops an id and the `find` that checks credentials. It also defines the id-freshness and uniqueness predicates.
- `mock_backend.dfy`, module `MockBackend`: class `MockServer` with fields `users`, `tasks` and `nextId`. It has one method per handler, and the pure `reduce`, `filter` and `map` are functions.
- `auth_slice.dfy`, module `AuthSlice`: class `AuthStorage` (the two storage keys and the two thunks) and class `AuthState` (the reducers). It also has the two dispatch sequences, pending → thunk → fulfilled or rejected. `AuthScenario` walks them through a register, a logout, an email clash, and a bad and a good login.
- `task_slice.dfy`, module `TaskSlice`: class `TaskListState` with one method per reducer case. `UpdateFirst` is an independent recursive definition of the `findIndex`-then-overwrite update.
- `coherence.dfy`, module `Coherence`: lemmas relating a view updated by the reducers to a fresh fetch from the backend after the same mutation.
  - After a delete, the two are always equal.
  - After a create, they are equal when the new task belongs to the viewing user (`Coherence.FetchAfterCreate`); another user's task shows up in the view but not in a fresh fetch.
  - After an update, they are equal only when ids are unique and the task keeps its owner.
  - The lemmas assume the fetch asks for exactly `username`. `fetchTasks` puts the name into the query string without encoding it, so a name containing `&`, `#` or `+` would be read back differently. This is covered by the URL-parsing and transport lines under "## Left out".
  - `ServiceScenario` walks the service and the view through a register/login/create/update/delete sequence.

Storage is modelled as in-memory fields. `getUsers`, `getTasks` and `getStoredUsers` are reads of those fields. `saveUsers` and `saveTasks` are whole-field assignments.

Three behaviours of the code are easy to misread:

- The authentication thunks never call the backend. They use their own store, and they reject a registration when either the username **or** the email is already stored. The backend's `/register` checks only the username.
- The view's update replaces only the **first** task with the payload's id (`findIndex`). The backend's update replaces **every** task with that id (`map`). `Coherence.UpdateAgrees` shows the two agree when ids are unique.
- `fetchTasks.fulfilled` does not clear an earlier `error`.

## Model

| member | source | states |
|---|---|---|
| Records.WithId | src/mocks/handlers.ts:102 | `{...body, id}` carries the given id and gives back exactly the draft when the id is stripped |
| Records.FindCredentials | src/mocks/handlers.ts:74-76 | a user is found iff some stored user matches both username and password exactly; the one found is stored and matches both |
| Records.FindCredentialsAppend | src/features/auth/authSlice.ts:59-61 | searching `a + b` returns the match in `a` if there is one, otherwise the match in `b` (`find` returns the first match) |
| Records.WithoutId | src/mocks/handlers.ts:128 | the filtered list holds exactly the tasks whose id differs; it is never longer; with the id absent it is the list unchanged |
| Records.WithoutIdAppend | src/features/tasks/taskSlice.ts:74 | removal distributes over concatenation, so the surviving tasks keep their relative order |
| Records.WithoutIdKeepsUnique | src/mocks/handlers.ts:127-129 | deleting from a list with unique ids leaves the ids unique |
| MockBackend.MaxIdFrom | src/mocks/handlers.ts:43-44 | the `reduce` result is at least the start value, at least every id, and is either the start value or one of the ids |
| MockBackend.UsernameTaken | src/mocks/handlers.ts:52 | the `some` walk over the users is true iff some stored user has exactly that username |
| MockBackend.OwnedBy | src/mocks/handlers.ts:94 | the filtered list holds exactly the stored tasks owned by the user, and is never longer than the store |
| MockBackend.OwnedByAppend | src/mocks/handlers.ts:93-96 | owner selection distributes over concatenation, so the listing keeps stored order |
| MockBackend.ReplaceAll | src/mocks/handlers.ts:117 | the length and every id are kept; each task with the id becomes `{...body, id}`; every other task is unchanged in place |
| MockBackend.ReplaceAllMissing | src/mocks/handlers.ts:116-118 | an update for an id nobody has leaves the store unchanged |
| MockBackend.RegisterThenLogin | src/mocks/handlers.ts:52-85 | after registering a fresh username, logging in with the same username and password finds exactly the registered user |
| MockBackend.MockServer.constructor | src/mocks/handlers.ts:43-44 | the counter starts at `max(ids, 0) + 1`, so it is positive and above every stored id |
| MockBackend.MockServer.Register | src/mocks/handlers.ts:48-67 | a taken username gives 409 "Username already exists" and leaves the users unchanged; otherwise 201 and the body is appended at the end; afterwards the username is taken either way; distinct usernames stay distinct; the counter invariant `Valid()` is kept |
| MockBackend.MockServer.Login | src/mocks/handlers.ts:70-86 | 200 with `{username}` iff some user matches both fields exactly, otherwise 401 "Invalid credentials"; nothing changes |
| MockBackend.MockServer.ListTasks | src/mocks/handlers.ts:89-97 | always 200, with exactly the owner's tasks in stored order |
| MockBackend.MockServer.CreateTask | src/mocks/handlers.ts:100-109 | the task gets the counter's value, which is above every stored id; the counter rises by one; the task is appended and returned with 201; id uniqueness and freshness are preserved |
| MockBackend.MockServer.UpdateTask | src/mocks/handlers.ts:112-121 | the store becomes `ReplaceAll` of the old store, and the answer is `{...body, id}` with 200 even when the id is missing; ids stay unique and fresh |
| MockBackend.MockServer.DeleteTask | src/mocks/handlers.ts:124-132 | the store loses exactly the tasks with that id, keeping order; the answer is always 200 "Task deleted"; ids stay unique and fresh |
| AuthSlice.FindConflict | src/features/auth/authSlice.ts:40-42 | a conflict is found iff some stored user has the username or the email; the one found is stored and has one of them |
| AuthSlice.RejectionText | src/features/auth/authSlice.ts:100-103 | the error is the payload when it is a non-empty string, otherwise the thunk's fallback ("Login failed" / "Registration failed", line 117); it is never empty |
| AuthSlice.RegisterKeepsDistinct | src/features/auth/authSlice.ts:39-48 | appending a user who passed the conflict check keeps usernames and emails distinct |
| AuthSlice.RegisterThenLogin | src/features/auth/authSlice.ts:38-68 | after a successful `register`, `login` with the same username and password finds exactly that user |
| AuthSlice.AuthStorage.constructor | src/features/auth/authSlice.ts:13-16 | storage starts with the given registered users and session |
| AuthSlice.AuthStorage.SaveUserToStorage | src/features/auth/authSlice.ts:18-22 | the stored users become the old list with the new user at the end |
| AuthSlice.AuthStorage.SaveCurrentUser | src/features/auth/authSlice.ts:24-27 | the stored session becomes `{username}` |
| AuthSlice.AuthStorage.ClearCurrentUser | src/features/auth/authSlice.ts:29-31 | the stored session is removed |
| AuthSlice.AuthStorage.Register | src/features/auth/authSlice.ts:38-51 | a username or email clash rejects with "User already exists" and changes neither the users nor the session; otherwise `{username, email, password}` is appended, `{username}` becomes the session and is returned; distinct names and emails stay distinct |
| AuthSlice.AuthStorage.Login | src/features/auth/authSlice.ts:57-69 | fulfilled iff a stored user matches both fields, and then the session is `{username}`; otherwise rejected with "Invalid credentials" and the session untouched |
| AuthSlice.AuthState.constructor | src/features/auth/authSlice.ts:71-76 | the user is the stored session or none; not loading; empty error |
| AuthSlice.AuthState.Logout | src/features/auth/authSlice.ts:83-86 | the user and the stored session are cleared; `loading` and `error` are untouched |
| AuthSlice.AuthState.Pending | src/features/auth/authSlice.ts:91-94 | loading, error cleared, user unchanged (the same for `register.pending`, lines 106-109) |
| AuthSlice.AuthState.Fulfilled | src/features/auth/authSlice.ts:95-99 | loading ends, the payload becomes the user and the stored session, and the error is unchanged (the same for `register.fulfilled`, lines 110-114) |
| AuthSlice.AuthState.Rejected | src/features/auth/authSlice.ts:115-118 | loading ends, the error becomes `RejectionText`, and the user is unchanged (the same for `login.rejected`, lines 100-103) |
| AuthSlice.DispatchLogin | src/features/auth/authSlice.ts:53-103 | a full login succeeds iff the credentials match; success leaves that user with no error and `{username}` as the stored session; failure leaves the previous user with "Invalid credentials" and the session untouched; a state in step with storage stays in step |
| AuthSlice.DispatchRegister | src/features/auth/authSlice.ts:34-118 | a full registration is rejected iff the username or email clashes, and then leaves "User already exists" with the user and the store untouched; success appends the user, makes them the user with no error, and stores `{username}` as the session; a state in step with storage stays in step |
| AuthSlice.AuthScenario | src/features/auth/authSlice.ts:38-118 | registering alice, logout, a second registration reusing her email, a wrong and then a right login end with only alice stored and alice as the stored session |
| TaskSlice.FindIndex | src/features/tasks/taskSlice.ts:70 | the result is -1 iff no task has the id; otherwise the task there has the id and no earlier task does |
| TaskSlice.UpdateFirst | src/features/tasks/taskSlice.ts:69-72 | the length is kept; the first task with the payload's id becomes the payload; every other index is unchanged |
| TaskSlice.UpdateFirstMissing | src/features/tasks/taskSlice.ts:70-71 | with the id absent the list is unchanged |
| TaskSlice.FetchErrorText | src/features/tasks/taskSlice.ts:63 | the error is the message when it is non-empty, otherwise "Failed to fetch tasks"; it is never empty |
| TaskSlice.TaskListState.constructor | src/features/tasks/taskSlice.ts:19-23 | the slice starts with no tasks, not loading, and no error |
| TaskSlice.TaskListState.FetchPending | src/features/tasks/taskSlice.ts:55-57 | loading; tasks and error unchanged |
| TaskSlice.TaskListState.FetchFulfilled | src/features/tasks/taskSlice.ts:58-61 | the payload replaces the list and loading ends; the error is not reset |
| TaskSlice.TaskListState.FetchRejected | src/features/tasks/taskSlice.ts:62-65 | the error becomes the message or the fallback, loading ends, and the tasks are unchanged |
| TaskSlice.TaskListState.AddFulfilled | src/features/tasks/taskSlice.ts:66-68 | the payload is appended at the end; `loading` and `error` are untouched |
| TaskSlice.TaskListState.UpdateFulfilled | src/features/tasks/taskSlice.ts:69-72 | the `findIndex`-then-overwrite update equals the reference `UpdateFirst`; `loading` and `error` are untouched |
| TaskSlice.TaskListState.DeleteFulfilled | src/features/tasks/taskSlice.ts:73-75 | every task with that id is removed, keeping order; `loading` and `error` are untouched |
| Coherence.FetchAfterCreate | src/features/tasks/taskSlice.ts:66-68 | listing after a create gives the owner's old listing with the new task at the end, which is where the add reducer pushes it; other users' listings do not change |
| Coherence.DeleteCommutes | src/features/tasks/taskSlice.ts:73-75 | listing after a backend delete equals the delete reducer applied to the old listing |
| Coherence.UpdateAgrees | src/features/tasks/taskSlice.ts:69-72 | with unique ids, the view's first-match update equals the backend's replace-every-match update |
| Coherence.UpdateCommutes | src/mocks/handlers.ts:112-121 | with unique ids and an unchanged owner, listing after a backend update equals the update reducer applied, with the handler's answer, to the old listing |
| Coherence.ServiceScenario | src/mocks/handlers.ts:43-132 | from empty storage, the tasks the two consecutive creates answer with get ids 1 and 2, and after the first task is updated and deleted the owner's listing is empty; the view kept by the reducers matches every listing on the way |

## Left out

- Browser storage and JSON: each storage key is an in-memory field. Serialisation and a malformed stored value (which would make `JSON.parse` throw) are not modelled.
- The MSW request/response machinery and URL parsing. `Number(params.id)` and its NaN case are not modelled: the id is an `int` parameter.
- MockBackend.MockServer.ListTasks: the `username` query parameter is a string. A missing parameter would read as `null`, match no task, and give an empty list; that case is not modelled.
- Task ids are unbounded integers. JavaScript numbers lose precision above 2^53, which is not modelled.
- axios and the `fetchTasks`, `addTask`, `updateTask` and `deleteTask` thunk bodies are transport only. The model hands each reducer the payload directly. The ordering that Redux Toolkit's `createAsyncThunk` applies (pending → body → fulfilled or rejected) appears only in `AuthSlice.DispatchLogin` and `AuthSlice.DispatchRegister`. Asynchronous scheduling is not modelled.
- Failed add, update and delete requests have no reducer case in the source, so they leave the view alone. Nothing in the model represents them.
- Interleaved in-flight requests, and the lost updates they can cause across whole-collection saves, are concurrency and outside this sequential model.
- Pages, forms, routing and start-up code (`src/pages/*`, `src/components/TaskForm.tsx`, `src/App.tsx`, `main.tsx`, `src/main.tsx`) are presentation. This includes the Dashboard injecting the current username into new tasks.
