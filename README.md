# coroutine-thread-pool: verified model of its sequential core

This project models, in Dafny, the three pieces of sequential logic of the
coroutine thread pool:

- **The data container** (`DataContainers`, data_container.dfy): an
  append-only dynamic array of `Datum` records. It starts with one slot and
  doubles its capacity whenever a push finds it full. Up to 1024 slots the
  records live in an in-memory vector; the growth from 1024 to 2048 moves them
  once into a memory-mapped file named `<id>.bin`, where they stay. The class
  `DataContainer` keeps the real fields (the slot array, capacity, size, the
  active storage alternative) and a ghost `Contents` sequence. The growth policy
  is also given as functions of the number of pushes (`CapacityAfter`,
  `StorageAfter`), and the class invariant ties the fields to them.
- **The task completion state** (`Tasks`, task.dfy): the state shared by a
  `Task`, its promise and its awaiters. It holds a `complete` flag, an optional
  result and a list of waiting coroutine handles. Each mutex-guarded block is
  one atomic step. Handles are opaque numbers. Resuming a handle appends it to
  the ghost trace `resumed`; the ghost `registered` records every handle that
  `await_suspend` queued.
- **The logger's thread labels** (`Logging`, logger.dfy): `print_prefix`
  gives each new thread the next dense label. It writes a prefix that colours
  `[label+1]` with the SGR escape sequence of ECMA-48 section 8.3.117 (colour
  code `label+31`) and then resets the colour. `Logger::puts` writes the prefix,
  the message and a newline. Standard output is a string field `out`.

Two helper modules: `Wrappers` (an `Option` type for `std::optional` and for
parsers) and `Decimal` (the decimal rendering of `std::to_string` and of
`operator<<` on `size_t`, with a reader and its round trip).

## Model

| member | source | states |
|---|---|---|
| `Decimal.Render` | src/data_container.cpp:30 | the decimal text of a number has at least one digit, only digits, and no leading zero unless the number is 0 |
| `Decimal.ValueOfRender` | src/data_container.cpp:30 | reading the digits `Render` wrote gives back the same number |
| `Decimal.RenderInjective` | src/data_container.cpp:30 | different numbers are rendered as different texts |
| `Decimal.ReadNatOfRender` | src/logger.cpp:22 | a rendered number followed by a non-digit is read back exactly, with the rest of the text |
| `DataContainers.CapacityAfterIsLeastPowerOfTwo` | src/data_container.cpp:58-106 | after n pushes the capacity is a power of two, holds all n records, and is less than 2n for n > 0: starting at 1 and doubling only when full gives the least power of two that fits |
| `DataContainers.StorageAfterIsFileBacked` | src/data_container.cpp:60-85 | the records are file-backed exactly when more than 1024 have been pushed |
| `DataContainers.StorageSwitchesOnce` | src/data_container.cpp:60-85 | the storage changes on exactly one push, the 1025th, where the capacity goes from 1024 to 2048, and file-backed storage never switches back |
| `DataContainers.PowerOfTwoGap` | src/data_container.cpp:62 | no power of two lies strictly between t and 2t; `PushBack` applies it with t = 512 to conclude that the switch condition c <= 1024 < 2c holds only for capacity 1024 |
| `DataContainers.DistinctIdsDistinctFileNames` | src/data_container.cpp:30 | containers with different ids get different backing file names ("<id>.bin") |
| `DataContainers.Reallocate` | src/data_container.cpp:68-101 | the new storage (vector resize, file resize, or the new file receiving a copy of the vector) has the new capacity and keeps every old slot unchanged |
| `DataContainers.DataContainer.constructor` | src/data_container.cpp:30-36 | a new container is empty, has capacity 1 and in-memory storage, and its file name is the decimal id followed by ".bin" |
| `DataContainers.DataContainer.At` | src/data_container.cpp:52-56 | `at(i)` demands i < size and returns the i-th record pushed |
| `DataContainers.DataContainer.Size` | src/data_container.cpp:109-112 | `size()` is the number of records pushed |
| `DataContainers.DataContainer.PushBack` | src/data_container.cpp:58-107 | appends the record and keeps every earlier one; size grows by one; capacity doubles exactly when the container was full; storage switches to the file exactly when a full container of capacity 1024 grows; the invariant (size within capacity, capacity and storage as functions of the number of pushes) is kept |
| `DataContainers.PushAll` | src/main.cpp:22-31 | pushing a sequence of records one by one, as the read loop does, leaves `size()` equal to the number of pushes; reading every record back through `at` is a check the model adds (the source itself reads only `at(0)`, src/main.cpp:42), and each comes back at its position |
| `Tasks.TaskState.constructor` | src/task.h:15-21 | a fresh state is not complete, holds no result and no continuations |
| `Tasks.TaskState.ReturnValue` | src/task.h:54-86 | both overloads of `return_value` store the value and set `complete` together, leave no continuations, and resume every handle registered before completion exactly once, in registration order |
| `Tasks.TaskState.AwaitReady` | src/task.h:101-105 | `await_ready` reports `complete`, which holds exactly when a result is stored, and changes nothing |
| `Tasks.TaskState.AwaitSuspend` | src/task.h:108-123 | on a completed state `await_suspend` returns false and registers nothing; otherwise it appends the handle after the others, returns true and leaves the result unchanged |
| `Tasks.TaskState.AwaitResume` | src/task.h:125-128 | `await_resume` demands a stored result and yields the value given to `return_value` |
| `Tasks.AwaitThenComplete` | src/task.h:54-128 | two awaiters that suspend before completion are resumed once each in await order, a later awaiter does not suspend, and all read the returned value |
| `Logging.ReadPrefixOfPrefix` | src/logger.cpp:22 | the prefix is ESC "[" (i+31) "m[" (i+1) "]" ESC "[0m ", and the label can be read back from any text that starts with it |
| `Logging.PrefixInjective` | src/logger.cpp:22 | different labels give different prefixes |
| `Logging.PutsLineReadsBack` | src/logger.cpp:25-30 | a line written by `Logger::puts` is the prefix, then the message, then a newline, and gives back its label and message |
| `Logging.DistinctLabelsCount` | src/logger.cpp:19 | pairwise distinct labels are as many as the labelled threads |
| `Logging.LabelsAreDense` | src/logger.cpp:16-20 | the labels in use are exactly 0..n-1 for n labelled threads |
| `Logging.DistinctThreadsDistinctPrefixes` | src/logger.cpp:16-22 | two different threads write different prefixes |
| `Logging.Logger.constructor` | src/logger.cpp:12 | the thread map starts empty |
| `Logging.Logger.PrintPrefix` | src/logger.cpp:10-23 | a known thread keeps its label and the map is unchanged; a new thread gets the number of threads already labelled; labels stay dense and distinct; the prefix of the thread's label is written |
| `Logging.Logger.Puts` | src/logger.cpp:25-30 | `Logger::puts` labels the thread as `print_prefix` does and writes the prefix, the message and a newline |
| `Logging.Logger.Printf` | src/logger.cpp:32-43 | `Logger::printf` labels the thread as `print_prefix` does and writes the prefix followed by the formatted text |
| `Logging.LogThreeLines` | src/logger.cpp:10-30 | a thread that logs twice keeps label 0 on both lines and a second thread logging in between gets label 1 |

`DataContainer` in src/data_container.cpp:115-137 only forwards each call to
`DataContainerImpl`; the model folds the two into the one class
`DataContainers.DataContainer`.

## Left out

- The memory-mapped file itself: opening and resizing it, the check for a stale, too-small file left by an earlier run (src/data_container.cpp:76-81), and the byte copying through `reinterpret_cast` and `memcpy`. Storage is an array of records plus the `storage` alternative.
- The destructor of the container (src/data_container.cpp:38-50): closing and removing the file and logging a failure are file-system effects.
- `DataContainers.DataContainer.At`: returns a copy of the record; writing through the reference that `at` returns is not modelled (the code base only reads through it).
- `DataContainers.DataContainer.PushBack`: capacities and sizes are unbounded; the `size_t` overflow of `m_capacity * 2` near 2^64 is not modelled, since no memory could hold that many records.
- `Datum`: the coordinates are IEEE doubles that the container only copies; they are raw 64-bit words and no floating-point behaviour is modelled. The `id` field is an unbounded natural number.
- Slots past the size hold the default record in the model; in the source they are zero-filled by `resize` or hold stale file bytes. Nothing can read them.
- Mutexes and thread interleavings in src/task.h and src/logger.cpp: each locked block is one atomic step, so the race between `await_ready` and `await_suspend` appears only as the completed case of `AwaitSuspend`.
- Actual coroutine resumption: resuming a handle appends it to a ghost trace; what the resumed coroutine then does is not modelled.
- `promise_type::unhandled_exception` (src/task.h:88-92): it logs and exits the process.
- `get_return_object`, `initial_suspend` and `final_suspend`: they return the shared state and the C++ `suspend_never` policy, with no logic to state.
- `Logging.Logger.Printf`: the `vprintf` formatting of `Logger::printf` (src/logger.cpp:38-42) is not modelled; the formatted text is a parameter.
- The static-mutex singleton (src/logger.cpp:45-49).
- `std::cout` and C's standard output are modelled as one string, `out`; buffering and interleaving of the two streams are not modelled. The thread calling `print_prefix` is a parameter instead of `std::this_thread::get_id()`.
- src/pool.h, src/joinable_task.h, src/task_utils.h and scripts/profile.py: thread pool, blocking joins, coroutine glue and process plumbing, which are concurrency and I/O.
- src/main.cpp: reading doubles with `fopen`/`fscanf` and the driver; only its push loop is modelled (`PushAll`), with the records as a parameter.
