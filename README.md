# Poco session pool, loggers, queues and channels in Dafny

This project models the sequential core of several POCO C++ Libraries
components and proves properties of the model:

- `Poco::Data::SessionPool` (`session_pool.dfy`, module `SessionPooling`): a
  bounded pool of reusable database sessions. It keeps an idle list, an active
  list, an allocation counter bounded by `maxSessions`, a shut-down flag, pool
  default features and properties, and the override records that
  `get(name, value)` files for restoring on return. Sessions are opaque
  identities. Each borrow hands out a new wrapper, and the records are filed
  under that wrapper. `putBack` looks them up under the session itself, so as
  the code stands no override is undone (see Findings). The pool's calls into
  a session (create, reset, setFeature, setProperty, apply the defaults, close)
  are appended to a log, so that contracts say which calls each operation
  makes, in order. The pool invariant is `nSessions == |idle| + |active|`, at
  most `maxSessions` once positive, with no session held twice. Every
  operation keeps it.
- `Poco::Logger` (`logger.dfy`, module `Logging`; `log_format.dfy`, module
  `LogFormat`).
  - Level parsing; `log` and `dump` on one logger.
  - The dotted-name hierarchy: prefix matching, parent lookup, inheritance on
    creation.
  - The logger map: `get`, `create`, `find`, `destroy`, `names`, `add`,
    `shutdown`, and the setters by name.
  - The `$n` template formatter and the hex-dump formatter.
- `Poco::MemoryPool` (`memory_pool.dfy`): a LIFO free list of blocks, with an
  optional limit on the number of blocks allocated.
- `Poco::NotificationQueue` and `Poco::PriorityNotificationQueue`
  (`notification_queue.dfy`, `priority_notification_queue.dfy`).
  - A FIFO queue with urgent push-front, plus a multimap queue ordered by
    priority.
  - A notification enqueued while threads wait goes to the oldest waiter
    instead.
  - `dispatch` drains the queue into a notification center.
- `Poco::NotificationCenter` (`notification_center.dfy`): an ordered observer
  list. Posting delivers to every observer in order.
- `Poco::SplitterChannel` (`splitter_channel.dfy`): an ordered channel list.
  Logging fans out to every channel. A "channel" property is tokenized and
  looked up.
- `Poco::AsyncChannel` (`async_channel.dfy`, module `AsyncLogging`): admission
  to the bounded queue and the dropped-message summary in `log`, `close`, and
  property and priority parsing.

Shared modules:
- `Results`: the null pointers and exceptions as `Option`, `Result` and
  `Status`.
- `Seqs`: `std::find` and `erase` on lists.
- `Text`: the parts of `icompare`, `NumberParser`, `format("%z")` and
  `StringTokenizer` (with `TOK_IGNORE_EMPTY | TOK_TRIM`) that the core uses.

A method that changes an object in place is a method of a Dafny `class`. Its
contract states the object's whole new state in terms of the old one.
Specification functions for the list surgery (`Healthy`, `Sweep`,
`RemoveFirst`, `Insert`, `Posts`, `Resolved`, `WithLevel`, `Expand`,
`DumpText`, ...) carry the lemmas about what those operations mean.

## Model

| member | source | states |
|---|---|---|
| SessionPooling.SessionPool.constructor | Data/src/SessionPool.cpp:25-38 | Any limits are accepted: a new pool has no sessions, both lists empty, no defaults or override records, no borrows, is not shut down and has its janitor running; the pool invariant holds |
| SessionPooling.SessionPool.Capacity | Data/src/SessionPool.cpp:114-117 | The capacity is never below the number of allocated sessions once any is allocated |
| SessionPooling.SessionPool.Used | Data/src/SessionPool.cpp:120-124 | The number of borrowed sessions lies between 0 and the allocated count |
| SessionPooling.SessionPool.Idle | Data/src/SessionPool.cpp:127-131 | Idle plus used sessions are exactly the allocated sessions |
| SessionPooling.SessionPool.Allocated | Data/src/SessionPool.cpp:157-161 | The allocated count is never negative and, once positive, at most maxSessions |
| SessionPooling.SessionPool.Available | Data/src/SessionPool.cpp:164-168 | 0 after shutdown; otherwise available plus used is the capacity (negative for a negative maxSessions); between 0 and maxSessions whenever maxSessions >= 0 |
| SessionPooling.SessionPool.Dead | Data/src/SessionPool.cpp:140-154 | Counts the borrowed sessions that are not good; the count is 0 exactly when every borrowed session is good |
| SessionPooling.SessionPool.PurgeDeadSessions | Data/src/SessionPool.cpp:96-111 | Nothing happens after shutdown; otherwise exactly the good idle sessions stay, in order, and the counter drops by one per removed session; the invariant is kept |
| SessionPooling.Healthy | Data/src/SessionPool.cpp:101-110 | The sessions the purge keeps are never more than the list held |
| SessionPooling.HealthySubset | Data/src/SessionPool.cpp:101-110 | The purge only removes sessions (the kept multiset is a sub-multiset) |
| SessionPooling.HealthyMembers | Data/src/SessionPool.cpp:101-110 | A session survives the purge exactly when it was idle and is good |
| SessionPooling.HealthyKeepsAll | Data/src/SessionPool.cpp:145-151 | Nothing is removed, or nothing is counted dead, exactly when every session of the list is good |
| SessionPooling.SessionPool.Get | Data/src/SessionPool.cpp:65-93 | After shutdown it raises InvalidAccess with nothing changed. Otherwise it purges, then hands out the front good idle session, moving it to the front of active. With an empty idle list and the pool not full it creates a session, applies the defaults and counts it (+1). If the factory throws, it raises the factory's error with no call made. If applying the defaults throws, it raises that error after the Create and ApplyDefaults calls, with the lists and the count unchanged. With the pool full it raises SessionPoolExhausted with the lists unchanged. Each session handed out gets a new wrapper. The invariant is kept |
| SessionPooling.SessionPool.Acquire | Data/src/SessionPool.cpp:72-92 | The step after the purge: exactly one session moves from the front of idle to the front of active, in a new wrapper; a created session gets Create then ApplyDefaults and raises the count by exactly 1; a throw while applying the defaults raises SessionFailed after those two calls, with the lists and the count unchanged; exhaustion and factory failure leave the whole state unchanged |
| SessionPooling.ExclusiveMove | Data/src/SessionPool.cpp:87-91 | Moving the front idle session to the front of active keeps every session held at most once |
| SessionPooling.ExclusiveAdd | Data/src/SessionPool.cpp:76-82 | A freshly created session, not borrowed, can join the empty idle list without being held twice |
| SessionPooling.SessionPool.GetWithFeature | Data/src/SessionPool.cpp:54-62 | Borrows exactly as get() does: same session, lists, count and errors, with the record table unchanged on failure. On success the reported feature value is filed under this borrow's new wrapper, a key no earlier record has, and the one call added after get()'s calls switches the feature to the requested value |
| SessionPooling.SessionPool.GetWithProperty | Data/src/SessionPool.cpp:54-62 | The property counterpart of get(name, value): borrows exactly as get() does, files the reported property value under the new wrapper, then adds the one call that sets the new value |
| SessionPooling.LastFeatureSet | Data/src/SessionPool.cpp:59 | After the borrow-time setFeature, that value is the feature's last setting on the session |
| SessionPooling.LastPropertySet | Data/src/SessionPool.cpp:54-62 | After the borrow-time setProperty, that value is the property's last setting on the session |
| SessionPooling.SessionPool.SetFeature | Data/src/SessionPool.cpp:171-180 | InvalidAccess after shutdown or once a session exists, with the defaults unchanged; otherwise the default is inserted unless the name already has one, and getFeature then reports it |
| SessionPooling.SessionPool.GetFeature | Data/src/SessionPool.cpp:183-192 | InvalidAccess after shutdown, NotFound for a name without default, otherwise the default |
| SessionPooling.SessionPool.SetProperty | Data/src/SessionPool.cpp:195-204 | Same rules as setFeature for the property defaults; getProperty then reports the stored value |
| SessionPooling.SessionPool.GetProperty | Data/src/SessionPool.cpp:207-215 | NotFound for a name without default, otherwise the default; the shut-down flag is not consulted |
| SessionPooling.SessionPool.PutBack | Data/src/SessionPool.cpp:235-285 | Ignored after shutdown; an unknown session is a bug check with nothing changed; a borrowed session leaves active exactly once. A good one gets the return calls for the records found under its SessionImpl. As written none is found, so the calls are exactly reset, then the defaults re-applied. It goes to the front of idle with the count unchanged. A bad one, or one whose calls throw, is dropped and the count decremented. The invariant is kept |
| SessionPooling.SessionPool.Release | Data/src/SessionPool.cpp:241-280 | For a borrowed session: erased from active exactly once and no longer active. It is reused with exactly the calls reset and re-apply the defaults, since the lookups at 250 and 254 find no record, or it is discarded, or (a throwing call) dropped with a bug check |
| SessionPooling.ExclusiveReturn | Data/src/SessionPool.cpp:262-266 | Erasing a borrowed session from active, and optionally pushing it to the front of idle, keeps every session held at most once, and it is no longer active |
| SessionPooling.ReturnRestoresFeature | Data/src/SessionPool.cpp:245-259 | For whatever records putBack's lookups yield: after its calls a feature with a pool default has the default; else a feature named by the feature record has the recorded value; every other feature keeps its last value |
| SessionPooling.ReturnRestoresProperty | Data/src/SessionPool.cpp:245-259 | The same for properties: pool default first, then the value of the property record found, then the earlier value |
| SessionPooling.FeatureOverrideOutlivesReturn | Data/src/SessionPool.cpp:55-59 | As written: a record filed under a borrow's wrapper is not found under the SessionImpl, so a feature switched at borrow time and without a pool default still has the borrower's value after the return |
| SessionPooling.PropertyOverrideOutlivesReturn | Data/src/SessionPool.cpp:250-252 | As written, for properties: the lookup under the SessionImpl misses the wrapper-keyed record, and the borrower's property value survives the return |
| SessionPooling.FeatureRestoredWhenKeyedBySession | Data/src/SessionPool.cpp:254-256 | Corrected: with the record filed under the SessionImpl that putBack looks up, the return restores the feature value reported at borrow time |
| SessionPooling.PropertyRestoredWhenKeyedBySession | Data/src/SessionPool.cpp:250-252 | Corrected, for properties: the return restores the property value reported at borrow time |
| SessionPooling.SessionPool.OnJanitorTimer | Data/src/SessionPool.cpp:288-310 | Nothing happens after shutdown; otherwise the idle list becomes the kept part of the sweep, one Close call is made per evicted session in order, the count drops by the number evicted, never below minSessions when it started above it, and not at all when it started at or below |
| SessionPooling.SweepIdle | Data/src/SessionPool.cpp:293-309 | The erase loop computes exactly the sweep: the kept list, the evicted list, and the counter decreased once per eviction |
| SessionPooling.SweepPartition | Data/src/SessionPool.cpp:293-309 | Every idle session is kept or evicted, exactly once (multisets add up to the list) |
| SessionPooling.SweepEvictsStale | Data/src/SessionPool.cpp:296 | Only sessions idle longer than idleTime or not good are evicted |
| SessionPooling.SweepFloor | Data/src/SessionPool.cpp:294 | At or below minSessions nothing is evicted; above it, eviction never takes the count below minSessions |
| SessionPooling.SweepComplete | Data/src/SessionPool.cpp:294-309 | When the sweep ends above the floor, every kept session is fresh and good |
| SessionPooling.SessionPool.CloseAll | Data/src/SessionPool.cpp:324-339 | One Close call per session in list order; the counter is decremented once per session, only while positive |
| SessionPooling.ClampedSub | Data/src/SessionPool.cpp:337 | The counter after k clamped decrements: unchanged when not positive, else n - k, floored at 0 |
| SessionPooling.SessionPool.Shutdown | Data/src/SessionPool.cpp:313-321 | Idempotent: a second call changes nothing; the first stops the janitor and closes the idle then the active sessions; afterwards both lists are empty and the count is 0 |
| Logging.ParseLevel | Foundation/src/Logger.cpp:393-426 | A result is a level from 0 to 8; every failure is InvalidArgument |
| Logging.LevelNameRoundTrip | Foundation/src/Logger.cpp:395-412 | "none" parses to 0 and fatal ... trace to PRIO_FATAL ... PRIO_TRACE |
| Logging.ParseLevelIgnoresCase | Foundation/src/Logger.cpp:395-412 | parseLevel gives the same answer for a string and its lower-case form |
| Logging.ParseLevelNumeric | Foundation/src/Logger.cpp:413-425 | The decimal numbers 1 to 8 parse to themselves; every other number, 0 included, is InvalidArgument |
| Logging.Log | Foundation/src/Logger.cpp:77-83 | A message reaches the logger's channel exactly when the level is at least its priority and a channel is set |
| Logging.LogMonotone | Foundation/src/Logger.cpp:79 | A logger that passes a message on passes every more urgent one on too; level 0 passes nothing |
| Logging.Dump | Foundation/src/Logger.cpp:98-106 | Under the same test as log, the channel receives a message from the logger's name with the hex dump appended to the text; the dump uses the corrected gap test described under Findings |
| Logging.ApplyProperty | Foundation/src/Logger.cpp:66-74 | Succeeds exactly for "channel" with a registered channel or "level" with a valid level. "channel" sets the channel to the one registered under the name, and "level" sets the parsed level; every other field is kept. The errors are NotFound for an unregistered channel, the level parser's error, and PropertyNotSupported for any other name |
| Logging.ApplyPropertyUniform | Foundation/src/Logger.cpp:66-74 | Whether setting a property fails, and with which error, does not depend on the logger |
| Logging.MatchesSubtree | Foundation/src/Logger.cpp:118 | A name reaches a logger exactly when it is the root name, the logger's own name, or a dotted ancestor of it |
| Logging.MatchesExamples | Foundation/src/Logger.cpp:118 | "a" reaches "a" and "a.b" but not "ab"; the empty name reaches everything |
| Logging.MatchesTransitive | Foundation/src/Logger.cpp:136 | What a descendant's name reaches, its ancestor's name reaches too |
| Logging.LastDot | Foundation/src/Logger.cpp:379 | rfind('.'): the position of a dot with no dot after it, or None when there is no dot |
| Logging.ParentName | Foundation/src/Logger.cpp:377-390 | The parent found by the recursion is an existing logger |
| Logging.ParentNearest | Foundation/src/Logger.cpp:377-390 | The parent is a dotted ancestor and no longer ancestor exists; None means no ancestor exists (the root is then used) |
| Logging.WithLevelReaches | Foundation/src/Logger.cpp:116-122 | After setLevel(name) a logger has the new level exactly when the name reaches it; its name and channel are unchanged |
| Logging.UpdateLevels | Foundation/src/Logger.cpp:116-122 | The loop over the map gives every reached logger the level and leaves the others as they were; loggers stay under their own names |
| Logging.UpdateChannels | Foundation/src/Logger.cpp:134-140 | The same for the channel |
| Logging.UpdateProperties | Foundation/src/Logger.cpp:152-158 | Succeeds exactly when the property applies or no logger is reached, and then every reached logger has it; a failure carries the property's error, and since a refusal does not depend on the logger, no logger was changed |
| Logging.LoggerMap.constructor | Foundation/src/Logger.cpp:431 | The map starts empty |
| Logging.LoggerMap.Find | Foundation/src/Logger.cpp:323-347 | find/has: the logger stored under the name, or None exactly when there is none |
| Logging.LoggerMap.Add | Foundation/src/Logger.cpp:429-433 | Inserts under the logger's name unless the name is taken (an existing entry wins) |
| Logging.LoggerMap.Get | Foundation/src/Logger.cpp:276-301 | An existing logger is returned with the map unchanged (a second get returns the same logger); a new root gets PRIO_INFORMATION and no channel; any other new logger inherits channel and level from its nearest existing ancestor, or the root, which is created if missing; no existing logger changes |
| Logging.LoggerMap.Root | Foundation/src/Logger.cpp:315-320 | The root logger, created with the defaults if missing |
| Logging.LoggerMap.Create | Foundation/src/Logger.cpp:304-312 | Exists for an existing name with the map unchanged; otherwise inserts the given logger |
| Logging.LoggerMap.Destroy | Foundation/src/Logger.cpp:350-359 | Removes exactly the named logger, if any |
| Logging.LoggerMap.Names | Foundation/src/Logger.cpp:362-374 | Every logger name, each exactly once |
| Logging.LoggerMap.Shutdown | Foundation/src/Logger.cpp:331-336 | No logger is left |
| Logging.LoggerMap.SetLevel | Foundation/src/Logger.cpp:109-124 | Every logger the name reaches gets the level; no other changes |
| Logging.LoggerMap.SetChannel | Foundation/src/Logger.cpp:127-142 | Every logger the name reaches gets the channel; no other changes |
| Logging.LoggerMap.SetProperty | Foundation/src/Logger.cpp:145-160 | Succeeds exactly when the property applies or no logger is reached, and then every reached logger has the property set; on failure the map is unchanged and the error is the property's |
| LogFormat.Format | Foundation/src/Logger.cpp:209-238 | The loop builds exactly the escape-by-escape expansion of a template that does not end in a lone `$` |
| LogFormat.FormatPlain | Foundation/src/Logger.cpp:234 | A template without `$` comes out unchanged |
| LogFormat.FormatArgument | Foundation/src/Logger.cpp:222-227 | `$d` for a digit d gives argument d when d < argc, otherwise nothing |
| LogFormat.FormatConcat | Foundation/src/Logger.cpp:213-236 | Templates format piecewise: a well-formed head does not change how the rest is read |
| LogFormat.EscapeRoundTrip | Foundation/src/Logger.cpp:218-221 | Doubling every `$` of a text gives a template that formats back to the text, whatever the arguments |
| LogFormat.HexRoundTrip | Foundation/src/Logger.cpp:252 | The upper-case hexadecimal digits formatHex writes denote the number |
| LogFormat.HexWidth | Foundation/src/Logger.cpp:252 | A number below 16^w takes exactly w digits, so offsets and bytes have fixed width |
| LogFormat.HexCellsWidth | Foundation/src/Logger.cpp:255-260 | The hexadecimal cells of n bytes take 3n characters, plus one after the eighth byte |
| LogFormat.HexColumnWidth | Foundation/src/Logger.cpp:261-262 | With the gap test corrected, every line's hexadecimal column is 49 characters wide |
| LogFormat.HexColumnAsWrittenMisaligned | Foundation/src/Logger.cpp:261 | As written (`offset < 7`), a 7-byte line's column is 48 characters, one fewer than every other line's |
| LogFormat.FormatHexColumn | Foundation/src/Logger.cpp:254-262 | With the gap test corrected (see Findings), the hexadecimal loop and padding of one line build exactly the 49-wide column |
| LogFormat.CharColumn | Foundation/src/Logger.cpp:264-270 | One character per byte, the byte itself when 32 <= c < 127, else a dot |
| LogFormat.FormatCharColumn | Foundation/src/Logger.cpp:264-270 | The character loop builds exactly that column |
| LogFormat.LineBytes | Foundation/src/Logger.cpp:255 | Every line shows between 1 and 16 bytes |
| LogFormat.FormatDumpLine | Foundation/src/Logger.cpp:252-270 | One line: the offset in four hex digits, two blanks, the hexadecimal column, a blank, the character column |
| LogFormat.DumpLinesIndex | Foundation/src/Logger.cpp:249-271 | Line j describes the bytes from offset 16 j on |
| LogFormat.FormatDump | Foundation/src/Logger.cpp:241-273 | The message is followed by a line feed only when non-empty, then by ceil(length/16) dump lines separated by line feeds; the lines use the corrected gap test described under Findings |
| LogFormat.DumpLineLayout | Foundation/src/Logger.cpp:252-263 | With the gap test corrected (see Findings): each line starts with its offset in four hexadecimal digits (for dumps below 64 KiB), and its character column starts at position 56 on every line |
| LogFormat.DumpLineSingle | Foundation/src/Logger.cpp:252-270 | No dump line contains a line feed |
| LogFormat.DumpNewlines | Foundation/src/Logger.cpp:251 | A dump of k lines contains exactly k - 1 line feeds |
| MemoryPooling.MemoryPool.constructor | Foundation/src/MemoryPool.cpp:22-49 | Requires preAlloc >= 0, maxAlloc >= 0 and maxAlloc == 0 or maxAlloc >= preAlloc; the free list holds the preAlloc new blocks in order and the allocated count is preAlloc |
| MemoryPooling.MemoryPool.Clear | Foundation/src/MemoryPool.cpp:58-65 | The free list is empty |
| MemoryPooling.MemoryPool.Get | Foundation/src/MemoryPool.cpp:68-87 | A non-empty free list gives its last block (LIFO) with the count unchanged; an empty one gives a new block and counts it when maxAlloc is 0 or not reached, and OutOfMemory with nothing changed otherwise; the limit always holds |
| MemoryPooling.MemoryPool.Release | Foundation/src/MemoryPool.cpp:90-102 | The block is appended with no duplicate check; the count is not touched |
| MemoryPooling.MemoryPool.ReleaseThenGet | Foundation/src/MemoryPool.cpp:83-96 | A block given back is the next block handed out, and the pair leaves the pool as it was |
| NotificationQueues.NotificationQueue.constructor | Foundation/src/NotificationQueue.cpp:24-26 | Empty queue, no waiters |
| NotificationQueues.NotificationQueue.EnqueueNotification | Foundation/src/NotificationQueue.cpp:42-57 | A null argument is refused; with no waiters the notification goes to the back; otherwise the oldest waiter gets it and leaves the waiter list, and the queue stays empty |
| NotificationQueues.NotificationQueue.EnqueueUrgentNotification | Foundation/src/NotificationQueue.cpp:60-75 | The same, but into the front of the queue |
| NotificationQueues.NotificationQueue.DequeueOne | Foundation/src/NotificationQueue.cpp:200-209 | Takes the front notification, or gives null and changes nothing when the queue is empty |
| NotificationQueues.NotificationQueue.WaitDequeueNotification | Foundation/src/NotificationQueue.cpp:85-100 | Takes the front notification, or registers the caller as the newest waiter when the queue is empty |
| NotificationQueues.NotificationQueue.WaitTimedOut | Foundation/src/NotificationQueue.cpp:118-130 | A waiter that timed out leaves the waiter list (first occurrence) |
| NotificationQueues.NotificationQueue.Dispatch | Foundation/src/NotificationQueue.cpp:136-145 | Every queued notification is posted, front first, each to every observer, and the queue ends empty |
| NotificationQueues.Wakes | Foundation/src/NotificationQueue.cpp:151-154 | One wake-up signal per waiter, in waiter order |
| NotificationQueues.NotificationQueue.WakeUpAll | Foundation/src/NotificationQueue.cpp:148-156 | Every waiter is woken in order without a notification, the waiter list is emptied, the queue is untouched |
| NotificationQueues.NotificationQueue.Empty | Foundation/src/NotificationQueue.cpp:159-163 | Empty exactly when the size is 0 |
| NotificationQueues.NotificationQueue.Size | Foundation/src/NotificationQueue.cpp:166-170 | The number of queued notifications |
| NotificationQueues.NotificationQueue.HasIdleThreads | Foundation/src/NotificationQueue.cpp:193-197 | True exactly when threads wait |
| NotificationQueues.NotificationQueue.Clear | Foundation/src/NotificationQueue.cpp:173-177 | The queue is emptied; the waiters are untouched |
| NotificationQueues.NotificationQueue.Remove | Foundation/src/NotificationQueue.cpp:180-190 | True exactly when the notification was queued; only its first occurrence is erased, otherwise nothing changes |
| PriorityNotificationQueues.UpperBound | Foundation/src/PriorityNotificationQueue.cpp:48 | multimap::insert's position: after every entry of at most the new priority and, in an ordered queue, before every greater one |
| PriorityNotificationQueues.InsertShape | Foundation/src/PriorityNotificationQueue.cpp:48 | Insertion adds one entry at that position; the entries before keep their places and the ones after shift by one, so equal priorities come out in insertion order |
| PriorityNotificationQueues.InsertOrdered | Foundation/src/PriorityNotificationQueue.cpp:48 | Insertion keeps the queue ordered by priority |
| PriorityNotificationQueues.InsertMultiset | Foundation/src/PriorityNotificationQueue.cpp:48 | Insertion adds exactly the new entry, so the size grows by 1 |
| PriorityNotificationQueues.PriorityNotificationQueue.constructor | Foundation/src/PriorityNotificationQueue.cpp:24-26 | Empty, ordered, no waiters |
| PriorityNotificationQueues.PriorityNotificationQueue.EnqueueNotification | Foundation/src/PriorityNotificationQueue.cpp:42-58 | A null argument is refused; with no waiters the entry is inserted by priority; otherwise the oldest waiter gets it, and the queue is empty, as the debug assertion demands |
| PriorityNotificationQueues.PriorityNotificationQueue.DequeueOne | Foundation/src/PriorityNotificationQueue.cpp:170-180 | Takes the first entry, whose priority is the smallest, or gives null when empty |
| PriorityNotificationQueues.PriorityNotificationQueue.WaitDequeueNotification | Foundation/src/PriorityNotificationQueue.cpp:68-83 | Takes the first entry, or registers the caller as the newest waiter |
| PriorityNotificationQueues.PriorityNotificationQueue.WaitTimedOut | Foundation/src/PriorityNotificationQueue.cpp:101-113 | A waiter that timed out leaves the waiter list |
| PriorityNotificationQueues.PriorityNotificationQueue.Dispatch | Foundation/src/PriorityNotificationQueue.cpp:119-128 | Every entry is posted in queue order, which is non-decreasing priority, and the queue ends empty |
| PriorityNotificationQueues.PriorityNotificationQueue.WakeUpAll | Foundation/src/PriorityNotificationQueue.cpp:131-139 | Every waiter is woken in order, the waiter list is emptied, the queue is untouched |
| PriorityNotificationQueues.PriorityNotificationQueue.Empty | Foundation/src/PriorityNotificationQueue.cpp:142-146 | Empty exactly when the size is 0 |
| PriorityNotificationQueues.PriorityNotificationQueue.Size | Foundation/src/PriorityNotificationQueue.cpp:149-153 | The number of entries |
| PriorityNotificationQueues.PriorityNotificationQueue.HasIdleThreads | Foundation/src/PriorityNotificationQueue.cpp:163-167 | True exactly when threads wait |
| PriorityNotificationQueues.PriorityNotificationQueue.Clear | Foundation/src/PriorityNotificationQueue.cpp:156-160 | The entries are dropped; the waiters are untouched |
| Notifications.Fanout | Foundation/src/NotificationCenter.cpp:74-77 | One delivery per observer, in observer order |
| Notifications.PostsLength | Foundation/src/NotificationQueue.cpp:140-144 | Posting n notifications to w observers makes n w deliveries |
| Notifications.PostsIndex | Foundation/src/NotificationQueue.cpp:140-144 | Delivery k w + j is notification k to observer j: notification by notification, observer by observer |
| Notifications.NotificationCenter.constructor | Foundation/src/NotificationCenter.cpp:25-27 | No observers |
| Notifications.NotificationCenter.AddObserver | Foundation/src/NotificationCenter.cpp:35-39 | Appends the observer; duplicates are allowed, so the count grows by 1 |
| Notifications.NotificationCenter.RemoveObserver | Foundation/src/NotificationCenter.cpp:42-54 | Erases the first equal observer only; nothing changes when none matches |
| Notifications.NotificationCenter.HasObserver | Foundation/src/NotificationCenter.cpp:57-64 | True exactly when an equal observer is registered |
| Notifications.NotificationCenter.PostNotification | Foundation/src/NotificationCenter.cpp:67-78 | A null notification is refused; otherwise every observer registered at the call is notified once, in order |
| Notifications.NotificationCenter.CountObservers | Foundation/src/NotificationCenter.cpp:89-94 | The number of registered observers |
| Notifications.NotificationCenter.HasObservers | Foundation/src/NotificationCenter.cpp:81-86 | True exactly when countObservers() > 0, that is, when some observer is registered |
| Splitting.Broadcast | Foundation/src/SplitterChannel.cpp:83-86 | One log call per channel, in list order |
| Splitting.Resolved | Foundation/src/SplitterChannel.cpp:70-73 | The channels registered under the tokens in order, stopping at the first token without one |
| Splitting.SplitterChannel.constructor | Foundation/src/SplitterChannel.cpp:23-25 | No channels |
| Splitting.SplitterChannel.AddChannel | Foundation/src/SplitterChannel.cpp:41-47 | A null channel is refused; otherwise it is appended, duplicates allowed |
| Splitting.SplitterChannel.RemoveChannel | Foundation/src/SplitterChannel.cpp:50-62 | Erases only the first equal channel; nothing changes when it is absent |
| Splitting.SplitterChannel.SetProperty | Foundation/src/SplitterChannel.cpp:65-76 | A name starting with "channel": the value's tokens (split at ',' and ';', trimmed, empty ones skipped) are looked up and appended in order, and an unknown one stops with NotFound; any other name is not supported |
| Splitting.SplitterChannel.AddChannels | Foundation/src/SplitterChannel.cpp:70-73 | The token loop appends exactly the resolved channels; success exactly when every token resolved |
| Splitting.SplitterChannel.Log | Foundation/src/SplitterChannel.cpp:79-87 | The message goes to each channel exactly once, in list order |
| Splitting.SplitterChannel.Close | Foundation/src/SplitterChannel.cpp:90-94 | The list is emptied |
| Splitting.SplitterChannel.Count | Foundation/src/SplitterChannel.cpp:97-102 | The length of the list |
| Text.TokensProper | Foundation/src/SplitterChannel.cpp:69 | Every token is non-empty, has no blank at either end and contains no separator |
| Text.TokensJoinRoundTrip | Foundation/src/SplitterChannel.cpp:69 | Joining such tokens with a separator and tokenizing again gives the tokens back |
| Text.IEqualsLower | Foundation/src/Logger.cpp:395 | icompare(a, b) == 0 exactly when the lower-case forms are equal |
| Text.DecimalRoundTrip | Foundation/src/AsyncChannel.cpp:125 | The decimal notation of a count parses back to the count |
| Seqs.FirstIndex | Foundation/src/NotificationQueue.cpp:183 | std::find: the first position holding the element, or the end exactly when it is absent |
| Seqs.RemoveFirstMultiset | Foundation/src/NotificationQueue.cpp:183-189 | Erasing takes exactly one occurrence away, when there is one |
| Seqs.RemoveFirstShape | Foundation/src/NotificationCenter.cpp:45-52 | Elements before the erased one keep their places; the rest shift one towards the front |
| Seqs.EraseFirst | Foundation/src/SplitterChannel.cpp:54-61 | The erase loop removes exactly the first equal element and reports whether there was one |
| AsyncLogging.ParsePriority | Foundation/src/AsyncChannel.cpp:175-193 | Accepts exactly the five lower-case names; anything else is InvalidArgument |
| AsyncLogging.PriorityNameRoundTrip | Foundation/src/AsyncChannel.cpp:179-188 | Each name parses to its priority |
| AsyncLogging.ParsePriorityCaseSensitive | Foundation/src/AsyncChannel.cpp:179-190 | "High" and "NORMAL" are refused: the names are case-sensitive |
| AsyncLogging.ParseQueueSize | Foundation/src/AsyncChannel.cpp:145-151 | "none" and "unlimited" in any case, and the empty value, mean 0 (no limit); any other value is accepted exactly when it parses as an unsigned number, gives that number, and otherwise fails with Syntax |
| AsyncLogging.ParseQueueSizeDecimal | Foundation/src/AsyncChannel.cpp:150 | A number in decimal sets that queue size |
| AsyncLogging.DroppedMessage | Foundation/src/AsyncChannel.cpp:125 | The summary keeps the message's source and priority and reads "Dropped N messages." |
| AsyncLogging.AsyncChannel.constructor | Foundation/src/AsyncChannel.cpp:52-58 | The channel and priority are as given; not running, not closed, no limit, no drops, empty queue |
| AsyncLogging.AsyncChannel.Open | Foundation/src/AsyncChannel.cpp:88-93 | The worker runs afterwards |
| AsyncLogging.AsyncChannel.Close | Foundation/src/AsyncChannel.cpp:96-111 | The closed flag is set afterwards, whatever it was, so a later log call drops nothing and queues nothing |
| AsyncLogging.AsyncChannel.Log | Foundation/src/AsyncChannel.cpp:114-132 | Once closed nothing changes; with the queue at its bound the message is dropped and counted; otherwise a pending drop count is first queued as a summary and reset, the worker is started, and the message is queued; so the queue can exceed its bound by one |
| AsyncLogging.AsyncChannel.SetPriority | Foundation/src/AsyncChannel.cpp:175-193 | A valid name sets the priority; anything else is InvalidArgument with the priority unchanged |
| AsyncLogging.AsyncChannel.SetProperty | Foundation/src/AsyncChannel.cpp:135-156 | "channel" sets a registered channel (NotFound otherwise), "priority" as setPriority, "queueSize" as parsed (Syntax otherwise), other names are not supported; each leaves the other settings unchanged |

## Left out

- Threads, mutexes, lock guards and atomics: each method is one atomic step.
- LogFormat.Format: requires a template that does not end in a single unpaired `$`. For such a template, Foundation/src/Logger.cpp:217-218 steps past the last character and dereferences the end iterator, which is undefined behaviour with no result to model.
- The blocking halves of `waitDequeueNotification` in both queues. Only the registration of a waiter and the time-out removal are modelled.
- `AsyncChannel::run` (the worker thread) and the sleep and join loop of `AsyncChannel::close`: they are thread waiting and signalling. `Close` models only the first-call flag.
- The janitor timer: it is the flag `janitorRunning`. The idle age of a session is passed in as `idleAge`.
- `SessionFactory::instance().create` and `applySettings` in `get()`: they are the `created` parameter, None when the factory throws, and the `settingsFail` flag, set when a `setFeature` or `setProperty` of `applySettings` throws. Either throw leaves the lists and the count as the purge left them. The error of such a throw is `ConnectionFailed` or `SessionFailed`, not the connector's own exception class.
- SessionPooling.SessionPool.GetWithFeature: a throw of `s.getFeature` or `s.setFeature` (Data/src/SessionPool.cpp:57-59), after get() succeeded, is not modelled. Unwinding would destroy the borrowed `Session`, and its wrapper would hand the session back through `putBack`. The model does not chain that return onto a failed borrow. The same holds for SessionPooling.SessionPool.GetWithProperty.
- A session's `isGood`: it is the `isGood` parameter.
- A session's `reset`, `close`, `setFeature` and `setProperty`: they are entries of the `calls` log.
- `applySettings` (Data/src/SessionPool.cpp:218-227): it is the single `ApplyDefaults` call entry, and its loops are not modelled one call at a time.
- `customizeSession`: its body is empty.
- `PooledSessionHolder` and `PooledSessionImpl` reference counting, and `access()`.
- PooledSessionImpl wrappers are numbered by borrow and never reused. An allocator that reuses a freed wrapper's address could make a later `get(name, value)` find a stale record, and that is not modelled.
- The override records are never erased, in the source as in the model. They grow by one per `get(name, value)`.
- SessionPooling.SessionPool.PutBack: the `fails` flag stands for a throw anywhere in the good path. The calls made before the throw are not logged.
- SessionPooling.SessionPool.GetWithProperty: the property form of `get(name, value)` lives in the class header, which is not part of this model. It is modelled after `get(name, bool)` at Data/src/SessionPool.cpp:54-62.
- `Poco::Any` property values: they are an opaque `nat`.
- `MemoryPool`: the `bad_alloc` paths, `reserve`, `BLOCK_RESERVE` and the block size's contents. The header that defines `BLOCK_RESERVE` is not part of this model. Block addresses are supplied by the caller.
- `Channel::setProperty` of the base class (Channel.cpp is not part of this model): it is modelled as a `PropertyNotSupported` failure.
- `LoggingRegistry::channelForName`: it is the `channelFor` parameter. None stands for its NotFound exception, raised when no channel is registered under the name.
- `NumberParser`: modelled for plain digit strings with an optional sign, with no range limit. Text.ParseInt does not model int overflow.
- Logging.LoggerMap.Names: does not state the sorted order of `std::map` iteration, only that each name appears once.
- Logging.LoggerMap.constructor: `_pLoggerMap` as a null pointer and as an empty map behave alike, so both are the empty map.
- `Logger::log(Exception)` overloads and the convenience wrappers (`error`, `information`, ...): they format text and call `log`.
- The single-logger getters and setters: they are record updates of the `Logger` datatype.
- The `format` overloads at Foundation/src/Logger.cpp:163-206 only pack their arguments into `argv`. The argument count is `|args|`.
- Singleton accessors `defaultQueue` and `defaultCenter`.
- Observer `disable()` and what a notified observer does: a delivery is appended to the center's log.
- Notification reference counting (`duplicate`).
- SessionPooling.SessionPool.Dead: the result is an unbounded integer, with no int overflow.

## Findings

| source | as written | input that shows it | evidently intended | confidence | as-written member | corrected member |
|---|---|---|---|---|---|---|
| Foundation/src/Logger.cpp:261 | `if (offset < 7) message.append(" ");` stands in for the mid-line gap that the hex loop writes after the eighth byte | a buffer of 7 bytes: the hex column is 48 characters, every other line's is 49, so the character column starts one position early | `offset < 8`, so every short line gets the missing gap and all columns line up | not executed | LogFormat.HexColumnAsWrittenMisaligned | LogFormat.HexColumnWidth (with LogFormat.FormatHexColumn, which the dump uses) |
| Data/src/SessionPool.cpp:55 | `get(name, value)` files the restore record under `s.impl()`, the PooledSessionImpl made for this borrow at line 88, while `putBack` looks it up under `pHolder->session()`, the factory's SessionImpl (lines 250 and 254) | borrow with `get("f", true)` a session whose "f" is false and that has no pool default for "f", then return it: putBack makes only reset and applySettings, so the next borrower gets "f" still true | file the record under the session behind the wrapper, the key putBack uses, so the return restores the reported value | not executed | SessionPooling.FeatureOverrideOutlivesReturn (with SessionPooling.PropertyOverrideOutlivesReturn; SessionPooling.SessionPool.PutBack models the lookup as written) | SessionPooling.FeatureRestoredWhenKeyedBySession (with SessionPooling.PropertyRestoredWhenKeyedBySession and SessionPooling.ReturnRestoresFeature) |
