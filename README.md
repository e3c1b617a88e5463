# Timelapse photo pipeline: command queue and photo bookkeeping

This project models the core of a webcam timelapse pipeline in Dafny and proves
properties of that model.

The centre of the pipeline is a small dependency-aware command engine,
`CommandQueue` (`cmd_queue.py`). Each command is registered under the name of
the file it produces, together with the names it depends on. `run` starts
commands, at most `n_threads` at a time, once all their dependencies are
ready. An output that already exists counts as a cache hit and is not
rebuilt. `run` polls the running processes and stops launching after the
first pass that sees a failure. It gives up when commands are pending but
none can ever start.

Around the engine sits the photo bookkeeping:
- `prepare.py`, and the older `avg.py`, turn camera file names into
  date-times. They classify each photo by the position of the sun (night,
  dawn, day, dusk). They file every photo into day, month and 5-day
  averaging groups.
- `prepare.py` also memoises image fingerprints in a table it saves relative
  to an output directory, and lists the days it has seen.
- `remove-frames.py` drops the weekend days from a frame allocation and
  collects their frames.

Modules:
- `wrappers.dfy` (`Option`, `Result`).
- `pytext.dfy`: the Python builtins the scripts rely on: `int()`, slicing,
  `%0Nd`, `split('.')[0]`, `os.path.join`, string ordering and `sorted`.
- `calendar.dfy`: `datetime`, including validity, `toordinal`,
  `isoweekday` and `+ timedelta`.
- `sun.dfy`: `day_period`.
- `membership.dfy`: the group-filing fold shared by both `build_mapping`s.
- `prepare.dfy`, `avg.dfy`, `remove_frames.dfy` and `cmd_queue.dfy`: one
  module per script.

The world outside the program enters as parameters:
- the set of files that exist (`disk`), fixed for one call;
- the processes, through `spawn`, which says for each command how many polls
  report it as still running before it reports its exit status;
- the sun times of each date (`sunAt`);
- the fingerprint computation (`compute`);
- the directory listing and the set of regular files.

`CommandQueue.Run` returns a ghost trace of what it did: launches, cache
hits, exits (marked as seen while draining or not) and giving up. Its
contract says the following about that trace:
- the verdict is true exactly when the run did not give up and every failure
  it saw came while draining;
- every launch records how many processes were running at that moment,
  counted from the trace itself (the launches before it minus the exits seen
  before it), and that number is below the thread limit; no launch is for an
  output that exists;
- every exit follows the launch of its process: no prefix of the trace has
  seen more exits of a name than launches of it, so a name becomes ready
  through an exit only after its command was started;
- nothing is launched after a failure;
- every launch and cache hit took a registered command whose dependencies
  were all satisfied at that moment, and the names that left the queue are
  exactly those launched or hit, each once;
- every exit status recorded is the one the name's command exits with;
- every process started has exited;
- the final readiness table is the initial one with every cache hit and
  every exit marked ready;
- the drain events come last, and draining began with the queue empty or
  after a failure.

The trace allows more than one run. Which command starts first, and on which
pass of polling a process is seen to finish, both change the verdict. So `Run`
is also proved equal to a functional description of the same algorithm, over a
value `Sched`: the iteration order, the queue, the readiness table and the
tasks table.
- `Start` is one `start_task`, and `Launches` the launch loop
  (`cmd_queue.py:79-89`).
- `PollPass` is one `check_tasks`, and `Awaits` the polling that follows the
  launches (`cmd_queue.py:91-93`).
- `MainRun` is the main loop (`cmd_queue.py:78-93`), `Drained` the final wait
  (`cmd_queue.py:95-96`), and `RunResult` the verdict (`cmd_queue.py:98-102`).

Each method of `CommandQueue` that runs one of these loops ensures that its
results and its new state are what the matching function computes from the old
state. `Run` thus returns `RunResult` of the registered commands, `disk`,
`spawn` and the thread limit.

The model follows the code in these points:
- `check_tasks` marks a finished command's name ready whatever its exit
  status (`cmd_queue.py:60`).
- The error of a polling pass is the *last* failing task of that pass,
  because each failure overwrites `error` (`cmd_queue.py:57-58`).
- Failures seen in the final drain loop are not reported
  (`cmd_queue.py:95-96`). The round that launches the last command still
  polls (`cmd_queue.py:91-93`), and a failure seen there makes `run` return
  false. The main loop ends after a round whose polling saw no failure and
  left a slot free. A process that fails after that is seen only by the
  drain, and `run` then returns true. Two lemmas show both cases on the same
  two commands on two threads. In `FailureInMainLoop` one command fails at its
  first poll, and the verdict is false. In `FailureWhileDraining` it fails one
  poll later, and the verdict is true.
- A duplicate `add` is an `assert`, not a dedicated error. `Add` models it as
  a refused registration that changes nothing.
- The order in which `next` scans the queue is the iteration order of a
  Python 2 dict. It is modelled as insertion order.

## Model

| member | source | states |
|---|---|---|
| PyText.PyInt | prepare.py:102-106 | `int()` of a non-empty string of ASCII digits is the number the digits denote |
| PyText.PyIntBound | avg.py:15 | what `int()` reads from w characters lies strictly between -10^w and 10^w |
| PyText.Slice | remove-frames.py:13 | `s[i:j]` within bounds is that subsequence; in every case it is no longer than j - i |
| PyText.Pad | prepare.py:129-139 | `%0Nd` of a non-negative number: its decimal digits, zero-padded on the left to at least N characters (PadValue, PadLength and PadWide state its meaning) |
| PyText.PadValue | prepare.py:129-139 | `%0Nd` prints only digits, and they read back as the number printed |
| PyText.PadLength | prepare.py:130-132 | a number below 10^w is printed in exactly w characters |
| PyText.PadWide | avg.py:41-50 | a number at least w digits wide is printed without padding |
| PyText.BeforeDot | prepare.py:91 | `split('.')[0]` is a prefix free of '.', and when shorter than the name it is followed by '.' |
| PyText.BeforeDotNoDot | prepare.py:91 | a stem without '.' followed by `.` and anything is split back to that stem |
| PyText.Join | prepare.py:149 | `os.path.join(a, b)`: an absolute b replaces a, otherwise one '/' separates them (JoinPlain states it for plain segments) |
| PyText.JoinPlain | prepare.py:160-163 | `os.path.join` of three plain segments is `a/b/c` |
| PyText.SplitUnique | prepare.py:159-174 | a path `a/b` whose a has no '/' determines a and b |
| PyText.Less | prepare.py:342 | Python's `<` on strings: lexicographic by character code, a proper prefix first (LessIrreflexive and LessTransitive make it a strict order) |
| PyText.Insert | prepare.py:341-342 | adding a day keeps the list strictly sorted, and its elements are the old ones plus the new one |
| PyText.SortedUnique | prepare.py:342 | two strictly sorted lists with the same elements are equal, so `sorted(days.keys())` is determined by the keys |
| Calendar.DaysInMonth | prepare.py:108 | every month has 28 to 31 days |
| Calendar.Make | prepare.py:108 | `datetime(...)` succeeds exactly on valid fields and keeps them; otherwise ValueError |
| Calendar.NextDay | prepare.py:169 | the next day is a calendar date in the same or a later year |
| Calendar.PrevDay | prepare.py:167 | the previous day is a calendar date at most one year earlier |
| Calendar.NextOfPrev | prepare.py:165-169 | the day after the previous day is the day itself |
| Calendar.PrevOfNext | prepare.py:165-169 | the day before the next day is the day itself |
| Calendar.ShiftDays | prepare.py:165-169 | shifting by whole days gives a calendar date with the same time of day |
| Calendar.Ordinal | prepare.py:165-169 | `toordinal()`: days before the year, plus days before the month, plus the day (OrdinalNext and OrdinalShift state that it counts days) |
| Calendar.OrdinalNext | prepare.py:169 | the ordinal of the next day is one more |
| Calendar.OrdinalPrev | prepare.py:167 | the ordinal of the previous day is one less |
| Calendar.OrdinalShift | prepare.py:165-169 | shifting by k days moves the ordinal by exactly k |
| Calendar.AddDaysMoves | prepare.py:165-169 | `+ timedelta(k)` yields a valid datetime k ordinals later at the same time, and fails exactly when the year leaves the supported range |
| Calendar.AddDays | prepare.py:165-169 | `dt ± timedelta(k)`: the date k days on at the same time, or OverflowError outside years 1 to 9999 (AddDaysMoves states its meaning) |
| Calendar.AddSeconds | prepare.py:109-110 | `dt + timedelta(seconds=s)`: the day carry is the floor of the seconds over 86400, or OverflowError outside years 1 to 9999 (AddSecondsMoves states its meaning) |
| Calendar.AddSecondsMoves | prepare.py:109-110 | `+ timedelta(seconds=s)` yields a valid datetime exactly s seconds later |
| Calendar.IsoWeekday | remove-frames.py:14 | `isoweekday()` is between 1 and 7 |
| Calendar.Epoch | remove-frames.py:14 | 0001-01-01 has ordinal 1 and is a Monday |
| Calendar.WeekdayCycle | remove-frames.py:14 | each day's weekday follows the previous day's, Sunday wrapping to Monday |
| Sun.Period.Name | prepare.py:121-127 | each period name is a non-empty path segment other than `all` and `period` |
| Sun.NamesDiffer | prepare.py:121-127 | different periods have different names |
| Sun.DayPeriod | prepare.py:113-127 | each of night, dawn, dusk and day is returned exactly when its branch condition holds (avg.py:24-38 is the same function; TimeOfDay is `date.time()` in microseconds) |
| Sun.PeriodIntervals | prepare.py:120-127 | with ordered sun times, dawn, day, dusk and night are the intervals [dawn, sunrise), [sunrise, sunset], (sunset, dusk] and the rest |
| Sun.PeriodMonotone | prepare.py:120-127 | between dawn and dusk a later time never falls into an earlier period |
| Membership.Build | prepare.py:141-182 | the loop over `files` as a fold: each file's details enter `mapping` and are appended to each of its groups; the first failing file's error stops it (BuildFails and BuildContents state its meaning) |
| Membership.AddToAt | prepare.py:176-180 | filing under distinct keys appends the details once to each of the photo's groups and leaves every other group unchanged |
| Membership.BuildFails | prepare.py:144-146 | the build fails exactly when some file fails, and then with the error of the first failing file |
| Membership.BuildErrExtends | prepare.py:144-157 | once a prefix of the files fails, the whole build fails with that error |
| Membership.BuildContents | prepare.py:141-182 | after a successful build, `mapping` holds exactly the files with their details, and each group lists exactly its members in file order |
| Membership.KeyInjective | prepare.py:159-174 | a group key `a/b/c` determines its three segments |
| Membership.WindowKeys | prepare.py:171-174 | each window day contributes two keys |
| Membership.GroupKeys | prepare.py:159-174 | a photo has four day and month keys plus two per window day |
| Membership.GroupKeysSnoc | prepare.py:171-174 | one more window day appends its two keys at the end |
| Membership.WindowPair | prepare.py:171-174 | day j of the window gives keys 2j and 2j+1: `5day/<day j>/all`, then `5day/<day j>/<period>` |
| Membership.GroupKeysDistinct | prepare.py:159-174 | the keys of one photo are pairwise different |
| Membership.TripleAt | prepare.py:159-174 | every key of a photo is an `a/b/c` key |
| Prepare.ReadDate | prepare.py:102-108 | a successful read is a valid datetime in the given year |
| Prepare.FnToDate | prepare.py:90-111 | a result is a valid datetime, and the length assertion fails exactly when the stem has neither 12 nor 14 characters |
| Prepare.AddSecondsFails | prepare.py:109-110 | a shift can only fail with OverflowError |
| Prepare.FnToDateShort | prepare.py:93-95 | a 12-digit stem is read as `YYMMDDhhmmss` with century 2000: the result is `datetime` of the six digit pairs |
| Prepare.FnToDateLong | prepare.py:96-98 | a 14-digit stem is read as `YYYYMMDDhhmmss` |
| Prepare.FnToDateShift | prepare.py:109-111 | a zero shift is no shift, a failing name fails the same way with a shift, and a successful shift moves the time by exactly the shift |
| Prepare.FieldsFit | prepare.py:129-139 | every field of a valid datetime prints in its fixed width and reads back as itself |
| Prepare.DtString | prepare.py:129-133 | the stamp is 14 digits |
| Prepare.DayString | prepare.py:135-136 | the day string is 8 digits |
| Prepare.MonthString | prepare.py:138-139 | the month string is 6 digits |
| Prepare.StringPrefixes | prepare.py:129-139 | the day string is the first 8 characters of the stamp, and the month string the first 6 of the day string |
| Prepare.DtStringFields | prepare.py:129-133 | the stamp's slices read back as year, month, day, hour, minute and second |
| Prepare.RoundTrip | prepare.py:90-133 | the name `dt_string(d) + '.jpg'` parses back to d |
| Prepare.StampName | prepare.py:91-98 | a 14-digit stamp followed by `.jpg` takes the long layout |
| Prepare.StampFields | prepare.py:96-108 | the fields read from a stamp rebuild the datetime it was printed from |
| Prepare.DayStringInjective | prepare.py:135-136 | equal day strings mean the same calendar day |
| Prepare.DayAfter | prepare.py:165-169 | a day string k days on fails exactly when the datetime addition overflows |
| Prepare.WindowDays | prepare.py:165-169 | n consecutive day strings, each the day `lo + j` days on, failing exactly when one of them overflows |
| Prepare.DayStringsDiffer | prepare.py:135-136 | days with different ordinals have different day strings |
| Prepare.WindowDay | prepare.py:165-169 | window position j of Window, the list of five day strings, is the day j - 2 days from the photo |
| Prepare.WindowDistinct | prepare.py:165-174 | the five window days are distinct, plain segments, with the photo's own day in the middle |
| Prepare.FileEntry | prepare.py:144-174 | one file's details and its fourteen group keys in the order they are appended, or the error of its name or window (Prepare.FileFails and Prepare.FileGroups state its meaning) |
| Prepare.FileFails | prepare.py:144-169 | a file fails exactly when its name does not parse or a window day overflows |
| Prepare.FileGroups | prepare.py:144-174 | a parsed photo has its details and fourteen pairwise different groups: day and month, for all periods and for its own, then the five window days |
| Prepare.WindowGroups | prepare.py:165-174 | the 5-day groups are `5day/<day>/all` and `5day/<day>/<period>` for the days from two before to two after, in that order |
| Prepare.BuildMapping | prepare.py:141-182 | the loop computes the fold over the files, stopping at the first error |
| Prepare.MembershipList | prepare.py:159-174 | the `membership` list is the photo's group keys, or the window's overflow |
| Prepare.AddToGroups | prepare.py:176-180 | the loop over `membership` creates or appends each group as the fold does |
| Prepare.Groups | prepare.py:159-164 | the four `os.path.join` keys are the day and month group keys |
| Prepare.WindowPair | prepare.py:171-174 | the two joined keys of a window day are its `all` and period keys |
| Prepare.BuildMappingContents | prepare.py:141-182 | a successful build maps exactly the files to their details, and each group holds its members in file order |
| Prepare.Forget | prepare.py:34-37 | the path is gone and every other entry stays as it was |
| Prepare.Memo | prepare.py:39-43 | the answer is the table's entry for the path afterwards, and no other entry changes |
| Prepare.MemoStable | prepare.py:39-43 | a second lookup of a path answers the same and changes nothing |
| Prepare.MemoComputes | prepare.py:34-43 | the fingerprint is computed only for a path not in the table, or one invalidated since |
| Prepare.ForgetOthers | prepare.py:34-43 | invalidating one path keeps the stored answers for every other path |
| Prepare.FingerprintCache.constructor | prepare.py:16 | the table starts empty |
| Prepare.FingerprintCache.Invalidate | prepare.py:34-37 | the new table is the old one without the path |
| Prepare.FingerprintCache.Fingerprint | prepare.py:39-43 | the answer and the new table are the memoised lookup |
| Prepare.FingerprintCache.SaveData | prepare.py:45-51 | the saved table holds a key k exactly when `root + k` is cached, with that entry's fingerprint (StartsWith is `str.startswith`) |
| Prepare.DayList | prepare.py:338-342 | the days are strictly increasing and are exactly the days of the mapping |
| Avg.DtString | avg.py:40-44 | `%02d` of year, month, day, hour, minute and second, concatenated (Avg.StringPrefixes and Avg.SameStrings state its properties) |
| Avg.DayString | avg.py:46-47 | `%02d` of year, month and day, concatenated |
| Avg.MonthString | avg.py:49-50 | `%02d` of year and month, concatenated |
| Avg.NameMatches | avg.py:125-130 | `re.match(r'\d{12}\.jpg')`: twelve ASCII digits then `.jpg` at the start of the name (Avg.Kept states what the loop keeps) |
| Avg.FileEntry | avg.py:55-91 | one file's details and its fourteen group keys, with `period` as the 5-day segment, or the error of its name or window (Avg.FileGroups states its shape) |
| Avg.FnToDate | avg.py:14-22 | a result is a valid datetime after 1900 |
| Avg.TwoDigitYear | avg.py:15 | `int()` of at most two characters is above -100 |
| Avg.StringPrefixes | avg.py:40-50 | the day string starts the stamp and the month string starts the day string |
| Avg.SameStrings | avg.py:40-50 | from year 1000 on, the `%02d` strings equal the `%04d` strings of the preparation script |
| Avg.MatchedNamesAgree | avg.py:14-22 | a name that `find_files` accepts is read by this `fn_to_date` exactly as by the preparation script's without a shift |
| Avg.Kept | avg.py:124-132 | the kept names are exactly the listed names that are regular files and match the pattern |
| Avg.FindFiles | avg.py:124-132 | the loop keeps those names in listing order, and both scripts parse them the same way |
| Avg.FileGroups | avg.py:55-91 | a parsed photo has fourteen groups, with the 5-day period groups under the literal segment `period` |
| Avg.SharedMiddle | avg.py:82-85 | photos whose windows share their middle day share the `5day/<day>/period` group |
| Avg.PeriodsShareWindow | avg.py:70-91 | two photos of one day in different periods have different day-period groups but the same 5-day `period` group |
| Avg.MembershipList | avg.py:70-85 | the `membership` list is the photo's group keys with `period` as the 5-day segment, or the window's overflow |
| Avg.Spelled | avg.py:71-74 | `'a/' + b + '/c'` is the key `a/b/c` |
| Avg.Groups | avg.py:70-75 | the four concatenated keys are the day and month group keys |
| Avg.WindowPair | avg.py:82-85 | the two concatenated keys of a window day end in `all` and in `period` |
| Avg.BuildMapping | avg.py:52-93 | the loop computes the fold over the files, stopping at the first error |
| RemoveFrames.IsWeekend | remove-frames.py:12-15 | `is_weekend`: the year, month and day read from characters 0-4, 4-6 and 6-8; a non-number or an invalid date is the error `int()` or `datetime()` raises; otherwise whether the ISO weekday is 6 or 7 (IsWeekendMeaning states its meaning) |
| RemoveFrames.IsWeekendMeaning | remove-frames.py:12-15 | a day string classifies exactly when it holds a date, and is then a weekend exactly on Saturdays and Sundays |
| RemoveFrames.WeekendOfDayString | remove-frames.py:12-15 | a day string written by `day_string` is classified by its date's weekday |
| RemoveFrames.FirstBad | remove-frames.py:20-21 | the first entry whose day is not a date, with all entries before it classifying |
| RemoveFrames.RemoveWeekends | remove-frames.py:17-25 | succeeds exactly when every day classifies; then the output is the weekday entries in order and `removed` the weekend frames, otherwise the first bad day's error |
| RemoveFrames.Step | remove-frames.py:20-24 | one more entry extends the kept list and the removed sum as the loop body does |
| RemoveFrames.FirstBadAt | remove-frames.py:20-21 | the first index whose day fails is the failing position |
| RemoveFrames.Conservation | remove-frames.py:17-25 | kept frames plus removed frames equal the total |
| RemoveFrames.Count | remove-frames.py:57-60 | kept days plus weekend days are all the days, so the "removed" count is the weekend count |
| RemoveFrames.WeekdaysMembers | remove-frames.py:20-24 | the kept entries are exactly the input's weekday entries |
| RemoveFrames.WeekdaysAppend | remove-frames.py:17-25 | filtering commutes with concatenation, so input order is kept |
| CmdQueue.DepsSatisfied | cmd_queue.py:22-27 | true exactly when every dependency is ready in the table, or unknown to it and present on disk (the predicates Satisfied and Runnable state this condition) |
| CmdQueue.RegisteredBlocks | cmd_queue.py:23-27 | a registered, unfinished dependency blocks even if its file exists |
| CmdQueue.RunnableMonotone | cmd_queue.py:23-27 | more readiness never blocks a runnable entry |
| CmdQueue.FirstRunnable | cmd_queue.py:19-31 | the selected entry is runnable and every earlier one (all, when none is selected) is not |
| CmdQueue.NothingRunnable | cmd_queue.py:19-31 | nothing is selected exactly when no pending entry is runnable |
| CmdQueue.RemoveAt | cmd_queue.py:29 | removing an entry leaves the others, still distinct, one fewer |
| CmdQueue.TookMeaning | cmd_queue.py:19-31 | a returned job was pending and runnable and is removed; none is returned exactly when nothing is runnable, and then the queue is unchanged (Took is the relation `Next` ensures) |
| CmdQueue.Replace | cmd_queue.py:46 | a task of the same name is replaced where it stands, with length and names kept |
| CmdQueue.Put | cmd_queue.py:46 | after `tasks[fn] = task` the names are the old ones plus fn |
| CmdQueue.PollSplit | cmd_queue.py:52-61 | a pass splits the table into finished and still-running tasks, names and counts adding up |
| CmdQueue.PollProgress | cmd_queue.py:52-61 | each pass over n tasks removes n polls still to come |
| CmdQueue.DoneFinished | cmd_queue.py:52-54 | `done` holds tasks of the table whose poll reported an exit |
| CmdQueue.LastFailure | cmd_queue.py:56-58 | no error exactly when every finished task exited 0; otherwise the last failing finished task |
| CmdQueue.MarkReady | cmd_queue.py:56-60 | the finished names become ready and every other entry keeps its value |
| CmdQueue.Exits | cmd_queue.py:56-61 | one exit event per finished task, in `done` order |
| CmdQueue.ExitsCount | cmd_queue.py:56-61 | a pass starts nothing and finishes exactly its finished tasks |
| CmdQueue.CommandQueue.constructor | cmd_queue.py:9-12 | empty readiness table and queue, with the given thread count |
| CmdQueue.CommandQueue.Add | cmd_queue.py:14-17 | a new name is queued last and marked not ready; a pending name is refused and nothing changes |
| CmdQueue.CommandQueue.Waiting | cmd_queue.py:68-69 | the number of pending commands |
| CmdQueue.CommandQueue.Next | cmd_queue.py:19-31 | takes the first runnable entry in queue order out of the queue and returns it, or returns none and changes nothing |
| CmdQueue.CommandQueue.StartTask | cmd_queue.py:36-47 | takes the next job; an existing output is marked ready, otherwise its process is put into the table |
| CmdQueue.Done | cmd_queue.py:52-54 | the `done` list: the tasks whose poll reports an exit status, in table order (DoneFinished and PollSplit state its properties) |
| CmdQueue.Polled | cmd_queue.py:52-61 | the table after a pass: the tasks still running, each one poll nearer its exit (PollSplit and PollProgress state its properties) |
| CmdQueue.PollTasks | cmd_queue.py:49-54 | one poll of each task returns exactly the finished tasks, in table order, and the still running ones, one poll nearer to their exit (Poll is `poll()`: the exit status once no polls are left) |
| CmdQueue.CommandQueue.CheckTasks | cmd_queue.py:49-66 | finished tasks become ready and leave the table, the others are polled once, and the error is the last failure |
| CmdQueue.CheckOne | cmd_queue.py:56-60 | one more finished task becomes the error if it failed and is marked ready |
| CmdQueue.CommandQueue.LaunchReady | cmd_queue.py:79-89 | the launch loop either gets stuck (nothing running, commands pending, none runnable) or stops with all slots taken, the queue empty, or nothing runnable; it launches or hits at least once, or stops with tasks still running; the flag and the new state are `Launches` of the old state |
| CmdQueue.CommandQueue.LaunchNext | cmd_queue.py:80-82 | one `start_task`: the first runnable entry leaves the queue and is recorded as a cache hit, marked ready, or as a launch below the limit whose task is appended with `spawn`'s process; none only when nothing is runnable, and then nothing changes; the new state is `Start` of the old one |
| CmdQueue.CommandQueue.Check | cmd_queue.py:91 | one `check_tasks`: the trace gains the exits of the finished tasks, the table becomes the polled one, the finished names become ready, the error is the last failure and is set exactly when the trace has a failure; the error and the new state are `PollPass` of the old state |
| CmdQueue.CommandQueue.AwaitSlot | cmd_queue.py:91-93 | the polling stops with a slot free or an error, with at least one poll consumed, adding only exits seen outside draining; the error and the new state are `Awaits` of the old state |
| CmdQueue.CommandQueue.Drain | cmd_queue.py:95-96 | polls until no task runs, without launching or changing the queue, adding only exits seen while draining; the readiness table it leaves is that of `Drained` |
| CmdQueue.CommandQueue.Schedule | cmd_queue.py:78-93 | the main loop ends stuck (commands pending, none runnable, none running), with an error, or with the queue empty and a slot free; the flag, the error and the state are `MainRun` of the initial state; the error is set exactly when the trace has a failure; the trace keeps the record of the run: each launch counted below the limit from the launches and exits before it, every exit after its launch, every start runnable when taken, the names taken exactly those gone from the queue, exit statuses those of the commands, started processes either exited or in the table, readiness the replay of the trace |
| CmdQueue.CommandQueue.Run | cmd_queue.py:71-102 | true exactly when the run did not get stuck and every failure came while draining; true implies the queue is empty; stuck implies commands pending and none runnable; each launch records the processes then running, counted from the launches and exits before it, and that count is below the limit; launches only for missing outputs, none after a failure; no prefix has more exits of a name than launches of it; each launch or hit was runnable when taken, and the names gone from the queue are those taken, each once; exit statuses are those of the commands; every started process has exited; readiness is the replay of the trace; drain events come last; the verdict and the final state are `RunResult` of the initial state |
| CmdQueue.CommandQueue.Round | cmd_queue.py:79-93 | one round of the main loop, launches then polling, keeps the record of the run and is one step of `MainRun`: stuck, an error, or the rest of the main loop from the new state |
| CmdQueue.CommandQueue.RunningAtStart | cmd_queue.py:71-78 | before the main loop the record holds with no events and no tasks |
| CmdQueue.Start | cmd_queue.py:36-47 | one `start_task` on a value: none exactly when no pending command is runnable; otherwise one pending name fewer, the order still listing the queue once each (Pending), and at most one more task |
| CmdQueue.Launches | cmd_queue.py:79-89 | the launch loop gives up only with no task running, commands pending and none runnable; otherwise it stops with all slots taken, the queue empty, or nothing runnable, never above the limit |
| CmdQueue.PollPass | cmd_queue.py:49-66 | one pass leaves the queue as it was, no more tasks, and as many fewer polls ahead as there were tasks |
| CmdQueue.Awaits | cmd_queue.py:91-93 | the polling stops with a slot free or an error, and consumes polls whenever tasks run |
| CmdQueue.MainRun | cmd_queue.py:78-93 | the main loop gives up only with commands pending, none runnable and none running; otherwise it ends with an error, or with the queue empty and a slot free |
| CmdQueue.Drained | cmd_queue.py:95-96 | the drain ends with no task running and the queue as it was |
| CmdQueue.RunResult | cmd_queue.py:71-102 | the verdict of `run` and the state it leaves: no task running, and a true verdict only with the queue empty |
| CmdQueue.DrainedStep | cmd_queue.py:95-96 | after one drain pass, what is left to drain gives the same end state |
| CmdQueue.PutNew | cmd_queue.py:46 | a name new to the table is appended after the others |
| CmdQueue.TwoPending | cmd_queue.py:14-17 | two commands added under their own names form a well-formed queue |
| CmdQueue.FirstOfTwo | cmd_queue.py:19-31 | with no dependencies, the first start takes the first registered command |
| CmdQueue.SecondOfTwo | cmd_queue.py:36-47 | the second start takes the other command, appends its task and leaves nothing pending |
| CmdQueue.TwoLaunched | cmd_queue.py:79-89 | on two threads the launch loop launches both commands in registration order |
| CmdQueue.PollTwo | cmd_queue.py:52-61 | a pass over two tasks: the finished ones in table order, the others polled once |
| CmdQueue.FailureInMainLoop | cmd_queue.py:78-102 | a failure seen by the polling that follows the last launch stops the main loop, and `run` returns false |
| CmdQueue.FailureWhileDraining | cmd_queue.py:78-102 | a failure seen only by the drain, after the main loop ended with the queue empty, is ignored, and `run` returns true |
| CmdQueue.StuckStep | cmd_queue.py:83-86 | giving up records one final `Stuck` event |
| CmdQueue.StuckLast | cmd_queue.py:83-86 | a run that gave up has no drain events |
| CmdQueue.StartStep | cmd_queue.py:36-47 | a `start_task` that took a runnable pending name, recorded as a cache hit or a launch, keeps the invariant of the main loop, and a launched name was not in the table so it is appended |
| CmdQueue.CacheHitStep | cmd_queue.py:40-41 | a cache hit of a runnable pending name keeps the record true after the name is marked ready and leaves the queue |
| CmdQueue.LaunchStep | cmd_queue.py:43-46 | a launch below the limit of a runnable pending name, recording the size of the table as the processes running, keeps the record true with the new task in the table |
| CmdQueue.LaunchCounts | cmd_queue.py:44-46 | a launch starts one process, adds its task, and takes its name |
| CmdQueue.HitCounts | cmd_queue.py:40-41 | a cache hit starts and finishes nothing and takes its name |
| CmdQueue.TakeOne | cmd_queue.py:29 | deleting a pending name from the queue adds exactly that name to the names gone |
| CmdQueue.ReplaySnoc | cmd_queue.py:41 | one more cache hit or exit marks its name ready, any other event changes nothing |
| CmdQueue.ReplayExits | cmd_queue.py:56-60 | replaying the exits of a pass gives the table `check_tasks` leaves |
| CmdQueue.ReplayMarks | cmd_queue.py:41 | the replayed table only grows, and every name hit or exited is ready in it |
| CmdQueue.StartsSnoc | cmd_queue.py:19-31 | a start whose dependencies are satisfied now keeps every start justified |
| CmdQueue.PassStep | cmd_queue.py:49-61 | a polling pass keeps the record true for the state it leaves, every reported exit following its launch |
| CmdQueue.BalancedCounts | cmd_queue.py:46-61 | with every started process either exited or in the table, no more exits than launches have been seen and the difference is the size of the table |
| CmdQueue.SnocOrder | cmd_queue.py:40-46 | a launch recording the size of the table, or a cache hit, keeps every exit after its launch and every launch counted |
| CmdQueue.PassOrder | cmd_queue.py:52-61 | the exits of a polling pass are exits of processes in the table, so each follows its launch |
| CmdQueue.ExitsOrder | cmd_queue.py:56-61 | reporting exits of processes started and not yet seen to exit keeps every exit after its launch and adds no launch |
| CmdQueue.ExitRoom | cmd_queue.py:56-61 | before the last exit of a pass is reported, its process is still started and not seen to exit |
| CmdQueue.OrderedPrefixes | cmd_queue.py:79-96 | at every index, the exits seen so far are at most the launches, and each launch's recorded count is the launches minus the exits before it |
| CmdQueue.PassBalanced | cmd_queue.py:52-61 | after a pass, the processes started are those whose exit was seen plus those still in the table, and no name was taken |
| CmdQueue.PassEventsOk | cmd_queue.py:56-60 | the exits of a pass are not starts, so every earlier launch and hit keeps its conditions |
| CmdQueue.TasksPass | cmd_queue.py:52-61 | polling keeps each task's command and exit status, for the finished and the still-running tasks |
| CmdQueue.ExitsOkExits | cmd_queue.py:56-58 | the exits of a pass report the exit statuses of the commands registered under their names |
| CmdQueue.PassShrinks | cmd_queue.py:56-61 | a pass leaves only names the table held, and no more tasks |
| CmdQueue.ExitsAfterPass | cmd_queue.py:91-96 | a pass appends its exits after those a loop appended before |
| CmdQueue.DrainShape | cmd_queue.py:78-96 | a main loop ended by an empty queue or a failure, followed by drain exits, leaves the drain events last |
| CmdQueue.MainPass | cmd_queue.py:91-93 | a pass of the main loop records a failure exactly when `check_tasks` returns an error |
| CmdQueue.DrainPass | cmd_queue.py:95-96 | a drain pass adds only drain events and never a stuck event |

## Left out

- Processes (`subprocess.Popen`, `poll`, `returncode`) are modelled by `spawn`. It gives each command a fixed number of "still running" polls and an exit status, so the same command always behaves the same. Real timing, and processes that never exit, are not modelled.
- `subprocess.Popen` raising `OSError` (a missing executable, `cmd_queue.py:44`) is not modelled: `spawn` always starts a process. In the source the exception leaves `run` at once, without draining the processes already running.
- `sleep` (`cmd_queue.py:33-34`, `63-64`) and the printing in `cmd_queue.py` are left out; they change no state.
- The file system is the set `disk`, fixed for one call of `run`. Outputs written by the commands during the run are not added to it. Two tests would see such outputs: the disk lookup of a dependency never registered in the queue (`cmd_queue.py:27`), and the cache-hit test `os.path.exists(fn)` on a pending command's own output (`cmd_queue.py:40`). The second one turns true during the run when some command writes another pending command's output.
- In `build_mapping` (`prepare.py:141-182`, `avg.py:52-93`) one `details` dict is shared by `mapping[fn]` and every group list it is appended to. The model stores copies of one immutable value, so the aliasing is not modelled. It matters only to the later steps that write image paths and mtimes into the shared dict (`preprocess` in both scripts), which are not part of this model.
- The `tasks` dict of `run` is a sequence passed into and out of `start_task` and `check_tasks`, in insertion order.
- CmdQueue.CommandQueue.Run: requires `n_threads > 0` when commands are pending. With a non-empty queue and `n_threads <= 0` the source never returns: it polls an empty table forever. With an empty queue it returns true at once (`cmd_queue.py:78`, `101-102`), and so does the model.
- CmdQueue.CommandQueue.Run: does not report the failing command's argument vector (`cmd_queue.py:98-99`), only the verdict.
- The default thread count `multiprocessing.cpu_count()` is a parameter of the constructor.
- `day_period`'s sun times come from astral (`aloc.sun`). They are an input `sunAt`; astral is not part of this model.
- `_fingerprint` (ImageMagick `convert`) is the oracle `compute`. Pickling and writing `fp_cache` are left out; the model stops at the table that would be written.
- `fp_cache_load`, `error_exit`, `flush_cmd_queue`, `fp_tone`, `rsd`, and the image-generation, measuring and reprocessing steps of `prepare.py` are not part of this model. So are `preprocess`, `generate_base_img` and `main` of `avg.py`, `distribute_spare_frames`, `save_frames` and `main` of `remove-frames.py` (apart from the count at lines 57-60), `avgimg.c`, `pick-frames.py`, `map-energy.py`, `plot-measures.py` and `render-frames.py`.
- Frame counts are `real`. Floating-point rounding in the `removed` sum is not modelled.
- PyText.PyInt: whitespace between the sign and the digits, underscores and non-ASCII digits are not modelled, since the file names hold only ASCII digits.
- The time shift of `fn_to_date` is an `Option<int>` number of seconds. Microsecond shifts are not modelled.
- `time()` comparisons use whole microseconds. The datetimes built from names have no microseconds.
- Python 2 dict iteration order is modelled as insertion order. It decides `next`'s choice among several runnable commands, the order of `done` in `check_tasks` and so the order of the exit events of a pass and which failing task of a pass becomes `error` (`cmd_queue.py:52-58`), and the final order of groups and tables.
- `re.match` with `\d` accepts only ASCII digits here; Unicode digits are not modelled.
