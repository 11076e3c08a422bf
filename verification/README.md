# uteki timers, modelled in Dafny

This project models the two header-only timers of the uteki library, both generic over a steady clock:

- `uteki::stopwatch_timer` has a running flag, the clock reading at which the current run segment began, and the duration banked from completed run segments. `start` and `stop` act only when the timer is stopped or running respectively; `restart` and `reset` act unconditionally. The value at a reading is the banked duration, plus the open segment when the timer is running.
- `uteki::elapsed_timer` is always running and keeps only its start reading. Its value is the time since that reading.

Each timer is an immutable datatype (`StopwatchTimer.Stopwatch`, `ElapsedTimer.Elapsed`), and every public operation is a pure function. A clock read becomes an explicit `now` argument, counted in integer ticks of the clock's native period (module `Chrono`). The six comparison operators of each timer take ONE reading and evaluate both operands at it, as the source does. Timers are values, so a copy cannot be affected when its source is restarted, reset, started or stopped later. Copy independence therefore holds by construction; the lemmas about copies state that a copy and its source agree.

Modules:

- `Chrono` (`chrono.dfy`): the tick types.
- `StopwatchTimer` (`stopwatch_timer.dfy`): the stopwatch state machine, its comparisons and single-call properties.
- `StopwatchRuns` (`stopwatch_runs.dfy`): sequences of start, stop, restart and reset under a steady clock, plus copy and assignment. Readings never decrease, and this gives an invariant, non-negativity and monotonicity between resets.
- `StopwatchSegments` (`stopwatch_segments.dfy`): an independent reference that keeps the list of run segments. It proves that the three-field state computes their total length.
- `ElapsedTimer` (`elapsed_timer.dfy`): the elapsed timer and its comparisons.
- `TimerRelation` (`timer_relation.dfy`): shows that the elapsed timer behaves like the stopwatch that is never stopped.

Two details of the code that the model keeps:

- `reset` writes the current reading into the start field (`include/uteki/stopwatch_timer.h:159`). That field is never used to compute a value while the timer is stopped. Copy construction and both assignments do copy it, whatever the running flag.
- The move constructor and move assignment copy the fields and leave the source running (`include/uteki/stopwatch_timer.h:83-94`, `117-132`; the moved-from stopwatch is still running in `test/test_stopwatch_timer.cpp:169-171`). `Copy` and `Assign` therefore cover them.

## Model

| member | source | states |
|---|---|---|
| StopwatchTimer.Value | include/uteki/stopwatch_timer.h:197-238 | a stopped stopwatch reads exactly its banked duration; a running one reads at least that once its segment has begun; a state with non-negative banked time and a segment begun no later than the reading never reads negative |
| StopwatchTimer.IsRunning | include/uteki/stopwatch_timer.h:135-138 | the flag shows in the value: when it is false the value is the banked duration at every reading, when true the value gains one tick per clock tick |
| StopwatchTimer.Equal | include/uteki/stopwatch_timer.h:247-253 | at one shared reading: two stopped stopwatches are `==` iff their banked durations are equal, two running ones iff their start readings minus banked durations are equal, whatever the reading |
| StopwatchTimer.NotEqual | include/uteki/stopwatch_timer.h:261-267 | at one shared reading: two stopped stopwatches are `!=` iff their banked durations differ, two running ones iff their start readings minus banked durations differ |
| StopwatchTimer.Less | include/uteki/stopwatch_timer.h:275-281 | at one shared reading: of two stopped stopwatches the one with less banked is `<`; of two running ones, the one whose start reading minus banked is later |
| StopwatchTimer.LessEq | include/uteki/stopwatch_timer.h:289-295 | at one shared reading: `<=` is decided by the banked durations for two stopped stopwatches and by start reading minus banked for two running ones |
| StopwatchTimer.Greater | include/uteki/stopwatch_timer.h:303-309 | at one shared reading: of two stopped stopwatches the one with more banked is `>`; of two running ones, the one whose start reading minus banked is earlier |
| StopwatchTimer.GreaterEq | include/uteki/stopwatch_timer.h:317-323 | at one shared reading: `>=` is decided by the banked durations for two stopped stopwatches and by start reading minus banked for two running ones |
| StopwatchTimer.New | include/uteki/stopwatch_timer.h:55-60 | the default-constructed stopwatch is running with nothing banked, reads 0 at its construction reading and `later - now` afterwards |
| StopwatchTimer.NewWith | include/uteki/stopwatch_timer.h:64-69 | the running state is the caller's flag; a stopwatch constructed stopped reads 0 at every reading; constructed running it equals the default-constructed one |
| StopwatchTimer.Copy | include/uteki/stopwatch_timer.h:72-80 | the copy has the source's running state and reports the source's value at every reading |
| StopwatchTimer.Assign | include/uteki/stopwatch_timer.h:99-114 | after copy assignment the target has the source's running state and value at every reading, whatever it held before |
| StopwatchTimer.Restart | include/uteki/stopwatch_timer.h:143-150 | from any state, restart yields exactly a freshly default-constructed stopwatch at that reading: running, reading 0 |
| StopwatchTimer.Reset | include/uteki/stopwatch_timer.h:155-162 | from any state, reset leaves the stopwatch stopped with nothing banked, reading 0 at every later reading |
| StopwatchTimer.Start | include/uteki/stopwatch_timer.h:167-176 | start leaves a running stopwatch unchanged; it never changes the banked duration or the value at that reading, and afterwards the value follows the clock |
| StopwatchTimer.Stop | include/uteki/stopwatch_timer.h:181-191 | stop leaves a stopped stopwatch unchanged; on a running one it banks the open segment; the value at that reading is kept and frozen at every later reading |
| StopwatchTimer.ValueMonotone | include/uteki/stopwatch_timer.h:224-238 | with no intervening operation, the value never decreases as the clock advances |
| StopwatchTimer.ValueFrozenWhileStopped | include/uteki/stopwatch_timer.h:224-238 | a stopped stopwatch reads its banked duration at every reading |
| StopwatchTimer.ValueFollowsClockWhileRunning | include/uteki/stopwatch_timer.h:224-238 | a running stopwatch advances by exactly the clock difference |
| StopwatchTimer.StartIdempotent | include/uteki/stopwatch_timer.h:167-176 | two starts equal one start: the second call does not reopen the segment |
| StopwatchTimer.StopIdempotent | include/uteki/stopwatch_timer.h:181-191 | two stops equal one stop: nothing is banked twice |
| StopwatchTimer.AccumulateTwoSegments | include/uteki/stopwatch_timer.h:167-191 | start at t0, stop at t1, start at t2, stop at t3 from a stopped timer adds (t1-t0)+(t3-t2) at every later reading; the pause is excluded |
| StopwatchTimer.ConstructStoppedThenStart | test/test_stopwatch_timer.cpp:112-125 | constructed stopped, the stopwatch reads 0; once started, it reads the time since the start |
| StopwatchTimer.RestartAndResetZero | test/test_stopwatch_timer.cpp:412-435 | restart and reset both discard all banked time; restart is reset followed by start at the same reading |
| StopwatchTimer.ComparisonsConsistent | include/uteki/stopwatch_timer.h:247-323 | at one reading, `!=` negates `==`, `>` is the converse of `<`, `>=` of `<=`, `<=` is `<` or `==`, and `==` is `<=` and `>=` |
| StopwatchTimer.ComparisonsOrderTimers | include/uteki/stopwatch_timer.h:289-295 | at one reading, `<=` is reflexive, total and transitive, `<` is irreflexive and transitive, and `==` is transitive |
| StopwatchTimer.CopyComparesEqual | test/test_stopwatch_timer.cpp:457-469 | a copy compares `==` to its source at every reading, and neither `<` nor `>` |
| StopwatchTimer.EarlierStartComparesGreater | test/test_stopwatch_timer.cpp:465-472 | of two running stopwatches with equal banked time, the one started earlier compares `>` (and the other `<`) at every reading |
| StopwatchTimer.SeparateReadingsDisagree | include/uteki/stopwatch_timer.h:247-253 | two separate readings of a running stopwatch and its copy disagree, while `==` at one shared reading holds |
| StopwatchTimer.RestartBetweenReadsGoesNegative | include/uteki/stopwatch_timer.h:197-203 | `value` reads the clock before it reads the state; a restart at a later reading that falls between the two reads makes the value negative |
| StopwatchTimer.StartBetweenReadsGoesBack | include/uteki/stopwatch_timer.h:197-203 | a start at a later reading that falls between `value`'s two reads of a stopped stopwatch makes it read less than the banked duration it read just before |
| StopwatchRuns.ApplyKeepsWf | include/uteki/stopwatch_timer.h:143-191 | each start, stop, restart or reset, at a reading no earlier than the last, keeps the banked time non-negative and an open segment no later than the reading |
| StopwatchRuns.RunKeepsWf | include/uteki/stopwatch_timer.h:143-191 | every sequence of start, stop, restart and reset under a non-decreasing clock keeps that invariant |
| StopwatchRuns.CopyAndAssignKeepWf | include/uteki/stopwatch_timer.h:72-114 | copy construction and copy assignment from a source that satisfies the invariant give a target that satisfies it at any later reading, whatever the target held before |
| StopwatchRuns.ConstructedWf | include/uteki/stopwatch_timer.h:55-69 | both constructors establish the invariant at their reading |
| StopwatchRuns.ValueNeverNegative | include/uteki/stopwatch_timer.h:224-238 | under a non-decreasing clock and sequential use, a stopwatch built by either constructor never reads negative after any sequence of start, stop, restart and reset |
| StopwatchRuns.ValueNonDecreasingWithoutZeroing | include/uteki/stopwatch_timer.h:167-191 | under sequential use, across any sequence of starts and stops with no restart or reset, the banked time never shrinks and the value never decreases |
| StopwatchSegments.ApplyAbstracts | include/uteki/stopwatch_timer.h:143-191 | each operation on the three-field state matches the same operation on the segment-list reference |
| StopwatchSegments.CopyAndAssignAbstract | include/uteki/stopwatch_timer.h:72-114 | after copy construction or copy assignment the target summarises the source's segment list, so its segment account continues from the right-hand timer's |
| StopwatchSegments.RunAbstracts | include/uteki/stopwatch_timer.h:143-191 | every sequence of start, stop, restart and reset keeps the three-field state a summary of the segment list |
| StopwatchSegments.AbstractsValue | include/uteki/stopwatch_timer.h:224-238 | a summarising state's value equals the total segment length plus the open segment |
| StopwatchSegments.ValueIsSegmentTotal | include/uteki/stopwatch_timer.h:224-238 | after construction and any sequence of start, stop, restart and reset, the value is the total length of the run segments since the last restart or reset, plus the open one |
| ElapsedTimer.Value | include/uteki/elapsed_timer.h:105-110 | the value is non-negative at any reading no earlier than the start reading, and zero exactly at the start reading |
| ElapsedTimer.Equal | include/uteki/elapsed_timer.h:146-152 | at any shared reading, `a == b` iff both were started at the same reading |
| ElapsedTimer.NotEqual | include/uteki/elapsed_timer.h:160-166 | at any shared reading, `a != b` iff they were started at different readings |
| ElapsedTimer.Less | include/uteki/elapsed_timer.h:174-180 | at any shared reading, `a < b` iff a was started later than b |
| ElapsedTimer.LessEq | include/uteki/elapsed_timer.h:188-194 | at any shared reading, `a <= b` iff a was started no earlier than b |
| ElapsedTimer.Greater | include/uteki/elapsed_timer.h:202-208 | at any shared reading, `a > b` iff a was started earlier than b |
| ElapsedTimer.GreaterEq | include/uteki/elapsed_timer.h:216-222 | at any shared reading, `a >= b` iff a was started no later than b |
| ElapsedTimer.New | include/uteki/elapsed_timer.h:52-55 | a new elapsed timer reads 0 at its construction reading and `later - now` afterwards |
| ElapsedTimer.Copy | include/uteki/elapsed_timer.h:58-61 | the copy reports the source's value at every reading |
| ElapsedTimer.Assign | include/uteki/elapsed_timer.h:73-77 | after copy assignment the target reports the source's value at every reading |
| ElapsedTimer.IsRunning | include/uteki/elapsed_timer.h:88-91 | is_running is always true |
| ElapsedTimer.AlwaysRunning | include/uteki/elapsed_timer.h:88-91 | no constructor, copy, assignment or restart yields a timer that is not running |
| ElapsedTimer.Restart | include/uteki/elapsed_timer.h:96-99 | from any state, restart yields exactly a freshly constructed timer at that reading, reading 0 |
| ElapsedTimer.ValueMonotone | include/uteki/elapsed_timer.h:105-110 | the value never decreases as the clock advances, and it advances by the clock difference |
| ElapsedTimer.ComparisonsConsistent | include/uteki/elapsed_timer.h:146-222 | the six operators agree with one another; `==`, `<=` and `>=` are reflexive, and `<` and `>` are irreflexive |
| ElapsedTimer.CopyComparesEqual | test/test_elapsed_timer.cpp:306-318 | a copy or a copy-assigned timer compares `==` to its source at every reading |
| ElapsedTimer.LaterConstructedComparesLess | test/test_elapsed_timer.cpp:312-323 | a timer constructed later compares `<` to an earlier one, and `!=`, at every reading |
| TimerRelation.ElapsedIsRunningStopwatch | include/uteki/elapsed_timer.h:96-110 | the elapsed timer's construction, restart, value and running state are those of a stopwatch that is running with nothing banked |
| TimerRelation.ComparisonsAgree | include/uteki/elapsed_timer.h:146-222 | the elapsed timer's six operators give the same answers as the stopwatch's on the corresponding stopwatches |

## Left out

- The `std::mutex` of the stopwatch and the `std::atomic` of the elapsed timer, and with them concurrent use. Each public operation is one sequential step here. In the code `restart`, `reset`, `start` and `stop` read the clock inside the lock (`include/uteki/stopwatch_timer.h:145-149`, `157-161`, `169-175`, `183-190`), but not every operation does:
  - the stopwatch's `value` and the six operators read the clock before taking any lock (`include/uteki/stopwatch_timer.h:200-201`, `251-252`);
  - `is_running` takes no lock (`135-138`);
  - the elapsed timer reads the clock before it loads or stores the atomic (`include/uteki/elapsed_timer.h:98`, `108`, `136`).

  So a `restart` or `start` from another thread can fall between a `value` call's clock read and its state read. `StopwatchTimer.RestartBetweenReadsGoesNegative` and `StopwatchTimer.StartBetweenReadsGoesBack` show the results: a negative value, or less than the value read just before.
- StopwatchRuns.ValueNeverNegative: holds for sequential use only. Under concurrent use the interleavings above can break it.
- StopwatchRuns.ValueNonDecreasingWithoutZeroing: holds for sequential use only, for the same reason.
- The clock itself (`ClockType::now()` and the `is_steady` static assertion). Each reading is an explicit `now` argument. Where a property needs a steady clock, it requires the readings to be non-decreasing.
- `value<T>()`'s `std::chrono::duration_cast` to another duration type, including floating-point ones. Values stay in integer ticks of the clock's native duration, which is the default `T`.
- The move constructors and move assignments of both timers. In the code they copy the source's fields and leave the source unchanged, so `Copy` and `Assign` cover them.
- Overflow of the clock's `rep` in `accumulated_ +=` and in `time_point` subtraction. Ticks are unbounded integers.
- `include/uteki/version.h`, which holds only version macros, and the tests' sleep and tolerance machinery. Nothing in the tests is modelled except the relations they check.
