# Chicken feeder control core in Dafny

A model of the control core of the `chicken-feeder` firmware: a
battery-powered feeder with a motorised door, a load-cell scale and one
remote master reached over ESP-NOW. The model covers:

- the typed, address-mapped register table (`parameters_types.h`,
  `parameters_table.h`, `parameters.cpp`): value kinds and limits, the
  word-addressed read and write paths, persistence to the NV store and RTC
  memory, the chart (history) register;
- the debounce counter (`debounce.h`) and the fault engine built on it
  (`error.cpp`, `error_table.h`): activation, clearing, the block mask and
  the error register;
- the feeder state machine (`feeder_ctrl.cpp`, `feeder_ctrl_table.h`,
  `feeder_ctrl.h`): the event word, the transition table and the actions;
- the motor supervision (`motor.cpp`), the buttons (`button.h`), the scale
  (`weight.h`), the exponential filter (`exp_filter.h`), the sunrise and
  sunset schedule (`time_ctrl.h`), the idle test for deep sleep
  (`deep_sleep_ctrl.cpp`), the timers and MAC text helpers (`common.cpp`);
- the ESP-NOW protocol (`esp_now_ctrl.cpp`, `esp_now_client.h`): frames,
  `CHECK_SEND` retry with channel rescan, pairing, the report of
  definitions, values and logs, the request handlers;
- the system log (`log.cpp`): the two rotating files, their records and the
  byte stream sent to the master;
- `setup` and `loop` of `main.cpp`: the reset-reason register, the button
  dispatch and the pairing long press.

Each source component is one Dafny module. Where the source updates an
object in place the model is a class with the same fields, and each method
is proved against a pure function of the old state (`ensures Snap() ==
StepF(old(Snap()))`); the properties the firmware relies on are lemmas
about those functions. The radio, the clock, the NV store, LittleFS and the
scale's ADC are parameters or oracle sequences, described under "## Left out".

Module order (each imports only earlier ones): `Ints`, `Common`,
`SleepCtrl`, `Debounce`, `ExpFilter`, `ParamTypes`, `ParamTable`,
`ParamValues`, `Parameters`, `Chart`, `RegisterAccess`, `FeederEvents`,
`Errors`, `Motor`, `Weight`, `FeederCtrl`, `Buttons`, `EspNowCtrl`,
`EspNowLink`, `EspNowFrames`, `SystemLog`, `EspNowData`, `EspNowClient`,
`TimeCtrl`, `MainLoop`.

## Model

| member | source | states |
|---|---|---|
| Common.EndTimer | src/common.cpp:112-123 | a stopped counter stays 0 and reports nothing; a running one counts down by one and reports expiry exactly when it reaches 0, which only happens from 1 |
| Common.StopTimer | src/common.cpp:125-128 | the counter is left not running |
| Common.StartTimer | src/common.cpp:130-133 | the counter holds the value and runs exactly when the value is nonzero |
| Common.StartedTimerExpiresOnce | src/common.cpp:112-133 | a timer started with `v > 0` and ticked `n` times reports expiry on tick `v` and on no other |
| Common.StoppedTimerStaysQuiet | src/common.cpp:112-128 | a stopped timer never reports expiry |
| Common.MacToString | src/common.cpp:152-159 | the text of a MAC has 17 characters |
| Common.MacTextShape | src/common.cpp:152-159 | the text is six `%02X` upper-case hex fields, high nibble first, separated by ':' |
| Common.HexDigitValue | src/common.cpp:147-157 | the `%X` reading of a `%02X` digit gives the nibble back |
| Common.ScanMac | src/common.cpp:147-149 | `sscanf` converts at most six fields |
| Common.MacTextRoundTrip | src/common.cpp:140-159 | `StringToMac(MacToString(m))` recovers all six bytes of `m` |
| Common.StringToMac | src/common.cpp:140-150 | text not 17 characters long leaves the MAC buffer untouched; otherwise the bytes `sscanf` converted are stored from the start and the rest of the buffer is kept |
| Common.Store | src/common.cpp:147-149 | the converted fields are stored in order from the start of the buffer, the rest kept |
| SleepCtrl.IsSystemIdle | src/deep_sleep_ctrl.cpp:17-27 | idle exactly when no task flag is set |
| SleepCtrl.BusyBlocksSleep | src/deep_sleep_ctrl.cpp:17-27 | a task that marks itself busy keeps the system awake; clearing the last busy flag makes it idle |
| Debounce.Step | src/debounce.h:28-55 | one input: maturity is reached on an increment that reaches `max` (count clamped there) and lost when the count falls to 0; the one-shot event is raised only on the not-matured to matured edge and kept until read; the count stays in [0, max] |
| Debounce.SetMaxStep | src/debounce.h:62-72 | the new ceiling is stored and the count pulled down to it; maturity and the event are untouched |
| Debounce.CeilDivFacts | src/debounce.h:28-55 | the number of increments needed to reach `max` is the least `k` with `k * inc >= max` |
| Debounce.RisingBelowMax | src/debounce.h:30-42 | below the ceiling, `n` true inputs from rest raise the count by `n * inc` without maturing |
| Debounce.MaturesAfter | src/debounce.h:28-55 | from rest, a steady true input matures exactly on the `ceil(max / inc)`-th call and not before, with the count at `max` and the event raised |
| Debounce.DecayAbove | src/debounce.h:44-53 | above zero, `n` false inputs lower the count by `n * dec` and keep maturity |
| Debounce.DropsAfter | src/debounce.h:28-55 | a matured signal under a steady false input stays matured for `ceil(cnt / dec) - 1` calls and drops on the next, with the count 0 |
| Debounce.Debounce.constructor | src/debounce.h:26 | step sizes as given, count 0, not matured, no event |
| Debounce.Debounce.Inp | src/debounce.h:28-55 | the new state is `Step` of the old one and the result is the new maturity |
| Debounce.Debounce.Out | src/debounce.h:57-60 | returns the maturity and changes nothing |
| Debounce.Debounce.SetMax | src/debounce.h:62-72 | the new state is `SetMaxStep` of the old one |
| Debounce.Debounce.Reset | src/debounce.h:74-79 | back to the constructed state with the current ceiling |
| Debounce.Debounce.InpEvent | src/debounce.h:81-87 | one `Inp`, returning the pending edge event and clearing it |
| Debounce.Debounce.GetMaturity | src/debounce.h:89-92 | the percentage `cnt * 100 / max`, at most 100 |
| Debounce.Debounce.GetCnt | src/debounce.h:94-97 | the steps left before the ceiling, `max - cnt` |
| ExpFilter.Accumulate | src/exp_filter.h:23-41 | the accumulator after one input lies in [INT16_MIN * coef, INT16_MAX * coef], so it never equals the "no sample" marker INT32_MAX |
| ExpFilter.WrapAddDifference | src/exp_filter.h:31 | `val += (x - val)` with 32-bit wrap-around leaves `x` |
| ExpFilter.OutputOfMultiple | src/exp_filter.h:42-47 | the output of `c * coef` is `c` |
| ExpFilter.InputIsClamp | src/exp_filter.h:23-43 | as written the filter does not smooth: the output of every input is that input saturated to int16, whatever came before |
| ExpFilter.ExpFilter.constructor | src/exp_filter.h:21 | the coefficient as given and no sample yet |
| ExpFilter.ExpFilter.Input | src/exp_filter.h:23-43 | the accumulator becomes `Accumulate` of the old one and the result is its output; when the product fits in 32 bits the result is the input clamped to int16 |
| ExpFilter.ExpFilter.Out | src/exp_filter.h:45-48 | the output of the accumulator, nothing changed |
| ExpFilter.ExpFilter.Reset | src/exp_filter.h:50-53 | back to "no sample yet" |
| ParamTypes.AccessIgnoresLevel | src/parameters_types.h:116-126 | writability and readability depend on the R/W bits alone: changing the access-level bits changes neither |
| ParamTypes.StoreU16 | src/parameters_types.h:222-232 | a value above 65535 saturates to 65535, one in range is kept, a negative one wraps modulo 2^16 |
| ParamTypes.SetU16 | src/parameters_types.h:222-243 | a change is reported exactly when the old value, taken modulo 2^16, differs from the value to store; only then is it stored |
| ParamTypes.SetS16 | src/parameters.cpp:348-370 | the stored value is the input saturated to int16, and a change is reported exactly when it differs from the old value |
| ParamTypes.SetS32 | src/parameters.cpp:466-474 | the value is stored as given, and a change is reported exactly when it differs from the old value |
| ParamTypes.LimitValue | src/parameters.cpp:385-396 | `SetLimit` stores the maximum above the range, the minimum below it, the value itself inside it; with min <= max the result is within limits |
| ParamTypes.TextToInt | src/parameters_types.h:189-194 | `toInt()` of empty text is 0 |
| ParamTypes.TextToIntOfDecimal | src/parameters_types.h:189-194 | a number written in decimal reads back through `toInt()` |
| ParamTypes.Json16Value | src/parameters_types.h:170-202 | a BOOL_FLAG register takes JSON booleans only, as 0/1 and without a limit check; any other takes a JSON integer or numeric text, and only within its limits |
| ParamTypes.Json32Value | src/parameters_types.h:382-403 | a 32-bit register takes a JSON integer or numeric text within its limits and nothing else |
| ParamTypes.TxtValue | src/parameters_types.h:539-547 | text is accepted exactly when shorter than the register's maximum length |
| ParamTypes.JsonTextValue | src/parameters_types.h:549-563 | a JSON string is accepted exactly when shorter than the maximum length; anything else is refused |
| ParamTypes.LogPush | src/parameters.cpp:584-592 | a nonzero code goes to the front and the others move back one place, the oldest dropped; code 0 changes nothing |
| ParamTypes.LogPushRecentFirst | src/parameters.cpp:584-592 | codes pushed one after another are listed most recent first |
| ParamTypes.HalvesRoundTrip | src/parameters.cpp:475-507 | writing back the high and the low unit that a read of a 32-bit register produced reassembles the same value |
| ParamTypes.MacUnitBytes | src/parameters.cpp:598-603 | a MAC unit carries byte `2 idx` in its low byte and byte `2 idx + 1` in its high byte |
| ParamTypes.WriteTextUnit | src/parameters.cpp:652-691 | a unit past the end of the latched text is ignored; a commit happens only at a NUL byte or on the last unit |
| ParamTypes.TextUnitsRewrite | src/parameters.cpp:641-691 | writing back unit `u` of a NUL-free text as read extends the latch by its two characters and commits exactly when the text ends there or it is the last unit |
| ParamTypes.TextRunPrefix | src/parameters.cpp:641-691 | the units before the end of the text fill the latch with its prefix and commit nothing |
| ParamTypes.TextRunAfterCommit | src/parameters.cpp:641-691 | once the unit holding the end of the text is written, the text is committed and later units leave it alone |
| ParamTypes.UnitPastEndIgnored | src/parameters.cpp:662-664 | a unit that starts past the end of the latched text changes nothing |
| ParamTypes.TextTransferRoundTrip | src/parameters.cpp:641-691 | writing back, in order, every unit read from a NUL-free text that fits the register commits exactly that text |
| ParamTable.EntryFactsAt | src/parameters_table.h:56-142 | every table entry spans at least one unit inside the 16-bit address space, has a default its reset cast keeps, lies in 2 .. 37 if it is shared over ESP-NOW, is the command register only at `ManualniOvladani`, and is read-only if it is a time register |
| ParamTable.TableShape | src/parameters.cpp:69-72 | the table has one descriptor per parameter, in declaration order |
| ParamTable.PlacesInverse | src/parameters_table.h:56-142 | sorting the entries by address is a permutation of the table |
| ParamTable.ChainHolds | src/parameters_table.h:56-142 | in address order each span is non-empty and ends before the next one starts |
| ParamTable.SpansDisjoint | src/parameters_table.h:56-142 | no two registers share an address |
| ParamTable.SpanOwnerUnique | src/parameters.cpp:174-202 | an address matches the `GetPar` test (equal to the start, or inside the span) of at most one register |
| ParamTable.EspNowSpan | src/parameters_table.h:56-110 | the registers shared over ESP-NOW all lie in addresses 2 .. 37 |
| ParamTable.ManualCommandRegister | src/parameters_table.h:58 | `ManualniOvladani` is the one command register, writable, ranging over stop .. close |
| ParamTable.ReadOnlyStatus | src/parameters_table.h:56-112 | the feeder state, the error code and the radio channel refuse register writes |
| ParamTable.ChannelRange | src/parameters_table.h:112 | the radio channel register ranges over channels 1 .. 13 |
| ParamTable.DefaultsOutsideLimits | src/parameters_table.h:64-72 | the weight percentage and the battery voltage start at 0, below their minimum of 5 |
| ParamTable.StateRetained | src/parameters_table.h:57 | the feeder state survives deep sleep in RTC memory and starts as the unknown position |
| ParamTable.DefaultsFitUnits | src/parameters_table.h:56-142 | each 16-bit and MAC default fits the cast its reset applies |
| Parameters.ClockText | src/parameters_types.h:732-747 | a time register shows "--:--" for time 0 and the caller's `%H:%M` text of the local time otherwise |
| Parameters.InitialFits | src/parameters.cpp:398-400 | each entry's initial value fits its class, and a numeric one is the entry's default |
| Parameters.Persist | src/parameters.cpp:403-457 | an NV or RTC register stores a changed value, and a RAM register or an unchanged value stores nothing |
| Parameters.FindFrom | src/parameters.cpp:174-202 | the first entry from `i` on whose span holds the address, or none when no later entry holds it |
| Parameters.LookupOwner | src/parameters.cpp:174-202 | the lookup finds entry `i` exactly when `i`'s span holds the address |
| Parameters.Offset | src/parameters_types.h:109-112 | `getidx`: the offset of the address in the entry's span is below the entry's size |
| Parameters.WriteUnit | src/parameters.cpp:376-384 | a unit write asks for an event exactly when the register is the command register and the unit is within its limits |
| Parameters.ScalarWrite | src/parameters.cpp:376-384 | a 16-bit register takes a unit exactly when it is within the limits and stores it; a rejected unit changes nothing |
| Parameters.ScalarReadWrite | src/parameters.cpp:371-384 | writing back the unit just read from a 16-bit register keeps its value and reports no change |
| Parameters.Int32Units | src/parameters.cpp:475-507 | unit 0 latches the value and reads its high half, unit 1 the latched low half; writing unit 0 latches the high half, writing unit 1 commits both only within the limits; both writes report one unit |
| Parameters.Int32ReadWrite | src/parameters.cpp:475-507 | writing back the two halves just read from a 32-bit register reproduces its value with no change |
| Parameters.TextReadUnits | src/parameters.cpp:641-651 | reading unit 0 latches the text, and each unit read after it is the matching pair of the text's bytes |
| Parameters.TextUnitWrite | src/parameters.cpp:652-691 | a unit write to a text register reports one unit and commits the latch exactly when the text transfer does |
| Parameters.ReadOnlyClasses | src/parameters.cpp:571-574 | MAC and error-history registers take no unit and change nothing |
| Parameters.MacReadUnit | src/parameters.cpp:598-603 | MAC unit `off` carries bytes `2 off` and `2 off + 1`, low byte first |
| Parameters.CommandWrite | src/parameters.cpp:783-791 | the command register stores an in-limit unit and asks for its event, rejects others, and reports one unit either way |
| Parameters.ResetFits | src/parameters.cpp:324-333 | after a reset every register holds a value of its class, given stored values that fit |
| Parameters.Registers.NumOf | src/parameters.cpp:344-347 | the numeric value of a register lies in its class's range |
| Parameters.Registers.constructor | src/parameters.cpp:324-333 | every object zeroed, the cursor past the table and the cached address invalid |
| Parameters.Registers.ResetVal | src/parameters.cpp:398-457 | `resetval` gives entry `i` its persisted value if any, else its initial one, and changes nothing else |
| Parameters.Registers.InitAll | src/parameters.cpp:324-333 | after the loop every entry holds its reset value |
| Parameters.Registers.GetPar | src/parameters.cpp:174-202 | the wrapping scan from the cached index returns the entry whose span holds the address, with the cursor on it, or none with the cursor parked and the address invalid |
| Parameters.Registers.ReadRegVal | src/parameters.cpp:371-374 | the unit and the latches are those `ReadUnit` gives for the entry's value |
| Parameters.Registers.ReadReg | src/parameters.cpp:213-228 | an unheld address or an unreadable register reads `NONDEF_REG_VAL` and reports 0 units; otherwise one unit of the register at its offset |
| Parameters.Registers.WriteRegVal | src/parameters.cpp:376-384 | the units, value, latches and persisted copy are those `WriteUnit` and `Persist` give |
| Parameters.Registers.WriteTextRegVal | src/parameters.cpp:652-691 | the text register's unit write, with the same effect `WriteUnit` gives |
| Parameters.Registers.SetNum | src/parameters.cpp:348-370 | stores the value as the class stores it, reports a change, and an NV or RTC register persists a changed value |
| Parameters.Registers.SetLimit | src/parameters.cpp:385-396 | `Set` of the value clamped into the register's limits |
| Parameters.Registers.SetText | src/parameters.cpp:698-708 | stores the text and reports a change exactly when it differs; the NV variant persists it |
| Parameters.Registers.SetTime | src/parameters_types.h:732-747 | stores the time and its clock text, and reports whether the text changed |
| Parameters.Registers.LogSet | src/parameters.cpp:584-592 | a nonzero code goes to the front of the history, which is persisted; code 0 changes nothing stored |
| Parameters.Registers.SetMac | src/parameters.cpp:631-635 | the six bytes are stored and persisted |
| Chart.Slot | src/parameters_types.h:893-915 | the slot `k` places back from the write index, walking with wrap-around, lies inside the buffer |
| Chart.SingleSlotOverrun | src/parameters_types.h:826-870 | with one slot the first `Set` moves the read index to 1, past the buffer, and it never comes back |
| Chart.Step | src/parameters_types.h:826-870 | the write index advances by one with wrap-around and the read index stays inside the buffer |
| Chart.StepAgrees | src/parameters_types.h:826-870 | for two slots or more the bounded update is the update as written |
| Chart.StepKeepsIndices | src/parameters_types.h:826-870 | the read index stays at 0 until the buffer is full and from then on sits one past the write index |
| Chart.SlotAfterStep | src/parameters_types.h:893-915 | after a `Set`, walking back from the write index visits the new sample first and then the old walk |
| Chart.Recent | src/parameters_types.h:893-915 | the `n` most recent samples, newest first |
| Chart.ChartReg.constructor | src/parameters_types.h:793-802 | no buffer, no samples, both indices 0 |
| Chart.ChartReg.SetSize | src/parameters_types.h:804-817 | a fresh buffer of `sz` slots all holding the default, the history emptied, and the new-sample count left as it was |
| Chart.ChartReg.ResetVal | src/parameters_types.h:917-923 | every slot holds the default |
| Chart.ChartReg.Set | src/parameters_types.h:826-870 | the sample, saturated to int16, is appended to the history, the count grows up to the buffer size, and a change is reported |
| Chart.ChartReg.SetLimit | src/parameters_types.h:871-891 | `Set` of the value clamped into the limits; the new-sample count grows by one while it is below the buffer size, and a count that a smaller `SetSize` left above the size stays |
| Chart.ChartReg.Get | src/parameters_types.h:819-824 | the first sample until the buffer is full, and from then on the sample written `size - 1` samples ago |
| Chart.ChartReg.ReadRegVal | src/parameters_types.h:925-929 | the read-index sample as one unit |
| Chart.ChartReg.GetJsonVal | src/parameters_types.h:893-915 | the stored samples, newest first; a single sample is listed twice |
| RegisterAccess.WriteFound | src/parameters.cpp:313-322 | the write of the entry `GetPar` found: a writable register takes the unit as `WriteEffect` says, an accepted command raises its event, and the cursor is kept |
| RegisterAccess.WriteRegAsWritten | src/parameters.cpp:313-322 | `WriteReg` as written: defined only for an address some register holds, since `GetPar`'s result is used unchecked |
| RegisterAccess.UnheldAddresses | src/parameters_table.h:56-142 | addresses 0 and 38 lie in no register's span, so `GetPar` returns null for them |
| RegisterAccess.WriteReg | src/parameters.cpp:313-322 | an address no register holds takes nothing, reports 0 units and parks the cursor; otherwise the register's write effect, with the cursor on it |
| RegisterAccess.ReadOnlyRefuses | src/parameters.cpp:313-322 | a register without the W bit takes nothing and reports 0 units |
| RegisterAccess.CommandRaisesEvent | src/parameters.cpp:783-791 | an in-limit unit written to `ManualniOvladani` is stored, raised as that event with the position task busy, and `PovelOd` records `povel_espnow`; an out-of-limit one changes nothing but still reports one unit |
| RegisterAccess.ScalarWriteEffect | src/parameters.cpp:376-384 | a writable 16-bit register takes an in-limit unit as its value and reports one unit; an out-of-limit one is refused with nothing changed |
| FeederEvents.EventQueue.constructor | src/feeder_ctrl.cpp:21 | no event pending |
| FeederEvents.EventQueue.Event | src/feeder_ctrl.h:55-60 | bit `e` becomes pending and the position task busy |
| FeederEvents.EventQueue.Consume | src/feeder_ctrl.cpp:229 | bit `e` is cleared from the pending events |
| FeederEvents.EventQueue.EventSourced | src/feeder_ctrl.h:62-68 | `Event(e)`, and `PovelOd` takes the source with its RTC copy |
| Errors.Contribution | src/error.cpp:86-97 | a fault adds block bits to the rebuilt mask exactly when it is active |
| Errors.SetErrCodeW | src/error.cpp:41-48 | only an empty `ChybovyKod` takes the fault's code, which the history then records |
| Errors.ClearErrCodeW | src/error.cpp:50-56 | `ChybovyKod` is emptied only while it holds this fault's code |
| Errors.RestoreW | src/error.cpp:86-97 | the block mask is rebuilt as the OR of the active faults' masks |
| Errors.Raised | src/error_table.h:13-17 | the three current faults raise their own event; the two position faults name `no_event` and raise none that the state machine handles |
| Errors.CheckWith | src/error.cpp:58-84 | one `Check` with or without posting the event, keeping the world well formed |
| Errors.CheckW | src/error.cpp:58-84 | `Check` with the `no_event` post filtered out, keeping the world well formed |
| Errors.CheckAsWritten | src/error.cpp:58-84 | `Check` as written, posting the fault's event even when it is `no_event` |
| Errors.CheckSteps | src/error.cpp:58-84 | a latched fault ignores `Check`; otherwise exactly its own counter takes one debounce step |
| Errors.CheckRaises | src/error.cpp:58-84 | the event is raised and the mask widened exactly when the fault becomes active; a self-clearing drop rebuilds the mask; otherwise the mask is kept |
| Errors.CheckFrame | src/error.cpp:58-84 | `Check` touches no register but the error code and history, and the position faults post no event |
| Errors.ClearW | src/error.cpp:99-103 | the counter reset and the fault's code withdrawn |
| Errors.ClearActionW | src/error.cpp:109-130 | an active fault cleared by the action is reset; an active one that is not keeps its code and returns its mask; an inactive one withdraws its code |
| Errors.ClearPrefix | src/error.cpp:132-139 | `ClearAction` applied to the first `n` faults in table order |
| Errors.ClearActionAllW | src/error.cpp:132-139 | `ClearAction` of every fault, then the mask rebuilt |
| Errors.Faults.constructor | src/error.cpp:30-32 | every counter empty with ceiling 100 and nothing blocked |
| Errors.Faults.IsActive | src/error.cpp:36-39 | the counter's output |
| Errors.Faults.SetErrCode | src/error.cpp:41-48 | the new state is `SetErrCodeW` of the old one |
| Errors.Faults.ClearErrCode | src/error.cpp:50-56 | the new state is `ClearErrCodeW` of the old one |
| Errors.Faults.RestoreError | src/error.cpp:86-97 | the new state is `RestoreW` of the old one |
| Errors.Faults.Check | src/error.cpp:58-84 | the new state is `CheckW` of the old one and the result the fault's activity after it |
| Errors.Faults.Activate | src/error.cpp:66-75 | the activation step: block bits added, the event posted when the state machine handles it, the code claimed |
| Errors.Faults.PostEvent | src/error.cpp:73 | `FeederCtrl::Event` of the fault's event, when it is one the state machine handles |
| Errors.Faults.Clear | src/error.cpp:99-103 | the new state is `ClearW` of the old one |
| Errors.Faults.ClearAction | src/error.cpp:109-130 | the new state and the returned mask are `ClearActionW` of the old state |
| Errors.Faults.ClearActionAll | src/error.cpp:132-139 | the new state is `ClearActionAllW` of the old one |
| Errors.Faults.IsBlocked | src/error.cpp:141-143 | blocked exactly when the action shares a bit with the active mask |
| Errors.TableMasks | src/error_table.h:13-17 | only `no_current` clears itself, every fault is cleared by motion in either direction, and the codes are nonzero and distinct |
| Errors.ActiveBlockMeaning | src/error.cpp:86-97 | a bit is in the rebuilt mask exactly when some active fault blocks it |
| Errors.NoneActiveNoBlock | src/error.cpp:86-97 | with no fault active the rebuilt mask is empty |
| Errors.ActiveBlockRaise | src/error.cpp:66-68 | a fault that becomes active adds exactly its block bits to the mask |
| Errors.ActiveBlockSame | src/error.cpp:86-97 | a fault whose activity does not change leaves the mask alone |
| Errors.CheckKeepsBlock | src/error.cpp:58-97 | `Check` keeps `block_active` equal to the OR of the active faults' masks |
| Errors.MaskFollows | src/error.cpp:58-97 | the mask stays current when one counter changes and the mask is updated as `Check` does |
| Errors.CheckCode | src/error.cpp:41-84 | the error code is claimed only by a fault that becomes active while none is held, and then heads the history; another fault's code is never overwritten; only `no_current` withdraws one |
| Errors.LatchedIgnoresInput | src/error.cpp:58-62 | an active fault that does not clear itself ignores its input |
| Errors.CheckRun | src/error.cpp:58-84 | `n` consecutive `Check` calls of one fault |
| Errors.CheckRunFeeds | src/error.cpp:58-84 | repeated true checks of a fresh fault feed its debounce counter, true after true |
| Errors.FaultActivation | src/error_table.h:13-17 | a fresh fault becomes active exactly at the 20th consecutive true check for the current faults and the 4th for the position faults, and only then raises its event |
| Errors.NoCurrentSelfClears | src/error.cpp:76-80 | `no_current` at full count clears itself at the first false check: inactive, code withdrawn, mask rebuilt, no event |
| Errors.ClearActionShape | src/error.cpp:109-130 | `ClearAction` resets only that fault's counter, when active and cleared by the action, and touches nothing but the error code |
| Errors.ClearPrefixFacts | src/error.cpp:132-139 | after the first `n` faults, exactly those active and cleared by the action are reset |
| Errors.MotionPrefixCode | src/error.cpp:132-139 | motion clearing withdraws the error code exactly when one of the faults passed owns it |
| Errors.ClearAllResult | src/error.cpp:132-139 | exactly the active faults not cleared by the action stay active, the mask is rebuilt, and events and task flags are untouched |
| Errors.MotionClearsAll | src/error.cpp:132-139 | starting the motor clears every fault, unblocks everything and withdraws any fault's error code |
| Errors.NoEventPosted | src/error.cpp:73 | as written, the fourth failed attempt posts the `no_event` bit; with the event filtered, activation posts nothing |
| Motor.Sensed | src/motor.cpp:19-24 | the filter output is stored in `AktualniProud` and the world stays well formed |
| Motor.Supervise | src/motor.cpp:112-136 | the three `Check` calls of `Run` for the drive state, the current and the limit |
| Motor.QuietCheck | src/error.cpp:58-84 | a `Check(false)` activates no fault and raises no event |
| Motor.StoppedRaisesNothing | src/motor.cpp:131-135 | a stopped motor never activates a fault nor raises an event |
| Motor.DirectionalOverload | src/motor.cpp:116-130 | while opening the closing overcurrent fault is never activated and only the opening overcurrent and the missing current can be raised; symmetrically while closing |
| Motor.ReadingIsSum | src/motor.cpp:30-34 | with the two equal divider resistors the reading is the sum of the two samples |
| Motor.SmoothBetween | src/motor.cpp:36-40 | the smoothing moves toward the new reading by at most the gap, and a gap under 8 mV leaves the value unchanged |
| Motor.SmoothedRange | src/motor.cpp:36-40 | the reading is smoothed against the low 15 bits of the previous value unless they are 0, and stays a 15-bit value |
| Motor.BatteryLayout | src/motor.cpp:26-47 | for a battery under 16 V the stored value holds the smoothed voltage in its low 15 bits and the LBO state in bit 15 |
| Motor.LowBatteryFlagHides | src/motor.cpp:138-141 | whenever the LBO pin reports the battery low, the test as written calls it "not low"; a fresh 3.0 V reading with LBO low is stored as 0x8000 + 3000 and is low to the corrected test |
| Motor.LowBatteryIgnoresFlag | src/motor.cpp:26-47 | the corrected test reports low exactly when the smoothed voltage is under 3200 mV, whatever LBO says |
| Motor.Motor.constructor | src/motor.h:48 | a zero-initialised state, the motor stopped, over the given faults and a filter with the default coefficient |
| Motor.Motor.Open | src/motor.cpp:68-77 | drives toward open after `ClearActionAll` of both motion bits |
| Motor.Motor.Close | src/motor.cpp:79-87 | drives toward closed after `ClearActionAll` of both motion bits |
| Motor.Motor.Stop | src/motor.cpp:98-105 | the motor is stopped |
| Motor.Motor.StopFast | src/motor.cpp:89-96 | the motor is fast-stopped |
| Motor.Motor.IsStopped | src/motor.cpp:143-145 | true exactly in the stopped and fast-stopped states |
| Motor.Motor.ReadCurrent | src/motor.cpp:19-24 | the sample goes through the filter and its output into `AktualniProud` |
| Motor.Motor.Run | src/motor.cpp:112-136 | the current is read, then the faults are fed as `Supervise` says against `MotorMaxProud` |
| Motor.Motor.ReadBatteryVoltage | src/motor.cpp:26-47 | `NapetiBaterie` takes the smoothed voltage with the LBO bit, and nothing else changes |
| Motor.Motor.Init | src/motor.cpp:50-66 | one battery reading, then the motor stopped |
| Motor.Motor.IsLowBattery | src/motor.cpp:138-141 | low exactly when the voltage bits of `NapetiBaterie` are under 3200 mV |
| Weight.BitsValue | src/weight.h:66-71 | the number the data bits spell, most significant first, is below 2 to the number of bits |
| Weight.SignExtend24 | src/weight.h:78-81 | the 24-bit pattern widened to 32 bits is the signed number with the same low 24 bits |
| Weight.Reading | src/weight.h:56-82 | one conversion is a signed 24-bit value |
| Weight.Average | src/weight.h:111-117 | the mean of two readings, rounded toward zero, lies between them and equals them when they agree |
| Weight.DoConversion | src/weight.h:56-82 | the shift loop over the 24 bits yields the sign-extended reading |
| Weight.Measure | src/weight.h:106-123 | the first conversion is discarded and the result is the mean of the next two |
| Weight.Filling | src/weight.h:133-136 | the level in 32-bit arithmetic, truncated toward zero, lies in 0..100 |
| Weight.Percent | src/weight.h:135-136 | the clamp to 0..100 keeps values already inside |
| Weight.FillingExact | src/weight.h:133-136 | for converter readings the 32-bit product does not wrap and the level is the plain percentage |
| Weight.FillingEnds | src/weight.h:133-136 | the empty weight reads 0 % and the full weight 100 % |
| Weight.FillingMonotone | src/weight.h:133-136 | among converter readings more feed never shows a lower level |
| Weight.UsedKinds | src/parameters_table.h:56-142 | the registers the scale uses are unsigned 16-bit or signed 32-bit ones |
| Weight.Get | src/weight.h:127-128 | a register's value lies in its class's range |
| Weight.SetS | src/weight.h:137 | a numeric `Set` changes only that register |
| Weight.FillingUpdateF | src/weight.h:125-144 | the level update keeps the scale well formed |
| Weight.FillingUpdateRange | src/weight.h:125-144 | with usable calibration an open feeder's level becomes the computed percentage and any other state is kept; without it the level is 0 |
| Weight.InitF | src/weight.h:85-104 | the level update, then the count update of `Init` |
| Weight.CountF | src/weight.h:89-103 | the count update of `Init` keeps the scale well formed |
| Weight.CancelF | src/weight.h:148-165 | requests that cannot be served are withdrawn |
| Weight.CalibrateF | src/weight.h:167-181 | the measurement becomes the current weight and a single request on an open feeder stores it |
| Weight.RaiseS | src/feeder_ctrl.h:62-68 | `EventSourced(e, povel_vaha)` keeps the scale well formed |
| Weight.RefillF | src/weight.h:184-195 | a due refill, then the reopening of a feeder closed by the scale |
| Weight.DueF | src/weight.h:184-191 | a due refill raises the close event when automatic refilling is on and restarts the count |
| Weight.ReopenF | src/weight.h:192-195 | a feeder closed by the scale is opened again |
| Weight.TaskF | src/weight.h:146-196 | `Task` over the measurement keeps the scale well formed |
| Weight.CalibrationStored | src/weight.h:167-181 | a single request on an open feeder stores the measurement as that weight and reports `kalibrace_provedena`, keeping the other weight |
| Weight.CalibrationRefused | src/weight.h:148-165 | requests for both weights, or any request while the feeder is not open, are withdrawn and neither weight changes |
| Weight.RefillCloses | src/weight.h:184-191 | an open feeder whose refill time has run out is closed by the scale when automatic refilling is on, and the count restarts either way |
| Weight.ReopensOnlyOwnClose | src/weight.h:192-195 | the scale opens a closed feeder exactly when the scale closed it |
| Weight.CalibrateKeepsState | src/weight.h:146-182 | the measurement half of `Task` leaves the feeder state and the events alone |
| Weight.RefillEvents | src/weight.h:184-195 | the refill half raises at most the close and the open event |
| Weight.TaskKeepsState | src/weight.h:146-196 | `Task` never changes the feeder state and raises at most the close and the open event |
| Weight.InitCounts | src/weight.h:85-104 | the count is cleared unless the feeder is open; below the refill level it grows by the wake period, wrapping at 32 bits; otherwise it never grows |
| Weight.Weight.constructor | src/weight.h:33 | the scale over the shared event word, with the retained count |
| Weight.Weight.RunMeasure | src/weight.h:198-202 | the write-command task is marked busy |
| Weight.Weight.GetReg | src/weight.h:127-128 | the register's value |
| Weight.Weight.SetReg | src/weight.h:137 | the new state is `SetS` of the old one |
| Weight.Weight.Raise | src/weight.h:188 | the new state is `RaiseS` of the old one |
| Weight.Weight.FillingUpdate | src/weight.h:125-144 | the new state is `FillingUpdateF` of the old one |
| Weight.Weight.Init | src/weight.h:85-104 | the new state is `InitF` of the old one |
| Weight.Weight.Count | src/weight.h:89-103 | the new state is `CountF` of the old one |
| Weight.Weight.Withdraw | src/weight.h:155-156 | both requests set back to `kalibrace_neni` |
| Weight.Weight.Calibrate | src/weight.h:167-181 | the new state is `CalibrateF` of the old one |
| Weight.Weight.Cancel | src/weight.h:148-165 | the new state is `CancelF` of the old one and the requests kept are those that can be served |
| Weight.Weight.Refill | src/weight.h:184-195 | the new state is `RefillF` of the old one |
| Weight.Weight.Due | src/weight.h:184-191 | the new state is `DueF` of the old one |
| Weight.Weight.Reopen | src/weight.h:192-195 | the new state is `ReopenF` of the old one |
| Weight.Weight.Task | src/weight.h:146-196 | the new state is `TaskF` of the old one over the mean of the last two conversions |
| FeederCtrl.Schedule | src/feeder_ctrl.cpp:19 | `TIME_SCHEDULE(secs)` is `secs` seconds in 100 ms task periods, and a timer started with it runs exactly when `secs > 0` |
| FeederCtrl.Row | src/feeder_ctrl_table.h:14-31 | the table line of state `s`: one action per event |
| FeederCtrl.SetNumW | src/feeder_ctrl.cpp:53 | a numeric `Set` of a register other than the error code and history keeps the world well formed |
| FeederCtrl.SetStateF | src/feeder_ctrl.cpp:251-254 | `StavKrmitka` takes the state and nothing else the machine reads changes |
| FeederCtrl.OpenF | src/motor.cpp:68-77 | the motor drives toward open, the state, timer, events and task flags kept |
| FeederCtrl.CloseF | src/motor.cpp:79-87 | the motor drives toward closed, the state, timer, events and task flags kept |
| FeederCtrl.Arrived | src/feeder_ctrl.cpp:48-67 | `closed()` and `opened()`: motor stopped, the direction's position fault cleared, the arrival time stored, the timer stopped; reaching open also asks for a measurement |
| FeederCtrl.Unable | src/feeder_ctrl.cpp:153-189 | `unable_open()` and `unable_close()`: motor stopped and the failed attempt counted; the fourth fails the feeder, otherwise the motor backs off the other way for 3 s |
| FeederCtrl.Perform | src/feeder_ctrl.cpp:35-197 | the effect of each action; the next state is a state or `NOSTATE` |
| FeederCtrl.TickF | src/feeder_ctrl.cpp:211-214 | the timer counts down and its expiry posts `ev_timer_expired` |
| FeederCtrl.StepF | src/feeder_ctrl.cpp:219-230 | a pending event runs its table action, the state follows a named next state, and the bit is consumed |
| FeederCtrl.DrainTo | src/feeder_ctrl.cpp:219-231 | the event loop after its first `n` rounds |
| FeederCtrl.ExecuteF | src/feeder_ctrl.cpp:209-240 | the timer, then every pending event, or else the release of the position task |
| FeederCtrl.PerformFrame | src/feeder_ctrl.cpp:35-197 | no action touches the pending events or the position task flag; `noaction` alone names no next state and changes nothing |
| FeederCtrl.ActionAgrees | src/feeder_ctrl.cpp:35-197 | every other action leaves the motor and the timer as the state it names expects, with no timer over 100 s |
| FeederCtrl.ExpiryHandled | src/feeder_ctrl_table.h:14-31 | every state with a timer has an action for its expiry |
| FeederCtrl.TickAgrees | src/feeder_ctrl.cpp:211-214 | the timer step keeps the agreement or leaves its expiry pending |
| FeederCtrl.StepAgrees | src/feeder_ctrl.cpp:219-230 | one round keeps the agreement or carries a pending expiry on to its own round |
| FeederCtrl.DrainAgrees | src/feeder_ctrl.cpp:219-231 | the loop keeps the agreement once the expiry round is past |
| FeederCtrl.ExecuteAgrees | src/feeder_ctrl.cpp:209-240 | `execute` keeps the motor and timer in step with the state: the motor runs only in a moving state, in its direction, under a timer, and a settled state has the motor stopped and no timer |
| FeederCtrl.StepFrame | src/feeder_ctrl.cpp:219-230 | one round consumes its own event bit and leaves the position task flag alone |
| FeederCtrl.DrainFrame | src/feeder_ctrl.cpp:219-231 | the loop consumes exactly the events below `n` |
| FeederCtrl.ExecuteEmpties | src/feeder_ctrl.cpp:209-240 | with every pending bit one of the seven events, one `execute` handles them all |
| FeederCtrl.ReleasesWhenIdle | src/feeder_ctrl.cpp:233-239 | with nothing pending, the motor stopped and no timer, `execute` releases the position task and changes nothing else |
| FeederCtrl.ReleasesOnlySettled | src/feeder_ctrl.cpp:209-240 | the position task is released only with nothing pending, the motor stopped and no timer, which means a settled state |
| FeederCtrl.StrayEventStays | src/feeder_ctrl.cpp:217-231 | a pending bit the loop does not visit, such as `no_event`, survives `execute` and keeps the position task busy |
| FeederCtrl.Run | src/feeder_ctrl.cpp:209-240 | `execute` once per clock reading |
| FeederCtrl.NoEventNeverSleeps | src/feeder_ctrl.cpp:217-239 | once `no_event` is pending no number of `execute` calls releases the position task |
| FeederCtrl.StopHonoured | src/feeder_ctrl_table.h:14-31 | the stop event stops the motor in every consistent state except the two test runs after reaching an end |
| FeederCtrl.PositionFault | src/feeder_ctrl.cpp:153-189 | the fault counting failed attempts is `error_open` exactly for the open direction |
| FeederCtrl.FailureLatches | src/feeder_ctrl_table.h:31 | `ChybaKrmitka` holds until stop, open or close, which fast-stop the motor and give the unknown position |
| FeederCtrl.Retry | src/feeder_ctrl.cpp:137-189 | a failed attempt, then the restart in the same direction |
| FeederCtrl.UnableCounts | src/feeder_ctrl.cpp:153-189 | a failed attempt below the limit adds 25 to the fault's count and backs off; the restart keeps the count |
| FeederCtrl.UnableMatures | src/feeder_ctrl.cpp:153-189 | the attempt that brings the count to 100 fails the feeder with the motor stopped |
| FeederCtrl.FourthFailureFails | src/feeder_ctrl.cpp:153-189 | from a clear fault the first three failed attempts back off and retry, and the fourth fails the feeder |
| FeederCtrl.FeederCtrl.constructor | src/feeder_ctrl.cpp:21-22 | the machine over the motor, its faults and the scale, with its timer stopped |
| FeederCtrl.FeederCtrl.Init | src/feeder_ctrl.cpp:242-245 | the position task is marked busy |
| FeederCtrl.FeederCtrl.IsState | src/feeder_ctrl.cpp:247-250 | true exactly when `StavKrmitka` holds the state |
| FeederCtrl.FeederCtrl.SetState | src/feeder_ctrl.cpp:251-254 | the new state is `SetStateF` of the old one |
| FeederCtrl.FeederCtrl.TimerStart | src/feeder_ctrl.cpp:256-259 | the timer holds `TIME_SCHEDULE(secs)` |
| FeederCtrl.FeederCtrl.TimerStop | src/feeder_ctrl.cpp:261-263 | the timer is stopped |
| FeederCtrl.FeederCtrl.MotorOpen | src/motor.cpp:68-77 | the new state is `OpenF` of the old one |
| FeederCtrl.FeederCtrl.MotorClose | src/motor.cpp:79-87 | the new state is `CloseF` of the old one |
| FeederCtrl.FeederCtrl.OnFeederError | src/feeder_ctrl.cpp:40-46 | motor and timer stopped, next state `ChybaKrmitka` |
| FeederCtrl.FeederCtrl.Record | src/feeder_ctrl.cpp:52-53 | the direction's position fault cleared and the arrival time stored |
| FeederCtrl.FeederCtrl.OnArrived | src/feeder_ctrl.cpp:48-67 | the new state and next state are `Arrived` of the old one |
| FeederCtrl.FeederCtrl.OnCheckCurrent | src/feeder_ctrl.cpp:76-106 | arrived when the motor still draws more than 25 mA, failed otherwise |
| FeederCtrl.FeederCtrl.OnCheckOpen | src/feeder_ctrl.cpp:69-74 | a 2 s run toward closed to test the open end |
| FeederCtrl.FeederCtrl.OnCheckClose | src/feeder_ctrl.cpp:88-93 | a 1 s run toward open to test the closed end |
| FeederCtrl.FeederCtrl.OnStop | src/feeder_ctrl.cpp:108-115 | fast stop, timer stopped, position unknown |
| FeederCtrl.FeederCtrl.OnBreak | src/feeder_ctrl.cpp:117-135 | the motor stops and waits 3 s after closing or 2 s after opening |
| FeederCtrl.FeederCtrl.OnDriveOpen | src/feeder_ctrl.cpp:137-143 | toward open under the 100 s limit |
| FeederCtrl.FeederCtrl.OnDriveClose | src/feeder_ctrl.cpp:145-151 | toward closed under the 100 s limit |
| FeederCtrl.FeederCtrl.CountFailure | src/feeder_ctrl.cpp:155-157 | the motor stopped and the position fault checked with true; the result is its activity |
| FeederCtrl.FeederCtrl.OnUnable | src/feeder_ctrl.cpp:153-189 | the new state and next state are `Unable` of the old one |
| FeederCtrl.FeederCtrl.Act | src/feeder_ctrl.cpp:224 | the action's effect is `Perform` of the old state |
| FeederCtrl.FeederCtrl.Dispatch | src/feeder_ctrl.cpp:221-230 | the new state is `StepF` of the old one |
| FeederCtrl.FeederCtrl.Tick | src/feeder_ctrl.cpp:211-214 | the new state is `TickF` of the old one |
| FeederCtrl.FeederCtrl.Release | src/feeder_ctrl.cpp:233-239 | the position task is released exactly when the motor is stopped and no timer runs |
| FeederCtrl.FeederCtrl.Drain | src/feeder_ctrl.cpp:219-231 | the new state is `DrainTo` over all seven events |
| FeederCtrl.FeederCtrl.DrainStep | src/feeder_ctrl.cpp:221-230 | round `i` takes the loop from `DrainTo(g, i)` to `DrainTo(g, i + 1)` |
| FeederCtrl.FeederCtrl.Execute | src/feeder_ctrl.cpp:209-240 | the new state is `ExecuteF` of the old one |
| Buttons.Elapsed | src/button.h:65 | `millis() - switchtime` taken modulo 2^32: the plain difference without wrap-around, the wrapped difference across it |
| Buttons.ReadF | src/button.h:47-87 | one sample keeps a reachable button reachable |
| Buttons.CountBounded | src/button.h:52-55 | the debounce counter stays within 0 .. 3, rising by one on a low sample and falling by one on a high sample |
| Buttons.PushStarts | src/button.h:56-62 | a push starts exactly on a low sample once the counter is at 3, and records its start time |
| Buttons.LongPushStarts | src/button.h:63-70 | the long push and its one-shot flag rise only on a low sample of a push older than the long-push time, and always do then |
| Buttons.ReleaseRule | src/button.h:72-86 | a press is reported exactly on a high sample with the counter at 0 ending a push shorter than the long-push time; the release ends the push and the long push; pending flags stay |
| Buttons.ExactHoldSilent | src/button.h:63-86 | a push released after exactly the long-push time reports neither a press nor a long push |
| Buttons.ShortPress | src/button.h:47-87 | four low then four high samples from an idle button make one push, reported as a press exactly when it was shorter than the long-push time |
| Buttons.Button.constructor | src/button.h:31-36 | the long-push time as given |
| Buttons.Button.Init | src/button.h:38-46 | every flag and the counter cleared |
| Buttons.Button.Read | src/button.h:47-87 | the new button is `ReadF` of the old one |
| Buttons.Button.IsOn | src/button.h:89-92 | a debounced push is in progress |
| Buttons.Button.IsLongOn | src/button.h:99-102 | the push in progress is a long push |
| Buttons.Button.IsOnEvent | src/button.h:93-98 | the pending press, reported once and cleared |
| Buttons.Button.IsLongOnEvent | src/button.h:103-108 | the pending long push, reported once and cleared |
| EspNowCtrl.Encode | src/esp_now_ctrl.cpp:128-143 | a payload of up to 240 bytes goes on the air as a 2-byte header and the payload, at most `sizeof(Message)` bytes |
| EspNowCtrl.Receive | src/esp_now_ctrl.cpp:155-190 | an accepted frame carries at most 240 payload bytes |
| EspNowCtrl.EncodeAccepted | src/esp_now_ctrl.cpp:128-190 | every frame the sender builds passes the receiver's length checks unchanged |
| EspNowCtrl.AcceptedAreEncodings | src/esp_now_ctrl.cpp:155-190 | an accepted frame is the encoding of what it is accepted as; a frame shorter than the header, longer than `sizeof(Message)` or of a length other than header plus declared payload is dropped |
| EspNowCtrl.Attempts | src/esp_now_ctrl.cpp:100-121 | the number of sends is at most the retry count, all of them when no wait succeeds, at least one when one does |
| EspNowCtrl.Transmission | src/esp_now_ctrl.cpp:128-143 | one raw send puts at most one frame on the air |
| EspNowCtrl.DeliveredIsFirstSuccess | src/esp_now_ctrl.cpp:100-121 | a send succeeds exactly when one of the first `retryCount` waits yields success, and its last attempt is the first such wait |
| EspNowCtrl.RetryStep | src/esp_now_ctrl.cpp:102-119 | one pass of the retry loop consumes one status and either ends the send or leaves one retry fewer |
| EspNowCtrl.Radio.constructor | src/esp_now_ctrl.cpp:27 | not initialised, nothing sent, the status queue as given |
| EspNowCtrl.Radio.Init | src/esp_now_ctrl.cpp:29-61 | a second call does nothing; otherwise initialised unless the driver fails to start |
| EspNowCtrl.Radio.SetChannel | src/esp_now_ctrl.cpp:95-98 | the radio's channel is the one given, nothing else changes |
| EspNowCtrl.Radio.SendMessageRaw | src/esp_now_ctrl.cpp:128-143 | a payload over 240 bytes sends nothing; otherwise exactly its encoding goes to the peer |
| EspNowCtrl.Radio.Attempt | src/esp_now_ctrl.cpp:104-107 | one send, then one status taken from the queue, an empty queue timing out |
| EspNowCtrl.Radio.SendMessageInternal | src/esp_now_ctrl.cpp:100-121 | the result is whether one of the first `retryCount` waits succeeds; the frame is sent once per attempt and counted delivered only on success |
| EspNowCtrl.Radio.SendMessage | src/esp_now_ctrl.cpp:123-126 | as `SendMessageInternal` |
| EspNowCtrl.Inbox.constructor | src/esp_now_ctrl.cpp:52 | an empty receive queue |
| EspNowCtrl.Inbox.OnDataRecv | src/esp_now_ctrl.cpp:155-166 | a frame of at most `sizeof(Message)` bytes is queued with its sender; a longer one is dropped |
| EspNowCtrl.Inbox.Take | src/esp_now_ctrl.cpp:168-190 | the oldest frame is taken, and handed on with its sender exactly when `Receive` accepts it |
| EspNowLink.SendF | src/esp_now_ctrl.cpp:123-126 | a `SendMessage` uses statuses only, no pairing reply |
| EspNowLink.ScanF | src/esp_now_client.h:472-513 | the probe loop ends on a channel from the start channel up to 13 |
| EspNowLink.ScanStopsAtFirstReply | src/esp_now_client.h:482-505 | a scan stops at the first channel whose look sees a PAIRED reply and reports the master found; with no reply on channels `ch` .. 13 it probes up to 13 and reports it not found |
| EspNowLink.ScanUsesLooks | src/esp_now_client.h:482-505 | each probed channel uses up one look for a reply |
| EspNowLink.CheckSendPolicy | src/esp_now_client.h:28-50 | a success on the first or second try ends `CHECK_SEND` without a scan; two failures start a scan, and the result is then true exactly when the scan found the master and the third try succeeded |
| EspNowLink.DataOfTransmission | src/esp_now_ctrl.cpp:128-143 | a delivered frame adds exactly its message's data frame to what a transfer is about |
| EspNowLink.DataFrame | src/esp_now_ctrl.cpp:128-143 | a delivered message gives its peer at most one data frame |
| EspNowLink.Sends | src/esp_now_client.h:108-141 | a plan of messages gives at most one data frame per message |
| EspNowLink.SendsAppend | src/esp_now_client.h:108-141 | the frames of two plans one after the other are the frames of each |
| EspNowLink.RunF | src/esp_now_client.h:52-61 | a transfer under `CHECK_SEND_RETURN_IF_FAIL` delivers a prefix of its messages, and succeeds exactly when it delivers all of them |
| EspNowLink.RunSnoc | src/esp_now_client.h:52-61 | one message more is attempted only if every earlier one was delivered |
| EspNowLink.RunStops | src/esp_now_client.h:52-61 | after a message `CHECK_SEND` gives up on, nothing more is sent |
| EspNowLink.RunAppend | src/esp_now_client.h:52-61 | a transfer in two parts is the second part run from where the successful first part left off |
| EspNowLink.RunKeepsScanned | src/esp_now_client.h:28-50 | once a scan has run, no later message undoes it |
| EspNowLink.ReliableRun | src/esp_now_client.h:28-50 | over a link whose waits all succeed, every message goes out on its first try with no scan, using one status each |
| EspNowLink.SilentSend | src/esp_now_ctrl.cpp:100-121 | a send over a link with no successful wait fails and leaves the link so |
| EspNowLink.DeadScan | src/esp_now_client.h:472-513 | a scan that hears no reply does not find the master |
| EspNowLink.DeadRun | src/esp_now_client.h:28-50 | with no successful wait and no reply, a non-empty transfer delivers nothing, after a scan that leaves `gotMasterResponse` false and the channel at 1 |
| EspNowLink.Plan | src/esp_now_client.h:108-141 | the messages of a chunked transfer: one per payload, in order, of one type and retry count |
| EspNowLink.PlanAppend | src/esp_now_client.h:108-141 | the messages of two payload lists one after the other |
| EspNowLink.FramesAppend | src/esp_now_client.h:108-141 | full chunks in front of the rest of a transfer are sent as they are |
| EspNowLink.FramesOfChunks | src/esp_now_client.h:108-141 | a transfer is its full chunks and then, if non-empty, the final partial chunk |
| EspNowLink.DeliversAll | src/esp_now_client.h:52-61 | a transfer that succeeded delivered every message's data frame |
| EspNowLink.DeliversAppend | src/esp_now_client.h:52-61 | of two transfers one after the other, the second runs only after the first succeeded, from the state it left |
| EspNowLink.MessageStep | src/esp_now_client.h:28-61 | one message more goes on exactly when `CHECK_SEND` delivers it, and its peer gets its data frame exactly then |
| EspNowLink.Abandoned | src/esp_now_client.h:52-61 | nothing is sent or delivered after a message `CHECK_SEND` gave up on |
| EspNowLink.ChunkThenRest | src/esp_now_client.h:108-141 | the messages of a transfer whose next chunk is followed by the rest |
| EspNowLink.ChunkAbandoned | src/esp_now_client.h:52-141 | a chunk `CHECK_SEND` gave up on ends the transfer: later chunks are never sent |
| EspNowLink.ChunkSplit | src/esp_now_client.h:108-141 | the messages up to a chunk, then those of the rest |
| EspNowFrames.Le16 | src/esp_now_ctrl.h:111-115 | a `uint16_t` field of a packed payload takes two bytes |
| EspNowFrames.Le16RoundTrip | src/esp_now_ctrl.h:111-115 | two bytes read back as the `uint16_t` stored |
| EspNowFrames.Le16OfBytes | src/esp_now_ctrl.h:111-115 | every two bytes are the storage of the `uint16_t` they read as |
| EspNowFrames.Le32 | src/esp_now_ctrl.h:164-167 | a `uint32_t` field takes four bytes |
| EspNowFrames.Le32RoundTrip | src/esp_now_ctrl.h:164-167 | four bytes read back as the `uint32_t` stored |
| EspNowFrames.I16 | src/esp_now_ctrl.h:117-122 | an `int16_t` value takes two bytes |
| EspNowFrames.I16RoundTrip | src/esp_now_ctrl.h:117-122 | two bytes read back as the `int16_t` stored |
| EspNowFrames.I32 | src/esp_now_ctrl.h:95-103 | an `int32_t` field takes four bytes |
| EspNowFrames.I32RoundTrip | src/esp_now_ctrl.h:95-103 | four bytes read back as the `int32_t` stored |
| EspNowFrames.NameField | src/esp_now_client.h:123-124 | the name field is 32 bytes |
| EspNowFrames.NameFieldText | src/esp_now_client.h:123-124 | the name field holds the name's first 31 characters, then zeros, and always ends in a zero |
| EspNowFrames.DefRecord | src/esp_now_ctrl.h:95-103 | one `pardef_t_espnow` record is 47 bytes |
| EspNowFrames.DefRoundTrip | src/esp_now_client.h:118-124 | a record reads back as the entry's address, limits, descriptor, flags and name field |
| EspNowFrames.DefRecords | src/esp_now_ctrl.h:105-109 | `n` records take `47 n` bytes |
| EspNowFrames.DefPayload | src/esp_now_client.h:129-138 | a definitions payload of `n` entries is `sizeof(pardef_t_espnow) * n + 1` bytes |
| EspNowFrames.DefRecordsRoundTrip | src/esp_now_ctrl.h:105-109 | consecutive records read back as the entries they came from |
| EspNowFrames.DefsRoundTrip | src/esp_now_client.h:126-138 | a definitions payload of at most five entries fits a message and reads back as those entries |
| EspNowFrames.DecodeCounted | src/esp_now_ctrl.h:105-109 | a payload whose count byte matches its number of records reads as those records |
| EspNowFrames.Values | src/esp_now_ctrl.h:117-122 | `n` values take `2 n` bytes |
| EspNowFrames.FromValues | src/esp_now_ctrl.h:124-129 | an even number of bytes holds half as many values |
| EspNowFrames.ValuesRoundTrip | src/esp_now_ctrl.h:117-129 | values read back as stored |
| EspNowFrames.ValuesPayload | src/esp_now_client.h:190-199 | a read response of `n` values is `4 + 2 n` bytes |
| EspNowFrames.ValuesPayloadRoundTrip | src/esp_now_client.h:180-199 | a read response reads back as its start address and values |
| EspNowFrames.ValuesReassemble | src/esp_now_client.h:172-202 | read responses of at most 118 values, each headed by the address of its first value, rebuild the whole range |
| EspNowFrames.CollectValuesStep | src/esp_now_client.h:193 | a block that starts where the previous one ended is followed by the blocks after it |
| EspNowFrames.LogPayload | src/log.cpp:235-237 | a log chunk of `n` bytes is sent as `4 + 1 + n` bytes |
| EspNowFrames.LogPayloadRoundTrip | src/esp_now_ctrl.h:148-153 | a log chunk reads back as its byte offset and bytes |
| EspNowFrames.LogReassemble | src/log.cpp:214-255 | log chunks of at most 230 bytes, each carrying its byte offset, rebuild the byte stream |
| EspNowFrames.CollectLogStep | src/log.cpp:235 | a chunk that starts where the previous one ended is followed by the chunks after it |
| EspNowFrames.ProbePayload | src/esp_now_ctrl.h:75-79 | a pairing request is 2 bytes |
| EspNowFrames.SleepPayload | src/esp_now_ctrl.h:164-167 | a sleep message carries the sleep time in 4 bytes that read back as it |
| SystemLog.I64 | src/log.h:23 | a `time_t` takes eight bytes |
| SystemLog.I64RoundTrip | src/log.h:23 | eight bytes read back as the `time_t` stored |
| SystemLog.TextField | src/log.cpp:43-44 | the text field is 80 bytes |
| SystemLog.CText | src/log.cpp:156 | the C string a field holds is no longer than the field |
| SystemLog.CTextOfPadded | src/log.cpp:43-44 | a message without zero bytes followed by a zero reads back as the message |
| SystemLog.RecordBytes | src/log.cpp:114 | a record takes 92 bytes in a log file |
| SystemLog.RecordRoundTrip | src/log.cpp:114-156 | a record `PutLog` built reads back unchanged from its stored bytes |
| SystemLog.Bytes | src/log.cpp:114 | a file of `n` records is `92 n` bytes |
| SystemLog.BytesAt | src/log.cpp:144-148 | record `i` occupies bytes `92 i` up to `92 (i + 1)` of its file |
| SystemLog.Append | src/log.cpp:100-115 | a write leaves two files and a file index below 2 |
| SystemLog.AppendKeepsNewest | src/log.cpp:100-115 | after a write the stored records end with the new record, follow on from those before it with nothing in between lost, and keep at least the newest 26 old ones |
| SystemLog.AppendReach | src/log.cpp:100-115 | the written file never holds more than 26 records, and the other file is empty or the full one switched away from |
| SystemLog.InitChoiceAsWritten | src/log.cpp:56-87 | `Init` as written chooses file 1 or 0, switching at 25 records |
| SystemLog.InitChoice | src/log.cpp:56-108 | `Init` with the test `Task` uses, switching at more than 25 records |
| SystemLog.InitResumes | src/log.cpp:56-115 | after a restart the corrected choice writes the next record where the firmware before the restart would have, except when both files are full |
| SystemLog.InitAsWrittenLosesNewest | src/log.cpp:69-112 | with 26 records in the first file and 25 in the second, the choice as written empties the second on the next write, losing its 25 newest records |
| SystemLog.Page | src/log.cpp:132-193 | up to `n` records from position `pos` on, in order, and none from past the end |
| SystemLog.PageSplit | src/log.cpp:132-193 | consecutive pages make up the page of their combined size |
| SystemLog.Entry | src/log.cpp:38-44 | the record has the level, the given time or now when it is 0, and the message's first 79 bytes; a message without zeros gives a well-formed record |
| SystemLog.GetLogJsonPage | src/log.cpp:126-193 | the page of the older file followed by that of the file being written is the page of the whole log |
| SystemLog.Log.constructor | src/log.cpp:21-27 | the files found in flash, an empty queue |
| SystemLog.Log.Init | src/log.cpp:56-87 | the file-system task is busy, the queue empty, and the file to write chosen by `InitChoice` |
| SystemLog.Log.PutLog | src/log.cpp:38-49 | the record is queued when the five-entry queue has room, dropped otherwise |
| SystemLog.Log.Task | src/log.cpp:89-118 | the file-system task flag ends raised exactly when a record was taken, and that record is written by `Append` |
| SystemLog.Log.GetLogJson | src/log.cpp:120-198 | the total is the number of stored records, and the records reported are the page from `pos`, none past the end |
| SystemLog.ReadRecords | src/log.cpp:144-159 | the page of one file from `pos` |
| EspNowData.Tune | src/esp_now_client.h:479 | a scan sets `WiFiKanal` to 1, changes nothing when it already is, and keeps every other saved copy |
| EspNowData.TuneTwice | src/esp_now_client.h:479 | a second scan changes nothing the first did not |
| EspNowData.ChannelAddress | src/parameters_table.h:112 | `WiFiKanal` is the register at address 203 and at no other |
| EspNowData.Reads | src/esp_now_client.h:181-187 | reading `n` consecutive addresses yields `n` units |
| EspNowData.ReadsSnoc | src/esp_now_client.h:181-187 | `n + 1` reads are `n` reads followed by the read at the next address with the cursor they left |
| EspNowData.ReadsPrefix | src/esp_now_client.h:181-187 | the first `m` of `n` reads are the reads of `m` |
| EspNowData.ReadsScalar | src/parameters.cpp:213-228 | a readable 16-bit register reads as its value wherever it sits in a run, and an unheld address reads as `NONDEF_REG_VAL` |
| EspNowData.ReadsInt32 | src/parameters_types.h:109-112 | the two units of a readable 32-bit register read one after the other are its high and low halves |
| EspNowData.ReadAtTune | src/esp_now_client.h:479 | after a scan a read leaves the same cursor and returns the same unit everywhere but at the channel register |
| EspNowData.ChannelIsScalar | src/parameters_table.h:112 | `WiFiKanal` is a readable one-unit register |
| EspNowData.ReadCount | src/esp_now_client.h:178-181 | the units a request reads never run past address 65535 |
| EspNowData.EspAt | src/esp_now_client.h:115-116 | the entry of an index only when it has `Par_ESPNow`, with its name |
| EspNowData.EspEntries | src/esp_now_client.h:113-135 | the announced entries are at most the table's and all have `Par_ESPNow` |
| EspNowData.EspEntriesComplete | src/esp_now_client.h:113-135 | every `Par_ESPNow` entry is announced with its own name |
| EspNowData.FirstAdr | src/esp_now_client.h:148-156 | no `Par_ESPNow` register starts below the first address |
| EspNowData.FirstAdrAttained | src/esp_now_client.h:148-156 | the first address is that of a `Par_ESPNow` register unless there is none |
| EspNowData.LastAdrStep | src/esp_now_client.h:157-160 | the last address never decreases and covers the register looked at |
| EspNowData.LastAdrBound | src/esp_now_client.h:157-160 | every `Par_ESPNow` register ends at or before the last address |
| EspNowData.LastAdrMax | src/esp_now_client.h:157-160 | the last address is 38 at most |
| EspNowData.LastAdrAttained | src/esp_now_client.h:157-160 | the last address is the end of a `Par_ESPNow` register unless there is none |
| EspNowData.EspSpan | src/esp_now_client.h:146-162 | the loop yields the first and last addresses |
| EspNowData.FirstBelowLast | src/esp_now_client.h:163-167 | a non-empty span has its first address below its last |
| EspNowData.RequestFits | src/esp_now_client.h:165-178 | the request built from the span reads exactly its units without wrapping |
| EspNowData.SpanBounds | src/parameters_table.h:57-139 | the span runs from `StavKrmitka` at 2 up to the end of `RestartCmd` at 38 |
| EspNowData.RestartEnd | src/parameters_table.h:139 | `RestartCmd` has `Par_ESPNow` and ends at 38 |
| EspNowData.ReadsTune | src/esp_now_client.h:479 | reads of a run of addresses that misses the channel register `WiFiKanal` (address 203) are the same after a scan |
| EspNowData.ReadsAppend | src/esp_now_client.h:181-187 | reading `k` units and then `j` more from where the first left the cursor is reading `k + j` units: the units joined, the last cursor |
| EspNowData.SpanTune | src/esp_now_client.h:143-170 | a scan does not change what `sendParamValues` reads |
| EspNowData.WriteValuesAsWritten | src/esp_now_client.h:204-213 | as written, `nmr` values are taken whatever the frame's length |
| EspNowData.WriteValues | src/esp_now_client.h:204-213 | corrected: as many values as the count asks and the frame carries, none from a frame shorter than its header |
| EspNowData.WriteValuesInFrame | src/esp_now_client.h:204-213 | the corrected values depend only on the bytes of the frame |
| EspNowData.WriteValuesAgree | src/esp_now_client.h:204-213 | a frame whose count matches its length is written in full, as written and corrected alike |
| EspNowData.Area | src/esp_now_ctrl.cpp:161 | the receive buffer begins with the frame |
| EspNowData.WriteValuesOfBlock | src/esp_now_ctrl.h:117-129 | a block in the read-response format, sent as a write request, writes exactly its values |
| EspNowData.WriteValuesAsWrittenReadsPastFrame | src/esp_now_client.h:204-213 | a request for two values at address 0 carrying one takes its second value from the bytes after the frame, so two buffers with the same frame write different values; the corrected one writes only the value carried |
| EspNowData.WritesNext | src/esp_now_client.h:209-212 | the writes of `i + 1` values are those of `i` then value `i` to its address |
| EspNowData.WritesUnheld | src/parameters.cpp:313-322 | writes to addresses no register holds change nothing but the cursor |
| EspNowClient.ClientRegisters | src/parameters_table.h:56-112 | the registers the client reads and sets have the classes it uses them with |
| EspNowClient.Untouched | src/esp_now_client.h:479 | a transfer without a scan leaves a bank a scan already tuned as it is |
| EspNowClient.RetunedTrans | src/esp_now_client.h:479 | two transfers one after the other retune at most once |
| EspNowClient.AfterKeepsScanned | src/esp_now_client.h:28-50 | after a `CHECK_SEND` a scan has run exactly when one had before or this one ran one |
| EspNowClient.DataOfSend | src/esp_now_ctrl.cpp:100-121 | a `SendMessage` adds its data frame to what the peer got exactly when delivered |
| EspNowClient.NextData | src/esp_now_client.h:28-61 | one message more grows the frames delivered by its data frame exactly when `CHECK_SEND` delivers it |
| EspNowClient.Chain | src/esp_now_client.h:391-407 | a successful transfer followed by another is the transfer of both: same result, same state, the frames of both, a scan kept |
| EspNowClient.DefsPlan | src/esp_now_client.h:108-141 | every message of `sendParamDefs` is a definitions response with the default retry count |
| EspNowClient.DefsFit | src/esp_now_client.h:129-138 | a definitions message of at most five entries fits a frame |
| EspNowClient.ValuesPlan | src/esp_now_client.h:172-202 | every message of a read answer is a read response with the default retry count |
| EspNowClient.LogPlan | src/log.cpp:201-258 | every log message is a log response sent with 5 retries |
| EspNowClient.ValuesFit | src/esp_now_client.h:190-199 | a read response of at most 118 values fits a frame |
| EspNowClient.TuneAfter | src/esp_now_client.h:479 | the registers after a `CHECK_SEND` keep fitting their registers, and `WiFiKanal` is 1 after one that scanned |
| EspNowClient.AnswerSingle | src/esp_now_client.h:181-200 | a request of at most 118 units is answered by one response of the units read, whatever the link does |
| EspNowClient.SpanAnswer | src/esp_now_client.h:143-170 | the 36 units `sendParamValues` asks for are answered by `SpanPlan`, leaving the cursor of `SpanReads` |
| EspNowClient.ValuesPlanSingle | src/esp_now_client.h:196-199 | at most 118 units make one response |
| EspNowClient.ValuesPlanCons | src/esp_now_client.h:188-193 | the responses of 118 units and then more are the first response, headed by the first address, then those of the rest, headed 118 further on |
| EspNowClient.ValuesPlanSplit | src/esp_now_client.h:181-193 | the reads of more than 118 units are the first 118 and then the rest, and their responses split the same way |
| EspNowClient.ReadsRetuned | src/esp_now_client.h:479 | reads of a run that misses the channel register are the same after a `CHECK_SEND`, scan or not |
| EspNowClient.AnswerStep | src/esp_now_client.h:188-193 | after a first response that was delivered the answer goes on with the rest of the units, from the link and registers that send left |
| EspNowClient.AnswerStop | src/esp_now_client.h:55-59 | a first response given up on is the whole answer |
| EspNowClient.ValuesFirst | src/esp_now_client.h:28-50 | one read response sent goes on exactly when `SendValues` delivers it, leaving the link as `After` says |
| EspNowClient.AnswerUntuned | src/esp_now_client.h:172-202 | for a request that misses the channel register, the chunked answer is a cut of the responses of all its units read at once: their first ones, with the same outcome, and all of them with the reads' cursor when every response was delivered |
| EspNowClient.LogFit | src/log.cpp:237-253 | a log message of at most 230 bytes fits a frame |
| EspNowClient.NextChunk | src/log.cpp:222-242 | the next chunk from `pos` is full unless it is the last, and the chunks so far plus it cover the stream up to its end |
| EspNowClient.ReportSteps | src/esp_now_client.h:391-407 | a report is the part up to the register values followed by the rest, as `Reported` says |
| EspNowClient.PairedRemembers | src/esp_now_client.h:218-241 | a paired response leaves its sender as the master and, from an unpaired client, `StavZarizeni` at `Sparovano`, whatever the transfer after it does |
| EspNowClient.PairingToggles | src/esp_now_client.h:437-456 | `StartPairing` forgets the master and turns pairing mode on exactly when it was off |
| EspNowClient.SetBank | src/parameters.cpp:348-370 | a numeric `Set` keeps every value fitting its register |
| EspNowClient.MacBank | src/esp_now_client.h:225 | `MasterMacAdresa.Set` keeps every value fitting its register |
| EspNowClient.PairingBank | src/esp_now_client.h:437-456 | the bank after `StartPairing` keeps every value fitting its register |
| EspNowClient.AdoptBank | src/esp_now_client.h:224-226 | the bank after a paired response keeps every value fitting its register |
| EspNowClient.Client.constructor | src/esp_now_client.h:99-106 | no master response, no scan, every per-boot flag clear |
| EspNowClient.Client.ScanForMaster | src/esp_now_client.h:472-513 | the sweep `ScanF` from channel 1: the result is whether the master answered, the radio ends on channel 1, `WiFiKanal` is 1, and no data frame is delivered |
| EspNowClient.Client.Retune | src/esp_now_client.h:479 | `WiFiKanal` set to 1 and the scan recorded |
| EspNowClient.Client.Sweep | src/esp_now_client.h:480-505 | the probe loop is `ScanF` from channel 1 and delivers no data frame |
| EspNowClient.Client.Probe | src/esp_now_client.h:484-496 | the radio on the channel, one pairing probe, one look for an answer |
| EspNowClient.Client.CheckSend | src/esp_now_client.h:28-50 | the result and wire state are `CheckSendF`'s; the peer gets the message's data frame exactly when it succeeds; only a scan retunes |
| EspNowClient.Client.Tries | src/esp_now_client.h:31-36 | up to two tries, the second only after the first failed |
| EspNowClient.Client.Try | src/esp_now_client.h:31 | one `SendMessage` as `SendF` says |
| EspNowClient.Client.Rescue | src/esp_now_client.h:37-45 | a scan and, if it found the master, one last try that decides |
| EspNowClient.Client.Deliver | src/esp_now_client.h:52-61 | one message more of a transfer, as `RunF` of the longer plan; its result, the link afterwards and the registers are those of `CheckSendF`, with `WiFiKanal` set to 1 only by a scan |
| EspNowClient.Client.SendChunk | src/esp_now_client.h:108-141 | a delivered chunk joins the transfer; a refused one ends the whole of it |
| EspNowClient.Client.SendNext | src/log.cpp:222-243 | one pass of a chunked transfer: progress and the transfer so far, or the end of the whole |
| EspNowClient.Client.SendAll | src/esp_now_client.h:108-141 | a chunked transfer is `RunF` of its plan, delivering its messages until the first failure |
| EspNowClient.Client.SendParamDefs | src/esp_now_client.h:108-141 | `RunF` of `DefsPlan` |
| EspNowClient.Client.SendLogs | src/log.cpp:201-258 | `RunF` of `LogPlan`: both log files, older first, 230 bytes to a message |
| EspNowClient.Client.ReadOne | src/parameters.cpp:213-228 | one unit read as `ReadAt` says, registers unchanged |
| EspNowClient.Client.ReadUnits | src/esp_now_client.h:181-187 | the units of `n` addresses as `Reads` says |
| EspNowClient.Client.ReadParams | src/esp_now_client.h:172-202 | the request's units read in order, up to 118 to a response headed by its first address; each response goes out with `CHECK_SEND` before the next units are read, and the first one given up on ends the handler with false: the responses sent, the result and the cursor are those of `Answer`; a wrapping end reads nothing |
| EspNowClient.Client.ReadChunk | src/esp_now_client.h:181-200 | one chunk: up to 118 units read and sent; when it is delivered the answer goes on, as `Answer` from the new link, registers and cursor; when it is given up on it is the last response |
| EspNowClient.Client.ReadSpan | src/esp_now_client.h:143-170 | the handler asked for the 36 units of the span sends `SpanPlan`, one response |
| EspNowClient.Client.SendParamValues | src/esp_now_client.h:143-170 | the units from the lowest `Par_ESPNow` address to one past the highest, sent as a read answer |
| EspNowClient.Client.Report | src/esp_now_client.h:391-407 | the report to a paired master as `Reported` says |
| EspNowClient.Client.Opening | src/esp_now_client.h:393-398 | the definitions if due, then the register values |
| EspNowClient.Client.Finish | src/esp_now_client.h:399-406 | the rest of a report: on the first report the time request and the logs, then `MSG_TRANSMIT_DONE` |
| EspNowClient.Client.DefsStage | src/esp_now_client.h:393-397 | `sendParamDefs` if due, marking them sent |
| EspNowClient.Client.ValuesStage | src/esp_now_client.h:398 | `sendParamValues` if everything before got through |
| EspNowClient.Client.FirstStage | src/esp_now_client.h:399-404 | on the first report the time request and the logs, after which `first_send` is set |
| EspNowClient.Client.SyncAndLogs | src/esp_now_client.h:401-402 | the time synchronisation request, then the logs |
| EspNowClient.Client.LogsStage | src/esp_now_client.h:402 | `SendLogsViaEspNow` after a transfer that got through |
| EspNowClient.Client.SignalStage | src/esp_now_client.h:405 | a payload-less message with `CHECK_SEND` |
| EspNowClient.Client.WriteParams | src/esp_now_client.h:204-321 | the values the frame carries written from its address on, `send_data_before_sleep` set and a measurement asked for |
| EspNowClient.Client.Task | src/esp_now_client.h:361-435 | a report to a paired master or a scan in pairing mode; the communication task stays active exactly when that succeeded and the semaphore was taken |
| EspNowClient.Client.Settle | src/esp_now_client.h:411-434 | the communication task flag is `res && taken` |
| EspNowClient.Client.Round | src/esp_now_client.h:371-408 | the task marked active, then the communication |
| EspNowClient.Client.MarkCommunication | src/esp_now_client.h:371 | `active_tasks[Communication_Task]` set, nothing else |
| EspNowClient.Client.Communicate | src/esp_now_client.h:373-408 | a report to a paired master, a scan in pairing mode, nothing otherwise |
| EspNowClient.Client.PairResponse | src/esp_now_client.h:215-259 | a paired response adopts the sender and introduces it to an unpaired client; an initial or expired one from the master unpairs; any other changes nothing |
| EspNowClient.Client.Pair | src/esp_now_client.h:218-241 | the master adopted, and welcomed if the client was unpaired |
| EspNowClient.Client.Adopt | src/esp_now_client.h:220-227 | `gotMasterResponse` set, the sender the master, `WiFiKanal` the channel given |
| EspNowClient.Client.Welcome | src/esp_now_client.h:234-241 | `Sparovano`, then the introduction |
| EspNowClient.Client.SetPaired | src/esp_now_client.h:236 | `StavZarizeni` is `Sparovano` |
| EspNowClient.Client.Introduce | src/esp_now_client.h:237-240 | definitions, time request, register values and `MSG_TRANSMIT_DONE`, as far as they got through |
| EspNowClient.Client.Greeting | src/esp_now_client.h:237-238 | the definitions, then a time synchronisation request |
| EspNowClient.Client.Farewell | src/esp_now_client.h:239-240 | the register values, then `MSG_TRANSMIT_DONE` |
| EspNowClient.Client.StartPairing | src/esp_now_client.h:437-456 | the bank becomes `PairingBank` of the old one, nothing else changes |
| EspNowClient.Client.Sleep | src/esp_now_client.h:458-470 | unpaired, nothing; paired, the values if a write asked for them, then `MSG_SLEEP` with the period |
| EspNowClient.Client.SleepValues | src/esp_now_client.h:462-465 | `sendParamValues` if asked for, its outcome ignored |
| EspNowClient.Client.Init | src/esp_now_client.h:349-359 | the radio started, on the low byte of `WiFiKanal`, the communication task active, the per-boot flags cleared |
| EspNowClient.Client.HandleData | src/esp_now_client.h:303-340 | each message type to its handler, with what each handler changes (a read request answered chunk by chunk as `Answer` says); `MSG_TRANSMIT_DONE` releases the communication task |
| EspNowClient.WriteOne | src/parameters.cpp:313-322 | one `WriteReg` as a step of a run of writes, as `WriteAt` says |
| EspNowClient.WriteNext | src/esp_now_client.h:209-212 | pass `i` of the write loop takes the run from the writes of `i` values to those of `i + 1` |
| EspNowClient.WriteUnits | src/esp_now_client.h:209-212 | the write loop leaves the registers as `Writes` of the values from `regadr` on |
| TimeCtrl.Adjusted | src/time_ctrl.h:50-51 | an adjusted time is its base time plus the delay in minutes |
| TimeCtrl.Rolled | src/time_ctrl.h:53-65 | once both set adjusted times have passed, the earlier one moves a day on (sunset when equal) and the other stays; otherwise neither moves |
| TimeCtrl.EdgeOf | src/time_ctrl.h:77-103 | the sunset edge exactly when its branch is due and the last event is more than an hour back or in the future; the sunrise edge exactly when the sunset branch is not due and the sunrise one is, under the same rate limit |
| TimeCtrl.Raises | src/time_ctrl.h:83-99 | an edge raises an event exactly when its automation register is on |
| TimeCtrl.Marked | src/time_ctrl.h:81-100 | an edge sets its flag and clears the other; `lastEvent` moves only when an event is raised |
| TimeCtrl.Edges | src/time_ctrl.h:77-103 | the edges of a run of ticks, none of them empty |
| TimeCtrl.EdgesAlternate | src/time_ctrl.h:77-103 | sunset and sunrise edges alternate over any run of ticks, and the first edge is not the one whose flag is already set |
| TimeCtrl.QuietHour | src/time_ctrl.h:79-92 | after a tick that raised an event, no tick in the following hour takes an edge |
| TimeCtrl.UsedKinds | src/time_ctrl.h:40-99 | the registers the task reads and sets have the classes it uses them with |
| TimeCtrl.SetBase | src/time_ctrl.h:57-62 | setting a base time stores its low 32 bits and touches nothing else the task reads |
| TimeCtrl.StoreRoll | src/time_ctrl.h:53-65 | the roll stored back leaves the events, the task flags and the marks alone |
| TimeCtrl.Show | src/time_ctrl.h:67-75 | publishing the times leaves the events, flags, marks and saved copies alone |
| TimeCtrl.RaiseF | src/feeder_ctrl.h:62-68 | `EventSourced` adds the event and marks the position task busy |
| TimeCtrl.FireF | src/time_ctrl.h:77-103 | an edge that raises adds close for sunset or open for sunrise and marks the position task busy; otherwise events and flags stay |
| TimeCtrl.TaskF | src/time_ctrl.h:37-106 | a tick keeps the registers fitting |
| TimeCtrl.TaskMarks | src/time_ctrl.h:77-103 | the marks a tick leaves are those of `MarkStep`, so `EdgesAlternate` covers every run of `Task` |
| TimeCtrl.TaskEffects | src/time_ctrl.h:42-105 | with neither time set a tick only releases the time task; otherwise it releases it too, and no other flag changes except the position task an event marks busy |
| TimeCtrl.TaskEvents | src/time_ctrl.h:77-103 | a tick adds at most one event: close exactly on a sunset edge with automatic closing on, open exactly on a sunrise edge with automatic opening on |
| TimeCtrl.TaskTimes | src/time_ctrl.h:50-75 | once both adjusted times have passed the earlier base time is set a day on and the other kept; each set base time is shown with its delay, after the roll |
| TimeCtrl.TimeCtrl.constructor | src/time_ctrl.h:24-26 | the RTC flags clear and no event yet |
| TimeCtrl.TimeCtrl.Init | src/time_ctrl.h:29-35 | the time task busy and the last opening and closing times shown from their retained copies |
| TimeCtrl.TimeCtrl.Task | src/time_ctrl.h:37-106 | the new state is `TaskF` of the old one |
| TimeCtrl.TimeCtrl.Roll | src/time_ctrl.h:53-65 | the plan is `Rolled`, and the roll is stored back |
| TimeCtrl.TimeCtrl.SetBaseReg | src/time_ctrl.h:57-62 | `SetBase` |
| TimeCtrl.TimeCtrl.Publish | src/time_ctrl.h:67-75 | `Show` |
| TimeCtrl.TimeCtrl.Fire | src/time_ctrl.h:77-103 | the edge `EdgeOf` picks, fired as `FireF` says |
| TimeCtrl.TimeCtrl.Take | src/time_ctrl.h:79-88 | a branch fires only under the rate limit, raising its event when its automation is on |
| MainLoop.Schedule | src/main.cpp:34 | `TIME_SCHEDULE(secs)` is `secs` seconds in 20 ms loop periods |
| MainLoop.Holds | src/main.cpp:267-341 | a short press holds the button task for 10 s, the pairing press for 60 s |
| MainLoop.ResetReasonOf | src/main.cpp:232-262 | corrected: each listed reset code gives its case's reason, 14 an external reset, any other code unknown |
| MainLoop.ExternalResetLost | src/main.cpp:257-261 | as written code 14 falls through to unknown where the corrected switch gives external; no other code differs, and external is never stored as written |
| MainLoop.CloseButton | src/main.cpp:297-315 | button 1 closes from open or unknown, does nothing when closed, and stops otherwise |
| MainLoop.OpenButton | src/main.cpp:317-336 | button 2 opens from closed or unknown, does nothing when open, and stops otherwise |
| MainLoop.EventOf | src/main.cpp:297-336 | a command raises at most one event |
| MainLoop.PressReactions | src/feeder_ctrl_table.h:14-31 | button 1 starts closing exactly from open and unknown, button 2 opening exactly from closed and unknown; otherwise a press stops a moving or failed feeder and does nothing in the test, pause and reversal states |
| MainLoop.RegistersFit | src/main.cpp:301-322 | the registers the loop reads hold numbers |
| MainLoop.CommandF | src/main.cpp:297-336 | a command adds its event, keeps the buttons, timer and feeder state |
| MainLoop.OnCloseF | src/main.cpp:297-315 | a pending press of button 1 is taken, starts the 10 s timer and raises button 1's command |
| MainLoop.OnOpenF | src/main.cpp:317-336 | a pending press of button 2 is taken, marks the button task, starts the 10 s timer and raises button 2's command |
| MainLoop.OnLongF | src/main.cpp:338-343 | a pending long press of button 2 is taken, marks the button task and starts the 60 s timer |
| MainLoop.TickF | src/main.cpp:345-348 | the timer steps and the button task is released when it runs out |
| MainLoop.LoopF | src/main.cpp:292-349 | one pass keeps the panel well formed |
| MainLoop.LoopEffects | src/main.cpp:292-349 | each short press raises its button's command for the state at the start of the pass; the button task ends busy exactly when button 2 was pressed or it was busy, unless the timer ran out |
| MainLoop.LoopPairing | src/main.cpp:338-343 | a long press of button 2 forgets the master and switches pairing mode; a pass without a press leaves the registers alone |
| MainLoop.MainLoop.constructor | src/main.cpp:42 | `btn_timer` zero |
| MainLoop.MainLoop.Setup | src/main.cpp:230-268 | the button task released, the reset reason stored, and after a wake-up by the button the task busy for 10 s |
| MainLoop.MainLoop.Loop | src/main.cpp:292-349 | the new state is `LoopF` of the old one |
| MainLoop.MainLoop.OnClose | src/main.cpp:297-315 | `OnCloseF` |
| MainLoop.MainLoop.OnOpen | src/main.cpp:317-336 | `OnOpenF` |
| MainLoop.MainLoop.OnLong | src/main.cpp:338-343 | `OnLongF` |
| MainLoop.MainLoop.Tick | src/main.cpp:345-348 | `TickF` |
| MainLoop.MainLoop.State | src/main.cpp:301 | `StavKrmitka.Get()` |
| MainLoop.MainLoop.Command | src/main.cpp:297-336 | `CommandF` |

## Left out

- The `SystemLog::PutLog` calls on the fault, feeder, weight and ESP-NOW paths are not modelled there: the log is modelled on its own (`SystemLog`), and these calls change no state the other modules read.
- `delay()` waits are left out, as are the task loops' periods (the 20 ms loop delay, the 500 ms pauses of the unable-to-move paths, the task periods of main.cpp). The model has no clock.
- The semaphore waits (1 s in `CommandProcessingTask`, 3 s in the ESP-NOW task) are reduced to whether the semaphore was taken: the `taken` parameter of `EspNowClient.Client.Task`.
- FreeRTOS tasks, queues, mutexes and their interleaving are not modelled. Each task body is one method call on the shared objects, run to completion.
- `HandleData` answers `MSG_FW_UPDATE_REQUEST` and `MSG_TIME_SYNC_RESPONSE` with no state change. The firmware update (OTA) and the `isUpdating` branch of `Task` are not part of this model.
- `SetTimezone` and the `HH:MM` parse of `time_reg::Set(String)` are not modelled. The local time-of-day text (`localtime_r`, `strftime`) is a parameter of `Parameters.ClockText`.
- SystemLog.RecordBytes: assumes the packed 92-byte `Log_t` (4-byte level, 8-byte little-endian `time_t`, 80 text bytes); the compiler's layout is not modelled.
- ExpFilter.ValidCoef: the filter is modelled for `0 < coef <= 65536`, the coefficients the firmware constructs; a zero coefficient (a division by zero in the source) is outside the model.
- Pin I/O, the ADC, the LED, the serial port, `Motor::Sleep` and the scale's `Wake`/`Sleep`/clock pulses are not modelled. The ADC samples, the LBO pin and the converter's data bits are parameters.
- EspNowClient.AnswerUntuned: the relation between a chunked read answer and the responses of all its units read at once is proved only for requests whose range misses `WiFiKanal` (address 203). For a range over it, a scan in one `CHECK_SEND` changes what later chunks read; `Answer` and `EspNowClient.Client.ReadParams` model that, but no lemma compares it with a single read.
- The radio driver is not modelled. The send-status queue is an oracle sequence (`EspNowCtrl` `statuses`, `EspNowLink.Link.st`), and so are the PAIRED replies heard during a scan (`EspNowLink.Link.heard`).
- The driver calls of `ESPNowCtrl` are not modelled: `Deinit`, `AddPeer`/`DeletePeer`, `SetPower`, the callback setters and the Wi-Fi mode.
- JSON documents, the NV store (Preferences) and LittleFS are modelled as maps and sequences of records. Parsing and file-system failures other than a missing file are not modelled.
- `InitAll` toggles the storage task flag around the NV reads. The model does not show this toggle, since the flag is cleared again before anything can read it.
- The time task flag is set and cleared within one tick of `TimeCtrl`. The model shows only the state after the tick.
- `Error::ClearAll` has an empty body in error.cpp and is not modelled. `Errors.ClearAllResult` is about `ClearAction`, the function the feeder calls.
- The other `Init` calls of `setup()` (pins, Serial, the radio, the scale, the file system) are not modelled. Only the reset-reason mapping, the parameter load and the log's file choice are.
- EspNowClient.Client.ScanForMaster: in the source, the receive callback runs concurrently with the scan. A PAIRED reply heard during the scan's 200 ms wait sets `WiFiKanal` and the master's MAC there, and the scan ends on that channel. The model reduces the callback to the `heard` flag of `EspNowLink.Link`, so the scan (and `EspNowLink.After`) always ends on channel 1. The reply's channel, MAC and the introduction take effect only when `HandleData` processes the response.
- Common.ScanMac: `%X`'s skipping of leading white space, its optional sign and its `0x` prefix are not modelled. Such text converts no field in the model.
- Common.StringToMac: each `%X` of the source stores a 4-byte `unsigned int` through a `uint8_t*`. On this little-endian target that zeroes the three bytes after the last converted field, and a full scan writes three bytes past the six-byte buffer. The model stores one byte per field and keeps the bytes after the last converted field.
- Common.Store: writes one byte per converted field. The source's 4-byte stores are not modelled, for the reason given for `Common.StringToMac`.

## Findings

| source | as written | input that shows it | evidently intended | confidence | as-written member | corrected member |
|---|---|---|---|---|---|---|
| src/parameters_types.h:826-870 | with one sample slot, the wrap sets the read index to 1, past the buffer | `maxSamples` = 1, first `Set` from head 0, tail 0 | the read index stays inside the buffer | not executed | `Chart.SingleSlotOverrun` (about `Chart.StepAsWritten`) | `Chart.Step`, `Chart.StepAgrees`, `Chart.ChartReg.Set` |
| src/error.cpp:58-84 | activation calls `FeederCtrl::Event(event)` even when the event is `no_event`, posting bit 8, which the feeder never drains | a position fault (`ERROR_CLOSE`) maturing on its fourth failed attempt | a fault whose event is `no_event` posts nothing | not executed | `Errors.NoEventPosted` (about `Errors.CheckAsWritten`) | `Errors.CheckW`, `Errors.Faults.Check`, `FeederCtrl.NoEventNeverSleeps` |
| src/motor.cpp:138-141 | compares the stored battery register, whose bit 15 holds the LBO flag, with 3200 mV, so a flagged low battery reads as not low | 3000 mV with LBO low, stored as 0x8000 + 3000 | compare the 15-bit voltage | not executed | `Motor.LowBatteryFlagHides` (about `Motor.IsLowBatteryAsWritten`) | `Motor.LowBattery`, `Motor.LowBatteryIgnoresFlag`, `Motor.Motor.IsLowBattery` |
| src/parameters.cpp:313-322 | dereferences the result of `GetPar`, which is null for an address no register holds | addresses 0 and 38 | write nothing to an address no register holds | not executed | `RegisterAccess.UnheldAddresses` (about `RegisterAccess.WriteRegAsWritten`) | `RegisterAccess.WriteReg`, used by `EspNowClient.WriteOne` and `EspNowData.WriteAt` |
| src/main.cpp:257-261 | `case 14` has no `break`, so an external reset falls through to `rst_Unknown` | reset code 14 | record `rst_External` | not executed | `MainLoop.ExternalResetLost` (about `MainLoop.ResetReasonAsWritten`) | `MainLoop.ResetReasonOf`, stored by `MainLoop.MainLoop.Setup` |
| src/esp_now_client.h:204-213 | loops to the frame's `nmr` without comparing it with the frame length, reading values past the received frame | frame `[0, 0, 2, 0, 5, 0]` (two values announced, one carried) writes `[5, 1]` or `[5, 2]` depending on the bytes after it | write only the values the frame carries | not executed | `EspNowData.WriteValuesAsWrittenReadsPastFrame` (about `EspNowData.WriteValuesAsWritten`) | `EspNowData.WriteValues`, `EspNowData.WriteValuesInFrame`, used by `EspNowClient.Client.HandleData` |
| src/log.cpp:69-82 | at start-up a file is taken as full at `>= NMR_RECORDS` records, while the writer switches files only above `NMR_RECORDS` | first file 26 records, second 25 and being written: restart chooses the first and the next record empties the second | resume in the file the writer was using (`> NMR_RECORDS`) | not executed | `SystemLog.InitAsWrittenLosesNewest` (about `SystemLog.InitChoiceAsWritten`) | `SystemLog.InitChoice`, `SystemLog.InitResumes`, used by `SystemLog.Log.Init` |
