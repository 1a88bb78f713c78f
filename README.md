# chastikey-alexa status narration, modelled in Dafny

chastikey-alexa is an Alexa skill written in Go. It asks the ChastiKey API for a
lockee's locks and reads back a spoken summary. This project models the part of
`chastikey.go` that turns the API's answer into that sentence:

- `format_time` and `time_to_days` say a count of seconds as "D days H hours M minutes
  S seconds". Only the units that are not zero are named, and "s" is added unless the
  count is one.
- `talk_to_chastikey` passes a transport error through unchanged. It reports a body
  that will not decode with the prefix "Could not understand API results: ". Otherwise
  it sorts the decoded locks by LockID, in place.
- `do_status` passes an error through unchanged. Otherwise it says "You have N
  lock(s).  " and then, for each lock:
  - its number, and its name if it has one;
  - who holds it;
  - how long it has been running;
  - how long ago the last card was picked, rounded toward zero to whole minutes;
  - whether it is frozen.
- `parse_command` sends "status" to `do_status` and answers anything else with
  "I don't know how to " and the command.

The project has four modules, one per file:

- `GoStrings` (gostrings.dfy) covers the library pieces the text is built with:
  - `strconv.Itoa`;
  - `strings.TrimSpace`, using `unicode.IsSpace`'s White_Space set;
  - Go's integer `/`, which truncates toward zero (Dafny's `/` is Euclidean).
- `Duration` (duration.dfy) has `format_time` as a function and `time_to_days` as a
  method with the same three peel-off blocks. The method is proved to return
  `DurationText`, a specification built on the unique normal split of a second count
  into days, hours, minutes and seconds.
- `Locks` (locks.dfy) has the `Lock` record and the API response as input data. The
  `sort.Slice` call is an in-place sort of an `array<Lock>`.
- `Status` (status.dfy) has the `do_status` loop and `parse_command` as methods. Both
  are proved against `Roster`, a specification function of the locks and the current
  time.

## Model

| member | source | states |
|---|---|---|
| GoStrings.NatToStringDigits | chastikey.go:170 | The decimal text of a count is all digits, and it starts with '0' only for zero. |
| GoStrings.NatToStringRoundTrip | chastikey.go:170 | Reading the decimal text back as digits gives the number that was written. |
| GoStrings.IntToStringShape | chastikey.go:60 | `strconv.Itoa` text starts with '-' exactly for a negative number and holds no white space. |
| GoStrings.GoDiv | chastikey.go:70-82 | Go's truncating `/`: for a non-negative dividend the quotient times the divisor is the largest multiple not above it. For a negative dividend it is the smallest multiple not below it. |
| GoStrings.TrimLeft | chastikey.go:92 | Returns a suffix of the input. Only white space is dropped, and the result does not start with white space. |
| GoStrings.TrimRight | chastikey.go:92 | Returns a prefix of the input. Only white space is dropped, and the result does not end with white space. |
| GoStrings.TrimSpace | chastikey.go:92 | The result is empty or has no white space at either end. It is empty exactly when the input is all white space. |
| GoStrings.TrimSpaceAfterWord | chastikey.go:92 | Trimming a word followed by one space gives back the word. |
| GoStrings.TrimSpaced | chastikey.go:72-92 | Trimming words each followed by a space gives the words joined by single spaces. |
| Duration.SpokenPlural | chastikey.go:59-65 | A spoken quantity is the decimal count, a space, then the unit. The unit is followed by "s" exactly when the count is not one. |
| Duration.FormatTime | chastikey.go:59-65 | `format_time` is the spoken quantity followed by exactly one space. |
| Duration.Split | chastikey.go:70-86 | The breakdown of a non-negative count is normal (hours < 24, minutes < 60, seconds < 60). Its total `d*86400+h*3600+m*60+s` equals the count. |
| Duration.SplitUnique | chastikey.go:70-86 | A normal breakdown is the only one with its total. |
| Duration.PeelUnit | chastikey.go:70-86 | One block of `time_to_days`. For a positive value it takes the whole number of units and leaves a remainder below the unit size. A value that is not positive is left alone. It speaks the units exactly when there is at least one. |
| Duration.TimeToDays | chastikey.go:67-93 | `time_to_days` returns `DurationText(v)`: the non-zero units of the normal breakdown, always in the order days, hours, minutes, seconds, joined by single spaces. |
| Duration.TrimmedWords | chastikey.go:88-92 | Trimming the spaced phrases of the breakdown gives the duration text, which is empty exactly for a count that is not positive. |
| Duration.DurationTextShape | chastikey.go:67-93 | The duration text is empty exactly when the count is not positive. Otherwise it neither starts nor ends with white space. |
| Duration.MinuteFloor | chastikey.go:184 | Rounding a non-negative count down to whole minutes with Go's `/` keeps its days, hours and minutes and zeroes its seconds. |
| Duration.MinuteFloorSilent | chastikey.go:184 | A count under one minute, or a negative one, rounds down to nothing to say. |
| Duration.DurationExampleAllUnits | chastikey.go:67-93 | 90061 seconds is "1 day 1 hour 1 minute 1 second". |
| Duration.DurationExampleMinutes | chastikey.go:67-93 | 0 seconds is "" and 120 seconds is "2 minutes". |
| Duration.DurationExampleHour | chastikey.go:67-93 | 3600 seconds is "1 hour". |
| Locks.SortById | chastikey.go:155-157 | After the sort the array is non-decreasing by LockID and holds the same locks, as a multiset. |
| Locks.SinkInto | chastikey.go:155-157 | One insertion step leaves the first i + 1 slots in LockID order and holding the same locks as before, as a multiset. Every later slot is left untouched. |
| Locks.SinkStep | chastikey.go:155-157 | The new array is the old one with slots j - 1 and j exchanged, where the lock at j had the smaller LockID. It keeps the order facts the insertion step needs and the multiset of the first i + 1 slots, and leaves every later slot untouched. |
| Locks.TalkToChastikey | chastikey.go:136-160 | A transport error comes back verbatim with no locks. An undecodable body comes back as "Could not understand API results: " plus the reason, with no locks. Otherwise the error is empty and the locks are a LockID-sorted permutation of the decoded ones. The error is empty exactly in that last case. |
| Locks.SortedPermutationsAgree | chastikey.go:152-157 | Two LockID-sorted arrangements of the same locks are identical when no two different locks share a LockID. So sorting again changes nothing, and the result does not depend on the order the API returned. |
| Status.CountSentenceSaysCount | chastikey.go:169-174 | The opening sentence is "You have ", the count in decimal, then " lock.  " exactly when the count is one and " locks.  " exactly when it is not. |
| Status.EmptyRoster | chastikey.go:169-174 | With no locks the reply is "You have 0 locks.  ". |
| Status.SayLock | chastikey.go:178-187 | Appending the clauses of one lock in turn yields that lock's sentences (`LockText`). |
| Status.NarrateLock | chastikey.go:175-187 | One iteration of the loop yields the sentences of the lock at its 1-based position at time `now` (`LockLine`). The running time and the rounded last-pick time come from `time_to_days`. |
| Status.NameClauseIff | chastikey.go:178-182 | Right after the lock number comes ',' exactly when the lock has a name. A named lock is introduced as ", named X,". |
| Status.FrozenIff | chastikey.go:185-187 | A lock's sentences end with "This lock is frozen.  " exactly when `LockFrozen` is not zero. |
| Status.LastPickWholeMinutes | chastikey.go:177-184 | The last pick is spoken as nothing under one minute. Otherwise it names the days, hours and minutes since the pick, with the seconds dropped. |
| Status.DoStatus | chastikey.go:163-191 | On an API or decoding error the reply is exactly that error string. Otherwise it is the count sentence followed by each lock's sentences, in a LockID-sorted order of the decoded locks. |
| Status.SameLocksSameReply | chastikey.go:155-157 | Two successful calls that returned the same locks in any order get the same reply, provided no two different locks share a LockID. |
| Status.ParseCommand | chastikey.go:195-201 | "status" is answered as `do_status` answers. Any other command gets "I don't know how to " followed by the command. |

## Left out

- The HTTP exchange (`do_talk_to_chastikey`), its `DEBUG` shortcut, `json.Unmarshal` and the request set-up are not modelled. They are foreign I/O. Their outcome is the input `ApiResponse`: a transport error string plus either the decoded locks or the decoder's error text.
- `time.Now().Unix()` is the parameter `now`. The source reads the clock twice per lock, so its two readings may differ by a second. The model uses one reading for the whole reply.
- Status.Elapsed: the int64 subtraction `now - StartTime`, and the `int` conversions of it, are unbounded integers here. Wrap-around on overflow is not modelled.
- Locks.SortById: `sort.Slice`'s own algorithm (pattern-defeating quicksort) is replaced by an insertion sort. Only what the call promises is stated: sorted by LockID and a permutation. `sort.Slice` is not stable, so the order of locks that share a LockID is left open.
- Locks.SortedPermutationsAgree: "sorting again changes nothing" is proved only when no two different locks share a LockID. With shared IDs the unstable sort may legitimately reorder.
- Status.SameLocksSameReply: stated under the same unique-LockID condition, for the same reason.
- Status.DoStatus: each lock's sentences are built in their own string and then appended. The source appends each clause to the reply directly. The text is the same.
- Status.ParseCommand: a method rather than a function, because `do_status` calls the API. Its unused `args` parameter is kept.
- Strings are sequences of Unicode characters rather than Go's UTF-8 bytes. `strings.TrimSpace`'s decoding of invalid UTF-8 is not modelled.
- The Alexa request handler, the configuration file, `UserHomeDir`, `main` and all logging are not modelled. They are glue around the narration.
