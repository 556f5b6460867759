# wvkbd OSK D-Bus daemon — verified model

This project models the small daemon `wvkbd-dbus.c`, which exports the
on-screen-keyboard object `/sm/puri/OSK0` (interface and bus name
`sm.puri.OSK0`) and controls the wvkbd keyboard renderer through the
renderer's real-time signal. The model covers two parts of it:

- **The visibility state machine** (module `OskService`). `OSKData.visible`
  starts out false when the bus name is acquired. `SetVisible(b)` stores `b`.
  When that changes the flag, the daemon first looks up the renderer and
  signals it, then emits `PropertiesChanged` carrying the new `Visible`
  value. `SetVisible` always gets an empty success reply. Any other method
  gets the `UnknownMethod` error and nothing changes. Reading `Visible`
  returns the flag; any other property name gives no value. The side effects
  are kept as a trace of `SignalAttempt(outcome)` and `Notify(visible)`
  events in class `Osk`. A ghost history of the calls ties the class to the
  pure transition function `Step` and its fold `Run`. Lemmas about `Run`
  give the properties over whole call sequences:
  - the state is the last requested value;
  - the last notification (or `false` when there has been none) equals the
    state and the `Visible` property;
  - there are exactly as many notifications as flips of the requested value,
    and each notification differs from the one before;
  - the trace is a sequence of (signal attempt, notification) pairs.
- **The renderer lookup** (module `ProcScan`). `find_wvkbd_pid` walks the
  `/proc` listing in readdir order. It stops at the first entry that meets
  all of these conditions:
  - the entry is a directory;
  - its whole name is a decimal number;
  - the first line of `/proc/<number>/comm` can be read and begins with
    `wvkbd` (so `wvkbd-mobintl` also matches).

  The entry's pid is the number as `strtol` returns it, saturated at
  `LONG_MAX`, then cast to the 32-bit `pid_t`. The result is -1 when no
  entry matches or `/proc` cannot be opened. `send_signal_to_wvkbd` sends
  `SIGRTMIN` only when the pid found is positive; otherwise it records "not
  found". The same signal is used for showing and for hiding.

The file system is an input. A `Proc` value gives the listing (`None` when
`opendir` fails) and the content of each comm file that can be opened. The
comm files are keyed by the number the C code prints into the path
`/proc/%ld/comm`. `CommPathInjective` shows that this keying loses nothing.
`CommPathOfCanonicalName` shows that, for the names the kernel writes, the
path built from the parsed number is the entry's own comm file. Each method
call carries the snapshot the lookup would see, because the renderer is
looked up afresh on every change.

Files: `wrappers.dfy` (Option), `proc_scan.dfy` (ProcScan),
`osk_service.dfy` (OskService).

The daemon has no debounce timer and no arming, hardware-keyboard or
preference logic. It sends one signal (SIGRTMIN) for both directions. It
does not terminate duplicate renderer processes: the first match in readdir
order wins. A `SetVisible` call takes effect at once.

## Model

| member | source | states |
|---|---|---|
| `ProcScan.FindRendererPid` | wvkbd-dbus.c:17-48 | the loop returns the pid of the first accepted /proc entry, -1 when none is accepted or /proc cannot be opened (its invariant: no earlier entry was accepted) |
| `ProcScan.SendSignalToRenderer` | wvkbd-dbus.c:51-59 | SIGRTMIN is sent exactly when the freshly found pid is positive, to that pid; otherwise the outcome is "not found" |
| `ProcScan.SignalFor` | wvkbd-dbus.c:53-58 | a kill is recorded iff pid > 0, carrying that pid and SIGRTMIN |
| `ProcScan.DigitRunEnd` | wvkbd-dbus.c:28 | the offset where strtol leaves its end pointer: every character before it is a digit, and the character at it (if any) is not |
| `ProcScan.IsNumericName` | wvkbd-dbus.c:28-29 | a name passes the `*endptr == '\0'` test iff it is non-empty and strtol's end pointer reaches its end |
| `ProcScan.Strtol` | wvkbd-dbus.c:28 | the parsed value equals the decimal value of the name when that fits in a long, and is LONG_MAX when it does not |
| `ProcScan.ToPid` | wvkbd-dbus.c:35 | the (pid_t) cast lands in the 32-bit signed range and agrees with the long modulo 2^32 |
| `ProcScan.Fgets` | wvkbd-dbus.c:33 | fgets yields NULL exactly on an empty file; otherwise a non-empty prefix of the content with no newline before its last character, ending at the first newline, at the end of the file, or after size-1 characters |
| `ProcScan.LineOf` | wvkbd-dbus.c:33 | the stored line is the prefix of the content that ends after the first newline, at the end of the content, or when the room is used up, whichever comes first |
| `ProcScan.DecimalString` | wvkbd-dbus.c:30 | the "%ld" rendering of a number is a non-empty digit string |
| `ProcScan.CommPath` | wvkbd-dbus.c:30 | the snprintf path is "/proc/" + a digit string whose value is the parsed number + "/comm" |
| `ProcScan.StartsWith` | wvkbd-dbus.c:34 | the strncmp test holds iff the line is at least as long as the prefix and agrees with it character by character |
| `ProcScan.CommMatches` | wvkbd-dbus.c:31-34 | a comm file is accepted iff it can be opened and its content begins with "wvkbd" (the buffer limit and the newline never matter) |
| `ProcScan.IsRenderer` | wvkbd-dbus.c:26-34 | an entry is accepted iff it is a directory, its name is numeric, and the comm file of its parsed number exists and begins with "wvkbd" |
| `ProcScan.Scan` | wvkbd-dbus.c:25-44 | the scan yields -1 or the pid of some accepted entry |
| `ProcScan.FindPid` | wvkbd-dbus.c:22-47 | find_wvkbd_pid yields -1 when /proc cannot be opened, and otherwise -1 or the pid of an accepted entry |
| `ProcScan.RendererSignal` | wvkbd-dbus.c:51-58 | a kill is recorded only for a positive pid of an accepted entry; "not found" iff the scan's pid is not positive |
| `ProcScan.ScanFirstMatch` | wvkbd-dbus.c:25-38 | if entry k is accepted and no earlier entry is, the scan yields entry k's pid |
| `ProcScan.ScanNoMatch` | wvkbd-dbus.c:22-47 | if no entry is accepted the scan yields -1 |
| `ProcScan.FindPidFirstMatch` | wvkbd-dbus.c:24-47 | find_wvkbd_pid is "the pid of the least accepted index, else -1", including when opendir fails |
| `ProcScan.LeastMatch` | wvkbd-dbus.c:25-37 | any accepted entry has a least accepted entry at or before it |
| `ProcScan.ScanSkipsRejected` | wvkbd-dbus.c:26-43 | removing an entry the scan rejects from the listing does not change the result |
| `ProcScan.RejectedEntries` | wvkbd-dbus.c:26-29 | non-directories and the names ".", "..", "self", "thread-self" are never accepted |
| `ProcScan.DecimalRoundTrip` | wvkbd-dbus.c:30 | the value of the "%ld" rendering of n is n |
| `ProcScan.LeadingDigitPositive` | wvkbd-dbus.c:28 | a digit string with a nonzero first digit has a positive value |
| `ProcScan.CanonicalRoundTrip` | wvkbd-dbus.c:28-30 | printing the parsed value of a canonical pid name gives back the name |
| `ProcScan.CommPathOfCanonicalName` | wvkbd-dbus.c:28-31 | for a canonical name in range, the comm path built from the parsed number is /proc/<name>/comm |
| `ProcScan.CommPathInjective` | wvkbd-dbus.c:30-31 | different numbers give different comm paths |
| `ProcScan.EntryPidOfSmallName` | wvkbd-dbus.c:35 | a name whose value is below 2^31 keeps its value through the pid_t cast |
| `ProcScan.LinePrefix` | wvkbd-dbus.c:33-34 | the line fgets stores starts with a newline-free prefix that fits the buffer iff the whole content does |
| `OskService.Step` | wvkbd-dbus.c:71-106 | success iff the method is SetVisible, which then leaves the flag equal to its argument; side effects iff the flag changed, and then exactly a signal attempt followed by a notification of the new value; an unknown method changes nothing |
| `OskService.SetVisibleUnchanged` | wvkbd-dbus.c:75-100 | SetVisible with the current value keeps the state, has no side effect and still succeeds |
| `OskService.SetVisibleChanged` | wvkbd-dbus.c:75-97 | SetVisible with the other value stores it, then one signal attempt and one notification of the new value |
| `OskService.OtherMethodRefused` | wvkbd-dbus.c:101-105 | any other method name gets UnknownMethod with state and trace untouched |
| `OskService.SignalIndependentOfDirection` | wvkbd-dbus.c:52-58 | showing and hiding on the same /proc snapshot make the same signal attempt (SIGRTMIN is the only value of its type) |
| `OskService.Run` | wvkbd-dbus.c:61-107 | handling calls in order adds at most two events per call, and the flag can only differ from its start value after some SetVisible call |
| `OskService.SetVisibleTwice` | wvkbd-dbus.c:75-100 | two SetVisible calls with one value produce at most one signal and one notification, the second none |
| `OskService.FlipCountSnoc` | wvkbd-dbus.c:75 | counting changes from the end agrees with counting from the front |
| `OskService.RunVisibleIsLastRequest` | wvkbd-dbus.c:75-97 | after any calls the flag is the last SetVisible argument (or its start value), and the last published notification equals it |
| `OskService.RunNotifiesEachFlip` | wvkbd-dbus.c:75-97 | the number of notifications equals the number of flips of the requested values, and notifications alternate |
| `OskService.AlternatesSnoc` | wvkbd-dbus.c:75-76 | appending a value that differs from the last keeps a sequence alternating |
| `OskService.RunTraceIsPaired` | wvkbd-dbus.c:82-96 | every trace consists of (signal attempt, notification) pairs |
| `OskService.PairedCounts` | wvkbd-dbus.c:82-96 | a paired trace has as many signal attempts as notifications |
| `OskService.NotificationsOfPair` | wvkbd-dbus.c:82-96 | appending one pair appends exactly the notified value |
| `OskService.RunUnfold` | wvkbd-dbus.c:71-107 | handling one more call extends the run by one step of handle_method_call |
| `OskService.Osk.constructor` | wvkbd-dbus.c:134-136 | the object starts not visible, with no side effects and no calls |
| `OskService.Osk.HandleMethodCall` | wvkbd-dbus.c:61-107 | the new flag, reply and appended side effects are those of Step on the old flag; the history invariant is kept |
| `OskService.Osk.GetProperty` | wvkbd-dbus.c:109-123 | a value exactly for property "Visible", and then it is the current flag |
| `OskService.Osk.PublishedMatchesProperty` | wvkbd-dbus.c:109-122 | the Visible property equals the last notification (or false), equals the last request, notifications count the flips, and the trace is paired |

## Left out

- GLib main loop, `g_bus_own_name`/`g_bus_unown_name`, introspection XML parsing and object registration with its error path (wvkbd-dbus.c:131-196): library plumbing. The model starts from the registered object.
- GVariant packing and unpacking and `g_dbus_connection_emit_signal`: a notification is the event `Notify(v)`. Its object path, interface name and empty invalidated list are not recorded, and emission failures (ignored by the C code) are not modelled.
- Real file-system I/O (`opendir`, `readdir`, `fopen`, `fgets`, `fclose`) and `kill()`: they are replaced by the `Proc` snapshot and the trace event. The return value of `kill()` is ignored by the code and is not modelled.
- FindRendererPid: a name counts as numeric only when it is non-empty and all digits. `strtol` also accepts leading whitespace, a sign and the empty string; `/proc` never lists such names. Overflow saturation at `LONG_MAX` (64-bit `long`) is modelled.
- FindRendererPid: `d_type` is taken as given; file systems that report `DT_UNKNOWN` are the caller's listing to describe.
- `g_print`/`g_printerr` logging.
- Not in the code, so not modelled: the debounce timer, armed/disarmed state, hardware-keyboard and preference watches, input-method events, duplicate-renderer termination, separate show and hide signals, and the two-thread event delivery.
