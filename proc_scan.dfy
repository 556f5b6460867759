/**
 * The renderer lookup of the OSK daemon: the scan of /proc that looks for a
 * process whose command name begins with "wvkbd", and the delivery of the
 * control signal to the process found.
 *
 * The file system is an input: a snapshot gives what readdir on /proc would
 * list and what fopen/fgets would read from each file.
 */
module ProcScan {
  import opened Wrappers

  /** One entry that readdir returns for /proc: its name and whether d_type is DT_DIR. */
  datatype DirEntry = DirEntry(name: string, isDir: bool)

  /**
   * What the scan can observe of /proc: the directory listing in readdir
   * order (None when opendir fails) and, for every n whose file
   * CommPath(n) = /proc/<n>/comm can be opened, the content of that file
   * (CommPath is injective, so keying the files by n loses nothing).
   */
  datatype Proc = Proc(listing: Option<seq<DirEntry>>, comms: map<nat, string>)

  /** The only signal the daemon ever sends. */
  datatype OsSignal = SigRtMin

  /** Result of one attempt to signal the renderer. */
  datatype SignalOutcome = Killed(pid: int, signal: OsSignal) | NotFound

  /** The command-name prefix that identifies the renderer. */
  const RendererPrefix: string := "wvkbd"

  /** LONG_MAX on an LP64 system: where strtol saturates. */
  const LongMax: int := 0x7FFF_FFFF_FFFF_FFFF

  /** Size of the line buffer handed to fgets. */
  const LineBufferSize: nat := 256

  const TwoTo32: int := 0x1_0000_0000
  const TwoTo31: int := 0x8000_0000

  predicate IsDigit(c: char) {
    '0' <= c <= '9'
  }

  predicate AllDigits(s: string) {
    forall i | 0 <= i < |s| :: IsDigit(s[i])
  }

  /**
   * Where strtol(s, &end, 10) leaves end on a string without leading
   * whitespace or sign: after the run of digits it begins with.
   */
  function DigitRunEnd(s: string): (n: nat)
    ensures n <= |s|
    ensures forall i | 0 <= i < n :: IsDigit(s[i])
    ensures n < |s| ==> !IsDigit(s[n])
  {
    if s == [] || !IsDigit(s[0]) then 0 else 1 + DigitRunEnd(s[1..])
  }

  /**
   * A directory name that strtol(name, &end, 10) consumes completely, so
   * that *end is the terminating NUL. Only plain digit strings are admitted
   * (see README, "Left out").
   */
  function IsNumericName(name: string): (r: bool)
    ensures r <==> |name| > 0 && DigitRunEnd(name) == |name|
  {
    |name| > 0 && AllDigits(name)
  }

  /** A digit string without redundant leading zeros, as the kernel writes pids. */
  predicate IsCanonical(s: string) {
    IsNumericName(s) && (s[0] == '0' ==> |s| == 1)
  }

  function DigitValue(c: char): (d: nat)
    requires IsDigit(c)
    ensures d < 10
  {
    c as int - '0' as int
  }

  function DigitChar(d: nat): (c: char)
    requires d < 10
    ensures IsDigit(c) && DigitValue(c) == d
  {
    ('0' as int + d) as char
  }

  /** The value of a string of decimal digits. */
  function DecimalValue(s: string): nat
    requires AllDigits(s)
  {
    if s == [] then 0 else DecimalValue(s[..|s| - 1]) * 10 + DigitValue(s[|s| - 1])
  }

  /** The decimal rendering of n, as printf's "%ld" writes it. */
  function DecimalString(n: nat): (s: string)
    ensures IsNumericName(s)
  {
    if n < 10 then [DigitChar(n)] else DecimalString(n / 10) + [DigitChar(n % 10)]
  }

  /** strtol on a numeric name: the decimal value, saturated at LONG_MAX. */
  function Strtol(name: string): (l: nat)
    requires IsNumericName(name)
    ensures l <= LongMax
    ensures DecimalValue(name) <= LongMax ==> l == DecimalValue(name)
    ensures DecimalValue(name) > LongMax ==> l == LongMax
  {
    if DecimalValue(name) <= LongMax then DecimalValue(name) else LongMax
  }

  /** The (pid_t) cast of a long: the low 32 bits read as two's complement. */
  function ToPid(l: int): (p: int)
    ensures -TwoTo31 <= p < TwoTo31
    ensures (p - l) % TwoTo32 == 0
  {
    var m := l % TwoTo32;
    if m < TwoTo31 then m else m - TwoTo32
  }

  /** The path of an entry's command-name file, as snprintf builds it from the parsed number. */
  function CommPath(lpid: nat): (p: string)
    ensures |p| > 11 && p[..6] == "/proc/" && p[|p| - 5..] == "/comm"
    ensures AllDigits(p[6..|p| - 5]) && DecimalValue(p[6..|p| - 5]) == lpid
  {
    DecimalRoundTrip(lpid);
    var p := "/proc/" + DecimalString(lpid) + "/comm";
    assert p[6..|p| - 5] == DecimalString(lpid);
    p
  }

  /**
   * The characters fgets stores: at most room of them, stopping after the
   * first newline.
   */
  function LineOf(content: string, room: nat): (line: string)
    ensures |line| <= room && |line| <= |content|
    ensures line == content[..|line|]
    ensures forall i | 0 <= i < |line| - 1 :: line[i] != '\n'
    ensures |line| == room || |line| == |content| || (|line| > 0 && line[|line| - 1] == '\n')
  {
    if content == [] || room == 0 then []
    else if content[0] == '\n' then ['\n']
    else [content[0]] + LineOf(content[1..], room - 1)
  }

  /** fgets(line, size, fp) on a file holding content: NULL when nothing can be read. */
  function Fgets(content: string, size: nat): (r: Option<string>)
    requires size >= 2
    ensures r.None? <==> content == []
    ensures r.Some? ==> 0 < |r.value| < size && |r.value| <= |content| && r.value == content[..|r.value|]
    ensures r.Some? ==> forall i | 0 <= i < |r.value| - 1 :: r.value[i] != '\n'
    ensures r.Some? ==> |r.value| == size - 1 || |r.value| == |content| || r.value[|r.value| - 1] == '\n'
  {
    if content == [] then None else Some(LineOf(content, size - 1))
  }

  /** strncmp(line, prefix, |prefix|) == 0, for a prefix holding no NUL character. */
  function StartsWith(line: string, prefix: string): (r: bool)
    ensures r <==> |line| >= |prefix| && forall i | 0 <= i < |prefix| :: line[i] == prefix[i]
  {
    |line| >= |prefix| && line[..|prefix|] == prefix
  }

  /**
   * The file CommPath(lpid) can be opened, its first line read, and that
   * line begins with "wvkbd". This holds exactly when the whole content
   * begins with "wvkbd": the 255-character line limit and the stop at the
   * newline never matter, and a longer name such as "wvkbd-mobintl" matches
   * too.
   */
  function CommMatches(comms: map<nat, string>, lpid: nat): (r: bool)
    ensures r <==> lpid in comms && StartsWith(comms[lpid], RendererPrefix)
  {
    if lpid in comms then
      LinePrefix(comms[lpid], LineBufferSize - 1, RendererPrefix);
      var line := Fgets(comms[lpid], LineBufferSize);
      line.Some? && StartsWith(line.value, RendererPrefix)
    else
      false
  }

  /** An entry that the scan accepts as the renderer. */
  function IsRenderer(comms: map<nat, string>, e: DirEntry): (r: bool)
    ensures r <==> e.isDir && IsNumericName(e.name) && Strtol(e.name) in comms
                   && StartsWith(comms[Strtol(e.name)], RendererPrefix)
  {
    e.isDir && IsNumericName(e.name) && CommMatches(comms, Strtol(e.name))
  }

  /** The pid the scan records for an accepted entry. */
  function EntryPid(e: DirEntry): int
    requires IsNumericName(e.name)
  {
    ToPid(Strtol(e.name))
  }

  /** The pid of the first accepted entry of entries, or -1. */
  function Scan(comms: map<nat, string>, entries: seq<DirEntry>): (r: int)
    ensures r == -1 || exists k | 0 <= k < |entries| :: IsRenderer(comms, entries[k]) && r == EntryPid(entries[k])
  {
    if entries == [] then -1
    else if IsRenderer(comms, entries[0]) then EntryPid(entries[0])
    else
      var r := Scan(comms, entries[1..]);
      assert forall k | 0 <= k < |entries| - 1 :: entries[1..][k] == entries[k + 1];
      r
  }

  /** What find_wvkbd_pid returns for a snapshot of /proc. */
  function FindPid(proc: Proc): (r: int)
    ensures proc.listing.None? ==> r == -1
    ensures r == -1 || (proc.listing.Some? && exists k | 0 <= k < |proc.listing.value| ::
              IsRenderer(proc.comms, proc.listing.value[k]) && r == EntryPid(proc.listing.value[k]))
  {
    match proc.listing
    case None => -1
    case Some(entries) => Scan(proc.comms, entries)
  }

  /** What send_signal_to_wvkbd does once the scan has produced pid. */
  function SignalFor(pid: int): (o: SignalOutcome)
    ensures o.Killed? <==> pid > 0
    ensures o.Killed? ==> o.pid == pid && o.signal == SigRtMin
  {
    if pid > 0 then Killed(pid, SigRtMin) else NotFound
  }

  /** The signal attempt one call of send_signal_to_wvkbd makes on a snapshot. */
  function RendererSignal(proc: Proc): (o: SignalOutcome)
    ensures o.Killed? ==> o.pid > 0 && proc.listing.Some? && exists k | 0 <= k < |proc.listing.value| ::
              IsRenderer(proc.comms, proc.listing.value[k]) && o.pid == EntryPid(proc.listing.value[k])
    ensures o.NotFound? <==> FindPid(proc) <= 0
  {
    SignalFor(FindPid(proc))
  }

  /**
   * find_wvkbd_pid: walk the listing in order and stop at the first entry
   * that is a directory, has a numeric name and whose comm line begins with
   * "wvkbd"; -1 when there is no such entry or /proc cannot be opened.
   */
  method FindRendererPid(proc: Proc) returns (pid: int)
    ensures pid == FindPid(proc)
    ensures proc.listing.None? ==> pid == -1
  {
    pid := -1;
    if proc.listing.Some? {
      var entries := proc.listing.value;
      var i := 0;
      while i < |entries|
        invariant 0 <= i <= |entries|
        invariant pid == -1
        invariant forall j | 0 <= j < i :: !IsRenderer(proc.comms, entries[j])
      {
        var e := entries[i];
        if e.isDir && IsNumericName(e.name) {
          var lpid := Strtol(e.name);
          if lpid in proc.comms {
            var line := Fgets(proc.comms[lpid], LineBufferSize);
            if line.Some? && StartsWith(line.value, RendererPrefix) {
              pid := ToPid(lpid);
              ScanFirstMatch(proc.comms, entries, i);
              return;
            }
          }
        }
        i := i + 1;
      }
      ScanNoMatch(proc.comms, entries);
    }
  }

  /** send_signal_to_wvkbd: look the renderer up afresh and signal it only when the pid is positive. */
  method SendSignalToRenderer(proc: Proc) returns (outcome: SignalOutcome)
    ensures outcome == RendererSignal(proc)
    ensures outcome.Killed? <==> FindPid(proc) > 0
    ensures outcome.Killed? ==> outcome.pid == FindPid(proc) && outcome.signal == SigRtMin
  {
    var pid := FindRendererPid(proc);
    if pid > 0 {
      outcome := Killed(pid, SigRtMin);
    } else {
      outcome := NotFound;
    }
  }

  // ---------------------------------------------------------------- lemmas

  /** The scan yields the pid of the first accepted entry. */
  lemma {:induction false} ScanFirstMatch(comms: map<nat, string>, entries: seq<DirEntry>, k: nat)
    requires k < |entries| && IsRenderer(comms, entries[k])
    requires forall j | 0 <= j < k :: !IsRenderer(comms, entries[j])
    ensures Scan(comms, entries) == EntryPid(entries[k])
  {
    if k > 0 {
      ScanFirstMatch(comms, entries[1..], k - 1);
    }
  }

  /** With no accepted entry the scan yields -1. */
  lemma {:induction false} ScanNoMatch(comms: map<nat, string>, entries: seq<DirEntry>)
    requires forall j | 0 <= j < |entries| :: !IsRenderer(comms, entries[j])
    ensures Scan(comms, entries) == -1
  {
    if entries != [] {
      assert !IsRenderer(comms, entries[0]);
      assert forall j | 0 <= j < |entries| - 1 :: entries[1..][j] == entries[j + 1];
      ScanNoMatch(comms, entries[1..]);
    }
  }

  /** The scan's result is determined by the first accepted entry, or is -1 when there is none. */
  lemma FindPidFirstMatch(proc: Proc)
    ensures proc.listing.Some? && (exists k | 0 <= k < |proc.listing.value| :: IsRenderer(proc.comms, proc.listing.value[k]))
            ==> exists k | 0 <= k < |proc.listing.value| ::
                  IsRenderer(proc.comms, proc.listing.value[k])
                  && (forall j | 0 <= j < k :: !IsRenderer(proc.comms, proc.listing.value[j]))
                  && FindPid(proc) == EntryPid(proc.listing.value[k])
    ensures (proc.listing.None? || forall j | 0 <= j < |proc.listing.value| :: !IsRenderer(proc.comms, proc.listing.value[j]))
            ==> FindPid(proc) == -1
  {
    if proc.listing.Some? {
      var entries := proc.listing.value;
      if k0 :| 0 <= k0 < |entries| && IsRenderer(proc.comms, entries[k0]) {
        var k := LeastMatch(proc.comms, entries, k0);
        ScanFirstMatch(proc.comms, entries, k);
      } else {
        ScanNoMatch(proc.comms, entries);
      }
    }
  }

  /** Some accepted index implies a least one. */
  lemma {:induction false} LeastMatch(comms: map<nat, string>, entries: seq<DirEntry>, k0: nat) returns (k: nat)
    requires k0 < |entries| && IsRenderer(comms, entries[k0])
    ensures k <= k0 && IsRenderer(comms, entries[k])
    ensures forall j | 0 <= j < k :: !IsRenderer(comms, entries[j])
  {
    k := 0;
    while !IsRenderer(comms, entries[k])
      invariant k <= k0
      invariant forall j | 0 <= j < k :: !IsRenderer(comms, entries[j])
      decreases k0 - k
    {
      k := k + 1;
    }
  }

  /** An entry the scan rejects can be removed from the listing without changing the result. */
  lemma {:induction false} ScanSkipsRejected(comms: map<nat, string>, entries: seq<DirEntry>, i: nat)
    requires i < |entries| && !IsRenderer(comms, entries[i])
    ensures Scan(comms, entries[..i] + entries[i + 1..]) == Scan(comms, entries)
  {
    if i == 0 {
      assert entries[..0] + entries[1..] == entries[1..];
    } else {
      var rest := entries[1..];
      assert entries[..i] + entries[i + 1..] == [entries[0]] + (rest[..i - 1] + rest[i..]);
      ScanSkipsRejected(comms, rest, i - 1);
    }
  }

  /** Entries that are not directories, or whose names are not numeric, are never accepted. */
  lemma RejectedEntries(comms: map<nat, string>, e: DirEntry)
    ensures !e.isDir ==> !IsRenderer(comms, e)
    ensures e.name in {".", "..", "self", "thread-self"} ==> !IsRenderer(comms, e)
  {
  }

  /** Reading the value of a decimal rendering gives back the number. */
  lemma {:induction false} DecimalRoundTrip(n: nat)
    ensures DecimalValue(DecimalString(n)) == n
  {
    if n >= 10 {
      var s := DecimalString(n);
      assert s[..|s| - 1] == DecimalString(n / 10);
      DecimalRoundTrip(n / 10);
    }
  }

  /** A canonical digit string with a nonzero first digit has a nonzero value. */
  lemma {:induction false} LeadingDigitPositive(s: string)
    requires IsNumericName(s) && s[0] != '0'
    ensures DecimalValue(s) >= 1
  {
    if |s| > 1 {
      LeadingDigitPositive(s[..|s| - 1]);
    } else {
      assert DigitValue(s[0]) >= 1;
    }
  }

  /** Rendering the value of a canonical digit string gives back the string. */
  lemma {:induction false} CanonicalRoundTrip(s: string)
    requires IsCanonical(s)
    ensures DecimalString(DecimalValue(s)) == s
  {
    var n := |s|;
    if n > 1 {
      var init := s[..n - 1];
      assert init[0] == s[0];
      LeadingDigitPositive(init);
      CanonicalRoundTrip(init);
      var v := DecimalValue(s);
      assert v / 10 == DecimalValue(init) && v % 10 == DigitValue(s[n - 1]);
      assert DigitChar(DigitValue(s[n - 1])) == s[n - 1];
      assert s == init + [s[n - 1]];
    } else {
      assert DigitChar(DigitValue(s[0])) == s[0];
    }
  }

  /**
   * For a canonical name within range, the comm path formed from the parsed
   * number is the entry's own: /proc/<name>/comm.
   */
  lemma CommPathOfCanonicalName(name: string)
    requires IsCanonical(name) && DecimalValue(name) <= LongMax
    ensures CommPath(Strtol(name)) == "/proc/" + name + "/comm"
  {
    CanonicalRoundTrip(name);
  }

  /** Different numbers give different comm paths, so the comm files can be keyed by number. */
  lemma CommPathInjective(a: nat, b: nat)
    requires CommPath(a) == CommPath(b)
    ensures a == b
  {
    var pa, pb := CommPath(a), CommPath(b);
    assert DecimalString(a) == pa[6..|pa| - 5];
    assert DecimalString(b) == pb[6..|pb| - 5];
    DecimalRoundTrip(a);
    DecimalRoundTrip(b);
  }

  /** A pid written by the kernel (below 2^31) survives the cast to pid_t. */
  lemma EntryPidOfSmallName(e: DirEntry)
    requires IsNumericName(e.name) && DecimalValue(e.name) < TwoTo31
    ensures EntryPid(e) == DecimalValue(e.name)
  {
  }

  /** The line fgets stores starts with a newline-free prefix exactly when the file content does. */
  lemma {:induction false} LinePrefix(content: string, room: nat, prefix: string)
    requires |prefix| <= room
    requires forall i | 0 <= i < |prefix| :: prefix[i] != '\n'
    ensures StartsWith(LineOf(content, room), prefix) <==> StartsWith(content, prefix)
  {
    if prefix != [] && content != [] && content[0] != '\n' {
      var tail := LineOf(content[1..], room - 1);
      assert LineOf(content, room) == [content[0]] + tail;
      LinePrefix(content[1..], room - 1, prefix[1..]);
      assert StartsWith(tail, prefix[1..]) <==> StartsWith(content[1..], prefix[1..]);
      if StartsWith(content, prefix) {
        assert content[1..][..|prefix| - 1] == prefix[1..];
      }
      if StartsWith([content[0]] + tail, prefix) {
        assert tail[..|prefix| - 1] == prefix[1..];
      }
      if StartsWith(content[1..], prefix[1..]) && content[0] == prefix[0] {
        assert content[..|prefix|] == [content[0]] + content[1..][..|prefix| - 1];
      }
      if StartsWith(tail, prefix[1..]) && content[0] == prefix[0] {
        assert ([content[0]] + tail)[..|prefix|] == [content[0]] + tail[..|prefix| - 1];
      }
    } else if prefix != [] && content != [] {
      assert LineOf(content, room) == ['\n'];
    }
  }
}
