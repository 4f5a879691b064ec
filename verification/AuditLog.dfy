/**
 The hash-chained audit log, its recovery after a restart, and the clock that stamps its entries.

 Each entry carries the hash of its predecessor. The logger keeps the last hash in memory and, when
 it starts, takes it from the last line of the latest daily file. The clock is the largest reading
 recorded so far, kept in a file of its own.
 */
module AuditLog {
  import opened Collections
  import opened Watermark

  /** What an entry says, without the hashes. The timestamp is the instant its text denotes. */
  datatype Fields = Fields(timestamp: int, remoteAddr: string, forwardedFor: string, action: string, reason: string)

  datatype Entry = Entry(fields: Fields, previousHash: string, currentHash: string)

  /** SHA-256 over the JSON of an entry without its own hash, followed by the previous hash. */
  type Digester = (Fields, string) -> string

  const GENESIS := "0000000000000000000000000000000000000000000000000000000000000000"

  // ---------- Chains ----------

  function LastHash(log: seq<Entry>): string {
    if log == [] then GENESIS else log[|log| - 1].currentHash
  }

  /** The log verifies: every entry hashes correctly over its predecessor, from genesis on. */
  predicate Verifies(h: Digester, log: seq<Entry>) {
    log == [] ||
    var front, last := log[..|log| - 1], log[|log| - 1];
    last.previousHash == LastHash(front) && last.currentHash == h(last.fields, last.previousHash) && Verifies(h, front)
  }

  function Inputs(log: seq<Entry>): set<(Fields, string)> {
    set i | 0 <= i < |log| :: Input(log[i])
  }

  /** On these inputs the hash neither collides nor yields genesis. */
  ghost predicate Sound(h: Digester, inputs: set<(Fields, string)>) {
    && (forall a, b | a in inputs && b in inputs && h(a.0, a.1) == h(b.0, b.1) :: a == b)
    && (forall a | a in inputs :: h(a.0, a.1) != GENESIS)
  }

  function Input(e: Entry): (Fields, string) {
    (e.fields, e.previousHash)
  }

  lemma {:induction false} VerifiesAppend(h: Digester, log: seq<Entry>, e: Entry)
    ensures Verifies(h, log + [e]) <==>
      Verifies(h, log) && e.previousHash == LastHash(log) && e.currentHash == h(e.fields, e.previousHash)
    ensures LastHash(log + [e]) == e.currentHash
  {
    assert (log + [e])[..|log|] == log;
  }

  lemma InputsAppend(log: seq<Entry>, e: Entry)
    ensures Inputs(log + [e]) == Inputs(log) + {Input(e)}
  {
    var all := log + [e];
    assert all[|log|] == e && forall i | 0 <= i < |log| :: all[i] == log[i];
  }

  /**
   Two logs that verify and end in the same hash are the same log. So no entry before the last can be
   edited, dropped, inserted or moved without the last hash changing.
   */
  lemma {:induction false} LastHashFixesTheLog(h: Digester, a: seq<Entry>, b: seq<Entry>)
    requires Verifies(h, a) && Verifies(h, b) && LastHash(a) == LastHash(b)
    requires Sound(h, Inputs(a) + Inputs(b))
    ensures a == b
    decreases |a|
  {
    if a != [] {
      LastInput(a);
    }
    if b != [] {
      LastInput(b);
    }
    if a != [] && b != [] {
      var fa, fb := a[..|a| - 1], b[..|b| - 1];
      assert a == fa + [a[|a| - 1]] && b == fb + [b[|b| - 1]];
      InputsAppend(fa, a[|a| - 1]);
      InputsAppend(fb, b[|b| - 1]);
      LastHashFixesTheLog(h, fa, fb);
    }
  }

  lemma LastInput(log: seq<Entry>)
    requires log != []
    ensures Input(log[|log| - 1]) in Inputs(log)
  {
  }

  // ---------- The logger ----------

  /** A line of a daily file: the entry and the length of its text. */
  datatype Line = Line(entry: Entry, length: nat)

  /** The line scanner gives up at a line of this length. */
  const MAX_LINE: nat := 65536

  /**
   files are the daily files, oldest first; lastHash is the logger's memory; watermark is the recorded
   clock. chained and inputs are history: the entries the logger has chained up to lastHash, written
   or not, and everything it ever hashed.
   */
  datatype State = State(files: seq<seq<Line>>, lastHash: string, watermark: Option<int>,
                         chained: seq<Entry>, inputs: set<(Fields, string)>)

  datatype Event =
    | Log(now: int, io: ClockIO, remoteAddr: string, forwardedFor: string, action: string, reason: string,
          newDay: bool, length: nat, writeOk: bool)
    | Restart

  const Fresh := State([], GENESIS, None, [], {})

  /** All entries, in the order of files and lines. */
  function Entries(files: seq<seq<Line>>): seq<Entry> {
    if files == [] then [] else Entries(files[..|files| - 1]) + LineEntries(files[|files| - 1])
  }

  function LineEntries(lines: seq<Line>): seq<Entry> {
    if lines == [] then [] else LineEntries(lines[..|lines| - 1]) + [lines[|lines| - 1].entry]
  }

  /** The lines before the first one too long to scan. */
  function Readable(lines: seq<Line>): seq<Line> {
    if lines == [] || lines[0].length >= MAX_LINE then [] else [lines[0]] + Readable(lines[1..])
  }

  /** The hash a starting logger takes over. */
  function Recovered(files: seq<seq<Line>>): string {
    if files == [] then GENESIS else LastHash(LineEntries(Readable(files[|files| - 1])))
  }

  function Append(files: seq<seq<Line>>, line: Line, newDay: bool): seq<seq<Line>> {
    if files == [] || newDay then files + [[line]]
    else files[..|files| - 1] + [files[|files| - 1] + [line]]
  }

  /** The entry LogConnection builds. */
  function NewEntry(h: Digester, s: State, e: Event): Entry
    requires e.Log?
  {
    var fields := Fields(Clock(s.watermark, e.now, e.io), e.remoteAddr, e.forwardedFor, e.action, e.reason);
    Entry(fields, s.lastHash, h(fields, s.lastHash))
  }

  /** The whole logs recovered by a restart, as far as the scanner reads. */
  function RecoveredEntries(files: seq<seq<Line>>): seq<Entry> {
    if files == [] || Readable(files[|files| - 1]) == [] then []
    else Entries(files[..|files| - 1]) + LineEntries(Readable(files[|files| - 1]))
  }

  function Step(h: Digester, s: State, e: Event): State {
    match e
    case Log(now, io, _, _, _, _, newDay, length, writeOk) =>
      var entry := NewEntry(h, s, e);
      // The memory moves on even when the write fails.
      State(if writeOk then Append(s.files, Line(entry, length), newDay) else s.files,
            entry.currentHash,
            Recorded(s.watermark, now, io),
            s.chained + [entry],
            s.inputs + {Input(entry)})
    case Restart =>
      s.(lastHash := Recovered(s.files), chained := RecoveredEntries(s.files))
  }

  function Run(h: Digester, s: State, trace: seq<Event>): State
    decreases |trace|
  {
    if trace == [] then s else Run(h, Step(h, s, trace[0]), trace[1..])
  }

  // ---------- Files and entries ----------

  lemma LineEntriesAppend(lines: seq<Line>, line: Line)
    ensures LineEntries(lines + [line]) == LineEntries(lines) + [line.entry]
  {
    assert (lines + [line])[..|lines|] == lines;
  }

  lemma EntriesAppend(files: seq<seq<Line>>, line: Line, newDay: bool)
    ensures Entries(Append(files, line, newDay)) == Entries(files) + [line.entry]
  {
    var after := Append(files, line, newDay);
    var last := after[|after| - 1];
    if files == [] || newDay {
      assert after[..|after| - 1] == files;
      LineEntriesAppend([], line);
      assert [] + [line] == [line];
    } else {
      assert after[..|after| - 1] == files[..|files| - 1];
      LineEntriesAppend(files[|files| - 1], line);
    }
  }

  predicate Short(lines: seq<Line>) {
    forall i | 0 <= i < |lines| :: lines[i].length < MAX_LINE
  }

  lemma {:induction false} ShortIsReadable(lines: seq<Line>)
    requires Short(lines)
    ensures Readable(lines) == lines
  {
    if lines != [] {
      ShortIsReadable(lines[1..]);
    }
  }

  predicate NoEmptyFile(files: seq<seq<Line>>) {
    forall i | 0 <= i < |files| :: files[i] != []
  }

  /** The latest file holds a line the scanner cannot pass. */
  predicate Blocked(files: seq<seq<Line>>) {
    files != [] && !Short(files[|files| - 1])
  }

  lemma LineEntriesLength(lines: seq<Line>)
    ensures |LineEntries(lines)| == |lines|
  {
  }

  lemma {:induction false} BlockedIsCut(lines: seq<Line>)
    requires !Short(lines)
    ensures |Readable(lines)| < |lines|
  {
    if lines[0].length < MAX_LINE {
      BlockedIsCut(lines[1..]);
    }
  }

  lemma {:induction false} ReadableIsPrefix(lines: seq<Line>)
    ensures Readable(lines) <= lines
  {
    if lines != [] && lines[0].length < MAX_LINE {
      ReadableIsPrefix(lines[1..]);
    }
  }

  lemma {:induction false} LineEntriesPrefix(some: seq<Line>, lines: seq<Line>)
    requires some <= lines
    ensures LineEntries(some) <= LineEntries(lines)
    decreases |lines|
  {
    if some != lines {
      LineEntriesPrefix(some, lines[..|lines| - 1]);
    }
  }

  /** A starting logger takes over the end of the log exactly when no line blocks its scan. */
  lemma {:induction false} RestartTakesOver(files: seq<seq<Line>>)
    requires NoEmptyFile(files)
    ensures RecoveredEntries(files) <= Entries(files)
    ensures Recovered(files) == LastHash(RecoveredEntries(files))
    ensures RecoveredEntries(files) == Entries(files) <==> !Blocked(files)
  {
    if files != [] {
      var last := files[|files| - 1];
      LineEntriesLength(last);
      LineEntriesLength(Readable(last));
      if Short(last) {
        ShortIsReadable(last);
      } else {
        BlockedIsCut(last);
        ReadableIsPrefix(last);
        LineEntriesPrefix(Readable(last), last);
      }
    }
  }

  lemma {:induction false} VerifiesPrefix(h: Digester, some: seq<Entry>, log: seq<Entry>)
    requires Verifies(h, log) && some <= log
    ensures Verifies(h, some)
    decreases |log|
  {
    if some != log {
      VerifiesPrefix(h, some, log[..|log| - 1]);
    }
  }

  // ---------- Runs ----------

  /** Both the files and the logger's memory hold chains that verify; they agree unless behind is set. */
  ghost predicate Intact(h: Digester, s: State, behind: bool) {
    && NoEmptyFile(s.files)
    && Verifies(h, Entries(s.files)) && Verifies(h, s.chained)
    && s.lastHash == LastHash(s.chained)
    && Inputs(s.chained) <= s.inputs && Inputs(Entries(s.files)) <= s.inputs
    && (behind <==> s.chained != Entries(s.files))
  }

  /** The memory is at or ahead of the files. */
  predicate Ahead(s: State) {
    Entries(s.files) <= s.chained
  }

  /** Since the last restart a write has failed, or that restart could not scan the latest file to its end. */
  predicate BehindAfter(e: Event, behind: bool, blocked: bool) {
    if e.Restart? then blocked else behind || !e.writeOk
  }

  /** The latest file holds a line too long to scan. */
  predicate BlockedAfter(e: Event, blocked: bool) {
    if e.Log? && e.writeOk then e.length >= MAX_LINE || (blocked && !e.newDay) else blocked
  }

  /** Some write succeeds after the memory and the files have drifted apart. */
  predicate Forks(trace: seq<Event>, behind: bool, blocked: bool) {
    trace != [] &&
    var e := trace[0];
    (behind && e.Log? && e.writeOk) || Forks(trace[1..], BehindAfter(e, behind, blocked), BlockedAfter(e, blocked))
  }

  lemma StepAppends(h: Digester, s: State, e: Event)
    requires e.Log?
    ensures Entries(Step(h, s, e).files) == if e.writeOk then Entries(s.files) + [NewEntry(h, s, e)] else Entries(s.files)
  {
    EntriesAppend(s.files, Line(NewEntry(h, s, e), e.length), e.newDay);
  }

  lemma LogKeepsMemory(h: Digester, s: State, e: Event, behind: bool)
    requires Intact(h, s, behind) && e.Log?
    ensures
      var s', entry := Step(h, s, e), NewEntry(h, s, e);
      && s'.chained == s.chained + [entry] && Verifies(h, s'.chained) && s'.lastHash == LastHash(s'.chained)
      && Inputs(s'.chained) <= s'.inputs && Inputs(Entries(s'.files)) <= s'.inputs
  {
    VerifiesAppend(h, s.chained, NewEntry(h, s, e));
    InputsAppend(s.chained, NewEntry(h, s, e));
    InputsAppend(Entries(s.files), NewEntry(h, s, e));
    StepAppends(h, s, e);
  }

  lemma AppendKeepsFiles(files: seq<seq<Line>>, line: Line, newDay: bool)
    requires NoEmptyFile(files)
    ensures NoEmptyFile(Append(files, line, newDay))
  {
  }

  lemma WriteInStep(h: Digester, s: State, e: Event)
    requires Intact(h, s, false) && e.Log? && e.writeOk
    ensures Intact(h, Step(h, s, e), false)
    ensures Ahead(Step(h, s, e))
  {
    var entry := NewEntry(h, s, e);
    LogKeepsMemory(h, s, e, false);
    StepAppends(h, s, e);
    AppendKeepsFiles(s.files, Line(entry, e.length), e.newDay);
    assert Step(h, s, e).chained == Entries(Step(h, s, e).files);
  }

  lemma WriteBehind(h: Digester, s: State, e: Event)
    requires Intact(h, s, true) && e.Log? && e.writeOk && Sound(h, s.inputs)
    ensures !Verifies(h, Entries(Step(h, s, e).files))
  {
    StepAppends(h, s, e);
    if LastHash(s.chained) == LastHash(Entries(s.files)) {
      LastHashFixesTheLog(h, s.chained, Entries(s.files));
    }
    VerifiesAppend(h, Entries(s.files), NewEntry(h, s, e));
  }

  /** No call hashes what was hashed before. */
  predicate NoRepeat(h: Digester, s: State, trace: seq<Event>)
    decreases |trace|
  {
    trace != [] ==>
      && (trace[0].Log? ==> Input(NewEntry(h, s, trace[0])) !in s.inputs)
      && NoRepeat(h, Step(h, s, trace[0]), trace[1..])
  }

  predicate Scannable(trace: seq<Event>) {
    forall i | 0 <= i < |trace| && trace[i].Log? :: trace[i].length < MAX_LINE
  }

  lemma WriteFails(h: Digester, s: State, e: Event, behind: bool)
    requires Intact(h, s, behind) && e.Log? && !e.writeOk
    requires Ahead(s) || Input(NewEntry(h, s, e)) !in s.inputs
    ensures Intact(h, Step(h, s, e), true)
    ensures Ahead(s) ==> Ahead(Step(h, s, e))
  {
    LogKeepsMemory(h, s, e, behind);
    StepAppends(h, s, e);
    InputsAppend(s.chained, NewEntry(h, s, e));
  }

  lemma RestartRecovers(h: Digester, s: State, behind: bool)
    requires Intact(h, s, behind)
    ensures Intact(h, Step(h, s, Restart), Blocked(s.files))
    ensures !Blocked(s.files) ==> Ahead(Step(h, s, Restart))
  {
    RestartTakesOver(s.files);
    VerifiesPrefix(h, RecoveredEntries(s.files), Entries(s.files));
  }

  lemma StepBlocks(h: Digester, s: State, e: Event)
    ensures Blocked(Step(h, s, e).files) <==> BlockedAfter(e, Blocked(s.files))
  {
    if e.Log? && e.writeOk {
      var line := Line(NewEntry(h, s, e), e.length);
      var after := Append(s.files, line, e.newDay);
      var last := after[|after| - 1];
      assert last[|last| - 1] == line;
      if s.files != [] && !e.newDay {
        var was := s.files[|s.files| - 1];
        assert last[..|was|] == was;
        assert forall i | 0 <= i < |was| :: last[i] == was[i];
      }
    }
  }

  /** One event keeps the log intact, unless it writes onto a log the memory has drifted from. */
  lemma StepIntact(h: Digester, s: State, e: Event, behind: bool)
    requires Intact(h, s, behind) && !(behind && e.Log? && e.writeOk)
    requires Ahead(s) || (e.Log? ==> Input(NewEntry(h, s, e)) !in s.inputs)
    ensures Intact(h, Step(h, s, e), BehindAfter(e, behind, Blocked(s.files)))
    ensures Ahead(s) && !Blocked(s.files) ==> Ahead(Step(h, s, e))
  {
    if e.Restart? {
      RestartRecovers(h, s, behind);
    } else if e.writeOk {
      WriteInStep(h, s, e);
    } else {
      WriteFails(h, s, e, behind);
    }
  }

  /** What is in the files and in the history stays there. */
  lemma {:induction false} RunGrows(h: Digester, s: State, trace: seq<Event>)
    ensures Entries(s.files) <= Entries(Run(h, s, trace).files)
    ensures s.inputs <= Run(h, s, trace).inputs
    decreases |trace|
  {
    if trace != [] {
      if trace[0].Log? {
        StepAppends(h, s, trace[0]);
      }
      RunGrows(h, Step(h, s, trace[0]), trace[1..]);
    }
  }

  /** No entry can repeat one that the memory has lost sight of. */
  predicate Separate(h: Digester, s: State, trace: seq<Event>) {
    NoRepeat(h, s, trace) || (Ahead(s) && !Blocked(s.files) && Scannable(trace))
  }

  lemma StepCarries(h: Digester, s: State, trace: seq<Event>, behind: bool)
    requires trace != [] && Intact(h, s, behind) && Separate(h, s, trace)
    requires !(behind && trace[0].Log? && trace[0].writeOk)
    ensures
      var s' := Step(h, s, trace[0]);
      && Intact(h, s', BehindAfter(trace[0], behind, Blocked(s.files))) && Separate(h, s', trace[1..])
      && (Blocked(s'.files) <==> BlockedAfter(trace[0], Blocked(s.files)))
  {
    StepIntact(h, s, trace[0], behind);
    StepBlocks(h, s, trace[0]);
  }

  lemma {:induction false} RunVerifiesIff(h: Digester, s: State, trace: seq<Event>, behind: bool)
    requires Intact(h, s, behind)
    requires Sound(h, Run(h, s, trace).inputs)
    requires Separate(h, s, trace)
    ensures Verifies(h, Entries(Run(h, s, trace).files)) <==> !Forks(trace, behind, Blocked(s.files))
    decreases |trace|
  {
    if trace != [] {
      var e, rest := trace[0], trace[1..];
      if behind && e.Log? && e.writeOk {
        ForkStays(h, s, trace);
      } else {
        var s' := Step(h, s, e);
        StepCarries(h, s, trace, behind);
        RunVerifiesIff(h, s', rest, BehindAfter(e, behind, Blocked(s.files)));
      }
    }
  }

  lemma ForkStays(h: Digester, s: State, trace: seq<Event>)
    requires trace != [] && Intact(h, s, true) && trace[0].Log? && trace[0].writeOk
    requires Sound(h, Run(h, s, trace).inputs)
    ensures !Verifies(h, Entries(Run(h, s, trace).files))
  {
    var s' := Step(h, s, trace[0]);
    RunGrows(h, s, trace);
    RunGrows(h, s', trace[1..]);
    WriteBehind(h, s, trace[0]);
    if Verifies(h, Entries(Run(h, s, trace).files)) {
      VerifiesPrefix(h, Entries(s'.files), Entries(Run(h, s, trace).files));
    }
  }

  /** Every write that succeeds finds the logger's memory at the last hash of the files. */
  predicate WritesInStep(h: Digester, s: State, trace: seq<Event>)
    decreases |trace|
  {
    trace != [] ==>
      && (trace[0].Log? && trace[0].writeOk ==> s.lastHash == LastHash(Entries(s.files)))
      && WritesInStep(h, Step(h, s, trace[0]), trace[1..])
  }

  /**
   Over any run of appends and restarts, with any failures and any hash: a log that verifies goes on to
   verify exactly when every write that succeeds finds the memory in step with the files.
   */
  lemma {:induction false} VerifiesIffInStep(h: Digester, s: State, trace: seq<Event>)
    requires Verifies(h, Entries(s.files))
    ensures Verifies(h, Entries(Run(h, s, trace).files)) <==> WritesInStep(h, s, trace)
    decreases |trace|
  {
    if trace != [] {
      var e, s' := trace[0], Step(h, s, trace[0]);
      if e.Log? {
        StepAppends(h, s, e);
        VerifiesAppend(h, Entries(s.files), NewEntry(h, s, e));
      }
      RunGrows(h, s', trace[1..]);
      if Verifies(h, Entries(s'.files)) {
        VerifiesIffInStep(h, s', trace[1..]);
      } else if Verifies(h, Entries(Run(h, s, trace).files)) {
        VerifiesPrefix(h, Entries(s'.files), Entries(Run(h, s, trace).files));
      }
    }
  }

  /**
   What that comes to for what happened, when no call hashes the same twice or no line is too long, and
   the hash does not collide on the run: the log verifies from genesis exactly when no write succeeded
   after an earlier one failed, or a restart stopped at a long line, with no good restart in between.
   */
  lemma {:induction false} LogVerifiesIff(h: Digester, trace: seq<Event>)
    requires Sound(h, Run(h, Fresh, trace).inputs)
    requires NoRepeat(h, Fresh, trace) || Scannable(trace)
    ensures Verifies(h, Entries(Run(h, Fresh, trace).files)) <==> !Forks(trace, false, false)
  {
    RunVerifiesIff(h, Fresh, trace, false);
  }

  predicate AllWritten(trace: seq<Event>) {
    forall i | 0 <= i < |trace| && trace[i].Log? :: trace[i].writeOk
  }

  /** When every write succeeds and every line can be scanned, nothing at all is asked of the hash. */
  lemma {:induction false} GoodRunsVerify(h: Digester, s: State, trace: seq<Event>)
    requires Intact(h, s, false) && !Blocked(s.files) && Ahead(s)
    requires AllWritten(trace) && Scannable(trace)
    ensures
      var end := Run(h, s, trace);
      Verifies(h, Entries(end.files)) && end.lastHash == LastHash(Entries(end.files))
    decreases |trace|
  {
    if trace != [] {
      StepCarries(h, s, trace, false);
      StepIntact(h, s, trace[0], false);
      GoodRunsVerify(h, Step(h, s, trace[0]), trace[1..]);
    }
  }

  /** Found in the code: one refused write, then an accepted one, and the log no longer verifies. */
  lemma FailedWriteForksTheLog(h: Digester)
    ensures
      var lost := Log(1, Plain, "a", "", "x", "", false, 200, false);
      var kept := Log(2, Plain, "a", "", "x", "", false, 200, true);
      Sound(h, Run(h, Fresh, [lost, kept]).inputs) ==>
        !Verifies(h, Entries(Run(h, Fresh, [lost, kept]).files))
  {
    var lost := Log(1, Plain, "a", "", "x", "", false, 200, false);
    var kept := Log(2, Plain, "a", "", "x", "", false, 200, true);
    assert Forks([lost, kept], false, false) by {
      assert [lost, kept][1..] == [kept];
    }
    if Sound(h, Run(h, Fresh, [lost, kept]).inputs) {
      LogVerifiesIff(h, [lost, kept]);
    }
  }

  /** Found in the code: after a line of 65536 characters, a restart forks the chain though no write failed. */
  lemma LongLineForksTheLog(h: Digester)
    ensures
      var long := Log(1, Plain, "a", "", "x", "", false, 65536, true);
      var next := Log(2, Plain, "a", "", "x", "", false, 200, true);
      var trace := [long, Restart, next];
      Sound(h, Run(h, Fresh, trace).inputs) ==> !Verifies(h, Entries(Run(h, Fresh, trace).files))
  {
    var long := Log(1, Plain, "a", "", "x", "", false, 65536, true);
    var next := Log(2, Plain, "a", "", "x", "", false, 200, true);
    var trace := [long, Restart, next];
    assert trace[1..] == [Restart, next] && trace[1..][1..] == [next];
    assert Forks([next], true, true) && Forks([Restart, next], false, true) && Forks(trace, false, false);
    if Sound(h, Run(h, Fresh, trace).inputs) {
      var one := Step(h, Fresh, long);
      var two := Step(h, one, Restart);
      assert NewEntry(h, two, next).fields.timestamp == 2 && NewEntry(h, Fresh, long).fields.timestamp == 1;
      assert NoRepeat(h, two, [next]);
      assert NoRepeat(h, Fresh, trace);
      LogVerifiesIff(h, trace);
    }
  }

  // ---------- Timestamps ----------

  predicate Ordered(log: seq<Entry>) {
    forall i, j | 0 <= i < j < |log| :: log[i].fields.timestamp <= log[j].fields.timestamp
  }

  /** The record is at or past every timestamp in the log. */
  predicate Capped(log: seq<Entry>, record: Option<int>) {
    forall i | 0 <= i < |log| :: record.Some? && log[i].fields.timestamp <= record.value
  }

  predicate PlainClock(trace: seq<Event>) {
    forall i | 0 <= i < |trace| && trace[i].Log? :: trace[i].io == Plain
  }

  lemma StampIsLatest(h: Digester, s: State, e: Event)
    requires Ordered(Entries(s.files)) && Capped(Entries(s.files), s.watermark) && (e.Log? ==> e.io == Plain)
    ensures
      var s' := Step(h, s, e);
      Ordered(Entries(s'.files)) && Capped(Entries(s'.files), s'.watermark)
  {
    if e.Log? {
      StepAppends(h, s, e);
      ClockIsMaximum(s.watermark, e.now, e.io);
      StampAppends(Entries(s.files), NewEntry(h, s, e), s.watermark, Step(h, s, e).watermark);
    }
  }

  lemma StampAppends(log: seq<Entry>, e: Entry, record: Option<int>, record': Option<int>)
    requires Ordered(log) && Capped(log, record) && record' == Some(e.fields.timestamp)
    requires record.Some? ==> record.value <= e.fields.timestamp
    ensures Ordered(log + [e]) && Capped(log + [e], record') && Capped(log, record')
  {
  }

  /** However the wall clock jumps, and whatever is lost or restarted, timestamps never decrease in log order. */
  lemma {:induction false} TimestampsAreOrdered(h: Digester, s: State, trace: seq<Event>)
    requires Ordered(Entries(s.files)) && Capped(Entries(s.files), s.watermark) && PlainClock(trace)
    ensures Ordered(Entries(Run(h, s, trace).files))
    decreases |trace|
  {
    if trace != [] {
      StampIsLatest(h, s, trace[0]);
      TimestampsAreOrdered(h, Step(h, s, trace[0]), trace[1..]);
    }
  }

  lemma {:induction false} FirstPointsToGenesis(h: Digester, log: seq<Entry>)
    requires Verifies(h, log)
    ensures log != [] ==> log[0].previousHash == GENESIS
    decreases |log|
  {
    if |log| > 1 {
      FirstPointsToGenesis(h, log[..|log| - 1]);
    }
  }

  /**
   From an empty directory, with successful writes and lines short of the scanner's limit, the log
   verifies from genesis whatever the restarts, and its timestamps are in order if the watermark file
   can be read and written.
   */
  lemma {:induction false} GoodLogsAreWhole(h: Digester, trace: seq<Event>)
    requires AllWritten(trace) && Scannable(trace)
    ensures
      var end := Run(h, Fresh, trace);
      Verifies(h, Entries(end.files)) && end.lastHash == LastHash(Entries(end.files))
    ensures PlainClock(trace) ==> Ordered(Entries(Run(h, Fresh, trace).files))
    ensures
      var log := Entries(Run(h, Fresh, trace).files);
      log != [] ==> log[0].previousHash == "0000000000000000000000000000000000000000000000000000000000000000"
  {
    GoodRunsVerify(h, Fresh, trace);
    FirstPointsToGenesis(h, Entries(Run(h, Fresh, trace).files));
    if PlainClock(trace) {
      TimestampsAreOrdered(h, Fresh, trace);
    }
  }

  // ---------- The logger itself ----------

  predicate Scanned(lines: seq<Line>, i: nat)
    requires i <= |lines|
  {
    Readable(lines) == lines[..i] + Readable(lines[i..])
  }

  lemma ScanStep(lines: seq<Line>, i: nat)
    requires i < |lines| && lines[i].length < MAX_LINE && Scanned(lines, i)
    ensures Scanned(lines, i + 1)
    ensures LastHash(LineEntries(lines[..i + 1])) == lines[i].entry.currentHash
  {
    var rest := lines[i..];
    assert rest[0] == lines[i] && rest[1..] == lines[i + 1..];
    assert lines[..i + 1] == lines[..i] + [lines[i]];
    LineEntriesAppend(lines[..i], lines[i]);
    assert Readable(rest) == [lines[i]] + Readable(lines[i + 1..]);
  }

  lemma ScanEnds(lines: seq<Line>, i: nat)
    requires i <= |lines| && Scanned(lines, i) && (i == |lines| || lines[i].length >= MAX_LINE)
    ensures Readable(lines) == lines[..i]
  {
    assert Readable(lines[i..]) == [];
  }

  /** The scan of the latest file: the last line before one too long to read. */
  method ScanLast(lines: seq<Line>) returns (last: Option<Entry>)
    ensures LastHash(LineEntries(Readable(lines))) == if last.Some? then last.value.currentHash else GENESIS
  {
    last := None;
    var i := 0;
    assert lines[..0] == [] && lines[0..] == lines;
    while i < |lines| && lines[i].length < MAX_LINE
      invariant 0 <= i <= |lines|
      invariant Scanned(lines, i)
      invariant LastHash(LineEntries(lines[..i])) == if last.Some? then last.value.currentHash else GENESIS
    {
      ScanStep(lines, i);
      last := Some(lines[i].entry);
      i := i + 1;
    }
    ScanEnds(lines, i);
  }

  class AuditLogger {
    const clock: ClockFile
    var files: seq<seq<Line>>
    var lastHash: string
    ghost var chained: seq<Entry>
    ghost var inputs: set<(Fields, string)>

    ghost function Now(): State
      reads this, clock
    {
      State(files, lastHash, clock.record, chained, inputs)
    }

    /** A logger started on files left by earlier ones. */
    constructor (files: seq<seq<Line>>, clock: ClockFile, ghost before: State, h: Digester)
      requires before.files == files && before.watermark == clock.record
      ensures this.clock == clock
      ensures Now() == Step(h, before, Restart)
    {
      this.clock, this.files := clock, files;
      this.lastHash := GENESIS;
      this.chained, this.inputs := RecoveredEntries(files), before.inputs;
      new;
      if files != [] {
        var last := ScanLast(files[|files| - 1]);
        if last.Some? {
          this.lastHash := last.value.currentHash;
        }
      }
    }

    method LogConnection(h: Digester, e: Event) returns (ok: bool)
      requires e.Log?
      modifies this, clock
      ensures Now() == Step(h, old(Now()), e) && ok == e.writeOk
      ensures ok ==>
        && |Entries(files)| == |Entries(old(files))| + 1 && Entries(old(files)) <= Entries(files)
        && var last := Entries(files)[|Entries(files)| - 1];
           && last.fields.remoteAddr == e.remoteAddr && last.fields.forwardedFor == e.forwardedFor
           && last.fields.action == e.action && last.fields.reason == e.reason
           && last.previousHash == old(lastHash) && last.currentHash == h(last.fields, old(lastHash)) && lastHash == last.currentHash
           && last.fields.timestamp == Clock(old(clock.record), e.now, e.io)
      ensures !ok ==> files == old(files)
    {
      ghost var was := Now();
      var timestamp := clock.GetMonotonicTime(e.now, e.io);
      var fields := Fields(timestamp, e.remoteAddr, e.forwardedFor, e.action, e.reason);
      var entry := Entry(fields, lastHash, h(fields, lastHash));
      StepAppends(h, was, e);
      if e.writeOk {
        files := Append(files, Line(entry, e.length), e.newDay);
      }
      lastHash := entry.currentHash;
      chained, inputs := chained + [entry], inputs + {Input(entry)};
      ok := e.writeOk;
    }
  }
}
