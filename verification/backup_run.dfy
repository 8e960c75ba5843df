/**
 * The script itself (app.js lines 31-134): announce the run, copy Google
 * Drive into a folder named after today's date, upload the transfer's log,
 * and, when the transfer succeeded, report its statistics and delete the
 * backup folders that fell out of the keep-range.
 *
 * `RunSpec` states, as a function of the inputs and the store state, the
 * calls the script makes (`Effect`s, in order) and the store afterwards;
 * `Run` is the script, proved to do exactly that. The outcome of the rclone
 * transfer and the two clock readings are inputs.
 */
module BackupRun {
  import opened Wrappers
  import opened RcloneOutput
  import opened BackupNames
  import opened ObjectStore
  import opened BulkDelete

  /** The part of config.json the model uses. */
  datatype Config = Config(numDaysKept: nat)

  /**
   * What exec hands to its callback. `err` is `None` when the process
   * succeeded, otherwise the error object as `JSON.stringify(err, null, 4)`
   * renders it.
   */
  datatype Transfer = Transfer(err: Option<string>, stdout: string, stderr: string)

  /** The Slack messages of the script; `MessageText` spells each out. */
  datatype Message =
    | Starting                          // line 32
    | TransferFailed                    // line 45
    | Finished(stats: TransferStats)    // lines 77-79
    | BackupDeleted(date: Date)         // line 120

  /** A call the script makes, in the order it makes them. */
  datatype Effect =
    | Notify(message: Message)          // slack.send
    | Exec(backupName: string)          // the rclone copy into folder `backupName`
    | Upload(key: Key, body: string)    // s3.putObject
    | ListTop                           // s3.listObjectsV2 of the top-level folders
    | DeletePrefix(prefix: Key)         // deleteObjectsWithPrefix

  const ErrorHeader := "***** ERROR *****\n\n"
  const StdoutHeader := "***** STDOUT *****\n\n"
  const StderrHeader := "\n\n***** STDERR *****\n\n"

  /** Line 59: the key of the uploaded log, inside the backup's folder. */
  function LogKey(backupName: string): Key {
    backupName + "/backup-log.txt"
  }

  /**
   * Lines 50-54: the log holds stdout and then stderr, preceded by the error
   * when there is one; it starts with an ERROR section exactly when the
   * transfer failed.
   */
  function ComposeLog(t: Transfer): (r: string)
    ensures var sections := StdoutHeader + t.stdout + StderrHeader + t.stderr;
      |sections| <= |r| && r[|r| - |sections|..] == sections
    ensures t.err.None? ==> |r| == |StdoutHeader + t.stdout + StderrHeader + t.stderr|
    ensures |ErrorHeader| <= |r| && r[..|ErrorHeader|] == ErrorHeader <==> t.err.Some?
  {
    var log := StdoutHeader + t.stdout + StderrHeader + t.stderr;
    match t.err
    case None =>
      assert log[6] == StdoutHeader[6] == 'S' && ErrorHeader[6] == 'E';
      log
    case Some(e) =>
      var r := ErrorHeader + e + "\n\n" + log;
      assert r[..|ErrorHeader|] == ErrorHeader;
      assert r[|r| - |log|..] == log;
      r
  }

  /**
   * Fixed text and fields in turn: `pieces[0] + fields[0] + pieces[1] + ...`,
   * ending with the last piece.
   */
  function Interleave(pieces: seq<string>, fields: seq<string>): string
    requires |pieces| == |fields| + 1
    decreases |fields|
  {
    if fields == [] then pieces[0]
    else pieces[0] + fields[0] + Interleave(pieces[1..], fields[1..])
  }

  /** Where field `k` starts in `Interleave(pieces, fields)`: after every piece and field before it. */
  function FieldStart(pieces: seq<string>, fields: seq<string>, k: nat): nat
    requires |pieces| == |fields| + 1 && k < |fields|
    decreases k
  {
    if k == 0 then |pieces[0]|
    else |pieces[0]| + |fields[0]| + FieldStart(pieces[1..], fields[1..], k - 1)
  }

  /** Field `k` stands verbatim at its start. */
  lemma {:induction false} InterleaveSlot(pieces: seq<string>, fields: seq<string>, k: nat)
    requires |pieces| == |fields| + 1 && k < |fields|
    ensures var i := FieldStart(pieces, fields, k);
      i + |fields[k]| <= |Interleave(pieces, fields)| && Interleave(pieces, fields)[i..i + |fields[k]|] == fields[k]
    decreases k
  {
    var head := pieces[0] + fields[0];
    var rest := Interleave(pieces[1..], fields[1..]);
    assert Interleave(pieces, fields) == head + rest;
    if k == 0 {
      assert (head + rest)[|pieces[0]|..|pieces[0]| + |fields[0]|] == fields[0];
    } else {
      InterleaveSlot(pieces[1..], fields[1..], k - 1);
      var j := FieldStart(pieces[1..], fields[1..], k - 1);
      assert (head + rest)[|head| + j..|head| + j + |fields[k]|] == rest[j..j + |fields[k]|];
    }
  }

  lemma InterleaveSlots(pieces: seq<string>, fields: seq<string>)
    requires |pieces| == |fields| + 1
    ensures forall k :: 0 <= k < |fields| ==>
      var i := FieldStart(pieces, fields, k);
      i + |fields[k]| <= |Interleave(pieces, fields)| && Interleave(pieces, fields)[i..i + |fields[k]|] == fields[k]
  {
    forall k | 0 <= k < |fields| {
      InterleaveSlot(pieces, fields, k);
    }
  }

  /**
   * The opening of the Slack report. Its first three characters are the
   * UTF-8 bytes of a check mark read as Windows-1252, as they stand in app.js.
   */
  const ReportLead := "\U{00E2}\U{0153}\U{2026} *Finished backup!* Transferred *"

  /** The fixed text of the report, around and between its six fields. */
  const ReportPieces: seq<string> :=
    [ReportLead, "* in *", "* (Average rate: _", "_).\n>_Errors: ", " - Checks: ", " - Transferred objects: ", "_"]

  /** The fields of the report, in the order it shows them. */
  function ReportFields(o: TransferStats): seq<string> {
    [o.size, o.duration, o.avgRate, o.errors, o.checks, o.numObjects]
  }

  /**
   * Lines 77-79: the Slack report. It opens with `ReportLead`, and the size,
   * the duration, the average rate, the errors, the checks and the number of
   * objects each stand in it verbatim, in that order, separated by fixed text.
   */
  function ReportText(o: TransferStats): (r: string)
    ensures |ReportLead| <= |r| && r[..|ReportLead|] == ReportLead
    ensures forall k :: 0 <= k < 6 ==>
      var i := FieldStart(ReportPieces, ReportFields(o), k);
      i + |ReportFields(o)[k]| <= |r| && r[i..i + |ReportFields(o)[k]|] == ReportFields(o)[k]
  {
    InterleaveSlots(ReportPieces, ReportFields(o));
    Interleave(ReportPieces, ReportFields(o))
  }

  /** The text sent to Slack for each message; line 120 for a deleted backup. */
  function MessageText(m: Message): string
    requires m.BackupDeleted? ==> ValidDate(m.date)
  {
    match m
    case Starting => ":hourglass_flowing_sand: Starting backup of Google Drive!"
    case TransferFailed => ":x: An error occurred! Check the logs for details."
    case Finished(o) => ReportText(o)
    case BackupDeleted(d) => ":wastebasket: The backup from " + FormatDate(d) + " was deleted!"
  }

  /** Lines 115-122: one deletion notice per callback invocation without an error, in order. */
  function Notices(callbacks: seq<Option<StoreError>>, d: Date): (r: seq<Effect>)
    requires ValidDate(d)
    ensures |r| <= |callbacks|
    ensures forall e :: e in r ==> e == Notify(BackupDeleted(d))
  {
    if callbacks == [] then []
    else
      var last := callbacks[|callbacks| - 1];
      Notices(callbacks[..|callbacks| - 1], d) + (if last.None? then [Notify(BackupDeleted(d))] else [])
  }

  /**
   * Lines 101-126: what the script does with one top-level folder. A folder
   * that is not an expired backup causes no call and leaves the bucket as it
   * is; an expired one is deleted first.
   */
  function PrefixStep(prefix: Key, now: Instant, daysKept: nat, st: StoreState): (r: (seq<Effect>, StoreState))
    requires ValidInstant(now)
    ensures r.0 == [] <==> !IsDeletionCandidate(prefix, now, daysKept)
    ensures r.0 != [] ==> r.0[0] == DeletePrefix(prefix)
    ensures !IsDeletionCandidate(prefix, now, daysKept) ==> r.1 == st
  {
    match ParseBackupPrefix(prefix)
    case None => ([], st)
    case Some(d) =>
      if Kept(d, now, daysKept) then ([], st)
      else
        var out := Deletion(st, prefix);
        ([DeletePrefix(prefix)] + Notices(out.callbacks, d), out.store)
  }

  /**
   * Lines 99-130: every top-level folder in listing order, each deletion run
   * to its end before the next. Its calls are deletions and deletion notices
   * only.
   */
  function RetentionPass(prefixes: seq<Key>, now: Instant, daysKept: nat, st: StoreState): (r: (seq<Effect>, StoreState))
    requires ValidInstant(now)
    ensures forall e :: e in r.0 ==> e.DeletePrefix? || (e.Notify? && e.message.BackupDeleted?)
  {
    if prefixes == [] then ([], st)
    else
      var (first, st1) := PrefixStep(prefixes[0], now, daysKept, st);
      var (rest, st2) := RetentionPass(prefixes[1..], now, daysKept, st1);
      (first + rest, st2)
  }

  /** Lines 32-68: the calls made up to the upload of the log, with the alert exactly when the transfer failed. */
  function Prologue(backupName: string, t: Transfer): (r: seq<Effect>)
    ensures |r| >= 3 && r[0] == Notify(Starting) && r[1] == Exec(backupName)
    ensures Upload(LogKey(backupName), ComposeLog(t)) in r
    ensures Notify(TransferFailed) in r <==> t.err.Some?
  {
    [Notify(Starting), Exec(backupName)]
      + (if t.err.Some? then [Notify(TransferFailed)] else [])
      + [Upload(LogKey(backupName), ComposeLog(t))]
  }

  /** Appending an effect and more keeps the front of a trace and adds only what is appended. */
  lemma AppendKeepsFront(front: seq<Effect>, e: Effect, rest: seq<Effect>)
    requires |front| >= 2
    ensures var all := front + [e] + rest;
      && |all| > |front| && all[0] == front[0] && all[1] == front[1]
      && forall x :: x in all <==> x in front || x == e || x in rest
  {
  }

  /** The trace so far, extended by one folder's effects, still leads to the whole pass's trace. */
  lemma ExtendTrace(whole: seq<Effect>, done: seq<Effect>, rest: seq<Effect>, step: seq<Effect>, later: seq<Effect>)
    requires whole == done + rest && rest == step + later
    ensures whole == (done + step) + later
  {
  }

  /**
   * Lines 86-132: list the top-level folders, then the retention pass over a
   * successful listing. The listing comes first, and the clean-up never sends
   * the alert.
   */
  function Cleanup(cfg: Config, now: Instant, st: StoreState): (r: (seq<Effect>, StoreState))
    requires ValidInstant(now)
    ensures r.0 != [] && r.0[0] == ListTop
    ensures Notify(TransferFailed) !in r.0
  {
    var (listed, st1) := ListTopStep(st);
    match listed
    case Err(_) => ([ListTop], st1)
    case Ok(prefixes) =>
      var (deletions, st2) := RetentionPass(prefixes, now, cfg.numDaysKept, st1);
      ([ListTop] + deletions, st2)
  }

  lemma PassStep(prefixes: seq<Key>, now: Instant, daysKept: nat, st: StoreState)
    requires ValidInstant(now) && prefixes != []
    ensures var (first, st1) := PrefixStep(prefixes[0], now, daysKept, st);
      RetentionPass(prefixes, now, daysKept, st)
        == (first + RetentionPass(prefixes[1..], now, daysKept, st1).0, RetentionPass(prefixes[1..], now, daysKept, st1).1)
  {
  }

  /**
   * The whole run, started at `today` (line 35) and judging the keep-range
   * at `now` (lines 106-107), with the transfer's outcome `t`. It announces
   * itself, runs the transfer into today's folder, always uploads the log,
   * and sends the alert exactly when the transfer failed.
   */
  function RunSpec(cfg: Config, today: Instant, t: Transfer, now: Instant, st: StoreState): (r: (seq<Effect>, StoreState))
    requires ValidInstant(today) && ValidInstant(now)
    ensures |r.0| >= 3 && r.0[0] == Notify(Starting) && r.0[1] == Exec(BackupName(today.date))
    ensures Upload(LogKey(BackupName(today.date)), ComposeLog(t)) in r.0
    ensures Notify(TransferFailed) in r.0 <==> t.err.Some?
  {
    var name := BackupName(today.date);
    var st1 := PutStep(st, LogKey(name), ComposeLog(t)).1;
    if t.err.Some? then (Prologue(name, t), st1)
    else
      var (rest, st2) := Cleanup(cfg, now, st1);
      var report := Notify(Finished(ParseRcloneOutput(t.stderr)));
      AppendKeepsFront(Prologue(name, t), report, rest);
      (Prologue(name, t) + [report] + rest, st2)
  }

  // ---------------------------------------------------------------------
  // The script

  /** The deletion notices for one folder, sent as its callback is invoked. */
  method SendNotices(callbacks: seq<Option<StoreError>>, d: Date) returns (sent: seq<Effect>)
    requires ValidDate(d)
    ensures sent == Notices(callbacks, d)
  {
    sent := [];
    for j := 0 to |callbacks|
      invariant sent == Notices(callbacks[..j], d)
    {
      assert callbacks[..j + 1][..j] == callbacks[..j];
      if callbacks[j].None? {
        sent := sent + [Notify(BackupDeleted(d))];
      }
    }
    assert callbacks[..|callbacks|] == callbacks;
  }

  /** Lines 101-126: delete one top-level folder if it is an expired backup. */
  method HandlePrefix(prefix: Key, now: Instant, daysKept: nat, store: Store) returns (trace: seq<Effect>)
    requires ValidInstant(now)
    modifies store
    ensures (trace, store.State()) == PrefixStep(prefix, now, daysKept, old(store.State()))
  {
    trace := [];
    var backupDate := ParseBackupPrefix(prefix);
    if backupDate.Some? && !Kept(backupDate.value, now, daysKept) {
      trace := [DeletePrefix(prefix)];
      var callbacks := DeleteObjectsWithPrefix(store, prefix);
      var sent := SendNotices(callbacks, backupDate.value);
      trace := trace + sent;
    }
  }

  /** Lines 99-130: the deletions and notices for the listed top-level folders, in listing order. */
  method RemoveExpired(prefixes: seq<Key>, now: Instant, daysKept: nat, store: Store) returns (trace: seq<Effect>)
    requires ValidInstant(now)
    modifies store
    ensures (trace, store.State()) == RetentionPass(prefixes, now, daysKept, old(store.State()))
  {
    trace := [];
    for i := 0 to |prefixes|
      invariant RetentionPass(prefixes, now, daysKept, old(store.State())).0
        == trace + RetentionPass(prefixes[i..], now, daysKept, store.State()).0
      invariant RetentionPass(prefixes, now, daysKept, old(store.State())).1
        == RetentionPass(prefixes[i..], now, daysKept, store.State()).1
    {
      ghost var st := store.State();
      PassStep(prefixes[i..], now, daysKept, st);
      assert prefixes[i..][1..] == prefixes[i + 1..];
      var sent := HandlePrefix(prefixes[i], now, daysKept, store);
      ghost var later := RetentionPass(prefixes[i + 1..], now, daysKept, store.State()).0;
      ExtendTrace(RetentionPass(prefixes, now, daysKept, old(store.State())).0,
        trace, RetentionPass(prefixes[i..], now, daysKept, st).0, sent, later);
      trace := trace + sent;
    }
    assert prefixes[|prefixes|..] == [];
    ghost var done := RetentionPass([], now, daysKept, store.State());
    assert done == ([], store.State());
    assert trace + done.0 == trace;
  }

  /** Lines 86-132: list the top-level folders and remove the expired backups. */
  method CleanUp(cfg: Config, now: Instant, store: Store) returns (trace: seq<Effect>)
    requires ValidInstant(now)
    modifies store
    ensures (trace, store.State()) == Cleanup(cfg, now, old(store.State()))
  {
    trace := [ListTop];
    var listed := store.ListTopLevel();
    if listed.Err? {
      return;
    }
    var deletions := RemoveExpired(listed.value, now, cfg.numDaysKept, store);
    trace := trace + deletions;
  }

  /** Lines 31-134; the calls made are returned in order, and `store` is the bucket. */
  method Run(cfg: Config, today: Instant, t: Transfer, now: Instant, store: Store) returns (trace: seq<Effect>)
    requires ValidInstant(today) && ValidInstant(now)
    modifies store
    ensures (trace, store.State()) == RunSpec(cfg, today, t, now, old(store.State()))
  {
    trace := [Notify(Starting)];
    var backupName := BackupName(today.date);
    trace := trace + [Exec(backupName)];
    if t.err.Some? {
      trace := trace + [Notify(TransferFailed)];
    }
    var log := StdoutHeader + t.stdout;
    log := log + StderrHeader + t.stderr;
    if t.err.Some? {
      log := ErrorHeader + t.err.value + "\n\n" + log;
    }
    assert log == ComposeLog(t);
    trace := trace + [Upload(LogKey(backupName), log)];
    assert trace == Prologue(backupName, t);
    var _ := store.PutObject(LogKey(backupName), log);
    if t.err.Some? {
      return;
    }
    var output := ParseRcloneOutput(t.stderr);
    trace := trace + [Notify(Finished(output))];
    var rest := CleanUp(cfg, now, store);
    trace := trace + rest;
  }

  // ---------------------------------------------------------------------
  // What a run guarantees

  /**
   * The ERROR section of a failed transfer is followed by the log of a
   * successful transfer with the same output, and the log always ends with
   * stderr.
   */
  lemma LogLayout(t: Transfer)
    ensures var log := ComposeLog(t);
      && (t.err.Some? ==> log == ErrorHeader + t.err.value + "\n\n" + ComposeLog(t.(err := None)))
      && |StderrHeader + t.stderr| <= |log|
      && log[|log| - |StderrHeader + t.stderr|..] == StderrHeader + t.stderr
  {
    var log := ComposeLog(t);
    var plain := StdoutHeader + t.stdout + StderrHeader + t.stderr;
    var tail := StderrHeader + t.stderr;
    assert plain == (StdoutHeader + t.stdout) + tail;
    assert log[|log| - |tail|..] == plain[|plain| - |tail|..];
  }

  /** A failed transfer: one alert and the log upload, then nothing else; the bucket sees only the upload. */
  lemma FailedTransferRun(cfg: Config, today: Instant, t: Transfer, now: Instant, st: StoreState)
    requires ValidInstant(today) && ValidInstant(now) && t.err.Some?
    ensures var name := BackupName(today.date);
      var (trace, st') := RunSpec(cfg, today, t, now, st);
      && trace == [Notify(Starting), Exec(name), Notify(TransferFailed), Upload(LogKey(name), ComposeLog(t))]
      && st'.requests == st.requests + [PutObject(LogKey(name), ComposeLog(t))]
  {
  }

  /** After a successful transfer the run is the prologue, the report and the clean-up. */
  lemma SuccessfulRunShape(cfg: Config, today: Instant, t: Transfer, now: Instant, st: StoreState)
    requires ValidInstant(today) && ValidInstant(now) && t.err.None?
    ensures var name := BackupName(today.date);
      var c := Cleanup(cfg, now, PutStep(st, LogKey(name), ComposeLog(t)).1);
      && RunSpec(cfg, today, t, now, st).0
         == [Notify(Starting), Exec(name), Upload(LogKey(name), ComposeLog(t)), Notify(Finished(ParseRcloneOutput(t.stderr)))] + c.0
      && RunSpec(cfg, today, t, now, st).1 == c.1
  {
    var name := BackupName(today.date);
    var c := Cleanup(cfg, now, PutStep(st, LogKey(name), ComposeLog(t)).1);
    var up := Upload(LogKey(name), ComposeLog(t));
    assert Prologue(name, t) == [Notify(Starting), Exec(name), up];
    FourFirst(Prologue(name, t), Notify(Starting), Exec(name), up, Notify(Finished(ParseRcloneOutput(t.stderr))), c.0);
  }

  /** Three leading effects, one more, then the rest. */
  lemma FourFirst(p: seq<Effect>, a: Effect, b: Effect, c: Effect, d: Effect, rest: seq<Effect>)
    requires p == [a, b, c]
    ensures p + [d] + rest == [a, b, c, d] + rest
  {
  }

  /**
   * A successful transfer: the start notice, the transfer, the log upload,
   * the report and the listing come first.
   */
  lemma SuccessfulTransferRun(cfg: Config, today: Instant, t: Transfer, now: Instant, st: StoreState)
    requires ValidInstant(today) && ValidInstant(now) && t.err.None?
    ensures var name := BackupName(today.date);
      var trace := RunSpec(cfg, today, t, now, st).0;
      && |trace| >= 5
      && trace[..5] == [Notify(Starting), Exec(name), Upload(LogKey(name), ComposeLog(t)),
                        Notify(Finished(ParseRcloneOutput(t.stderr))), ListTop]
  {
    var name := BackupName(today.date);
    var st1 := PutStep(st, LogKey(name), ComposeLog(t)).1;
    SuccessfulRunShape(cfg, today, t, now, st);
    var c := Cleanup(cfg, now, st1).0;
    FiveFirst(Notify(Starting), Exec(name), Upload(LogKey(name), ComposeLog(t)),
      Notify(Finished(ParseRcloneOutput(t.stderr))), c);
  }

  /** Four leading effects and a non-empty rest: the first five are those four and the rest's first. */
  lemma FiveFirst(a: Effect, b: Effect, c: Effect, d: Effect, rest: seq<Effect>)
    requires rest != []
    ensures |[a, b, c, d] + rest| >= 5 && ([a, b, c, d] + rest)[..5] == [a, b, c, d, rest[0]]
  {
  }

  /**
   * When listing the top-level folders fails, the run ends after the
   * report: no deletion is started and no key is removed.
   */
  lemma ListingFailureRun(cfg: Config, today: Instant, t: Transfer, now: Instant, st: StoreState)
    requires ValidInstant(today) && ValidInstant(now) && t.err.None?
    requires OutcomeAt(st.faults, 1).Some?
    ensures var name := BackupName(today.date);
      var (trace, st') := RunSpec(cfg, today, t, now, st);
      && trace == [Notify(Starting), Exec(name), Upload(LogKey(name), ComposeLog(t)),
                   Notify(Finished(ParseRcloneOutput(t.stderr))), ListTop]
      && st'.requests == st.requests + [PutObject(LogKey(name), ComposeLog(t)), ListTopLevel]
      && forall k :: k in st.objects ==> k in st'.objects
  {
    var name := BackupName(today.date);
    var st1 := PutStep(st, LogKey(name), ComposeLog(t)).1;
    SuccessfulRunShape(cfg, today, t, now, st);
    assert st1.faults == Drop(st.faults, 1);
    CleanupListingFails(cfg, now, st1);
    FourThenOne(Notify(Starting), Exec(name), Upload(LogKey(name), ComposeLog(t)),
      Notify(Finished(ParseRcloneOutput(t.stderr))), ListTop);
  }

  /** Four effects followed by a fifth. */
  lemma FourThenOne(a: Effect, b: Effect, c: Effect, d: Effect, e: Effect)
    ensures [a, b, c, d] + [e] == [a, b, c, d, e]
  {
  }

  /** A failed top-level listing ends the clean-up at once. */
  lemma CleanupListingFails(cfg: Config, now: Instant, st: StoreState)
    requires ValidInstant(now) && OutcomeAt(st.faults, 0).Some?
    ensures Cleanup(cfg, now, st) == ([ListTop], StoreState(st.objects, st.faults[1..], st.requests + [ListTopLevel]))
  {
  }

  /** The prefixes of the deletions among `effects`, in order. */
  function DeleteCalls(effects: seq<Effect>): (r: seq<Key>)
    ensures |r| <= |effects|
  {
    if effects == [] then []
    else (if effects[0].DeletePrefix? then [effects[0].prefix] else []) + DeleteCalls(effects[1..])
  }

  lemma {:induction false} DeleteCallsAppend(a: seq<Effect>, b: seq<Effect>)
    ensures DeleteCalls(a + b) == DeleteCalls(a) + DeleteCalls(b)
  {
    if a == [] {
      assert a + b == b;
    } else {
      var head := if a[0].DeletePrefix? then [a[0].prefix] else [];
      assert (a + b)[0] == a[0] && (a + b)[1..] == a[1..] + b;
      DeleteCallsAppend(a[1..], b);
      assert DeleteCalls(a + b) == head + (DeleteCalls(a[1..]) + DeleteCalls(b));
      assert DeleteCalls(a) == head + DeleteCalls(a[1..]);
    }
  }

  lemma {:induction false} NoticesAreNotDeletions(callbacks: seq<Option<StoreError>>, d: Date)
    requires ValidDate(d)
    ensures DeleteCalls(Notices(callbacks, d)) == []
  {
    if callbacks != [] {
      var init := callbacks[..|callbacks| - 1];
      NoticesAreNotDeletions(init, d);
      var extra: seq<Effect> := if callbacks[|callbacks| - 1].None? then [Notify(BackupDeleted(d))] else [];
      DeleteCallsAppend(Notices(init, d), extra);
    }
  }

  /** The top-level folders that are expired backups, in listing order. */
  function Candidates(prefixes: seq<Key>, now: Instant, daysKept: nat): (r: seq<Key>)
    requires ValidInstant(now)
    ensures forall p :: p in r ==> p in prefixes && IsDeletionCandidate(p, now, daysKept)
    ensures forall p :: p in prefixes && IsDeletionCandidate(p, now, daysKept) ==> p in r
  {
    if prefixes == [] then []
    else (if IsDeletionCandidate(prefixes[0], now, daysKept) then [prefixes[0]] else []) + Candidates(prefixes[1..], now, daysKept)
  }

  /**
   * Every expired backup folder gets a deletion, in listing order, whatever
   * happened to the deletions before it; no other folder gets one.
   */
  lemma {:induction false} PassDeletesCandidates(prefixes: seq<Key>, now: Instant, daysKept: nat, st: StoreState)
    requires ValidInstant(now)
    ensures DeleteCalls(RetentionPass(prefixes, now, daysKept, st).0) == Candidates(prefixes, now, daysKept)
  {
    if prefixes != [] {
      var p := prefixes[0];
      var (first, st1) := PrefixStep(p, now, daysKept, st);
      PassStep(prefixes, now, daysKept, st);
      PassDeletesCandidates(prefixes[1..], now, daysKept, st1);
      DeleteCallsAppend(first, RetentionPass(prefixes[1..], now, daysKept, st1).0);
      if IsDeletionCandidate(p, now, daysKept) {
        var d := ParseBackupPrefix(p).value;
        var out := Deletion(st, p);
        assert first == [DeletePrefix(p)] + Notices(out.callbacks, d);
        DeleteCallsAppend([DeletePrefix(p)], Notices(out.callbacks, d));
        NoticesAreNotDeletions(out.callbacks, d);
      } else {
        assert first == [];
      }
    }
  }

  /** One notice per callback invocation without an error. */
  lemma {:induction false} NoticesCount(callbacks: seq<Option<StoreError>>, d: Date)
    requires ValidDate(d)
    ensures |Notices(callbacks, d)| == multiset(callbacks)[None]
  {
    if callbacks != [] {
      var init := callbacks[..|callbacks| - 1];
      NoticesCount(init, d);
      assert callbacks == init + [callbacks[|callbacks| - 1]];
    }
  }

  /** What the script does with an expired backup folder dated `d`. */
  lemma ExpiredShape(prefix: Key, now: Instant, daysKept: nat, st: StoreState)
    requires ValidInstant(now) && IsDeletionCandidate(prefix, now, daysKept)
    ensures var d := ParseBackupPrefix(prefix).value;
      var out := Deletion(st, prefix);
      PrefixStep(prefix, now, daysKept, st) == ([DeletePrefix(prefix)] + Notices(out.callbacks, d), out.store)
  {
  }

  /**
   * For an expired backup: the deletion comes first and is followed by one
   * notice, naming the folder's date, per callback invocation without an
   * error.
   */
  lemma ExpiredBackupNotices(prefix: Key, now: Instant, daysKept: nat, st: StoreState)
    requires ValidInstant(now) && IsDeletionCandidate(prefix, now, daysKept)
    ensures var d := ParseBackupPrefix(prefix).value;
      var effects := PrefixStep(prefix, now, daysKept, st).0;
      var out := Deletion(st, prefix);
      && effects[0] == DeletePrefix(prefix)
      && |effects| - 1 == multiset(out.callbacks)[None]
      && (forall e :: e in effects[1..] ==> e == Notify(BackupDeleted(d)))
  {
    ExpiredShape(prefix, now, daysKept, st);
    var d := ParseBackupPrefix(prefix).value;
    var out := Deletion(st, prefix);
    var effects := PrefixStep(prefix, now, daysKept, st).0;
    assert effects[1..] == Notices(out.callbacks, d);
    NoticesCount(out.callbacks, d);
  }

  /**
   * A deletion whose last callback reports success is announced, and one
   * whose only callback reports an error is not.
   */
  lemma ExpiredBackupAnnounced(prefix: Key, now: Instant, daysKept: nat, st: StoreState)
    requires ValidInstant(now) && IsDeletionCandidate(prefix, now, daysKept)
    ensures var d := ParseBackupPrefix(prefix).value;
      var effects := PrefixStep(prefix, now, daysKept, st).0;
      var cbs := Deletion(st, prefix).callbacks;
      && (cbs[|cbs| - 1].None? ==> Notify(BackupDeleted(d)) in effects)
      && (|cbs| == 1 && cbs[0].Some? ==> effects == [DeletePrefix(prefix)])
  {
    ExpiredShape(prefix, now, daysKept, st);
    var d := ParseBackupPrefix(prefix).value;
    var cbs := Deletion(st, prefix).callbacks;
    var init := cbs[..|cbs| - 1];
    if cbs[|cbs| - 1].None? {
      assert Notices(cbs, d) == Notices(init, d) + [Notify(BackupDeleted(d))];
    }
    if |cbs| == 1 && cbs[0].Some? {
      assert init == [];
      assert Notices(cbs, d) == [];
    }
  }

  /** The notice names the date exactly as the deleted folder does. */
  lemma NoticeNamesFolder(prefix: Key, d: Date)
    requires ParseBackupPrefix(prefix) == Some(d)
    ensures |prefix| >= 18
    ensures MessageText(BackupDeleted(d)) == ":wastebasket: The backup from " + prefix[7..18] + " was deleted!"
  {
    assert BackupName(d)[7..18] == FormatDate(d);
    assert (BackupName(d) + "/")[7..18] == FormatDate(d);
  }

  /** A key set that only shrinks keeps a prefix it had emptied empty. */
  lemma {:induction false} UnderStaysEmpty(before: seq<Key>, after: seq<Key>, prefix: Key)
    requires Under(before, prefix) == [] && forall k :: k in after ==> k in before
    ensures Under(after, prefix) == []
  {
    if after != [] {
      UnderMembers(before, prefix);
      assert after[0] in before;
      assert !(prefix <= after[0]);
      UnderStaysEmpty(before, after[1..], prefix);
    }
  }

  /** One folder: no key is added, and only keys under an expired backup folder can go. */
  lemma PrefixStepKeeps(prefix: Key, now: Instant, daysKept: nat, st: StoreState)
    requires ValidInstant(now)
    ensures var st1 := PrefixStep(prefix, now, daysKept, st).1;
      && (forall k :: k in st1.objects ==> k in st.objects)
      && (forall k :: k in st.objects && !(IsDeletionCandidate(prefix, now, daysKept) && prefix <= k) ==> k in st1.objects)
  {
    if IsDeletionCandidate(prefix, now, daysKept) {
      ExpiredShape(prefix, now, daysKept, st);
      var st1 := PrefixStep(prefix, now, daysKept, st).1;
      DeletionKeepsOutside(st, prefix);
      OutsideMembers(st.objects, prefix);
      OutsideMembers(st1.objects, prefix);
    }
  }

  lemma CandidatesCons(prefixes: seq<Key>, now: Instant, daysKept: nat)
    requires ValidInstant(now) && prefixes != []
    ensures Candidates(prefixes, now, daysKept)
      == (if IsDeletionCandidate(prefixes[0], now, daysKept) then [prefixes[0]] else []) + Candidates(prefixes[1..], now, daysKept)
  {
  }

  /**
   * A retention pass adds no key, and every key that lies under none of the
   * expired backup folders survives it, whatever requests fail.
   */
  lemma {:induction false} PassKeepsOthers(prefixes: seq<Key>, now: Instant, daysKept: nat, st: StoreState)
    requires ValidInstant(now)
    ensures var fin := RetentionPass(prefixes, now, daysKept, st).1;
      && (forall k :: k in fin.objects ==> k in st.objects)
      && (forall k :: k in st.objects && (forall p :: p in Candidates(prefixes, now, daysKept) ==> !(p <= k)) ==> k in fin.objects)
  {
    if prefixes != [] {
      var p := prefixes[0];
      var st1 := PrefixStep(p, now, daysKept, st).1;
      PassStep(prefixes, now, daysKept, st);
      PrefixStepKeeps(p, now, daysKept, st);
      PassKeepsOthers(prefixes[1..], now, daysKept, st1);
      CandidatesCons(prefixes, now, daysKept);
    }
  }

  /** One folder, with no failing request and unique keys: an expired backup folder is emptied. */
  lemma PrefixStepFaultFree(prefix: Key, now: Instant, daysKept: nat, st: StoreState)
    requires ValidInstant(now) && NoFaults(st.faults) && Distinct(st.objects)
    ensures var st1 := PrefixStep(prefix, now, daysKept, st).1;
      && NoFaults(st1.faults)
      && Distinct(st1.objects)
      && (IsDeletionCandidate(prefix, now, daysKept) ==> Under(st1.objects, prefix) == [])
  {
    if IsDeletionCandidate(prefix, now, daysKept) {
      ExpiredShape(prefix, now, daysKept, st);
      FaultFreeDeletion(st, prefix);
    }
  }

  /**
   * With no failing request and unique keys, a retention pass leaves no key
   * under any expired backup folder.
   */
  lemma {:induction false} PassFaultFree(prefixes: seq<Key>, now: Instant, daysKept: nat, st: StoreState)
    requires ValidInstant(now) && NoFaults(st.faults) && Distinct(st.objects)
    ensures var fin := RetentionPass(prefixes, now, daysKept, st).1;
      && NoFaults(fin.faults)
      && Distinct(fin.objects)
      && forall p :: p in Candidates(prefixes, now, daysKept) ==> Under(fin.objects, p) == []
  {
    if prefixes != [] {
      var p := prefixes[0];
      var st1 := PrefixStep(p, now, daysKept, st).1;
      var fin := RetentionPass(prefixes[1..], now, daysKept, st1).1;
      PassStep(prefixes, now, daysKept, st);
      PrefixStepFaultFree(p, now, daysKept, st);
      PassFaultFree(prefixes[1..], now, daysKept, st1);
      PassKeepsOthers(prefixes[1..], now, daysKept, st1);
      CandidatesCons(prefixes, now, daysKept);
      if IsDeletionCandidate(p, now, daysKept) {
        UnderStaysEmpty(st1.objects, fin.objects, p);
      }
    }
  }

  /**
   * With no failing request and unique keys, an expired backup is deleted and
   * announced once, or twice when its folder held no key (the callback is
   * invoked twice then).
   */
  lemma FaultFreeExpiredAnnounced(prefix: Key, now: Instant, daysKept: nat, st: StoreState)
    requires ValidInstant(now) && IsDeletionCandidate(prefix, now, daysKept)
    requires NoFaults(st.faults) && Distinct(st.objects)
    ensures var n := Notify(BackupDeleted(ParseBackupPrefix(prefix).value));
      PrefixStep(prefix, now, daysKept, st).0
        == [DeletePrefix(prefix)] + (if Under(st.objects, prefix) == [] then [n, n] else [n])
  {
    ExpiredShape(prefix, now, daysKept, st);
    FaultFreeCallbacks(st, prefix);
    SuccessNotices(ParseBackupPrefix(prefix).value);
  }

  lemma SuccessNotices(d: Date)
    requires ValidDate(d)
    ensures var n := Notify(BackupDeleted(d));
      Notices([None], d) == [n] && Notices([None, None], d) == [n, n]
  {
    assert Notices([None, None], d) == Notices([None], d) + [Notify(BackupDeleted(d))];
  }

  /**
   * A run removes only keys that start with "backup-", so `misc/` and any
   * other folder survive it, and the only key it can add is its log.
   */
  lemma RunDeletesOnlyBackups(cfg: Config, today: Instant, t: Transfer, now: Instant, st: StoreState)
    requires ValidInstant(today) && ValidInstant(now)
    ensures var fin := RunSpec(cfg, today, t, now, st).1;
      && (forall k :: k in st.objects && !(BackupPrefix <= k) ==> k in fin.objects)
      && (forall k :: k in fin.objects ==> k in st.objects || k == LogKey(BackupName(today.date)))
  {
    var name := BackupName(today.date);
    var st1 := PutStep(st, LogKey(name), ComposeLog(t)).1;
    RunState(cfg, today, t, now, st);
    if t.err.None? {
      CleanupKeepsOthers(cfg, now, st1);
    }
  }

  /** The store after a run: the log upload, then the clean-up when the transfer succeeded. */
  lemma RunState(cfg: Config, today: Instant, t: Transfer, now: Instant, st: StoreState)
    requires ValidInstant(today) && ValidInstant(now)
    ensures var st1 := PutStep(st, LogKey(BackupName(today.date)), ComposeLog(t)).1;
      RunSpec(cfg, today, t, now, st).1 == if t.err.Some? then st1 else Cleanup(cfg, now, st1).1
  {
  }

  /** The clean-up removes only keys under "backup-" folders and adds none. */
  lemma CleanupKeepsOthers(cfg: Config, now: Instant, st: StoreState)
    requires ValidInstant(now)
    ensures var fin := Cleanup(cfg, now, st).1;
      && (forall k :: k in st.objects && !(BackupPrefix <= k) ==> k in fin.objects)
      && (forall k :: k in fin.objects ==> k in st.objects)
  {
    var listed := ListTopStep(st).0;
    var st2 := ListTopStep(st).1;
    assert st2.objects == st.objects;
    if listed.Ok? {
      var prefixes := listed.value;
      var cands := Candidates(prefixes, now, cfg.numDaysKept);
      PassKeepsOthers(prefixes, now, cfg.numDaysKept, st2);
      forall k | k in st2.objects && !(BackupPrefix <= k)
        ensures forall p :: p in cands ==> !(p <= k)
      {
        forall p | p in cands ensures !(p <= k) {
          assert IsDeletionCandidate(p, now, cfg.numDaysKept);
        }
      }
    }
  }
}
