/**
 The rename-based operation queue.

 The first half runs any number of API processes and runners against one directory, one file-system call per step.
 The second half is the queue object as a single runner uses it.
 */
module OperationQueue {
  import opened Option

  datatype Place = Temporary | Pending | Running | Failed | Corrupt

  // {op}.json.tmp, {op}.json, {op}.running, {op}.failed, {op}.corrupt
  datatype File = File(op: string, place: Place)

  datatype Stored = Stored(text: string, mtime: int)

  type Files = map<File, Stored>

  datatype QueueEntry = QueueEntry(opId: string, kind: string, project: string, environment: string, actor: string,
                                   params: string, token: string, createdAt: string)

  // QueueEntry.from_json; None stands for any exception it raises.
  type Decoder = string -> Option<QueueEntry>

  function Removed(files: Files, f: File): Files {
    map g | g in files && g != f :: files[g]
  }

  // POSIX rename: it replaces an existing target.
  function Renamed(files: Files, op: string, from: Place, to: Place): Files
    requires File(op, from) in files
  {
    Removed(files, File(op, from))[File(op, to) := files[File(op, from)]]
  }

  // ---------------------------------------------------------------- many processes

  datatype Pc =
    | Idle
    | Scanning(rest: seq<string>)
    | Reading(op: string, rest: seq<string>)
    | Spoiled(op: string, rest: seq<string>)

  datatype Claim = Claim(op: string, entry: QueueEntry)

  datatype State = State(
    files: Files,
    runners: map<nat, Pc>,
    enqueued: map<string, string>,
    cancelled: set<string>,
    completed: set<string>,
    claims: seq<Claim>)

  datatype Step =
    | Write(op: string, text: string, mtime: int)
    | Publish(op: string)
    | Cancel(op: string)
    | List(r: nat, candidates: seq<string>)
    | Take(r: nat, effect: bool)
    | Read(r: nat, ok: bool)
    | Spoil(r: nat)
    | Stop(r: nat)
    | Complete(op: string)
    | Fail(op: string)

  predicate Init(s: State) {
    && s.files == map[] && s.enqueued == map[] && s.cancelled == {} && s.completed == {} && s.claims == []
    && forall r :: r in s.runners ==> s.runners[r].Idle?
  }

  predicate Enabled(s: State, step: Step) {
    match step
    case Write(op, _, _) => op !in s.enqueued
    case Publish(op) => File(op, Temporary) in s.files
    case Cancel(_) => true
    // A listing is only a hint: any names in any order may be tried.
    case List(r, _) => r in s.runners && s.runners[r].Idle?
    case Take(r, effect) =>
      && r in s.runners && s.runners[r].Scanning? && s.runners[r].rest != []
      && (effect ==> File(s.runners[r].rest[0], Pending) in s.files)
    case Read(r, ok) =>
      && r in s.runners && s.runners[r].Reading?
      && (ok ==> File(s.runners[r].op, Running) in s.files)
    case Spoil(r) => r in s.runners && s.runners[r].Spoiled? && File(s.runners[r].op, Running) in s.files
    // The call ends: an exception, a crash, or no candidate left.
    case Stop(r) => r in s.runners
    case Complete(_) => true
    case Fail(_) => true
  }

  function Apply(decode: Decoder, s: State, step: Step): State
    requires Enabled(s, step)
  {
    match step
    case Write(op, text, mtime) =>
      s.(files := s.files[File(op, Temporary) := Stored(text, mtime)], enqueued := s.enqueued[op := text])
    case Publish(op) => s.(files := Renamed(s.files, op, Temporary, Pending))
    case Cancel(op) =>
      if File(op, Pending) in s.files
      then s.(files := Removed(s.files, File(op, Pending)), cancelled := s.cancelled + {op})
      else s
    case List(r, candidates) => s.(runners := s.runners[r := Scanning(candidates)])
    case Take(r, effect) =>
      var op, rest := s.runners[r].rest[0], s.runners[r].rest[1..];
      if effect
      then s.(files := Renamed(s.files, op, Pending, Running), runners := s.runners[r := Reading(op, rest)])
      else s.(runners := s.runners[r := Scanning(rest)])
    case Read(r, ok) => Returned(decode, s, r, ok)
    case Spoil(r) =>
      var pc := s.runners[r];
      s.(files := Renamed(s.files, pc.op, Running, Corrupt), runners := s.runners[r := Scanning(pc.rest)])
    case Stop(r) => s.(runners := s.runners[r := Idle])
    case Complete(op) =>
      if File(op, Running) in s.files
      then s.(files := Removed(s.files, File(op, Running)), completed := s.completed + {op})
      else s
    case Fail(op) =>
      if File(op, Running) in s.files then s.(files := Renamed(s.files, op, Running, Failed)) else s
  }

  function Returned(decode: Decoder, s: State, r: nat, ok: bool): State
    requires Enabled(s, Read(r, ok))
  {
    var pc := s.runners[r];
    if ok && decode(s.files[File(pc.op, Running)].text).Some?
    then s.(runners := s.runners[r := Idle],
            claims := s.claims + [Claim(pc.op, decode(s.files[File(pc.op, Running)].text).value)])
    else s.(runners := s.runners[r := Spoiled(pc.op, pc.rest)])
  }

  predicate IsRun(decode: Decoder, run: seq<State>, steps: seq<Step>) {
    && |run| == |steps| + 1
    && Init(run[0])
    && forall i :: 0 <= i < |steps| ==> Enabled(run[i], steps[i]) && run[i + 1] == Apply(decode, run[i], steps[i])
  }

  // ---------------------------------------------------------------- what every step keeps

  // Every enqueued operation is one file, or was cancelled, or was completed; and only one of these.
  ghost predicate Conserved(s: State) {
    OnePlace(s) && AllFiled(s)
  }

  ghost predicate OnePlace(s: State) {
    && (forall f :: f in s.files ==> f.op in s.enqueued && s.files[f].text == s.enqueued[f.op])
    && (forall f, g :: f in s.files && g in s.files && f.op == g.op ==> f == g)
    && (forall f :: f in s.files ==> f.op !in s.cancelled && f.op !in s.completed)
    && s.cancelled !! s.completed
    && (forall op :: op in s.cancelled + s.completed ==> op in s.enqueued)
  }

  ghost predicate AllFiled(s: State) {
    forall op :: op in s.enqueued ==> op in s.cancelled || op in s.completed || Filed(s.files, op)
  }

  ghost predicate Filed(files: Files, op: string) {
    exists p :: File(op, p) in files
  }

  // The operation has left the pending place for good, and not by a cancel.
  predicate Taken(s: State, op: string) {
    && op in s.enqueued
    && op !in s.cancelled
    && File(op, Temporary) !in s.files
    && File(op, Pending) !in s.files
  }

  // The entry a runner is about to read.
  predicate Holds(s: State, r: nat, op: string) {
    r in s.runners && s.runners[r].Reading? && s.runners[r].op == op
  }

  ghost predicate Claimed(decode: Decoder, s: State) {
    && (forall i :: 0 <= i < |s.claims| ==>
          Taken(s, s.claims[i].op) && decode(s.enqueued[s.claims[i].op]) == Some(s.claims[i].entry))
    && (forall i, j :: 0 <= i < j < |s.claims| ==> s.claims[i].op != s.claims[j].op)
    && (forall r, op :: Holds(s, r, op) ==> Taken(s, op))
    && (forall r, op, i :: Holds(s, r, op) && 0 <= i < |s.claims| ==> s.claims[i].op != op)
    && (forall r, q, op :: Holds(s, r, op) && Holds(s, q, op) ==> r == q)
  }

  ghost predicate Inv(decode: Decoder, s: State) {
    Conserved(s) && Claimed(decode, s)
  }

  lemma RenamedConserves(s: State, op: string, from: Place, to: Place, t: State)
    requires Conserved(s) && File(op, from) in s.files
    requires t.files == Renamed(s.files, op, from, to)
    requires t.enqueued == s.enqueued && t.cancelled == s.cancelled && t.completed == s.completed
    ensures Conserved(t)
  {
    assert OnePlace(t);
    assert File(op, to) in t.files;
    OthersFiled(s.files, t.files, op);
  }

  lemma RemovedConserves(s: State, op: string, from: Place, t: State)
    requires Conserved(s) && File(op, from) in s.files
    requires t.files == Removed(s.files, File(op, from)) && t.enqueued == s.enqueued
    requires (t.cancelled == s.cancelled + {op} && t.completed == s.completed)
          || (t.cancelled == s.cancelled && t.completed == s.completed + {op})
    ensures Conserved(t)
  {
    assert OnePlace(t);
    OthersFiled(s.files, t.files, op);
  }

  lemma WriteConserves(s: State, op: string, stored: Stored, t: State)
    requires Conserved(s) && op !in s.enqueued
    requires t.files == s.files[File(op, Temporary) := stored] && t.enqueued == s.enqueued[op := stored.text]
    requires t.cancelled == s.cancelled && t.completed == s.completed
    ensures Conserved(t)
  {
    assert OnePlace(t);
    assert File(op, Temporary) in t.files;
    OthersFiled(s.files, t.files, op);
  }

  // Every other operation is filed as before.
  lemma OthersFiled(files: Files, after: Files, op: string)
    requires forall f :: f in files && f.op != op ==> f in after
    ensures forall o :: o != op && Filed(files, o) ==> Filed(after, o)
  {
    forall o | o != op && Filed(files, o) ensures Filed(after, o) {
      var p :| File(o, p) in files;
      assert File(o, p) in after;
    }
  }

  lemma ConservedStep(decode: Decoder, s: State, step: Step)
    requires Conserved(s) && Enabled(s, step)
    ensures Conserved(Apply(decode, s, step))
  {
    var t := Apply(decode, s, step);
    match step
    case Write(op, text, mtime) => WriteConserves(s, op, Stored(text, mtime), t);
    case Publish(op) => RenamedConserves(s, op, Temporary, Pending, t);
    case Cancel(op) => if File(op, Pending) in s.files { RemovedConserves(s, op, Pending, t); }
    case Take(r, effect) => if effect { RenamedConserves(s, s.runners[r].rest[0], Pending, Running, t); }
    case Spoil(r) => RenamedConserves(s, s.runners[r].op, Running, Corrupt, t);
    case Complete(op) => if File(op, Running) in s.files { RemovedConserves(s, op, Running, t); }
    case Fail(op) => if File(op, Running) in s.files { RenamedConserves(s, op, Running, Failed, t); }
    case _ =>
  }

  // No step brings a taken operation back.
  lemma TakenStays(decode: Decoder, s: State, step: Step, op: string)
    requires Conserved(s) && Enabled(s, step) && Taken(s, op)
    ensures Taken(Apply(decode, s, step), op)
  {
  }

  // A step that leaves claims and readers alone keeps what is known of them.
  lemma QuietStep(decode: Decoder, s: State, step: Step)
    requires Inv(decode, s) && Enabled(s, step) && !step.Read? && !(step.Take? && step.effect)
    ensures Claimed(decode, Apply(decode, s, step))
  {
    var t := Apply(decode, s, step);
    forall op | Taken(s, op) ensures Taken(t, op) { TakenStays(decode, s, step, op); }
    assert forall r, op :: Holds(t, r, op) ==> Holds(s, r, op);
    assert t.claims == s.claims;
    assert forall op :: op in s.enqueued ==> op in t.enqueued && t.enqueued[op] == s.enqueued[op];
  }

  // The rename succeeds for one runner only, so the taker is the only holder.
  lemma TakeStep(decode: Decoder, s: State, r: nat)
    requires Inv(decode, s) && Enabled(s, Take(r, true))
    ensures Claimed(decode, Apply(decode, s, Take(r, true)))
  {
    var t := Apply(decode, s, Take(r, true));
    var op := s.runners[r].rest[0];
    assert !Taken(s, op);
    assert Taken(t, op) by {
      assert s.files[File(op, Pending)].text == s.enqueued[op];
    }
    forall o | Taken(s, o) ensures Taken(t, o) { TakenStays(decode, s, Take(r, true), o); }
    assert forall q, o :: Holds(t, q, o) ==> (q == r && o == op) || (q != r && Holds(s, q, o));
  }

  lemma ReadStep(decode: Decoder, s: State, r: nat, ok: bool)
    requires Inv(decode, s) && Enabled(s, Read(r, ok))
    ensures Claimed(decode, Apply(decode, s, Read(r, ok)))
  {
    var t := Apply(decode, s, Read(r, ok));
    assert Holds(s, r, s.runners[r].op);
    assert forall o :: Taken(s, o) <==> Taken(t, o);
    assert forall q, o :: Holds(t, q, o) ==> q != r && Holds(s, q, o);
  }

  lemma InvStep(decode: Decoder, s: State, step: Step)
    requires Inv(decode, s) && Enabled(s, step)
    ensures Inv(decode, Apply(decode, s, step))
  {
    ConservedStep(decode, s, step);
    match step
    case Take(r, effect) => if effect { TakeStep(decode, s, r); } else { QuietStep(decode, s, step); }
    case Read(r, ok) => ReadStep(decode, s, r, ok);
    case _ => QuietStep(decode, s, step);
  }

  lemma {:induction false} RunInv(decode: Decoder, run: seq<State>, steps: seq<Step>, n: nat)
    requires IsRun(decode, run, steps) && n < |run|
    ensures Inv(decode, run[n])
  {
    if n > 0 {
      RunInv(decode, run, steps, n - 1);
      InvStep(decode, run[n - 1], steps[n - 1]);
    }
  }

  // ---------------------------------------------------------------- whole runs

  // Each operation is returned by at most one claim of the whole run, with the entry that was enqueued.
  lemma ClaimedAtMostOnce(decode: Decoder, run: seq<State>, steps: seq<Step>, n: nat, i: nat, j: nat)
    requires IsRun(decode, run, steps) && n < |run| && i < |run[n].claims| && j < |run[n].claims|
    ensures run[n].claims[i].op == run[n].claims[j].op ==> i == j
    ensures run[n].claims[i].op in run[n].enqueued
    ensures decode(run[n].enqueued[run[n].claims[i].op]) == Some(run[n].claims[i].entry)
  {
    RunInv(decode, run, steps, n);
  }

  // Where an enqueued operation is.
  datatype Status = InFile(place: Place) | WasCancelled | WasCompleted

  predicate HasStatus(s: State, op: string, status: Status) {
    match status
    case InFile(p) => File(op, p) in s.files
    case WasCancelled => op in s.cancelled
    case WasCompleted => op in s.completed
  }

  // Nothing is lost and nothing is doubled: each enqueued operation has exactly one status, and its text is intact.
  lemma ExactlyOneStatus(decode: Decoder, run: seq<State>, steps: seq<Step>, n: nat, op: string)
    returns (status: Status)
    requires IsRun(decode, run, steps) && n < |run| && op in run[n].enqueued
    ensures HasStatus(run[n], op, status)
    ensures forall other :: HasStatus(run[n], op, other) ==> other == status
    ensures status.InFile? ==> run[n].files[File(op, status.place)].text == run[n].enqueued[op]
  {
    RunInv(decode, run, steps, n);
    if op in run[n].cancelled {
      status := WasCancelled;
    } else if op in run[n].completed {
      status := WasCompleted;
    } else {
      var p :| File(op, p) in run[n].files;
      status := InFile(p);
    }
  }

  // A runner has this operation in hand.
  predicate InHand(s: State, r: nat, op: string) {
    r in s.runners && (s.runners[r].Reading? || s.runners[r].Spoiled?) && s.runners[r].op == op
  }

  // How an operation's file can leave its place: published, cancelled or claimed, completed, failed or set aside by the
  // runner that has it in hand. Failed and corrupt ones stay.
  lemma PlaceChanges(decode: Decoder, run: seq<State>, steps: seq<Step>, n: nat, op: string, place: Place)
    requires IsRun(decode, run, steps) && n < |steps|
    requires File(op, place) in run[n].files && File(op, place) !in run[n + 1].files
    ensures var s, t, step := run[n], run[n + 1], steps[n];
            match place
            case Temporary => step == Publish(op) && File(op, Pending) in t.files
            case Pending =>
              || (step == Cancel(op) && op in t.cancelled)
              || (step.Take? && step.effect && Holds(t, step.r, op) && File(op, Running) in t.files)
            case Running =>
              || (step == Complete(op) && op in t.completed)
              || (step == Fail(op) && File(op, Failed) in t.files)
              || (step.Spoil? && InHand(s, step.r, op) && File(op, Corrupt) in t.files)
            case _ => false
  {
    assert run[n + 1] == Apply(decode, run[n], steps[n]);
    RunInv(decode, run, steps, n);
  }

  // A read that succeeds claims the entry exactly if its text can be decoded; otherwise the runner sets it aside next.
  lemma ReadClaimsIff(decode: Decoder, run: seq<State>, steps: seq<Step>, n: nat, r: nat, ok: bool)
    requires IsRun(decode, run, steps) && n < |steps| && steps[n] == Read(r, ok)
    ensures InHand(run[n], r, run[n].runners[r].op) && run[n + 1].files == run[n].files
    ensures var op := run[n].runners[r].op;
            if ok && File(op, Running) in run[n].files && decode(run[n].files[File(op, Running)].text).Some?
            then
              && run[n + 1].claims ==
                 run[n].claims + [Claim(op, decode(run[n].files[File(op, Running)].text).value)]
              && run[n + 1].runners == run[n].runners[r := Idle]
            else
              && run[n + 1].claims == run[n].claims
              && run[n + 1].runners == run[n].runners[r := Spoiled(op, run[n].runners[r].rest)]
  {
    assert Enabled(run[n], steps[n]) && run[n + 1] == Apply(decode, run[n], steps[n]);
  }

  lemma {:induction false} HistoryGrows(decode: Decoder, run: seq<State>, steps: seq<Step>, m: nat, n: nat)
    requires IsRun(decode, run, steps) && m <= n < |run|
    ensures run[m].cancelled <= run[n].cancelled
    ensures run[m].claims <= run[n].claims
  {
    if m < n {
      HistoryGrows(decode, run, steps, m, n - 1);
      assert run[n] == Apply(decode, run[n - 1], steps[n - 1]);
    }
  }

  // Cancelling takes effect exactly on a pending entry, which is then never claimed; it touches nothing else.
  lemma CancelTouchesOnlyPending(decode: Decoder, run: seq<State>, steps: seq<Step>, m: nat, n: nat, op: string)
    requires IsRun(decode, run, steps) && m < n < |run| && steps[m] == Cancel(op)
    ensures forall f :: f != File(op, Pending) ==> (f in run[m].files <==> f in run[m + 1].files)
    ensures forall f :: f in run[m + 1].files ==> run[m + 1].files[f] == run[m].files[f]
    ensures File(op, Pending) !in run[m + 1].files
    ensures run[m + 1].runners == run[m].runners && run[m + 1].claims == run[m].claims
    ensures File(op, Pending) in run[m].files ==> forall i :: 0 <= i < |run[n].claims| ==> run[n].claims[i].op != op
  {
    assert run[m + 1] == Apply(decode, run[m], steps[m]);
    HistoryGrows(decode, run, steps, m + 1, n);
    RunInv(decode, run, steps, n);
  }

  // ---------------------------------------------------------------- one runner

  predicate Readable(decode: Decoder, files: Files, op: string) {
    File(op, Pending) in files && decode(files[File(op, Pending)].text).Some?
  }

  predicate Older(files: Files, a: string, b: string) {
    File(a, Pending) in files && File(b, Pending) in files
        && files[File(a, Pending)].mtime <= files[File(b, Pending)].mtime
  }

  // Different pending entries.
  ghost predicate Listed(files: Files, ops: seq<string>) {
    && (forall op :: op in ops ==> File(op, Pending) in files)
    && (forall i, j :: 0 <= i < j < |ops| ==> ops[i] != ops[j])
  }

  lemma ListedPrefix(files: Files, ops: seq<string>)
    requires Listed(files, ops) && ops != []
    ensures Listed(files, ops[..|ops| - 1])
    ensures ops[|ops| - 1] !in ops[..|ops| - 1]
    ensures File(ops[|ops| - 1], Pending) in files
    ensures forall op :: op in ops ==> op in ops[..|ops| - 1] || op == ops[|ops| - 1]
  {
  }

  // The files after these entries, in this order, were found unreadable.
  ghost function Spoilt(files: Files, ops: seq<string>): (r: Files)
    requires Listed(files, ops)
    ensures forall f: File :: f in files && f.op !in ops ==> f in r && r[f] == files[f]
    ensures forall f: File :: f in r && f.op !in ops ==> f in files
    ensures forall op :: op in ops ==> File(op, Pending) !in r && File(op, Corrupt) in r
                                       && r[File(op, Corrupt)] == files[File(op, Pending)]
  {
    if ops == [] then files
    else
      ListedPrefix(files, ops);
      SetAside(Spoilt(files, ops[..|ops| - 1]), ops[|ops| - 1])
  }

  // An unreadable entry passes through the running place, as any claimed entry does.
  function SetAside(files: Files, op: string): (r: Files)
    requires File(op, Pending) in files
    ensures File(op, Pending) !in r && File(op, Corrupt) in r && r[File(op, Corrupt)] == files[File(op, Pending)]
    ensures forall f: File :: f.op != op ==> (f in r <==> f in files)
    ensures forall f: File :: f.op != op && f in r ==> r[f] == files[f]
  {
    Renamed(Renamed(files, op, Pending, Running), op, Running, Corrupt)
  }

  // The pending entries in the order of their modification times.
  ghost predicate OldestFirst(files: Files, ops: seq<string>) {
    && (forall op :: op in ops <==> File(op, Pending) in files)
    && (forall i, j :: 0 <= i < j < |ops| ==> ops[i] != ops[j] && Older(files, ops[i], ops[j]))
  }

  lemma NextIsNew(files: Files, ops: seq<string>, k: nat)
    requires OldestFirst(files, ops) && k < |ops|
    ensures ops[k] !in ops[..k] && File(ops[k], Pending) in files
    ensures ops[..k] + [ops[k]] == ops[..k + 1]
  {
  }

  // These pending entries, all unreadable, have been set aside and nothing else has happened.
  ghost predicate Skipped(decode: Decoder, before: Files, ops: seq<string>, after: Files) {
    && Listed(before, ops)
    && (forall op :: op in ops ==> !Readable(decode, before, op))
    && after == Spoilt(before, ops)
  }

  predicate OldestReadable(decode: Decoder, files: Files, op: string) {
    && File(op, Pending) in files
    && Readable(decode, files, op)
    && forall f :: f in files && f.place == Pending && Readable(decode, files, f.op) ==> Older(files, op, f.op)
  }

  lemma StillPending(decode: Decoder, before: Files, ops: seq<string>, after: Files, op: string)
    requires Skipped(decode, before, ops, after) && File(op, Pending) in before && op !in ops
    ensures File(op, Pending) in after && after[File(op, Pending)] == before[File(op, Pending)]
  {
  }

  lemma SkippedOneMore(decode: Decoder, before: Files, ops: seq<string>, after: Files, op: string)
    requires Skipped(decode, before, ops, after) && File(op, Pending) in before && op !in ops
    requires !Readable(decode, before, op)
    ensures File(op, Pending) in after
    ensures Skipped(decode, before, ops + [op], SetAside(after, op))
  {
    StillPending(decode, before, ops, after, op);
    ListedOneMore(before, ops, op);
    SpoiltOneMore(before, ops, op);
    forall o | o in ops + [op] ensures !Readable(decode, before, o) {
      assert o in ops || o == op;
    }
  }

  lemma SpoiltOneMore(files: Files, ops: seq<string>, op: string)
    requires Listed(files, ops) && Listed(files, ops + [op]) && File(op, Pending) in Spoilt(files, ops)
    ensures Spoilt(files, ops + [op]) == SetAside(Spoilt(files, ops), op)
  {
    var more := ops + [op];
    assert more[..|more| - 1] == ops && more[|more| - 1] == op;
  }

  lemma ListedOneMore(files: Files, ops: seq<string>, op: string)
    requires Listed(files, ops) && File(op, Pending) in files && op !in ops
    ensures Listed(files, ops + [op])
  {
  }

  class OperationQueue {
    var files: Files
    const decode: Decoder
    const encode: QueueEntry -> string

    constructor (encode: QueueEntry -> string, decode: Decoder)
      ensures files == map[] && this.encode == encode && this.decode == decode
    {
      this.encode, this.decode, files := encode, decode, map[];
    }

    method Enqueue(entry: QueueEntry, now: int)
      modifies this
      ensures files ==
                Removed(old(files),
                File(entry.opId, Temporary))[File(entry.opId, Pending) := Stored(encode(entry), now)]
    {
      files := files[File(entry.opId, Temporary) := Stored(encode(entry), now)];
      files := Renamed(files, entry.opId, Temporary, Pending);
    }

    method Cancel(op: string)
      modifies this
      ensures files == Removed(old(files), File(op, Pending))
    {
      files := Removed(files, File(op, Pending));
    }

    method Complete(op: string)
      modifies this
      ensures files == Removed(old(files), File(op, Running))
    {
      if File(op, Running) in files {
        files := Removed(files, File(op, Running));
      }
    }

    method Fail(op: string)
      modifies this
      ensures files == if File(op, Running) in old(files) then Renamed(old(files), op, Running, Failed) else old(files)
    {
      if File(op, Running) in files {
        files := Renamed(files, op, Running, Failed);
      }
    }

    // Where an entry of this modification time goes in the sorted list, behind entries as old as itself.
    method Slot(ops: seq<string>, op: string) returns (at: nat)
      requires File(op, Pending) in files
      requires forall i, j :: 0 <= i < j < |ops| ==> Older(files, ops[i], ops[j])
      requires forall i :: 0 <= i < |ops| ==> File(ops[i], Pending) in files
      ensures at <= |ops|
      ensures forall i :: 0 <= i < at ==> Older(files, ops[i], op)
      ensures forall i :: at <= i < |ops| ==> Older(files, op, ops[i])
    {
      at := 0;
      while at < |ops| && files[File(ops[at], Pending)].mtime <= files[File(op, Pending)].mtime
        invariant at <= |ops|
        invariant forall i :: 0 <= i < at ==> Older(files, ops[i], op)
      {
        at := at + 1;
      }
      if at < |ops| {
        forall i | at <= i < |ops| ensures Older(files, op, ops[i]) {
          assert i == at || Older(files, ops[at], ops[i]);
        }
      }
    }

    // The pending entries, oldest first.
    method Candidates() returns (ops: seq<string>)
      ensures OldestFirst(files, ops)
    {
      ops := [];
      var left := set f | f in files && f.place == Pending;
      while left != {}
        invariant forall f :: f in left ==> f in files && f.place == Pending && f.op !in ops
        invariant forall op :: op in ops ==> File(op, Pending) in files
        invariant forall f :: f in files && f.place == Pending ==> f in left || f.op in ops
        invariant forall i, j :: 0 <= i < j < |ops| ==> ops[i] != ops[j] && Older(files, ops[i], ops[j])
      {
        var f :| f in left;
        var at := Slot(ops, f.op);
        ops := ops[..at] + [f.op] + ops[at..];
        left := left - {f};
      }
    }

    // Rename, then read; an entry that cannot be read is set aside.
    method Claim(path: string) returns (entry: Option<QueueEntry>)
      requires File(path, Pending) in files
      modifies this
      ensures entry == decode(old(files)[File(path, Pending)].text)
      ensures files == if entry.Some? then Renamed(old(files), path, Pending, Running) else SetAside(old(files), path)
    {
      files := Renamed(files, path, Pending, Running);
      entry := decode(files[File(path, Running)].text);
      if entry.None? {
        files := Renamed(files, path, Running, Corrupt);
      }
    }

    // Try one candidate, after those before it were set aside.
    method ClaimCandidate(candidates: seq<string>, k: nat, ghost before: Files) returns (entry: Option<QueueEntry>)
      requires k < |candidates| && OldestFirst(before, candidates) && Skipped(decode, before, candidates[..k], files)
      modifies this
      ensures entry.None? ==> Skipped(decode, before, candidates[..k + 1], files)
      ensures entry.Some? ==>
                OldestReadable(decode, before, candidates[k])
                && entry == decode(before[File(candidates[k], Pending)].text)
      ensures entry.Some? ==> forall o :: o in candidates[..k] ==> Older(before, o, candidates[k])
      ensures entry.Some? ==> Taking(decode, before, candidates[..k], candidates[k], files)
    {
      NextIsNew(before, candidates, k);
      StillPending(decode, before, candidates[..k], files, candidates[k]);
      ghost var now := files;
      entry := Claim(candidates[k]);
      if entry.Some? {
        FirstReadable(decode, before, candidates, k);
      } else {
        SkippedOneMore(decode, before, candidates[..k], now, candidates[k]);
      }
    }

    // The runner gets the oldest readable entry. Only unreadable entries no younger than it are set aside; without a
    // readable entry all are. Every other file is as it was.
    method ClaimNext() returns (entry: Option<QueueEntry>, ghost op: string, ghost skipped: seq<string>)
      modifies this
      ensures entry.None? ==> Skipped(decode, old(files), skipped, files)
      ensures entry.None? ==> forall o :: File(o, Pending) in old(files) ==> o in skipped
      ensures entry.Some? ==>
                OldestReadable(decode, old(files), op) && entry == decode(old(files)[File(op, Pending)].text)
      ensures entry.Some? ==> forall o :: o in skipped ==> Older(old(files), o, op)
      ensures entry.Some? ==> Taking(decode, old(files), skipped, op, files)
    {
      var candidates := Candidates();
      ghost var before := files;
      skipped, op := [], "";
      var k := 0;
      while k < |candidates|
        invariant k <= |candidates| && skipped == candidates[..k]
        invariant Skipped(decode, before, skipped, files)
      {
        op := candidates[k];
        entry := ClaimCandidate(candidates, k, before);
        if entry.Some? {
          return;
        }
        k := k + 1;
        skipped := candidates[..k];
      }
      entry := None;
      assert candidates[..k] == candidates;
    }
  }

  // The entry left the pending place after those skipped.
  ghost predicate Taking(decode: Decoder, before: Files, skipped: seq<string>, op: string, after: Files) {
    && Listed(before, skipped) && op !in skipped && File(op, Pending) in before
    && Skipped(decode, before, skipped, Spoilt(before, skipped))
    && after == Renamed(Spoilt(before, skipped), op, Pending, Running)
  }

  lemma FirstReadable(decode: Decoder, files: Files, ops: seq<string>, k: nat)
    requires k < |ops|
    requires OldestFirst(files, ops)
    requires forall o :: o in ops[..k] ==> !Readable(decode, files, o)
    requires Readable(decode, files, ops[k])
    ensures OldestReadable(decode, files, ops[k])
    ensures forall o :: o in ops[..k] ==> Older(files, o, ops[k])
  {
    forall f | f in files && f.place == Pending && Readable(decode, files, f.op) ensures Older(files, ops[k], f.op) {
      assert f == File(f.op, Pending);
      var i :| 0 <= i < |ops| && ops[i] == f.op;
      BehindUnreadable(decode, files, ops, k, i);
    }
  }

  lemma BehindUnreadable(decode: Decoder, files: Files, ops: seq<string>, k: nat, i: nat)
    requires k < |ops| && i < |ops|
    requires forall op :: op in ops ==> File(op, Pending) in files
    requires forall o :: o in ops[..k] ==> !Readable(decode, files, o)
    ensures Readable(decode, files, ops[i]) ==> k <= i
  {
    if i < k {
      assert ops[..k][i] == ops[i];
    }
  }
}
