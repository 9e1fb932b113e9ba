/**
 The local WAL receipts: immutable files published by a hard link, which never replaces an existing path.

 The first half runs any number of writers, one file-system call per step, and shows that they share the
 first-writer-wins map that the archive keeps.  The second half is the store object, with other writers at work between
 its calls.
 */
module ReceiptStore {
  import opened Option
  import WalArchive

  type Path = string
  type WriterId = nat

  // What a path names: a regular file, or anything else.
  datatype Node = Regular(text: string) | Special

  type Files = map<Path, Node>

  // ---------------------------------------------------------------- many writers

  // The temporary file is written in full before the link is tried, and belongs to its writer alone.
  datatype Pc =
    | Idle
    | Linking(path: Path, payload: string)
    | Linked(path: Path, payload: string)
    | Colliding(path: Path, payload: string)

  // What _write_immutable returned: None for a publication, or the text found.
  datatype Result = Result(path: Path, payload: string, existing: Option<string>)

  datatype State = State(files: Files, writers: map<WriterId, Pc>, results: seq<Result>)

  datatype Step =
    | Begin(w: WriterId, path: Path, payload: string)
    | Link(w: WriterId)
    | Return(w: WriterId)
    | Read(w: WriterId)
    | Stop(w: WriterId)

  // Any paths may exist already, of any kind.
  predicate Init(s: State) {
    s.results == [] && forall w :: w in s.writers ==> s.writers[w].Idle?
  }

  predicate Enabled(s: State, step: Step) {
    && step.w in s.writers
    && match step
       case Begin(w, _, _) => s.writers[w].Idle?
       case Link(w) => s.writers[w].Linking?
       case Return(w) => s.writers[w].Linked?
       // Only a regular file is read; for anything else the call raises.
       case Read(w) => s.writers[w].Colliding? && s.writers[w].path in s.files && s.files[s.writers[w].path].Regular?
       // An exception or a crash at any call; a link that took effect stays.
       case Stop(_) => true
  }

  function Apply(s: State, step: Step): State
    requires Enabled(s, step)
  {
    match step
    case Begin(w, path, payload) => s.(writers := s.writers[w := Linking(path, payload)])
    case Link(w) =>
      var pc := s.writers[w];
      State(WalArchive.FirstWriter(s.files, pc.path, Regular(pc.payload)),
            s.writers[w := if pc.path in s.files then Colliding(pc.path, pc.payload) else Linked(pc.path, pc.payload)],
            s.results)
    case Return(w) =>
      var pc := s.writers[w];
      s.(writers := s.writers[w := Idle], results := s.results + [Result(pc.path, pc.payload, None)])
    case Read(w) =>
      var pc := s.writers[w];
      s.(writers := s.writers[w := Idle],
          results := s.results + [Result(pc.path, pc.payload, Some(s.files[pc.path].text))])
    case Stop(w) => s.(writers := s.writers[w := Idle])
  }

  predicate IsRun(run: seq<State>, steps: seq<Step>) {
    && |run| == |steps| + 1
    && Init(run[0])
    && forall i :: 0 <= i < |steps| ==> Enabled(run[i], steps[i]) && run[i + 1] == Apply(run[i], steps[i])
  }

  // This text is what the path names.
  predicate Holds(s: State, path: Path, text: string) {
    path in s.files && s.files[path] == Regular(text)
  }

  ghost predicate ResultsOk(s: State) {
    && (forall i :: 0 <= i < |s.results| ==>
        Holds(s, s.results[i].path, s.results[i].existing.GetOr(s.results[i].payload)))
    && (forall i, j :: 0 <= i < j < |s.results| && s.results[i].existing.None? && s.results[j].existing.None? ==>
          s.results[i].path != s.results[j].path)
  }

  // A writer whose link took effect is the only one that published this path.
  ghost predicate WriterOk(s: State, w: WriterId) {
    w in s.writers && s.writers[w].Linked? ==>
      && Holds(s, s.writers[w].path, s.writers[w].payload)
      && (forall i :: 0 <= i < |s.results| && s.results[i].existing.None? ==> s.results[i].path != s.writers[w].path)
      && (forall v :: v in s.writers && v != w && s.writers[v].Linked? ==> s.writers[v].path != s.writers[w].path)
  }

  ghost predicate Inv(s: State) {
    ResultsOk(s) && forall w :: w in s.writers ==> WriterOk(s, w)
  }

  lemma StepKeepsFiles(s: State, step: Step, path: Path)
    requires Enabled(s, step) && path in s.files
    ensures path in Apply(s, step).files && Apply(s, step).files[path] == s.files[path]
  {
  }

  lemma ResultsStep(s: State, step: Step)
    requires Inv(s) && Enabled(s, step)
    ensures ResultsOk(Apply(s, step))
  {
    assert WriterOk(s, step.w);
  }

  lemma WritersStep(s: State, step: Step, w: WriterId)
    requires Inv(s) && Enabled(s, step) && w in s.writers
    ensures WriterOk(Apply(s, step), w)
  {
    assert WriterOk(s, w) && WriterOk(s, step.w);
  }

  lemma InvStep(s: State, step: Step)
    requires Inv(s) && Enabled(s, step)
    ensures Inv(Apply(s, step))
  {
    ResultsStep(s, step);
    forall w | w in Apply(s, step).writers ensures WriterOk(Apply(s, step), w) {
      WritersStep(s, step, w);
    }
  }

  lemma {:induction false} RunInv(run: seq<State>, steps: seq<Step>, n: nat)
    requires IsRun(run, steps) && n < |run|
    ensures Inv(run[n])
  {
    if n > 0 {
      RunInv(run, steps, n - 1);
      InvStep(run[n - 1], steps[n - 1]);
    }
  }

  // Whatever a path names, it names for the rest of the run.
  lemma {:induction false} NeverReplaced(run: seq<State>, steps: seq<Step>, m: nat, n: nat, path: Path)
    requires IsRun(run, steps) && m <= n < |run| && path in run[m].files
    ensures path in run[n].files && run[n].files[path] == run[m].files[path]
  {
    if m < n {
      NeverReplaced(run, steps, m, n - 1, path);
      StepKeepsFiles(run[n - 1], steps[n - 1], path);
    }
  }

  // Of all racing writers at most one publishes a path, and every other one that returns is given the text it
  // published.
  lemma OnePublisher(run: seq<State>, steps: seq<Step>, n: nat, i: nat, j: nat)
    requires IsRun(run, steps) && n < |run| && i < |run[n].results| && j < |run[n].results|
    requires i != j && run[n].results[i].path == run[n].results[j].path && run[n].results[i].existing.None?
    ensures run[n].results[j].existing == Some(run[n].results[i].payload)
  {
    RunInv(run, steps, n);
  }

  // ---------------------------------------------------------------- saving receipts

  datatype Verdict = Saved | Invalid | Conflict

  // save_wal_receipt, given what the publication returned.
  function Judge<R(==)>(decode: string -> Option<R>, receipt: R, existing: Option<string>): Verdict {
    match existing
    case None => Saved
    case Some(text) =>
      match decode(text)
      case None => Invalid
      case Some(current) => if current == receipt then Saved else Conflict
  }

  // Two writers that save a receipt under one path have saved the same receipt, and it is the one stored.
  lemma SavedReceiptsAgree<R>(encode: R -> string, decode: string -> Option<R>, run: seq<State>, steps: seq<Step>,
                              n: nat, i: nat, j: nat, a: R, b: R)
    requires forall r :: decode(encode(r)) == Some(r)
    requires IsRun(run, steps) && n < |run| && i < |run[n].results| && j < |run[n].results|
    requires run[n].results[i].path == run[n].results[j].path
    requires run[n].results[i].payload == encode(a) && run[n].results[j].payload == encode(b)
    requires Judge(decode, a, run[n].results[i].existing).Saved? && Judge(decode, b, run[n].results[j].existing).Saved?
    ensures a == b
    ensures var path := run[n].results[i].path;
            path in run[n].files && run[n].files[path].Regular? && decode(run[n].files[path].text) == Some(a)
  {
    RunInv(run, steps, n);
    assert Holds(run[n], run[n].results[i].path, run[n].results[i].existing.GetOr(encode(a)));
    assert Holds(run[n], run[n].results[j].path, run[n].results[j].existing.GetOr(encode(b)));
  }

  // ---------------------------------------------------------------- the store

  datatype Outcome = Published | Collision(text: string) | NotRegular | Failed

  class ReceiptStore<R(==)> {
    var files: Files
    const encode: R -> string
    const decode: string -> Option<R>

    constructor (encode: R -> string, decode: string -> Option<R>, files: Files)
      ensures this.files == files && this.encode == encode && this.decode == decode
    {
      this.encode, this.decode, this.files := encode, decode, files;
    }

    // Whatever other writers publish meanwhile.
    method Others()
      modifies this
      ensures Extends(old(files), files)
    {
      var n: nat := *;
      while n > 0
        invariant Extends(old(files), files)
      {
        var path: Path := *;
        var node: Node := *;
        files := WalArchive.FirstWriter(files, path, node);
        n := n - 1;
      }
    }

    // Publish once; report the existing text on collision. This writer changes no path but its own, and that one only
    // if it named nothing.
    method WriteImmutable(path: Path, payload: string) returns (r: Outcome)
      modifies this
      ensures Extends(old(files), files)
      ensures r.Published? ==> path !in old(files) && path in files && files[path] == Regular(payload)
      ensures r.Collision? ==> path in files && files[path] == Regular(r.text)
      ensures r.NotRegular? ==> path in files && files[path].Special?
    {
      Others();
      if * {
        return Failed;
      }
      if path !in files {
        files := files[path := Regular(payload)];
        // Syncing the directory may fail afterwards.
        if * {
          return Failed;
        }
        return Published;
      }
      Others();
      match files[path]
      case Special => return NotRegular;
      case Regular(text) =>
        if * {
          return Failed;
        }
        return Collision(text);
    }

    // Saved means the receipt stored under the path, now and for good, is this one; the other answers say why not.
    method SaveReceipt(path: Path, receipt: R) returns (verdict: Option<Verdict>)
      requires forall r :: decode(encode(r)) == Some(r)
      modifies this
      ensures Extends(old(files), files)
      ensures verdict.Some? ==> path in files && files[path].Regular?
      ensures verdict.Some? ==>
                && (verdict.value.Saved? <==> decode(files[path].text) == Some(receipt))
                && (verdict.value.Invalid? <==> decode(files[path].text) == None)
      ensures path in old(files) && old(files)[path] == Regular(encode(receipt)) && verdict.Some? ==>
                verdict.value.Saved?
    {
      var written := WriteImmutable(path, encode(receipt));
      match written
      case Published => return Some(Saved);
      case Collision(text) => return Some(Judge(decode, receipt, Some(text)));
      case _ => return None;
    }
  }

  // Nothing that existed has changed.
  ghost predicate Extends(before: Files, after: Files) {
    forall path :: path in before ==> path in after && after[path] == before[path]
  }
}
