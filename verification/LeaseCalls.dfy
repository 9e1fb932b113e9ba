/**
 What a call does with the arguments it was given, over every run: whatever takes effect and whatever a call answers is
 traced back to the beginning of that call and to the read it made.
 */
module LeaseCalls {
  import opened Option
  import opened LeaseProtocol
  import opened LeaseSafety
  import Codec = CoordinationCodec

  // The write that a handle names.
  function Named(h: Handle): Write {
    Write(h.doc, h.etag, h.acquiredAt)
  }

  function NextGeneration(doc: Lease): Lease {
    doc.(generation := doc.generation + 1)
  }

  // The confirmation that a recovery of this lease needs.
  function Repeated(doc: Lease): Confirmation {
    Confirmation(doc.id, doc.owner, doc.purpose, Some(doc.id))
  }

  // Client c began this call at step m, and nothing has begun or stopped it since.
  ghost predicate Began(steps: seq<Step>, m: nat, n: nat, c: ClientId, call: Call) {
    && m < n <= |steps|
    && steps[m] == Begin(c, call)
    && forall i :: m < i < n && Mover(steps[i]) == Some(c) ==> !steps[i].Begin? && !steps[i].Stop?
  }

  // What a client that is in this place is doing.
  predicate Serves(pc: Pc, call: Call) {
    match pc
    case Idle => false
    case Stopped => false
    case InspectProbe => call.Inspect?
    case AcquireProbe(owner, purpose, ttl) => call == Acquire(owner, purpose, ttl)
    case RecoverProbe(confirm) => call == Recover(confirm)
    case AcquirePut(mine) => Acquires(call, mine)
    case RenewPut(current) => call.Renew? && Named(call.handle) == Named(current)
    case ReleaseDelete(current) => call.Release? && Named(call.handle) == Named(current)
    case RecoverDelete(current, confirm) => call == Recover(confirm)
    case DeleteCheck(etag, success) =>
      || (call.Release? && etag == call.handle.etag && success == Done)
      || (success.Returned? && call == Recover(Repeated(success.handle.doc)))
    case Reading(why, _) => ReadsFor(why, call)
  }

  predicate Acquires(call: Call, mine: Lease) {
    call.Acquire? && mine == Codec.Lease(mine.id, call.owner, call.purpose, 1, call.ttl)
  }

  predicate ReadsFor(why: Purpose, call: Call) {
    match why
    case InspectRead => call.Inspect?
    case AcquireBusy => call.Acquire?
    case AcquireConfirm(mine) => Acquires(call, mine)
    case AssertRead(h) => call == Assert(h)
    case RenewRead(h) => call == Renew(h)
    case RenewConfirm(mine) => call.Renew? && mine == NextGeneration(call.handle.doc)
    case ReleaseRead(h) => call == Release(h)
    case RecoverRead(confirm) => call == Recover(confirm)
  }

  predicate Busy(pc: Pc) {
    !pc.Idle? && !pc.Stopped?
  }

  lemma ReadServes(s: State, cl: Client, call: Call)
    requires cl.pc.Reading? && Serves(cl.pc, call)
    ensures var pc := AfterRead(s, cl).pc; Busy(pc) ==> Serves(pc, call)
  {
  }

  lemma StepServes(s: State, step: Step, c: ClientId, call: Call)
    requires Enabled(s, step) && Mover(step) == Some(c) && !step.Begin? && !step.Stop?
    requires Serves(s.clients[c].pc, call) && ClientOk(s, c, s.clients[c])
    ensures var pc := Apply(s, step).clients[c].pc; Busy(pc) ==> Serves(pc, call)
  {
    if step.Read? {
      ReadServes(s, s.clients[c], call);
    }
  }

  // A step of another client.
  lemma OtherMoves(s: State, step: Step, s': State, c: ClientId)
    requires Inv(s) && Next(s, step, s') && Mover(step) != Some(c)
    ensures PcOf(s', c) == PcOf(s, c) && (c in s'.clients <==> c in s.clients)
    ensures c in s.clients ==> s'.clients[c] == s.clients[c]
  {
    StepExtends(s, step);
  }

  // A step of this client: a call begins, ends, or goes on.
  lemma OwnMoves(s: State, step: Step, s': State, c: ClientId)
    requires Inv(s) && Next(s, step, s') && Mover(step) == Some(c)
    ensures c in s.clients && c in s'.clients
    ensures step.Begin? ==> Serves(s'.clients[c].pc, step.call)
    ensures step.Stop? ==> !Busy(s'.clients[c].pc)
    ensures forall call :: !step.Begin? && Serves(s.clients[c].pc, call) && Busy(s'.clients[c].pc) ==>
              Serves(s'.clients[c].pc, call)
    ensures !step.Begin? && Busy(s'.clients[c].pc) ==> Busy(s.clients[c].pc)
  {
    assert ClientOk(s, c, s.clients[c]);
    forall call | !step.Begin? && Serves(s.clients[c].pc, call) && Busy(s'.clients[c].pc)
      ensures Serves(s'.clients[c].pc, call)
    {
      StepServes(s, step, c, call);
    }
  }

  lemma BeganLater(steps: seq<Step>, m: nat, n: nat, c: ClientId, call: Call)
    requires Began(steps, m, n, c, call) && n < |steps|
    requires Mover(steps[n]) == Some(c) ==> !steps[n].Begin? && !steps[n].Stop?
    ensures Began(steps, m, n + 1, c, call)
  {
  }

  // A client that is in the middle of something is serving a call that it began.
  lemma {:induction false} CallOf(run: seq<State>, steps: seq<Step>, n: nat, c: ClientId)
    returns (m: nat, call: Call)
    requires IsRun(run, steps) && n < |run| && Busy(PcOf(run[n], c))
    ensures Began(steps, m, n, c, call) && Serves(PcOf(run[n], c), call)
  {
    if n == 0 {
      assert false;
    }
    RunInv(run, steps, n - 1);
    assert Next(run[n - 1], steps[n - 1], run[n]);
    if Mover(steps[n - 1]) == Some(c) {
      OwnMoves(run[n - 1], steps[n - 1], run[n], c);
    } else {
      OtherMoves(run[n - 1], steps[n - 1], run[n], c);
    }
    if Mover(steps[n - 1]) == Some(c) && steps[n - 1].Begin? {
      m, call := n - 1, steps[n - 1].call;
    } else {
      m, call := CallOf(run, steps, n - 1, c);
      BeganLater(steps, m, n - 1, c, call);
    }
  }

  // ---------------------------------------------------------------- handles come from reads

  // The handle a client acts on.
  function Current(pc: Pc): Option<Handle> {
    match pc
    case RenewPut(current) => Some(current)
    case ReleaseDelete(current) => Some(current)
    case RecoverDelete(current, _) => Some(current)
    case DeleteCheck(_, Returned(current)) => Some(current)
    case _ => None
  }

  ghost predicate Knows(cl: Client, h: Handle) {
    Current(cl.pc) == Some(h) || cl.held == Some(h) || h in cl.given || cl.answer == Returned(h)
  }

  // The handle describes what is stored, and when it is looked at.
  ghost predicate Reads(s: State, step: Step, c: ClientId, h: Handle) {
    step == Read(c) && s.store == Some(Named(h)) && s.clock == h.observedAt
  }

  lemma LearnsByReading(s: State, step: Step, c: ClientId, h: Handle)
    requires Inv(s) && Enabled(s, step) && Mover(step) == Some(c) && Knows(Apply(s, step).clients[c], h)
    ensures Knows(s.clients[c], h) || Reads(s, step, c, h)
  {
    if step.Read? {
      ReadTeaches(s, c, h);
    } else {
      OtherStepsTeachNothing(s, step, c, h);
    }
  }

  lemma OtherStepsTeachNothing(s: State, step: Step, c: ClientId, h: Handle)
    requires Enabled(s, step) && Mover(step) == Some(c) && !step.Read? && Knows(Apply(s, step).clients[c], h)
    ensures Knows(s.clients[c], h)
  {
  }

  lemma ReadTeaches(s: State, c: ClientId, h: Handle)
    requires Inv(s) && Enabled(s, Read(c)) && Knows(AfterRead(s, s.clients[c]), h)
    ensures Knows(s.clients[c], h) || Reads(s, Read(c), c, h)
  {
    assert ClientOk(s, c, s.clients[c]);
  }

  // Every handle that a client acts on, holds, was given or is answered is one that it read itself: the write it names
  // was stored then.
  lemma {:induction false} HandleWasRead(run: seq<State>, steps: seq<Step>, n: nat, c: ClientId, h: Handle)
    returns (k: nat)
    requires IsRun(run, steps) && n < |run| && c in run[n].clients && Knows(run[n].clients[c], h)
    ensures k < n && Reads(run[k], steps[k], c, h)
  {
    if n == 0 {
      assert false;
    }
    var s, step := run[n - 1], steps[n - 1];
    assert Next(s, step, run[n]);
    RunInv(run, steps, n - 1);
    StepExtends(s, step);
    if Mover(step) == Some(c) {
      LearnsByReading(s, step, c, h);
    }
    if Knows(s.clients[c], h) {
      k := HandleWasRead(run, steps, n - 1, c, h);
    } else {
      k := n - 1;
    }
  }

  // What the current call acts on it read since it began.
  lemma {:induction false} ActsOnOwnRead(run: seq<State>, steps: seq<Step>, m: nat, n: nat, c: ClientId, call: Call)
    returns (k: nat)
    requires IsRun(run, steps) && Began(steps, m, n, c, call)
    requires Current(PcOf(run[n], c)).Some?
    ensures m < k < n && Reads(run[k], steps[k], c, Current(PcOf(run[n], c)).value)
    decreases n
  {
    RunInv(run, steps, n - 1);
    assert Next(run[n - 1], steps[n - 1], run[n]);
    var h := Current(PcOf(run[n], c)).value;
    LearnsToAct(run[n - 1], steps[n - 1], run[n], c, h);
    if Current(PcOf(run[n - 1], c)) == Some(h) {
      k := ActsOnOwnRead(run, steps, m, n - 1, c, call);
    } else {
      k := n - 1;
    }
  }

  lemma LearnsToAct(s: State, step: Step, s': State, c: ClientId, h: Handle)
    requires Inv(s) && Next(s, step, s') && Current(PcOf(s', c)) == Some(h)
    ensures Current(PcOf(s, c)) == Some(h) || Reads(s, step, c, h)
    ensures step.Begin? ==> step.c != c
  {
    if Mover(step) != Some(c) {
      OtherMoves(s, step, s', c);
    } else if step.Read? {
      assert ClientOk(s, c, s.clients[c]);
    }
  }

  // ---------------------------------------------------------------- what a read has seen

  // Read calls of this client, in order, each over content of this digest, the first over this very head.
  ghost predicate Sampled(run: seq<State>, steps: seq<Step>, ks: seq<nat>, n: nat, c: ClientId, before: Head) {
    && n <= |steps| < |run|
    && ks != []
    && (forall i :: 0 <= i < |ks| ==>
          && ks[i] < n
          && steps[ks[i]] == Read(c)
          && run[ks[i]].store.Some?
          && Sha256(run[ks[i]].store.value.doc) == before.digest)
    && (forall i, j :: 0 <= i < j < |ks| ==> ks[i] < ks[j])
    && HeadOf(run[ks[0]].store.value) == before
  }

  function CallsMade(stage: Stage): nat {
    match stage
    case BeforeHead => 0
    case VerifyHead(_) => 1
    case Body(_) => 2
    case AfterHead(_, _) => 3
  }

  lemma SampledOneMore(run: seq<State>, steps: seq<Step>, ks: seq<nat>, n: nat, c: ClientId, before: Head)
    requires n < |steps| < |run| && steps[n] == Read(c) && run[n].store.Some?
    requires Sha256(run[n].store.value.doc) == before.digest
    requires if ks == [] then HeadOf(run[n].store.value) == before else Sampled(run, steps, ks, n, c, before)
    ensures Sampled(run, steps, ks + [n], n + 1, c, before)
  {
  }

  // A stable read has found content of one digest at each of its calls so far.
  lemma {:induction false} ReadIsStable(run: seq<State>, steps: seq<Step>, n: nat, c: ClientId) returns (ks: seq<nat>)
    requires IsRun(run, steps) && n < |run|
    requires PcOf(run[n], c).Reading? && !PcOf(run[n], c).stage.BeforeHead?
    ensures |ks| == CallsMade(PcOf(run[n], c).stage)
    ensures Sampled(run, steps, ks, n, c, PcOf(run[n], c).stage.before)
  {
    if n == 0 {
      assert false;
    }
    var s, step := run[n - 1], steps[n - 1];
    assert Next(s, step, run[n]);
    RunInv(run, steps, n - 1);
    StepExtends(s, step);
    ks := [];
    if step == Read(c) {
      NextCall(s, c);
      if !PcOf(s, c).stage.BeforeHead? {
        ks := ReadIsStable(run, steps, n - 1, c);
      }
      SampledOneMore(run, steps, ks, n - 1, c, PcOf(run[n], c).stage.before);
      ks := ks + [n - 1];
    } else {
      StillReading(s, step, c);
      ks := ReadIsStable(run, steps, n - 1, c);
    }
  }

  // What one more call of an unfinished read has found.
  lemma NextCall(s: State, c: ClientId)
    requires Enabled(s, Read(c))
    requires var pc := AfterRead(s, s.clients[c]).pc; pc.Reading? && !pc.stage.BeforeHead?
    ensures var stage, next := s.clients[c].pc.stage, AfterRead(s, s.clients[c]).pc.stage;
            && s.store.Some? && Sha256(s.store.value.doc) == next.before.digest
            && CallsMade(next) == CallsMade(stage) + 1
            && if stage.BeforeHead? then HeadOf(s.store.value) == next.before else next.before == stage.before
  {
  }

  lemma StillReading(s: State, step: Step, c: ClientId)
    requires Enabled(s, step) && step != Read(c) && c in s.clients
    requires var pc := PcOf(Apply(s, step), c); pc.Reading? && !pc.stage.BeforeHead?
    ensures PcOf(Apply(s, step), c) == s.clients[c].pc
  {
  }

  // ---------------------------------------------------------------- what takes effect is what was asked for

  // A stored lease disappears only by the conditional delete of a release that was called with a handle of exactly this
  // write, or of a recovery that was called with its identity and attestation, read it, and saw it expired.
  lemma LeaseLeavesOnlyBy(run: seq<State>, steps: seq<Step>, n: nat) returns (m: nat, k: nat, call: Call)
    requires IsRun(run, steps) && n < |steps| && run[n].store.Some?
    requires run[n + 1].store.None? || run[n + 1].store.value.doc.id != run[n].store.value.doc.id
    ensures steps[n].Delete? && steps[n].effect && run[n + 1].store.None?
    ensures Began(steps, m, n, steps[n].c, call)
    ensures m < k < n && steps[k] == Read(steps[n].c) && run[k].store == run[n].store
    ensures var w := run[n].store.value;
            || (call.Release? && w == Write(call.handle.doc, call.handle.etag, call.handle.acquiredAt))
            || (call == Recover(Repeated(w.doc)) && run[k].clock >= w.modified + w.doc.ttl)
  {
    DeleteNamesStored(run, steps, n);
    var c := steps[n].c;
    assert Next(run[n], steps[n], run[n + 1]);
    m, call := CallOf(run, steps, n, c);
    k := ActsOnOwnRead(run, steps, m, n, c, call);
  }

  // A stored lease is renewed only by a renewal that was called with a handle of exactly this write and read it before
  // it expired.
  lemma RenewedOnlyBy(run: seq<State>, steps: seq<Step>, n: nat) returns (m: nat, k: nat, call: Call)
    requires IsRun(run, steps) && n < |steps| && run[n].store.Some? && run[n + 1].store.Some?
    requires run[n + 1].store != run[n].store
    ensures steps[n].Put? && steps[n].effect && Began(steps, m, n, steps[n].c, call)
    ensures m < k < n && steps[k] == Read(steps[n].c) && run[k].store == run[n].store
    ensures var w := run[n].store.value;
            && call.Renew? && w == Write(call.handle.doc, call.handle.etag, call.handle.acquiredAt)
            && run[k].clock < w.modified + w.doc.ttl
            && run[n + 1].store.value.doc == w.doc.(generation := w.doc.generation + 1)
  {
    StoreChanges(run, steps, n);
    RunInv(run, steps, n);
    var s, c := run[n], steps[n].c;
    assert Next(s, steps[n], run[n + 1]);
    assert ClientOk(s, c, s.clients[c]);
    CurrentIsStored(s, s.clients[c].pc.current);
    m, call := CallOf(run, steps, n, c);
    k := ActsOnOwnRead(run, steps, m, n, c, call);
  }

  // A lease appears over an empty store only by an acquisition that was called with its owner, purpose and time to
  // live, under an identifier that its client drew.
  lemma CreatedOnlyBy(run: seq<State>, steps: seq<Step>, n: nat) returns (m: nat, call: Call)
    requires IsRun(run, steps) && n < |steps| && run[n].store.None? && run[n + 1].store.Some?
    ensures steps[n].Put? && steps[n].effect && Began(steps, m, n, steps[n].c, call)
    ensures var doc := run[n + 1].store.value.doc;
            && call == Acquire(doc.owner, doc.purpose, doc.ttl) && doc.generation == 1
            && Owns(run[n], steps[n].c, doc.id)
  {
    RunInv(run, steps, n);
    var s, c := run[n], steps[n].c;
    assert Next(s, steps[n], run[n + 1]);
    assert ClientOk(s, c, s.clients[c]);
    m, call := CallOf(run, steps, n, c);
  }

  // ---------------------------------------------------------------- answers

  // The handle names what is stored now, and it has not expired.
  predicate Active(s: State, h: Handle) {
    s.store == Some(Named(h)) && s.clock == h.observedAt && s.clock < h.acquiredAt + h.doc.ttl
  }

  // What it means when a call that does not raise ends in state s.
  predicate Meets(s: State, call: Call, answer: Answer) {
    match call
    case Inspect =>
      || (answer == Absent && s.store.None?)
      || (answer.Returned? && s.store == Some(Named(answer.handle)) && s.clock == answer.handle.observedAt)
    case Acquire(owner, purpose, ttl) =>
      answer.Returned? && Active(s, answer.handle)
      && answer.handle.doc == Codec.Lease(answer.handle.doc.id, owner, purpose, 1, ttl)
    case Assert(h) => answer.Returned? && Active(s, answer.handle) && Named(answer.handle) == Named(h)
    case Renew(h) => answer.Returned? && Active(s, answer.handle) && answer.handle.doc == NextGeneration(h.doc)
    case Release(_) => answer == Done && s.store.None?
    case Recover(confirm) => answer.Returned? && s.store.None? && confirm == Repeated(answer.handle.doc)
  }

  lemma ReadAnswers(s: State, cl: Client, call: Call)
    requires cl.pc.Reading? && Serves(cl.pc, call) && AfterRead(s, cl).pc.Idle?
    requires cl.pc.stage.AfterHead? ==> Sha256(cl.pc.stage.body) == cl.pc.stage.before.digest
    ensures AfterRead(s, cl).answer == Raised || Meets(s, call, AfterRead(s, cl).answer)
  {
    if s.store.Some? && cl.pc.stage.AfterHead? && HeadOf(s.store.value) == cl.pc.stage.before {
      var w := s.store.value;
      FinishAnswers(s, cl, call, Handle(w.doc, w.etag, w.modified, s.clock));
    }
  }

  lemma FinishAnswers(s: State, cl: Client, call: Call, seen: Handle)
    requires cl.pc.Reading? && Serves(cl.pc, call) && s.store == Some(Named(seen)) && seen.observedAt == s.clock
    ensures var cl' := Finish(cl, cl.pc.why, seen);
            cl'.pc.Idle? ==> cl'.answer == Raised || Meets(s, call, cl'.answer)
  {
  }

  // However a call ends, it either raises or answers what its arguments and the store at that moment say.
  lemma AnswerMeets(run: seq<State>, steps: seq<Step>, n: nat, c: ClientId) returns (m: nat, call: Call)
    requires IsRun(run, steps) && n < |steps| && Busy(PcOf(run[n], c)) && PcOf(run[n + 1], c).Idle?
    ensures Began(steps, m, n, c, call)
    ensures run[n + 1].clients[c].answer == Raised || Meets(run[n], call, run[n + 1].clients[c].answer)
  {
    var s, step := run[n], steps[n];
    assert Next(s, step, run[n + 1]);
    RunInv(run, steps, n);
    StepExtends(s, step);
    m, call := CallOf(run, steps, n, c);
    if step.Read? {
      assert ClientOk(s, c, s.clients[c]);
      ReadAnswers(s, s.clients[c], call);
    }
  }

  lemma {:induction false} CheckedIsUsed(run: seq<State>, steps: seq<Step>, n: nat, c: ClientId)
    requires IsRun(run, steps) && n < |run| && PcOf(run[n], c).DeleteCheck?
    ensures Used(run[n], PcOf(run[n], c).etag)
  {
    if n == 0 {
      assert false;
    }
    var s, step := run[n - 1], steps[n - 1];
    assert Next(s, step, run[n]);
    RunInv(run, steps, n - 1);
    StepExtends(s, step);
    if Mover(step) == Some(c) {
      DeletedIsUsed(s, step);
    } else {
      CheckedIsUsed(run, steps, n - 1, c);
      UsedExtends(s, run[n], PcOf(s, c).etag);
    }
  }

  lemma UsedExtends(s: State, s': State, etag: ETag)
    requires Used(s, etag) && Extends(s, s')
    ensures Used(s', etag)
  {
    var i :| 0 <= i < |s.log| && s.log[i].etag == etag;
    assert s'.log[i].etag == etag;
  }

  lemma DeletedIsUsed(s: State, step: Step)
    requires Inv(s) && Enabled(s, step) && Mover(step).Some? && PcOf(Apply(s, step), Mover(step).value).DeleteCheck?
    ensures Used(Apply(s, step), PcOf(Apply(s, step), Mover(step).value).etag)
  {
    assert step.Delete?;
    var current := s.clients[step.c].pc.current;
    assert ClientOk(s, step.c, s.clients[step.c]);
    var i :| 0 <= i < |s.log| && s.log[i] == Write(current.doc, current.etag, current.acquiredAt);
    assert Apply(s, step).log[i].etag == current.etag;
  }

  // The call in progress is determined.
  lemma BeganOnce(steps: seq<Step>, m: nat, m': nat, n: nat, c: ClientId, call: Call, call': Call)
    requires Began(steps, m, n, c, call) && Began(steps, m', n, c, call')
    ensures m == m' && call == call'
  {
    assert Mover(steps[m]) == Some(c) && Mover(steps[m']) == Some(c);
  }

  // Once a release has returned, the write whose handle it was called with is stored in no later state.
  lemma ReleasedStaysGone(run: seq<State>, steps: seq<Step>, m: nat, n: nat, c: ClientId, h: Handle, later: nat)
    requires IsRun(run, steps) && n < |steps| && Began(steps, m, n, c, Release(h))
    requires steps[n] == CheckGone(c) && c in run[n + 1].clients && run[n + 1].clients[c].answer == Done
    requires n < later < |run|
    ensures run[later].store.Some? ==> run[later].store.value.etag != h.etag
  {
    var s, step := run[n], steps[n];
    assert Next(s, step, run[n + 1]);
    RunInv(run, steps, n);
    StepExtends(s, step);
    var m', call := CallOf(run, steps, n, c);
    BeganOnce(steps, m, m', n, c, Release(h), call);
    CheckedIsUsed(run, steps, n, c);
    EtagNeverReturns(run, steps, n, later, h.etag);
  }
}
