/**
 What every run of the lease protocol keeps.

 The first half needs no assumption about callers: the write log, entity tags and read snapshots, whatever handles are
 passed to assert, renew and release.  The second half assumes that clients renew and release only their own handles
 and that owner-stopped attestations are truthful, and proves mutual exclusion.
 */
module LeaseSafety {
  import opened Option
  import opened LeaseProtocol
  import Codec = CoordinationCodec
  import Json

  // ---------------------------------------------------------------- the unconditional invariant

  ghost predicate LogOk(s: State) {
    && (s.store.Some? ==> |s.log| > 0 && s.log[|s.log| - 1] == s.store.value)
    && (forall i, j :: 0 <= i < j < |s.log| && s.log[i].doc.id == s.log[j].doc.id
          ==> s.log[i].doc.generation < s.log[j].doc.generation)
    && (forall i, j :: 0 <= i < |s.log| && 0 <= j < |s.log| && s.log[i].etag == s.log[j].etag
          ==> s.log[i].doc == s.log[j].doc)
    && (forall i :: 0 <= i < |s.log| ==> s.log[i].doc.id in s.owners && s.log[i].modified <= s.clock)
  }

  // Some write carried this entity tag and content digest.
  ghost predicate Known(s: State, h: Head) {
    exists i :: 0 <= i < |s.log| && HeadOf(s.log[i]) == h
  }

  // The handle describes one effective write exactly, and was observed no later than now.
  ghost predicate Logged(s: State, h: Handle) {
    && (exists i :: 0 <= i < |s.log| && s.log[i] == Write(h.doc, h.etag, h.acquiredAt))
    && h.observedAt <= s.clock
  }

  ghost predicate Owns(s: State, c: ClientId, id: LeaseId) {
    id in s.owners && s.owners[id] == c
  }

  ghost predicate PurposeOk(s: State, c: ClientId, why: Purpose) {
    match why
    case AcquireConfirm(mine) => Owns(s, c, mine.id)
    case _ => true
  }

  ghost predicate StageOk(s: State, stage: Stage) {
    match stage
    case BeforeHead => true
    case VerifyHead(before) => Known(s, before)
    case Body(before) => Known(s, before)
    case AfterHead(before, body) => Known(s, before) && Sha256(body) == before.digest
  }

  predicate Confirmed(current: Handle, confirm: Confirmation) {
    && current.Expired()
    && (confirm.id, confirm.owner, confirm.purpose) == (current.doc.id, current.doc.owner, current.doc.purpose)
    && confirm.attested == Some(current.doc.id)
  }

  ghost predicate PcOk(s: State, c: ClientId, pc: Pc) {
    match pc
    case AcquirePut(mine) =>
      && Owns(s, c, mine.id)
      && mine.generation == 1
      && forall i :: 0 <= i < |s.log| ==> s.log[i].doc.id != mine.id
    case Reading(why, stage) => PurposeOk(s, c, why) && StageOk(s, stage)
    case RenewPut(current) => Logged(s, current) && !current.Expired()
    case ReleaseDelete(current) => Logged(s, current)
    case RecoverDelete(current, confirm) => Logged(s, current) && Confirmed(current, confirm)
    case _ => true
  }

  ghost predicate ClientOk(s: State, c: ClientId, cl: Client) {
    && PcOk(s, c, cl.pc)
    && (cl.held.Some? ==> Logged(s, cl.held.value))
  }

  ghost predicate Inv(s: State) {
    && LogOk(s)
    && forall c :: c in s.clients ==> ClientOk(s, c, s.clients[c])
  }

  // s' remembers everything s does.
  ghost predicate Extends(s: State, s': State) {
    && s.log <= s'.log
    && s.clock <= s'.clock
    && (forall id :: id in s.owners ==> id in s'.owners && s'.owners[id] == s.owners[id])
  }

  lemma LoggedExtends(s: State, s': State, h: Handle)
    requires Extends(s, s') && Logged(s, h)
    ensures Logged(s', h)
  {
    var i :| 0 <= i < |s.log| && s.log[i] == Write(h.doc, h.etag, h.acquiredAt);
    assert s'.log[i] == s.log[i];
  }

  lemma KnownExtends(s: State, s': State, h: Head)
    requires Extends(s, s') && Known(s, h)
    ensures Known(s', h)
  {
    var i :| 0 <= i < |s.log| && HeadOf(s.log[i]) == h;
    assert s'.log[i] == s.log[i];
  }

  // A client whose own state does not move stays well-formed, unless a write used the identifier it is creating.
  lemma ClientExtends(s: State, s': State, c: ClientId, cl: Client)
    requires Extends(s, s') && ClientOk(s, c, cl)
    requires cl.pc.AcquirePut? ==> forall i :: |s.log| <= i < |s'.log| ==> s'.log[i].doc.id != cl.pc.mine.id
    ensures ClientOk(s', c, cl)
  {
    if cl.held.Some? {
      LoggedExtends(s, s', cl.held.value);
    }
    match cl.pc
    case Reading(why, stage) =>
      if !stage.BeforeHead? {
        KnownExtends(s, s', stage.before);
      }
    case RenewPut(current) => LoggedExtends(s, s', current);
    case ReleaseDelete(current) => LoggedExtends(s, s', current);
    case RecoverDelete(current, confirm) => LoggedExtends(s, s', current);
    case _ =>
  }

  // The stored object is the last write, so heads and snapshots taken from it are in the log.
  lemma StoredIsKnown(s: State)
    requires LogOk(s) && s.store.Some?
    ensures Known(s, HeadOf(s.store.value))
    ensures Logged(s, Handle(s.store.value.doc, s.store.value.etag, s.store.value.modified, s.clock))
  {
    assert s.log[|s.log| - 1] == s.store.value;
  }

  lemma ReadKeepsClientOk(s: State, c: ClientId)
    requires Inv(s) && c in s.clients && s.clients[c].pc.Reading?
    ensures ClientOk(s, c, AfterRead(s, s.clients[c]))
  {
    if s.store.Some? {
      StoredIsKnown(s);
      var w, cl := s.store.value, s.clients[c];
      assert ClientOk(s, c, cl);
      if cl.pc.stage.AfterHead? && HeadOf(w) == cl.pc.stage.before {
        assert Sha256(cl.pc.stage.body) == Sha256(w.doc);
        FinishKeepsClientOk(s, c, cl, Handle(w.doc, w.etag, w.modified, s.clock));
      }
    }
  }

  lemma FinishKeepsClientOk(s: State, c: ClientId, cl: Client, seen: Handle)
    requires ClientOk(s, c, cl) && cl.pc.Reading? && Logged(s, seen)
    ensures ClientOk(s, c, Finish(cl, cl.pc.why, seen))
  {
  }

  lemma PutKeepsLogOk(s: State, c: ClientId, etag: ETag, raised: bool)
    requires Inv(s) && Enabled(s, Put(c, etag, true, raised))
    ensures LogOk(Apply(s, Put(c, etag, true, raised)))
    ensures forall i :: 0 <= i < |s.log| && s.log[i].doc.id == Payload(s.clients[c].pc).id
              ==> s.clients[c].pc.RenewPut? && s.log[i].doc.generation < Payload(s.clients[c].pc).generation
  {
    var pc := s.clients[c].pc;
    assert ClientOk(s, c, s.clients[c]);
    if pc.RenewPut? {
      CurrentIsLast(s, pc.current);
      LogOkAppends(s, Apply(s, Put(c, etag, true, raised)), Payload(pc), etag);
    } else {
      LogOkAppends(s, Apply(s, Put(c, etag, true, raised)), Payload(pc), etag);
    }
  }

  // A tag that is current is the last write's, and names its document.
  lemma CurrentIsLast(s: State, current: Handle)
    requires LogOk(s) && Logged(s, current) && s.store.Some? && s.store.value.etag == current.etag
    ensures s.log[|s.log| - 1].doc == current.doc
  {
    var k :| 0 <= k < |s.log| && s.log[k] == Write(current.doc, current.etag, current.acquiredAt);
    assert s.log[|s.log| - 1].doc == s.log[k].doc;
  }

  lemma LogOkAppends(s: State, s': State, doc: Lease, etag: ETag)
    requires LogOk(s) && ETagFor(s, etag, doc) && doc.id in s.owners
    requires forall i :: 0 <= i < |s.log| && s.log[i].doc.id == doc.id ==> s.log[i].doc.generation < doc.generation
    requires s'.clock == s.clock && s'.owners == s.owners
    requires s'.store == Some(Write(doc, etag, s.clock)) && s'.log == s.log + [Write(doc, etag, s.clock)]
    ensures LogOk(s')
  {
  }

  lemma InvInit(s: State)
    requires Init(s)
    ensures Inv(s)
  {
  }

  // The client that moves.
  function Mover(step: Step): Option<ClientId> {
    match step
    case Tick(_) => None
    case Stop(c) => Some(c)
    case Begin(c, _) => Some(c)
    case ReadRaises(c) => Some(c)
    case Probe(c, _) => Some(c)
    case Read(c) => Some(c)
    case Put(c, _, _, _) => Some(c)
    case Delete(c, _, _) => Some(c)
    case CheckGone(c) => Some(c)
  }

  lemma StepExtends(s: State, step: Step)
    requires Inv(s) && Enabled(s, step)
    ensures Extends(s, Apply(s, step))
    ensures Apply(s, step).clients.Keys == s.clients.Keys
    ensures forall d :: d in s.clients && Mover(step) != Some(d) ==> Apply(s, step).clients[d] == s.clients[d]
  {
  }

  lemma CallKeepsClientOk(s: State, step: Step)
    requires Inv(s) && Enabled(s, step) && (step.Stop? || step.Begin? || step.ReadRaises? || step.CheckGone?)
    ensures ClientOk(s, step.c, Apply(s, step).clients[step.c])
  {
    assert ClientOk(s, step.c, s.clients[step.c]);
  }

  // A write changes its client only in the program counter.
  lemma WriterKeepsOk(s: State, step: Step)
    requires Inv(s) && Enabled(s, step) && (step.Put? || step.Delete? || step.Probe?)
    ensures ClientOk(Apply(s, step), step.c, Apply(s, step).clients[step.c])
  {
    var s', cl := Apply(s, step), s.clients[step.c];
    StepExtends(s, step);
    assert ClientOk(s, step.c, cl);
    ClientExtends(s, s', step.c, cl.(pc := Idle));
  }

  lemma MoverKeepsOk(s: State, step: Step)
    requires Inv(s) && Enabled(s, step) && Mover(step).Some?
    ensures ClientOk(Apply(s, step), Mover(step).value, Apply(s, step).clients[Mover(step).value])
  {
    var s', c := Apply(s, step), Mover(step).value;
    if step.Put? || step.Delete? || step.Probe? {
      WriterKeepsOk(s, step);
    } else {
      StepExtends(s, step);
      if step.Read? {
        ReadKeepsClientOk(s, c);
      } else {
        CallKeepsClientOk(s, step);
      }
      ClientExtends(s, s', c, s'.clients[c]);
    }
  }

  lemma OthersKeepOk(s: State, step: Step, d: ClientId)
    requires Inv(s) && Enabled(s, step) && d in s.clients && Mover(step) != Some(d)
    ensures ClientOk(Apply(s, step), d, s.clients[d])
  {
    var s' := Apply(s, step);
    StepExtends(s, step);
    assert ClientOk(s, d, s.clients[d]);
    if step.Put? && step.effect {
      assert ClientOk(s, step.c, s.clients[step.c]);
    }
    ClientExtends(s, s', d, s.clients[d]);
  }

  lemma InvStep(s: State, step: Step)
    requires Inv(s) && Enabled(s, step)
    ensures Inv(Apply(s, step))
  {
    var s' := Apply(s, step);
    StepExtends(s, step);
    if step.Put? && step.effect {
      PutKeepsLogOk(s, step.c, step.etag, step.raised);
    } else {
      LogOkStays(s, step);
    }
    forall d | d in s'.clients ensures ClientOk(s', d, s'.clients[d]) {
      if Mover(step) == Some(d) {
        MoverKeepsOk(s, step);
      } else {
        OthersKeepOk(s, step, d);
      }
    }
  }

  lemma LogOkStays(s: State, step: Step)
    requires LogOk(s) && Enabled(s, step) && !(step.Put? && step.effect)
    ensures LogOk(Apply(s, step))
  {
    SameLogOk(s, Apply(s, step));
  }

  lemma SameLogOk(s: State, s': State)
    requires LogOk(s) && s'.log == s.log && (s'.store == s.store || s'.store.None?) && s'.clock >= s.clock
    requires forall id :: id in s.owners ==> id in s'.owners
    ensures LogOk(s')
  {
  }

  lemma {:induction false} RunInv(run: seq<State>, steps: seq<Step>, n: nat)
    requires IsRun(run, steps) && n < |run|
    ensures Inv(run[n])
  {
    if n == 0 {
      InvInit(run[0]);
    } else {
      RunInv(run, steps, n - 1);
      assert Next(run[n - 1], steps[n - 1], run[n]);
      InvStep(run[n - 1], steps[n - 1]);
    }
  }

  lemma {:induction false} RunExtends(run: seq<State>, steps: seq<Step>, m: nat, n: nat)
    requires IsRun(run, steps) && m <= n < |run|
    ensures Extends(run[m], run[n])
  {
    if m < n {
      RunExtends(run, steps, m, n - 1);
      RunInv(run, steps, n - 1);
      assert Next(run[n - 1], steps[n - 1], run[n]);
      StepExtends(run[n - 1], steps[n - 1]);
    }
  }

  // ---------------------------------------------------------------- writes happen once, in order

  // Over a whole run no (lease_id, generation) is ever written twice, and so no entity tag is reused either.
  lemma WrittenOnce(run: seq<State>, steps: seq<Step>, n: nat, i: nat, j: nat)
    requires IsRun(run, steps) && n < |run| && i < |run[n].log| && j < |run[n].log| && i != j
    ensures (run[n].log[i].doc.id, run[n].log[i].doc.generation) != (run[n].log[j].doc.id, run[n].log[j].doc.generation)
    ensures run[n].log[i].etag != run[n].log[j].etag
  {
    RunInv(run, steps, n);
    var log := run[n].log;
    if i < j {
      assert log[i].doc.id != log[j].doc.id || log[i].doc.generation < log[j].doc.generation;
    } else {
      assert log[j].doc.id != log[i].doc.id || log[j].doc.generation < log[i].doc.generation;
    }
  }

  // The stored object changes only by a creation over an absent object, by a renewal that raises the generation
  // by exactly one and changes nothing else, or by a removal.
  lemma StoreChanges(run: seq<State>, steps: seq<Step>, n: nat)
    requires IsRun(run, steps) && n < |steps| && run[n + 1].store != run[n].store
    ensures run[n + 1].store.None? ==> steps[n].Delete? && steps[n].effect
    ensures run[n + 1].store.Some? && run[n].store.Some? ==>
              var v, w := run[n].store.value, run[n + 1].store.value;
              w.doc == v.doc.(generation := v.doc.generation + 1)
    ensures run[n + 1].store.Some? && run[n].store.None? ==>
              var w := run[n + 1].store.value;
              w.doc.generation == 1 && forall i :: 0 <= i < |run[n].log| ==> run[n].log[i].doc.id != w.doc.id
  {
    RunInv(run, steps, n);
    var s, step := run[n], steps[n];
    assert Next(s, step, run[n + 1]);
    if step.Put? && step.effect {
      assert ClientOk(s, step.c, s.clients[step.c]);
      var pc := s.clients[step.c].pc;
      if pc.RenewPut? {
        CurrentIsStored(s, pc.current);
      }
    }
  }

  // An If-Match that holds names the stored write itself, not merely an object with equal content.
  lemma CurrentIsStored(s: State, h: Handle)
    requires Inv(s) && Logged(s, h) && s.store.Some? && s.store.value.etag == h.etag
    ensures s.store.value == Write(h.doc, h.etag, h.acquiredAt)
  {
    var i :| 0 <= i < |s.log| && s.log[i] == Write(h.doc, h.etag, h.acquiredAt);
    var last := |s.log| - 1;
    assert s.log[last] == s.store.value;
    assert s.log[i].doc == s.log[last].doc;
    assert i == last;
  }

  // ---------------------------------------------------------------- ABA-freedom

  ghost predicate IsCurrent(s: State, etag: ETag) {
    s.store.Some? && s.store.value.etag == etag
  }

  ghost predicate Used(s: State, etag: ETag) {
    exists i :: 0 <= i < |s.log| && s.log[i].etag == etag
  }

  lemma DisplacedStaysDisplaced(s: State, step: Step, etag: ETag)
    requires Inv(s) && Enabled(s, step) && Used(s, etag) && !IsCurrent(s, etag)
    ensures Used(Apply(s, step), etag) && !IsCurrent(Apply(s, step), etag)
  {
    var i :| 0 <= i < |s.log| && s.log[i].etag == etag;
    var s' := Apply(s, step);
    StepExtends(s, step);
    assert s'.log[i] == s.log[i];
    if step.Put? && step.effect {
      PutKeepsLogOk(s, step.c, step.etag, step.raised);
    }
  }

  // Once an entity tag has been displaced, no later state of the run stores it again: a client holding it can
  // neither overwrite nor delete anything written since.
  lemma {:induction false} EtagNeverReturns(run: seq<State>, steps: seq<Step>, m: nat, n: nat, etag: ETag)
    requires IsRun(run, steps) && m <= n < |run|
    requires Used(run[m], etag) && !IsCurrent(run[m], etag)
    ensures Used(run[n], etag) && !IsCurrent(run[n], etag)
  {
    if m < n {
      EtagNeverReturns(run, steps, m, n - 1, etag);
      RunInv(run, steps, n - 1);
      assert Next(run[n - 1], steps[n - 1], run[n]);
      DisplacedStaysDisplaced(run[n - 1], steps[n - 1], etag);
    }
  }

  // Step n takes effect under If-Match etag.
  ghost predicate TakesEffect(s: State, step: Step, etag: ETag) {
    && (step.Put? || step.Delete?)
    && step.effect
    && step.c in s.clients
    && var pc := s.clients[step.c].pc;
       (pc.RenewPut? || pc.ReleaseDelete? || pc.RecoverDelete?) && pc.current.etag == etag
  }

  lemma EffectDisplaces(s: State, step: Step, etag: ETag)
    requires Inv(s) && Enabled(s, step) && TakesEffect(s, step, etag)
    ensures Used(Apply(s, step), etag) && !IsCurrent(Apply(s, step), etag)
  {
    var s', last := Apply(s, step), |s.log| - 1;
    StepExtends(s, step);
    assert s.log[last].etag == etag && s'.log[last] == s.log[last];
    if step.Put? {
      PutKeepsLogOk(s, step.c, step.etag, step.raised);
    }
  }

  // When a renewal, a release and a recovery race on one entity tag, at most one of them takes effect in the whole run.
  lemma OneWinnerPerEtag(run: seq<State>, steps: seq<Step>, m: nat, n: nat, etag: ETag)
    requires IsRun(run, steps) && m < n < |steps|
    requires TakesEffect(run[m], steps[m], etag)
    ensures !TakesEffect(run[n], steps[n], etag)
  {
    RunInv(run, steps, m);
    assert Next(run[m], steps[m], run[m + 1]);
    EffectDisplaces(run[m], steps[m], etag);
    EtagNeverReturns(run, steps, m + 1, n, etag);
    assert Next(run[n], steps[n], run[n + 1]);
  }

  // ... and until one of them has taken effect the precondition of every other still holds, so the first to be
  // served is the one that takes effect.
  lemma RaceIsDecidedByServer(s: State, c: ClientId, d: ClientId, etag: ETag)
    requires Inv(s) && c in s.clients && d in s.clients
    requires s.clients[c].pc.RenewPut? && s.clients[c].pc.current.etag == etag
    requires s.clients[d].pc.RecoverDelete? && s.clients[d].pc.current.etag == etag
    ensures PutAllowed(s, s.clients[c].pc) <==> DeleteAllowed(s, s.clients[d].pc.current)
    ensures forall e, r :: Enabled(s, Put(c, e, true, r)) ==>
              !DeleteAllowed(Apply(s, Put(c, e, true, r)), s.clients[d].pc.current)
    ensures forall r :: Enabled(s, Delete(d, true, r)) ==> !PutAllowed(Apply(s, Delete(d, true, r)), s.clients[c].pc)
  {
    forall e, r | Enabled(s, Put(c, e, true, r))
      ensures !DeleteAllowed(Apply(s, Put(c, e, true, r)), s.clients[d].pc.current)
    {
      assert s.log[|s.log| - 1].etag == etag;
      assert Used(s, etag);
      PutKeepsLogOk(s, c, e, r);
    }
  }

  // ---------------------------------------------------------------- stored bytes decode

  ghost predicate PcValid(pc: Pc) {
    match pc
    case AcquireProbe(owner, purpose, ttl) =>
      Codec.IsLabel(owner) && Codec.IsLabel(purpose) && Codec.MIN_TTL <= ttl <= Codec.MAX_TTL
    case AcquirePut(mine) => Codec.ValidLease(mine)
    case _ => true
  }

  ghost predicate AllValid(s: State) {
    && (forall i :: 0 <= i < |s.log| ==> Codec.ValidLease(s.log[i].doc))
    && (forall c :: c in s.clients ==> PcValid(s.clients[c].pc))
  }

  lemma AllValidStep(s: State, step: Step)
    requires Inv(s) && AllValid(s) && Enabled(s, step)
    ensures AllValid(Apply(s, step))
  {
    StepExtends(s, step);
    if step.Put? && step.effect {
      PutIsValid(s, step);
    }
    var s' := Apply(s, step);
    forall c | c in s'.clients ensures PcValid(s'.clients[c].pc) {
      PcStaysValid(s, step, c);
    }
  }

  lemma PcStaysValid(s: State, step: Step, c: ClientId)
    requires Enabled(s, step) && c in s.clients && PcValid(s.clients[c].pc)
    ensures c in Apply(s, step).clients && PcValid(Apply(s, step).clients[c].pc)
  {
  }

  lemma PutIsValid(s: State, step: Step)
    requires Inv(s) && AllValid(s) && Enabled(s, step) && step.Put? && step.effect
    ensures Codec.ValidLease(Payload(s.clients[step.c].pc))
  {
    assert PcValid(s.clients[step.c].pc) && ClientOk(s, step.c, s.clients[step.c]);
    if s.clients[step.c].pc.RenewPut? {
      CurrentIsStored(s, s.clients[step.c].pc.current);
      assert Codec.ValidLease(s.log[|s.log| - 1].doc);
    }
  }

  lemma {:induction false} RunValid(run: seq<State>, steps: seq<Step>, n: nat)
    requires IsRun(run, steps) && n < |run|
    ensures AllValid(run[n])
  {
    if n > 0 {
      RunValid(run, steps, n - 1);
      RunInv(run, steps, n - 1);
      assert Next(run[n - 1], steps[n - 1], run[n]);
      AllValidStep(run[n - 1], steps[n - 1]);
    }
  }

  // In every run the stored bytes decode, under the strict reader, to the document the protocol stored.
  lemma StoredBytesDecode(run: seq<State>, steps: seq<Step>, n: nat, f: Json.Floats, scope: Codec.Scope)
    requires IsRun(run, steps) && n < |run|
    ensures run[n].store.Some? ==>
              Codec.DecodeLease(f, scope, Codec.EncodeLease(scope, run[n].store.value.doc)) ==
                  Codec.Ok(run[n].store.value.doc)
  {
    RunValid(run, steps, n);
    if run[n].store.Some? {
      RunInv(run, steps, n);
      Codec.LeaseRoundTrip(f, scope, run[n].log[|run[n].log| - 1].doc);
    }
  }

  // ---------------------------------------------------------------- reads are snapshots

  // A HEAD-HEAD-GET-HEAD read either fails or hands on exactly the object stored at its last call, although other
  // clients may have written between any two of its calls.
  lemma ReadIsSnapshot(run: seq<State>, steps: seq<Step>, n: nat, c: ClientId)
    requires IsRun(run, steps) && n < |steps| && steps[n] == Read(c)
    requires c in run[n].clients && run[n].clients[c].pc.Reading? && run[n].clients[c].pc.stage.AfterHead?
    ensures var cl, cl' := run[n].clients[c], run[n + 1].clients[c];
            match run[n].store
            case None => cl' == Ended(cl, Raised)
            case Some(w) =>
              if HeadOf(w) == cl.pc.stage.before
              then cl' == Finish(cl, cl.pc.why, Handle(w.doc, w.etag, w.modified, run[n].clock))
              else cl' == Ended(cl, Raised)
  {
    RunInv(run, steps, n);
    assert Next(run[n], steps[n], run[n + 1]);
    assert ClientOk(run[n], c, run[n].clients[c]);
  }

  // acquire and renew hand out a lease only when the object stored at that moment is the one this very call built,
  // whether or not its PUT raised; the handle names that write exactly.
  lemma HandleIsOwnWrite(run: seq<State>, steps: seq<Step>, n: nat, c: ClientId)
    requires IsRun(run, steps) && n < |steps| && c in run[n].clients
    requires run[n + 1].clients[c].held != run[n].clients[c].held && run[n + 1].clients[c].held.Some?
    ensures run[n].clients[c].pc.Reading?
    ensures run[n].clients[c].pc.why.AcquireConfirm? || run[n].clients[c].pc.why.RenewConfirm?
    ensures var h := run[n + 1].clients[c].held.value;
            && h.doc == run[n].clients[c].pc.why.mine
            && run[n].store == Some(Write(h.doc, h.etag, h.acquiredAt))
            && !h.Expired()
            && (run[n].clients[c].pc.why.AcquireConfirm? ==> Owns(run[n], c, h.doc.id))
  {
    RunInv(run, steps, n);
    var s := run[n];
    assert Next(s, steps[n], run[n + 1]);
    StepExtends(s, steps[n]);
    assert ClientOk(s, c, s.clients[c]);
  }

  // ---------------------------------------------------------------- how a lease leaves the store

  // Only a conditional delete empties the store, and what it removes is what its client has read.
  lemma DeleteNamesStored(run: seq<State>, steps: seq<Step>, n: nat)
    requires IsRun(run, steps) && n < |steps| && run[n].store.Some?
    requires run[n + 1].store.None? || run[n + 1].store.value.doc.id != run[n].store.value.doc.id
    ensures steps[n].Delete? && steps[n].effect && run[n + 1].store.None?
    ensures var w, pc := run[n].store.value, run[n].clients[steps[n].c].pc;
            && (pc.ReleaseDelete? || pc.RecoverDelete?)
            && w == Write(pc.current.doc, pc.current.etag, pc.current.acquiredAt)
            && (pc.RecoverDelete? ==> Confirmed(pc.current, pc.confirm))
  {
    StoreChanges(run, steps, n);
    RunInv(run, steps, n);
    var s, step := run[n], steps[n];
    assert Next(s, step, run[n + 1]);
    var c := step.c;
    assert ClientOk(s, c, s.clients[c]);
    CurrentIsStored(s, s.clients[c].pc.current);
  }

  // ---------------------------------------------------------------- what a call is about

  // The stored lease is the one with this identifier.
  ghost predicate Stores(s: State, id: LeaseId) {
    s.store.Some? && s.store.value.doc.id == id
  }

  ghost predicate Written(s: State, id: LeaseId) {
    exists i :: 0 <= i < |s.log| && s.log[i].doc.id == id
  }

  // The identifier this client is in the middle of acquiring.
  function Acquiring(pc: Pc): Option<LeaseId> {
    match pc
    case AcquirePut(mine) => Some(mine.id)
    case Reading(why, _) => if why.AcquireConfirm? then Some(why.mine.id) else None
    case _ => None
  }

  // The identifier this client is in the middle of renewing.
  function Renewing(pc: Pc): Option<LeaseId> {
    match pc
    case RenewPut(current) => Some(current.doc.id)
    case Reading(RenewRead(h), _) => Some(h.doc.id)
    case Reading(RenewConfirm(mine), _) => Some(mine.id)
    case _ => None
  }

  // The attestation a recovery carries.
  function Attested(pc: Pc): Option<LeaseId> {
    match pc
    case RecoverProbe(confirm) => confirm.attested
    case Reading(RecoverRead(confirm), _) => confirm.attested
    case RecoverDelete(_, confirm) => confirm.attested
    case _ => None
  }

  // The identifier this client is in the middle of releasing.
  function Releasing(pc: Pc): Option<LeaseId> {
    match pc
    case Reading(ReleaseRead(h), _) => Some(h.doc.id)
    case ReleaseDelete(current) => Some(current.doc.id)
    case _ => None
  }

  // ---------------------------------------------------------------- clients that use their own handles

  // What the client holds, was given, renews or releases, it has acquired itself.
  ghost predicate OwnOk(s: State, c: ClientId, cl: Client) {
    && (cl.held.Some? ==> Owns(s, c, cl.held.value.doc.id))
    && (forall h :: h in cl.given ==> Owns(s, c, h.doc.id))
    && (Renewing(cl.pc).Some? ==> Owns(s, c, Renewing(cl.pc).value))
    && (Releasing(cl.pc).Some? ==> Owns(s, c, Releasing(cl.pc).value))
  }

  ghost predicate OwnInv(s: State) {
    forall c :: c in s.clients ==> OwnOk(s, c, s.clients[c])
  }

  lemma FinishKeepsOwn(s: State, c: ClientId, cl: Client, seen: Handle)
    requires cl.pc.Reading? && PurposeOk(s, c, cl.pc.why) && OwnOk(s, c, cl)
    ensures OwnOk(s, c, Finish(cl, cl.pc.why, seen))
  {
    var cl' := Finish(cl, cl.pc.why, seen);
    if cl'.given == cl.given && cl'.held == cl.held {
      OwnCarries(s, c, cl, cl');
    } else {
      assert cl' == Given(cl, seen);
      GivenKeepsOwn(s, c, cl, seen);
    }
  }

  lemma GivenKeepsOwn(s: State, c: ClientId, cl: Client, seen: Handle)
    requires OwnOk(s, c, cl) && Owns(s, c, seen.doc.id)
    ensures OwnOk(s, c, Given(cl, seen))
  {
  }

  lemma ReaderKeepsOwn(s: State, c: ClientId)
    requires Inv(s) && OwnInv(s) && Enabled(s, Read(c))
    ensures OwnOk(s, c, AfterRead(s, s.clients[c]))
  {
    var cl := s.clients[c];
    assert OwnOk(s, c, cl) && ClientOk(s, c, cl);
    if s.store.Some? && cl.pc.stage.AfterHead? && HeadOf(s.store.value) == cl.pc.stage.before {
      var w := s.store.value;
      FinishKeepsOwn(s, c, cl, Handle(cl.pc.stage.body, w.etag, w.modified, s.clock));
    } else {
      OwnCarries(s, c, cl, AfterRead(s, cl));
    }
  }

  lemma CallerKeepsOwn(s: State, step: Step)
    requires OwnInv(s) && Enabled(s, step) && UsesOwnHandle(s, step) && step.Begin?
    ensures OwnOk(s, step.c, Started(s.clients[step.c], step.call))
  {
    var cl := s.clients[step.c];
    assert OwnOk(s, step.c, cl);
    if step.call.Renew? || step.call.Release? {
      var g :| g in cl.given && g.SameLease(step.call.handle);
      assert Owns(s, step.c, g.doc.id);
    }
  }

  lemma OwnCarries(s: State, c: ClientId, cl: Client, cl': Client)
    requires OwnOk(s, c, cl)
    requires Renewing(cl'.pc).None? || Renewing(cl'.pc) == Renewing(cl.pc)
    requires Releasing(cl'.pc).None? || Releasing(cl'.pc) == Releasing(cl.pc)
    requires (cl'.held == cl.held || cl'.held.None?) && cl'.given <= cl.given
    ensures OwnOk(s, c, cl')
  {
  }

  lemma MoverKeepsOwn(s: State, step: Step)
    requires Inv(s) && OwnInv(s) && Enabled(s, step) && UsesOwnHandle(s, step) && Mover(step).Some?
    ensures OwnOk(s, Mover(step).value, Apply(s, step).clients[Mover(step).value])
  {
    var c := Mover(step).value;
    assert OwnOk(s, c, s.clients[c]);
    if step.Read? {
      ReaderKeepsOwn(s, c);
    } else if step.Begin? {
      CallerKeepsOwn(s, step);
    } else {
      OwnCarries(s, c, s.clients[c], Apply(s, step).clients[c]);
    }
  }

  lemma OwnExtends(s: State, s': State, c: ClientId, cl: Client)
    requires Extends(s, s') && OwnOk(s, c, cl)
    ensures OwnOk(s', c, cl)
  {
  }

  lemma OwnStep(s: State, step: Step)
    requires Inv(s) && OwnInv(s) && Enabled(s, step) && UsesOwnHandle(s, step)
    ensures OwnInv(Apply(s, step))
  {
    var s' := Apply(s, step);
    StepExtends(s, step);
    forall c | c in s'.clients ensures OwnOk(s', c, s'.clients[c]) {
      if Mover(step) == Some(c) {
        MoverKeepsOwn(s, step);
      } else {
        assert OwnOk(s, c, s.clients[c]);
      }
      OwnExtends(s, s', c, s'.clients[c]);
    }
  }

  lemma OwnInit(s: State)
    requires Init(s)
    ensures OwnInv(s)
  {
  }

  lemma RunStepsOwn(run: seq<State>, steps: seq<Step>, n: nat)
    requires IsRun(run, steps) && AllUseOwnHandles(run, steps) && n < |steps| && OwnInv(run[n])
    ensures OwnInv(run[n + 1])
  {
    RunInv(run, steps, n);
    var s, step := run[n], steps[n];
    assert UsesOwnHandle(s, step);
    assert Next(s, step, run[n + 1]);
    OwnStep(s, step);
  }

  lemma {:induction false} RunOwn(run: seq<State>, steps: seq<Step>, n: nat)
    requires IsRun(run, steps) && AllUseOwnHandles(run, steps) && n < |run|
    ensures OwnInv(run[n])
  {
    if n == 0 {
      OwnInit(run[0]);
    } else {
      RunOwn(run, steps, n - 1);
      RunStepsOwn(run, steps, n - 1);
    }
  }

  // Where clients use their own handles, a lease is released only by the client that drew its identifier.
  lemma OnlyOwnerReleases(run: seq<State>, steps: seq<Step>, n: nat)
    requires IsRun(run, steps) && AllUseOwnHandles(run, steps) && n < |steps|
    requires run[n].store.Some? && steps[n].Delete? && steps[n].effect && PcOf(run[n], steps[n].c).ReleaseDelete?
    ensures Owns(run[n], steps[n].c, run[n].store.value.doc.id)
  {
    RunInv(run, steps, n);
    RunOwn(run, steps, n);
    var s, c := run[n], steps[n].c;
    assert Next(s, steps[n], run[n + 1]);
    assert ClientOk(s, c, s.clients[c]) && OwnOk(s, c, s.clients[c]);
    CurrentIsStored(s, s.clients[c].pc.current);
  }

  // ---------------------------------------------------------------- mutual exclusion

  ghost predicate SectionOk(s: State, cl: Client) {
    && (cl.held.Some? ==> Stores(s, cl.held.value.doc.id))
    && (Acquiring(cl.pc).Some? ==>
          && (Written(s, Acquiring(cl.pc).value) ==> Stores(s, Acquiring(cl.pc).value))
          && (cl.held.Some? ==> cl.held.value.doc.id != Acquiring(cl.pc).value))
    && (Renewing(cl.pc).Some? ==> cl.held.Some? && cl.held.value.doc.id == Renewing(cl.pc).value)
    && (Releasing(cl.pc).Some? && cl.held.Some? ==> cl.held.value.doc.id != Releasing(cl.pc).value)
    && (Attested(cl.pc).Some? ==> OwnerStopped(s, Attested(cl.pc).value))
  }

  ghost predicate ExclusionInv(s: State) {
    && Inv(s)
    && OwnInv(s)
    && forall c :: c in s.clients ==> SectionOk(s, s.clients[c])
  }

  // An attestation that was truthful stays truthful: the identifier is not new, and its owner would have to hold it
  // already in order to renew it.
  lemma StoppedStaysStopped(s: State, step: Step, id: LeaseId)
    requires ExclusionInv(s) && Enabled(s, step) && OwnerStopped(s, id)
    ensures OwnerStopped(Apply(s, step), id)
  {
    StepExtends(s, step);
    var c := s.owners[id];
    if c in s.clients && Mover(step) == Some(c) {
      assert SectionOk(s, s.clients[c]);
      OwnerStaysStopped(s, step, c, id);
    }
  }

  lemma OwnerStaysStopped(s: State, step: Step, c: ClientId, id: LeaseId)
    requires Enabled(s, step) && Mover(step) == Some(c) && c in s.clients && SectionOk(s, s.clients[c])
    requires id in s.owners && s.owners[id] == c && OwnerStopped(s, id)
    ensures var cl := Apply(s, step).clients[c];
            && !(cl.held.Some? && cl.held.value.doc.id == id)
            && Acquiring(cl.pc) != Some(id)
  {
    assert Acquiring(s.clients[c].pc) != Some(id);
    assert Renewing(s.clients[c].pc) != Some(id);
  }

  // A deletion that takes effect never removes a lease that some client holds or is still acquiring.
  lemma DeleteSparesOthers(s: State, step: Step, d: ClientId)
    requires ExclusionInv(s) && Enabled(s, step) && step.Delete? && step.effect && d in s.clients
    ensures s.clients[d].held.Some? ==> s.clients[d].held.value.doc.id != s.store.value.doc.id
    ensures Acquiring(s.clients[d].pc) != Some(s.store.value.doc.id)
  {
    var c := step.c;
    var pc := s.clients[c].pc;
    assert ClientOk(s, c, s.clients[c]) && ClientOk(s, d, s.clients[d]);
    assert OwnOk(s, c, s.clients[c]) && OwnOk(s, d, s.clients[d]);
    assert SectionOk(s, s.clients[c]) && SectionOk(s, s.clients[d]);
    CurrentIsStored(s, pc.current);
    if pc.RecoverDelete? {
      assert OwnerStopped(s, pc.current.doc.id);
    }
  }

  lemma PutKeepsSections(s: State, step: Step, d: ClientId)
    requires ExclusionInv(s) && Enabled(s, step) && step.Put? && step.effect && d in s.clients
    ensures s.clients[d].held.Some? ==> Stores(Apply(s, step), s.clients[d].held.value.doc.id)
    ensures var a := Acquiring(s.clients[d].pc);
            a.Some? && Written(Apply(s, step), a.value) ==> Stores(Apply(s, step), a.value)
  {
    var s', c := Apply(s, step), step.c;
    var doc := Payload(s.clients[c].pc);
    assert ClientOk(s, c, s.clients[c]) && ClientOk(s, d, s.clients[d]);
    assert SectionOk(s, s.clients[d]);
    if s.clients[c].pc.RenewPut? {
      CurrentIsStored(s, s.clients[c].pc.current);
    }
    if Acquiring(s.clients[d].pc).Some? && Written(s', Acquiring(s.clients[d].pc).value) {
      var id := Acquiring(s.clients[d].pc).value;
      var i :| 0 <= i < |s'.log| && s'.log[i].doc.id == id;
      if i < |s.log| {
        assert s.log[i].doc.id == id;
        assert Written(s, id);
      }
    }
  }

  lemma OthersKeepSection(s: State, step: Step, d: ClientId)
    requires ExclusionInv(s) && Enabled(s, step) && d in s.clients && Mover(step) != Some(d)
    ensures SectionOk(Apply(s, step), s.clients[d])
  {
    var s', cl := Apply(s, step), s.clients[d];
    StepExtends(s, step);
    assert SectionOk(s, cl);
    if Attested(cl.pc).Some? {
      StoppedStaysStopped(s, step, Attested(cl.pc).value);
    }
    if step.Delete? && step.effect {
      DeleteSparesOthers(s, step, d);
    }
    if step.Put? && step.effect {
      PutKeepsSections(s, step, d);
    }
  }

  // A program counter that forgets what it was doing, or goes on doing it, over an unchanged store.
  ghost predicate Continues(pc: Pc, pc': Pc) {
    && (Acquiring(pc') == None || Acquiring(pc') == Acquiring(pc))
    && (Renewing(pc') == None || Renewing(pc') == Renewing(pc))
    && (Releasing(pc') == None || Releasing(pc') == Releasing(pc))
    && (Attested(pc') == None || Attested(pc') == Attested(pc))
  }

  lemma SectionCarries(s: State, s': State, cl: Client, cl': Client)
    requires SectionOk(s, cl) && s'.store == s.store && s'.log == s.log && Continues(cl.pc, cl'.pc)
               && cl'.held == cl.held
    requires Attested(cl'.pc).Some? ==> OwnerStopped(s', Attested(cl'.pc).value)
    ensures SectionOk(s', cl')
  {
    assert forall id :: Written(s', id) == Written(s, id);
  }

  // A read step leaves the store and the log alone.
  lemma ReaderKeepsSection(s: State, c: ClientId)
    requires ExclusionInv(s) && Enabled(s, Read(c))
    ensures SectionOk(Apply(s, Read(c)), Apply(s, Read(c)).clients[c])
  {
    var cl, s' := s.clients[c], Apply(s, Read(c));
    assert SectionOk(s, cl);
    if Attested(cl.pc).Some? {
      StoppedStaysStopped(s, Read(c), Attested(cl.pc).value);
    }
    if s.store.Some? && cl.pc.stage.AfterHead? && HeadOf(s.store.value) == cl.pc.stage.before {
      assert Sha256(cl.pc.stage.body) == cl.pc.stage.before.digest by {
        assert ClientOk(s, c, cl);
      }
      FinishKeepsSection(s, s', cl, Handle(s.store.value.doc, s.store.value.etag, s.store.value.modified, s.clock));
    } else {
      SectionCarries(s, s', cl, s'.clients[c]);
    }
  }

  lemma FinishKeepsSection(s: State, s': State, cl: Client, seen: Handle)
    requires SectionOk(s, cl) && cl.pc.Reading? && s'.store == s.store && s'.log == s.log
    requires s.store.Some? && seen.doc == s.store.value.doc
    requires Attested(cl.pc).Some? ==> OwnerStopped(s', Attested(cl.pc).value)
    ensures SectionOk(s', Finish(cl, cl.pc.why, seen))
  {
    var cl' := Finish(cl, cl.pc.why, seen);
    if cl'.held == cl.held {
      SectionCarries(s, s', cl, cl');
    } else {
      EnteringIsOk(s', cl, seen);
    }
  }

  // A confirmed creation or renewal, of what is stored, gives the section to its client.
  lemma EnteringIsOk(s: State, cl: Client, seen: Handle)
    requires SectionOk(s, cl) && cl.pc.Reading? && Stores(s, seen.doc.id)
    requires Acquiring(cl.pc) == Some(seen.doc.id) || Renewing(cl.pc) == Some(seen.doc.id)
    ensures SectionOk(s, Given(cl, seen))
  {
  }

  lemma PutterKeepsSection(s: State, step: Step)
    requires ExclusionInv(s) && Enabled(s, step) && step.Put?
    ensures SectionOk(Apply(s, step), Apply(s, step).clients[step.c])
  {
    var cl, s' := s.clients[step.c], Apply(s, step);
    assert SectionOk(s, cl);
    if step.effect {
      PutKeepsSections(s, step, step.c);
    } else {
      SectionCarries(s, s', cl, s'.clients[step.c]);
    }
  }

  lemma DeleterKeepsSection(s: State, step: Step)
    requires ExclusionInv(s) && Enabled(s, step) && step.Delete?
    ensures SectionOk(Apply(s, step), Apply(s, step).clients[step.c])
  {
    var cl, s' := s.clients[step.c], Apply(s, step);
    assert SectionOk(s, cl);
    if step.effect {
      DeleteSparesOthers(s, step, step.c);
    } else {
      SectionCarries(s, s', cl, s'.clients[step.c]);
    }
  }

  lemma CallerKeepsSection(s: State, step: Step)
    requires ExclusionInv(s) && Enabled(s, step) && Truthful(s, step) && UsesOwnHandle(s, step) && step.Begin?
    ensures SectionOk(Apply(s, step), Apply(s, step).clients[step.c])
  {
    var cl, s' := s.clients[step.c], Apply(s, step);
    assert SectionOk(s, cl);
    match step.call
    case Release(h) => ReleaserKeepsSection(s, s', cl, h);
    case Renew(h) =>
    case Recover(confirm) =>
      if confirm.attested.Some? {
        StoppedStaysStopped(s, step, confirm.attested.value);
      }
    case _ => SectionCarries(s, s', cl, s'.clients[step.c]);
  }

  // Calling release leaves the section with the handle given, or stays in it with another.
  lemma ReleaserKeepsSection(s: State, s': State, cl: Client, h: Handle)
    requires SectionOk(s, cl) && s'.store == s.store && MayBegin(cl, Release(h))
    ensures SectionOk(s', Started(cl, Release(h)))
  {
  }

  lemma ProberKeepsSection(s: State, step: Step)
    requires ExclusionInv(s) && Enabled(s, step) && step.Probe?
    ensures SectionOk(Apply(s, step), Apply(s, step).clients[step.c])
  {
    var cl, s' := s.clients[step.c], Apply(s, step);
    assert SectionOk(s, cl) && ClientOk(s, step.c, cl);
    if Attested(cl.pc).Some? {
      StoppedStaysStopped(s, step, Attested(cl.pc).value);
    }
    if cl.pc.AcquireProbe? && s.store.None? {
      NewIdentifierIsOk(s, s', cl, step.drawn, s'.clients[step.c].pc);
    } else {
      SectionCarries(s, s', cl, s'.clients[step.c]);
    }
  }

  // The identifier drawn is nobody's, so it is neither written nor held.
  lemma NewIdentifierIsOk(s: State, s': State, cl: Client, drawn: LeaseId, pc: Pc)
    requires LogOk(s) && SectionOk(s, cl) && drawn !in s.owners && s.store.None?
    requires s'.store == s.store && s'.log == s.log && pc.AcquirePut? && pc.mine.id == drawn
    ensures SectionOk(s', cl.(pc := pc))
  {
    assert !Written(s', drawn);
  }

  lemma MoverKeepsSection(s: State, step: Step)
    requires ExclusionInv(s) && Enabled(s, step) && Truthful(s, step) && UsesOwnHandle(s, step) && Mover(step).Some?
    ensures SectionOk(Apply(s, step), Apply(s, step).clients[Mover(step).value])
  {
    if step.Read? {
      ReaderKeepsSection(s, step.c);
    } else if step.Put? {
      PutterKeepsSection(s, step);
    } else if step.Delete? {
      DeleterKeepsSection(s, step);
    } else if step.Begin? {
      CallerKeepsSection(s, step);
    } else if step.Probe? {
      ProberKeepsSection(s, step);
    } else {
      assert SectionOk(s, s.clients[Mover(step).value]);
    }
  }

  lemma ExclusionStep(s: State, step: Step)
    requires ExclusionInv(s) && Enabled(s, step) && Truthful(s, step) && UsesOwnHandle(s, step)
    ensures ExclusionInv(Apply(s, step))
  {
    var s' := Apply(s, step);
    StepExtends(s, step);
    InvStep(s, step);
    OwnStep(s, step);
    if Mover(step).Some? {
      MoverKeepsSection(s, step);
    }
    forall d | d in s'.clients && Mover(step) != Some(d) ensures SectionOk(s', s'.clients[d]) {
      OthersKeepSection(s, step, d);
    }
  }

  lemma {:induction false} RunExclusion(run: seq<State>, steps: seq<Step>, n: nat)
    requires IsRun(run, steps) && AllTruthful(run, steps) && AllUseOwnHandles(run, steps) && n < |run|
    ensures ExclusionInv(run[n])
  {
    if n == 0 {
      InvInit(run[0]);
    } else {
      RunExclusion(run, steps, n - 1);
      assert Next(run[n - 1], steps[n - 1], run[n]);
      assert Truthful(run[n - 1], steps[n - 1]) && UsesOwnHandle(run[n - 1], steps[n - 1]);
      ExclusionStep(run[n - 1], steps[n - 1]);
    }
  }

  // If every owner-stopped attestation is truthful and clients renew and release only their own handles, no two clients
  // are ever both between the return of acquire and the call of release, even past expiry, and the lease a client holds
  // is always the stored one.
  lemma MutualExclusion(run: seq<State>, steps: seq<Step>, n: nat, c: ClientId, d: ClientId)
    requires IsRun(run, steps) && AllTruthful(run, steps) && AllUseOwnHandles(run, steps) && n < |run|
    requires InSection(run[n], c) && InSection(run[n], d)
    ensures c == d
    ensures run[n].store.Some? && run[n].store.value.doc.id == run[n].clients[c].held.value.doc.id
  {
    RunExclusion(run, steps, n);
    assert OwnOk(run[n], c, run[n].clients[c]) && OwnOk(run[n], d, run[n].clients[d]);
    assert SectionOk(run[n], run[n].clients[c]) && SectionOk(run[n], run[n].clients[d]);
  }
}
