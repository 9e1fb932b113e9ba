/**
 What mutual exclusion needs, exactly: as long as clients renew only what they hold, the lease a client holds is the
 stored one throughout a run if and only if no deletion takes effect on a lease that some client holds.
 */
module LeaseHeld {
  import opened Option
  import opened LeaseProtocol
  import opened LeaseSafety

  predicate RenewsHeld(s: State, step: Step) {
    step.Begin? && step.c in s.clients && step.call.Renew? ==> Holds(s.clients[step.c], step.call.handle)
  }

  predicate AllRenewHeld(run: seq<State>, steps: seq<Step>)
    requires |run| == |steps| + 1
  {
    forall i :: 0 <= i < |steps| ==> RenewsHeld(run[i], steps[i])
  }

  // The lease this client believes it holds is the stored one.
  ghost predicate HoldsStored(s: State, c: ClientId) {
    InSection(s, c) ==> Stores(s, s.clients[c].held.value.doc.id)
  }

  // A deletion that takes effect here removes a lease that no client holds, neither its caller nor another one.
  ghost predicate SparesHolders(s: State, step: Step) {
    step.Delete? && step.effect && s.store.Some? ==>
      forall c :: InSection(s, c) ==> s.clients[c].held.value.doc.id != s.store.value.doc.id
  }

  ghost predicate SparedUntil(run: seq<State>, steps: seq<Step>, n: nat)
    requires |run| == |steps| + 1 && n <= |steps|
  {
    forall i :: 0 <= i < n ==> SparesHolders(run[i], steps[i])
  }

  ghost predicate HeldOk(s: State, c: ClientId, cl: Client) {
    && (cl.held.Some? ==> Owns(s, c, cl.held.value.doc.id) && Stores(s, cl.held.value.doc.id))
    && (Renewing(cl.pc).Some? ==> cl.held.Some? && cl.held.value.doc.id == Renewing(cl.pc).value)
  }

  ghost predicate HeldInv(s: State) {
    Inv(s) && forall c :: c in s.clients ==> HeldOk(s, c, s.clients[c])
  }

  // A client whose lease, and what it is renewing, stay the same.
  lemma HeldCarries(s: State, s': State, c: ClientId, cl: Client, cl': Client)
    requires HeldOk(s, c, cl) && Extends(s, s')
    requires cl'.held == cl.held || (cl'.held.None? && Renewing(cl'.pc).None?)
    requires Renewing(cl'.pc).None? || Renewing(cl'.pc) == Renewing(cl.pc)
    requires cl'.held.Some? && Stores(s, cl'.held.value.doc.id) ==> Stores(s', cl'.held.value.doc.id)
    ensures HeldOk(s', c, cl')
  {
  }

  // Nobody holds anything when a creation or a sparing deletion takes effect, and a renewal keeps the identifier.
  lemma HeldStays(s: State, step: Step, id: LeaseId)
    requires HeldInv(s) && Enabled(s, step) && SparesHolders(s, step)
    requires exists c :: InSection(s, c) && s.clients[c].held.value.doc.id == id
    ensures Stores(Apply(s, step), id)
  {
    var c :| InSection(s, c) && s.clients[c].held.value.doc.id == id;
    assert HeldOk(s, c, s.clients[c]);
    if step.Put? && step.effect {
      assert ClientOk(s, step.c, s.clients[step.c]);
      if s.clients[step.c].pc.RenewPut? {
        CurrentIsStored(s, s.clients[step.c].pc.current);
      }
    }
  }

  lemma OthersHeld(s: State, step: Step, d: ClientId)
    requires HeldInv(s) && Enabled(s, step) && SparesHolders(s, step) && d in s.clients && Mover(step) != Some(d)
    ensures HeldOk(Apply(s, step), d, s.clients[d])
  {
    StepExtends(s, step);
    if s.clients[d].held.Some? {
      assert InSection(s, d);
      HeldStays(s, step, s.clients[d].held.value.doc.id);
    }
    HeldCarries(s, Apply(s, step), d, s.clients[d], s.clients[d]);
  }

  // acquire and renew return what is stored.
  lemma FinishHeld(s: State, c: ClientId, cl: Client, seen: Handle)
    requires HeldOk(s, c, cl) && cl.pc.Reading? && PurposeOk(s, c, cl.pc.why) && Stores(s, seen.doc.id)
    ensures HeldOk(s, c, Finish(cl, cl.pc.why, seen))
  {
    var cl' := Finish(cl, cl.pc.why, seen);
    if cl'.held == cl.held {
      HeldCarries(s, s, c, cl, cl');
    }
  }

  lemma ReaderHeld(s: State, c: ClientId)
    requires HeldInv(s) && Enabled(s, Read(c))
    ensures HeldOk(s, c, AfterRead(s, s.clients[c]))
  {
    var cl := s.clients[c];
    assert HeldOk(s, c, cl) && ClientOk(s, c, cl);
    if s.store.Some? && cl.pc.stage.AfterHead? && HeadOf(s.store.value) == cl.pc.stage.before {
      var w := s.store.value;
      assert Sha256(cl.pc.stage.body) == Sha256(w.doc);
      FinishHeld(s, c, cl, Handle(cl.pc.stage.body, w.etag, w.modified, s.clock));
    } else {
      HeldCarries(s, s, c, cl, AfterRead(s, cl));
    }
  }

  lemma MoverHeld(s: State, step: Step)
    requires HeldInv(s) && Enabled(s, step) && SparesHolders(s, step) && RenewsHeld(s, step) && Mover(step).Some?
    ensures HeldOk(Apply(s, step), Mover(step).value, Apply(s, step).clients[Mover(step).value])
  {
    var s', c := Apply(s, step), Mover(step).value;
    assert HeldOk(s, c, s.clients[c]);
    if step.Read? {
      ReaderHeld(s, c);
    } else if step.Begin? {
      CallerHeld(s, step);
    } else {
      OtherStepHeld(s, step, c);
    }
  }

  // Nothing but a read or the beginning of a call changes what a client holds or renews, unless it stops.
  lemma OtherStepHeld(s: State, step: Step, c: ClientId)
    requires HeldInv(s) && Enabled(s, step) && SparesHolders(s, step) && Mover(step) == Some(c)
    requires !step.Read? && !step.Begin?
    ensures HeldOk(Apply(s, step), c, Apply(s, step).clients[c])
  {
    StepExtends(s, step);
    assert HeldOk(s, c, s.clients[c]);
    if s.clients[c].held.Some? {
      assert InSection(s, c);
      HeldStays(s, step, s.clients[c].held.value.doc.id);
    }
    HeldCarries(s, Apply(s, step), c, s.clients[c], Apply(s, step).clients[c]);
  }

  lemma CallerHeld(s: State, step: Step)
    requires HeldInv(s) && Enabled(s, step) && RenewsHeld(s, step) && step.Begin?
    ensures HeldOk(s, step.c, Started(s.clients[step.c], step.call))
  {
    assert HeldOk(s, step.c, s.clients[step.c]);
  }

  lemma HeldStep(s: State, step: Step)
    requires HeldInv(s) && Enabled(s, step) && SparesHolders(s, step) && RenewsHeld(s, step)
    ensures HeldInv(Apply(s, step))
  {
    var s' := Apply(s, step);
    StepExtends(s, step);
    InvStep(s, step);
    forall d | d in s'.clients ensures HeldOk(s', d, s'.clients[d]) {
      if Mover(step) == Some(d) {
        MoverHeld(s, step);
      } else {
        OthersHeld(s, step, d);
      }
    }
  }

  lemma {:induction false} RunHeld(run: seq<State>, steps: seq<Step>, n: nat)
    requires IsRun(run, steps) && AllRenewHeld(run, steps) && n < |run| && SparedUntil(run, steps, n)
    ensures HeldInv(run[n])
  {
    if n == 0 {
      InvInit(run[0]);
    } else {
      RunHeld(run, steps, n - 1);
      assert Next(run[n - 1], steps[n - 1], run[n]);
      assert RenewsHeld(run[n - 1], steps[n - 1]) && SparesHolders(run[n - 1], steps[n - 1]);
      HeldStep(run[n - 1], steps[n - 1]);
    }
  }

  // Exclusion lasts until a deletion takes effect on a lease that some client holds, whatever handles are released and
  // whatever attestations are made.
  lemma ExclusionUntilHeldIsDeleted(run: seq<State>, steps: seq<Step>, n: nat, c: ClientId, d: ClientId)
    requires IsRun(run, steps) && AllRenewHeld(run, steps) && n < |run| && SparedUntil(run, steps, n)
    requires InSection(run[n], c) && InSection(run[n], d)
    ensures c == d && HoldsStored(run[n], c)
  {
    RunHeld(run, steps, n);
    assert HeldOk(run[n], c, run[n].clients[c]) && HeldOk(run[n], d, run[n].clients[d]);
  }

  // Such a deletion leaves its holder with a lease that is not stored.
  lemma DeletedHolderHoldsNothing(s: State, step: Step, c: ClientId)
    requires Enabled(s, step) && step.Delete? && step.effect && InSection(s, c)
    ensures InSection(Apply(s, step), c) && !HoldsStored(Apply(s, step), c)
  {
  }

  lemma HeldIsStoredIff(run: seq<State>, steps: seq<Step>)
    requires IsRun(run, steps) && AllRenewHeld(run, steps)
    ensures (forall n, c :: 0 <= n < |run| ==> HoldsStored(run[n], c)) <==> SparedUntil(run, steps, |steps|)
  {
    if SparedUntil(run, steps, |steps|) {
      forall n, c | 0 <= n < |run| ensures HoldsStored(run[n], c) {
        RunHeld(run, steps, n);
        if InSection(run[n], c) {
          assert HeldOk(run[n], c, run[n].clients[c]);
        }
      }
    } else {
      var i :| 0 <= i < |steps| && !SparesHolders(run[i], steps[i]);
      var c :| InSection(run[i], c) && run[i].clients[c].held.value.doc.id == run[i].store.value.doc.id;
      assert Next(run[i], steps[i], run[i + 1]);
      DeletedHolderHoldsNothing(run[i], steps[i], c);
    }
  }

  // Own handles and truthful attestations are one way to spare every holder.
  lemma OwnHandlesSpareHolders(run: seq<State>, steps: seq<Step>, n: nat)
    requires IsRun(run, steps) && AllTruthful(run, steps) && AllUseOwnHandles(run, steps) && n <= |steps|
    ensures AllRenewHeld(run, steps) && SparedUntil(run, steps, n)
  {
    forall i | 0 <= i < |steps| ensures RenewsHeld(run[i], steps[i]) {
      assert UsesOwnHandle(run[i], steps[i]);
    }
    forall i | 0 <= i < n ensures SparesHolders(run[i], steps[i]) {
      OwnHandlesSpare(run, steps, i);
    }
  }

  lemma OwnHandlesSpare(run: seq<State>, steps: seq<Step>, i: nat)
    requires IsRun(run, steps) && AllTruthful(run, steps) && AllUseOwnHandles(run, steps) && i < |steps|
    ensures SparesHolders(run[i], steps[i])
  {
    RunExclusion(run, steps, i);
    assert Next(run[i], steps[i], run[i + 1]);
    if steps[i].Delete? && steps[i].effect {
      forall c | InSection(run[i], c) ensures run[i].clients[c].held.value.doc.id != run[i].store.value.doc.id {
        DeleteSparesOthers(run[i], steps[i], c);
      }
    }
  }
}
