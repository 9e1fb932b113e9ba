/**
 What the lease calls achieve when nothing fails and no other client acts in between, so that the safety results are
 not met by calls that never succeed.
 */
module LeaseProgress {
  import opened Option
  import opened LeaseProtocol
  import Codec = CoordinationCodec

  // The steps can be taken one after another.
  predicate AllEnabled(s: State, steps: seq<Step>)
    decreases |steps|
  {
    steps == [] || (Enabled(s, steps[0]) && AllEnabled(Apply(s, steps[0]), steps[1..]))
  }

  function After(s: State, steps: seq<Step>): State
    requires AllEnabled(s, steps)
    decreases |steps|
  {
    if steps == [] then s else After(Apply(s, steps[0]), steps[1..])
  }

  lemma {:induction false} Concatenated(s: State, a: seq<Step>, b: seq<Step>)
    requires AllEnabled(s, a) && AllEnabled(After(s, a), b)
    ensures AllEnabled(s, a + b) && After(s, a + b) == After(After(s, a), b)
    decreases |a|
  {
    if a == [] {
      assert a + b == b;
    } else {
      Concatenated(Apply(s, a[0]), a[1..], b);
      assert (a + b)[1..] == a[1..] + b;
    }
  }

  lemma OneStep(s: State, step: Step)
    requires Enabled(s, step)
    ensures AllEnabled(s, [step]) && After(s, [step]) == Apply(s, step)
  {
    assert [step][1..] == [];
    assert AllEnabled(Apply(s, step), []);
  }

  function WithClient(s: State, c: ClientId, cl: Client): State {
    s.(clients := s.clients[c := cl])
  }

  function Observed(s: State): Handle
    requires s.store.Some?
  {
    Handle(s.store.value.doc, s.store.value.etag, s.store.value.modified, s.clock)
  }

  function Reads(c: ClientId): seq<Step> {
    [Read(c), Read(c), Read(c), Read(c)]
  }

  // The client between the calls of a read over an unchanging object.
  function Between(s: State, c: ClientId, stage: Stage): State
    requires c in s.clients && s.clients[c].pc.Reading?
  {
    WithClient(s, c, s.clients[c].(pc := Reading(s.clients[c].pc.why, stage)))
  }

  lemma QuietCalls(s: State, c: ClientId)
    requires c in s.clients && s.clients[c].pc.Reading? && s.clients[c].pc.stage.BeforeHead? && s.store.Some?
    ensures var head, doc := HeadOf(s.store.value), s.store.value.doc;
            && Apply(s, Read(c)) == Between(s, c, VerifyHead(head))
            && Apply(Between(s, c, VerifyHead(head)), Read(c)) == Between(s, c, Body(head))
            && Apply(Between(s, c, Body(head)), Read(c)) == Between(s, c, AfterHead(head, doc))
  {
  }

  lemma QuietEnd(s: State, c: ClientId)
    requires c in s.clients && s.clients[c].pc.Reading? && s.store.Some?
    ensures Apply(Between(s, c, AfterHead(HeadOf(s.store.value), s.store.value.doc)), Read(c)) ==
            WithClient(s, c, Finish(s.clients[c], s.clients[c].pc.why, Observed(s)))
  {
    var last := Between(s, c, AfterHead(HeadOf(s.store.value), s.store.value.doc));
    FinishIgnoresStage(s.clients[c], last.clients[c], Observed(s));
  }

  // HEAD, HEAD, GET, HEAD over an unchanging object.
  lemma QuietRead(s: State, c: ClientId)
    requires c in s.clients && s.clients[c].pc.Reading? && s.clients[c].pc.stage.BeforeHead? && s.store.Some?
    ensures AllEnabled(s, Reads(c))
    ensures After(s, Reads(c)) == WithClient(s, c, Finish(s.clients[c], s.clients[c].pc.why, Observed(s)))
  {
    var head := HeadOf(s.store.value);
    var s1, s2, s3 := Between(s, c, VerifyHead(head)), Between(s, c, Body(head)),
        Between(s, c, AfterHead(head, s.store.value.doc));
    QuietCalls(s, c);
    QuietEnd(s, c);
    FourSteps(s, s1, s2, s3, Read(c));
  }

  lemma FourSteps(s: State, s1: State, s2: State, s3: State, step: Step)
    requires Enabled(s, step) && Enabled(s1, step) && Enabled(s2, step) && Enabled(s3, step)
    requires s1 == Apply(s, step) && s2 == Apply(s1, step) && s3 == Apply(s2, step)
    ensures AllEnabled(s, [step, step, step, step]) && After(s, [step, step, step, step]) == Apply(s3, step)
  {
    OneStep(s3, step);
    OneStep(s2, step);
    OneStep(s1, step);
    OneStep(s, step);
    Concatenated(s2, [step], [step]);
    Concatenated(s1, [step], [step] + [step]);
    Concatenated(s, [step], [step] + ([step] + [step]));
    assert [step] + ([step] + ([step] + [step])) == [step, step, step, step];
  }

  lemma FinishIgnoresStage(a: Client, b: Client, seen: Handle)
    requires a.pc.Reading? && b == a.(pc := b.pc)
    ensures Finish(a, a.pc.why, seen) == Finish(b, a.pc.why, seen)
  {
  }

  lemma TwoSteps(s: State, a: Step, b: Step)
    requires Enabled(s, a) && Enabled(Apply(s, a), b)
    ensures AllEnabled(s, [a, b]) && After(s, [a, b]) == Apply(Apply(s, a), b)
  {
    OneStep(s, a);
    OneStep(Apply(s, a), b);
    Concatenated(s, [a], [b]);
    assert [a] + [b] == [a, b];
  }

  // A step and the read that follows it.
  lemma StepAndRead(s: State, step: Step, c: ClientId)
    requires Enabled(s, step)
    requires var t := Apply(s, step);
             c in t.clients && t.clients[c].pc.Reading? && t.clients[c].pc.stage.BeforeHead? && t.store.Some?
    ensures AllEnabled(s, [step] + Reads(c))
    ensures var t := Apply(s, step);
            After(s, [step] + Reads(c)) == WithClient(t, c, Finish(t.clients[c], t.clients[c].pc.why, Observed(t)))
  {
    OneStep(s, step);
    QuietRead(Apply(s, step), c);
    Concatenated(s, [step], Reads(c));
  }

  // Over an empty store acquire hands out the lease it built, also when its PUT took effect and yet raised.
  lemma AcquireSucceeds(s: State, c: ClientId, owner: string, purpose: string, ttl: int, drawn: LeaseId, etag: ETag,
                        raised: bool)
    requires c in s.clients && MayBegin(s.clients[c], Acquire(owner, purpose, ttl)) && s.store.None?
    requires drawn !in s.owners && Codec.IsLowerHex(drawn, 32)
    requires ETagFor(s, etag, Codec.Lease(drawn, owner, purpose, 1, ttl))
    ensures var steps := [Begin(c, Acquire(owner, purpose, ttl)),
              Probe(c, drawn)] + ([Put(c, etag, true, raised)] + Reads(c));
            var mine := Codec.Lease(drawn, owner, purpose, 1, ttl);
            && AllEnabled(s, steps)
            && After(s, steps) ==
               WithClient(s, c, Given(s.clients[c], Handle(mine, etag, s.clock, s.clock)))
               .(store := Some(Write(mine, etag, s.clock)), log := s.log + [Write(mine, etag, s.clock)],
                   owners := s.owners[drawn := c])
  {
    var begin, probe, put := Begin(c, Acquire(owner, purpose, ttl)), Probe(c, drawn), Put(c, etag, true, raised);
    TwoSteps(s, begin, probe);
    var s2 := Apply(Apply(s, begin), probe);
    StepAndRead(s2, put, c);
    Concatenated(s, [begin, probe], [put] + Reads(c));
  }

  // The client can start a call, and the handle, wherever it comes from, names the stored write.
  predicate Ready(s: State, c: ClientId, h: Handle) {
    c in s.clients && s.clients[c].pc.Idle? && s.store == Some(Write(h.doc, h.etag, h.acquiredAt))
  }

  // Inspecting returns a handle of the stored write, also to a client that did not acquire it.
  lemma InspectSucceeds(s: State, c: ClientId, drawn: LeaseId)
    requires c in s.clients && s.clients[c].pc.Idle? && s.store.Some?
    requires drawn !in s.owners && Codec.IsLowerHex(drawn, 32)
    ensures var steps := [Begin(c, Inspect)] + ([Probe(c, drawn)] + Reads(c));
            && AllEnabled(s, steps)
            && After(s, steps) == WithClient(s, c, s.clients[c].(answer := Returned(Observed(s))))
  {
    var begin, probe := Begin(c, Inspect), Probe(c, drawn);
    OneStep(s, begin);
    StepAndRead(Apply(s, begin), probe, c);
    Concatenated(s, [begin], [probe] + Reads(c));
  }

  // The handle names the stored write, and that has not expired.
  predicate Current(s: State, h: Handle) {
    s.store == Some(Write(h.doc, h.etag, h.acquiredAt)) && s.clock < h.acquiredAt + h.doc.ttl
  }

  // Asserting a handle returns exactly when it names the stored write and that has not expired, and changes nothing.
  lemma AssertReturnsIff(s: State, c: ClientId, h: Handle)
    requires c in s.clients && s.clients[c].pc.Idle? && s.store.Some?
    ensures var steps := [Begin(c, Assert(h))] + Reads(c);
            && AllEnabled(s, steps)
            && After(s, steps) ==
               WithClient(s, c, s.clients[c].(answer := if Current(s, h) then Returned(Observed(s)) else Raised))
  {
    StepAndRead(s, Begin(c, Assert(h)), c);
  }

  // A renewal goes on to its PUT exactly when its handle names the stored write and that has not expired; otherwise it
  // raises with nothing written.
  lemma RenewProceedsIff(s: State, c: ClientId, h: Handle)
    requires c in s.clients && s.clients[c].pc.Idle? && s.store.Some?
    ensures var steps := [Begin(c, Renew(h))] + Reads(c);
            && AllEnabled(s, steps)
            && After(s, steps) ==
               WithClient(s, c, if Current(s, h)
                                then s.clients[c].(pc := RenewPut(Observed(s)), answer := Unanswered)
                                else s.clients[c].(answer := Raised))
  {
    StepAndRead(s, Begin(c, Renew(h)), c);
  }

  // A release goes on to its DELETE exactly when its handle names the stored write, expired or not; otherwise it raises
  // with nothing removed.
  lemma ReleaseProceedsIff(s: State, c: ClientId, h: Handle)
    requires c in s.clients && s.clients[c].pc.Idle? && s.store.Some?
    ensures var steps := [Begin(c, Release(h))] + Reads(c);
            var cl := s.clients[c].(held := if Holds(s.clients[c], h) then None else s.clients[c].held);
            && AllEnabled(s, steps)
            && After(s, steps) ==
               WithClient(s, c, if s.store == Some(Write(h.doc, h.etag, h.acquiredAt))
                                then cl.(pc := ReleaseDelete(Observed(s)), answer := Unanswered)
                                else cl.(answer := Raised))
  {
    StepAndRead(s, Begin(c, Release(h)), c);
  }

  // After its PUT, acquire or renew returns the lease, which its client then holds, exactly when the document it built
  // is stored and has not expired.
  lemma ConfirmReturnsIff(s: State, c: ClientId, mine: Lease)
    requires c in s.clients && s.store.Some?
    requires s.clients[c].pc in {Reading(AcquireConfirm(mine), BeforeHead), Reading(RenewConfirm(mine), BeforeHead)}
    ensures AllEnabled(s, Reads(c))
    ensures var cl, seen := s.clients[c], Observed(s);
            After(s, Reads(c)) ==
            WithClient(s, c, if seen.doc == mine && s.clock < seen.acquiredAt + mine.ttl
                             then Client(Idle, Some(seen), cl.given + {seen}, Returned(seen))
                             else Client(Idle, cl.held, cl.given, Raised))
  {
    QuietRead(s, c);
  }

  // Renewing an unexpired lease replaces it by its next generation, which the client then holds.
  lemma RenewSucceeds(s: State, c: ClientId, h: Handle, etag: ETag, raised: bool)
    requires Ready(s, c, h) && s.clock < h.acquiredAt + h.doc.ttl && 0 < h.doc.ttl
    requires ETagFor(s, etag, h.doc.(generation := h.doc.generation + 1))
    ensures var steps := ([Begin(c, Renew(h))] + Reads(c)) + ([Put(c, etag, true, raised)] + Reads(c));
            var next := h.doc.(generation := h.doc.generation + 1);
            && AllEnabled(s, steps)
            && Ready(After(s, steps), c, Handle(next, etag, s.clock, s.clock))
            && After(s, steps).clients[c].held == Some(Handle(next, etag, s.clock, s.clock))
  {
    var begin, put := Begin(c, Renew(h)), Put(c, etag, true, raised);
    StepAndRead(s, begin, c);
    var s2 := After(s, [begin] + Reads(c));
    assert s2.clients[c].pc == RenewPut(Observed(s));
    StepAndRead(s2, put, c);
    Concatenated(s, [begin] + Reads(c), [put] + Reads(c));
  }

  // Releasing the stored lease, expired or not, empties the store. Of the clients only the caller changes, and it holds
  // that lease no more.
  lemma ReleaseSucceeds(s: State, c: ClientId, h: Handle, raised: bool)
    requires Ready(s, c, h)
    ensures var steps := ([Begin(c, Release(h))] + Reads(c)) + [Delete(c, true, raised), CheckGone(c)];
            && AllEnabled(s, steps)
            && After(s, steps) ==
               WithClient(s, c,
                   s.clients[c].(held := if Holds(s.clients[c], h) then None else s.clients[c].held, answer := Done))
               .(store := None)
  {
    var begin := Begin(c, Release(h));
    StepAndRead(s, begin, c);
    var s2 := After(s, [begin] + Reads(c));
    assert s2.clients[c].pc == ReleaseDelete(Observed(s));
    TwoSteps(s2, Delete(c, true, raised), CheckGone(c));
    Concatenated(s, [begin] + Reads(c), [Delete(c, true, raised), CheckGone(c)]);
  }

  // Recovering a stored lease deletes it exactly when it has expired and the confirmation repeats its identity and
  // attests that its owner has stopped.
  lemma RecoverProceedsIff(s: State, c: ClientId, confirm: Confirmation, drawn: LeaseId)
    requires c in s.clients && s.clients[c].pc.Idle? && s.store.Some?
    requires drawn !in s.owners && Codec.IsLowerHex(drawn, 32)
    ensures var steps := [Begin(c, Recover(confirm))] + ([Probe(c, drawn)] + Reads(c));
            var w := s.store.value;
            && AllEnabled(s, steps) && c in After(s, steps).clients
            && (After(s, steps).clients[c].pc.RecoverDelete? <==>
                  && s.clock >= w.modified + w.doc.ttl
                  && confirm == Confirmation(w.doc.id, w.doc.owner, w.doc.purpose, Some(w.doc.id)))
            && (!After(s, steps).clients[c].pc.RecoverDelete? ==> After(s, steps).clients[c].pc.Idle?)
  {
    var begin, probe := Begin(c, Recover(confirm)), Probe(c, drawn);
    OneStep(s, begin);
    StepAndRead(Apply(s, begin), probe, c);
    Concatenated(s, [begin], [probe] + Reads(c));
  }

  // ---------------------------------------------------------------- a run with a foreign handle

  // The states passed through.
  function Trace(s: State, steps: seq<Step>): (run: seq<State>)
    requires AllEnabled(s, steps)
    ensures |run| == |steps| + 1 && run[0] == s && run[|steps|] == After(s, steps)
    decreases |steps|
  {
    if steps == [] then [s] else [s] + Trace(Apply(s, steps[0]), steps[1..])
  }

  lemma {:induction false} TraceSteps(s: State, steps: seq<Step>, i: nat)
    requires AllEnabled(s, steps) && i < |steps|
    ensures Next(Trace(s, steps)[i], steps[i], Trace(s, steps)[i + 1])
    decreases |steps|
  {
    if i > 0 {
      TraceSteps(Apply(s, steps[0]), steps[1..], i - 1);
    }
  }

  lemma TraceIsRun(s: State, steps: seq<Step>)
    requires Init(s) && AllEnabled(s, steps)
    ensures IsRun(Trace(s, steps), steps)
  {
    forall i | 0 <= i < |steps| ensures Next(Trace(s, steps)[i], steps[i], Trace(s, steps)[i + 1]) {
      TraceSteps(s, steps, i);
    }
  }

  function AcquireSteps(c: ClientId, owner: string, purpose: string, ttl: int, drawn: LeaseId, etag: ETag): seq<Step> {
    [Begin(c, Acquire(owner, purpose, ttl)), Probe(c, drawn)] + ([Put(c, etag, true, false)] + Reads(c))
  }

  function InspectSteps(c: ClientId, drawn: LeaseId): seq<Step> {
    [Begin(c, Inspect)] + ([Probe(c, drawn)] + Reads(c))
  }

  function ReleaseSteps(c: ClientId, h: Handle): seq<Step> {
    ([Begin(c, Release(h))] + Reads(c)) + [Delete(c, true, false), CheckGone(c)]
  }

  // A client that reads a lease with inspect can release it, whoever acquired it.
  lemma InspectAndRelease(s: State, d: ClientId, drawn: LeaseId)
    requires d in s.clients && s.clients[d].pc.Idle? && s.clients[d].held.None? && s.store.Some?
    requires drawn !in s.owners && Codec.IsLowerHex(drawn, 32)
    ensures var steps := InspectSteps(d, drawn) + ReleaseSteps(d, Observed(s));
            && AllEnabled(s, steps)
            && After(s, steps) == WithClient(s, d, s.clients[d].(answer := Done)).(store := None)
  {
    InspectSucceeds(s, d, drawn);
    var t := After(s, InspectSteps(d, drawn));
    ReleaseSucceeds(t, d, Observed(s), false);
    Concatenated(s, InspectSteps(d, drawn), ReleaseSteps(d, Observed(s)));
  }

  function Intrusion(s: State, d: ClientId, mine: Lease, etag: ETag): seq<Step>
    requires s.store.Some?
  {
    (InspectSteps(d, mine.id) + ReleaseSteps(d, Observed(s))) + AcquireSteps(d, mine.owner, mine.purpose, mine.ttl,
        mine.id, etag)
  }

  // Then it can acquire while the first client is still in its section: exclusion needs clients to use their own
  // handles.
  lemma ForeignReleaseBreaksExclusion(s: State, c: ClientId, d: ClientId, mine: Lease, etag: ETag)
    requires InSection(s, c) && s.store.Some? && c != d
    requires d in s.clients && s.clients[d].pc.Idle? && s.clients[d].held.None?
    requires Codec.ValidLease(mine) && mine.generation == 1 && mine.id !in s.owners && ETagFor(s, etag, mine)
    ensures AllEnabled(s, Intrusion(s, d, mine, etag))
    ensures InSection(After(s, Intrusion(s, d, mine, etag)), c) && InSection(After(s, Intrusion(s, d, mine, etag)), d)
  {
    InspectAndRelease(s, d, mine.id);
    var first := InspectSteps(d, mine.id) + ReleaseSteps(d, Observed(s));
    var t := After(s, first);
    AcquireSucceeds(t, d, mine.owner, mine.purpose, mine.ttl, mine.id, etag, false);
    Concatenated(s, first, AcquireSteps(d, mine.owner, mine.purpose, mine.ttl, mine.id, etag));
  }

  // No recovery takes part, so every attestation is truthful.
  lemma TruthfulWithoutRecovery(run: seq<State>, steps: seq<Step>)
    requires |run| == |steps| + 1 && forall step: Step :: step in steps ==> !(step.Begin? && step.call.Recover?)
    ensures AllTruthful(run, steps)
  {
  }

  lemma NoRecovery(s: State, c: ClientId, d: ClientId, a: Lease, b: Lease, e: ETag, f: ETag)
    requires s.store.Some?
    ensures var steps := AcquireSteps(c, a.owner, a.purpose, a.ttl, a.id, e) + Intrusion(s, d, b, f);
            forall step: Step :: step in steps ==> !(step.Begin? && step.call.Recover?)
  {
  }

  // A whole run, from any beginning with two clients and any two new leases: every attestation in it is truthful, and
  // both clients are in their sections at its end.
  lemma RunWithForeignRelease(start: State, c: ClientId, d: ClientId, a: Lease, b: Lease, e: ETag, f: ETag)
    returns (run: seq<State>, steps: seq<Step>)
    requires Init(start) && c in start.clients && d in start.clients && c != d
    requires Codec.ValidLease(a) && a.generation == 1 && Codec.ValidLease(b) && b.generation == 1 && a.id != b.id
               && e != f
    ensures IsRun(run, steps) && run[0] == start && AllTruthful(run, steps)
    ensures InSection(run[|steps|], c) && InSection(run[|steps|], d)
  {
    var first := AcquireSteps(c, a.owner, a.purpose, a.ttl, a.id, e);
    AcquireSucceeds(start, c, a.owner, a.purpose, a.ttl, a.id, e, false);
    var held := After(start, first);
    ForeignReleaseBreaksExclusion(held, c, d, b, f);
    Concatenated(start, first, Intrusion(held, d, b, f));
    steps := first + Intrusion(held, d, b, f);
    TraceIsRun(start, steps);
    run := Trace(start, steps);
    NoRecovery(held, c, d, a, b, e, f);
    TruthfulWithoutRecovery(run, steps);
  }
}
