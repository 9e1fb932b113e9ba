/**
 The cross-host PITR coordination lease as a state machine, one step per object-store call.

 Any number of clients interleave inspect, acquire, assert, renew, release and recover.  Assert, renew and release
 take any handle: one the client was given, one read back with inspect, or one made up.  The stored object is
 a lease document; CoordinationCodec.LeaseAcceptedIffEncoded shows that a document and its bytes determine
 each other, so the bytes are not repeated here.  A step takes its nondeterminism (did the write take effect,
 which ETag did the server choose, which identifier was drawn) as arguments.
 */
module LeaseProtocol {
  import opened Option
  import Codec = CoordinationCodec

  type ClientId = nat
  type LeaseId = string
  type ETag = nat
  type Time = int
  type Lease = Codec.Lease

  // SHA-256 of the encoded document, taken to be injective.
  datatype Digest = Sha256(content: Lease)

  // One effective write: content, the entity tag the server gave it, and its Last-Modified time.
  datatype Write = Write(doc: Lease, etag: ETag, modified: Time)

  datatype Head = Head(etag: ETag, digest: Digest)

  // What a client knows about a lease it has read back.
  datatype Handle = Handle(doc: Lease, etag: ETag, acquiredAt: Time, observedAt: Time) {
    predicate Expired() {
      observedAt >= acquiredAt + doc.ttl
    }

    predicate SameLease(that: Handle) {
      doc == that.doc && etag == that.etag && acquiredAt == that.acquiredAt
    }
  }

  datatype Confirmation = Confirmation(id: LeaseId, owner: string, purpose: string, attested: Option<LeaseId>)

  // How a call ends: with a return value (None, nothing, or a handle) or with an exception.
  datatype Answer = Unanswered | Raised | Absent | Done | Returned(handle: Handle)

  // Why a stable read (HEAD, HEAD, GET, HEAD) is being made.
  datatype Purpose =
    | InspectRead
    | AcquireBusy
    | AcquireConfirm(mine: Lease)
    | AssertRead(handle: Handle)
    | RenewRead(handle: Handle)
    | RenewConfirm(mine: Lease)
    | ReleaseRead(handle: Handle)
    | RecoverRead(confirm: Confirmation)

  datatype Stage =
    | BeforeHead
    | VerifyHead(before: Head)
    | Body(before: Head)
    | AfterHead(before: Head, body: Lease)

  datatype Pc =
    | Idle
    | Stopped
    | AcquireProbe(owner: string, purpose: string, ttl: int)
    | InspectProbe
    | RecoverProbe(confirm: Confirmation)
    | Reading(why: Purpose, stage: Stage)
    | AcquirePut(mine: Lease)
    | RenewPut(current: Handle)
    | ReleaseDelete(current: Handle)
    | RecoverDelete(current: Handle, confirm: Confirmation)
    | DeleteCheck(etag: ETag, success: Answer)

  // held is the handle of the lease the client believes it owns; given are the handles its acquire and renew calls have
  // returned; answer is how its last call ended.
  datatype Client = Client(pc: Pc, held: Option<Handle>, given: set<Handle>, answer: Answer)

  // log records every effective write in order; owners records who drew each lease identifier.
  datatype State = State(
    clock: Time,
    store: Option<Write>,
    log: seq<Write>,
    owners: map<LeaseId, ClientId>,
    clients: map<ClientId, Client>)

  datatype Call =
    | Inspect
    | Acquire(owner: string, purpose: string, ttl: int)
    | Assert(handle: Handle)
    | Renew(handle: Handle)
    | Release(handle: Handle)
    | Recover(confirm: Confirmation)

  datatype Step =
    | Tick(elapsed: nat)
    | Stop(c: ClientId)
    | Begin(c: ClientId, call: Call)
    | ReadRaises(c: ClientId)
    | Probe(c: ClientId, drawn: LeaseId)
    | Read(c: ClientId)
    | Put(c: ClientId, etag: ETag, effect: bool, raised: bool)
    | Delete(c: ClientId, effect: bool, raised: bool)
    | CheckGone(c: ClientId)

  predicate Init(s: State) {
    && s.store == None
    && s.log == []
    && s.owners == map[]
    && forall c :: c in s.clients ==> s.clients[c] == Client(Idle, None, {}, Unanswered)
  }

  predicate InSection(s: State, c: ClientId) {
    c in s.clients && s.clients[c].held.Some?
  }

  function PcOf(s: State, c: ClientId): Pc {
    if c in s.clients then s.clients[c].pc else Stopped
  }

  function WithPc(s: State, c: ClientId, pc: Pc): State
    requires c in s.clients
  {
    s.(clients := s.clients[c := s.clients[c].(pc := pc)])
  }

  function Ended(cl: Client, answer: Answer): Client {
    cl.(pc := Idle, answer := answer)
  }

  function WithAnswer(s: State, c: ClientId, answer: Answer): State
    requires c in s.clients
  {
    s.(clients := s.clients[c := Ended(s.clients[c], answer)])
  }

  // ---------------------------------------------------------------- starting a call

  predicate MayBegin(cl: Client, call: Call) {
    && cl.pc.Idle?
    // Anything else is rejected before the store is touched.
    && (call.Acquire? ==>
          Codec.IsLabel(call.owner) && Codec.IsLabel(call.purpose) && Codec.MIN_TTL <= call.ttl <= Codec.MAX_TTL)
  }

  // The handle names the lease the client believes it owns.
  predicate Holds(cl: Client, h: Handle) {
    cl.held.Some? && cl.held.value.doc.id == h.doc.id
  }

  function Started(client: Client, call: Call): Client {
    var cl := client.(answer := Unanswered);
    match call
    case Inspect => cl.(pc := InspectProbe)
    case Acquire(owner, purpose, ttl) => cl.(pc := AcquireProbe(owner, purpose, ttl))
    case Assert(h) => cl.(pc := Reading(AssertRead(h), BeforeHead))
    case Renew(h) => cl.(pc := Reading(RenewRead(h), BeforeHead))
    case Release(h) =>
      // The critical section ends when release is called, whatever the call's outcome.
      cl.(pc := Reading(ReleaseRead(h), BeforeHead), held := if Holds(cl, h) then None else cl.held)
    case Recover(confirm) => cl.(pc := RecoverProbe(confirm))
  }

  // ---------------------------------------------------------------- stable read

  function HeadOf(w: Write): Head {
    Head(w.etag, Sha256(w.doc))
  }

  // acquire and renew return the handle they read back.
  function Given(cl: Client, seen: Handle): Client {
    Ended(cl, Returned(seen)).(held := Some(seen), given := cl.given + {seen})
  }

  // A completed stable read either ends the call or moves it to its write.
  function Finish(cl: Client, why: Purpose, seen: Handle): Client {
    match why
    case InspectRead => Ended(cl, Returned(seen))
    case AcquireBusy => Ended(cl, Raised)
    case AcquireConfirm(mine) =>
      if seen.doc == mine && !seen.Expired() then Given(cl, seen) else Ended(cl, Raised)
    case AssertRead(h) =>
      Ended(cl, if !seen.Expired() && h.SameLease(seen) then Returned(seen) else Raised)
    case RenewRead(h) =>
      if !seen.Expired() && h.SameLease(seen) then cl.(pc := RenewPut(seen)) else Ended(cl, Raised)
    case RenewConfirm(mine) =>
      if seen.doc == mine && !seen.Expired() then Given(cl, seen) else Ended(cl, Raised)
    case ReleaseRead(h) =>
      if h.SameLease(seen) then cl.(pc := ReleaseDelete(seen)) else Ended(cl, Raised)
    case RecoverRead(confirm) =>
      if seen.Expired()
         && (confirm.id, confirm.owner, confirm.purpose) == (seen.doc.id, seen.doc.owner, seen.doc.purpose)
         && confirm.attested == Some(seen.doc.id)
      then cl.(pc := RecoverDelete(seen, confirm))
      else Ended(cl, Raised)
  }

  function AfterRead(s: State, cl: Client): Client
    requires cl.pc.Reading?
  {
    var why := cl.pc.why;
    match s.store
    case None => Ended(cl, Raised)
    case Some(w) =>
      match cl.pc.stage
      case BeforeHead => cl.(pc := Reading(why, VerifyHead(HeadOf(w))))
      case VerifyHead(before) =>
        if Sha256(w.doc) != before.digest then Ended(cl, Raised) else cl.(pc := Reading(why, Body(before)))
      case Body(before) =>
        if Sha256(w.doc) != before.digest then Ended(cl, Raised) else cl.(pc := Reading(why, AfterHead(before, w.doc)))
      case AfterHead(before, body) =>
        if HeadOf(w) != before then Ended(cl, Raised)
        else Finish(cl, why, Handle(body, w.etag, w.modified, s.clock))
  }

  // ---------------------------------------------------------------- conditional writes

  // The document a pending PUT carries.
  function Payload(pc: Pc): Lease
    requires pc.AcquirePut? || pc.RenewPut?
  {
    match pc
    case AcquirePut(mine) => mine
    case RenewPut(current) => current.doc.(generation := current.doc.generation + 1)
  }

  // If-None-Match: * for a creation, If-Match for a renewal.
  predicate PutAllowed(s: State, pc: Pc)
    requires pc.AcquirePut? || pc.RenewPut?
  {
    match pc
    case AcquirePut(_) => s.store.None?
    case RenewPut(current) => s.store.Some? && s.store.value.etag == current.etag
  }

  predicate DeleteAllowed(s: State, current: Handle) {
    s.store.Some? && s.store.value.etag == current.etag
  }

  // Entity tags are equal only for equal content.
  predicate ETagFor(s: State, etag: ETag, doc: Lease) {
    forall i :: 0 <= i < |s.log| && s.log[i].etag == etag ==> s.log[i].doc == doc
  }

  // ---------------------------------------------------------------- the transition system

  // The first HEAD of a call.
  predicate Probing(pc: Pc) {
    pc.InspectProbe? || pc.AcquireProbe? || pc.RecoverProbe?
  }

  predicate Enabled(s: State, step: Step) {
    match step
    case Tick(_) => true
    case Stop(c) => c in s.clients
    case Begin(c, call) => c in s.clients && MayBegin(s.clients[c], call)
    case ReadRaises(c) =>
      && c in s.clients
      && var pc := s.clients[c].pc; Probing(pc) || pc.Reading? || pc.DeleteCheck?
    case Probe(c, drawn) =>
      && c in s.clients
      && Probing(s.clients[c].pc)
      && drawn !in s.owners
      && Codec.IsLowerHex(drawn, 32)
    case Read(c) => c in s.clients && s.clients[c].pc.Reading?
    case Put(c, etag, effect, raised) =>
      && c in s.clients
      && (s.clients[c].pc.AcquirePut? || s.clients[c].pc.RenewPut?)
      && (effect ==> PutAllowed(s, s.clients[c].pc) && ETagFor(s, etag, Payload(s.clients[c].pc)))
      && (!effect ==> raised)
    case Delete(c, effect, raised) =>
      && c in s.clients
      && (s.clients[c].pc.ReleaseDelete? || s.clients[c].pc.RecoverDelete?)
      && (effect ==> DeleteAllowed(s, s.clients[c].pc.current))
      && (!effect ==> raised || s.store.None?)
    case CheckGone(c) => c in s.clients && s.clients[c].pc.DeleteCheck?
  }

  function Apply(s: State, step: Step): State
    requires Enabled(s, step)
  {
    match step
    case Tick(elapsed) => s.(clock := s.clock + elapsed)
    case Stop(c) => s.(clients := s.clients[c := Client(Stopped, None, {}, Unanswered)])
    case Begin(c, call) => s.(clients := s.clients[c := Started(s.clients[c], call)])
    case ReadRaises(c) => WithAnswer(s, c, Raised)
    case Probe(c, drawn) =>
      var pc := s.clients[c].pc;
      if pc.InspectProbe? then
        if s.store.None? then WithAnswer(s, c, Absent) else WithPc(s, c, Reading(InspectRead, BeforeHead))
      else if pc.RecoverProbe? then
        if s.store.None? then WithAnswer(s, c, Raised) else WithPc(s, c, Reading(RecoverRead(pc.confirm), BeforeHead))
      else if s.store.Some? then
        WithPc(s, c, Reading(AcquireBusy, BeforeHead))
      else
        WithPc(s, c, AcquirePut(Codec.Lease(drawn, pc.owner, pc.purpose, 1, pc.ttl))).(owners := s.owners[drawn := c])
    case Read(c) => s.(clients := s.clients[c := AfterRead(s, s.clients[c])])
    case Put(c, etag, effect, raised) =>
      var pc := s.clients[c].pc;
      var doc := Payload(pc);
      var next := Reading(if pc.AcquirePut? then AcquireConfirm(doc) else RenewConfirm(doc), BeforeHead);
      var w := Write(doc, etag, s.clock);
      if effect then WithPc(s, c, next).(store := Some(w), log := s.log + [w]) else WithPc(s, c, next)
    case Delete(c, effect, raised) =>
      var pc := s.clients[c].pc;
      // release returns nothing, recover the lease it removed.
      var success := if pc.ReleaseDelete? then Done else Returned(pc.current);
      var moved := WithPc(s, c, DeleteCheck(pc.current.etag, success));
      if effect then moved.(store := None) else moved
    case CheckGone(c) => WithAnswer(s, c, if s.store.None? then s.clients[c].pc.success else Raised)
  }

  predicate Next(s: State, step: Step, s': State) {
    Enabled(s, step) && s' == Apply(s, step)
  }

  // ---------------------------------------------------------------- attestations

  // The client that drew lease identifier id no longer uses it: it neither holds it nor is still acquiring it.
  predicate OwnerStopped(s: State, id: LeaseId) {
    && id in s.owners
    && var c := s.owners[id];
       c in s.clients ==>
         && !(s.clients[c].held.Some? && s.clients[c].held.value.doc.id == id)
         && !(s.clients[c].pc.AcquirePut? && s.clients[c].pc.mine.id == id)
         && !(s.clients[c].pc.Reading? && s.clients[c].pc.why.AcquireConfirm? && s.clients[c].pc.why.mine.id == id)
  }

  // A recovery call is truthful when the owner-stopped attestation it carries is correct at that moment.
  predicate Truthful(s: State, step: Step) {
    if step.Begin? && step.call.Recover? && step.call.confirm.attested.Some?
    then OwnerStopped(s, step.call.confirm.attested.value)
    else true
  }

  // ---------------------------------------------------------------- own handles

  // One of the handles this client's own acquire and renew calls gave it.
  predicate Own(cl: Client, h: Handle) {
    exists g :: g in cl.given && g.SameLease(h)
  }

  // A client releases and renews only handles its own acquire or renew gave it, and renews only the lease it holds.
  predicate UsesOwnHandle(s: State, step: Step) {
    step.Begin? && step.c in s.clients ==>
      && (step.call.Renew? ==> Own(s.clients[step.c], step.call.handle) && Holds(s.clients[step.c], step.call.handle))
      && (step.call.Release? ==> Own(s.clients[step.c], step.call.handle))
  }

  // ---------------------------------------------------------------- runs

  predicate IsRun(run: seq<State>, steps: seq<Step>) {
    && |run| == |steps| + 1
    && Init(run[0])
    && forall i :: 0 <= i < |steps| ==> Next(run[i], steps[i], run[i + 1])
  }

  predicate AllTruthful(run: seq<State>, steps: seq<Step>)
    requires |run| == |steps| + 1
  {
    forall i :: 0 <= i < |steps| ==> Truthful(run[i], steps[i])
  }

  predicate AllUseOwnHandles(run: seq<State>, steps: seq<Step>)
    requires |run| == |steps| + 1
  {
    forall i :: 0 <= i < |steps| ==> UsesOwnHandle(run[i], steps[i])
  }
}
