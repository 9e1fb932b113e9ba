/**
 Concurrent publication of the active filestore generation, one step per object-store call.

 Every publisher reads the pointer (HEAD, HEAD, GET), compares its id with the predecessor it expects, writes
 conditionally, and reads the pointer back.  Writes may take effect and still raise.  Nothing ever deletes the pointer.
 */
module ActivePointer {
  import opened Option
  import opened FilestoreDocs

  type PublisherId = nat
  type ETag = nat

  datatype Digest = Sha256(content: Pointer)

  // The pointer as a reader has it: content and the tag of the HEAD before the GET.
  datatype Seen = Seen(doc: Pointer, etag: ETag)

  // One effective write, with the predecessor its call expected.
  datatype Link = Link(doc: Pointer, etag: ETag, expected: Option<string>)

  // Before and after its write a publisher reads the pointer the same way.
  datatype Pc =
    | Idle
    | Exists(wrote: bool)
    | Verify(wrote: bool)
    | Body(wrote: bool, etag: ETag, digest: Digest)
    | Write(current: Option<Seen>)
    | Succeeded
    | Failed

  datatype Publisher = Publisher(pc: Pc, mine: Pointer, expected: Option<string>)

  // chain lists the effective writes in order.
  datatype State = State(store: Option<Seen>, chain: seq<Link>, publishers: map<PublisherId, Publisher>)

  datatype Step =
    | Begin(c: PublisherId, mine: Pointer, expected: Option<string>)
    | Raise(c: PublisherId)
    | Read(c: PublisherId)
    | Put(c: PublisherId, etag: ETag, effect: bool, raised: bool)

  predicate Init(s: State) {
    && s.store == None
    && s.chain == []
    && forall c :: c in s.publishers ==> s.publishers[c].pc == Idle
  }

  // What the publisher does once it knows the current pointer.
  function Decide(p: Publisher, wrote: bool, current: Option<Seen>): Pc {
    if current.Some? && current.value.doc == p.mine then Succeeded
    else if wrote then Failed
    else if (match current case None => None case Some(seen) => Some(seen.doc.id)) != p.expected then Failed
    else Write(current)
  }

  function AfterRead(s: State, p: Publisher): Pc
    requires p.pc.Exists? || p.pc.Verify? || p.pc.Body?
  {
    match p.pc
    case Exists(wrote) => if s.store.None? then Decide(p, wrote, None) else Verify(wrote)
    case Verify(wrote) => if s.store.None? then Failed else Body(wrote, s.store.value.etag, Sha256(s.store.value.doc))
    case Body(wrote, etag, digest) =>
      if s.store.None? || Sha256(s.store.value.doc) != digest then Failed
      else Decide(p, wrote, Some(Seen(s.store.value.doc, etag)))
  }

  predicate PutAllowed(s: State, current: Option<Seen>) {
    match current
    case None => s.store.None?
    case Some(seen) => s.store.Some? && s.store.value.etag == seen.etag
  }

  // Entity tags are equal only for equal content.
  predicate ETagFor(s: State, etag: ETag, doc: Pointer) {
    forall i :: 0 <= i < |s.chain| && s.chain[i].etag == etag ==> s.chain[i].doc == doc
  }

  predicate Enabled(s: State, step: Step) {
    && step.c in s.publishers
    && var p := s.publishers[step.c];
       match step
       case Begin(_, _, _) => p.pc.Idle? || p.pc.Succeeded? || p.pc.Failed?
       case Raise(_) => p.pc.Exists? || p.pc.Verify? || p.pc.Body?
       case Read(_) => p.pc.Exists? || p.pc.Verify? || p.pc.Body?
       case Put(_, etag, effect, raised) =>
         && p.pc.Write?
         && (effect ==> PutAllowed(s, p.pc.current) && ETagFor(s, etag, p.mine))
         && (!effect ==> raised)
  }

  function Apply(s: State, step: Step): State
    requires Enabled(s, step)
  {
    var p := s.publishers[step.c];
    match step
    case Begin(c, mine, expected) => s.(publishers := s.publishers[c := Publisher(Exists(false), mine, expected)])
    case Raise(c) => s.(publishers := s.publishers[c := p.(pc := Failed)])
    case Read(c) => s.(publishers := s.publishers[c := p.(pc := AfterRead(s, p))])
    case Put(c, etag, effect, _) =>
      var next := s.(publishers := s.publishers[c := p.(pc := Exists(true))]);
      if effect
      then next.(store := Some(Seen(p.mine, etag)), chain := s.chain + [Link(p.mine, etag, p.expected)])
      else next
  }

  predicate IsRun(run: seq<State>, steps: seq<Step>) {
    && |run| == |steps| + 1
    && Init(run[0])
    && forall i :: 0 <= i < |steps| ==> Enabled(run[i], steps[i]) && run[i + 1] == Apply(run[i], steps[i])
  }

  // ---------------------------------------------------------------- the invariant

  function ActiveId(s: State): Option<string> {
    match s.store case None => None case Some(seen) => Some(seen.doc.id)
  }

  function Predecessor(chain: seq<Link>, i: nat): Option<string>
    requires i < |chain|
  {
    if i == 0 then None else Some(chain[i - 1].doc.id)
  }

  ghost predicate Known(s: State, etag: ETag, doc: Pointer) {
    exists i :: 0 <= i < |s.chain| && s.chain[i].etag == etag && s.chain[i].doc == doc
  }

  ghost predicate PcOk(s: State, p: Publisher) {
    match p.pc
    case Body(_, etag, digest) => Known(s, etag, digest.content)
    case Write(None) => p.expected == None
    case Write(Some(seen)) => Known(s, seen.etag, seen.doc) && p.expected == Some(seen.doc.id)
    case _ => true
  }

  ghost predicate TagsOk(chain: seq<Link>) {
    forall i, j :: 0 <= i < |chain| && 0 <= j < |chain| && chain[i].etag == chain[j].etag ==>
        chain[i].doc == chain[j].doc
  }

  ghost predicate Linked(chain: seq<Link>) {
    forall i {:trigger Predecessor(chain, i)} :: 0 <= i < |chain| ==> chain[i].expected == Predecessor(chain, i)
  }

  ghost predicate ChainOk(s: State) {
    && (s.store.None? <==> s.chain == [])
    && (s.store.Some? ==> s.store.value == Seen(s.chain[|s.chain| - 1].doc, s.chain[|s.chain| - 1].etag))
    && TagsOk(s.chain)
    && Linked(s.chain)
  }

  ghost predicate Inv(s: State) {
    && ChainOk(s)
    && (forall c :: c in s.publishers ==> PcOk(s, s.publishers[c]))
  }

  lemma KnownGrows(s: State, s': State, etag: ETag, doc: Pointer)
    requires s.chain <= s'.chain && Known(s, etag, doc)
    ensures Known(s', etag, doc)
  {
    var i :| 0 <= i < |s.chain| && s.chain[i].etag == etag && s.chain[i].doc == doc;
    assert s'.chain[i] == s.chain[i];
  }

  lemma PcGrows(s: State, s': State, p: Publisher)
    requires s.chain <= s'.chain && PcOk(s, p)
    ensures PcOk(s', p)
  {
    match p.pc
    case Body(_, etag, digest) => KnownGrows(s, s', etag, digest.content);
    case Write(Some(seen)) => KnownGrows(s, s', seen.etag, seen.doc);
    case _ =>
  }

  // A write takes effect only while the active id is the one its call expected to replace.
  lemma WriteReplacesExpected(s: State, step: Step)
    requires Inv(s) && Enabled(s, step) && step.Put? && step.effect
    ensures ActiveId(s) == s.publishers[step.c].expected
  {
    var p := s.publishers[step.c];
    assert PcOk(s, p);
    if p.pc.current.Some? {
      var seen := p.pc.current.value;
      var i :| 0 <= i < |s.chain| && s.chain[i].etag == seen.etag && s.chain[i].doc == seen.doc;
      assert s.chain[|s.chain| - 1].doc == s.chain[i].doc;
    }
  }

  lemma ReadKeepsPcOk(s: State, p: Publisher)
    requires Inv(s) && PcOk(s, p) && (p.pc.Exists? || p.pc.Verify? || p.pc.Body?)
    ensures PcOk(s, p.(pc := AfterRead(s, p)))
  {
    if s.store.Some? {
      assert s.chain[|s.chain| - 1].etag == s.store.value.etag;
      assert Known(s, s.store.value.etag, s.store.value.doc);
    }
  }

  lemma ChainAppend(chain: seq<Link>, link: Link)
    requires TagsOk(chain) && Linked(chain)
    requires forall i :: 0 <= i < |chain| && chain[i].etag == link.etag ==> chain[i].doc == link.doc
    requires link.expected == if chain == [] then None else Some(chain[|chain| - 1].doc.id)
    ensures TagsOk(chain + [link]) && Linked(chain + [link])
  {
    var longer := chain + [link];
    forall i {:trigger Predecessor(longer, i)} | 0 <= i < |longer|
      ensures longer[i].expected == Predecessor(longer, i)
    {
      if i < |chain| {
        assert chain[i].expected == Predecessor(chain, i);
      }
    }
  }

  lemma ChainStep(s: State, step: Step)
    requires Inv(s) && Enabled(s, step)
    ensures ChainOk(Apply(s, step))
  {
    if step.Put? && step.effect {
      WriteReplacesExpected(s, step);
      var p := s.publishers[step.c];
      ChainAppend(s.chain, Link(p.mine, step.etag, p.expected));
    }
  }

  lemma PublisherStep(s: State, step: Step, c: PublisherId)
    requires Inv(s) && Enabled(s, step) && c in s.publishers
    ensures PcOk(Apply(s, step), Apply(s, step).publishers[c])
  {
    var s' := Apply(s, step);
    if c != step.c {
      PcGrows(s, s', s.publishers[c]);
    } else if step.Read? {
      ReadKeepsPcOk(s, s.publishers[c]);
      PcGrows(s, s', s'.publishers[c]);
    }
  }

  lemma InvStep(s: State, step: Step)
    requires Inv(s) && Enabled(s, step)
    ensures Inv(Apply(s, step))
  {
    ChainStep(s, step);
    forall c | c in s.publishers ensures PcOk(Apply(s, step), Apply(s, step).publishers[c]) {
      PublisherStep(s, step, c);
    }
  }

  lemma {:induction false} RunInv(run: seq<State>, steps: seq<Step>, n: nat)
    requires IsRun(run, steps) && n < |run|
    ensures Inv(run[n])
  {
    if n > 0 {
      RunInv(run, steps, n - 1);
      InvStep(run[n - 1], steps[n - 1]);
    }
  }

  // In every run the effective generations form one chain: each write names, as the predecessor its call expected,
  // exactly the generation written before it; and the pointer is the last of them.
  lemma GenerationsFormOneChain(run: seq<State>, steps: seq<Step>, n: nat)
    requires IsRun(run, steps) && n < |run|
    ensures Linked(run[n].chain)
    ensures ActiveId(run[n]) == if run[n].chain == [] then None else Some(run[n].chain[|run[n].chain| - 1].doc.id)
  {
    RunInv(run, steps, n);
  }

  // Every change of the pointer in a run is one compare-and-swap that took effect.
  lemma PointerMovesByCompareAndSwap(run: seq<State>, steps: seq<Step>, n: nat)
    requires IsRun(run, steps) && n < |steps| && run[n + 1].store != run[n].store
    ensures steps[n].Put? && steps[n].effect
    ensures var p := run[n].publishers[steps[n].c];
            ActiveId(run[n]) == p.expected && run[n + 1].store == Some(Seen(p.mine, steps[n].etag))
            && run[n + 1].chain == run[n].chain + [Link(p.mine, steps[n].etag, p.expected)]
  {
    RunInv(run, steps, n);
    WriteReplacesExpected(run[n], steps[n]);
  }

  // Success is reported only by a read that finds the pointer naming the caller's generation at that very moment.
  lemma SuccessWasReadBack(run: seq<State>, steps: seq<Step>, n: nat, c: PublisherId)
    requires IsRun(run, steps) && n < |steps| && c in run[n].publishers
    requires run[n + 1].publishers[c].pc.Succeeded? && !run[n].publishers[c].pc.Succeeded?
    ensures steps[n] == Read(c)
    ensures run[n].store.Some? && run[n].store.value.doc == run[n].publishers[c].mine
  {
    RunInv(run, steps, n);
    assert run[n + 1] == Apply(run[n], steps[n]);
  }

  // ---------------------------------------------------------------- an undisturbed publisher

  // HEAD, HEAD and GET while nobody else acts.
  lemma QuietRead(s: State, c: PublisherId)
    requires c in s.publishers && s.publishers[c].pc.Exists?
    ensures Enabled(s, Read(c))
    ensures s.store.Some? ==>
              && Enabled(Apply(s, Read(c)), Read(c))
              && Enabled(Apply(Apply(s, Read(c)), Read(c)), Read(c))
    ensures var p := s.publishers[c];
            var s1 := Apply(s, Read(c));
            (if s.store.None? then s1 else Apply(Apply(s1, Read(c)), Read(c))) ==
            s.(publishers := s.publishers[c := p.(pc := Decide(p, p.pc.wrote, s.store))])
  {
    var p, s1 := s.publishers[c], Apply(s, Read(c));
    if s.store.Some? {
      var s2 := Apply(s1, Read(c));
      assert s1.publishers[c] == p.(pc := Verify(p.pc.wrote));
      assert s2.publishers[c] == p.(pc := Body(p.pc.wrote, s.store.value.etag, Sha256(s.store.value.doc)));
      assert Apply(s2, Read(c)).publishers[c] == p.(pc := Decide(p, p.pc.wrote, s.store));
    }
  }

  // Before it writes, a publisher is done if its generation is active already, goes on to its write if the active id is
  // the one it expects, and otherwise fails. After its write it has succeeded exactly if its generation is active.
  lemma DecisionIs(s: State, p: Publisher)
    ensures var active := s.store.Some? && s.store.value.doc == p.mine;
            Decide(p, false, s.store) ==
              if active then Succeeded else if ActiveId(s) == p.expected then Write(s.store) else Failed
    ensures Decide(p, true, s.store) == if s.store.Some? && s.store.value.doc == p.mine then Succeeded else Failed
  {
  }

  // An undisturbed publisher that expects the active id gets its generation published, also if the write raised.
  lemma PublishSucceeds(s: State, c: PublisherId, mine: Pointer, etag: ETag, raised: bool)
    requires Inv(s) && c in s.publishers && s.publishers[c].pc.Idle?
    requires s.store.Some? ==> s.store.value.doc != mine
    requires ETagFor(s, etag, mine)
    ensures var begun := Apply(s, Begin(c, mine, ActiveId(s))).publishers[c];
            var ready := s.(publishers := s.publishers[c := begun.(pc := Write(s.store))]);
            && begun.pc == Exists(false) && Decide(begun, false, s.store) == Write(s.store)
            && Enabled(ready, Put(c, etag, true, raised))
            && var written := Apply(ready, Put(c, etag, true, raised));
               && written.store == Some(Seen(mine, etag))
               && Decide(written.publishers[c], true, written.store) == Succeeded
  {
    DecisionIs(s, Publisher(Exists(false), mine, ActiveId(s)));
  }
}
