/**
 Write-once archive objects under concurrent immutable puts.

 Any number of writers run _put_immutable (conditional PUT, HEAD, GET), one step per object-store call, while keys
 may be deleted explicitly.  An epoch of a key ends with each deletion.
 */
module WalArchive {
  type Key = string
  type WriterId = nat
  type Bytes = seq<int>

  // SHA-256, taken to be injective.
  datatype Digest = Sha256(content: Bytes)

  datatype Receipt = Receipt(key: Key, size: nat, digest: Digest, idempotent: bool, epoch: nat)

  datatype Pc =
    | Idle
    | Putting(key: Key, body: Bytes)
    | Heading(key: Key, body: Bytes, created: bool)
    | Getting(key: Key, body: Bytes, created: bool)

  datatype State = State(
    store: map<Key, Bytes>,
    epochs: map<Key, nat>,
    writers: map<WriterId, Pc>,
    receipts: seq<Receipt>)

  datatype Step =
    | Begin(w: WriterId, key: Key, body: Bytes)
    | Raise(w: WriterId)
    | Put(w: WriterId, effect: bool, raised: bool)
    | Head(w: WriterId)
    | Get(w: WriterId)
    | Delete(key: Key)

  function Epoch(s: State, key: Key): nat {
    if key in s.epochs then s.epochs[key] else 0
  }

  // The map both stores implement: the first value written under a key stays.
  function FirstWriter<K, V>(m: map<K, V>, key: K, value: V): map<K, V> {
    if key in m then m else m[key := value]
  }

  // Any objects may be stored already.
  predicate Init(s: State) {
    s.receipts == [] && forall w :: w in s.writers ==> s.writers[w].Idle?
  }

  predicate Enabled(s: State, step: Step) {
    match step
    case Begin(w, _, _) => w in s.writers && s.writers[w].Idle?
    case Raise(w) => w in s.writers && (s.writers[w].Heading? || s.writers[w].Getting?)
    case Put(w, effect, raised) =>
      && w in s.writers && s.writers[w].Putting?
      && (effect ==> s.writers[w].key !in s.store)
      && (!effect ==> raised)
    case Head(w) => w in s.writers && s.writers[w].Heading?
    case Get(w) => w in s.writers && s.writers[w].Getting?
    case Delete(_) => true
  }

  // A read continues only over content with the expected digest and size.
  predicate Expected(s: State, key: Key, body: Bytes) {
    key in s.store && Sha256(s.store[key]) == Sha256(body) && |s.store[key]| == |body|
  }

  function Apply(s: State, step: Step): State
    requires Enabled(s, step)
  {
    match step
    case Begin(w, key, body) => s.(writers := s.writers[w := Putting(key, body)])
    case Raise(w) => s.(writers := s.writers[w := Idle])
    case Put(w, effect, raised) =>
      var pc := s.writers[w];
      var next := s.(writers := s.writers[w := Heading(pc.key, pc.body, !raised)]);
      if effect then next.(store := FirstWriter(s.store, pc.key, pc.body)) else next
    case Head(w) =>
      var pc := s.writers[w];
      s.(writers := s.writers[w := if Expected(s, pc.key, pc.body) then Getting(pc.key, pc.body, pc.created) else Idle])
    case Get(w) =>
      var pc := s.writers[w];
      var done := s.(writers := s.writers[w := Idle]);
      if Expected(s, pc.key, pc.body)
      then done.(receipts := s.receipts + [Receipt(pc.key, |pc.body|, Sha256(pc.body), !pc.created, Epoch(s, pc.key))])
      else done
    case Delete(key) =>
      s.(store := map k | k in s.store && k != key :: s.store[k], epochs := s.epochs[key := Epoch(s, key) + 1])
  }

  predicate IsRun(run: seq<State>, steps: seq<Step>) {
    && |run| == |steps| + 1
    && Init(run[0])
    && forall i :: 0 <= i < |steps| ==> Enabled(run[i], steps[i]) && run[i + 1] == Apply(run[i], steps[i])
  }

  // Receipts of the current epoch describe what is stored, and receipts of one epoch agree.
  ghost predicate Inv(s: State) {
    && (forall i :: 0 <= i < |s.receipts| && s.receipts[i].epoch == Epoch(s, s.receipts[i].key) ==>
          s.receipts[i].key in s.store
          && Sha256(s.store[s.receipts[i].key]) == s.receipts[i].digest
          && |s.store[s.receipts[i].key]| == s.receipts[i].size)
    && (forall i :: 0 <= i < |s.receipts| ==> s.receipts[i].epoch <= Epoch(s, s.receipts[i].key))
    && (forall i, j :: 0 <= i < |s.receipts| && 0 <= j < |s.receipts|
          && s.receipts[i].key == s.receipts[j].key && s.receipts[i].epoch == s.receipts[j].epoch
          ==> s.receipts[i].digest == s.receipts[j].digest && s.receipts[i].size == s.receipts[j].size)
  }

  lemma InvStep(s: State, step: Step)
    requires Inv(s) && Enabled(s, step)
    ensures Inv(Apply(s, step))
  {
  }

  lemma {:induction false} RunInv(run: seq<State>, steps: seq<Step>, n: nat)
    requires IsRun(run, steps) && n < |run|
    ensures Inv(run[n])
  {
    if n > 0 {
      RunInv(run, steps, n - 1);
      InvStep(run[n - 1], steps[n - 1]);
    }
  }

  // The bytes under a key are the same at any two moments of a run between which the key was not deleted.
  lemma {:induction false} BytesNeverChange(run: seq<State>, steps: seq<Step>, m: nat, n: nat, key: Key)
    requires IsRun(run, steps) && m <= n < |run| && key in run[m].store
    requires Epoch(run[n], key) == Epoch(run[m], key)
    ensures key in run[n].store && run[n].store[key] == run[m].store[key]
  {
    if m < n {
      EpochsRise(run, steps, m, n - 1, key);
      EpochsRise(run, steps, n - 1, n, key);
      BytesNeverChange(run, steps, m, n - 1, key);
      assert run[n] == Apply(run[n - 1], steps[n - 1]);
    }
  }

  lemma {:induction false} EpochsRise(run: seq<State>, steps: seq<Step>, m: nat, n: nat, key: Key)
    requires IsRun(run, steps) && m <= n < |run|
    ensures Epoch(run[m], key) <= Epoch(run[n], key)
  {
    if m < n {
      EpochsRise(run, steps, m, n - 1, key);
      assert run[n] == Apply(run[n - 1], steps[n - 1]);
    }
  }

  // Two receipts for one key with no deletion between them name equal content, idempotent or not.
  lemma ReceiptsAgree(run: seq<State>, steps: seq<Step>, n: nat, i: nat, j: nat)
    requires IsRun(run, steps) && n < |run| && i < |run[n].receipts| && j < |run[n].receipts|
    requires run[n].receipts[i].key == run[n].receipts[j].key && run[n].receipts[i].epoch == run[n].receipts[j].epoch
    ensures run[n].receipts[i].digest == run[n].receipts[j].digest && run[n].receipts[i].size == run[n].receipts[j].size
  {
    RunInv(run, steps, n);
  }

  // A receipt describes the stored object for as long as the key is not deleted.
  lemma ReceiptMatchesStore(run: seq<State>, steps: seq<Step>, n: nat, i: nat)
    requires IsRun(run, steps) && n < |run| && i < |run[n].receipts|
    requires run[n].receipts[i].epoch == Epoch(run[n], run[n].receipts[i].key)
    ensures var r := run[n].receipts[i];
            r.key in run[n].store && Sha256(run[n].store[r.key]) == r.digest && |run[n].store[r.key]| == r.size
  {
    RunInv(run, steps, n);
  }

  // The writer has begun nothing since step m.
  ghost predicate Current(steps: seq<Step>, m: nat, n: nat, w: WriterId) {
    n <= |steps| && forall i :: m < i < n && steps[i].Begin? ==> steps[i].w != w
  }

  // The writer's present call began at step m and made its PUT at step k; if that returned, it created the object.
  ghost predicate Wrote(run: seq<State>, steps: seq<Step>, m: nat, k: nat, n: nat, w: WriterId, key: Key, body: Bytes,
                        created: bool)
  {
    && m < k < n <= |steps| < |run| && Current(steps, m, n, w)
    && steps[m] == Begin(w, key, body)
    && steps[k].Put? && steps[k].w == w && created == !steps[k].raised
    && (created ==> key !in run[k].store && key in run[k + 1].store && run[k + 1].store[key] == body)
  }

  lemma {:induction false} PutUnderWay(run: seq<State>, steps: seq<Step>, n: nat, w: WriterId) returns (m: nat)
    requires IsRun(run, steps) && n < |run| && w in run[n].writers && run[n].writers[w].Putting?
    ensures m < n && Current(steps, m, n, w)
    ensures steps[m] == Begin(w, run[n].writers[w].key, run[n].writers[w].body)
  {
    if n == 0 {
      assert false;
    }
    var s, step := run[n - 1], steps[n - 1];
    assert Enabled(s, step) && run[n] == Apply(s, step);
    if step.Begin? && step.w == w {
      m := n - 1;
    } else {
      m := PutUnderWay(run, steps, n - 1, w);
    }
  }

  lemma {:induction false} ReadUnderWay(run: seq<State>, steps: seq<Step>, n: nat, w: WriterId) returns (m: nat, k: nat)
    requires IsRun(run, steps) && n < |run| && w in run[n].writers
    requires run[n].writers[w].Heading? || run[n].writers[w].Getting?
    ensures var pc := run[n].writers[w]; Wrote(run, steps, m, k, n, w, pc.key, pc.body, pc.created)
  {
    if n == 0 {
      assert false;
    }
    var s, step := run[n - 1], steps[n - 1];
    assert Enabled(s, step) && run[n] == Apply(s, step);
    if step.Put? && step.w == w {
      m := PutUnderWay(run, steps, n - 1, w);
      k := n - 1;
    } else {
      m, k := ReadUnderWay(run, steps, n - 1, w);
      var pc := s.writers[w];
      WroteStays(run, steps, m, k, n - 1, w, pc.key, pc.body, pc.created);
    }
  }

  lemma WroteStays(run: seq<State>, steps: seq<Step>, m: nat, k: nat, n: nat, w: WriterId, key: Key, body: Bytes,
                   created: bool)
    requires Wrote(run, steps, m, k, n, w, key, body, created) && n < |steps|
    requires !(steps[n].Begin? && steps[n].w == w)
    ensures Wrote(run, steps, m, k, n + 1, w, key, body, created)
  {
  }

  // A receipt is what the call that returns it was asked to store: its key, the size and digest of its bytes, and
  // whether its PUT raised. One that is not idempotent comes from the call that created the object.
  lemma ReceiptOfItsCall(run: seq<State>, steps: seq<Step>, n: nat) returns (m: nat, k: nat, body: Bytes)
    requires IsRun(run, steps) && n < |steps| && run[n + 1].receipts != run[n].receipts
    ensures steps[n].Get? && |run[n + 1].receipts| == |run[n].receipts| + 1
    ensures var r := run[n + 1].receipts[|run[n].receipts|];
            && Wrote(run, steps, m, k, n, steps[n].w, r.key, body, !r.idempotent)
            && r.size == |body| && r.digest == Sha256(body)
            && r.key in run[n].store && run[n].store[r.key] == body
  {
    var s, step := run[n], steps[n];
    assert Enabled(s, step) && run[n + 1] == Apply(s, step);
    body := s.writers[step.w].body;
    m, k := ReadUnderWay(run, steps, n, step.w);
  }

  // Undisturbed, archiving returns a receipt exactly if the key was free or held these very bytes, and then these bytes
  // are stored.
  lemma ArchivesIff(s: State, w: WriterId, key: Key, body: Bytes, raised: bool)
    requires w in s.writers && s.writers[w].Idle?
    ensures Enabled(s, Begin(w, key, body))
    ensures var s1 := Apply(s, Begin(w, key, body));
            var put := Put(w, key !in s.store, key in s.store || raised);
            && Enabled(s1, put)
            && Enabled(Apply(s1, put), Head(w))
            && var s3 := Apply(Apply(s1, put), Head(w));
               if key !in s.store || s.store[key] == body then
                 && Enabled(s3, Get(w))
                 && Apply(s3, Get(w)).store == s.store[key := body]
                 && Apply(s3, Get(w)).receipts ==
                    s.receipts + [Receipt(key, |body|, Sha256(body), key in s.store || raised, Epoch(s, key))]
               else s3 == s
  {
    var s1 := Apply(s, Begin(w, key, body));
    var put := Put(w, key !in s.store, key in s.store || raised);
    var s2 := Apply(s1, put);
    assert s2.writers[w] == Heading(key, body, !(key in s.store || raised));
    if key in s.store {
      assert s2.store == s.store;
    }
    if key in s.store && s.store[key] != body {
      assert Apply(s2, Head(w)).writers == s.writers;
    }
  }
}
