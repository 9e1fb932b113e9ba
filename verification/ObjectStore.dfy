/**
 An S3 bucket as its clients see it.

 Every call may take effect and return, take effect and raise, or raise with no effect.  A process that is killed
 is one whose remaining calls all raise with no effect, so crashes need no separate treatment.  Other actors may
 create the keys in `shared` between any two calls.
 */
module ObjectStore {
  import opened Option
  import opened Text
  import Utf8

  type Bytes = seq<Utf8.Byte>
  type Key = string

  // An object and its SHA-256 user metadata, if it has any.
  datatype Object = Object(body: Bytes, meta: Option<string>)

  type Objects = map<Key, Object>

  // What a HEAD reveals.
  datatype Info = Info(size: nat, meta: Option<string>)

  datatype Reply<+T> = Returned(value: T) | Missing | Raised

  function InfoOf(o: Object): Info {
    Info(|o.body|, o.meta)
  }

  predicate HasPrefix(key: Key, prefix: string) {
    prefix <= key
  }

  // after differs from before at most at key k and at keys other actors have newly created.
  ghost predicate OnlyAt(before: Objects, after: Objects, k: Option<Key>, shared: set<Key>) {
    && (forall j :: j in before && k != Some(j) ==> j in after && after[j] == before[j])
    && (forall j :: j in after && j !in before && k != Some(j) ==> j in shared)
  }

  class Bucket {
    const shared: set<Key>
    // Whether listings may lag behind and leave keys out.
    const stale: bool
    var objects: Objects
    // The contents after every call so far, how many calls raised, and how many calls were writes.
    ghost var trace: seq<Objects>
    ghost var faults: nat
    ghost var writes: nat

    constructor (initial: Objects, shared: set<Key>, stale: bool)
      ensures objects == initial && this.shared == shared && this.stale == stale && trace == [initial] && faults == 0
                && writes == 0
    {
      this.shared := shared;
      this.stale := stale;
      objects := initial;
      trace := [initial];
      faults := 0;
      writes := 0;
    }

    // Other actors create some of the shared keys.
    method Interfere(foreign: Object)
      modifies this`objects
      ensures OnlyAt(old(objects), objects, None, shared)
    {
      var rest := shared;
      while rest != {}
        invariant rest <= shared
        invariant OnlyAt(old(objects), objects, None, shared)
        decreases rest
      {
        var k :| k in rest;
        rest := rest - {k};
        if * {
          if k !in objects {
            objects := objects[k := foreign];
          }
        }
      }
    }

    method Put(key: Key, o: Object) returns (r: Reply<()>)
      modifies this
      ensures trace == old(trace) + [objects] && writes == old(writes) + 1
      ensures OnlyAt(old(objects), objects, Some(key), shared)
      ensures (key in objects && objects[key] == o)
              || ((key in old(objects) ==> key in objects && objects[key] == old(objects)[key])
                  && (key in objects && key !in old(objects) ==> key in shared))
      ensures r != Missing
      ensures r.Returned? ==> key in objects && objects[key] == o && faults == old(faults)
      ensures r.Raised? ==> faults > old(faults)
    {
      writes := writes + 1;
      Interfere(o);
      if * {
        objects := objects[key := o];
        r := Returned(());
      } else {
        if * {
          objects := objects[key := o];
        }
        r := Raised;
        faults := faults + 1;
      }
      trace := trace + [objects];
    }

    // PUT with If-None-Match: *.  Missing stands for a refused precondition.
    method PutIfAbsent(key: Key, o: Object) returns (r: Reply<()>)
      modifies this
      ensures trace == old(trace) + [objects] && writes == old(writes) + 1
      ensures OnlyAt(old(objects), objects, Some(key), shared)
      ensures key in old(objects) ==> key in objects && objects[key] == old(objects)[key]
      ensures key !in shared && key in objects && key !in old(objects) ==> objects[key] == o
      ensures r.Returned? ==> key in objects && objects[key] == o && key !in old(objects) && faults == old(faults)
      ensures r.Missing? ==> key in objects && faults == old(faults)
      ensures r.Missing? ==> key in shared || (key in old(objects) && objects[key] == old(objects)[key])
      ensures r.Raised? ==> faults > old(faults)
    {
      writes := writes + 1;
      Interfere(o);
      if key in objects {
        if * {
          r := Missing;
        } else {
          r := Raised;
          faults := faults + 1;
        }
      } else if * {
        objects := objects[key := o];
        r := Returned(());
      } else {
        if * {
          objects := objects[key := o];
        }
        r := Raised;
        faults := faults + 1;
      }
      trace := trace + [objects];
    }

    // PUT with If-Match, for a tag read from an object whose content was `seen`; tags are equal only for equal content.
    method PutIfMatch(key: Key, seen: Bytes, o: Object) returns (r: Reply<()>)
      requires key !in shared
      modifies this
      ensures trace == old(trace) + [objects] && writes == old(writes) + 1
      ensures OnlyAt(old(objects), objects, Some(key), shared)
      ensures (key in objects <==> key in old(objects))
      ensures key in objects && objects[key] != old(objects[key]) ==>
                objects[key] == o && old(objects[key].body) == seen
      ensures r.Returned? ==> key in objects && objects[key] == o && faults == old(faults)
      ensures r.Missing? ==> faults == old(faults)
      ensures r.Missing? && key in objects ==> objects[key] == old(objects)[key] && objects[key].body != seen
      ensures r.Raised? ==> faults > old(faults)
    {
      writes := writes + 1;
      Interfere(o);
      var matches := key in objects && objects[key].body == seen;
      var delivered, applied := *, *;
      if delivered && !matches {
        r := Missing;
      } else if delivered {
        objects := objects[key := o];
        r := Returned(());
      } else {
        if matches && applied {
          objects := objects[key := o];
        }
        r := Raised;
        faults := faults + 1;
      }
      trace := trace + [objects];
    }

    // DELETE succeeds whether or not the key exists.
    method Delete(key: Key) returns (r: Reply<()>)
      modifies this
      ensures trace == old(trace) + [objects] && writes == old(writes) + 1
      ensures OnlyAt(old(objects), objects, Some(key), shared)
      ensures key !in objects || (key in old(objects) && objects[key] == old(objects)[key]) || key in shared
      ensures r != Missing
      ensures r.Returned? ==> key !in objects && faults == old(faults)
      ensures r.Raised? ==> faults > old(faults)
    {
      writes := writes + 1;
      Interfere(Object([], None));
      if * {
        objects := map k | k in objects && k != key :: objects[k];
        r := Returned(());
      } else {
        if * {
          objects := map k | k in objects && k != key :: objects[k];
        }
        r := Raised;
        faults := faults + 1;
      }
      trace := trace + [objects];
    }

    method Head(key: Key) returns (r: Reply<Info>)
      modifies this
      ensures trace == old(trace) + [objects] && writes == old(writes)
      ensures OnlyAt(old(objects), objects, None, shared)
      ensures r.Returned? ==> key in objects && r.value == InfoOf(objects[key]) && faults == old(faults)
      ensures r.Missing? ==> key !in objects && faults == old(faults)
      ensures r.Raised? ==> faults > old(faults)
    {
      Interfere(Object([], None));
      if * {
        r := if key in objects then Returned(InfoOf(objects[key])) else Missing;
      } else {
        r := Raised;
        faults := faults + 1;
      }
      trace := trace + [objects];
    }

    method Get(key: Key) returns (r: Reply<Bytes>)
      modifies this
      ensures trace == old(trace) + [objects] && writes == old(writes)
      ensures OnlyAt(old(objects), objects, None, shared)
      ensures r.Returned? ==> key in objects && r.value == objects[key].body && faults == old(faults)
      ensures r.Missing? ==> key !in objects && faults == old(faults)
      ensures r.Raised? ==> faults > old(faults)
    {
      Interfere(Object([], None));
      if * {
        r := if key in objects then Returned(objects[key].body) else Missing;
      } else {
        r := Raised;
        faults := faults + 1;
      }
      trace := trace + [objects];
    }

    // One page of a listing: an ascending run of keys after `token`, and whether more follow.  A gateway may add
    // entries outside the requested prefix.
    method ListPage(prefix: string, token: Option<Key>) returns (r: Reply<(seq<Key>, Option<Key>)>)
      modifies this
      ensures trace == old(trace) + [objects] && writes == old(writes)
      ensures OnlyAt(old(objects), objects, None, shared)
      ensures r != Missing
      ensures r.Raised? ==> faults > old(faults)
      ensures r.Returned? ==> faults == old(faults) && PageOk(objects, stale, prefix, token, r.value.0, r.value.1)
    {
      Interfere(Object([], None));
      if * {
        r := Raised;
        faults := faults + 1;
      } else {
        var page := AscendingKeys(set k | k in objects && InRange(k, prefix, token));
        var lagging := *;
        if stale && lagging {
          r := Returned(([], None));
        } else if * {
          r := Returned((page, None));
        } else {
          var n: nat :| n <= |page|;
          if n == 0 {
            r := Returned((page, None));
          } else {
            CutPage(objects, stale, prefix, token, page, n);
            r := Returned((page[..n], Some(page[n - 1])));
          }
        }
      }
      trace := trace + [objects];
    }
  }

  // ---------------------------------------------------------------- listings

  // Each state of the sequence differs from every earlier one at most by newly created shared keys.
  ghost predicate Growing(states: seq<Objects>, shared: set<Key>) {
    forall i, j :: 0 <= i <= j < |states| ==> OnlyAt(states[i], states[j], None, shared)
  }

  lemma GrowingAppend(states: seq<Objects>, next: Objects, shared: set<Key>)
    requires states != [] && Growing(states, shared) && OnlyAt(states[|states| - 1], next, None, shared)
    ensures Growing(states + [next], shared)
  {
    forall i | 0 <= i < |states| ensures OnlyAt(states[i], next, None, shared) {
      assert OnlyAt(states[i], states[|states| - 1], None, shared);
    }
  }

  // The states a call sequence has gone through since `start`.
  ghost function Since(start: Objects, trace: seq<Objects>, from: nat): seq<Objects>
    requires from <= |trace|
  {
    [start] + trace[from..]
  }

  // All states since `start` grow, up to the present one.
  ghost predicate GrownSince(start: Objects, b: Bucket, from: nat)
    reads b
  {
    && from <= |b.trace|
    && Growing(Since(start, b.trace, from), b.shared)
    && Since(start, b.trace, from)[|b.trace| - from] == b.objects
    && OnlyAt(start, b.objects, None, b.shared)
  }

  method NextPage(b: Bucket, prefix: string, token: Option<Key>, ghost start: Objects, ghost from: nat)
    returns (r: Reply<(seq<Key>, Option<Key>)>)
    requires GrownSince(start, b, from)
    modifies b
    ensures GrownSince(start, b, from) && OnlyAt(old(b.objects), b.objects, None, b.shared)
    ensures b.trace == old(b.trace) + [b.objects] && b.writes == old(b.writes)
    ensures r != Missing
    ensures r.Raised? ==> b.faults > old(b.faults)
    ensures r.Returned? ==> b.faults == old(b.faults) && PageOk(b.objects, b.stale, prefix, token, r.value.0, r.value.1)
  {
    r := b.ListPage(prefix, token);
    GrowingAppend(Since(start, old(b.trace), from), b.objects, b.shared);
    assert Since(start, b.trace, from) == Since(start, old(b.trace), from) + [b.objects];
  }

  // Follow continuation tokens to the end; keep, in order and once each, the keys under the prefix.
  method ListObjects(b: Bucket, prefix: string) returns (r: Reply<seq<Key>>)
    modifies b
    ensures old(b.trace) < b.trace && b.trace[|b.trace| - 1] == b.objects && b.writes == old(b.writes)
    ensures GrownSince(old(b.objects), b, |old(b.trace)|)
    ensures r != Missing
    ensures r.Raised? ==> b.faults > old(b.faults)
    ensures r.Returned? ==> b.faults == old(b.faults) && Ascending(r.value)
    ensures r.Returned? ==> forall k :: k in r.value ==> HasPrefix(k, prefix) && k in b.objects
    ensures r.Returned? && !b.stale ==> forall k :: k in old(b.objects) && HasPrefix(k, prefix) ==> k in r.value
  {
    var token: Option<Key> := None;
    var keys: seq<Key> := [];
    var more := true;
    ghost var universe := b.objects.Keys + b.shared;
    ghost var from := |b.trace|;
    assert Since(b.objects, b.trace, from) == [b.objects];
    while more
      invariant old(b.trace) <= b.trace && b.writes == old(b.writes) && b.faults == old(b.faults)
      invariant GrownSince(old(b.objects), b, from) && b.objects.Keys <= universe
      invariant !more ==> |b.trace| > from && b.trace[|b.trace| - 1] == b.objects
      invariant Ascending(keys)
      invariant forall k :: k in keys ==> HasPrefix(k, prefix) && k in b.objects
      invariant !b.stale ==>
        forall k :: k in old(b.objects) && HasPrefix(k, prefix) && Passed(more, token, k) ==> k in keys
      decreases more, set k | k in universe && InRange(k, prefix, token)
    {
      var page := NextPage(b, prefix, token, old(b.objects), from);
      if page.Raised? {
        return Raised;
      }
      var listed, next := page.value.0, page.value.1;
      keys := AddAll(keys, listed, prefix);
      if next.None? {
        more := false;
      } else {
        Shrinks(universe, prefix, token, next.value);
        token := next;
      }
    }
    return Returned(keys);
  }

  // The listing has gone past k.
  predicate Passed(more: bool, token: Option<Key>, k: Key) {
    !more || (token.Some? && !Less(token.value, k))
  }

  // Entries outside the requested prefix are ignored.
  function AddAll(keys: seq<Key>, listed: seq<Key>, prefix: string): (r: seq<Key>)
    requires Ascending(keys)
    ensures Ascending(r)
    ensures forall k :: k in r <==> k in keys || (k in listed && HasPrefix(k, prefix))
    decreases |listed|
  {
    if listed == [] then keys
    else AddAll(if HasPrefix(listed[0], prefix) then Insert(keys, listed[0]) else keys, listed[1..], prefix)
  }

  lemma Shrinks(universe: set<Key>, prefix: string, token: Option<Key>, next: Key)
    requires next in universe && InRange(next, prefix, token)
    ensures (set k | k in universe && InRange(k, prefix, Some(next))) < (set k | k in universe
              && InRange(k, prefix, token))
  {
    LessIrreflexive(next);
    forall k | InRange(k, prefix, Some(next)) ensures InRange(k, prefix, token) {
      if token.Some? {
        LessTransitive(token.value, next, k);
      }
    }
    var a := set k | k in universe && InRange(k, prefix, Some(next));
    var b := set k | k in universe && InRange(k, prefix, token);
    assert a <= b && next in b && next !in a;
  }

  predicate InRange(k: Key, prefix: string, token: Option<Key>) {
    HasPrefix(k, prefix) && (token.Some? ==> Less(token.value, k))
  }

  // Unless listings are stale, every stored key of the range is in the page, up to the next token if there is one.
  ghost predicate PageOk(objects: Objects, stale: bool, prefix: string, token: Option<Key>, page: seq<Key>,
                         next: Option<Key>)
  {
    && (forall k :: k in page && HasPrefix(k, prefix) ==> k in objects && InRange(k, prefix, token))
    && (!stale ==>
          forall k :: k in objects && InRange(k, prefix, token) && (next.Some? ==> !Less(next.value, k)) ==> k in page)
    && (next.Some? ==> next.value in objects && InRange(next.value, prefix, token))
  }

  predicate IsLeast(keys: set<Key>, k: Key) {
    k in keys && forall j :: j in keys && j != k ==> Less(k, j)
  }

  // The ascending listing of a finite set of keys.
  function AscendingKeys(keys: set<Key>): (r: seq<Key>)
    ensures Ascending(r)
    ensures forall k :: k in r <==> k in keys
  {
    if keys == {} then []
    else
      LeastExists(keys);
      LeastUnique(keys);
      var k :| IsLeast(keys, k);
      var rest := AscendingKeys(keys - {k});
      assert forall i :: 0 <= i < |rest| ==> rest[i] in rest;
      [k] + rest
  }

  lemma LeastUnique(keys: set<Key>)
    ensures forall k, j :: IsLeast(keys, k) && IsLeast(keys, j) ==> k == j
  {
    forall k, j | IsLeast(keys, k) && IsLeast(keys, j) && k != j ensures false {
      LessTransitive(k, j, k);
      LessIrreflexive(k);
    }
  }

  lemma {:induction false} LeastExists(keys: set<Key>)
    requires keys != {}
    ensures exists k :: IsLeast(keys, k)
  {
    var x :| x in keys;
    if keys == {x} {
      assert IsLeast(keys, x);
    } else {
      LeastExists(keys - {x});
      var m :| IsLeast(keys - {x}, m);
      LessTotal(m, x);
      if Less(m, x) {
        assert IsLeast(keys, m);
      } else {
        forall j | j in keys && j != x ensures Less(x, j) {
          if j != m {
            assert j in keys - {x};
            LessTransitive(x, m, j);
          }
        }
        assert IsLeast(keys, x);
      }
    }
  }

  lemma CutPage(objects: Objects, stale: bool, prefix: string, token: Option<Key>, page: seq<Key>, n: nat)
    requires Ascending(page) && 1 <= n <= |page|
    requires forall k :: k in page <==> k in objects && InRange(k, prefix, token)
    ensures PageOk(objects, stale, prefix, token, page[..n], Some(page[n - 1]))
  {
    forall k | k in objects && InRange(k, prefix, token) && !Less(page[n - 1], k) ensures k in page[..n] {
      var i :| 0 <= i < |page| && page[i] == k;
      assert i < n;
      assert page[..n][i] == k;
    }
    assert page[n - 1] in page;
  }
}
