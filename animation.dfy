/**
 * The viewport's pre-render animation registry and its frame scheduler, as
 * values: a map from key to the ordered list of functions registered under it,
 * the order in which one render tick calls them, and how the queue of pending
 * animation frames evolves.
 */
module Animation {
  import opened Wrappers

  /** A registered function object, known only by its identity. */
  datatype Callback = Callback(id: nat)

  type Key = string

  /**
   * `_animationList`: the list under each key, and the keys in the order
   * `Object.keys` reports them (the order in which they were created).
   */
  datatype Registry = Registry(lists: map<Key, seq<Callback>>, order: seq<Key>)

  const Empty: Registry := Registry(map[], [])

  predicate NoDuplicates(keys: seq<Key>)
  {
    forall i, j :: 0 <= i < j < |keys| ==> keys[i] != keys[j]
  }

  /** Every key is listed once in `order`, and no key holds an empty list. */
  predicate WellFormed(r: Registry)
  {
    && (forall k :: k in r.lists ==> k in r.order)
    && (forall k :: k in r.order ==> k in r.lists)
    && NoDuplicates(r.order)
    && (forall k :: k in r.lists ==> r.lists[k] != [])
  }

  /** `addAnimationFunction(f, k)`: append `f` under `k`, creating the list (and the key) when absent. */
  function Add(r: Registry, f: Callback, k: Key): Registry
  {
    if k in r.lists then Registry(r.lists[k := r.lists[k] + [f]], r.order)
    else Registry(r.lists[k := [f]], r.order + [k])
  }

  /** The key order after `delete`: `k` leaves, the other keys keep their order. */
  function Without(keys: seq<Key>, k: Key): (r: seq<Key>)
    ensures forall x :: x in r <==> x in keys && x != k
    ensures k !in keys ==> r == keys
  {
    if keys == [] then []
    else if keys[0] == k then Without(keys[1..], k)
    else [keys[0]] + Without(keys[1..], k)
  }

  lemma {:induction false} WithoutNoDuplicates(keys: seq<Key>, k: Key)
    requires NoDuplicates(keys)
    ensures NoDuplicates(Without(keys, k))
  {
    if keys != [] {
      WithoutNoDuplicates(keys[1..], k);
      if keys[0] != k {
        var rest := Without(keys[1..], k);
        assert keys[0] !in keys[1..];
        assert keys[0] !in rest;
        forall i, j | 0 <= i < j < |[keys[0]] + rest| ensures ([keys[0]] + rest)[i] != ([keys[0]] + rest)[j] {
          if i > 0 {
            assert rest[i - 1] != rest[j - 1];
          } else {
            assert rest[j - 1] in rest;
          }
        }
      }
    }
  }

  /** `removeAnimationFunctions(k)`: the removed list (`[]` for an absent key) and the registry without `k`. */
  function Remove(r: Registry, k: Key): (seq<Callback>, Registry)
  {
    if k !in r.lists then ([], r)
    else (r.lists[k], Registry(r.lists - {k}, Without(r.order, k)))
  }

  lemma AddSpec(r: Registry, f: Callback, k: Key)
    requires WellFormed(r)
    ensures WellFormed(Add(r, f, k))
    ensures k in Add(r, f, k).lists
    ensures Add(r, f, k).lists[k] == (if k in r.lists then r.lists[k] else []) + [f]
    ensures Add(r, f, k).order == if k in r.lists then r.order else r.order + [k]
    ensures forall x :: x != k ==> (x in Add(r, f, k).lists <==> x in r.lists)
    ensures forall x :: x != k && x in r.lists ==> Add(r, f, k).lists[x] == r.lists[x]
  {
  }

  lemma RemoveSpec(r: Registry, k: Key)
    requires WellFormed(r)
    ensures WellFormed(Remove(r, k).1)
    ensures k !in Remove(r, k).1.lists
    ensures Remove(r, k).0 == if k in r.lists then r.lists[k] else []
    ensures k !in r.lists ==> Remove(r, k).1 == r
    ensures forall x :: x != k ==> (x in Remove(r, k).1.lists <==> x in r.lists)
    ensures forall x :: x != k && x in r.lists ==> Remove(r, k).1.lists[x] == r.lists[x]
  {
    WithoutNoDuplicates(r.order, k);
  }

  /** Registering on a fresh key and removing that key gives back `[f]` and the original registry. */
  lemma AddRemoveRoundTrip(r: Registry, f: Callback, k: Key)
    requires WellFormed(r) && k !in r.lists
    ensures Remove(Add(r, f, k), k) == ([f], r)
  {
    assert k !in r.order;
    WithoutLast(r.order, k);
    assert r.lists[k := [f]] - {k} == r.lists;
  }

  lemma {:induction false} WithoutLast(keys: seq<Key>, k: Key)
    requires k !in keys
    ensures Without(keys + [k], k) == keys
  {
    if keys != [] {
      assert (keys + [k])[1..] == keys[1..] + [k];
      WithoutLast(keys[1..], k);
    }
  }

  /** The calls one render tick makes: key by key in `order`, each list in insertion order. */
  function Schedule(lists: map<Key, seq<Callback>>, keys: seq<Key>): seq<Callback>
    requires forall k :: k in keys ==> k in lists
  {
    if keys == [] then []
    else Schedule(lists, keys[..|keys| - 1]) + lists[keys[|keys| - 1]]
  }

  lemma {:induction false} ScheduleAppend(lists: map<Key, seq<Callback>>, a: seq<Key>, b: seq<Key>)
    requires forall k :: k in a + b ==> k in lists
    ensures Schedule(lists, a + b) == Schedule(lists, a) + Schedule(lists, b)
    decreases |b|
  {
    if b != [] {
      var b', last := b[..|b| - 1], b[|b| - 1];
      assert (a + b)[..|a + b| - 1] == a + b';
      assert (a + b)[|a + b| - 1] == last;
      ScheduleAppend(lists, a, b');
      calc {
        Schedule(lists, a + b);
        Schedule(lists, a + b') + lists[last];
        Schedule(lists, a) + Schedule(lists, b') + lists[last];
        Schedule(lists, a) + (Schedule(lists, b') + lists[last]);
        Schedule(lists, a) + Schedule(lists, b);
      }
    } else {
      assert a + b == a;
    }
  }

  /** The schedule over some keys depends only on the lists stored under those keys. */
  lemma {:induction false} ScheduleAgrees(lists: map<Key, seq<Callback>>, lists': map<Key, seq<Callback>>, keys: seq<Key>)
    requires forall k :: k in keys ==> k in lists && k in lists' && lists[k] == lists'[k]
    ensures Schedule(lists, keys) == Schedule(lists', keys)
    decreases |keys|
  {
    if keys != [] {
      ScheduleAgrees(lists, lists', keys[..|keys| - 1]);
    }
  }

  /** Position of a key in the key order. */
  function IndexOf(keys: seq<Key>, k: Key): (i: nat)
    requires k in keys
    ensures i < |keys| && keys[i] == k
    ensures k !in keys[..i]
  {
    if keys[0] == k then 0 else 1 + IndexOf(keys[1..], k)
  }

  lemma ScheduleAround(lists: map<Key, seq<Callback>>, pre: seq<Key>, k: Key, post: seq<Key>)
    requires forall x :: x in pre + [k] + post ==> x in lists
    ensures Schedule(lists, pre + [k] + post) == Schedule(lists, pre) + lists[k] + Schedule(lists, post)
  {
    ScheduleAppend(lists, pre + [k], post);
    ScheduleAppend(lists, pre, [k]);
    assert [k][..0] == [];
  }

  /** The calls of the keys created before `k`, and of those created after it. */
  function Before(r: Registry, k: Key): seq<Callback>
    requires WellFormed(r) && k in r.lists
  {
    Schedule(r.lists, r.order[..IndexOf(r.order, k)])
  }

  function After(r: Registry, k: Key): seq<Callback>
    requires WellFormed(r) && k in r.lists
  {
    Schedule(r.lists, r.order[IndexOf(r.order, k) + 1..])
  }

  /**
   * The list of a registered key runs as one contiguous block of the tick; adding
   * under that key extends the block at its end, and removing the key cuts the
   * block out, leaving every other call where it was.
   */
  lemma ScheduleBlock(r: Registry, f: Callback, k: Key)
    requires WellFormed(r) && k in r.lists
    ensures Schedule(r.lists, r.order) == Before(r, k) + r.lists[k] + After(r, k)
    ensures Schedule(Add(r, f, k).lists, Add(r, f, k).order) == Before(r, k) + (r.lists[k] + [f]) + After(r, k)
    ensures Schedule(Remove(r, k).1.lists, Remove(r, k).1.order) == Before(r, k) + After(r, k)
  {
    var pre, post := KeySplit(r, k);
    ScheduleAround(r.lists, pre, k, post);
    AddedBlock(r, f, k);
    RemovedBlock(r, k);
  }

  /** The key order around a registered key, which occurs nowhere else in it. */
  lemma KeySplit(r: Registry, k: Key) returns (pre: seq<Key>, post: seq<Key>)
    requires WellFormed(r) && k in r.lists
    ensures pre == r.order[..IndexOf(r.order, k)] && post == r.order[IndexOf(r.order, k) + 1..]
    ensures r.order == pre + [k] + post && k !in pre && k !in post
  {
    var p := IndexOf(r.order, k);
    pre, post := r.order[..p], r.order[p + 1..];
    assert r.order == pre + [k] + post;
  }

  lemma AddedBlock(r: Registry, f: Callback, k: Key)
    requires WellFormed(r) && k in r.lists
    ensures Schedule(Add(r, f, k).lists, Add(r, f, k).order) == Before(r, k) + (r.lists[k] + [f]) + After(r, k)
  {
    var pre, post := KeySplit(r, k);
    var added := Add(r, f, k);
    ScheduleAgrees(r.lists, added.lists, pre);
    ScheduleAgrees(r.lists, added.lists, post);
    ScheduleAround(added.lists, pre, k, post);
  }

  lemma RemovedBlock(r: Registry, k: Key)
    requires WellFormed(r) && k in r.lists
    ensures Schedule(Remove(r, k).1.lists, Remove(r, k).1.order) == Before(r, k) + After(r, k)
  {
    var pre, post := KeySplit(r, k);
    WithoutSplit(pre, post, k);
    var removed := Registry(r.lists - {k}, pre + post);
    assert Remove(r, k).1 == removed;
    forall x | x in pre + post ensures x in r.lists && x in removed.lists && removed.lists[x] == r.lists[x] {
      assert x != k && x in r.order;
    }
    ScheduleAgrees(r.lists, removed.lists, pre);
    ScheduleAgrees(r.lists, removed.lists, post);
    ScheduleAppend(removed.lists, pre, post);
  }

  lemma {:induction false} WithoutSplit(pre: seq<Key>, post: seq<Key>, k: Key)
    requires k !in pre && k !in post
    ensures Without(pre + [k] + post, k) == pre + post
  {
    var whole := pre + [k] + post;
    if pre == [] {
      assert whole[0] == k && whole[1..] == post;
    } else {
      assert whole[0] == pre[0] && whole[1..] == pre[1..] + [k] + post;
      WithoutSplit(pre[1..], post, k);
      calc {
        Without(whole, k);
        [pre[0]] + Without(pre[1..] + [k] + post, k);
        [pre[0]] + (pre[1..] + post);
        { assert pre == [pre[0]] + pre[1..]; }
        pre + post;
      }
    }
  }

  /** A function added under a registered key runs right after the key's last function. */
  lemma RunsAfterLast(r: Registry, f: Callback, k: Key) returns (i: nat)
    requires WellFormed(r) && k in r.lists
    ensures i + 1 < |Schedule(Add(r, f, k).lists, Add(r, f, k).order)|
    ensures Schedule(Add(r, f, k).lists, Add(r, f, k).order)[i] == r.lists[k][|r.lists[k]| - 1]
    ensures Schedule(Add(r, f, k).lists, Add(r, f, k).order)[i + 1] == f
  {
    ScheduleBlock(r, f, k);
    var list := r.lists[k];
    var prev, last := list[..|list| - 1], list[|list| - 1];
    assert list == prev + [last];
    PairInside(Before(r, k), prev, last, f, After(r, k));
    i := |Before(r, k)| + |prev|;
  }

  /**
   * Two functions added one after the other under one key run in that order
   * within a tick, the second right after the first.
   */
  lemma RunsInInsertionOrder(r: Registry, f1: Callback, f2: Callback, k: Key) returns (i: nat)
    requires WellFormed(r)
    ensures i + 1 < |Schedule(Add(Add(r, f1, k), f2, k).lists, Add(Add(r, f1, k), f2, k).order)|
    ensures Schedule(Add(Add(r, f1, k), f2, k).lists, Add(Add(r, f1, k), f2, k).order)[i] == f1
    ensures Schedule(Add(Add(r, f1, k), f2, k).lists, Add(Add(r, f1, k), f2, k).order)[i + 1] == f2
  {
    AddSpec(r, f1, k);
    i := RunsAfterLast(Add(r, f1, k), f2, k);
  }

  lemma PairInside<T>(before: seq<T>, prev: seq<T>, x: T, y: T, after: seq<T>)
    ensures (before + (prev + [x] + [y]) + after)[|before| + |prev|] == x
    ensures (before + (prev + [x] + [y]) + after)[|before| + |prev| + 1] == y
  {
  }

  /** `_render` is either the loop body installed by `startAnimationLoop` or the no-op installed by `stopAnimationLoop`. */
  datatype RenderFn = Loop | Noop

  /** Number of loop bodies a batch of animation-frame callbacks runs. */
  function Bodies(batch: seq<RenderFn>): (n: nat)
    ensures n <= |batch|
    ensures n == 0 <==> Loop !in batch
  {
    if batch == [] then 0
    else Bodies(batch[..|batch| - 1]) + (if batch[|batch| - 1] == Loop then 1 else 0)
  }

  /** The callbacks queued for the next frame: each loop body queues whatever `_render` holds when it runs. */
  function Requeue(render: RenderFn, batch: seq<RenderFn>): (next: seq<RenderFn>)
    ensures |next| == Bodies(batch)
    ensures forall i :: 0 <= i < |next| ==> next[i] == render
  {
    if batch == [] then []
    else Requeue(render, batch[..|batch| - 1]) + (if batch[|batch| - 1] == Loop then [render] else [])
  }

  /** Loop bodies run over `n` frames while `_render` stays `render`. */
  function Frames(render: RenderFn, pending: seq<RenderFn>, n: nat): nat
    decreases n
  {
    if n == 0 then 0 else Bodies(pending) + Frames(render, Requeue(render, pending), n - 1)
  }

  /** A started loop with one pending frame runs exactly one body per frame, forever. */
  lemma {:induction false} RunningLoopRunsOncePerFrame(n: nat)
    ensures Requeue(Loop, [Loop]) == [Loop]
    ensures Frames(Loop, [Loop], n) == n
  {
    assert [Loop][..0] == [];
    if n > 0 {
      RunningLoopRunsOncePerFrame(n - 1);
    }
  }

  lemma {:induction false} NoLoopNoBodies(render: RenderFn, pending: seq<RenderFn>, n: nat)
    requires Loop !in pending
    ensures Frames(render, pending, n) == 0
    decreases n
  {
    if n > 0 {
      assert Requeue(render, pending) == [];
      NoLoopNoBodies(render, [], n - 1);
    }
  }

  /**
   * After `stopAnimationLoop`, the frames already queued still fire: each queued
   * loop body runs once more and queues the no-op, the no-op frames queue
   * nothing, and after two frames nothing is pending.
   */
  lemma StoppedLoopDrains(pending: seq<RenderFn>, n: nat)
    requires n >= 1
    ensures Frames(Noop, pending, n) == Bodies(pending)
    ensures Requeue(Noop, Requeue(Noop, pending)) == []
  {
    NoLoopNoBodies(Noop, Requeue(Noop, pending), n - 1);
  }

  /** With the single chain a started viewport has, stopping lets exactly one more body run. */
  lemma StopAfterStartRunsOneMoreBody(n: nat)
    requires n >= 1
    ensures Frames(Noop, [Loop], n) == 1
  {
    StoppedLoopDrains([Loop], n);
    assert [Loop][..0] == [];
  }

  /** The names a plain object inherits from `Object.prototype`. */
  const InheritedNames: set<Key> := {
    "constructor", "hasOwnProperty", "isPrototypeOf", "propertyIsEnumerable",
    "toLocaleString", "toString", "valueOf", "__proto__",
    "__defineGetter__", "__defineSetter__", "__lookupGetter__", "__lookupSetter__"
  }

  /** What `this._animationList[key]` reads: an own list, an inherited member, or `undefined`. */
  datatype Lookup = Own(list: seq<Callback>) | Inherited(name: Key) | Undefined

  function LookupAsWritten(r: Registry, k: Key): Lookup
  {
    if k in r.lists then Own(r.lists[k]) else if k in InheritedNames then Inherited(k) else Undefined
  }

  /**
   * `addAnimationFunction` as written: the `typeof ... === 'undefined'` test
   * sees inherited members, so for such a key no list is created and `push` is
   * looked up on the inherited member, which throws (`None`).
   */
  function AddAsWritten(r: Registry, f: Callback, k: Key): Option<Registry>
  {
    match LookupAsWritten(r, k)
    case Inherited(_) => None
    case _ => Some(Add(r, f, k))
  }

  /** What `removeAnimationFunctions` returns: an array of functions, or whatever inherited value it read. */
  datatype Removed = Functions(list: seq<Callback>) | InheritedValue(name: Key)

  /**
   * `removeAnimationFunctions` as written: for an inherited name it returns the
   * inherited member (the `delete` of a missing own property succeeds).
   */
  function RemoveAsWritten(r: Registry, k: Key): (Removed, Registry)
  {
    match LookupAsWritten(r, k)
    case Own(list) => (Functions(list), Remove(r, k).1)
    case Inherited(name) => (InheritedValue(name), r)
    case Undefined => (Functions([]), r)
  }

  /** Keys named after inherited members break both operations as written. */
  lemma InheritedKeyCounterexample(f: Callback)
    ensures AddAsWritten(Empty, f, "toString") == None
    ensures RemoveAsWritten(Empty, "constructor").0 == InheritedValue("constructor")
    ensures Add(Empty, f, "toString").lists["toString"] == [f]
    ensures Remove(Empty, "constructor").0 == []
  {
  }

  /** On every other key the code as written and the own-key registry agree. */
  lemma AsWrittenAgreesOnOtherKeys(r: Registry, f: Callback, k: Key)
    requires k !in InheritedNames || k in r.lists
    ensures AddAsWritten(r, f, k) == Some(Add(r, f, k))
    ensures RemoveAsWritten(r, k) == (Functions(Remove(r, k).0), Remove(r, k).1)
  {
  }
}
