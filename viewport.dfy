/**
 * The viewport's animation loop. The registry object is updated in place by
 * `AddAnimationFunction` / `RemoveAnimationFunctions`; one run of the loop body
 * calls every registered function, renders, and advances the shared time cell.
 * The host's animation-frame queue is the `pending` field, and `Frame` fires
 * it. Registered functions are known by identity only: calling one appends it
 * to `calls`, and its own effects are outside the model, as is the render step.
 */
module Scheduler {
  import opened Uniforms
  import opened Animation

  /** Logical time added per loop body. */
  const Step: real := 0.01

  /** `_animationList`, the object `addAnimationFunction` hands back. */
  class AnimationList {
    var lists: map<Key, seq<Callback>>
    var order: seq<Key>

    function Value(): Registry
      reads this
    {
      Registry(lists, order)
    }

    constructor ()
      ensures Value() == Empty
    {
      lists := map[];
      order := [];
    }
  }

  class Viewport {
    const animationList: AnimationList
    const timeUniform: Cell
    /** The function stored in `_render`. */
    var render: RenderFn
    /** Callbacks handed to `requestAnimationFrame` that have not fired yet. */
    var pending: seq<RenderFn>
    /** Every call of a registered function so far, in order. */
    var calls: seq<Callback>

    ghost predicate Valid()
      reads animationList
    {
      WellFormed(animationList.Value())
    }

    /** Set up an empty registry and a time cell at 0, then start the loop, which runs one body at once. */
    constructor ()
      ensures Valid() && fresh(animationList) && fresh(timeUniform)
      ensures animationList.Value() == Empty
      ensures render == Loop && pending == [Loop] && calls == []
      ensures timeUniform.value == Step
    {
      render := Noop;
      animationList := new AnimationList();
      timeUniform := new Cell(0.0);
      pending := [];
      calls := [];
      new;
      StartAnimationLoop();
    }

    /** One call of the loop body: queue `_render` for the next frame, call every registered function, advance time. */
    method RunBody()
      requires Valid()
      modifies this`pending, this`calls, timeUniform
      ensures pending == old(pending) + [render]
      ensures calls == old(calls) + Schedule(animationList.lists, animationList.order)
      ensures timeUniform.value == old(timeUniform.value) + Step
    {
      pending := pending + [render];
      RunAnimationFunctions();
      timeUniform.value := timeUniform.value + Step;
    }

    /** The nested loops over `Object.keys(_animationList)` and each key's list. */
    method RunAnimationFunctions()
      requires Valid()
      modifies this`calls
      ensures calls == old(calls) + Schedule(animationList.lists, animationList.order)
    {
      var keys := animationList.order;
      var n := 0;
      while n < |keys|
        invariant 0 <= n <= |keys|
        invariant calls == old(calls) + Schedule(animationList.lists, keys[..n])
      {
        var list := animationList.lists[keys[n]];
        var i := 0;
        while i < |list|
          invariant 0 <= i <= |list|
          invariant calls == old(calls) + Schedule(animationList.lists, keys[..n]) + list[..i]
        {
          calls := calls + [list[i]];
          i := i + 1;
        }
        assert keys[..n + 1][..n] == keys[..n];
        assert list[..i] == list;
        n := n + 1;
      }
      assert keys[..n] == keys;
    }

    /** `startAnimationLoop`: install the loop body in `_render` and call it. */
    method StartAnimationLoop()
      requires Valid()
      modifies this`render, this`pending, this`calls, timeUniform
      ensures render == Loop
      ensures pending == old(pending) + [Loop]
      ensures calls == old(calls) + Schedule(animationList.lists, animationList.order)
      ensures timeUniform.value == old(timeUniform.value) + Step
    {
      render := Loop;
      RunBody();
    }

    /** `stopAnimationLoop`: replace `_render` by the no-op; frames already queued still fire. */
    method StopAnimationLoop()
      modifies this`render
      ensures render == Noop
    {
      render := Noop;
    }

    /**
     * One animation frame: the host fires every callback queued before the frame,
     * in order; callbacks queued meanwhile wait for the next frame.
     */
    method Frame()
      requires Valid()
      modifies this`pending, this`calls, timeUniform
      ensures pending == Requeue(render, old(pending))
      ensures calls == old(calls) + Repeat(Schedule(animationList.lists, animationList.order), Bodies(old(pending)))
      ensures timeUniform.value == old(timeUniform.value) + Bodies(old(pending)) as real * Step
    {
      var batch := pending;
      ghost var tick := Schedule(animationList.lists, animationList.order);
      pending := [];
      var i := 0;
      while i < |batch|
        invariant 0 <= i <= |batch|
        invariant pending == Requeue(render, batch[..i])
        invariant calls == old(calls) + Repeat(tick, Bodies(batch[..i]))
        invariant timeUniform.value == old(timeUniform.value) + Bodies(batch[..i]) as real * Step
      {
        FireNext(batch, i, tick, old(calls), old(timeUniform.value));
        i := i + 1;
      }
      assert batch[..i] == batch;
    }

    /** The host fires callback `i` of the batch: the loop body runs, the no-op does nothing. */
    method FireNext(batch: seq<RenderFn>, i: nat, ghost tick: seq<Callback>, ghost calls0: seq<Callback>, ghost time0: real)
      requires Valid() && i < |batch|
      requires tick == Schedule(animationList.lists, animationList.order)
      requires pending == Requeue(render, batch[..i])
      requires calls == calls0 + Repeat(tick, Bodies(batch[..i]))
      requires timeUniform.value == time0 + Bodies(batch[..i]) as real * Step
      modifies this`pending, this`calls, timeUniform
      ensures pending == Requeue(render, batch[..i + 1])
      ensures calls == calls0 + Repeat(tick, Bodies(batch[..i + 1]))
      ensures timeUniform.value == time0 + Bodies(batch[..i + 1]) as real * Step
    {
      BatchStep(render, batch, i);
      if batch[i] == Loop {
        var bodies := Bodies(batch[..i]);
        RepeatMore(tick, bodies);
        assert (bodies + 1) as real * Step == bodies as real * Step + Step;
        RunBody();
      }
    }

    /** `addAnimationFunction(f, k)`: returns the registry object itself. */
    method AddAnimationFunction(f: Callback, k: Key) returns (list: AnimationList)
      requires Valid()
      modifies animationList
      ensures Valid()
      ensures animationList.Value() == Add(old(animationList.Value()), f, k)
      ensures list == animationList
    {
      if k !in animationList.lists {
        animationList.lists := animationList.lists[k := []];
        animationList.order := animationList.order + [k];
      }
      animationList.lists := animationList.lists[k := animationList.lists[k] + [f]];
      AddSpec(old(animationList.Value()), f, k);
      list := animationList;
    }

    /** `removeAnimationFunctions(k)`: deleting an own property of a plain object always succeeds. */
    method RemoveAnimationFunctions(k: Key) returns (removed: seq<Callback>)
      requires Valid()
      modifies animationList
      ensures Valid()
      ensures (removed, animationList.Value()) == Remove(old(animationList.Value()), k)
    {
      if k !in animationList.lists {
        return [];
      }
      removed := animationList.lists[k];
      animationList.lists := animationList.lists - {k};
      animationList.order := Without(animationList.order, k);
      RemoveSpec(old(animationList.Value()), k);
    }
  }

  /** `n` ticks' worth of calls. */
  function Repeat(s: seq<Callback>, n: nat): seq<Callback>
  {
    if n == 0 then [] else Repeat(s, n - 1) + s
  }

  /** Firing one more callback of the batch: at most one more body, and what it queues. */
  lemma BatchStep(render: RenderFn, batch: seq<RenderFn>, i: nat)
    requires i < |batch|
    ensures Bodies(batch[..i + 1]) == Bodies(batch[..i]) + (if batch[i] == Loop then 1 else 0)
    ensures Requeue(render, batch[..i + 1]) == Requeue(render, batch[..i]) + (if batch[i] == Loop then [render] else [])
  {
    assert batch[..i + 1][..i] == batch[..i];
  }

  lemma RepeatMore(s: seq<Callback>, n: nat)
    ensures Repeat(s, n) + s == Repeat(s, n + 1)
  {
  }

  /**
   * Two functions registered under one key, one frame: they run once each, the
   * first-added first.
   */
  method TwoFunctionsOneFrame() returns (called: seq<Callback>)
    ensures called == [Callback(1), Callback(2)]
  {
    var v := SpinViewport();
    ghost var tick := Schedule(v.animationList.lists, v.animationList.order);
    OneLoopOneBody();
    RepeatOnce(tick);
    v.Frame();
    called := v.calls;
  }

  /** A fresh viewport with two functions registered under one key. */
  method SpinViewport() returns (v: Viewport)
    ensures fresh(v) && fresh(v.animationList) && fresh(v.timeUniform) && v.Valid()
    ensures v.animationList.Value() == Add(Add(Empty, Callback(1), "spin"), Callback(2), "spin")
    ensures Schedule(v.animationList.lists, v.animationList.order) == [Callback(1), Callback(2)]
    ensures v.pending == [Loop] && v.calls == []
  {
    v := new Viewport();
    var _ := v.AddAnimationFunction(Callback(1), "spin");
    var _ := v.AddAnimationFunction(Callback(2), "spin");
    TwoUnderOneKey();
  }

  lemma TwoUnderOneKey()
    ensures var r := Add(Add(Empty, Callback(1), "spin"), Callback(2), "spin");
            r.lists == map["spin" := [Callback(1), Callback(2)]] && r.order == ["spin"]
            && Schedule(r.lists, r.order) == [Callback(1), Callback(2)]
  {
    var r := Add(Add(Empty, Callback(1), "spin"), Callback(2), "spin");
    assert [Callback(1)] + [Callback(2)] == [Callback(1), Callback(2)];
    assert r.lists == map["spin" := [Callback(1), Callback(2)]];
    assert ["spin"][..0] == [];
  }

  /** A frame whose queue holds the loop body alone runs one body. */
  lemma OneLoopOneBody()
    ensures Bodies([Loop]) == 1
  {
    assert [Loop][..0] == [];
  }

  lemma RepeatOnce(tick: seq<Callback>)
    ensures Repeat(tick, 1) == tick
  {
  }

  /**
   * A running loop: the constructor's body and one body per frame each add one
   * step, so after `frames` frames the time cell holds `frames + 1` steps.
   */
  method TimeAfterFrames(frames: nat) returns (time: real)
    ensures time == (frames + 1) as real * Step
  {
    var v := new Viewport();
    var i := 0;
    while i < frames
      invariant 0 <= i <= frames
      invariant v.Valid() && v.render == Loop && v.pending == [Loop]
      invariant v.timeUniform.value == (i + 1) as real * Step
      modifies v, v.timeUniform
    {
      OneLoopOneBody();
      assert [Loop][..0] == [];
      v.Frame();
      i := i + 1;
    }
    time := v.timeUniform.value;
  }

  /**
   * Stopping a freshly started viewport: the frame already queued still runs
   * the body once (time reaches two steps), the no-op it queues runs on the
   * frame after, and from then on nothing is pending and time stands still.
   */
  method StopRunsOneMoreBody(frames: nat) returns (time: real, stillPending: nat)
    requires frames >= 2
    ensures time == 2.0 * Step && stillPending == 0
  {
    var v := new Viewport();
    v.StopAnimationLoop();
    var i := 0;
    while i < frames
      invariant 0 <= i <= frames
      invariant v.Valid() && v.render == Noop
      invariant i == 0 ==> v.pending == [Loop] && v.timeUniform.value == Step
      invariant i == 1 ==> v.pending == [Noop] && v.timeUniform.value == 2.0 * Step
      invariant i >= 2 ==> v.pending == [] && v.timeUniform.value == 2.0 * Step
      modifies v, v.timeUniform
    {
      assert [Loop][..0] == [] && [Noop][..0] == [];
      v.Frame();
      i := i + 1;
    }
    time, stillPending := v.timeUniform.value, |v.pending|;
  }
}
