/**
 * The Scheme scope chain (src/scheme/env.rs).
 *
 * An `Enviroment` owns its data map (or none) and, boxed, its parent; no
 * two environments share a parent, so the chain is a sequence of frames:
 * `frames[0]` is the environment itself, `frames[k + 1]` the parent of
 * `frames[k]`, and the last frame has no parent. A frame without a data
 * map is `None`. The bound values are opaque here (`D`).
 */
module SchemeEnv {
  import opened Wrappers

  /** A frame's bindings, or `None` for a frame without a data map. */
  type Frame<D> = Option<map<string, D>>

  /** The names `Enviroment::new` binds to builtins. */
  const Builtins: set<string> := {"=", "<", "<=", "+", "-", "*", "/", "car", "cdr", "list"}

  /**
   * `find` from frame i outward: the binding in the nearest frame that has
   * one; an error on reaching a frame without a data map or the end.
   */
  function Lookup<D>(frames: seq<Frame<D>>, i: nat, name: string): (r: Result<D, string>)
    ensures r.Err? ==> r.error == "No variable named " + name
    decreases |frames| - i
  {
    if i >= |frames| || frames[i].None? then Err("No variable named " + name)
    else if name in frames[i].value then Ok(frames[i].value[name])
    else Lookup(frames, i + 1, name)
  }

  /** The frame `find` would take the binding from, if any. */
  function Nearest<D>(frames: seq<Frame<D>>, i: nat, name: string): (r: Option<nat>)
    ensures r.Some? ==> i <= r.value < |frames| && frames[r.value].Some? && name in frames[r.value].value
    ensures r.Some? <==> Lookup(frames, i, name).Ok?
    ensures r.Some? ==> Lookup(frames, i, name).value == frames[r.value].value[name]
    decreases |frames| - i
  {
    if i >= |frames| || frames[i].None? then None
    else if name in frames[i].value then Some(i)
    else Nearest(frames, i + 1, name)
  }

  /** `put`'s effect: name bound to d in the current frame only. */
  function PutIn<D>(frames: seq<Frame<D>>, name: string, d: D): seq<Frame<D>>
    requires |frames| > 0 && frames[0].Some?
  {
    frames[0 := Some(frames[0].value[name := d])]
  }

  /** `set`'s effect: the nearest binding of name overwritten; nothing if there is none. */
  function SetIn<D>(frames: seq<Frame<D>>, name: string, d: D): seq<Frame<D>>
  {
    match Nearest(frames, 0, name)
    case None => frames
    case Some(k) => frames[k := Some(frames[k].value[name := d])]
  }

  /** `forward`'s effect: a fresh empty frame in front of the old chain. */
  function Enter<D>(frames: seq<Frame<D>>): seq<Frame<D>>
  {
    [Some(map[])] + frames
  }

  /** `downward`'s effect: the current frame dropped, its parent current again. */
  function Leave<D>(frames: seq<Frame<D>>): seq<Frame<D>>
    requires |frames| >= 3 && frames[1].Some?
  {
    frames[1..]
  }

  class Enviroment<D> {
    /** This environment's frame, then its ancestors'. */
    var frames: seq<Frame<D>>

    /**
     * `Enviroment::new`: the builtins in the top frame, whose parent is a
     * default environment, with no data map and no parent. `builtin`
     * gives the value bound to each builtin name.
     */
    constructor (builtin: string -> D)
      ensures frames == [Some(map n | n in Builtins :: builtin(n)), None]
    {
      frames := [Some(map n | n in Builtins :: builtin(n)), None];
    }

    /** `find`: the nearest binding, from this frame outward. */
    function Find(name: string): (r: Result<D, string>)
      reads this
      ensures r.Ok? <==> Nearest(frames, 0, name).Some?
      ensures r.Ok? ==> r.value == frames[Nearest(frames, 0, name).value].value[name]
    {
      Lookup(frames, 0, name)
    }

    /** `put`: insert or overwrite in the current frame (which must have a data map). */
    method Put(name: string, data: D)
      requires |frames| > 0 && frames[0].Some?
      modifies this
      ensures frames == PutIn(old(frames), name, data)
    {
      frames := frames[0 := Some(frames[0].value[name := data])];
    }

    /**
     * `set`: down the chain to the nearest frame binding name, overwrite
     * there and return the old value; an error, with nothing changed, if
     * `find` would fail.
     */
    method Set(name: string, data: D) returns (r: Result<D, string>)
      modifies this
      ensures r == Lookup(old(frames), 0, name)
      ensures frames == SetIn(old(frames), name, data)
    {
      var i := 0;
      while i < |frames| && frames[i].Some? && name !in frames[i].value
        invariant i <= |frames|
        invariant Lookup(frames, i, name) == Lookup(frames, 0, name)
        invariant Nearest(frames, i, name) == Nearest(frames, 0, name)
        decreases |frames| - i
      {
        i := i + 1;
      }
      if i < |frames| && frames[i].Some? {
        r := Ok(frames[i].value[name]);
        frames := frames[i := Some(frames[i].value[name := data])];
      } else {
        r := Err("No variable named " + name);
      }
    }

    /** `forward`: the current frame and parent move into a new parent; the current frame is empty. */
    method Forward()
      modifies this
      ensures frames == Enter(old(frames))
    {
      frames := [Some(map[])] + frames;
    }

    /**
     * `downward`: the parent's data map and parent become the current ones;
     * a missing parent, parent data map or grandparent panics.
     */
    method Downward()
      requires |frames| >= 3 && frames[1].Some?
      modifies this
      ensures frames == Leave(old(frames))
    {
      frames := frames[1..];
    }
  }

  // ---------------------------------------------------------------------------
  // What the operations promise
  // ---------------------------------------------------------------------------

  /** A new environment finds exactly the builtins. */
  lemma NewFinds<D>(builtin: string -> D, name: string)
    ensures var fs: seq<Frame<D>> := [Some(map n | n in Builtins :: builtin(n)), None];
            Lookup(fs, 0, name) == if name in Builtins then Ok(builtin(name)) else Err("No variable named " + name)
  {
  }

  /** A frame in front shifts every lookup from the old chain by one. */
  lemma {:induction false} LookupShift<D>(f: Frame<D>, frames: seq<Frame<D>>, i: nat, name: string)
    ensures Lookup([f] + frames, i + 1, name) == Lookup(frames, i, name)
    decreases |frames| - i
  {
    var fs := [f] + frames;
    if i < |frames| {
      assert fs[i + 1] == frames[i];
      if frames[i].Some? && name !in frames[i].value {
        LookupShift(f, frames, i + 1, name);
      }
    }
  }

  /** After `forward`, every name is found as before. */
  lemma EnterFinds<D>(frames: seq<Frame<D>>, name: string)
    ensures Lookup(Enter(frames), 0, name) == Lookup(frames, 0, name)
  {
    LookupShift(Some(map[]), frames, 0, name);
  }

  /** After `put`, the name is found with the new value and every other name as before. */
  lemma PutFinds<D>(frames: seq<Frame<D>>, name: string, d: D, other: string)
    requires |frames| > 0 && frames[0].Some?
    ensures Lookup(PutIn(frames, name, d), 0, name) == Ok(d)
    ensures other != name ==> Lookup(PutIn(frames, name, d), 0, other) == Lookup(frames, 0, other)
  {
    var fs := PutIn(frames, name, d);
    if other != name && other !in frames[0].value {
      LookupFrom1(frames, fs, other);
    }
  }

  /** Chains that agree from frame 1 on agree on lookups from there. */
  lemma LookupFrom1<D>(frames: seq<Frame<D>>, fs: seq<Frame<D>>, name: string)
    requires |frames| == |fs| > 0 && frames[1..] == fs[1..]
    ensures Lookup(fs, 1, name) == Lookup(frames, 1, name)
  {
    LookupShift(frames[0], frames[1..], 0, name);
    LookupShift(fs[0], fs[1..], 0, name);
    assert [frames[0]] + frames[1..] == frames;
    assert [fs[0]] + fs[1..] == fs;
  }

  /**
   * `forward`, any `put`s into the new frame, then `downward`: the chain
   * is what it was, so the bindings made in between are gone.
   */
  lemma ScopeDiscarded<D>(frames: seq<Frame<D>>, name: string, d: D)
    requires |frames| >= 2 && frames[0].Some?
    ensures Leave(PutIn(Enter(frames), name, d)) == frames
    ensures Leave(Enter(frames)) == frames
  {
    assert PutIn(Enter(frames), name, d)[1..] == frames;
  }

  /** `set` of a bound name: it is found with the new value, every other name as before. */
  lemma {:induction false} SetFinds<D>(frames: seq<Frame<D>>, name: string, d: D, other: string)
    requires Lookup(frames, 0, name).Ok?
    ensures Lookup(SetIn(frames, name, d), 0, name) == Ok(d)
    ensures other != name ==> Lookup(SetIn(frames, name, d), 0, other) == Lookup(frames, 0, other)
  {
    var k := Nearest(frames, 0, name).value;
    var fs := SetIn(frames, name, d);
    assert fs == frames[k := Some(frames[k].value[name := d])];
    SetFindsFrom(frames, fs, k, name, d, other, 0);
  }

  lemma {:induction false} SetFindsFrom<D>(frames: seq<Frame<D>>, fs: seq<Frame<D>>, k: nat, name: string, d: D,
                                           other: string, i: nat)
    requires i <= k && Nearest(frames, i, name) == Some(k)
    requires fs == frames[k := Some(frames[k].value[name := d])]
    ensures Lookup(fs, i, name) == Ok(d)
    ensures other != name ==> Lookup(fs, i, other) == Lookup(frames, i, other)
    decreases k - i
  {
    if i < k {
      assert fs[i] == frames[i];
      SetFindsFrom(frames, fs, k, name, d, other, i + 1);
    } else if other != name && other !in frames[k].value {
      SetFindsAfter(frames, fs, k, name, d, other, k + 1);
    }
  }

  lemma {:induction false} SetFindsAfter<D>(frames: seq<Frame<D>>, fs: seq<Frame<D>>, k: nat, name: string, d: D,
                                            other: string, i: nat)
    requires k < i && k < |frames| && frames[k].Some?
    requires fs == frames[k := Some(frames[k].value[name := d])]
    ensures Lookup(fs, i, other) == Lookup(frames, i, other)
    decreases |frames| - i
  {
    if i < |frames| {
      assert fs[i] == frames[i];
      if frames[i].Some? && other !in frames[i].value {
        SetFindsAfter(frames, fs, k, name, d, other, i + 1);
      }
    }
  }

  /** `set` never creates a binding: every frame keeps its data map's names, and a failed `set` changes nothing. */
  lemma SetKeepsNames<D>(frames: seq<Frame<D>>, name: string, d: D)
    ensures |SetIn(frames, name, d)| == |frames|
    ensures forall k :: 0 <= k < |frames| ==>
              SetIn(frames, name, d)[k].Some? == frames[k].Some?
              && (frames[k].Some? ==> SetIn(frames, name, d)[k].value.Keys == frames[k].value.Keys)
    ensures Lookup(frames, 0, name).Err? ==> SetIn(frames, name, d) == frames
  {
  }
}
