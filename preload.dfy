/** The preload bridge (src/preload/preload.ts): the `electronAPI` object
    exposed to the renderer, which forwards to `ipcRenderer` and keeps a
    module-level set of the channel names it believes are being listened on. */
module Preload {
  import opened Common

  /** A listener function; only its identity matters here. */
  type Listener = nat

  /** A call the bridge forwards to `ipcRenderer`. */
  datatype RendererCall =
    | SendCall(channel: string, args: seq<string>)
    | OnCall(channel: string, listener: Listener)
    | OnceCall(channel: string, listener: Listener)
    | RemoveCall(channel: string, listener: Listener)

  /** What one forwarded call does to the set of tracked channels: `on` adds
      its channel, `removeListener` deletes it, whichever listener it names. */
  function Track(tracked: set<string>, call: RendererCall): (r: set<string>)
    ensures call.OnCall? ==> call.channel in r
    ensures call.RemoveCall? ==> call.channel !in r
    ensures forall c :: c != call.channel ==> (c in r <==> c in tracked)
    ensures call.SendCall? || call.OnceCall? ==> r == tracked
  {
    match call
    case OnCall(c, _) => tracked + {c}
    case RemoveCall(c, _) => tracked - {c}
    case _ => tracked
  }

  /** The tracked set after a whole sequence of calls, oldest first. */
  function TrackAll(tracked: set<string>, calls: seq<RendererCall>): set<string>
  {
    if calls == [] then tracked
    else Track(TrackAll(tracked, calls[..|calls| - 1]), calls[|calls| - 1])
  }

  /** Whether the most recent `on` or `removeListener` call for `c` in
      `calls` was an `on` (Some(true)), a removal (Some(false)), or there was
      none (None). */
  function LastFlag(calls: seq<RendererCall>, c: string): Option<bool>
  {
    if calls == [] then None
    else
      var last := calls[|calls| - 1];
      if last.OnCall? && last.channel == c then Some(true)
      else if last.RemoveCall? && last.channel == c then Some(false)
      else LastFlag(calls[..|calls| - 1], c)
  }

  /** A channel is tracked after a sequence of calls exactly when the last
      `on`/`removeListener` call naming it was an `on`; with no such call it
      keeps its initial status. How many listeners were added does not matter. */
  lemma {:induction false} TrackedIffLastWasOn(tracked: set<string>, calls: seq<RendererCall>, c: string)
    ensures c in TrackAll(tracked, calls) <==>
      match LastFlag(calls, c)
      case Some(on) => on
      case None => c in tracked
  {
    if calls != [] {
      TrackedIffLastWasOn(tracked, calls[..|calls| - 1], c);
    }
  }

  /** Two `on` calls for one channel followed by a single `removeListener`
      leave the channel untracked, although one listener is still registered. */
  lemma RemoveClearsDespiteSecondListener(tracked: set<string>, c: string, first: Listener, second: Listener)
    ensures c !in TrackAll(tracked, [OnCall(c, first), OnCall(c, second), RemoveCall(c, first)])
  {
  }

  /** The `electronAPI` object together with the module-level `listeners` set.
      `ipcRenderer` itself is outside the model: `forwarded` records, in
      order, the calls made on it. */
  class ElectronApi {
    var listeners: set<string>
    var forwarded: seq<RendererCall>

    /** The tracked set is always the replay of the forwarded calls. */
    ghost predicate Valid()
      reads this
    {
      listeners == TrackAll({}, forwarded)
    }

    constructor ()
      ensures Valid() && listeners == {} && forwarded == []
    {
      listeners := {};
      forwarded := [];
    }

    method Send(channel: string, args: seq<string>)
      requires Valid()
      modifies this`forwarded
      ensures Valid()
      ensures forwarded == old(forwarded) + [SendCall(channel, args)]
    {
      forwarded := forwarded + [SendCall(channel, args)];
      assert forwarded[..|forwarded| - 1] == old(forwarded);
    }

    method On(channel: string, listener: Listener)
      requires Valid()
      modifies this
      ensures Valid()
      ensures listeners == old(listeners) + {channel}
      ensures forwarded == old(forwarded) + [OnCall(channel, listener)]
    {
      listeners := listeners + {channel};
      forwarded := forwarded + [OnCall(channel, listener)];
      assert forwarded[..|forwarded| - 1] == old(forwarded);
    }

    /** A one-shot listener is forwarded but never tracked. */
    method Once(channel: string, listener: Listener)
      requires Valid()
      modifies this`forwarded
      ensures Valid()
      ensures forwarded == old(forwarded) + [OnceCall(channel, listener)]
    {
      forwarded := forwarded + [OnceCall(channel, listener)];
      assert forwarded[..|forwarded| - 1] == old(forwarded);
    }

    method RemoveListener(channel: string, listener: Listener)
      requires Valid()
      modifies this
      ensures Valid()
      ensures listeners == old(listeners) - {channel}
      ensures forwarded == old(forwarded) + [RemoveCall(channel, listener)]
    {
      listeners := listeners - {channel};
      forwarded := forwarded + [RemoveCall(channel, listener)];
      assert forwarded[..|forwarded| - 1] == old(forwarded);
    }

    /** Membership of the tracked set, which by the invariant is whether the
        last `on`/`removeListener` call forwarded for the channel was an `on`. */
    method IsListening(channel: string) returns (listening: bool)
      requires Valid()
      ensures listening <==> channel in listeners
      ensures listening <==> LastFlag(forwarded, channel) == Some(true)
    {
      listening := channel in listeners;
      TrackedIffLastWasOn({}, forwarded, channel);
    }
  }
}
