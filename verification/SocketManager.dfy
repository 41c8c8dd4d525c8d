/** The connection manager as an object. Sessions are objects compared by identity; each method is what one
    thread does between two points where others may run. */
module SocketManagers {
  import opened Basics
  import opened SocketRegistry

  class WebsocketSession {
    /** The thread that handles the session. */
    const id: nat
    var open: bool

    constructor (id: nat)
      ensures open && this.id == id
    {
      this.id, open := id, true;
    }

    method Close()
      modifies this
      ensures !open
    {
      open := false;
    }
  }

  class SocketConnectionManager {
    const cap: nat
    var tokens: nat
    var activeSessions: map<Name, WebsocketSession>

    constructor (cap: nat)
      ensures this.cap == cap && tokens == 0 && activeSessions == map[]
    {
      this.cap, tokens, activeSessions := cap, 0, map[];
    }

    /** The registry as the interleaved machine has it. */
    function Registry(): map<Name, nat>
      reads this
    {
      map d | d in activeSessions :: activeSessions[d].id
    }

    /** Nobody else in the registry goes by this session's id. */
    predicate Named(sess: WebsocketSession)
      reads this
    {
      forall d :: d in activeSessions && activeSessions[d].id == sess.id ==> activeSessions[d] == sess
    }

    function Sessions(): set<WebsocketSession>
      reads this
    {
      activeSessions.Values
    }

    /** Take a token and upgrade; a failed upgrade gives the token back. */
    method Accept(handler: nat, upgraded: bool) returns (sess: Option<WebsocketSession>)
      modifies this`tokens
      ensures sess.Some? <==> old(tokens) < cap && upgraded
      ensures tokens == if sess.Some? then old(tokens) + 1 else old(tokens)
      ensures sess.Some? ==> fresh(sess.value) && sess.value.open && sess.value.id == handler
    {
      if tokens >= cap { return None; }
      tokens := tokens + 1;
      if !upgraded {
        tokens := tokens - 1;
        return None;
      }
      var s := new WebsocketSession(handler);
      return Some(s);
    }

    /** The newest connection of a device takes its place; the one it replaces is closed. */
    method Register(device: Name, sess: WebsocketSession)
      modifies this`activeSessions, Sessions()
      ensures activeSessions == old(activeSessions)[device := sess]
      ensures Registry() == old(Registry())[device := sess.id]
      ensures device in old(activeSessions) ==> !old(activeSessions)[device].open
      ensures forall s <- old(Sessions()) :: s !in (if device in old(activeSessions) then {old(activeSessions)[device]} else {}) ==> s.open == old(s.open)
    {
      if device in activeSessions { activeSessions[device].Close(); }
      activeSessions := activeSessions[device := sess];
    }

    /** The deferred cleanup of a handler. */
    method Unregister(device: Name, sess: WebsocketSession)
      requires tokens > 0
      modifies this, sess
      ensures !sess.open && tokens == old(tokens) - 1
      ensures activeSessions == RemoveIf(old(activeSessions), device, sess)
      ensures old(Named(sess)) ==> Registry() == RemoveIf(old(Registry()), device, sess.id)
    {
      sess.Close();
      if device in activeSessions && activeSessions[device] == sess {
        activeSessions := activeSessions - {device};
      }
      tokens := tokens - 1;
    }

    /** What a delivery does after writing to the session it looked up. */
    method FinishDelivery(device: Name, sess: WebsocketSession, written: bool) returns (delivered: bool)
      modifies this`activeSessions, sess
      ensures delivered == written
      ensures written ==> sess.open == old(sess.open) && activeSessions == old(activeSessions)
      ensures !written ==> !sess.open && activeSessions == RemoveIf(old(activeSessions), device, sess)
      ensures !written && old(Named(sess)) ==> Registry() == RemoveIf(old(Registry()), device, sess.id)
    {
      if !written {
        sess.Close();
        if device in activeSessions && activeSessions[device] == sess {
          activeSessions := activeSessions - {device};
        }
        return false;
      }
      return true;
    }

    method DisconnectDevice(device: Name)
      modifies this`activeSessions, Sessions()
      ensures activeSessions == old(activeSessions) - {device}
      ensures Registry() == old(Registry()) - {device}
      ensures device in old(activeSessions) ==> !old(activeSessions)[device].open
      ensures forall s <- old(Sessions()) :: s !in (if device in old(activeSessions) then {old(activeSessions)[device]} else {}) ==> s.open == old(s.open)
    {
      if device in activeSessions {
        activeSessions[device].Close();
        activeSessions := activeSessions - {device};
      }
    }

    /** Empty the registry into a list, in any order. */
    method Collect() returns (sessions: seq<WebsocketSession>)
      modifies this`activeSessions
      ensures activeSessions == map[]
      ensures forall s :: s in sessions <==> s in old(Sessions())
    {
      sessions := [];
      while activeSessions != map[]
        invariant forall s :: s in sessions || s in Sessions() <==> s in old(Sessions())
        decreases |activeSessions|
      {
        var device :| device in activeSessions;
        ghost var before := activeSessions;
        sessions := sessions + [activeSessions[device]];
        activeSessions := activeSessions - {device};
        assert before == activeSessions[device := before[device]];
      }
    }

    /** Empty the registry, then close all that was in it. */
    method Shutdown()
      modifies this`activeSessions, Sessions()
      ensures activeSessions == map[]
      ensures forall s <- old(Sessions()) :: !s.open
    {
      var sessions := Collect();
      for i := 0 to |sessions|
        invariant activeSessions == map[]
        invariant forall j :: 0 <= j < i ==> !sessions[j].open
      {
        sessions[i].Close();
      }
    }

    method IsDeviceOnline(device: Name) returns (online: bool)
      ensures online <==> device in activeSessions
    {
      return device in activeSessions;
    }
  }
}
