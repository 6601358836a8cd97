/**
  The manager of an agent's terminals (`crates/agent/src/terminal.rs`, Unix sessions), which edits its
  table in place. Every method has the effect of its request on the table; `TerminalRuns` says what
  runs of these requests keep.
*/
module Terminal {
  import opened Wrappers
  import opened Scrollback
  import opened TerminalRuns

  datatype Error = AlreadyOwns | BadDimension | SpawnFailed | Gone | Elevated | BadToken | AlreadyAttached

  class TerminalManager {
    var sessions: Table

    ghost predicate Valid()
      reads this
    {
      OnePerChannel(sessions) && forall id :: id in sessions ==> sessions[id].id == id
    }

    constructor ()
      ensures Valid() && sessions == Run([])
    {
      sessions := map[];
    }

    /** `by_channel_mut` and its relatives: the session attached to a channel. */
    method Find(channelId: string) returns (id: Option<string>)
      requires Valid()
      ensures id.Some? <==> Taken(sessions, channelId)
      ensures id.Some? ==> id.value in sessions && Owns(sessions[id.value], channelId)
      ensures id.Some? ==> forall other :: other in sessions && Owns(sessions[other], channelId) ==> other == id.value
    {
      if key :| key in sessions && Owns(sessions[key], channelId) {
        return Some(sessions[key].id);
      }
      return None;
    }

    /** `terminalId` is a fresh random UUID; spawning may fail. */
    method OpenTerminal(channelId: string, columns: Option<nat>, rows: Option<nat>, elevated: bool,
      terminalId: string, token: string, spawned: bool, now: int) returns (result: Result<string, Error>)
      requires Valid() && terminalId !in sessions
      modifies this
      ensures Valid()
      ensures sessions == After(old(sessions),
        At(now, Open(channelId, columns, rows, elevated, terminalId, token, spawned)))
      ensures result ==
        if old(Taken(sessions, channelId)) then Err(AlreadyOwns)
        else if !DimensionOk(columns) || !DimensionOk(rows) then Err(BadDimension)
        else if !spawned then Err(SpawnFailed)
        else Ok(terminalId)
      ensures result.Ok? ==> terminalId in sessions && Owns(sessions[terminalId], channelId)
    {
      var taken := Find(channelId);
      if taken.Some? { return Err(AlreadyOwns); }
      if !DimensionOk(columns) || !DimensionOk(rows) { return Err(BadDimension); }
      if !spawned { return Err(SpawnFailed); }
      sessions := sessions[terminalId := Session(terminalId, Some(channelId), token, None, [], elevated, now, now)];
      return Ok(terminalId);
    }

    method ResumeTerminal(channelId: string, terminalId: string, token: string, now: int)
      returns (result: Result<seq<Byte>, Error>)
      requires Valid()
      modifies this
      ensures Valid() && sessions == After(old(sessions), At(now, Resume(channelId, terminalId, token)))
      ensures result.Ok? <==>
        !old(Taken(sessions, channelId)) && terminalId in old(sessions) && Resumable(old(sessions)[terminalId], token)
      ensures result.Ok? ==> result.value == old(sessions)[terminalId].scrollback
      ensures result.Ok? ==> Owns(sessions[terminalId], channelId)
      ensures result.Err? ==> sessions == old(sessions)
    {
      var taken := Find(channelId);
      if taken.Some? { return Err(AlreadyOwns); }
      if terminalId !in sessions { return Err(Gone); }
      var session := sessions[terminalId];
      if session.elevated { return Err(Elevated); }
      if session.resumeToken != token { return Err(BadToken); }
      if session.channelId.Some? { return Err(AlreadyAttached); }
      sessions := sessions[terminalId :=
        session.(channelId := Some(channelId), detachedAt := None, lastActivity := now)];
      return Ok(session.scrollback);
    }

    /** Input and resize that reach the terminal count as activity. */
    method TouchTerminal(channelId: string, now: int) returns (found: bool)
      requires Valid()
      modifies this
      ensures Valid() && sessions == After(old(sessions), At(now, Touch(channelId)))
      ensures found == old(Taken(sessions, channelId))
    {
      var id := Find(channelId);
      if id.None? { return false; }
      sessions := sessions[id.value := sessions[id.value].(lastActivity := now)];
      return true;
    }

    method CloseChannel(channelId: string, ghost now: int) returns (closed: bool)
      requires Valid()
      modifies this
      ensures Valid() && sessions == After(old(sessions), At(now, Close(channelId)))
      ensures closed == old(Taken(sessions, channelId)) && !Taken(sessions, channelId)
    {
      var id := Find(channelId);
      if id.None? { return false; }
      sessions := sessions - {id.value};
      return true;
    }

    /** An elevated terminal dies with its channel; any other is kept, detached. */
    method DisconnectChannel(channelId: string, now: int)
      requires Valid()
      modifies this
      ensures Valid() && sessions == After(old(sessions), At(now, Disconnect(channelId)))
      ensures !Taken(sessions, channelId)
    {
      var id := Find(channelId);
      if id.None? {
        NobodyDisconnected(sessions, channelId, now);
        return;
      }
      OneDisconnected(sessions, id.value, channelId, now);
      var session := sessions[id.value];
      if session.elevated {
        sessions := sessions - {id.value};
      } else {
        sessions := sessions[id.value := session.(channelId := None, detachedAt := Some(now))];
      }
    }

    method DisconnectAllChannels(now: int)
      requires Valid()
      modifies this
      ensures Valid() && sessions == After(old(sessions), At(now, DisconnectAll))
    {
      var channels := Channels(sessions);
      var left := channels;
      NoChannelsGone(sessions, now);
      while left != {}
        invariant left <= channels
        invariant Valid() && sessions == WithoutChannels(old(sessions), channels - left, now)
        decreases left
      {
        var channelId :| channelId in left;
        DisconnectChannel(channelId, now);
        OneMoreChannel(old(sessions), channels - left, channelId, now);
        assert channels - left + {channelId} == channels - (left - {channelId});
        left := left - {channelId};
      }
      assert channels - left == channels;
    }

    /** Output goes to the scrollback and, if there is one, to the attached channel. */
    method RouteOutput(terminalId: string, text: seq<Scalar>, ghost now: int) returns (channelId: Option<string>)
      requires Valid()
      modifies this
      ensures Valid() && sessions == After(old(sessions), At(now, Output(terminalId, text)))
      ensures channelId == if terminalId in old(sessions) then old(sessions)[terminalId].channelId else None
    {
      if terminalId !in sessions { return None; }
      var session := sessions[terminalId];
      var scrollback := session.scrollback + EncodeAll(text);
      if |scrollback| > MAX_SCROLLBACK_BYTES {
        var overflow := |scrollback| - MAX_SCROLLBACK_BYTES;
        scrollback := scrollback[CeilBoundary(scrollback, overflow)..];
      }
      sessions := sessions[terminalId := session.(scrollback := scrollback)];
      return session.channelId;
    }

    method FinishTerminal(terminalId: string, ghost now: int)
      requires Valid()
      modifies this
      ensures Valid() && sessions == After(old(sessions), At(now, Finish(terminalId)))
    {
      sessions := sessions - {terminalId};
    }

    method ReapExpired(now: int)
      requires Valid()
      modifies this
      ensures Valid() && sessions == After(old(sessions), At(now, Reap))
    {
      var expired := set id | id in sessions && Expired(sessions[id], now);
      var left := expired;
      while left != {}
        invariant left <= expired && sessions == old(sessions) - (expired - left)
        decreases left
      {
        var id :| id in left;
        sessions := sessions - {id};
        left := left - {id};
      }
    }
  }
}
