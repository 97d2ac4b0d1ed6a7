/** The table of live sessions, which the allocator, the reader and the closer share. Keys are
    conversations on the client and (id, conversation) pairs on the server. */
module SessionTable {
  import opened Session

  class SessionTable<K(==)> {
    var sessions: map<K, SafeKcp>

    constructor ()
      ensures sessions == map[]
    {
      sessions := map[];
    }

    /** Takes the session out of the table and closes it. */
    method RemoveKcp(key: K)
      modifies this, if key in sessions then {sessions[key]} else {}
      ensures sessions == old(sessions) - {key}
      ensures key in old(sessions) ==>
                var kcp := old(sessions)[key]; kcp.Snapshot() == old(kcp.Snapshot()).ForceClose()
    {
      if key in sessions {
        var kcp := sessions[key];
        sessions := sessions - {key};
        kcp.ForceClose();
      }
    }
  }
}
