/** The container engine, as far as memory settings go. */
module Docker {
  import opened Allocator

  class Engine {
    /** The settings in force. */
    var hosts: map<Cid, Host>

    constructor (hosts: map<Cid, Host>)
      ensures this.hosts == hosts
    {
      this.hosts := hosts;
    }

    /** Gives a container new settings and looks whether they are in force.  A request the engine
        refuses changes nothing; one that fails its confirmation may already be in force. */
    method Update(cid: Cid, body: Host, outcome: Outcome) returns (confirmed: bool)
      modifies this
      ensures confirmed <==> outcome.Confirmed?
      ensures hosts == if outcome.Rejected? then old(hosts) else old(hosts)[cid := body]
    {
      if !outcome.Rejected? {
        hosts := hosts[cid := body];
      }
      confirmed := outcome.Confirmed?;
    }
  }
}
