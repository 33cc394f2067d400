/** writer.json in memory: its fields are changed one at a time (src/writer.rs). */
module WriterFile {
  import opened Wrappers
  import opened Bytes
  import opened Ulid
  import opened Replica

  class WriterRecord {
    var id: Writer
    var remotes: map<RemoteId, Here>
    var unassigned: Option<Here>

    ghost function State(): WriterState
      reads this
    {
      WriterState(id, remotes, unassigned)
    }

    constructor (state: WriterState)
      ensures State() == state
    {
      id, remotes, unassigned := state.id, state.remotes, state.unassigned;
    }

    /** `fork`: a new identity that has published nothing anywhere; a clock past the range changes nothing. */
    method ForkWriter(ms: nat, random: seq<Byte>) returns (ok: bool)
      requires |random| == 10
      modifies this
      ensures ok <==> ms < TWO_48
      ensures ok ==> ValidUlid(id) && Decode(id) == ms * TWO_80 + FromBigEndian(random)
      ensures State() == if ok then Fork(old(State()), id) else old(State())
    {
      var minted := MintId(ms, random);
      if minted.None? {
        return false;
      }
      id := minted.value;
      remotes := map[];
      unassigned := None;
      return true;
    }

    /** `remote`: this writer's state on a remote, moving old unassigned state there if the tip proves it. */
    method RemoteState(remote: RemoteId, tip: Option<Ref>) returns (here: Here)
      modifies this
      ensures State() == Adopt(old(State()), remote, tip) && here == HereOf(State(), remote)
    {
      if remote !in remotes {
        if unassigned.Some? {
          var previous := unassigned.value;
          var proven := tip.Some? && (tip == previous.last || tip == previous.pending);
          if proven {
            unassigned := None;
            remotes := remotes[remote := previous];
          }
        }
      }
      here := if remote in remotes then remotes[remote] else Here(None, None);
    }

    /** `set_remote`. */
    method SetRemoteState(remote: RemoteId, here: Here)
      modifies this`remotes
      ensures State() == SetRemote(old(State()), remote, here)
      ensures HereOf(State(), remote) == here
      ensures forall other | other != remote :: HereOf(State(), other) == old(HereOf(State(), other))
    {
      remotes := remotes[remote := here];
    }
  }
}
