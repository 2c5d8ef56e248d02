/** Coordinator and its connections as they run, proved against `Authority`. */
module Coordinator {
  import opened Words
  import opened Ordering
  import opened Resources
  import opened Records
  import opened Authority

  class AgentConn {
    /** The position in the order of registrations. */
    ghost const number: nat
    const id: u64
    const boot: u64
    var snapshot: Snapshot
    var alive: bool
    var accepted: u64

    constructor (ghost number: nat, id: u64, boot: u64)
      ensures this.number == number && Value() == Connection(id, boot, DEFAULT_SNAPSHOT, true, 0)
    {
      this.number, this.id, this.boot := number, id, boot;
      snapshot, alive, accepted := DEFAULT_SNAPSHOT, true, 0;
    }

    function Value(): Connection
      reads this
    {
      Connection(id, boot, snapshot, alive, accepted)
    }
  }

  class Coordinator {
    var agents: map<u64, AgentConn>
    var epoch: u64
    ghost var connections: seq<AgentConn>
    ghost var state: Coordination

    /** `state` is the value of the fields. */
    ghost predicate Valid()
      reads this, connections
    {
      && |state.connections| == |connections|
      && (forall i :: 0 <= i < |connections| ==>
        connections[i].number == i && connections[i].Value() == state.connections[i])
      && state.agents.Keys == agents.Keys
      && (forall id | id in agents ::
        state.agents[id] < |connections| && agents[id] == connections[state.agents[id]] && agents[id].id == id)
      && state.epoch == epoch
    }

    constructor ()
      ensures Valid() && state == OPENING && connections == []
    {
      agents, epoch := map[], 1;
      connections, state := [], OPENING;
    }

    method RegisterAgent(id: u64, boot: u64) returns (conn: AgentConn?, reply: Reply)
      requires Valid()
      modifies this
      ensures Valid() && (state, reply) == Register(old(state), id, boot)
      ensures conn == null ==> connections == old(connections)
      ensures conn != null ==> fresh(conn) && connections == old(connections) + [conn]
      ensures conn != null <==> reply.Registered?
    {
      if id in agents && agents[id].alive && agents[id].boot != boot { return null, BootMismatch; }
      var ctx := new AgentConn(|connections|, id, boot);
      agents := agents[id := ctx];
      connections := connections + [ctx];
      state := Register(state, id, boot).0;
      conn, reply := ctx, Registered(epoch);
    }

    method HandleUpdate(ctx: AgentConn, stamp: u64, snapshot: Snapshot) returns (reply: Reply)
      requires Valid() && ctx in connections
      modifies `state, ctx
      ensures Valid() && (state, reply) == Update(old(state), ctx.number, stamp, snapshot)
    {
      if stamp != epoch { return StaleEpoch; }
      if snapshot.bootId != ctx.boot || snapshot.agentId != ctx.id { return StaleBoot; }
      if ctx.accepted != 0 && snapshot.generation <= ctx.accepted { return StaleGeneration; }
      ctx.snapshot := snapshot;
      ctx.accepted := snapshot.generation;
      state := Update(state, ctx.number, stamp, snapshot).0;
      reply := Accepted(snapshot.generation);
    }

    method OnAgentLoss(ctx: AgentConn)
      requires Valid() && ctx in connections
      modifies this, connections
      ensures Valid() && state == Lose(old(state), ctx.number) && connections == old(connections)
    {
      var changed := false;
      ghost var before := state;
      if ctx.id in agents && agents[ctx.id].alive {
        assert connections[before.agents[ctx.id]] == agents[ctx.id];
        agents[ctx.id].alive := false;
        changed := true;
      }
      if changed { epoch := if epoch == U64_MAX then epoch else epoch + 1; }
      state := Lose(state, ctx.number);
    }

    /** The live snapshot of most free accelerator memory among those that cover the request, of the
        lowest agent identity among equals; none exactly if no agent qualifies. */
    method ChooseSnapshot(d: Descriptor) returns (best: Option<u64>)
      requires Valid()
      ensures best.None? <==> forall id :: !Qualifies(state, d, id)
      ensures best.Some? ==> IsChoice(state, d, best.value)
    {
      hide Qualifies, Free, ChoiceAmong, IsChoice, SnapshotOf, SortedWords;
      best := None;
      var most: u64 := 0;
      var keys := SortedWords(agents.Keys);
      assert keys[..0] == [];
      NothingChosen(d);
      for i := 0 to |keys|
        invariant ChoiceAmong(state, d, keys[..i], best)
        invariant best.Some? ==> best.value in agents && most == Free(agents[best.value].snapshot)
      {
        var a := agents[keys[i]];
        ghost var before := best;
        SeenIn(keys[i], d);
        if best.Some? { SeenIn(best.value, d); }
        if a.alive && Needed(d) <= a.snapshot.capabilities {
          var free := Free(a.snapshot);
          if best.None? || free > most { best, most := Some(keys[i]), free; }
        }
        ChoiceNext(state, d, keys, i, before, best);
      }
      assert keys[..|keys|] == keys;
      ChoiceMade(state, d, keys, best);
    }

    lemma NothingChosen(d: Descriptor)
      ensures ChoiceAmong(state, d, [], None)
    {
    }

    lemma SeenIn(id: u64, d: Descriptor)
      requires Valid() && id in agents
      ensures Entered(state, id) && SnapshotOf(state, id) == agents[id].snapshot
      ensures Qualifies(state, d, id) <==> agents[id].alive && Needed(d) <= agents[id].snapshot.capabilities
    {
      hide Needed;
    }
  }
}
