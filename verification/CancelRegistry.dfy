/** The registration of the in-flight model call, which a force event may cancel
    (agenttown-mcp/cmd/agenttown-mcp/world_event_dispatch.go). A call is named by its
    registration generation. */
module CancelRegistry {
  import opened Text

  class Registry {
    var tacticalLLMGen: nat
    var tacticalLLMCancel: Option<nat> // the call whose cancel function is registered
    ghost var deregistered: set<nat>
    ghost var cancelled: set<nat>      // contexts cancelled so far, by either way

    /** The registered cancel function, if any, is that of the newest call, and it is missing
        only when that call has deregistered. */
    ghost predicate Valid()
      reads this
    {
      && (forall g :: g in deregistered ==> 1 <= g <= tacticalLLMGen)
      && deregistered <= cancelled
      && tacticalLLMCancel ==
         (if tacticalLLMGen >= 1 && tacticalLLMGen !in deregistered then Some(tacticalLLMGen) else None)
    }

    constructor ()
      ensures Valid() && tacticalLLMGen == 0 && deregistered == {} && cancelled == {}
    {
      tacticalLLMGen, tacticalLLMCancel, deregistered, cancelled := 0, None, {}, {};
    }

    /** registerTacticalLLMCall. */
    method Register() returns (gen: nat)
      requires Valid()
      modifies this
      ensures Valid() && gen == old(tacticalLLMGen) + 1 == tacticalLLMGen
      ensures tacticalLLMCancel == Some(gen) && deregistered == old(deregistered) && cancelled == old(cancelled)
    {
      tacticalLLMGen := tacticalLLMGen + 1;
      gen := tacticalLLMGen;
      tacticalLLMCancel := Some(gen);
    }

    /** The returned deregister function: it releases its own call, and touches the
        registration only when no newer call has registered since. */
    method Deregister(gen: nat)
      requires Valid() && 1 <= gen <= tacticalLLMGen
      modifies this
      ensures Valid() && tacticalLLMGen == old(tacticalLLMGen)
      ensures deregistered == old(deregistered) + {gen} && cancelled == old(cancelled) + {gen}
      ensures tacticalLLMCancel == if gen < tacticalLLMGen then old(tacticalLLMCancel) else None
    {
      cancelled := cancelled + {gen};
      if tacticalLLMGen == gen {
        tacticalLLMCancel := None;
      }
      deregistered := deregistered + {gen};
    }

    /** cancelInFlightTacticalLLM: hits the newest call exactly when it has not
        deregistered; an older call is never hit, even when it is the only live one. */
    method CancelInFlight() returns (hit: bool)
      requires Valid()
      modifies this`cancelled
      ensures Valid()
      ensures hit <==> tacticalLLMGen >= 1 && tacticalLLMGen !in deregistered
      ensures cancelled == if hit then old(cancelled) + {tacticalLLMGen} else old(cancelled)
    {
      if tacticalLLMCancel.None? {
        return false;
      }
      cancelled := cancelled + {tacticalLLMCancel.value};
      return true;
    }
  }

  /** A force event that misses a live call: the newest one has deregistered, and the older
      one under it is not registered any more. */
  method OlderCallIsMissed() returns (registry: Registry, older: nat, hit: bool)
    ensures fresh(registry) && registry.Valid() && !hit
    ensures 1 <= older <= registry.tacticalLLMGen && older !in registry.deregistered && older !in registry.cancelled
  {
    registry := new Registry();
    older := registry.Register();
    var newer := registry.Register();
    registry.Deregister(newer);
    hit := registry.CancelInFlight();
  }
}
