/** The mock agent service. The stored agents and execution records are a
    value passed to every operation, so no operation can change them; the
    simulated delays are not modelled and a thrown error is an `Err` or
    `Fail` result. */
module Services {
  import opened Wrappers
  import opened Types

  /** The mock agent list and the execution records by agent id. */
  datatype MockData = MockData(agents: seq<Agent>, executionRecords: map<string, seq<ExecutionRecord>>)

  const NotFound := "Agent not found"

  /** `getAgents`: the stored list as it is. */
  function GetAgents(data: MockData): (agents: seq<Agent>)
    ensures agents == data.agents
  {
    data.agents
  }

  /** `getAgentById`: the first stored agent with the id, or null. */
  function GetAgentById(data: MockData, id: string): (r: Option<Agent>)
    ensures r.None? <==> forall i :: 0 <= i < |data.agents| ==> data.agents[i].id != id
    ensures r.Some? ==> r.value.id == id
    ensures r.Some? ==> exists i :: 0 <= i < |data.agents| && data.agents[i] == r.value &&
                                   forall j :: 0 <= j < i ==> data.agents[j].id != id
  {
    FindById(data.agents, id)
  }

  /** `getExecutionRecords`: the table entry for the id, or no records. */
  function GetExecutionRecords(data: MockData, agentId: string): (records: seq<ExecutionRecord>)
    ensures agentId in data.executionRecords ==> records == data.executionRecords[agentId]
    ensures agentId !in data.executionRecords ==> records == []
  {
    if agentId in data.executionRecords then data.executionRecords[agentId] else []
  }

  /** `updateAgentStatus`: a copy of the stored agent with the new status,
      or the error "Agent not found". */
  function UpdateAgentStatus(data: MockData, agentId: string, status: AgentStatus): (r: Result<Agent, string>)
    ensures r.Err? <==> GetAgentById(data, agentId).None?
    ensures r.Err? ==> r.error == NotFound
    ensures r.Ok? ==> r.value.status == status && r.value.id == agentId
    ensures r.Ok? ==> r.value.(status := GetAgentById(data, agentId).value.status) == GetAgentById(data, agentId).value
  {
    match FindById(data.agents, agentId)
    case None => Err(NotFound)
    case Some(agent) => Ok(agent.(status := status))
  }

  /** Asking for the status an agent already has gives back the stored
      agent, and a second update of the result only depends on the last
      status asked for. */
  lemma UpdateToSameStatus(data: MockData, agentId: string, status: AgentStatus)
    requires GetAgentById(data, agentId).Some?
    ensures UpdateAgentStatus(data, agentId, GetAgentById(data, agentId).value.status)
      == Ok(GetAgentById(data, agentId).value)
    ensures UpdateAgentStatus(data, agentId, status).value.(status := GetAgentById(data, agentId).value.status)
      == GetAgentById(data, agentId).value
  {
  }

  /** `deleteAgent`: succeeds without effect for a stored agent, fails with
      "Agent not found" otherwise. */
  function DeleteAgent(data: MockData, agentId: string): (r: Outcome<string>)
    ensures r.Pass? <==> exists i :: 0 <= i < |data.agents| && data.agents[i].id == agentId
    ensures r.Fail? ==> r.error == NotFound
  {
    if FindById(data.agents, agentId).None? then Fail(NotFound) else Pass
  }

  /** Lookup, update and delete agree on which ids are known. */
  lemma KnownIdsAgree(data: MockData, agentId: string, status: AgentStatus)
    ensures GetAgentById(data, agentId).Some? <==> UpdateAgentStatus(data, agentId, status).Ok?
    ensures GetAgentById(data, agentId).Some? <==> DeleteAgent(data, agentId).Pass?
  {
  }
}
