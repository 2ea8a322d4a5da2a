/** The entities the components exchange: agents and their execution
    records, and the lookup by id every component shares. */
module Types {
  import opened Wrappers

  /** An agent's status; the source types it as the string union
      "Running" | "Idle" | "Error". */
  datatype AgentStatus = Running | Idle | Error {
    /** The string the source stores and compares. */
    function Label(): (s: string)
      ensures s == "Running" <==> this == Running
      ensures s == "Idle" <==> this == Idle
      ensures s == "Error" <==> this == Error
    {
      match this
      case Running => "Running"
      case Idle => "Idle"
      case Error => "Error"
    }
  }

  datatype Agent = Agent(
    id: string,
    name: string,
    description: string,
    status: AgentStatus,
    lastActive: string,
    createdBy: string,
    uptime: string,
    lastExecutionTime: string,
    isActive: bool)

  datatype RecordStatus = Success | Failure

  datatype ExecutionRecord = ExecutionRecord(
    id: string,
    timestamp: string,
    status: RecordStatus,
    logs: Option<string>)

  /** `agents.find((a) => a.id === id)`: the first agent carrying `id`,
      or nothing when no agent does. */
  function FindById(agents: seq<Agent>, id: string): (r: Option<Agent>)
    ensures r.None? <==> forall i :: 0 <= i < |agents| ==> agents[i].id != id
    ensures r.Some? ==> r.value.id == id
    ensures r.Some? ==> exists i :: 0 <= i < |agents| && agents[i] == r.value &&
                                   forall j :: 0 <= j < i ==> agents[j].id != id
    decreases |agents|
  {
    if agents == [] then None
    else if agents[0].id == id then Some(agents[0])
    else
      var r := FindById(agents[1..], id);
      assert r.Some? ==> exists i :: 0 <= i < |agents[1..]| && agents[1..][i] == r.value &&
                                      forall j :: 0 <= j < i ==> agents[1..][j].id != id;
      r
  }
}
