/** The dashboard page: the three metric cards computed from the store's
    agent list, the one-time fetch guard, and the detail modal's state
    (visible flag, selected agent, execution records) driven by the view,
    delete and close handlers. */
module Dashboard {
  import opened Wrappers
  import opened Types
  import Percent

  /** `agents.filter((agent) => agent.status === "Running").length`. */
  function CountRunning(agents: seq<Agent>): (n: nat)
    ensures n <= |agents|
    ensures n == |agents| <==> forall i :: 0 <= i < |agents| ==> agents[i].status == Running
    ensures n == 0 <==> forall i :: 0 <= i < |agents| ==> agents[i].status != Running
    decreases |agents|
  {
    if agents == [] then 0
    else
      var n := CountRunning(agents[1..]);
      assert forall i :: 1 <= i < |agents| ==> agents[i] == agents[1..][i - 1];
      (if agents[0].status == Running then 1 else 0) + n
  }

  datatype Metrics = Metrics(activeAgents: nat, totalAgents: nat, systemHealth: nat)

  /** The memoised `metrics` object. */
  function ComputeMetrics(agents: seq<Agent>): (m: Metrics)
    ensures m.activeAgents == CountRunning(agents)
    ensures m.totalAgents == |agents| && m.activeAgents <= m.totalAgents
    ensures m.systemHealth <= 100
    ensures m.totalAgents == 0 ==> m.systemHealth == 0
    ensures m.totalAgents > 0 ==>
      -(m.totalAgents as int) < 2 * m.totalAgents * m.systemHealth - 200 * m.activeAgents <= m.totalAgents
    ensures agents != [] && (forall i :: 0 <= i < |agents| ==> agents[i].status == Running) ==> m.systemHealth == 100
    ensures (forall i :: 0 <= i < |agents| ==> agents[i].status != Running) ==> m.systemHealth == 0
  {
    var active := CountRunning(agents);
    var total := |agents|;
    var health := if total > 0 then Percent.RoundedPercent(active, total) else 0;
    Metrics(active, total, health)
  }

  /** The mount effect dispatches `fetchAgents` only while the store holds
      no agents and no fetch is in flight. */
  predicate ShouldFetchAgents(agents: seq<Agent>, loading: bool)
    ensures ShouldFetchAgents(agents, loading) ==> ComputeMetrics(agents) == Metrics(0, 0, 0)
  {
    |agents| == 0 && !loading
  }

  /** The page's modal state over the store's agent list. The handlers only
      read `agents`, so it is a constant of the object; `getAgentById` is
      `Types.FindById` on it. */
  class DashboardPage {
    const agents: seq<Agent>
    var modalVisible: bool
    var selectedAgent: Option<Agent>
    var executionRecords: seq<ExecutionRecord>

    predicate ModalClosed()
      reads this
    {
      !modalVisible && selectedAgent == None && executionRecords == []
    }

    constructor (agents: seq<Agent>)
      ensures this.agents == agents && ModalClosed()
    {
      this.agents := agents;
      modalVisible, selectedAgent, executionRecords := false, None, [];
    }

    /** `handleDelete`: for an agent of the list, closes and clears the
        modal when that agent is the one shown; anything else is left as
        it was. */
    method HandleDelete(agentId: string)
      modifies this
      ensures var shown := old(selectedAgent).Some? && old(selectedAgent).value.id == agentId;
        if FindById(agents, agentId).Some? && shown then ModalClosed()
        else modalVisible == old(modalVisible) && selectedAgent == old(selectedAgent)
             && executionRecords == old(executionRecords)
    {
      var agent := FindById(agents, agentId);
      if agent.None? {
        return;
      }
      if selectedAgent.Some? && selectedAgent.value.id == agentId {
        modalVisible, selectedAgent, executionRecords := false, None, [];
      }
    }

    /** `handleViewDetails`; `fetched` is how the awaited
        `getExecutionRecords` call ended. */
    method HandleViewDetails(agentId: string, fetched: Result<seq<ExecutionRecord>, string>)
      modifies this
      ensures var agent := FindById(agents, agentId);
        if agent.Some? && fetched.Ok? then
          modalVisible && selectedAgent == agent && executionRecords == fetched.value
        else
          modalVisible == old(modalVisible) && selectedAgent == old(selectedAgent)
          && executionRecords == old(executionRecords)
    {
      var agent := FindById(agents, agentId);
      if agent.None? {
        return;
      }
      match fetched
      case Ok(records) =>
        executionRecords := records;
        selectedAgent := agent;
        modalVisible := true;
      case Err(_) =>
    }

    /** `handleModalClose`: always closes and clears the modal. */
    method HandleModalClose()
      modifies this
      ensures ModalClosed()
    {
      modalVisible, selectedAgent, executionRecords := false, None, [];
    }
  }
}
