/** One agent's card: the start/stop toggle, when its buttons are enabled,
    the status dot and tooltip, and the avatar seed taken from the id. */
module AgentCard {
  import opened Wrappers
  import opened Types
  import opened Text

  // ---------------------------------------------------------------------
  // The start/stop toggle
  // ---------------------------------------------------------------------

  /** A running agent is stopped; any other agent is started. */
  function ToggledStatus(s: AgentStatus): (r: AgentStatus)
    ensures r != Error && r != s
    ensures r == Idle <==> s == Running
  {
    if s == Running then Idle else Running
  }

  /** Toggling a running or idle agent twice gives back its status. */
  lemma ToggleTwice(s: AgentStatus)
    requires s == Running || s == Idle
    ensures ToggledStatus(ToggledStatus(s)) == s
  {
  }

  /** The call `onStatusChange(agentId, status)` the toggle makes. */
  datatype StatusChange = StatusChange(agentId: string, status: AgentStatus)

  /** `handleStatusToggle`; `hasHandler` says whether `onStatusChange` was
      passed. */
  function HandleStatusToggle(agent: Agent, hasHandler: bool): (call: Option<StatusChange>)
    ensures call.None? <==> !hasHandler
    ensures call.Some? ==> call.value.agentId == agent.id && call.value.status == ToggledStatus(agent.status)
  {
    if !hasHandler then None else Some(StatusChange(agent.id, ToggledStatus(agent.status)))
  }

  /** `handleViewDetails` and `handleWorkflowClick`: pass the agent's id to
      the handler when there is one. */
  function ForwardId(agent: Agent, hasHandler: bool): (call: Option<string>)
    ensures call.None? <==> !hasHandler
    ensures call.Some? ==> call.value == agent.id
  {
    if hasHandler then Some(agent.id) else None
  }

  // ---------------------------------------------------------------------
  // Buttons, dot and tooltip
  // ---------------------------------------------------------------------

  datatype Buttons = Buttons(toggleDisabled: bool, workflowDisabled: bool, detailsDisabled: bool)

  /** The `disabled` props of the card's three action buttons. */
  function CardButtons(status: AgentStatus, isLoading: bool): (b: Buttons)
    ensures b.toggleDisabled <==> status == Error || isLoading
    ensures b.workflowDisabled <==> isLoading
    ensures b.detailsDisabled <==> isLoading
    ensures !b.toggleDisabled ==> !b.workflowDisabled && !b.detailsDisabled
  {
    Buttons(status == Error || isLoading, isLoading, isLoading)
  }

  /** Whenever the toggle can be clicked, clicking it twice restores the
      status, and it never sets an agent to Error. */
  lemma EnabledToggleRoundTrip(status: AgentStatus, isLoading: bool)
    requires !CardButtons(status, isLoading).toggleDisabled
    ensures ToggledStatus(ToggledStatus(status)) == status
    ensures ToggledStatus(status) != Error
  {
    ToggleTwice(status);
  }

  /** The class of the status dot. */
  function StatusDotClass(status: AgentStatus): (c: string)
    ensures c == "bg-green-500" <==> status == Running
    ensures c == "bg-gray-400" <==> status == Idle
    ensures c == "bg-red-500" <==> status == Error
  {
    assert |"bg-green-500"| == 12 && |"bg-gray-400"| == 11 && |"bg-red-500"| == 10;
    match status
    case Running => "bg-green-500"
    case Idle => "bg-gray-400"
    case Error => "bg-red-500"
  }

  /** The tooltip over the toggle names what a click does. */
  function ToggleTooltip(status: AgentStatus): (t: string)
    ensures t == "Stop Agent" <==> ToggledStatus(status) == Idle
    ensures t == "Start Agent" <==> ToggledStatus(status) == Running
  {
    if status == Running then "Stop Agent" else "Start Agent"
  }

  // ---------------------------------------------------------------------
  // The avatar seed
  // ---------------------------------------------------------------------

  /** `agent.id.split("-").pop() || "1"`. */
  function AvatarSeed(id: string): (seed: string)
    ensures seed != [] && '-' !in seed
    ensures (id == [] || id[|id| - 1] == '-') ==> seed == "1"
    ensures id != [] && id[|id| - 1] != '-' ==>
      seed == id || (|seed| < |id| && id == id[..|id| - |seed| - 1] + "-" + seed)
  {
    var parts := Split(id, '-');
    var last := parts[|parts| - 1];
    LastPieceShape(id, '-');
    if last == "" then "1" else last
  }

  /** The last piece of a split is the longest suffix free of the separator:
      either the whole string, or what follows its last separator. */
  lemma LastPieceShape(s: string, sep: char)
    ensures var parts := Split(s, sep);
      var last := parts[|parts| - 1];
      && sep !in last
      && (last == s || (|last| < |s| && s == s[..|s| - |last| - 1] + [sep] + last))
      && (last == [] <==> s == [] || s[|s| - 1] == sep)
  {
    var parts := Split(s, sep);
    var last := parts[|parts| - 1];
    SplitJoin(s, sep);
    SplitPiecesFree(s, sep);
    if |parts| >= 2 {
      JoinLast(parts, sep);
      var front := Join(parts[..|parts| - 1], sep);
      assert s == front + [sep] + last;
      assert s[..|s| - |last| - 1] == front;
      if last != [] {
        assert s[|s| - 1] == last[|last| - 1];
      }
    }
  }

  const AvatarBase := "https://api.dicebear.com/7.x/miniavs/svg?seed="

  /** The avatar image address built from the seed. */
  function AvatarUrl(id: string): (url: string)
    ensures |url| == |AvatarBase| + |AvatarSeed(id)|
    ensures url[..|AvatarBase|] == AvatarBase && url[|AvatarBase|..] == AvatarSeed(id)
  {
    AvatarBase + AvatarSeed(id)
  }
}
