/** The agent list: which of its four views it renders, and the props of
    each card. */
module AgentList {
  import opened Wrappers
  import opened Types

  /** What a card is given besides the optional handlers. */
  datatype CardProps = CardProps(agent: Agent, isLoading: bool)

  datatype ListView =
    | Skeletons(count: nat)
    | ErrorAlert(message: string)
    | EmptyState
    | Cards(cards: seq<CardProps>)

  /** `agentLoadingStates[agent.id] || false`. */
  function LoadingFlag(states: map<string, bool>, id: string): (loading: bool)
    ensures loading <==> id in states && states[id]
  {
    if id in states then states[id] else false
  }

  /** The card for each agent, in order. */
  function CardsFor(agents: seq<Agent>, states: map<string, bool>): (cards: seq<CardProps>)
    ensures |cards| == |agents|
    ensures forall i :: 0 <= i < |agents| ==>
      cards[i].agent == agents[i] && (cards[i].isLoading <==> agents[i].id in states && states[agents[i].id])
  {
    seq(|agents|, i requires 0 <= i < |agents| => CardProps(agents[i], LoadingFlag(states, agents[i].id)))
  }

  /** The view: loading first, then a non-empty error message, then an
      empty list, then the cards. `states` is the optional
      `agentLoadingStates` prop, which defaults to no entries. */
  function View(agents: seq<Agent>, loading: bool, error: Option<string>,
                states: Option<map<string, bool>>): (v: ListView)
    ensures loading ==> v == Skeletons(8)
    ensures !loading && error.Some? && error.value != "" ==> v == ErrorAlert(error.value)
    ensures !loading && (error.None? || error.value == "") && agents == [] ==> v == EmptyState
    ensures v.Cards? <==> !loading && (error.None? || error.value == "") && agents != []
    ensures v.Cards? ==> v.cards == CardsFor(agents, states.GetOr(map[]))
  {
    if loading then Skeletons(8)
    else if error.Some? && error.value != "" then ErrorAlert(error.value)
    else if agents == [] then EmptyState
    else Cards(CardsFor(agents, states.GetOr(map[])))
  }

  /** Without loading states every card is idle, and the cards show the
      agents exactly, in order. */
  lemma CardsShowAgents(agents: seq<Agent>, error: Option<string>)
    requires (error.None? || error.value == "") && agents != []
    ensures var v := View(agents, false, error, None);
      && v.Cards?
      && (forall i :: 0 <= i < |v.cards| ==> !v.cards[i].isLoading)
      && seq(|v.cards|, i requires 0 <= i < |v.cards| => v.cards[i].agent) == agents
  {
  }
}
