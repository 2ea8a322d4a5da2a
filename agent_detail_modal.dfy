/** The agent detail modal: the status tag colour, the edit form's rules and
    its edit / save / cancel modes, the performance figures and the capped
    execution history. */
module AgentDetailModal {
  import opened Wrappers
  import opened Types
  import Percent

  // ---------------------------------------------------------------------
  // Status tag
  // ---------------------------------------------------------------------

  /** `getStatusColor`, which takes any string. */
  function StatusColor(status: string): (color: string)
    ensures status == "Running" ==> color == "success"
    ensures status == "Error" ==> color == "error"
    ensures status != "Running" && status != "Error" ==> color == "default"
  {
    match status
    case "Running" => "success"
    case "Idle" => "default"
    case "Error" => "error"
    case _ => "default"
  }

  /** On the three statuses an agent can have, the colour tells them apart
      except that an idle agent shares the fallback colour. */
  lemma StatusColorOfAgents(s: AgentStatus)
    ensures StatusColor(s.Label()) == "success" <==> s == Running
    ensures StatusColor(s.Label()) == "error" <==> s == Error
    ensures StatusColor(s.Label()) == "default" <==> s == Idle
  {
  }

  // ---------------------------------------------------------------------
  // The edit form's rules
  // ---------------------------------------------------------------------

  /** The messages of the rules of one form field, in rule order: a
      `required` rule, then a `min` and a `max` length rule. A missing or
      empty value fails `required` only, since the length rules skip an
      empty value; the length rules are inclusive. */
  function FieldErrors(value: Option<string>, min: nat, max: nat,
                       requiredMessage: string, minMessage: string, maxMessage: string): (errors: seq<string>)
    ensures errors == [] <==> value.Some? && value.value != "" && min <= |value.value| <= max
    ensures value.None? || value.value == "" ==> errors == [requiredMessage]
    ensures value.Some? && value.value != "" && |value.value| < min && min <= max ==> errors == [minMessage]
    ensures value.Some? && value.value != "" && |value.value| > max && min <= max ==> errors == [maxMessage]
    ensures min <= max ==> |errors| <= 1
  {
    if value.None? || value.value == "" then [requiredMessage]
    else
      (if |value.value| < min then [minMessage] else []) +
      (if |value.value| > max then [maxMessage] else [])
  }

  /** The agent name field: required, 15 to 50 characters. */
  function NameErrors(name: Option<string>): (errors: seq<string>)
    ensures errors == [] <==> name.Some? && 15 <= |name.value| <= 50
    ensures name.None? || name == Some("") ==> errors == ["Please enter agent name"]
    ensures |errors| <= 1
  {
    FieldErrors(name, 15, 50, "Please enter agent name",
                "Name must be at least 15 characters", "Name must be less than 50 characters")
  }

  /** The description field: required, 30 to 150 characters. */
  function DescriptionErrors(description: Option<string>): (errors: seq<string>)
    ensures errors == [] <==> description.Some? && 30 <= |description.value| <= 150
    ensures description.None? || description == Some("") ==> errors == ["Please enter agent description"]
    ensures |errors| <= 1
  {
    FieldErrors(description, 30, 150, "Please enter agent description",
                "Description must be at least 30 characters", "Description must be less than 150 characters")
  }

  /** `form.validateFields()` resolves: a name of 15 to 50 and a description
      of 30 to 150 characters are both set. */
  predicate FormValid(name: Option<string>, description: Option<string>)
    ensures FormValid(name, description) <==>
      && name.Some? && 15 <= |name.value| <= 50
      && description.Some? && 30 <= |description.value| <= 150
  {
    NameErrors(name) == [] && DescriptionErrors(description) == []
  }

  // ---------------------------------------------------------------------
  // Edit mode
  // ---------------------------------------------------------------------

  datatype FooterButton = CancelButton | SaveButton | EditButton | DeleteButton

  /** The footer offers Cancel and Save while editing, Edit and Delete
      otherwise. */
  function Footer(isEditing: bool): (buttons: seq<FooterButton>)
    ensures SaveButton in buttons <==> isEditing
    ensures DeleteButton in buttons <==> !isEditing
  {
    if isEditing then [CancelButton, SaveButton] else [EditButton, DeleteButton]
  }

  /** The `isEditing` flag and the edit form's two field values (`None` for
      a field the form holds no value for). */
  class DetailModal {
    var isEditing: bool
    var formName: Option<string>
    var formDescription: Option<string>

    constructor ()
      ensures !isEditing && formName == None && formDescription == None
    {
      isEditing, formName, formDescription := false, None, None;
    }

    /** `handleEdit`: enter edit mode with the form seeded from the agent. */
    method HandleEdit(agent: Agent)
      modifies this
      ensures isEditing
      ensures formName == Some(agent.name) && formDescription == Some(agent.description)
    {
      isEditing := true;
      formName, formDescription := Some(agent.name), Some(agent.description);
    }

    /** Typing into the name input. */
    method ChangeName(value: string)
      modifies this
      ensures formName == Some(value)
      ensures isEditing == old(isEditing) && formDescription == old(formDescription)
    {
      formName := Some(value);
    }

    /** Typing into the description text area. */
    method ChangeDescription(value: string)
      modifies this
      ensures formDescription == Some(value)
      ensures isEditing == old(isEditing) && formName == old(formName)
    {
      formDescription := Some(value);
    }

    /** `handleSave`: leave edit mode only when both fields pass their rules;
        the form keeps its values either way. */
    method HandleSave() returns (saved: bool)
      modifies this
      ensures saved <==> FormValid(old(formName), old(formDescription))
      ensures isEditing == (old(isEditing) && !saved)
      ensures formName == old(formName) && formDescription == old(formDescription)
    {
      saved := FormValid(formName, formDescription);
      if saved {
        isEditing := false;
      }
    }

    /** `handleCancelEdit`: leave edit mode and reset the form to having no
        values. */
    method HandleCancelEdit()
      modifies this
      ensures !isEditing && formName == None && formDescription == None
    {
      isEditing := false;
      formName, formDescription := None, None;
    }
  }

  /** `handleDelete`; `hasOnDelete` says whether `onDelete` was passed. */
  function HandleDelete(agent: Agent, hasOnDelete: bool): (call: Option<string>)
    ensures call.None? <==> !hasOnDelete
    ensures call.Some? ==> call.value == agent.id
  {
    if !hasOnDelete then None else Some(agent.id)
  }

  // ---------------------------------------------------------------------
  // Performance figures and history
  // ---------------------------------------------------------------------

  /** `executionRecords.filter((r) => r.status === "Success").length`. */
  function CountSuccesses(records: seq<ExecutionRecord>): (n: nat)
    ensures n <= |records|
    ensures n == |records| <==> forall i :: 0 <= i < |records| ==> records[i].status == Success
    ensures n == 0 <==> forall i :: 0 <= i < |records| ==> records[i].status != Success
    decreases |records|
  {
    if records == [] then 0
    else
      var n := CountSuccesses(records[1..]);
      assert forall i :: 1 <= i < |records| ==> records[i] == records[1..][i - 1];
      (if records[0].status == Success then 1 else 0) + n
  }

  /** The "Success Rate" figure, in percent. */
  function SuccessRate(records: seq<ExecutionRecord>): (rate: nat)
    ensures rate <= 100
    ensures records == [] ==> rate == 0
    ensures records != [] ==>
      -(|records| as int) < 2 * |records| * rate - 200 * CountSuccesses(records) <= |records|
    ensures records != [] && (forall i :: 0 <= i < |records| ==> records[i].status == Success) ==> rate == 100
    ensures (forall i :: 0 <= i < |records| ==> records[i].status != Success) ==> rate == 0
  {
    if |records| > 0 then Percent.RoundedPercent(CountSuccesses(records), |records|) else 0
  }

  /** The "Performance Metrics" panel. */
  datatype PerformanceFigures = PerformanceFigures(totalExecutions: nat, successRate: nat)

  function Performance(records: seq<ExecutionRecord>): (p: PerformanceFigures)
    ensures p.totalExecutions == |records|
    ensures p.successRate == SuccessRate(records) && p.successRate <= 100
    ensures p.totalExecutions == 0 ==> p.successRate == 0
  {
    PerformanceFigures(|records|, SuccessRate(records))
  }

  /** "Recent Execution History" lists `executionRecords.slice(0, 5)`. */
  function RecentHistory(records: seq<ExecutionRecord>): (shown: seq<ExecutionRecord>)
    ensures |shown| == if |records| < 5 then |records| else 5
    ensures forall i :: 0 <= i < |shown| ==> shown[i] == records[i]
    ensures |records| <= 5 ==> shown == records
  {
    if |records| < 5 then records else records[..5]
  }
}
