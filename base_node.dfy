/** The shell every workflow node renders: the display name derived from the
    node id, the connection handles generated from a node's handle list, the
    actions the name input and the delete icon emit, and the name input
    that a disabled node leaves out. */
module BaseNode {
  import opened Wrappers
  import opened Text

  // ---------------------------------------------------------------------
  // The initial name
  // ---------------------------------------------------------------------

  /** `id.replace(/^.*?-/, "")`: drop the shortest prefix ending in '-',
      where the prefix before that '-' may not hold a line terminator (the
      regular expression's `.` does not match one). With no such prefix the
      id is kept. */
  function StripThroughFirstDash(id: string): (r: string)
    ensures |r| <= |id| && r == id[|id| - |r|..]
    ensures var k := FirstIndexOf(id, '-');
      if k < |id| && (forall j :: 0 <= j < k ==> !IsLineTerminator(id[j]))
      then id == id[..k] + "-" + r && '-' !in id[..k]
      else r == id
  {
    var k := FirstIndexOf(id, '-');
    if k < |id| && (forall j :: 0 <= j < k ==> !IsLineTerminator(id[j])) then
      assert id == id[..k] + "-" + id[k + 1..];
      id[k + 1..]
    else id
  }

  /** The name derived from a node id: the stripped id with every remaining
      '-' turned into '_'. */
  function DerivedName(id: string): (name: string)
    ensures '-' !in name
    ensures |name| == |StripThroughFirstDash(id)|
    ensures forall i :: 0 <= i < |name| ==>
      var c := StripThroughFirstDash(id)[i]; name[i] == (if c == '-' then '_' else c)
  {
    ReplaceAll(StripThroughFirstDash(id), '-', '_')
  }

  /** For an id of the form "{type}-{number}" the derived name is the
      number. */
  lemma DerivedNameOfTypedId(kind: string, n: nat)
    requires '-' !in kind
    requires forall j :: 0 <= j < |kind| ==> !IsLineTerminator(kind[j])
    ensures DerivedName(kind + "-" + DecimalString(n)) == DecimalString(n)
  {
    var id := kind + "-" + DecimalString(n);
    var digits := DecimalString(n);
    var k := FirstIndexOf(id, '-');
    assert forall j :: 0 <= j < |kind| ==> id[j] == kind[j];
    assert id[|kind|] == '-';
    assert k == |kind|;
    assert id[k + 1..] == digits;
    assert forall i :: 0 <= i < |digits| ==> digits[i] != '-' by {
      forall i | 0 <= i < |digits| ensures digits[i] != '-' {
        assert IsDigit(digits[i]);
      }
    }
  }

  /** `initialName`: `data.inputName` when it is set and non-empty, the
      derived name otherwise. */
  function InitialName(inputName: Option<string>, id: string): (name: string)
    ensures inputName.Some? && inputName.value != "" ==> name == inputName.value
    ensures inputName.None? || inputName.value == "" ==> name == DerivedName(id) && '-' !in name
  {
    if inputName.Some? && inputName.value != "" then inputName.value else DerivedName(id)
  }

  // ---------------------------------------------------------------------
  // Handles
  // ---------------------------------------------------------------------

  datatype HandleKind = Source | Target {
    function Name(): (s: string)
      ensures |s| == 6
      ensures s == "source" <==> this == Source
    {
      if this == Source then "source" else "target"
    }
  }

  datatype Position = Left | Right | Top | Bottom

  /** CSS properties, by property name. */
  type Style = map<string, string>

  /** One entry of a node's `handles` prop. */
  datatype HandleConfig = HandleConfig(kind: HandleKind, position: Position, style: Option<Style>)

  /** One rendered handle; its React key is the same string as its id. */
  datatype RenderedHandle = RenderedHandle(id: string, kind: HandleKind, position: Position, style: Style)

  const DefaultHandleStyle: Style := map[
    "height" := "8px",
    "width" := "8px",
    "backgroundColor" := "#d9c9fe",
    "border" := "1px solid #2F116C"
  ]

  /** `{ ...handleStyle, ...indvHandle.style }`: the handle's own style
      overrides the shared one key by key; spreading a missing style adds
      nothing. */
  function MergeStyle(shared: Style, own: Option<Style>): (s: Style)
    ensures forall key :: key in s <==> key in shared || (own.Some? && key in own.value)
    ensures forall key :: own.Some? && key in own.value ==> s[key] == own.value[key]
    ensures forall key :: key in shared && (own.None? || key !in own.value) ==> s[key] == shared[key]
  {
    if own.None? then shared else shared + own.value
  }

  /** `${id}-${type}-${index}`. */
  function HandleId(nodeId: string, kind: HandleKind, index: nat): (hid: string)
    ensures |hid| == |nodeId| + 8 + |DecimalString(index)|
    ensures hid[..|nodeId| + 1] == nodeId + "-"
  {
    nodeId + "-" + kind.Name() + "-" + DecimalString(index)
  }

  /** Two handles of one node get the same id only when they are the same
      kind at the same index. */
  lemma HandleIdInjective(nodeId: string, k1: HandleKind, i1: nat, k2: HandleKind, i2: nat)
    requires HandleId(nodeId, k1, i1) == HandleId(nodeId, k2, i2)
    ensures k1 == k2 && i1 == i2
  {
    var h1 := HandleId(nodeId, k1, i1);
    var h2 := HandleId(nodeId, k2, i2);
    var p := |nodeId| + 1;
    assert h1[p..p + 6] == k1.Name();
    assert h2[p..p + 6] == k2.Name();
    assert h1[p + 7..] == DecimalString(i1);
    assert h2[p + 7..] == DecimalString(i2);
    DecimalInjective(i1, i2);
  }

  /** `renderedHandles`; `handleStyle` is the optional prop, which defaults
      to the default handle style. */
  function RenderHandles(nodeId: string, handles: seq<HandleConfig>, handleStyle: Option<Style>): (r: seq<RenderedHandle>)
    ensures |r| == |handles|
    ensures forall i :: 0 <= i < |r| ==>
      && r[i].id == HandleId(nodeId, handles[i].kind, i)
      && r[i].kind == handles[i].kind
      && r[i].position == handles[i].position
      && r[i].style == MergeStyle(handleStyle.GetOr(DefaultHandleStyle), handles[i].style)
  {
    seq(|handles|, i requires 0 <= i < |handles| =>
      RenderedHandle(HandleId(nodeId, handles[i].kind, i), handles[i].kind, handles[i].position,
                     MergeStyle(handleStyle.GetOr(DefaultHandleStyle), handles[i].style)))
  }

  /** The rendered handles of a node have pairwise distinct ids, so their
      React keys are distinct too. */
  lemma RenderedIdsDistinct(nodeId: string, handles: seq<HandleConfig>, handleStyle: Option<Style>)
    ensures var r := RenderHandles(nodeId, handles, handleStyle);
      forall i, j :: 0 <= i < j < |r| ==> r[i].id != r[j].id
  {
    var r := RenderHandles(nodeId, handles, handleStyle);
    forall i, j | 0 <= i < j < |r| ensures r[i].id != r[j].id {
      if r[i].id == r[j].id {
        HandleIdInjective(nodeId, handles[i].kind, i, handles[j].kind, j);
        assert false;
      }
    }
  }

  /** The handle lists the four node variants pass. */
  const StartHandles: seq<HandleConfig> := [HandleConfig(Source, Right, None)]
  const EndHandles: seq<HandleConfig> := [HandleConfig(Target, Left, None)]
  const ProcessHandles: seq<HandleConfig> := [HandleConfig(Target, Left, None), HandleConfig(Source, Right, None)]
  const DecisionHandles: seq<HandleConfig> := [HandleConfig(Target, Left, None), HandleConfig(Source, Right, None)]

  /** A start node has one outgoing handle "{id}-source-0" on the right. */
  lemma StartNodeHandles(nodeId: string)
    ensures RenderHandles(nodeId, StartHandles, None)
      == [RenderedHandle(nodeId + "-source-0", Source, Right, DefaultHandleStyle)]
  {
    assert DecimalString(0) == "0";
    assert HandleId(nodeId, Source, 0) == nodeId + "-source-0";
  }

  /** An end node has one incoming handle "{id}-target-0" on the left. */
  lemma EndNodeHandles(nodeId: string)
    ensures RenderHandles(nodeId, EndHandles, None)
      == [RenderedHandle(nodeId + "-target-0", Target, Left, DefaultHandleStyle)]
  {
    assert DecimalString(0) == "0";
    assert HandleId(nodeId, Target, 0) == nodeId + "-target-0";
  }

  /** A process node has an incoming "{id}-target-0" on the left and an
      outgoing "{id}-source-1" on the right. */
  lemma ProcessNodeHandles(nodeId: string)
    ensures RenderHandles(nodeId, ProcessHandles, None)
      == [RenderedHandle(nodeId + "-target-0", Target, Left, DefaultHandleStyle),
          RenderedHandle(nodeId + "-source-1", Source, Right, DefaultHandleStyle)]
  {
    assert DecimalString(0) == "0" && DecimalString(1) == "1";
    assert HandleId(nodeId, Target, 0) == nodeId + "-target-0";
    assert HandleId(nodeId, Source, 1) == nodeId + "-source-1";
  }

  /** A decision node has the same two handles as a process node. */
  lemma DecisionNodeHandles(nodeId: string)
    ensures RenderHandles(nodeId, DecisionHandles, None)
      == [RenderedHandle(nodeId + "-target-0", Target, Left, DefaultHandleStyle),
          RenderedHandle(nodeId + "-source-1", Source, Right, DefaultHandleStyle)]
  {
    ProcessNodeHandles(nodeId);
  }

  // ---------------------------------------------------------------------
  // The node's state, its actions and its name input
  // ---------------------------------------------------------------------

  /** The store actions the node dispatches. */
  datatype WorkflowAction =
    | UpdateNodeField(nodeId: string, fieldName: string, fieldValue: string)
    | DeleteNode(nodeId: string)

  /** The name input: its label, input type, value and placeholder. */
  datatype NameInput = NameInput(labelText: string, inputType: string, value: string, placeholder: string)

  /** One mounted node: its id and the `currName` state, which starts at the
      initial name and is not re-derived afterwards. */
  class NodeShell {
    const id: string
    var currName: string

    constructor (id: string, inputName: Option<string>)
      ensures this.id == id && currName == InitialName(inputName, id)
    {
      this.id := id;
      currName := InitialName(inputName, id);
    }

    /** `handleNameChange`: keep the typed value and emit one update of the
        node's "inputName" field to it. */
    method HandleNameChange(newValue: string) returns (action: WorkflowAction)
      modifies this
      ensures currName == newValue
      ensures action == UpdateNodeField(id, "inputName", newValue)
    {
      currName := newValue;
      action := UpdateNodeField(id, "inputName", newValue);
    }

    /** `handleDelete`: emit one delete of this node; the local state is
        untouched. */
    method HandleDelete() returns (action: WorkflowAction)
      ensures action.DeleteNode? && action.nodeId == id
    {
      action := DeleteNode(id);
    }

    /** `inputField`: nothing for a disabled node, otherwise the name input
        showing `currName`. */
    function InputField(disabled: bool, labelText: string, inputType: string): (field: Option<NameInput>)
      reads this
      ensures field.None? <==> disabled
      ensures field.Some? ==>
        && field.value.value == currName && field.value.labelText == labelText
        && field.value.placeholder == "Enter " + Lower(labelText) + "..."
    {
      if disabled then None
      else Some(NameInput(labelText, inputType, currName, "Enter " + Lower(labelText) + "..."))
    }
  }
}
