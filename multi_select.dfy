// The Formik multi-select (src/common/Formik/FormikMultiSelectOption.tsx): a
// list of selected option values that clicking an option toggles, mirrored
// into the form field, reported to the optional `onSelect` callback, and shown
// as the selected labels joined by ", ".

module MultiSelect {
  import opened Wrappers
  import opened Strings

  datatype SelectOption = SelectOption(value: string, labelText: string)

  const Placeholder := "Select options"

  // ---------------------------------------------------------------------------
  // The selection list

  /** `selected.filter(option => option !== v)`. */
  function RemoveAll(selected: seq<string>, v: string): (r: seq<string>)
    ensures |r| <= |selected|
    ensures v !in r
    ensures forall x :: x != v ==> (x in r <==> x in selected)
  {
    if selected == [] then []
    else
      var rest := RemoveAll(selected[1..], v);
      assert forall x :: x in selected <==> x == selected[0] || x in selected[1..];
      if selected[0] == v then rest else [selected[0]] + rest
  }

  /** The new list `toggleOption(v)` computes: without every occurrence of a
      selected value, with an unselected value appended. */
  function Toggled(selected: seq<string>, v: string): seq<string>
  {
    if v in selected then RemoveAll(selected, v) else selected + [v]
  }

  /** `field.value || []`: an absent field value reads as no selection. */
  function FromField(fieldValue: Option<seq<string>>): seq<string>
  {
    match fieldValue
    case None => []
    case Some(values) => values
  }

  // ---------------------------------------------------------------------------
  // The display text

  /** `options.find(o => o.value === v)?.label`, printed by `join` as "" when
      no option has the value. */
  function LabelOf(options: seq<SelectOption>, v: string): (text: string)
    ensures (exists k :: 0 <= k < |options| && options[k].value == v) ==>
      exists k :: 0 <= k < |options| && options[k].value == v && text == options[k].labelText &&
        forall j :: 0 <= j < k ==> options[j].value != v
    ensures (forall k :: 0 <= k < |options| ==> options[k].value != v) ==> text == ""
  {
    if options == [] then ""
    else if options[0].value == v then options[0].labelText
    else
      var text := LabelOf(options[1..], v);
      assert forall k :: 1 <= k < |options| ==> options[k] == options[1..][k - 1];
      text
  }

  function Labels(options: seq<SelectOption>, selected: seq<string>): (r: seq<string>)
    ensures |r| == |selected|
    ensures forall i :: 0 <= i < |r| ==> r[i] == LabelOf(options, selected[i])
  {
    seq(|selected|, i requires 0 <= i < |selected| => LabelOf(options, selected[i]))
  }

  /** The text in the closed box. */
  function DisplayText(options: seq<SelectOption>, selected: seq<string>): string
  {
    if |selected| > 0 then Join(Labels(options, selected), ", ") else Placeholder
  }

  // ---------------------------------------------------------------------------
  // The component state

  class MultiSelectState {
    const options: seq<SelectOption>
    const hasOnSelect: bool
    var selectedOptions: seq<string>
    var dropdownOpen: bool
    /** The Formik field's value (`None` when it is undefined). */
    var fieldValue: Option<seq<string>>
    /** Every list handed to `onSelect`, oldest first. */
    var onSelectCalls: seq<seq<string>>

    /** Mounting: the closed dropdown starts with an empty selection; the sync
        effect then copies the field value in, and the notification effect
        reports the empty list and then the synced one. */
    constructor(options: seq<SelectOption>, hasOnSelect: bool, fieldValue: Option<seq<string>>)
      ensures this.options == options && this.hasOnSelect == hasOnSelect
      ensures this.fieldValue == fieldValue && !dropdownOpen
      ensures selectedOptions == FromField(fieldValue)
      ensures onSelectCalls == if hasOnSelect then [[], FromField(fieldValue)] else []
    {
      this.options := options;
      this.hasOnSelect := hasOnSelect;
      this.fieldValue := fieldValue;
      dropdownOpen := false;
      selectedOptions := FromField(fieldValue);
      onSelectCalls := if hasOnSelect then [[], FromField(fieldValue)] else [];
    }

    /** `toggleOption(v)`: the new list becomes the selection and the field
        value, is reported once to `onSelect`, and the dropdown closes. */
    method ToggleOption(v: string)
      modifies this
      ensures selectedOptions == Toggled(old(selectedOptions), v)
      ensures fieldValue == Some(selectedOptions)
      ensures !dropdownOpen
      ensures onSelectCalls == old(onSelectCalls) + if hasOnSelect then [selectedOptions] else []
    {
      var updated: seq<string>;
      if v in selectedOptions {
        updated := RemoveAll(selectedOptions, v);
      } else {
        updated := selectedOptions + [v];
      }
      selectedOptions := updated;
      fieldValue := Some(updated);
      dropdownOpen := false;
      if hasOnSelect {
        onSelectCalls := onSelectCalls + [updated];
      }
    }

    /** `toggleDropdown`, on a click of the box. */
    method ToggleDropdown()
      modifies this`dropdownOpen
      ensures dropdownOpen == !old(dropdownOpen)
    {
      dropdownOpen := !dropdownOpen;
    }

    /** The field value changed from outside (a form reset, say): the sync
        effect copies it into the selection, which is reported. */
    method FieldValueChanged(value: Option<seq<string>>)
      modifies this`fieldValue, this`selectedOptions, this`onSelectCalls
      ensures fieldValue == value
      ensures selectedOptions == FromField(value)
      ensures onSelectCalls == old(onSelectCalls) + if hasOnSelect then [selectedOptions] else []
    {
      fieldValue := value;
      selectedOptions := FromField(value);
      if hasOnSelect {
        onSelectCalls := onSelectCalls + [selectedOptions];
      }
    }

    /** The text the closed box shows. */
    function Text(): string
      reads this
    {
      DisplayText(options, selectedOptions)
    }
  }

  // ---------------------------------------------------------------------------
  // Properties

  /** A toggle flips the membership of the toggled value and of no other. */
  lemma ToggleFlipsOnly(selected: seq<string>, v: string, x: string)
    ensures x in Toggled(selected, v) <==> (if x == v then v !in selected else x in selected)
  {
  }

  /** Removing a value that is absent changes nothing. */
  lemma {:induction false} RemoveAbsent(selected: seq<string>, v: string)
    requires v !in selected
    ensures RemoveAll(selected, v) == selected
  {
    if selected != [] {
      RemoveAbsent(selected[1..], v);
      assert [selected[0]] + selected[1..] == selected;
    }
  }

  /** Removal distributes over concatenation. */
  lemma {:induction false} RemoveAppend(a: seq<string>, b: seq<string>, v: string)
    ensures RemoveAll(a + b, v) == RemoveAll(a, v) + RemoveAll(b, v)
  {
    if a == [] {
      assert a + b == b;
    } else {
      RemoveAppend(a[1..], b, v);
      assert a + b == [a[0]] + (a[1..] + b);
      RemoveCons(a[0], a[1..] + b, v);
      assert a == [a[0]] + a[1..];
      RemoveCons(a[0], a[1..], v);
    }
  }

  /** One step of the removal. */
  lemma RemoveCons(x: string, rest: seq<string>, v: string)
    ensures RemoveAll([x] + rest, v) == (if x == v then [] else [x]) + RemoveAll(rest, v)
  {
    assert ([x] + rest)[1..] == rest;
  }

  /** The other values keep their order and number: with the toggled value
      taken out, the list is the same before and after. */
  lemma ToggleKeepsOthers(selected: seq<string>, v: string)
    ensures RemoveAll(Toggled(selected, v), v) == RemoveAll(selected, v)
  {
    if v in selected {
      RemoveAbsent(RemoveAll(selected, v), v);
    } else {
      RemoveAppend(selected, [v], v);
      assert RemoveAll([v], v) == [];
    }
  }

  /** Toggling an unselected value twice restores the list. */
  lemma ToggleTwiceUnselected(selected: seq<string>, v: string)
    requires v !in selected
    ensures Toggled(Toggled(selected, v), v) == selected
  {
    assert v in selected + [v];
    RemoveAppend(selected, [v], v);
    assert RemoveAll([v], v) == [];
    RemoveAbsent(selected, v);
  }

  /** Toggling a selected value twice moves it to the end. */
  lemma ToggleTwiceSelected(selected: seq<string>, v: string)
    requires v in selected
    ensures Toggled(Toggled(selected, v), v) == RemoveAll(selected, v) + [v]
  {
  }

  /** The field value is read as the selection, an absent one as none. */
  lemma FromFieldCases(values: seq<string>)
    ensures FromField(None) == []
    ensures FromField(Some(values)) == values
  {
  }

  /** The placeholder shows exactly when nothing is selected; one selected
      value shows its label; and the text of a longer selection is the texts
      of its parts joined by ", ", so labels appear in selection order. */
  lemma DisplayTextShape(options: seq<SelectOption>, a: seq<string>, b: seq<string>, v: string)
    ensures DisplayText(options, []) == Placeholder
    ensures DisplayText(options, [v]) == LabelOf(options, v)
    ensures |a| > 0 && |b| > 0 ==>
      DisplayText(options, a + b) == DisplayText(options, a) + ", " + DisplayText(options, b)
  {
    if |a| > 0 && |b| > 0 {
      assert Labels(options, a + b) == Labels(options, a) + Labels(options, b);
      JoinAppend(Labels(options, a), Labels(options, b), ", ");
    }
  }

  /** A value that no option carries shows as an empty label. */
  lemma UnknownValueLabel(options: seq<SelectOption>, v: string)
    requires forall k :: 0 <= k < |options| ==> options[k].value != v
    ensures DisplayText(options, [v]) == ""
  {
  }
}
