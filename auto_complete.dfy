// The single-select combobox (src/common/Formik/AutoComplete.tsx): selecting
// an option toggles it as the selection and closes the popover; in form mode
// the selection is written to the Formik field, otherwise reported to
// `onSelect`; two effects pull the selection from the field value and from
// the `selectedValue` prop.

module AutoComplete {
  import opened Wrappers
  import opened Strings

  /** An option's value: a string or a number. */
  datatype OptValue = Text(s: string) | Number(n: int)

  datatype AcOption = AcOption(labelText: string, value: OptValue)

  const DefaultPlaceholder := "Select..."

  /** `value.toString()`. */
  function ValueText(v: OptValue): string
  {
    match v
    case Text(s) => s
    case Number(n) => IntToString(n)
  }

  /** Truthiness of a field value: undefined, "" and 0 are falsy. */
  predicate TruthyField(fieldValue: Option<OptValue>)
  {
    match fieldValue
    case None => false
    case Some(Text(s)) => s != ""
    case Some(Number(n)) => n != 0
  }

  /** `option.value === value?.value` for a possibly empty selection. */
  predicate SameValue(current: Option<AcOption>, v: OptValue)
  {
    current.Some? && current.value.value == v
  }

  /** `handleSelect`'s new selection: picking the selected value clears the
      selection; picking anything else selects it. */
  function NextSelection(current: Option<AcOption>, option: AcOption): (next: Option<AcOption>)
    ensures next.None? <==> SameValue(current, option.value)
    ensures next.Some? ==> next.value == option
  {
    if SameValue(current, option.value) then None else Some(option)
  }

  /** `newValue?.value`, what form mode writes to the field. */
  function FieldValueOf(selection: Option<AcOption>): Option<OptValue>
  {
    match selection
    case None => None
    case Some(o) => Some(o.value)
  }

  /** `options.find(o => o.value.toString() === text)`. */
  function FindByText(options: seq<AcOption>, text: string): (r: Option<AcOption>)
    ensures r.Some? ==>
      exists k :: 0 <= k < |options| && options[k] == r.value &&
        ValueText(options[k].value) == text && forall j :: 0 <= j < k ==> ValueText(options[j].value) != text
    ensures r.None? ==> forall k :: 0 <= k < |options| ==> ValueText(options[k].value) != text
  {
    if options == [] then None
    else if ValueText(options[0].value) == text then Some(options[0])
    else
      var r := FindByText(options[1..], text);
      assert forall k :: 1 <= k < |options| ==> options[k] == options[1..][k - 1];
      r
  }

  /** The selection after the field-value effect. */
  function FieldSync(isFormikEnabled: bool, fieldValue: Option<OptValue>, options: seq<AcOption>,
                     current: Option<AcOption>): Option<AcOption>
  {
    if !isFormikEnabled then current
    else if TruthyField(fieldValue) then
      match FindByText(options, ValueText(fieldValue.value))
      case None => current
      case Some(m) => if !SameValue(current, m.value) then Some(m) else current
    else None
  }

  /** The selection after the `selectedValue` effect. */
  function SelectedValueSync(selectedValue: Option<AcOption>, current: Option<AcOption>): Option<AcOption>
  {
    if selectedValue.Some? && !SameValue(current, selectedValue.value.value) then selectedValue else current
  }

  /** `value?.label || placeholder`. */
  function TriggerLabel(current: Option<AcOption>, placeholder: string): string
  {
    if current.Some? && current.value.labelText != "" then current.value.labelText else placeholder
  }

  // ---------------------------------------------------------------------------
  // The effect cascade

  /** What the two sync effects read besides the selection. */
  datatype Effects = Effects(isFormikEnabled: bool, fieldValue: Option<OptValue>, options: seq<AcOption>,
                             selectedValue: Option<AcOption>)

  /** One commit in which both effects run against the same rendered
      selection: each may call `setValue`, and the `selectedValue` effect,
      declared second, has the last word. */
  function Round(e: Effects, v: Option<AcOption>): Option<AcOption>
  {
    if e.selectedValue.Some? && !SameValue(v, e.selectedValue.value.value) then e.selectedValue
    else FieldSync(e.isFormikEnabled, e.fieldValue, e.options, v)
  }

  /** Which effects the first commit after an event runs: both after a
      selection or on mount, only the field effect after the field value
      changes, only the `selectedValue` effect after that prop changes. */
  datatype Trigger = Both | FieldOnly | SelectedOnly

  function FirstRound(e: Effects, t: Trigger, v: Option<AcOption>): Option<AcOption>
  {
    match t
    case Both => Round(e, v)
    case FieldOnly => FieldSync(e.isFormikEnabled, e.fieldValue, e.options, v)
    case SelectedOnly => SelectedValueSync(e.selectedValue, v)
  }

  /** The number of further commits the model follows; `RoundSettlesOrCycles`
      shows that a cascade still moving after them never stops. */
  const MaxRounds: nat := 3

  /** Commits in which both effects run, until one leaves the selection as
      it was (then nothing re-renders) or the fuel runs out. The flag says
      whether the cascade stopped. */
  function Settle(e: Effects, v: Option<AcOption>, fuel: nat): (Option<AcOption>, bool)
    decreases fuel
  {
    if fuel == 0 then (v, false)
    else if Round(e, v) == v then (v, true)
    else Settle(e, Round(e, v), fuel - 1)
  }

  /** The selection after an event's effects, and whether they stopped. */
  function Cascade(e: Effects, t: Trigger, v: Option<AcOption>): (Option<AcOption>, bool)
  {
    var first := FirstRound(e, t, v);
    if first == v then (v, true) else Settle(e, first, MaxRounds)
  }

  // ---------------------------------------------------------------------------
  // The component state

  class AutoCompleteState {
    /** The `options` prop; a remote search replaces it. */
    var options: seq<AcOption>
    const isFormikEnabled: bool
    const hasOnSelect: bool
    const placeholder: string
    var open: bool
    var value: Option<AcOption>
    /** The `selectedValue` prop. */
    var selectedValue: Option<AcOption>
    /** The Formik field (form mode only). */
    var fieldValue: Option<OptValue>
    var touched: bool
    /** Every value handed to `onSelect`, oldest first. */
    var onSelectCalls: seq<Option<AcOption>>
    /** Whether the last effect cascade stopped; when it did not, the two
        effects keep overriding each other. */
    var settled: bool

    function Env(): Effects
      reads this
    {
      Effects(isFormikEnabled, fieldValue, options, selectedValue)
    }

    /** Mounting: the selection starts as `selectedValue`, then both effects
        run. */
    constructor(options: seq<AcOption>, isFormikEnabled: bool, hasOnSelect: bool, placeholder: string,
                selectedValue: Option<AcOption>, fieldValue: Option<OptValue>)
      ensures this.options == options && this.isFormikEnabled == isFormikEnabled
      ensures this.hasOnSelect == hasOnSelect && this.placeholder == placeholder
      ensures this.selectedValue == selectedValue && this.fieldValue == fieldValue
      ensures (value, settled) == Cascade(Effects(isFormikEnabled, fieldValue, options, selectedValue), Both, selectedValue)
      ensures !open && !touched && onSelectCalls == []
    {
      this.options := options;
      this.isFormikEnabled := isFormikEnabled;
      this.hasOnSelect := hasOnSelect;
      this.placeholder := placeholder;
      open := false;
      value := selectedValue;
      this.selectedValue := selectedValue;
      this.fieldValue := fieldValue;
      touched := false;
      onSelectCalls := [];
      settled := true;
      new;
      RunEffects(Both);
    }

    /** The commits that follow an event: the first runs the effects `t`
        names; each later one runs both, as long as the selection moved. */
    method RunEffects(t: Trigger)
      modifies this`value, this`settled
      ensures (value, settled) == Cascade(Env(), t, old(value))
    {
      var e := Env();
      var first := FirstRound(e, t, value);
      if first == value {
        settled := true;
        return;
      }
      value := first;
      settled := false;
      var fuel := MaxRounds;
      while fuel > 0 && !settled
        invariant !settled ==> Settle(e, value, fuel) == Settle(e, first, MaxRounds)
        invariant settled ==> (value, true) == Settle(e, first, MaxRounds)
        decreases fuel, if settled then 0 else 1
      {
        var next := Round(e, value);
        if next == value {
          settled := true;
        } else {
          value := next;
          fuel := fuel - 1;
        }
      }
    }

    /** `handleSelect(option)`, then the effects it triggers. */
    method HandleSelect(option: AcOption)
      modifies this
      ensures !open && selectedValue == old(selectedValue) && options == old(options)
      ensures isFormikEnabled ==>
        fieldValue == FieldValueOf(NextSelection(old(value), option)) && touched &&
        onSelectCalls == old(onSelectCalls)
      ensures !isFormikEnabled ==>
        fieldValue == old(fieldValue) && touched == old(touched) &&
        onSelectCalls == old(onSelectCalls) + if hasOnSelect then [NextSelection(old(value), option)] else []
      ensures (value, settled) == Cascade(Env(), Both, NextSelection(old(value), option))
    {
      var newValue := if SameValue(value, option.value) then None else Some(option);
      value := newValue;
      if isFormikEnabled {
        fieldValue := FieldValueOf(newValue);
        touched := true;
      } else if hasOnSelect {
        onSelectCalls := onSelectCalls + [newValue];
      }
      open := false;
      RunEffects(Both);
    }

    /** Formik changed the field value from outside (a reset, another
        input): only the field effect sees the change at first. */
    method FieldValueChanged(newValue: Option<OptValue>)
      modifies this`fieldValue, this`value, this`settled
      ensures fieldValue == newValue
      ensures newValue != old(fieldValue) ==> (value, settled) == Cascade(Env(), FieldOnly, old(value))
      ensures newValue == old(fieldValue) ==> value == old(value) && settled == old(settled)
    {
      if newValue != fieldValue {
        fieldValue := newValue;
        RunEffects(FieldOnly);
      }
    }

    /** The parent passed other options (a remote search answered): of the
        two effects only the field effect lists `options` as a dependency,
        so only it sees the change at first. */
    method OptionsChanged(newOptions: seq<AcOption>)
      modifies this`options, this`value, this`settled
      ensures options == newOptions
      ensures newOptions != old(options) ==> (value, settled) == Cascade(Env(), FieldOnly, old(value))
      ensures newOptions == old(options) ==> value == old(value) && settled == old(settled)
    {
      if newOptions != options {
        options := newOptions;
        RunEffects(FieldOnly);
      }
    }

    /** The parent passed another `selectedValue`: only its effect sees the
        change at first. */
    method SelectedValueChanged(newSelected: Option<AcOption>)
      modifies this`selectedValue, this`value, this`settled
      ensures selectedValue == newSelected
      ensures newSelected != old(selectedValue) ==> (value, settled) == Cascade(Env(), SelectedOnly, old(value))
      ensures newSelected == old(selectedValue) ==> value == old(value) && settled == old(settled)
    {
      if newSelected != selectedValue {
        selectedValue := newSelected;
        RunEffects(SelectedOnly);
      }
    }

    /** The popover's own open/close requests. */
    method SetOpen(b: bool)
      modifies this`open
      ensures open == b
    {
      open := b;
    }

    function Trigger(): string
      reads this
    {
      TriggerLabel(value, placeholder)
    }
  }

  // ---------------------------------------------------------------------------
  // Properties

  /** Selecting the same option twice ends with no selection, unless the
      selection already had its value, when it ends with the option. */
  lemma SelectTwiceClears(current: Option<AcOption>, option: AcOption)
    ensures NextSelection(NextSelection(current, option), option) ==
      if SameValue(current, option.value) then Some(option) else None
  {
  }

  /** A falsy field value clears the selection in form mode; outside form
      mode the effect changes nothing. */
  lemma FalsyFieldClears(fieldValue: Option<OptValue>, options: seq<AcOption>, current: Option<AcOption>)
    ensures !TruthyField(fieldValue) ==> FieldSync(true, fieldValue, options, current) == None
    ensures FieldSync(false, fieldValue, options, current) == current
  {
  }

  /** A truthy field value adopts the first option with the same text form
      unless the selection already has that value; with no such option the
      selection stays. */
  lemma TruthyFieldAdopts(fieldValue: OptValue, options: seq<AcOption>, current: Option<AcOption>, k: nat)
    requires TruthyField(Some(fieldValue))
    requires k < |options| && ValueText(options[k].value) == ValueText(fieldValue)
    requires forall j :: 0 <= j < k ==> ValueText(options[j].value) != ValueText(fieldValue)
    ensures var r := FieldSync(true, Some(fieldValue), options, current);
      r.Some? && r.value.value == options[k].value &&
      (r != current ==> r == Some(options[k]))
  {
    var m := FindByText(options, ValueText(fieldValue));
    assert m.Some?;
    var i :| 0 <= i < |options| && options[i] == m.value && ValueText(options[i].value) == ValueText(fieldValue) &&
      forall j :: 0 <= j < i ==> ValueText(options[j].value) != ValueText(fieldValue);
    assert i == k;
  }

  lemma NoMatchKeeps(fieldValue: OptValue, options: seq<AcOption>, current: Option<AcOption>)
    requires TruthyField(Some(fieldValue))
    requires forall k :: 0 <= k < |options| ==> ValueText(options[k].value) != ValueText(fieldValue)
    ensures FieldSync(true, Some(fieldValue), options, current) == current
  {
    var m := FindByText(options, ValueText(fieldValue));
    if m.Some? {
      assert false;
    }
  }

  /** Each effect alone settles: running it a second time changes nothing. */
  lemma SyncsAreIdempotent(isFormikEnabled: bool, fieldValue: Option<OptValue>, options: seq<AcOption>,
                           selectedValue: Option<AcOption>, current: Option<AcOption>)
    ensures var once := FieldSync(isFormikEnabled, fieldValue, options, current);
      FieldSync(isFormikEnabled, fieldValue, options, once) == once
    ensures var once := SelectedValueSync(selectedValue, current);
      SelectedValueSync(selectedValue, once) == once
  {
  }

  /** The field effect writes only to change `value?.value`, and whether and
      what it writes depends on the selection only through `value?.value`. */
  lemma FieldSyncByKey(isFormikEnabled: bool, fieldValue: Option<OptValue>, options: seq<AcOption>,
                       v: Option<AcOption>, w: Option<AcOption>)
    ensures var fv := FieldSync(isFormikEnabled, fieldValue, options, v);
      fv != v ==> FieldValueOf(fv) != FieldValueOf(v)
    ensures FieldValueOf(v) == FieldValueOf(w) ==>
      var fv, fw := FieldSync(isFormikEnabled, fieldValue, options, v), FieldSync(isFormikEnabled, fieldValue, options, w);
      (fv == v <==> fw == w) && (fv != v ==> fv == fw)
  {
  }

  /** A commit that changes the selection changes `value?.value`, the
      dependency of both effects: so they run again exactly when the
      selection moved, as `Settle` follows them. */
  lemma {:induction false} RoundMovesKey(e: Effects, t: Trigger, v: Option<AcOption>)
    ensures Round(e, v) != v ==> FieldValueOf(Round(e, v)) != FieldValueOf(v)
    ensures FirstRound(e, t, v) != v ==> FieldValueOf(FirstRound(e, t, v)) != FieldValueOf(v)
  {
    FieldSyncByKey(e.isFormikEnabled, e.fieldValue, e.options, v, v);
  }

  /** From the selection after one commit on, the effects either stop at
      once, stop after one more commit, or swap two selections forever. */
  lemma {:induction false} RoundSettlesOrCycles(e: Effects, x: Option<AcOption>)
    ensures var r1 := Round(e, x);
      r1 == x || Round(e, r1) == r1 || (Round(e, Round(e, r1)) == r1 && Round(e, r1) != r1)
  {
    var r1 := Round(e, x);
    if e.selectedValue.Some? {
      var sv := e.selectedValue;
      var r2 := Round(e, r1);
      FieldSyncByKey(e.isFormikEnabled, e.fieldValue, e.options, x, x);
      FieldSyncByKey(e.isFormikEnabled, e.fieldValue, e.options, sv, sv);
      FieldSyncByKey(e.isFormikEnabled, e.fieldValue, e.options, x, sv);
      FieldSyncByKey(e.isFormikEnabled, e.fieldValue, e.options, r1, r1);
      FieldSyncByKey(e.isFormikEnabled, e.fieldValue, e.options, r2, r2);
    } else {
      SyncsAreIdempotent(e.isFormikEnabled, e.fieldValue, e.options, e.selectedValue, x);
    }
  }

  /** Two selections the effects swap forever: no amount of further commits
      stops them. */
  lemma {:induction false} NeverSettles(e: Effects, y: Option<AcOption>, fuel: nat)
    requires Round(e, Round(e, y)) == y && Round(e, y) != y
    ensures !Settle(e, y, fuel).1
    decreases fuel
  {
    if fuel > 0 {
      NeverSettles(e, Round(e, y), fuel - 1);
    }
  }

  /** The outcome of every event: the effects stop at a selection that a
      further commit would leave alone (or before any commit moved it), or
      they are swapping two selections and never stop. */
  lemma CascadeOutcome(e: Effects, t: Trigger, v: Option<AcOption>)
    ensures var c := Cascade(e, t, v);
      (c.1 ==> c.0 == v || Round(e, c.0) == c.0) &&
      (!c.1 ==> Round(e, Round(e, c.0)) == c.0 && Round(e, c.0) != c.0)
  {
    var first := FirstRound(e, t, v);
    if first != v {
      RoundSettlesOrCycles(e, first);
    }
  }

  /** Without a `selectedValue` the effects always stop, at the field
      effect's selection (or untouched when only the absent prop changed). */
  lemma SettlesWithoutSelectedValue(e: Effects, t: Trigger, v: Option<AcOption>)
    requires e.selectedValue.None?
    ensures Cascade(e, t, v).1
    ensures t != SelectedOnly ==> Cascade(e, t, v).0 == FieldSync(e.isFormikEnabled, e.fieldValue, e.options, v)
    ensures t == SelectedOnly ==> Cascade(e, t, v).0 == v
  {
    SyncsAreIdempotent(e.isFormikEnabled, e.fieldValue, e.options, e.selectedValue, v);
  }

  /** Outside form mode a given `selectedValue` wins over the user's pick:
      the effects stop at once with the prop's option (the selection a
      parent that does not update the prop keeps showing). */
  lemma ControlledPropWins(e: Effects, v: Option<AcOption>)
    requires !e.isFormikEnabled
    ensures Cascade(e, Both, v) == (SelectedValueSync(e.selectedValue, v), true)
  {
  }

  /** In form mode without a `selectedValue`, picking an option whose value
      is truthy and the first with its text form keeps it: the effects that
      follow `handleSelect` stop at the pick. */
  lemma FormSelectionSticks(options: seq<AcOption>, current: Option<AcOption>, k: nat)
    requires k < |options| && TruthyField(Some(options[k].value))
    requires forall j :: 0 <= j < k ==> ValueText(options[j].value) != ValueText(options[k].value)
    ensures var next := NextSelection(current, options[k]);
      Cascade(Effects(true, FieldValueOf(next), options, None), Both, next) == (next, true)
  {
    var next := NextSelection(current, options[k]);
    FormSelectionIsStable(options, current, k);
    SettlesWithoutSelectedValue(Effects(true, FieldValueOf(next), options, None), Both, next);
  }

  /** Options that load after the field was set: in form mode without a
      `selectedValue`, once the first option whose value text equals the
      field's text arrives, the field effect selects it and the effects stop
      there. Before it arrives (no matching option), the selection stays. */
  lemma LoadedOptionAdopted(fieldValue: OptValue, options: seq<AcOption>, current: Option<AcOption>, k: nat)
    requires TruthyField(Some(fieldValue))
    requires k < |options| && ValueText(options[k].value) == ValueText(fieldValue)
    requires forall j :: 0 <= j < k ==> ValueText(options[j].value) != ValueText(fieldValue)
    requires !SameValue(current, options[k].value)
    ensures Cascade(Effects(true, Some(fieldValue), options, None), FieldOnly, current) == (Some(options[k]), true)
    ensures Cascade(Effects(true, Some(fieldValue), [], None), FieldOnly, current) == (current, true)
  {
    TruthyFieldAdopts(fieldValue, options, current, k);
    SettlesWithoutSelectedValue(Effects(true, Some(fieldValue), options, None), FieldOnly, current);
    SettlesWithoutSelectedValue(Effects(true, Some(fieldValue), [], None), FieldOnly, current);
  }

  // ---------------------------------------------------------------------------
  // The two effects fight when the prop and the field disagree

  /** As written: in form mode with `selectedValue` a and field value "b",
      the field effect selects b and the `selectedValue` effect selects a
      again, forever; the same happens with an empty field. Mounting such a
      component never stops re-rendering. */
  lemma EffectsFightExample()
    ensures var a, b := AcOption("A", Text("a")), AcOption("B", Text("b"));
      var e := Effects(true, Some(Text("b")), [a, b], Some(a));
      Round(e, Some(a)) == Some(b) && Round(e, Some(b)) == Some(a) &&
      !Cascade(e, Both, Some(a)).1
    ensures var a, b := AcOption("A", Text("a")), AcOption("B", Text("b"));
      var e := Effects(true, None, [a, b], Some(a));
      Round(e, Some(a)) == None && Round(e, None) == Some(a) &&
      !Cascade(e, Both, Some(a)).1
  {
    var a, b := AcOption("A", Text("a")), AcOption("B", Text("b"));
    var e := Effects(true, Some(Text("b")), [a, b], Some(a));
    assert ValueText(a.value) != "b" by {
      assert ValueText(a.value)[0] != "b"[0];
    }
    assert FindByText([a, b], "b") == Some(b);
    assert Round(e, Some(a)) == Some(b);
    NeverSettles(e, Some(b), MaxRounds);
  }

  /** The effect cascade with the `selectedValue` effect keyed on the prop
      alone, as its purpose (initialising from the prop) suggests: after the
      first commit only the field effect can run again. */
  function CorrectedCascade(e: Effects, t: Trigger, v: Option<AcOption>): Option<AcOption>
  {
    var first := FirstRound(e, t, v);
    if first == v then v else FieldSync(e.isFormikEnabled, e.fieldValue, e.options, first)
  }

  /** The corrected cascade always stops at a selection the field effect
      accepts (after a prop change, provided the field effect accepted the
      selection before), and the example that fought now keeps b. */
  lemma CorrectedCascadeSettles(e: Effects, t: Trigger, v: Option<AcOption>)
    ensures var r := CorrectedCascade(e, t, v);
      (t != SelectedOnly || FieldSync(e.isFormikEnabled, e.fieldValue, e.options, v) == v) ==>
        FieldSync(e.isFormikEnabled, e.fieldValue, e.options, r) == r
    ensures var a, b := AcOption("A", Text("a")), AcOption("B", Text("b"));
      CorrectedCascade(Effects(true, Some(Text("b")), [a, b], Some(a)), Both, Some(a)) == Some(b)
  {
    var first := FirstRound(e, t, v);
    SyncsAreIdempotent(e.isFormikEnabled, e.fieldValue, e.options, e.selectedValue, first);
    if first == v && t == Both && e.selectedValue.Some? && !SameValue(v, e.selectedValue.value.value) {
      assert false;
    }
    var a, b := AcOption("A", Text("a")), AcOption("B", Text("b"));
    assert ValueText(a.value) != "b" by {
      assert ValueText(a.value)[0] != "b"[0];
    }
    assert FindByText([a, b], "b") == Some(b);
  }

  /** In form mode, a selection whose value is truthy and is the first option
      with its text form survives the field effect that follows it. */
  lemma FormSelectionIsStable(options: seq<AcOption>, current: Option<AcOption>, k: nat)
    requires k < |options| && TruthyField(Some(options[k].value))
    requires forall j :: 0 <= j < k ==> ValueText(options[j].value) != ValueText(options[k].value)
    ensures var next := NextSelection(current, options[k]);
      FieldSync(true, FieldValueOf(next), options, next) == next
  {
    var next := NextSelection(current, options[k]);
    if next.Some? {
      TruthyFieldAdopts(options[k].value, options, next, k);
    }
  }

  /** Selecting an option whose value is falsy (0 or "") in form mode does not
      last: the field effect that follows clears it. */
  lemma FalsyOptionSelectionIsCleared(options: seq<AcOption>, current: Option<AcOption>, option: AcOption)
    requires !TruthyField(Some(option.value))
    ensures FieldSync(true, FieldValueOf(NextSelection(current, option)), options,
                      NextSelection(current, option)) == None
  {
  }

  /** The trigger shows the selected label, or the placeholder when nothing
      (or an option with an empty label) is selected. */
  lemma TriggerShowsSelection(o: AcOption, placeholder: string)
    ensures TriggerLabel(None, placeholder) == placeholder
    ensures o.labelText != "" ==> TriggerLabel(Some(o), placeholder) == o.labelText
    ensures o.labelText == "" ==> TriggerLabel(Some(o), placeholder) == placeholder
  {
  }
}
