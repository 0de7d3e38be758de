// The confirmation dialog (src/common/ConfirmationModal.tsx): the per-type
// configuration table, the title and description chosen from the explicit
// props, the item name and the type's defaults, and the footer buttons'
// labels, variants and enabling while an action is loading.

module ConfirmationModal {
  import opened Wrappers

  datatype ConfirmationType = Delete | Edit | Create | Info | Warning

  datatype ButtonVariant = Destructive | Default | Outline

  datatype TypeConfig = TypeConfig(
    defaultTitle: string,
    defaultDescription: string,
    confirmButtonVariant: ButtonVariant,
    iconColor: string)

  /** The `typeConfig` table. */
  function Config(t: ConfirmationType): TypeConfig
  {
    match t
    case Delete => TypeConfig("Delete Item",
      "Are you sure you want to delete this item? This action cannot be undone.", Destructive, "text-red-500")
    case Edit => TypeConfig("Edit Item", "Are you sure you want to edit this item?", Default, "text-blue-500")
    case Create => TypeConfig("Create Item", "Are you sure you want to create this item?", Default, "text-green-500")
    case Warning => TypeConfig("Warning", "Are you sure you want to proceed?", Outline, "text-yellow-500")
    case Info => TypeConfig("Confirmation", "Are you sure you want to proceed?", Default, "text-blue-500")
  }

  /** The optional props; `None` is an omitted prop. */
  datatype Props = Props(
    title: Option<string>,
    description: Option<string>,
    kind: Option<ConfirmationType>,
    confirmText: Option<string>,
    cancelText: Option<string>,
    isLoading: Option<bool>,
    itemName: Option<string>)

  /** A JavaScript string test: an omitted prop and "" are both falsy. */
  predicate Given(s: Option<string>)
  {
    s.Some? && s.value != ""
  }

  /** The destructured defaults: type "info", "Yes", "Cancel", not loading.
      A default replaces only an omitted prop, never an empty one. */
  function TypeOf(p: Props): ConfirmationType
  {
    if p.kind.Some? then p.kind.value else Info
  }

  function ConfirmText(p: Props): string
  {
    if p.confirmText.Some? then p.confirmText.value else "Yes"
  }

  function CancelText(p: Props): string
  {
    if p.cancelText.Some? then p.cancelText.value else "Cancel"
  }

  predicate Loading(p: Props)
  {
    p.isLoading.Some? && p.isLoading.value
  }

  /** The three types whose title and description name the item. */
  predicate NamesItem(t: ConfirmationType)
  {
    t == Delete || t == Edit || t == Create
  }

  /** `getTitle()`. */
  function GetTitle(p: Props): string
  {
    var t := TypeOf(p);
    if Given(p.title) then p.title.value
    else if Given(p.itemName) then
      match t
      case Delete => "Delete " + p.itemName.value
      case Edit => "Edit " + p.itemName.value
      case Create => "Create " + p.itemName.value
      case _ => Config(t).defaultTitle
    else Config(t).defaultTitle
  }

  /** `getDescription()`. */
  function GetDescription(p: Props): string
  {
    var t := TypeOf(p);
    if Given(p.description) then p.description.value
    else if Given(p.itemName) then
      match t
      case Delete => "Are you sure you want to delete \"" + p.itemName.value + "\"? This action cannot be undone."
      case Edit => "Are you sure you want to edit \"" + p.itemName.value + "\"?"
      case Create => "Are you sure you want to create \"" + p.itemName.value + "\"?"
      case _ => Config(t).defaultDescription
    else Config(t).defaultDescription
  }

  /** What the dialog shows. */
  datatype View = View(
    title: string,
    description: string,
    iconColor: string,
    cancelLabel: string,
    cancelDisabled: bool,
    confirmLabel: string,
    confirmVariant: ButtonVariant,
    confirmDisabled: bool)

  function Render(p: Props): View
  {
    var config := Config(TypeOf(p));
    View(GetTitle(p), GetDescription(p), config.iconColor,
         CancelText(p), Loading(p),
         if Loading(p) then "Loading..." else ConfirmText(p),
         config.confirmButtonVariant, Loading(p))
  }

  /** The callbacks a click on a footer button makes: none while the button
      is disabled. Confirming calls `onConfirm` alone; closing is left to
      the caller. */
  datatype Callback = OnConfirm | OnClose

  function ClickConfirm(p: Props): (calls: seq<Callback>)
    ensures calls == if Render(p).confirmDisabled then [] else [OnConfirm]
  {
    if Loading(p) then [] else [OnConfirm]
  }

  function ClickCancel(p: Props): (calls: seq<Callback>)
    ensures calls == if Render(p).cancelDisabled then [] else [OnClose]
  {
    if Loading(p) then [] else [OnClose]
  }

  // ---------------------------------------------------------------------------
  // Properties

  /** An explicit title or description always wins. */
  lemma ExplicitTextWins(p: Props)
    ensures Given(p.title) ==> Render(p).title == p.title.value
    ensures Given(p.description) ==> Render(p).description == p.description.value
  {
  }

  /** Without an explicit title, a delete, edit or create dialog about a
      named item titles itself with the verb and the name, and its
      description quotes the name. */
  lemma ItemNameTemplates(p: Props, name: string)
    requires !Given(p.title) && !Given(p.description)
    requires p.itemName == Some(name) && name != ""
    ensures TypeOf(p) == Delete ==> (Render(p).title == "Delete " + name &&
      Render(p).description == "Are you sure you want to delete \"" + name + "\"? This action cannot be undone.")
    ensures TypeOf(p) == Edit ==> (Render(p).title == "Edit " + name &&
      Render(p).description == "Are you sure you want to edit \"" + name + "\"?")
    ensures TypeOf(p) == Create ==> (Render(p).title == "Create " + name &&
      Render(p).description == "Are you sure you want to create \"" + name + "\"?")
  {
  }

  /** The item name never reaches the info and warning dialogs, nor any
      dialog when it is empty: they show their type's defaults. */
  lemma DefaultsOtherwise(p: Props)
    requires !Given(p.title) && !Given(p.description)
    requires !NamesItem(TypeOf(p)) || !Given(p.itemName)
    ensures Render(p).title == Config(TypeOf(p)).defaultTitle
    ensures Render(p).description == Config(TypeOf(p)).defaultDescription
  {
  }

  /** With every prop omitted: an info dialog titled "Confirmation" with
      "Yes" and "Cancel" buttons, both enabled. */
  lemma AllDefaults()
    ensures var v := Render(Props(None, None, None, None, None, None, None));
      v.title == "Confirmation" && v.description == "Are you sure you want to proceed?" &&
      v.confirmLabel == "Yes" && v.cancelLabel == "Cancel" &&
      v.confirmVariant == Default && !v.confirmDisabled && !v.cancelDisabled
  {
  }

  /** The confirm button is destructive exactly for delete, outlined exactly
      for warning, and plain for the other types. */
  lemma ConfirmVariants(p: Props)
    ensures Render(p).confirmVariant == Destructive <==> TypeOf(p) == Delete
    ensures Render(p).confirmVariant == Outline <==> TypeOf(p) == Warning
    ensures Render(p).confirmVariant == Default <==> TypeOf(p) in {Edit, Create, Info}
  {
  }

  /** While loading, both buttons are disabled, the confirm button reads
      "Loading...", and clicks call nothing; otherwise the caller's labels
      show and each click calls its one callback. */
  lemma LoadingRules(p: Props)
    ensures Loading(p) ==> (Render(p).confirmDisabled && Render(p).cancelDisabled &&
      Render(p).confirmLabel == "Loading..." && ClickConfirm(p) == [] && ClickCancel(p) == [])
    ensures !Loading(p) ==> (!Render(p).confirmDisabled && !Render(p).cancelDisabled &&
      Render(p).confirmLabel == ConfirmText(p) && ClickConfirm(p) == [OnConfirm] && ClickCancel(p) == [OnClose])
    ensures OnClose !in ClickConfirm(p)
  {
  }

  /** The default titles tell the types apart: with no title and no item
      name, the title alone determines the type. */
  lemma DefaultTitlesDistinct(s: ConfirmationType, t: ConfirmationType)
    requires Config(s).defaultTitle == Config(t).defaultTitle
    ensures s == t
  {
  }

  /** An empty confirm text is kept (the default replaces only an omitted
      prop), and an empty item name falls back to the default title. */
  lemma EmptyStringsExample()
    ensures Render(Props(None, None, Some(Delete), Some(""), None, None, Some(""))).confirmLabel == ""
    ensures Render(Props(None, None, Some(Delete), Some(""), None, None, Some(""))).title == "Delete Item"
  {
  }
}
