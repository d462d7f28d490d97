/** The right-click menu (components/ContextMenu.tsx): the items it lists
    for the callbacks it is given, what clicking an item does, and when the
    menu closes itself. */
module ContextMenu {
  import opened Types
  import opened Text

  datatype Action = DeleteAction | DuplicateAction | ChangeColorAction

  datatype MenuItem = MenuItem(title: string, shortcut: string, action: Action, danger: bool)

  /** The callbacks a click runs, in order. */
  datatype Effect = CallDelete | CallDuplicate | CallChangeColor | CallClose

  function DeleteLabel(count: int): string {
    if count > 1 then "Delete " + NatToString(count) + " items" else "Delete"
  }

  /** `menuItems`; `selectedItemsCount` defaults to 1. */
  function MenuItems(selectedItemsCount: Option<int>, hasDuplicate: bool, hasChangeColor: bool): seq<MenuItem> {
    [MenuItem(DeleteLabel(selectedItemsCount.GetOr(1)), "Del", DeleteAction, true)]
    + (if hasDuplicate then [MenuItem("Duplicate", "Ctrl+D", DuplicateAction, false)] else [])
    + (if hasChangeColor then [MenuItem("Change Color", "", ChangeColorAction, false)] else [])
  }

  /** Delete always comes first and is the only dangerous item; Duplicate is
      listed exactly when its callback is given, right after Delete; Change
      Color exactly when its callback is given, always last; no action is
      listed twice. */
  lemma MenuItemsSpec(count: Option<int>, hasDuplicate: bool, hasChangeColor: bool)
    ensures var items := MenuItems(count, hasDuplicate, hasChangeColor);
      && |items| == 1 + (if hasDuplicate then 1 else 0) + (if hasChangeColor then 1 else 0)
      && items[0].action == DeleteAction && items[0].shortcut == "Del" && items[0].danger
      && (forall i :: 0 <= i < |items| ==> (items[i].danger <==> i == 0))
      && (hasDuplicate <==> exists i :: 0 <= i < |items| && items[i].action == DuplicateAction)
      && (hasDuplicate ==> items[1].action == DuplicateAction && items[1].shortcut == "Ctrl+D")
      && (hasChangeColor <==> items[|items| - 1].action == ChangeColorAction)
      && (forall i, j :: 0 <= i < j < |items| ==> items[i].action != items[j].action)
  {
    var items := MenuItems(count, hasDuplicate, hasChangeColor);
    if hasDuplicate {
      assert items[1].action == DuplicateAction;
    }
  }

  /** The Delete title counts the items when there is more than one; with no
      count given it reads "Delete". */
  lemma DeleteLabelSpec(count: int)
    ensures count > 1 ==> DeleteLabel(count) == "Delete " + NatToString(count) + " items"
    ensures count <= 1 ==> DeleteLabel(count) == "Delete"
    ensures MenuItems(None, false, false)[0].title == "Delete"
    ensures count > 1 ==> DeleteLabel(count) != DeleteLabel(1)
  {
  }

  function EffectOf(a: Action): Effect {
    match a
    case DeleteAction => CallDelete
    case DuplicateAction => CallDuplicate
    case ChangeColorAction => CallChangeColor
  }

  /** Clicking an item: its own callback, then `onClose`. */
  function Click(item: MenuItem): (r: seq<Effect>)
    ensures |r| == 2 && r[1] == CallClose && r[0] != CallClose
  {
    [EffectOf(item.action), CallClose]
  }

  /** Every listed item runs exactly the callback it is listed for and then closes. */
  lemma ClickSpec(count: Option<int>, hasDuplicate: bool, hasChangeColor: bool)
    ensures var items := MenuItems(count, hasDuplicate, hasChangeColor);
      && Click(items[0]) == [CallDelete, CallClose]
      && (forall i :: 0 <= i < |items| ==> Click(items[i])[0] == EffectOf(items[i].action))
      && (forall i :: 0 <= i < |items| ==> (Click(items[i])[0] == CallDuplicate ==> hasDuplicate))
      && (forall i :: 0 <= i < |items| ==> (Click(items[i])[0] == CallChangeColor ==> hasChangeColor))
  {
  }

  /** The shortcut text shown beside an item, if any. */
  function ShownShortcut(item: MenuItem): Option<string> {
    if item.shortcut != "" then Some(item.shortcut) else None
  }

  /** A document event while the menu is open. */
  datatype MenuEvent = KeyDown(key: string) | MouseDown(mounted: bool, insideMenu: bool)

  /** Escape, or a mouse press outside the mounted menu, closes it. */
  function Closes(e: MenuEvent): (r: bool)
    ensures e.KeyDown? ==> (r <==> e.key == "Escape")
    ensures e.MouseDown? ==> (r <==> e.mounted && !e.insideMenu)
  {
    match e
    case KeyDown(key) => key == "Escape"
    case MouseDown(mounted, inside) => mounted && !inside
  }

  /** Only Change Color shows no shortcut. */
  lemma ShownShortcutSpec(count: Option<int>, hasDuplicate: bool, hasChangeColor: bool)
    ensures var items := MenuItems(count, hasDuplicate, hasChangeColor);
      forall i :: 0 <= i < |items| ==> (ShownShortcut(items[i]).None? <==> items[i].action == ChangeColorAction)
  {
  }

  /** The board canvas passes neither a count nor the optional callbacks, so
      its menu is the single "Delete" item, and clicking it deletes and closes. */
  lemma CanvasMenu()
    ensures MenuItems(None, false, false) == [MenuItem("Delete", "Del", DeleteAction, true)]
    ensures Click(MenuItems(None, false, false)[0]) == [CallDelete, CallClose]
  {
  }
}
