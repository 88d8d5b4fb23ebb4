/**
 * The recent-transactions table (components/TransactionsTable.tsx): one row per
 * transaction, each with a trigger button that opens a floating action menu.
 * At most one menu is open: the open one is named by a single optional row id.
 * DOM measurements enter as integers: a button's bounding box (viewport
 * coordinates), the page's scroll offset and the viewport height.
 */
module TransactionsTable {
  import opened Types

  /** Width of the menu (Tailwind `w-48`); the menu's right edge lines up with the button's. */
  const MenuWidth: int := 192
  /** Room the menu is assumed to need below the button before it flips above it. */
  const RoomBelow: int := 200
  /** Gap between the button's bottom edge and a menu shown below it. */
  const GapBelow: int := 5
  /** How far above the button's top edge a flipped menu starts. */
  const RaiseAbove: int := 180

  /** The parts of a button's bounding box that placement reads. */
  datatype Rect = Rect(top: int, bottom: int, right: int)

  datatype Position = Position(top: int, left: int)

  /** The component's state: the row whose menu is open, if any, and where the menu sits. */
  datatype MenuState = MenuState(activeMenuId: Option<string>, position: Position)

  const InitialMenuState: MenuState := MenuState(None, Position(0, 0))

  /** JavaScript truthiness of the optional id: the empty string counts as no menu. */
  predicate Truthy(id: Option<string>)
  {
    id.Some? && id.value != ""
  }

  /** `window.scrollY || document.documentElement.scrollTop`: a zero scrollY falls through to the second. */
  function ScrollTop(scrollY: int, documentScrollTop: int): (r: int)
    ensures scrollY == 0 ==> r == documentScrollTop
    ensures scrollY != 0 ==> r == scrollY
  {
    if scrollY != 0 then scrollY else documentScrollTop
  }

  /** Where the code as written puts the menu: in page coordinates, although the menu is `position: fixed`. */
  function PlacementAsWritten(rect: Rect, scrollTop: int, innerHeight: int): (p: Position)
    ensures p.left + MenuWidth == rect.right
  {
    var top := if rect.bottom + RoomBelow > innerHeight
      then rect.top + scrollTop - RaiseAbove
      else rect.bottom + scrollTop + GapBelow;
    Position(top, rect.right - MenuWidth)
  }

  /** Where the menu belongs: in viewport coordinates, the ones a fixed element and the bounding box share. */
  function Placement(rect: Rect, innerHeight: int): (p: Position)
    ensures p.left + MenuWidth == rect.right
    ensures p.top == rect.bottom + GapBelow || p.top == rect.top - RaiseAbove
  {
    var top := if rect.bottom + RoomBelow > innerHeight
      then rect.top - RaiseAbove
      else rect.bottom + GapBelow;
    Position(top, rect.right - MenuWidth)
  }

  /** `handleActionClick(id)`: the open row's trigger closes its menu; another registered trigger opens its own. */
  function ActionClick(s: MenuState, id: string, buttons: map<string, Rect>, innerHeight: int): (r: MenuState)
    ensures r.activeMenuId == None || r.activeMenuId == Some(id) || r == s
    ensures r.activeMenuId != Some(id) ==> r.position == s.position
  {
    if s.activeMenuId == Some(id) then s.(activeMenuId := None)
    else if id in buttons then MenuState(Some(id), Placement(buttons[id], innerHeight))
    else s
  }

  /** The scroll listener: closes a (truthy) open menu. */
  function Scroll(s: MenuState): (r: MenuState)
    ensures !Truthy(r.activeMenuId) && r.position == s.position
  {
    if Truthy(s.activeMenuId) then s.(activeMenuId := None) else s
  }

  /** The mousedown listener: a press inside neither the menu nor a trigger closes the menu. */
  function MouseDown(s: MenuState, insideMenu: bool, insideButton: bool): (r: MenuState)
    ensures r.position == s.position
    ensures r.activeMenuId == s.activeMenuId || r.activeMenuId == None
  {
    if !insideMenu && !insideButton then s.(activeMenuId := None) else s
  }

  /** `handleMenuAction`: any of the menu's entries closes it. */
  function MenuAction(s: MenuState): (r: MenuState)
    ensures !MenuRendered(r) && r.activeMenuId.None? && r.position == s.position
  {
    s.(activeMenuId := None)
  }

  /** The portal holding the menu is rendered only for a truthy id. */
  predicate MenuRendered(s: MenuState)
  {
    Truthy(s.activeMenuId)
  }

  /** The entries of the menu. */
  datatype MenuEntry = VerDetalles | DescargarPdf | Archivar | Eliminar

  /** The colour family of a status badge. */
  datatype Tone = Emerald | Amber | Red

  function StatusTone(st: TxStatus): Tone
  {
    if st == Completado then Emerald else if st == Pendiente then Amber else Red
  }

  /** One rendered row: the transaction, its badge tone, and whether its trigger shows as active. */
  datatype Row = Row(tx: Transaction, tone: Tone, triggerActive: bool)

  function RenderRow(t: Transaction, s: MenuState): Row
  {
    Row(t, StatusTone(t.status), s.activeMenuId == Some(t.id))
  }

  /** The table body: every transaction, in input order; there is no filter. */
  function Rows(txs: seq<Transaction>, s: MenuState): (rows: seq<Row>)
    ensures |rows| == |txs|
  {
    seq(|txs|, i requires 0 <= i < |txs| => RenderRow(txs[i], s))
  }

  // ---------------------------------------------------------------------------
  // Placement

  /** The menu's right edge meets the button's; it sits just below the button, or above it when there is no room. */
  lemma PlacementSpec(rect: Rect, innerHeight: int)
    ensures Placement(rect, innerHeight).left + MenuWidth == rect.right
    ensures rect.bottom + RoomBelow <= innerHeight ==> Placement(rect, innerHeight).top == rect.bottom + GapBelow
    ensures rect.bottom + RoomBelow > innerHeight ==> Placement(rect, innerHeight).top == rect.top - RaiseAbove
  {
  }

  /** The code as written: default below, flipped above, left the same either way. */
  lemma PlacementAsWrittenSpec(rect: Rect, scrollTop: int, innerHeight: int)
    ensures PlacementAsWritten(rect, scrollTop, innerHeight).left == rect.right - 192
    ensures rect.bottom + 200 <= innerHeight ==> PlacementAsWritten(rect, scrollTop, innerHeight).top == rect.bottom + scrollTop + 5
    ensures rect.bottom + 200 > innerHeight ==> PlacementAsWritten(rect, scrollTop, innerHeight).top == rect.top + scrollTop - 180
  {
  }

  /** As written, the fixed menu is pushed down by exactly the scroll offset; the two agree only on an unscrolled page. */
  lemma PlacementAsWrittenOffsetByScroll(rect: Rect, scrollTop: int, innerHeight: int)
    ensures PlacementAsWritten(rect, scrollTop, innerHeight).top == Placement(rect, innerHeight).top + scrollTop
    ensures PlacementAsWritten(rect, scrollTop, innerHeight).left == Placement(rect, innerHeight).left
    ensures PlacementAsWritten(rect, scrollTop, innerHeight) == Placement(rect, innerHeight) <==> scrollTop == 0
  {
  }

  /** A page scrolled by 300 px: the menu opens 305 px below its button instead of 5. */
  lemma PlacementAsWrittenCounterexample()
    ensures PlacementAsWritten(Rect(60, 100, 500), ScrollTop(300, 0), 800).top - 100 == 305
    ensures Placement(Rect(60, 100, 500), 800).top - 100 == GapBelow
  {
  }

  // ---------------------------------------------------------------------------
  // The menu's state machine

  /** Pressing the trigger of the row whose menu is open closes it and keeps the position. */
  lemma ClickOpenRowCloses(s: MenuState, id: string, buttons: map<string, Rect>, innerHeight: int)
    requires s.activeMenuId == Some(id)
    ensures ActionClick(s, id, buttons, innerHeight) == MenuState(None, s.position)
  {
  }

  /** Pressing a registered trigger of another row (or with none open) opens that row's menu directly, placed at its button. */
  lemma ClickOtherRowOpens(s: MenuState, id: string, buttons: map<string, Rect>, innerHeight: int)
    requires s.activeMenuId != Some(id) && id in buttons
    ensures ActionClick(s, id, buttons, innerHeight).activeMenuId == Some(id)
    ensures ActionClick(s, id, buttons, innerHeight).position == Placement(buttons[id], innerHeight)
  {
  }

  /** A trigger with no registered button changes nothing unless its menu is the open one. */
  lemma ClickUnregisteredNoChange(s: MenuState, id: string, buttons: map<string, Rect>, innerHeight: int)
    requires s.activeMenuId != Some(id) && id !in buttons
    ensures ActionClick(s, id, buttons, innerHeight) == s
  {
  }

  /** A press on a trigger first reaches the mousedown listener, which ignores it, then the click handler. */
  lemma TriggerPressIsActionClick(s: MenuState, id: string, buttons: map<string, Rect>, innerHeight: int)
    ensures ActionClick(MouseDown(s, false, true), id, buttons, innerHeight) == ActionClick(s, id, buttons, innerHeight)
  {
  }

  /** A press on a menu entry passes the mousedown listener and then closes the menu. */
  lemma EntryPressCloses(s: MenuState)
    ensures MenuAction(MouseDown(s, true, false)) == MenuState(None, s.position)
    ensures !MenuRendered(MenuAction(MouseDown(s, true, false)))
  {
  }

  /** Scrolling closes an open menu (with a non-empty id) and keeps the position; with none open it changes nothing. */
  lemma ScrollCloses(s: MenuState)
    ensures Truthy(s.activeMenuId) ==> Scroll(s) == MenuState(None, s.position)
    ensures s.activeMenuId == None ==> Scroll(s) == s
    ensures !MenuRendered(Scroll(s))
  {
  }

  /** A press outside both the menu and every trigger closes the menu; any other press leaves the state alone. */
  lemma MouseDownSpec(s: MenuState, insideMenu: bool, insideButton: bool)
    ensures !insideMenu && !insideButton ==> MouseDown(s, insideMenu, insideButton) == MenuState(None, s.position)
    ensures insideMenu || insideButton ==> MouseDown(s, insideMenu, insideButton) == s
  {
  }

  /** For the non-empty ids rows have, the menu is on screen exactly while a row id is held. */
  lemma MenuRenderedIffOpen(s: MenuState)
    requires s.activeMenuId != Some("")
    ensures MenuRendered(s) <==> s.activeMenuId.Some?
  {
  }

  // ---------------------------------------------------------------------------
  // The table body

  /** The body lists every transaction in input order, and only the row whose menu is open shows its trigger as active. */
  lemma RowsSpec(txs: seq<Transaction>, s: MenuState)
    ensures |Rows(txs, s)| == |txs|
    ensures forall i :: 0 <= i < |txs| ==> Rows(txs, s)[i].tx == txs[i]
    ensures forall i :: 0 <= i < |txs| ==> (Rows(txs, s)[i].triggerActive <==> s.activeMenuId == Some(txs[i].id))
  {
  }

  /** With distinct transaction ids, at most one row shows an active trigger. */
  lemma AtMostOneActiveRow(txs: seq<Transaction>, s: MenuState, i: int, j: int)
    requires forall a, b :: 0 <= a < b < |txs| ==> txs[a].id != txs[b].id
    requires 0 <= i < |txs| && 0 <= j < |txs|
    requires Rows(txs, s)[i].triggerActive && Rows(txs, s)[j].triggerActive
    ensures i == j
  {
  }

  /** Each status gets its own badge colour. */
  lemma StatusToneInjective(a: TxStatus, b: TxStatus)
    ensures StatusTone(a) == StatusTone(b) <==> a == b
  {
  }

  // ---------------------------------------------------------------------------
  // The component, with the state it updates in place

  class ActionMenu {
    var activeMenuId: Option<string>
    var position: Position

    function State(): MenuState
      reads this
    {
      MenuState(activeMenuId, position)
    }

    constructor ()
      ensures State() == InitialMenuState
    {
      activeMenuId := None;
      position := Position(0, 0);
    }

    /** `handleActionClick`; `buttons` holds the bounding boxes of the registered trigger buttons. */
    method HandleActionClick(id: string, buttons: map<string, Rect>, innerHeight: int)
      modifies this
      ensures State() == ActionClick(old(State()), id, buttons, innerHeight)
    {
      if activeMenuId == Some(id) {
        activeMenuId := None;
        return;
      }
      if id in buttons {
        var rect := buttons[id];
        var top := rect.bottom + GapBelow;
        var left := rect.right - MenuWidth;
        if rect.bottom + RoomBelow > innerHeight {
          top := rect.top - RaiseAbove;
        }
        position := Position(top, left);
        activeMenuId := Some(id);
      }
    }

    method HandleScroll()
      modifies this
      ensures State() == Scroll(old(State()))
    {
      if Truthy(activeMenuId) {
        activeMenuId := None;
      }
    }

    method HandleMouseDown(insideMenu: bool, insideButton: bool)
      modifies this
      ensures State() == MouseDown(old(State()), insideMenu, insideButton)
    {
      if !insideMenu && !insideButton {
        activeMenuId := None;
      }
    }

    method HandleMenuAction(entry: MenuEntry)
      modifies this
      ensures State() == MenuAction(old(State()))
    {
      activeMenuId := None;
    }
  }
}
