/**
 * The popup controller of lesson 07: the object returned by the mention
 * suggestion's `render()`. It is a closure over three variables, `popup`
 * (a `div` created for the menu), `root` (the React root rendered into it)
 * and `component` (the mounted menu's imperative handle), driven by the
 * editor through `onStart`, `onUpdate`, `onKeyDown` and `onExit`.
 *
 * The editor calls `render()` once per editor, so the same three variables
 * live across successive suggestion sessions. Creating the React root waits
 * for a dynamic `import('react-dom/client')`; the continuation that runs
 * when it resolves is the separate step `FinishMount` below.
 */
module SuggestionPopup {
  import opened Wrappers
  import opened SuggestionList

  const ESCAPE: string := "Escape"

  /** The node held by `popup`: still attached to `document.body`, or removed from it. */
  datatype PopupNode = PopupNode(attached: bool)

  /** The React root held by `root`: rendering, or unmounted by `onExit`. */
  datatype RootState = Live | Unmounted

  /**
   * The controller's variables as values: `popup`, `root`, whether a menu
   * is mounted in `component`, and how many `import(...).then` continuations
   * are still waiting to create a root.
   */
  datatype Session = Session(popup: Option<PopupNode>, root: Option<RootState>, mounted: bool, pending: nat)

  /** The closure's variables before any callback ran: all `undefined`. */
  const INITIAL: Session := Session(None, None, false, 0)

  /** A mounted menu exists exactly while the root is live. */
  predicate SessionOk(s: Session)
  {
    s.mounted <==> s.root == Some(Live)
  }

  /** `onStart`: without a `clientRect`, nothing; otherwise a new attached node and one more pending mount. */
  function StartStep(s: Session, hasClientRect: bool): (r: Session)
    ensures !hasClientRect ==> r == s
    ensures hasClientRect ==> r.popup == Some(PopupNode(true)) && r.pending == s.pending + 1
    ensures r.root == s.root && r.mounted == s.mounted
  {
    if !hasClientRect then s
    else s.(popup := Some(PopupNode(true)), pending := s.pending + 1)
  }

  /** The continuation of `import('react-dom/client')`: a new live root with a mounted menu. */
  function MountStep(s: Session): (r: Session)
    requires s.pending > 0
    ensures r.root == Some(Live) && r.mounted && SessionOk(r)
    ensures r.popup == s.popup && r.pending == s.pending - 1
  {
    s.(root := Some(Live), mounted := true, pending := s.pending - 1)
  }

  /** Escape in `onKeyDown`: `popup?.remove()`; `popup` and `root` keep their values. */
  function EscapeStep(s: Session): (r: Session)
    ensures r.popup.Some? <==> s.popup.Some?
    ensures r.popup.Some? ==> !r.popup.value.attached
    ensures r.root == s.root && r.mounted == s.mounted && r.pending == s.pending
  {
    if s.popup.Some? then s.(popup := Some(PopupNode(false))) else s
  }

  /** `onExit`: `root?.unmount()` (which also clears `component`) and `popup?.remove()`. */
  function ExitStep(s: Session): (r: Session)
    ensures SessionOk(s) ==> !r.mounted
    ensures r.root != Some(Live) && (r.popup.Some? ==> !r.popup.value.attached)
    ensures r.popup.Some? <==> s.popup.Some?
    ensures r.root.Some? <==> s.root.Some?
    ensures r.pending == s.pending
  {
    Session(if s.popup.Some? then Some(PopupNode(false)) else None,
            if s.root.Some? then Some(Unmounted) else None,
            if s.root.Some? then false else s.mounted,
            s.pending)
  }

  /**
   * Whether `onUpdate` throws: with a popup held it calls `props.clientRect()`
   * without checking that the editor supplied one.
   */
  predicate UpdateThrows(s: Session, hasClientRect: bool): (b: bool)
    ensures hasClientRect ==> !b
    ensures s.popup.None? ==> !b
  {
    s.popup.Some? && !hasClientRect
  }

  /** Whether `onUpdate` re-renders the menu: a popup is held, the call did not throw, and the root is live. */
  predicate UpdateRenders(s: Session, hasClientRect: bool): (b: bool)
    ensures b ==> hasClientRect && s.popup.Some? && !UpdateThrows(s, hasClientRect)
    ensures b && SessionOk(s) ==> s.mounted
  {
    s.popup.Some? && !UpdateThrows(s, hasClientRect) && s.root == Some(Live)
  }

  /** Every step keeps the mounted menu and the live root in step with each other. */
  lemma StepsKeepSessionOk(s: Session, hasClientRect: bool)
    requires SessionOk(s)
    ensures SessionOk(StartStep(s, hasClientRect))
    ensures SessionOk(EscapeStep(s))
    ensures SessionOk(ExitStep(s))
  {
  }

  /** `onExit` is idempotent. */
  lemma ExitIdempotent(s: Session)
    ensures ExitStep(ExitStep(s)) == ExitStep(s)
  {
  }

  /** `onStart` without a `clientRect` on a fresh controller leaves nothing to remove, render or ask. */
  lemma StartWithoutRectCreatesNothing()
    ensures StartStep(INITIAL, false).popup.None?
    ensures !StartStep(INITIAL, false).mounted && StartStep(INITIAL, false).pending == 0
  {
  }

  /** Escape detaches the node but keeps it in `popup` and keeps the root, so a later `onUpdate` still renders. */
  lemma UpdateAfterEscapeStillRenders(s: Session, hasClientRect: bool)
    ensures UpdateRenders(EscapeStep(s), hasClientRect) == UpdateRenders(s, hasClientRect)
  {
  }

  /**
   * When `onExit` runs before the dynamic import resolved, the continuation
   * still creates a live root and mounts a menu afterwards, into a node that
   * is no longer attached, and no later `onExit` of that session unmounts it.
   */
  lemma ExitBeforeMountLeavesMenuMounted(s: Session)
    requires s.pending > 0 && s.popup.Some?
    ensures MountStep(ExitStep(s)).mounted
    ensures !MountStep(ExitStep(s)).popup.value.attached
  {
  }

  /** What the menu shows the controller: its items and its selected index. */
  datatype MenuView<T> = MenuView(items: seq<T>, selected: Index)

  /** `onKeyDown`'s answer: true for Escape, else the mounted menu's answer, or false when none is mounted. */
  function PopupKeyDown<T>(menu: Option<MenuView<T>>, key: string): (r: bool)
    ensures key == ESCAPE ==> r
    ensures key != ESCAPE && menu.None? ==> !r
    ensures key != ESCAPE && menu.Some? ==> (r <==> key == ARROW_UP || key == ARROW_DOWN || key == ENTER)
  {
    if key == ESCAPE then true
    else match menu
      case None => false
      case Some(m) => KeyDown(m.items, m.selected, key).handled
  }

  /** The render controller: the three closure variables and the pending import continuations. */
  class PopupController<T> {
    var popup: Option<PopupNode>
    var root: Option<RootState>
    var component: MentionList?<T>
    /** The `items` each pending continuation will render, oldest first. */
    var pendingMounts: seq<seq<T>>

    ghost predicate Valid()
      reads this, component
    {
      (component != null <==> root == Some(Live)) &&
      (component != null ==> component.Valid())
    }

    /** The controller's variables as a `Session` value. */
    ghost function State(): Session
      reads this
    {
      Session(popup, root, component != null, |pendingMounts|)
    }

    /** The menu the controller would consult, as a value. */
    ghost function Menu(): Option<MenuView<T>>
      reads this, component
    {
      if component == null then None else Some(MenuView(component.items, component.selectedIndex))
    }

    /** `render()`: `let component; let popup; let root;`. */
    constructor ()
      ensures Valid() && State() == INITIAL && pendingMounts == []
    {
      popup := None;
      root := None;
      component := null;
      pendingMounts := [];
    }

    /** `onStart(props)`. The position of the node is not modelled. */
    method OnStart(hasClientRect: bool, items: seq<T>)
      requires Valid()
      modifies this
      ensures Valid() && State() == StartStep(old(State()), hasClientRect)
      ensures component == old(component)
      ensures pendingMounts == if hasClientRect then old(pendingMounts) + [items] else old(pendingMounts)
    {
      if !hasClientRect {
        return;
      }
      popup := Some(PopupNode(true));
      pendingMounts := pendingMounts + [items];
    }

    /** The `.then(({ createRoot }) => ...)` continuation of the oldest pending `onStart`. */
    method FinishMount()
      requires Valid() && pendingMounts != []
      modifies this
      ensures Valid() && State() == MountStep(old(State()))
      ensures fresh(component) && component.items == old(pendingMounts)[0]
      ensures component.selectedIndex == Num(0) && component.commands == []
      ensures pendingMounts == old(pendingMounts)[1..]
    {
      root := Some(Live);
      component := new MentionList(pendingMounts[0]);
      pendingMounts := pendingMounts[1..];
    }

    /**
     * `onUpdate(props)`: without a popup nothing happens; a missing `clientRect`
     * makes the callback throw before it renders; otherwise a live root gets the
     * new items.
     */
    method OnUpdate(hasClientRect: bool, items: seq<T>) returns (threw: bool)
      requires Valid()
      modifies component
      ensures Valid()
      ensures threw == UpdateThrows(State(), hasClientRect)
      ensures UpdateRenders(State(), hasClientRect) ==> component.items == items && component.selectedIndex == Num(0)
      ensures UpdateRenders(State(), hasClientRect) ==> component.commands == old(component.commands)
      ensures !UpdateRenders(State(), hasClientRect) ==> component == null || unchanged(component)
    {
      if popup.None? {
        return false;
      }
      if !hasClientRect {
        return true;
      }
      if root == Some(Live) {
        component.SetItems(items);
      }
      return false;
    }

    /** `onKeyDown(props)`: Escape removes the node and answers true without asking the menu. */
    method OnKeyDown(key: string) returns (handled: bool)
      requires Valid()
      modifies this, component
      ensures Valid() && component == old(component) && pendingMounts == old(pendingMounts)
      ensures handled == PopupKeyDown(old(Menu()), key)
      ensures key == ESCAPE ==> State() == EscapeStep(old(State())) && (component != null ==> unchanged(component))
      ensures key != ESCAPE ==> State() == old(State())
      ensures key != ESCAPE && component != null ==>
                var r := KeyDown(old(component.items), old(component.selectedIndex), key);
                component.items == old(component.items) && component.selectedIndex == r.selected &&
                component.commands == old(component.commands) + ToSeq(r.command)
    {
      if key == ESCAPE {
        if popup.Some? {
          popup := Some(PopupNode(false));
        }
        return true;
      }
      if component == null {
        return false;
      }
      handled := component.OnKeyDown(key);
    }

    /** `onExit()`: unmount the root, which clears `component`, and remove the node; safe to repeat. */
    method OnExit()
      requires Valid()
      modifies this
      ensures Valid() && State() == ExitStep(old(State()))
      ensures pendingMounts == old(pendingMounts)
    {
      if root.Some? {
        root := Some(Unmounted);
        component := null;
      }
      if popup.Some? {
        popup := Some(PopupNode(false));
      }
    }
  }
}
