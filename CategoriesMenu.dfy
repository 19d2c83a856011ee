/**
 * CategoriesCommand: the "/jeg categories" command, which lists every item group
 * in a 54-slot chest menu, 45 groups per page, with a filler row and
 * previous/next page buttons.
 *
 * ChestMenu.Populate fills the menu's two arrays in place and is proved against
 * LaidOutItems and LaidOutHandlers; the lemmas state the layout the command promises.
 */
module CategoriesMenu {
  import opened Wrappers
  import opened JavaStrings

  /** An item group: its namespaced key and the lore of its icon (None when the lore is null). */
  datatype ItemGroup = ItemGroup(namespace: string, key: string, lore: Option<seq<string>>)

  /** What a slot shows. */
  datatype Icon = Empty | Background | PreviousButton | NextButton | GroupIcon(id: string, lore: seq<string>)

  /** What a click on a slot does; Repopulate(p) redraws the same menu at page p. */
  datatype Handler = NoHandler | EmptyClick | CopyId(id: string) | Repopulate(page: int)

  const MenuSize: nat := 54
  const PageSize: nat := 45
  const PreviousSlot: nat := 46
  const NextSlot: nat := 52

  /** The group list index shown in content slot `slot` of page `page`. */
  function GroupIndex(page: int, slot: int): int {
    slot + 1 + (page - 1) * PageSize
  }

  /** getItemGroupOrNull: the group at `index`, or None past the end of the list. */
  function GetItemGroupOrNull(groups: seq<ItemGroup>, index: int): Option<ItemGroup>
    requires 0 <= index
  {
    if index < |groups| then Some(groups[index]) else None
  }

  /** The "namespace:key" id shown on a group's icon and copied on click. */
  function GroupId(g: ItemGroup): string {
    g.namespace + ":" + g.key
  }

  function IdLine(id: string): string {
    "&6ID: " + id
  }

  const CopyHint: string := "&a点击复制到聊天栏"

  /**
   * The lore rewrite: the last line (the "click to open" line) becomes the id line and
   * a copy hint is appended. A null or empty lore fails, as set(size() - 1, ...) on an
   * empty list throws IndexOutOfBoundsException.
   */
  function RewriteLore(lore: Option<seq<string>>, id: string): (r: Option<seq<string>>)
    ensures r.None? <==> lore.None? || lore.value == []
    ensures r.Some? ==>
      var n := |lore.value|;
      && |r.value| == n + 1
      && r.value[..n - 1] == lore.value[..n - 1]
      && r.value[n - 1] == IdLine(id)
      && r.value[n] == CopyHint
  {
    match lore
    case None => None
    case Some(lines) =>
      if lines == [] then None
      else Some(lines[..|lines| - 1] + [IdLine(id), CopyHint])
  }

  /** The icon content slot `slot` receives, or None when it has no group or its lore fails. */
  function SlotIcon(groups: seq<ItemGroup>, page: int, slot: int): Option<Icon>
    requires page >= 1 && 0 <= slot
  {
    match GetItemGroupOrNull(groups, GroupIndex(page, slot))
    case None => None
    case Some(g) =>
      match RewriteLore(g.lore, GroupId(g))
      case None => None
      case Some(lore) => Some(GroupIcon(GroupId(g), lore))
  }

  /** Slot `slot` has a group whose lore rewrite throws. */
  predicate SlotFails(groups: seq<ItemGroup>, page: int, slot: int)
    requires page >= 1 && 0 <= slot
  {
    var g := GetItemGroupOrNull(groups, GroupIndex(page, slot));
    g.Some? && RewriteLore(g.value.lore, GroupId(g.value)).None?
  }

  /** The first content slot at or after `slot` whose lore rewrite throws; PageSize if none does. */
  function FirstFailureFrom(groups: seq<ItemGroup>, page: int, slot: nat): (f: nat)
    requires page >= 1 && slot <= PageSize
    ensures slot <= f <= PageSize
    ensures forall k :: slot <= k < f ==> !SlotFails(groups, page, k)
    ensures f < PageSize ==> SlotFails(groups, page, f)
    decreases PageSize - slot
  {
    if slot == PageSize then PageSize
    else if SlotFails(groups, page, slot) then slot
    else FirstFailureFrom(groups, page, slot + 1)
  }

  /** Where populating page `page` stops with an exception; PageSize when it completes. */
  function FailSlot(groups: seq<ItemGroup>, page: int): nat
    requires page >= 1
  {
    FirstFailureFrom(groups, page, 0)
  }

  /** Whether the next-page button is placed: the group list has index 45 * page. */
  predicate HasNextPage(groups: seq<ItemGroup>, page: int)
    requires page >= 1
  {
    GetItemGroupOrNull(groups, PageSize * page).Some?
  }

  /** Content slot `slot` after its loop step: the group's icon, or what it held before. */
  function ContentItem(before: Icon, groups: seq<ItemGroup>, page: int, slot: nat): Icon
    requires page >= 1
  {
    match SlotIcon(groups, page, slot)
    case Some(icon) => icon
    case None => before
  }

  /** The handler of content slot `slot` after its loop step. */
  function ContentHandler(groups: seq<ItemGroup>, page: int, slot: nat): Handler
    requires page >= 1
  {
    match SlotIcon(groups, page, slot)
    case Some(icon) => CopyId(icon.id)
    case None => EmptyClick
  }

  /** Footer slot `slot` (45 to 53); the buttons are placed only when the content loop completed. */
  function FooterItem(groups: seq<ItemGroup>, page: int, completed: bool, slot: nat): Icon
    requires page >= 1
  {
    if slot == PreviousSlot && completed && page != 1 then PreviousButton
    else if slot == NextSlot && completed && HasNextPage(groups, page) then NextButton
    else Background
  }

  function FooterHandler(groups: seq<ItemGroup>, page: int, completed: bool, slot: nat): Handler
    requires page >= 1
  {
    if slot == PreviousSlot && completed && page != 1 then Repopulate(page - 1)
    else if slot == NextSlot && completed && HasNextPage(groups, page) then Repopulate(page + 1)
    else EmptyClick
  }

  /** The items of the menu after populating page `page` over the items `before`. */
  function LaidOutItems(before: seq<Icon>, groups: seq<ItemGroup>, page: int): seq<Icon>
    requires |before| == MenuSize && page >= 1
  {
    var f := FailSlot(groups, page);
    seq(MenuSize, k requires 0 <= k < MenuSize =>
      if k >= PageSize then FooterItem(groups, page, f == PageSize, k)
      else if k < f then ContentItem(before[k], groups, page, k)
      else before[k])
  }

  /** The click handlers of the menu after populating page `page`. */
  function LaidOutHandlers(groups: seq<ItemGroup>, page: int): seq<Handler>
    requires page >= 1
  {
    var f := FailSlot(groups, page);
    seq(MenuSize, k requires 0 <= k < MenuSize =>
      if k >= PageSize then FooterHandler(groups, page, f == PageSize, k)
      else if k < f then ContentHandler(groups, page, k)
      else EmptyClick)
  }

  /** One step of the content loop, spelled out for the group it finds. */
  lemma SlotStep(groups: seq<ItemGroup>, page: int, slot: nat)
    requires page >= 1 && slot < PageSize
    ensures var g := GetItemGroupOrNull(groups, GroupIndex(page, slot));
      && (g.None? ==> !SlotFails(groups, page, slot) && SlotIcon(groups, page, slot).None?)
      && (g.Some? && RewriteLore(g.value.lore, GroupId(g.value)).None? ==>
            SlotFails(groups, page, slot) && FirstFailureFrom(groups, page, slot) == slot)
      && (g.Some? && RewriteLore(g.value.lore, GroupId(g.value)).Some? ==>
            !SlotFails(groups, page, slot)
            && SlotIcon(groups, page, slot) == Some(GroupIcon(GroupId(g.value), RewriteLore(g.value.lore, GroupId(g.value)).value)))
      && (!SlotFails(groups, page, slot) ==> FirstFailureFrom(groups, page, slot) == FirstFailureFrom(groups, page, slot + 1))
  {
  }

  /** The chest menu: one icon and one click handler per slot. */
  class ChestMenu {
    const items: array<Icon>
    const handlers: array<Handler>

    ghost predicate Valid()
      reads this
    {
      items.Length == MenuSize && handlers.Length == MenuSize
    }

    /** new ChestMenu(title) with setSize(54): every slot empty and without a handler. */
    constructor ()
      ensures Valid() && fresh(items) && fresh(handlers)
      ensures forall k :: 0 <= k < MenuSize ==> items[k] == Empty && handlers[k] == NoHandler
    {
      items := new Icon[MenuSize](_ => Empty);
      handlers := new Handler[MenuSize](_ => NoHandler);
    }

    /**
     * populateCategoryMenu(menu, groups, page, player). Returns false when a group's
     * lore rewrite throws; the menu then keeps what was written before the throw.
     */
    method Populate(groups: seq<ItemGroup>, page: int) returns (ok: bool)
      requires Valid() && page >= 1
      modifies items, handlers
      ensures ok <==> FailSlot(groups, page) == PageSize
      ensures items[..] == LaidOutItems(old(items[..]), groups, page)
      ensures handlers[..] == LaidOutHandlers(groups, page)
    {
      ghost var before := items[..];
      ClearHandlers();
      FillFooter();
      ok := FillContent(groups, page);
      ghost var f := FailSlot(groups, page);
      assert forall k :: 0 <= k < PageSize ==>
        handlers[k] == (if k < f then ContentHandler(groups, page, k) else EmptyClick);
      if !ok {
        assert forall k :: PageSize <= k < MenuSize ==> handlers[k] == EmptyClick;
        assert forall k :: PageSize <= k < MenuSize ==> FooterHandler(groups, page, false, k) == EmptyClick;
        assert forall k :: 0 <= k < MenuSize ==> items[k] == LaidOutItems(before, groups, page)[k];
        assert forall k :: 0 <= k < MenuSize ==> handlers[k] == LaidOutHandlers(groups, page)[k];
        return;
      }
      PlaceButtons(groups, page);
      assert forall k :: 0 <= k < MenuSize ==> items[k] == LaidOutItems(before, groups, page)[k];
      assert forall k :: 0 <= k < MenuSize ==> handlers[k] == LaidOutHandlers(groups, page)[k];
    }

    /** The previous-page and next-page buttons, each under its own condition. */
    method PlaceButtons(groups: seq<ItemGroup>, page: int)
      requires Valid() && page >= 1
      requires forall k :: PageSize <= k < MenuSize ==> items[k] == Background && handlers[k] == EmptyClick
      modifies items, handlers
      ensures forall k :: PageSize <= k < MenuSize ==>
        items[k] == FooterItem(groups, page, true, k) && handlers[k] == FooterHandler(groups, page, true, k)
      ensures forall k :: 0 <= k < PageSize ==> items[k] == old(items[k]) && handlers[k] == old(handlers[k])
    {
      if page != 1 {
        items[PreviousSlot] := PreviousButton;
        handlers[PreviousSlot] := Repopulate(page - 1);
      }
      if GetItemGroupOrNull(groups, PageSize * page).Some? {
        items[NextSlot] := NextButton;
        handlers[NextSlot] := Repopulate(page + 1);
      }
    }

    /** The first loop: every slot gets the empty click handler. */
    method ClearHandlers()
      requires Valid()
      modifies handlers
      ensures forall k :: 0 <= k < MenuSize ==> handlers[k] == EmptyClick
    {
      for i := 0 to MenuSize
        invariant forall k :: 0 <= k < i ==> handlers[k] == EmptyClick
      {
        handlers[i] := EmptyClick;
      }
    }

    /** The second loop: slots 45 to 53 get the background filler. */
    method FillFooter()
      requires Valid()
      modifies items
      ensures forall k :: 0 <= k < PageSize ==> items[k] == old(items[k])
      ensures forall k :: PageSize <= k < MenuSize ==> items[k] == Background
    {
      for i := PageSize to MenuSize
        invariant forall k :: 0 <= k < PageSize ==> items[k] == old(items[k])
        invariant forall k :: PageSize <= k < i ==> items[k] == Background
      {
        items[i] := Background;
      }
    }

    /**
     * The third loop: each content slot with a group gets the group's icon and the
     * copy handler; it stops at the first group whose lore rewrite throws.
     */
    method FillContent(groups: seq<ItemGroup>, page: int) returns (ok: bool)
      requires Valid() && page >= 1
      requires forall k :: 0 <= k < PageSize ==> handlers[k] == EmptyClick
      modifies items, handlers
      ensures ok <==> FailSlot(groups, page) == PageSize
      ensures forall k :: 0 <= k < PageSize ==>
        && items[k] == (if k < FailSlot(groups, page) then ContentItem(old(items[k]), groups, page, k) else old(items[k]))
        && handlers[k] == (if k < FailSlot(groups, page) then ContentHandler(groups, page, k) else old(handlers[k]))
      ensures forall k :: PageSize <= k < MenuSize ==> items[k] == old(items[k]) && handlers[k] == old(handlers[k])
    {
      for i := 0 to PageSize
        invariant FailSlot(groups, page) == FirstFailureFrom(groups, page, i)
        invariant forall k :: 0 <= k < i ==>
          items[k] == ContentItem(old(items[k]), groups, page, k) && handlers[k] == ContentHandler(groups, page, k)
        invariant forall k :: i <= k < MenuSize ==> items[k] == old(items[k]) && handlers[k] == old(handlers[k])
        invariant forall k :: i <= k < PageSize ==> handlers[k] == EmptyClick
      {
        var failed := FillSlot(groups, page, i);
        if failed {
          return false;
        }
      }
      ok := true;
    }

    /** One step of the third loop: content slot `slot`. */
    method FillSlot(groups: seq<ItemGroup>, page: int, slot: nat) returns (failed: bool)
      requires Valid() && page >= 1 && slot < PageSize
      requires handlers[slot] == EmptyClick
      modifies items, handlers
      ensures failed <==> SlotFails(groups, page, slot)
      ensures failed ==> FirstFailureFrom(groups, page, slot) == slot
      ensures !failed ==> FirstFailureFrom(groups, page, slot) == FirstFailureFrom(groups, page, slot + 1)
      ensures !failed ==> items[slot] == ContentItem(old(items[slot]), groups, page, slot)
      ensures !failed ==> handlers[slot] == ContentHandler(groups, page, slot)
      ensures forall k :: 0 <= k < MenuSize && k != slot ==> items[k] == old(items[k])
      ensures forall k :: 0 <= k < MenuSize && k != slot ==> handlers[k] == old(handlers[k])
      ensures failed ==> items[slot] == old(items[slot]) && handlers[slot] == old(handlers[slot])
    {
      var g := GetItemGroupOrNull(groups, GroupIndex(page, slot));
      SlotStep(groups, page, slot);
      failed := false;
      if g.Some? {
        var id := GroupId(g.value);
        var lore := RewriteLore(g.value.lore, id);
        if lore.None? {
          return true;
        }
        items[slot] := GroupIcon(id, lore.value);
        handlers[slot] := CopyId(id);
      }
    }
  }

  /** canCommand: an operator with the single argument "categories", in any letter case. */
  function CanCommand(isOp: bool, args: seq<string>): (r: bool)
    ensures r ==> isOp && |args| == 1
  {
    isOp && |args| == 1 && EqualsIgnoreCase("categories", args[0])
  }

  /** onTabCompleteRaw: offers "categories" for a lone argument and nothing otherwise; every offer passes canCommand for an operator. */
  function TabComplete(args: seq<string>): (r: seq<string>)
    ensures |args| == 1 ==> r == ["categories"]
    ensures r == [] <==> |args| != 1
    ensures forall c :: c in r ==> CanCommand(true, [c])
  {
    if |args| == 1 then
      CanCommandIff(true, ["categories"]);
      LowerCaseIs("categories", "categories");
      ["categories"]
    else []
  }

  /** Content slots never show list index 0, and page `page` covers indices 45 * (page - 1) + 1 to 45 * page. */
  lemma GroupIndexRange(page: int, slot: int)
    requires page >= 1 && 0 <= slot < PageSize
    ensures PageSize * (page - 1) + 1 <= GroupIndex(page, slot) <= PageSize * page
    ensures GroupIndex(page, slot) != 0
  {
  }

  /** No list index is shown in two slots of the same page or on two pages. */
  lemma {:induction false} GroupIndexInjective(p1: int, s1: int, p2: int, s2: int)
    requires p1 >= 1 && p2 >= 1 && 0 <= s1 < PageSize && 0 <= s2 < PageSize
    requires GroupIndex(p1, s1) == GroupIndex(p2, s2)
    ensures p1 == p2 && s1 == s2
  {
    if p1 < p2 {
      GroupIndexRange(p1, s1);
      GroupIndexRange(p2, s2);
    } else if p2 < p1 {
      GroupIndexRange(p1, s1);
      GroupIndexRange(p2, s2);
    }
  }

  /** Every list index from 1 on has a page and a content slot that show it. */
  lemma EveryIndexHasASlot(n: int)
    requires n >= 1
    ensures var page := (n - 1) / PageSize + 1;
      var slot := (n - 1) % PageSize;
      page >= 1 && 0 <= slot < PageSize && GroupIndex(page, slot) == n
  {
  }

  /**
   * When the content loop completes, content slot k shows the group at list index
   * GroupIndex(page, k) with its rewritten lore and the copy handler exactly when that
   * index exists; otherwise it keeps its previous item and only the empty handler.
   */
  lemma ContentSlotShowsGroup(before: seq<Icon>, groups: seq<ItemGroup>, page: int, k: int)
    requires |before| == MenuSize && page >= 1 && 0 <= k < PageSize
    requires FailSlot(groups, page) == PageSize
    ensures var n := GroupIndex(page, k);
      var items := LaidOutItems(before, groups, page);
      var handlers := LaidOutHandlers(groups, page);
      && (n < |groups| ==>
            && RewriteLore(groups[n].lore, GroupId(groups[n])).Some?
            && items[k] == GroupIcon(GroupId(groups[n]), RewriteLore(groups[n].lore, GroupId(groups[n])).value)
            && handlers[k] == CopyId(GroupId(groups[n])))
      && (n >= |groups| ==> items[k] == before[k] && handlers[k] == EmptyClick)
  {
    assert !SlotFails(groups, page, k);
  }

  /**
   * When the content loop completes, the footer row is background filler with the
   * empty handler, except the previous-page button at slot 46 (page is not 1) and the
   * next-page button at slot 52 (list index 45 * page exists).
   */
  lemma FooterLayout(before: seq<Icon>, groups: seq<ItemGroup>, page: int, k: int)
    requires |before| == MenuSize && page >= 1 && PageSize <= k < MenuSize
    requires FailSlot(groups, page) == PageSize
    ensures var items := LaidOutItems(before, groups, page);
      var handlers := LaidOutHandlers(groups, page);
      && (items[k] == PreviousButton <==> k == PreviousSlot && page != 1)
      && (items[k] == NextButton <==> k == NextSlot && PageSize * page < |groups|)
      && (items[k] == PreviousButton ==> handlers[k] == Repopulate(page - 1))
      && (items[k] == NextButton ==> handlers[k] == Repopulate(page + 1))
      && (items[k] != PreviousButton && items[k] != NextButton ==> items[k] == Background && handlers[k] == EmptyClick)
  {
    assert LaidOutItems(before, groups, page)[k] == FooterItem(groups, page, true, k);
    assert LaidOutHandlers(groups, page)[k] == FooterHandler(groups, page, true, k);
  }

  /** The next-page button tests the index shown in the page's last content slot, 44. */
  lemma NextButtonFollowsLastSlot(before: seq<Icon>, groups: seq<ItemGroup>, page: int)
    requires |before| == MenuSize && page >= 1
    requires FailSlot(groups, page) == PageSize
    ensures LaidOutItems(before, groups, page)[NextSlot] == NextButton
        <==> LaidOutItems(before, groups, page)[PageSize - 1].GroupIcon? && SlotIcon(groups, page, PageSize - 1).Some?
  {
    ContentSlotShowsGroup(before, groups, page, PageSize - 1);
    FooterLayout(before, groups, page, NextSlot);
  }

  /**
   * With exactly 45 * page + 1 groups the next-page button is placed, yet no content
   * slot of the next page finds a group (its first slot asks for index 45 * page + 1):
   * every one keeps the icon it already held, with only the empty handler.
   */
  lemma NextPageMayBeEmpty(before: seq<Icon>, groups: seq<ItemGroup>, page: int)
    requires |before| == MenuSize && page >= 1 && |groups| == PageSize * page + 1
    requires FailSlot(groups, page) == PageSize
    ensures LaidOutItems(before, groups, page)[NextSlot] == NextButton
    ensures LaidOutHandlers(groups, page)[NextSlot] == Repopulate(page + 1)
    ensures FailSlot(groups, page + 1) == PageSize
    ensures forall k :: 0 <= k < PageSize ==>
      LaidOutItems(before, groups, page + 1)[k] == before[k] && LaidOutHandlers(groups, page + 1)[k] == EmptyClick
  {
    FooterLayout(before, groups, page, NextSlot);
    NoFailurePastTheList(groups, page + 1, 0);
    forall k | 0 <= k < PageSize
      ensures LaidOutItems(before, groups, page + 1)[k] == before[k] && LaidOutHandlers(groups, page + 1)[k] == EmptyClick
    {
      ContentSlotShowsGroup(before, groups, page + 1, k);
    }
  }

  /** Slots whose indices lie past the end of the list cannot make the layout stop. */
  lemma {:induction false} NoFailurePastTheList(groups: seq<ItemGroup>, page: int, slot: nat)
    requires page >= 1 && slot <= PageSize && GroupIndex(page, slot) >= |groups|
    ensures FirstFailureFrom(groups, page, slot) == PageSize
    decreases PageSize - slot
  {
    if slot < PageSize {
      NoFailurePastTheList(groups, page, slot + 1);
    }
  }

  /**
   * When a group's lore is null or empty, the layout stops at its slot: that slot and
   * all later content slots keep their items with the empty handler, and neither
   * page button is placed.
   */
  lemma FailureStopsLayout(before: seq<Icon>, groups: seq<ItemGroup>, page: int)
    requires |before| == MenuSize && page >= 1
    requires FailSlot(groups, page) < PageSize
    ensures var n := GroupIndex(page, FailSlot(groups, page));
      n < |groups| && (groups[n].lore.None? || groups[n].lore.value == [])
    ensures forall k :: FailSlot(groups, page) <= k < PageSize ==>
      LaidOutItems(before, groups, page)[k] == before[k] && LaidOutHandlers(groups, page)[k] == EmptyClick
    ensures forall k :: PageSize <= k < MenuSize ==>
      LaidOutItems(before, groups, page)[k] == Background && LaidOutHandlers(groups, page)[k] == EmptyClick
  {
    var f := FailSlot(groups, page);
    assert SlotFails(groups, page, f);
    var g := GetItemGroupOrNull(groups, GroupIndex(page, f));
    assert g.Some? && RewriteLore(g.value.lore, GroupId(g.value)).None?;
    forall k | PageSize <= k < MenuSize
      ensures LaidOutItems(before, groups, page)[k] == Background && LaidOutHandlers(groups, page)[k] == EmptyClick
    {
      assert LaidOutItems(before, groups, page)[k] == FooterItem(groups, page, false, k);
      assert LaidOutHandlers(groups, page)[k] == FooterHandler(groups, page, false, k);
    }
  }

  /** A page button always redraws a page number of at least 1. */
  lemma ButtonsTargetValidPages(groups: seq<ItemGroup>, page: int, k: int)
    requires page >= 1 && 0 <= k < MenuSize
    ensures LaidOutHandlers(groups, page)[k].Repopulate? ==> LaidOutHandlers(groups, page)[k].page >= 1
  {
  }

  /** canCommand accepts exactly an operator's single argument that lower-cases to "categories". */
  lemma CanCommandIff(isOp: bool, args: seq<string>)
    ensures CanCommand(isOp, args) <==> isOp && |args| == 1 && ToLowerCase(args[0]) == "categories"
  {
    if |args| == 1 {
      EqualsIgnoreCaseIsLowerEquality("categories", args[0]);
      LowerCaseIs("categories", "categories");
    }
  }

  /**
   * Pressing the next-page button redraws the same menu over the icons of the page
   * just shown. A content slot whose next-page index lies past the list still shows
   * the group icon of the previous page, now with only the empty handler.
   */
  lemma StaleIconsAfterNextPage(before: seq<Icon>, groups: seq<ItemGroup>, page: int, k: int)
    requires |before| == MenuSize && page >= 1 && 0 <= k < PageSize
    requires FailSlot(groups, page) == PageSize && HasNextPage(groups, page)
    requires GroupIndex(page + 1, k) >= |groups|
    ensures var shown := LaidOutItems(before, groups, page);
      var next := LaidOutItems(shown, groups, page + 1);
      && LaidOutHandlers(groups, page)[NextSlot] == Repopulate(page + 1)
      && shown[k].GroupIcon? && shown[k].id == GroupId(groups[GroupIndex(page, k)])
      && next[k] == shown[k]
      && LaidOutHandlers(groups, page + 1)[k] == EmptyClick
  {
    var shown := LaidOutItems(before, groups, page);
    FooterLayout(before, groups, page, NextSlot);
    ContentSlotShowsGroup(before, groups, page, k);
    SlotStep(groups, page + 1, k);
    var f := FailSlot(groups, page + 1);
    if k < f {
      assert LaidOutItems(shown, groups, page + 1)[k] == ContentItem(shown[k], groups, page + 1, k);
    } else {
      assert LaidOutItems(shown, groups, page + 1)[k] == shown[k];
    }
  }

  /** A content slot in the corrected layout: the group's icon, or cleared when there is none. */
  function ClearedContentItem(groups: seq<ItemGroup>, page: int, slot: nat): Icon
    requires page >= 1
  {
    match SlotIcon(groups, page, slot)
    case Some(icon) => icon
    case None => Empty
  }

  /** The layout with the slot cleared where the source leaves the previous icon. */
  function CorrectedLaidOutItems(before: seq<Icon>, groups: seq<ItemGroup>, page: int): seq<Icon>
    requires |before| == MenuSize && page >= 1
  {
    var f := FailSlot(groups, page);
    seq(MenuSize, k requires 0 <= k < MenuSize =>
      if k >= PageSize then FooterItem(groups, page, f == PageSize, k)
      else if k < f then ClearedContentItem(groups, page, k)
      else before[k])
  }

  /**
   * In the corrected layout a completed page depends only on the list and the page:
   * slots past the list are empty whatever the menu held, and the rest agree with
   * the layout as written.
   */
  lemma CorrectedLayoutForgetsPreviousPage(before: seq<Icon>, other: seq<Icon>, groups: seq<ItemGroup>, page: int, k: int)
    requires |before| == MenuSize && |other| == MenuSize && page >= 1 && 0 <= k < MenuSize
    requires FailSlot(groups, page) == PageSize
    ensures CorrectedLaidOutItems(before, groups, page)[k] == CorrectedLaidOutItems(other, groups, page)[k]
    ensures k < PageSize && GroupIndex(page, k) >= |groups| ==> CorrectedLaidOutItems(before, groups, page)[k] == Empty
    ensures k < PageSize && GroupIndex(page, k) < |groups| ==>
      CorrectedLaidOutItems(before, groups, page)[k] == LaidOutItems(before, groups, page)[k]
    ensures k >= PageSize ==> CorrectedLaidOutItems(before, groups, page)[k] == LaidOutItems(before, groups, page)[k]
  {
    if k < PageSize {
      SlotStep(groups, page, k);
      assert !SlotFails(groups, page, k);
    }
  }

  /** In the corrected layout, a completed next page leaves no stale icon in a slot past the list. */
  lemma CorrectedNextPageClearsStaleIcons(before: seq<Icon>, groups: seq<ItemGroup>, page: int, k: int)
    requires |before| == MenuSize && page >= 1 && 0 <= k < PageSize
    requires FailSlot(groups, page) == PageSize && FailSlot(groups, page + 1) == PageSize
    requires GroupIndex(page + 1, k) >= |groups|
    ensures var shown := CorrectedLaidOutItems(before, groups, page);
      CorrectedLaidOutItems(shown, groups, page + 1)[k] == Empty
  {
    CorrectedLayoutForgetsPreviousPage(CorrectedLaidOutItems(before, groups, page), before, groups, page + 1, k);
  }
}
