/** The inventory browser: a user's listing lines shown ten per page, with
    "previous" and "next" buttons that move the page in place. */
module Pagination {
  import opened Text
  import Inventory

  const ItemsPerPage: nat := 10

  /** Shown in place of the page body when the page holds no line. */
  const NoItemsText: string := "No items found."

  /** The embed title is `TitlePrefix + author + TitleSuffix`. */
  const TitlePrefix: string := "B\U{1ED9} s\U{01B0}u t\U{1EAD}p c\U{1EE7}a "
  const TitleSuffix: string := " \U{1F495}"

  /** `n // 10 + (1 if n % 10 else 0)`, which is the ceiling of `n / 10`. */
  function TotalPages(n: nat): (r: nat)
    ensures ItemsPerPage * r >= n
    ensures r > 0 ==> ItemsPerPage * (r - 1) < n
    ensures r == (n + ItemsPerPage - 1) / ItemsPerPage
  {
    n / ItemsPerPage + (if n % ItemsPerPage != 0 then 1 else 0)
  }

  /** The Python slice `lines[10 * page : 10 * page + 10]`, which clamps both
      bounds to the length of the list. */
  function PageItems(lines: seq<string>, page: nat): (r: seq<string>)
    ensures |r| <= ItemsPerPage
    ensures |r| == if ItemsPerPage * page >= |lines| then 0
                   else if |lines| - ItemsPerPage * page >= ItemsPerPage then ItemsPerPage
                   else |lines| - ItemsPerPage * page
    ensures forall j :: 0 <= j < |r| ==>
              ItemsPerPage * page + j < |lines| && r[j] == lines[ItemsPerPage * page + j]
    ensures page < TotalPages(|lines|) ==> r != []
  {
    var start := ItemsPerPage * page;
    var end := start + ItemsPerPage;
    if start >= |lines| then []
    else if end <= |lines| then lines[start..end]
    else lines[start..]
  }

  /** Every line of the listing is on exactly one page: line `i` is entry
      `i % 10` of page `i / 10`, and that page exists. */
  lemma LineOnItsPage(lines: seq<string>, i: nat)
    requires i < |lines|
    ensures i / ItemsPerPage < TotalPages(|lines|)
    ensures i % ItemsPerPage < |PageItems(lines, i / ItemsPerPage)|
    ensures PageItems(lines, i / ItemsPerPage)[i % ItemsPerPage] == lines[i]
  {
    var p, j := i / ItemsPerPage, i % ItemsPerPage;
    assert ItemsPerPage * p + j == i;
    assert ItemsPerPage * p <= i < |lines|;
  }

  /** The page after a press of the button with custom id `buttonId`:
      "previous" moves back unless on the first page, "next" moves on unless
      on the last page, and any other press leaves the page alone. */
  function Navigate(page: int, total: int, buttonId: string): (r: int)
    ensures buttonId == "previous" && page > 0 ==> r == page - 1
    ensures buttonId == "next" && page < total - 1 ==> r == page + 1
    ensures buttonId == "previous" && page <= 0 ==> r == page
    ensures buttonId == "next" && page >= total - 1 ==> r == page
    ensures buttonId != "previous" && buttonId != "next" ==> r == page
    ensures page >= 0 ==> r >= 0
    ensures 0 <= page < total ==> 0 <= r < total
  {
    if buttonId == "previous" && page > 0 then page - 1
    else if buttonId == "next" && page < total - 1 then page + 1
    else page
  }

  /** The embed a page is drawn as. */
  datatype PageEmbed = PageEmbed(title: string, fieldName: string, value: string)

  class PaginationView {
    const inventoryList: seq<string>
    const itemsPerPage: nat
    const totalPages: nat
    var currentPage: nat

    /** The page count is fixed at construction; the current page is one of
        the pages (page 0 of an empty listing counts as one). */
    ghost predicate Valid()
      reads this
    {
      && itemsPerPage == ItemsPerPage
      && totalPages == TotalPages(|inventoryList|)
      && (currentPage < totalPages || currentPage == 0)
    }

    constructor (inventoryList: seq<string>)
      ensures Valid()
      ensures this.inventoryList == inventoryList && currentPage == 0
    {
      this.inventoryList := inventoryList;
      currentPage := 0;
      itemsPerPage := 10;
      totalPages := |inventoryList| / 10 + (if |inventoryList| % 10 != 0 then 1 else 0);
    }

    /** `get_current_page_embed`: a header "Page p/total" counted from one,
        and the page's lines joined by newlines. A valid view over a
        non-empty listing never shows the "No items found." text. */
    function CurrentPageEmbed(authorName: string): (e: PageEmbed)
      reads this
      ensures e.title == TitlePrefix + authorName + TitleSuffix
      ensures e.fieldName == "Page " + IntToString(currentPage + 1) + "/" + IntToString(totalPages)
      ensures PageItems(inventoryList, currentPage) == [] ==> e.value == NoItemsText
      ensures Valid() && inventoryList != [] ==>
                PageItems(inventoryList, currentPage) != [] &&
                e.value == Join("\n", PageItems(inventoryList, currentPage))
    {
      var items := PageItems(inventoryList, currentPage);
      PageEmbed(
        TitlePrefix + authorName + TitleSuffix,
        "Page " + IntToString(currentPage + 1) + "/" + IntToString(totalPages),
        if items != [] then Join("\n", items) else NoItemsText)
    }

    /** `interaction_check`: moves the page for the pressed button, then
        redraws the same message; every interaction is accepted. */
    method InteractionCheck(buttonId: string, userName: string)
      returns (accepted: bool, embed: PageEmbed)
      requires Valid()
      modifies this
      ensures Valid()
      ensures currentPage == Navigate(old(currentPage), totalPages, buttonId)
      ensures accepted && embed == CurrentPageEmbed(userName)
    {
      if buttonId == "previous" && currentPage > 0 {
        currentPage := currentPage - 1;
      } else if buttonId == "next" && currentPage < totalPages - 1 {
        currentPage := currentPage + 1;
      }
      embed := CurrentPageEmbed(userName);
      accepted := true;
    }
  }

  /** When no listing line holds a newline, a page's body splits back into
      exactly that page's lines, in order. */
  lemma PageBodySplits(view: PaginationView, authorName: string)
    requires view.Valid() && view.inventoryList != []
    requires forall i :: 0 <= i < |view.inventoryList| ==> '\n' !in view.inventoryList[i]
    ensures Split('\n', view.CurrentPageEmbed(authorName).value) == PageItems(view.inventoryList, view.currentPage)
  {
    var items := PageItems(view.inventoryList, view.currentPage);
    assert forall j :: 0 <= j < |items| ==> '\n' !in items[j];
    SplitJoin('\n', items);
  }

  datatype InventoryReply =
    | NothingCollected
    | Listing(embed: PageEmbed)

  /** The `inventory` command over the rows of its query: no rows gives the
      "nothing collected yet" reply and no view; otherwise one line per row
      and a view opened on the first page. */
  method InventoryCommand(rows: seq<Inventory.InventoryRow>, formatDate: string -> string, authorName: string)
    returns (reply: InventoryReply, view: PaginationView?)
    ensures rows == [] <==> reply.NothingCollected?
    ensures reply.NothingCollected? ==> view == null
    ensures reply.Listing? ==>
      && view != null && fresh(view) && view.Valid() && view.currentPage == 0
      && |view.inventoryList| == |rows|
      && (forall i :: 0 <= i < |rows| ==>
            view.inventoryList[i] == Inventory.FormatLine(rows[i], formatDate))
      && reply.embed == view.CurrentPageEmbed(authorName)
  {
    if rows == [] {
      reply, view := NothingCollected, null;
      return;
    }
    var lines := Inventory.BuildInventoryList(rows, formatDate);
    view := new PaginationView(lines);
    reply := Listing(view.CurrentPageEmbed(authorName));
  }

  /** A listing of 23 lines has three pages; "next", "next", "previous"
      from the first page ends on the second, and "next" on the last page
      stays there. */
  method TwentyThreeLines()
  {
    var view := new PaginationView(seq(23, i => "line"));
    assert view.totalPages == 3;
    var ok, embed := view.InteractionCheck("next", "u");
    ok, embed := view.InteractionCheck("next", "u");
    assert view.currentPage == 2;
    ok, embed := view.InteractionCheck("next", "u");
    assert view.currentPage == 2;
    ok, embed := view.InteractionCheck("previous", "u");
    assert view.currentPage == 1;
    ok, embed := view.InteractionCheck("previous", "u");
    ok, embed := view.InteractionCheck("previous", "u");
    assert view.currentPage == 0;
  }
}
