/** The admin menu dashboard (src/app/admin/components/MenuPage.tsx): the
    add/edit dialog with its validation gates, starting an edit, closing the
    dialog, reloading a page of items, and the pagination controls. The
    requests are described by what they send; their replies are
    parameters. */
module MenuDashboard {
  import opened Wrappers
  import opened Types
  import opened MenuAction

  /** The dialog's form. The price is what `parseFloat` made of the input. */
  datatype ItemForm = ItemForm(name: string, price: Amount, measure: string, category: string, image: Option<FileRef>)

  /** The form's reset state: empty texts, price 0, no image. */
  const EmptyForm := ItemForm("", Cents(0), "", "", None)

  /** The add gate: a name, a truthy price (neither 0 nor `NaN`), a category
      and an image. */
  predicate CanAdd(f: ItemForm) {
    f.name != "" && IsTruthy(f.price) && f.category != "" && f.image.Some?
  }

  /** The edit gate: the same without the image. */
  predicate CanEdit(f: ItemForm) {
    f.name != "" && IsTruthy(f.price) && f.category != ""
  }

  /** A form that may be added may be saved as an edit too, and a price of
      0 or `NaN` passes neither gate. */
  lemma GatesAgree(f: ItemForm)
    ensures CanAdd(f) <==> CanEdit(f) && f.image.Some?
    ensures f.price == Cents(0) || f.price.NaN? ==> !CanAdd(f) && !CanEdit(f)
  {
  }

  /** What `createMenuItem` receives from the add gate. */
  function NewItemData(f: ItemForm): (d: NewMenuData)
    requires CanAdd(f)
    ensures d.name == f.name && d.price == f.price && d.measure == f.measure
    ensures d.category == f.category && Some(d.image) == f.image
  {
    NewMenuData(f.name, f.price, f.category, f.measure, f.image.value)
  }

  /** What `updateMenuItem` receives from the edit: name, price and measure
      always, the image only when a new one was chosen. The form's category
      is handed over too, but the update has no field for it. */
  function EditUpdate(f: ItemForm): (u: MenuUpdate)
    ensures u.name == Some(f.name) && u.price == Some(f.price) && u.measure == Some(f.measure)
    ensures u.description.None? && u.image == f.image
  {
    MenuUpdate(Some(f.name), Some(f.price), None, Some(f.measure), f.image)
  }

  /** An accepted edit always sends the name and the price, the file exactly
      when a new image was chosen, and never the category, so a category
      changed in the dialog is not saved. */
  lemma EditSends(f: ItemForm)
    requires CanEdit(f)
    ensures var keys := Keys(UpdateEntries(EditUpdate(f), UpdateKeys));
      "name" in keys && "price" in keys && ("file" in keys <==> f.image.Some?) && "category" !in keys
  {
    UpdateMenuItemSends(EditUpdate(f));
  }

  /** The form an edit starts from: the item's name, price, measure and
      category id, and no image. */
  function EditForm(item: Menu): (f: ItemForm)
    ensures f.name == item.name && f.price == Cents(item.price) && f.measure == item.measure
    ensures f.category == item.category.id && f.image.None?
  {
    ItemForm(item.name, Cents(item.price), item.measure, item.category.id, None)
  }

  /** Saving an edit right after starting it keeps the item's image, and it
      passes the gate exactly when the item has a name, a non-zero price and
      a category. */
  lemma UntouchedEdit(item: Menu)
    ensures CanEdit(EditForm(item)) <==> item.name != "" && item.price != 0 && item.category.id != ""
    ensures EditUpdate(EditForm(item)).image.None?
  {
  }

  /** A request for a page of the listing with the current search. */
  function PageQuery(search: string, page: int): ListQuery {
    ListQuery(Some(search), Some(page), Some(10))
  }

  /** The request for a page goes out as asked: the defaults `page || 1` and
      `limit || 10` of the menu listing change only a page number of 0. */
  lemma PageQuerySent(userId: Option<string>, search: string, page: int)
    ensures page != 0 ==> UserMenusRequest(userId, PageQuery(search, page)).1 == PageQuery(search, page)
    ensures page == 0 ==> UserMenusRequest(userId, PageQuery(search, page)).1 == PageQuery(search, 1)
  {
  }

  /** The page "Previous" asks for: one before the current page, and only
      when there is a previous page. */
  function PreviousPageRequest(p: Pagination): (r: Option<int>)
    ensures r.Some? <==> p.hasPreviousPage
    ensures r.Some? ==> r.value == p.currentPage - 1
  {
    if p.hasPreviousPage then Some(p.currentPage - 1) else None
  }

  /** The page "Next" asks for: one after the current page, and only when
      there is a next page. */
  function NextPageRequest(p: Pagination): (r: Option<int>)
    ensures r.Some? <==> p.hasNextPage
    ensures r.Some? ==> r.value == p.currentPage + 1
  {
    if p.hasNextPage then Some(p.currentPage + 1) else None
  }

  /** One numbered page link: the page it asks for and whether it is shown
      as the current one. */
  datatype PageLink = PageLink(page: int, active: bool)

  function PageLinks(p: Pagination): (links: seq<PageLink>)
    ensures |links| == p.totalPages
    ensures forall i :: 0 <= i < |links| ==> links[i].page == i + 1
    ensures forall i :: 0 <= i < |links| ==> (links[i].active <==> p.currentPage == i + 1)
  {
    seq(p.totalPages, i requires 0 <= i < p.totalPages => PageLink(i + 1, p.currentPage == i + 1))
  }

  /** Exactly one link is active when the current page is one of the pages,
      and none otherwise. */
  lemma OneActiveLink(p: Pagination)
    ensures 1 <= p.currentPage <= p.totalPages ==>
      PageLinks(p)[p.currentPage - 1].active &&
      forall i :: 0 <= i < p.totalPages && PageLinks(p)[i].active ==> i == p.currentPage - 1
    ensures !(1 <= p.currentPage <= p.totalPages) ==>
      forall i :: 0 <= i < p.totalPages ==> !PageLinks(p)[i].active
  {
  }

  /** Whether a handler showed a success or an error toast, or nothing. */
  datatype Toast = NoToast | SuccessToast(message: string) | ErrorToast(message: string)

  /** The state of the dashboard that its handlers update. */
  class Dashboard {
    var menuItems: seq<Menu>
    var pagination: Pagination
    var searchTerm: string
    var editingItem: Option<Menu>
    var form: ItemForm
    var isDialogOpen: bool

    constructor(initialMenuItems: seq<Menu>, initialPagination: Pagination, initialSearch: string)
      ensures menuItems == initialMenuItems && pagination == initialPagination && searchTerm == initialSearch
      ensures editingItem.None? && form == EmptyForm && !isDialogOpen
    {
      menuItems := initialMenuItems;
      pagination := initialPagination;
      searchTerm := initialSearch;
      editingItem := None;
      form := EmptyForm;
      isDialogOpen := false;
    }

    /** `handleStartEdit`: remembers the item, fills the form from it and
        opens the dialog. */
    method StartEdit(item: Menu)
      modifies this
      ensures editingItem == Some(item) && form == EditForm(item) && isDialogOpen
      ensures menuItems == old(menuItems) && pagination == old(pagination) && searchTerm == old(searchTerm)
    {
      editingItem := Some(item);
      form := EditForm(item);
      isDialogOpen := true;
    }

    /** The dialog's `onOpenChange`: closing it also forgets the edited item
        and resets the form. */
    method SetDialogOpen(open: bool)
      modifies this
      ensures isDialogOpen == open
      ensures !open ==> editingItem.None? && form == EmptyForm
      ensures open ==> editingItem == old(editingItem) && form == old(form)
      ensures menuItems == old(menuItems) && pagination == old(pagination) && searchTerm == old(searchTerm)
    {
      isDialogOpen := open;
      if !open {
        editingItem := None;
        form := EmptyForm;
      }
    }

    /** Replaces the listed items and the pagination with a reloaded page. */
    method ShowPage(page: MenuPageResult)
      modifies this
      ensures menuItems == page.menuItems && pagination == page.pagination
      ensures searchTerm == old(searchTerm) && editingItem == old(editingItem)
      ensures form == old(form) && isDialogOpen == old(isDialogOpen)
    {
      menuItems := page.menuItems;
      pagination := page.pagination;
    }

    /** `handlePageChange`: the page is requested with the current search and
        limit 10; on success the reply replaces the items and the pagination,
        on failure nothing changes and an error is shown. */
    method ChangePage(page: int, reply: Result<MenuPageResult>) returns (query: ListQuery, toast: Toast)
      modifies this
      ensures query == PageQuery(old(searchTerm), page)
      ensures reply.Success? ==> menuItems == reply.value.menuItems && pagination == reply.value.pagination
      ensures reply.Success? <==> toast.NoToast?
      ensures reply.Failure? ==> toast == ErrorToast("Failed to load page. Please try again.")
      ensures reply.Failure? ==> menuItems == old(menuItems) && pagination == old(pagination)
      ensures searchTerm == old(searchTerm) && editingItem == old(editingItem)
      ensures form == old(form) && isDialogOpen == old(isDialogOpen)
    {
      query := PageQuery(searchTerm, page);
      match reply {
        case Success(result) =>
          ShowPage(result);
          toast := NoToast;
        case Failure(_) =>
          toast := ErrorToast("Failed to load page. Please try again.");
      }
    }

    /** `handleAddItem`. A form that fails the gate sends nothing and changes
        nothing. Otherwise the new item is sent; `created` says whether that
        succeeded and `reload` is the reply to reloading the current page.
        After both succeed the page is shown, the form is reset and the
        dialog closes. */
    method AddItem(created: bool, reload: Result<MenuPageResult>)
      returns (sent: Option<NewMenuData>, query: Option<ListQuery>, toast: Toast)
      modifies this
      ensures sent.Some? <==> CanAdd(old(form))
      ensures sent.Some? ==> sent.value == NewItemData(old(form))
      ensures query.Some? <==> CanAdd(old(form)) && created
      ensures query.Some? ==> query.value == PageQuery(old(searchTerm), old(pagination).currentPage)
      ensures !CanAdd(old(form)) ==> toast == ErrorToast("All fields are required")
      ensures CanAdd(old(form)) && created && reload.Success? ==>
        menuItems == reload.value.menuItems && pagination == reload.value.pagination &&
        form == EmptyForm && !isDialogOpen && toast == SuccessToast("Menu Item Added Successfully")
      ensures CanAdd(old(form)) && !(created && reload.Success?) ==>
        toast == ErrorToast("Failed to add menu item. Please try again.")
      ensures !(CanAdd(old(form)) && created && reload.Success?) ==>
        menuItems == old(menuItems) && pagination == old(pagination) &&
        form == old(form) && isDialogOpen == old(isDialogOpen)
      ensures searchTerm == old(searchTerm) && editingItem == old(editingItem)
    {
      query := None;
      if !CanAdd(form) {
        sent := None;
        toast := ErrorToast("All fields are required");
        return;
      }
      sent := Some(NewItemData(form));
      if !created {
        toast := ErrorToast("Failed to add menu item. Please try again.");
        return;
      }
      query := Some(PageQuery(searchTerm, pagination.currentPage));
      match reload {
        case Failure(_) =>
          toast := ErrorToast("Failed to add menu item. Please try again.");
        case Success(result) =>
          ShowPage(result);
          form := EmptyForm;
          isDialogOpen := false;
          toast := SuccessToast("Menu Item Added Successfully");
      }
    }

    /** `handleEditItem`. Nothing happens without an edited item. A form that
        fails the gate sends nothing. Otherwise the update is sent for the
        edited item's id; `updated` says whether that succeeded and `reload`
        is the reply to reloading the current page. After both succeed the
        page is shown, the form is reset, the edited item forgotten and the
        dialog closed. */
    method EditItem(updated: bool, reload: Result<MenuPageResult>)
      returns (sent: Option<(string, MenuUpdate)>, query: Option<ListQuery>, toast: Toast)
      modifies this
      ensures old(editingItem).None? ==> sent.None? && toast.NoToast?
      ensures sent.Some? <==> old(editingItem).Some? && CanEdit(old(form))
      ensures sent.Some? ==> sent.value == (old(editingItem).value.id, EditUpdate(old(form)))
      ensures old(editingItem).Some? && !CanEdit(old(form)) ==> toast == ErrorToast("All fields are required")
      ensures query.Some? <==> sent.Some? && updated
      ensures query.Some? ==> query.value == PageQuery(old(searchTerm), old(pagination).currentPage)
      ensures sent.Some? && updated && reload.Success? ==>
        menuItems == reload.value.menuItems && pagination == reload.value.pagination &&
        form == EmptyForm && editingItem.None? && !isDialogOpen &&
        toast == SuccessToast("Menu Item Updated Successfully")
      ensures sent.Some? && !(updated && reload.Success?) ==>
        toast == ErrorToast("Failed to update Menu. Please try again.")
      ensures !(sent.Some? && updated && reload.Success?) ==>
        menuItems == old(menuItems) && pagination == old(pagination) && form == old(form) &&
        editingItem == old(editingItem) && isDialogOpen == old(isDialogOpen)
      ensures searchTerm == old(searchTerm)
    {
      sent := None;
      query := None;
      toast := NoToast;
      if editingItem.None? {
        return;
      }
      if !CanEdit(form) {
        toast := ErrorToast("All fields are required");
        return;
      }
      sent := Some((editingItem.value.id, EditUpdate(form)));
      if !updated {
        toast := ErrorToast("Failed to update Menu. Please try again.");
        return;
      }
      query := Some(PageQuery(searchTerm, pagination.currentPage));
      match reload {
        case Failure(_) =>
          toast := ErrorToast("Failed to update Menu. Please try again.");
        case Success(result) =>
          ShowPage(result);
          form := EmptyForm;
          editingItem := None;
          isDialogOpen := false;
          toast := SuccessToast("Menu Item Updated Successfully");
      }
    }
  }
}
