/**
  The shared state of the page: which item is selected for the main player.
  Item ids are WordPress post ids (numbers) on the listing page and strings in
  the player components; a template string or `String(id)` writes them out.
*/
module AppContext {
  import opened JsText
  import opened JsonText

  datatype ItemId = NumId(n: int) | TextId(text: string)

  /** `${id}`. */
  function IdText(id: ItemId): string {
    match id
    case NumId(n) => IntToDecimal(n)
    case TextId(t) => t
  }

  /** The id as it appears as a JSON value in the favourites list. */
  function IdJson(id: ItemId): Json {
    match id
    case NumId(n) => JNum(n)
    case TextId(t) => JStr(t)
  }

  datatype SelectedItem = SelectedItem(title: string, date: string, src: string, id: ItemId)

  datatype GlobalContext = GlobalContext(isModalActive: bool, selectedItem: SelectedItem)

  /** The context the application starts with: nothing selected. */
  const InitialContext := GlobalContext(false, SelectedItem("", "", "", TextId("")))

  /** `setGlobalContext(prev => ({ ...prev, selectedItem: item }))`. */
  function SelectItem(prev: GlobalContext, item: SelectedItem): (next: GlobalContext)
    ensures next.selectedItem == item
    ensures next.isModalActive == prev.isModalActive
  {
    prev.(selectedItem := item)
  }
}
