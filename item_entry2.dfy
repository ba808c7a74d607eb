/**
 * The item entry screen's view model of the AVerSiNoTruena2 iteration: the
 * form with its nine fields, its validation, its conversions to and from
 * the stored item, and `saveItem`.
 *
 * This iteration's `Item` record and its repository are not part of this
 * model; the item is the nine fields the conversions copy, and the
 * repository is a table with Room's insert-or-ignore, as in the sibling
 * iterations' DAOs.
 */
module ItemEntry2 {
  import opened Common
  import opened Tables

  datatype Item = Item(
    id: int,
    titulo: string,
    descripcion: string,
    clasificacion: string,
    horaCumplimiento: Option<Long>,
    estado: bool,
    videoUri: Option<string>,
    fotoUri: Option<string>,
    audioUri: Option<string>)

  /** An item's non-key columns. */
  datatype ItemColumns = ItemColumns(
    titulo: string,
    descripcion: string,
    clasificacion: string,
    horaCumplimiento: Option<Long>,
    estado: bool,
    videoUri: Option<string>,
    fotoUri: Option<string>,
    audioUri: Option<string>)

  function ItemColumnsOf(item: Item): ItemColumns {
    ItemColumns(item.titulo, item.descripcion, item.clasificacion, item.horaCumplimiento,
                item.estado, item.videoUri, item.fotoUri, item.audioUri)
  }

  function ItemOf(row: Row<ItemColumns>): Item {
    var c := row.cols;
    Item(row.key, c.titulo, c.descripcion, c.clasificacion, c.horaCumplimiento,
         c.estado, c.videoUri, c.fotoUri, c.audioUri)
  }

  /** The form's fields. */
  datatype ItemDetails = ItemDetails(
    id: int,
    titulo: string,
    descripcion: string,
    clasificacion: string,
    horaCumplimiento: Option<Long>,
    estado: bool,
    videoUri: Option<string>,
    fotoUri: Option<string>,
    audioUri: Option<string>)

  /** `ItemDetails()`. */
  const DefaultItemDetails: ItemDetails := ItemDetails(0, "", "", "", None, false, None, None, None)

  datatype ItemUiState = ItemUiState(itemDetails: ItemDetails, isEntryValid: bool)

  /** `ItemUiState()`. */
  const DefaultItemUiState: ItemUiState := ItemUiState(DefaultItemDetails, false)

  /** `validateInput`: title, description and classification not blank. */
  predicate ValidateInput(d: ItemDetails) {
    IsNotBlank(d.titulo) && IsNotBlank(d.descripcion) && IsNotBlank(d.clasificacion)
  }

  /** The form is valid exactly when none of the three text fields is empty
      once leading whitespace is trimmed, whatever the other six hold; so the
      default form is not valid. */
  lemma ValidateInputSpec(d: ItemDetails)
    ensures ValidateInput(d) <==>
      TrimStart(d.titulo) != [] && TrimStart(d.descripcion) != [] && TrimStart(d.clasificacion) != []
    ensures ValidateInput(d) <==> ValidateInput(DefaultItemDetails.(
      titulo := d.titulo, descripcion := d.descripcion, clasificacion := d.clasificacion))
    ensures !ValidateInput(DefaultItemDetails)
  {
    BlankIffTrimsToEmpty(d.titulo);
    BlankIffTrimsToEmpty(d.descripcion);
    BlankIffTrimsToEmpty(d.clasificacion);
    BlankIffTrimsToEmpty("");
  }

  /** `ItemDetails.toItem()`. */
  function ToItem(d: ItemDetails): Item {
    Item(d.id, d.titulo, d.descripcion, d.clasificacion, d.horaCumplimiento,
         d.estado, d.videoUri, d.fotoUri, d.audioUri)
  }

  /** `Item.toItemDetails()`. */
  function ToItemDetails(i: Item): ItemDetails {
    ItemDetails(i.id, i.titulo, i.descripcion, i.clasificacion, i.horaCumplimiento,
                i.estado, i.videoUri, i.fotoUri, i.audioUri)
  }

  /** `Item.toItemUiState(isEntryValid = false)`. */
  function ToItemUiState(i: Item, isEntryValid: bool): ItemUiState {
    ItemUiState(ToItemDetails(i), isEntryValid)
  }

  /** Every field is copied both ways, so each conversion undoes the other,
      and a stored row reads back as the item written. */
  lemma ItemRoundTrips(d: ItemDetails, i: Item, row: Row<ItemColumns>)
    ensures ToItemDetails(ToItem(d)) == d
    ensures ToItem(ToItemDetails(i)) == i
    ensures ToItemUiState(i, false).itemDetails == ToItemDetails(i) && !ToItemUiState(i, false).isEntryValid
    ensures ItemOf(Row(i.id, ItemColumnsOf(i))) == i
    ensures Row(ItemOf(row).id, ItemColumnsOf(ItemOf(row))) == row
  {
  }

  // ---------------------------------------------------------------------

  class ItemEntryViewModel {
    var itemUiState: ItemUiState
    const itemsRepository: Repository<ItemColumns>

    ghost predicate Valid()
      reads this, itemsRepository
    {
      itemsRepository.Valid()
    }

    constructor (itemsRepository: Repository<ItemColumns>)
      ensures this.itemsRepository == itemsRepository
      ensures itemUiState == DefaultItemUiState && !itemUiState.isEntryValid
    {
      this.itemsRepository := itemsRepository;
      itemUiState := DefaultItemUiState;
    }

    /** `updateUiState(itemDetails)`: the details are kept as given and the
        flag is their validity. */
    method UpdateUiState(itemDetails: ItemDetails)
      modifies this
      ensures itemUiState == ItemUiState(itemDetails, ValidateInput(itemDetails))
    {
      itemUiState := ItemUiState(itemDetails, ValidateInput(itemDetails));
    }

    /** `saveItem()`: on a valid form, insert the item it describes; on an
        invalid one, nothing. */
    method SaveItem()
      requires Valid()
      modifies itemsRepository
      ensures Valid()
      ensures itemsRepository.table == if ValidateInput(itemUiState.itemDetails)
        then InsertOrIgnore(old(itemsRepository.table), itemUiState.itemDetails.id,
                            ItemColumnsOf(ToItem(itemUiState.itemDetails)))
        else old(itemsRepository.table)
    {
      if ValidateInput(itemUiState.itemDetails) {
        var item := ToItem(itemUiState.itemDetails);
        itemsRepository.Insert(item.id, ItemColumnsOf(item));
      }
    }
  }

  /** Saving a valid new form (id 0) stores its item under a fresh key,
      larger than any key used before, and reading that key back gives the
      form's item with that key; every other row stays. An invalid form
      stores nothing. */
  lemma SaveNewItemSpec(t: Table<ItemColumns>, d: ItemDetails, k: int)
    requires WellFormed(t) && d.id == 0 && ValidateInput(d)
    ensures var key := InsertKey(t, 0);
      var next := InsertOrIgnore(t, d.id, ItemColumnsOf(ToItem(d)));
      && key > t.sequence && !HasKey(t.rows, key)
      && Lookup(next.rows, key).Some?
      && ItemOf(Row(key, Lookup(next.rows, key).value)) == ToItem(d).(id := key)
      && (k != key ==> Lookup(next.rows, k) == Lookup(t.rows, k))
  {
    GeneratedKeyIsFresh(t, ItemColumnsOf(ToItem(d)));
    InsertOrIgnoreSpec(t, 0, ItemColumnsOf(ToItem(d)));
  }
}
