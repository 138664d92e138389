/**
 * The table grid of the POS screen (project/src/components/POS/TableView.tsx): the tables
 * of the active zone, their status colour and caption, the highlight of the selected
 * table and the click that selects one.
 */
module TableView {
  import opened Wrappers
  import opened Domain
  import Lists

  predicate InZone(t: Table, zone: Zone) { t.zone == zone }

  function InZoneOf(zone: Zone): Table -> bool {
    t => InZone(t, zone)
  }

  /** `state.tables.filter(table => table.zone === zone)`. */
  function ZoneTables(tables: seq<Table>, zone: Zone): (r: seq<Table>)
    ensures Lists.IsSubsequence(r, tables)
    ensures forall t :: t in r <==> t in tables && t.zone == zone
  {
    Lists.Filter(tables, InZoneOf(zone))
  }

  /** The two zones split the table list: every table appears in exactly one of the grids. */
  lemma ZonesPartition(tables: seq<Table>)
    ensures |ZoneTables(tables, Barra)| + |ZoneTables(tables, Terraza)| == |tables|
    ensures forall t :: t in tables <==> t in ZoneTables(tables, Barra) || t in ZoneTables(tables, Terraza)
  {
    ZonesCount(tables);
  }

  lemma {:induction false} ZonesCount(tables: seq<Table>)
    ensures |ZoneTables(tables, Barra)| + |ZoneTables(tables, Terraza)| == |tables|
    decreases |tables|
  {
    if tables != [] {
      ZonesCount(tables[1..]);
    }
  }

  /** The CSS classes of `getTableStatusColor`. */
  function StatusColor(status: TableStatus): (css: string)
    ensures status == Available ==> css == "bg-green-100 text-green-800 hover:bg-green-200"
    ensures status == Occupied ==> css == "bg-red-100 text-red-800 hover:bg-red-200"
    ensures status == Reserved ==> css == "bg-yellow-100 text-yellow-800 hover:bg-yellow-200"
    ensures status.OtherStatus? ==> css == "bg-gray-100 text-gray-800 hover:bg-gray-200"
  {
    match status
    case Available => "bg-green-100 text-green-800 hover:bg-green-200"
    case Occupied => "bg-red-100 text-red-800 hover:bg-red-200"
    case Reserved => "bg-yellow-100 text-yellow-800 hover:bg-yellow-200"
    case OtherStatus(_) => "bg-gray-100 text-gray-800 hover:bg-gray-200"
  }

  /** The caption of `getStatusText`; an unknown status is shown as its own string. */
  function StatusText(status: TableStatus): (text: string)
    ensures status == Available ==> text == "Disponible"
    ensures status == Occupied ==> text == "Ocupada"
    ensures status == Reserved ==> text == "Reservada"
    ensures status.OtherStatus? ==> text == status.raw
  {
    match status
    case Available => "Disponible"
    case Occupied => "Ocupada"
    case Reserved => "Reservada"
    case OtherStatus(raw) => raw
  }

  /** The three declared statuses get three different colours and three different captions. */
  lemma KnownStatusesDiffer(a: TableStatus, b: TableStatus)
    requires !a.OtherStatus? && !b.OtherStatus? && a != b
    ensures StatusColor(a) != StatusColor(b) && StatusText(a) != StatusText(b)
  {
    assert |StatusColor(Available)| == 46 && |StatusColor(Occupied)| == 40 && |StatusColor(Reserved)| == 49;
    assert StatusText(Available)[0] == 'D' && StatusText(Occupied)[0] == 'O' && StatusText(Reserved)[0] == 'R';
  }

  /**
   * The two switches on the status string itself: the three declared strings get their
   * own colour and caption, any other string the grey classes and itself as caption.
   */
  lemma StatusOfRaw(raw: string)
    ensures StatusText(StatusOf(raw)) ==
            if raw == "available" then "Disponible"
            else if raw == "occupied" then "Ocupada"
            else if raw == "reserved" then "Reservada"
            else raw
    ensures StatusColor(StatusOf(raw)) ==
            if raw == "available" then "bg-green-100 text-green-800 hover:bg-green-200"
            else if raw == "occupied" then "bg-red-100 text-red-800 hover:bg-red-200"
            else if raw == "reserved" then "bg-yellow-100 text-yellow-800 hover:bg-yellow-200"
            else "bg-gray-100 text-gray-800 hover:bg-gray-200"
  {
  }

  /** `selectedTable?.id === table.id`: the optional chain yields undefined when nothing is selected. */
  predicate Highlighted(selectedTable: Option<Table>, t: Table) {
    selectedTable.Some? && selectedTable.value.id == t.id
  }

  /**
   * The button click: `onTableSelect(table)`, which the POS screen stores as the selection.
   * Afterwards exactly the tables carrying the clicked table's id are highlighted.
   */
  function ClickTable(t: Table): (selected: Option<Table>)
    ensures selected == Some(t)
    ensures forall u :: Highlighted(selected, u) <==> u.id == t.id
  {
    Some(t)
  }

  /**
   * After a click, the clicked table is highlighted, and so is any other table sharing its
   * id; no table is highlighted before anything is selected.
   */
  lemma ClickHighlights(tables: seq<Table>, zone: Zone, t: Table)
    requires t in ZoneTables(tables, zone)
    ensures forall u :: u in ZoneTables(tables, zone) ==> (Highlighted(ClickTable(t), u) <==> u.id == t.id)
    ensures forall u :: !Highlighted(None, u)
  {
  }
}
