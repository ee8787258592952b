/** Batched loading of the nine relations of ledger rows: one query per table instead of one per row. */
module Hydration {
  import opened Transactions
  import opened Wrappers

  datatype Entity = Entity(id: string, payload: int)

  ghost predicate UniqueIds(table: seq<Entity>) {
    forall i, j :: 0 <= i < j < |table| ==> table[i].id != table[j].id
  }

  /** Looking one row up by id. */
  function Lookup(table: seq<Entity>, id: string): (r: Option<Entity>)
    ensures r.Some? ==> r.value in table && r.value.id == id
    ensures r.None? ==> forall e :: e in table ==> e.id != id
  {
    if table == [] then None else if table[0].id == id then Some(table[0]) else Lookup(table[1..], id)
  }

  lemma LookupFinds(table: seq<Entity>, e: Entity)
    requires UniqueIds(table) && e in table
    ensures Lookup(table, e.id) == Some(e)
  {
    var found := Lookup(table, e.id).value;
    var i :| 0 <= i < |table| && table[i] == e;
    var j :| 0 <= j < |table| && table[j] == found;
    assert i < j || j < i || i == j;
  }

  /** A loaded ledger row: foreign keys, and the related entities set so far (absent means undefined). */
  class Row {
    const ids: map<Link, string>
    var related: map<Link, Entity>
    var details: Details

    constructor (ids: map<Link, string>, related: map<Link, Entity>, details: Details)
      ensures this.ids == ids && this.related == related && this.details == details
    {
      this.ids, this.related, this.details := ids, related, details;
    }

    /** The foreign key, or the empty string. */
    function IdOf(link: Link): string {
      if link in ids then ids[link] else ""
    }

    function RelatedOf(link: Link): Option<Entity>
      reads this`related
    {
      if link in related then Some(related[link]) else None
    }

    method SetRelated(link: Link, entity: Option<Entity>)
      modifies this`related
      ensures RelatedOf(link) == entity
      ensures forall other :: other != link ==> RelatedOf(other) == old(RelatedOf(other))
    {
      related := if entity.Some? then related[link := entity.value] else related - {link};
    }
  }

  class Repositories {
    const tables: map<Link, seq<Entity>>
    /** How often each table has been queried. */
    var queries: map<Link, nat>

    constructor (tables: map<Link, seq<Entity>>)
      ensures this.tables == tables && forall link :: QueriesOf(link) == 0
    {
      this.tables := tables;
      queries := map[];
    }

    function Table(link: Link): seq<Entity> {
      if link in tables then tables[link] else []
    }

    function QueriesOf(link: Link): nat
      reads this`queries
    {
      if link in queries then queries[link] else 0
    }

    ghost predicate Valid() {
      forall link :: UniqueIds(Table(link))
    }

    /** find({ where: { id: In(ids) } }) */
    method FindIn(link: Link, ids: seq<string>) returns (found: seq<Entity>)
      modifies this`queries
      ensures forall e :: e in found <==> e in Table(link) && e.id in ids
      ensures QueriesOf(link) == old(QueriesOf(link)) + 1
      ensures forall other :: other != link ==> QueriesOf(other) == old(QueriesOf(other))
    {
      queries := queries[link := QueriesOf(link) + 1];
      found := [];
      var table := Table(link);
      for i := 0 to |table|
        invariant forall e :: e in found <==> e in table[..i] && e.id in ids
      {
        if table[i].id in ids {
          found := found + [table[i]];
        }
      }
      assert table[..|table|] == table;
    }
  }

  /** The distinct non-empty foreign keys of a batch. */
  method ExtractIds(rows: seq<Row>, link: Link) returns (ids: seq<string>)
    ensures forall id :: id in ids <==> id != "" && exists i :: 0 <= i < |rows| && rows[i].IdOf(link) == id
    ensures forall i, j :: 0 <= i < j < |ids| ==> ids[i] != ids[j]
  {
    ids := [];
    for k := 0 to |rows|
      invariant forall id :: id in ids <==> id != "" && exists i :: 0 <= i < k && rows[i].IdOf(link) == id
      invariant forall i, j :: 0 <= i < j < |ids| ==> ids[i] != ids[j]
    {
      var id := rows[k].IdOf(link);
      if id != "" && id !in ids {
        ids := ids + [id];
      }
    }
  }

  method CreateEntityMap(entities: seq<Entity>) returns (m: map<string, Entity>)
    ensures forall id :: id in m <==> exists i :: 0 <= i < |entities| && entities[i].id == id
    ensures forall id :: id in m ==> m[id] in entities && m[id].id == id
  {
    m := map[];
    for k := 0 to |entities|
      invariant forall id :: id in m <==> exists i :: 0 <= i < k && entities[i].id == id
      invariant forall id :: id in m ==> m[id] in entities && m[id].id == id
    {
      m := m[entities[k].id := entities[k]];
    }
  }

  /** What a row's relation should be: its own look-up if it has a foreign key, and otherwise as it was. */
  ghost function Wanted(table: seq<Entity>, id: string, before: Option<Entity>): Option<Entity> {
    if id == "" then before else Lookup(table, id)
  }

  /** The map answers every foreign key of the batch as the table does. */
  ghost predicate Answers(m: map<string, Entity>, table: seq<Entity>, rows: seq<Row>, link: Link) {
    forall i :: 0 <= i < |rows| && rows[i].IdOf(link) != "" ==>
      At(m, rows[i].IdOf(link)) == Lookup(table, rows[i].IdOf(link))
  }

  function At(m: map<string, Entity>, id: string): Option<Entity> {
    if id in m then Some(m[id]) else None
  }

  /** One table's share of the batch: at most one query, and none when no row needs the table. */
  method LoadTable(rows: seq<Row>, repositories: Repositories, link: Link) returns (m: map<string, Entity>)
    requires repositories.Valid()
    modifies repositories`queries
    ensures Answers(m, repositories.Table(link), rows, link)
    ensures forall other ::
      repositories.QueriesOf(other)
      == old(repositories.QueriesOf(other)) + (if other == link && NeedsTable(rows, link) then 1 else 0)
  {
    var ids := ExtractIds(rows, link);
    var found: seq<Entity> := [];
    assert NeedsTable(rows, link) <==> |ids| > 0 by {
      if |ids| > 0 {
        assert ids[0] in ids;
      }
      if i :| 0 <= i < |rows| && rows[i].IdOf(link) != "" {
        assert rows[i].IdOf(link) in ids;
      }
    }
    if |ids| > 0 {
      found := repositories.FindIn(link, ids);
    }
    m := CreateEntityMap(found);
    forall i | 0 <= i < |rows| && rows[i].IdOf(link) != ""
      ensures At(m, rows[i].IdOf(link)) == Lookup(repositories.Table(link), rows[i].IdOf(link))
    {
      var id := rows[i].IdOf(link);
      assert id in ids;
      var wanted := Lookup(repositories.Table(link), id);
      if wanted.Some? {
        assert wanted.value in found;
      }
      if id in m {
        LookupFinds(repositories.Table(link), m[id]);
      }
    }
  }

  ghost predicate NeedsTable(rows: seq<Row>, link: Link) {
    exists i :: 0 <= i < |rows| && rows[i].IdOf(link) != ""
  }

  method SetIfKeyed(row: Row, link: Link, m: map<string, Entity>)
    modifies row`related
    ensures row.RelatedOf(link) == if row.IdOf(link) != "" then At(m, row.IdOf(link)) else old(row.RelatedOf(link))
    ensures forall other :: other != link ==> row.RelatedOf(other) == old(row.RelatedOf(other))
  {
    if row.IdOf(link) != "" {
      row.SetRelated(link, At(m, row.IdOf(link)));
    }
  }

  type EntityMaps = map<Link, map<string, Entity>>

  ghost predicate AllAnswer(maps: EntityMaps, repositories: Repositories, rows: seq<Row>) {
    forall link :: link in maps && Answers(maps[link], repositories.Table(link), rows, link)
  }

  /** The nine relations, in four groups. */
  datatype Group = Pix | PixReturns | Bills | Teds

  function GroupOf(link: Link): Group {
    match link
    case PixCashInLink | PixTransferLink => Pix
    case PixRefundLink | PixQrCodeLink => PixReturns
    case BoletoLink | BillPaymentLink => Bills
    case TedTransferLink | TedCashInLink | TedRefundLink => Teds
  }

  /** The maps of this group answer the batch, and each of its tables has been queried as often as the batch needs. */
  twostate predicate Loaded(new maps: EntityMaps, repositories: Repositories, rows: seq<Row>, group: Group)
    reads repositories`queries
  {
    && (forall link :: link in maps <==> GroupOf(link) == group)
    && (forall link :: link in maps ==> Answers(maps[link], repositories.Table(link), rows, link))
    && (forall link :: repositories.QueriesOf(link)
          == old(repositories.QueriesOf(link)) + (if GroupOf(link) == group && NeedsTable(rows, link) then 1 else 0))
  }

  method LoadPix(rows: seq<Row>, repositories: Repositories) returns (maps: EntityMaps)
    requires repositories.Valid()
    modifies repositories`queries
    ensures Loaded(maps, repositories, rows, Pix)
  {
    var pixCashInMap := LoadTable(rows, repositories, PixCashInLink);
    var pixTransferMap := LoadTable(rows, repositories, PixTransferLink);
    maps := map[PixCashInLink := pixCashInMap, PixTransferLink := pixTransferMap];
  }

  method LoadPixReturns(rows: seq<Row>, repositories: Repositories) returns (maps: EntityMaps)
    requires repositories.Valid()
    modifies repositories`queries
    ensures Loaded(maps, repositories, rows, PixReturns)
  {
    var pixRefundMap := LoadTable(rows, repositories, PixRefundLink);
    var pixQrCodeMap := LoadTable(rows, repositories, PixQrCodeLink);
    maps := map[PixRefundLink := pixRefundMap, PixQrCodeLink := pixQrCodeMap];
  }

  method LoadBills(rows: seq<Row>, repositories: Repositories) returns (maps: EntityMaps)
    requires repositories.Valid()
    modifies repositories`queries
    ensures Loaded(maps, repositories, rows, Bills)
  {
    var boletoMap := LoadTable(rows, repositories, BoletoLink);
    var billPaymentMap := LoadTable(rows, repositories, BillPaymentLink);
    maps := map[BoletoLink := boletoMap, BillPaymentLink := billPaymentMap];
  }

  method LoadTeds(rows: seq<Row>, repositories: Repositories) returns (maps: EntityMaps)
    requires repositories.Valid()
    modifies repositories`queries
    ensures Loaded(maps, repositories, rows, Teds)
  {
    var tedTransferMap := LoadTable(rows, repositories, TedTransferLink);
    var tedCashInMap := LoadTable(rows, repositories, TedCashInLink);
    var tedRefundMap := LoadTable(rows, repositories, TedRefundLink);
    maps := map[TedTransferLink := tedTransferMap, TedCashInLink := tedCashInMap, TedRefundLink := tedRefundMap];
  }

  /** The nine queries of a batch. */
  method LoadTables(rows: seq<Row>, repositories: Repositories) returns (maps: EntityMaps)
    requires repositories.Valid()
    modifies repositories`queries
    ensures AllAnswer(maps, repositories, rows)
    ensures forall link ::
      repositories.QueriesOf(link) == old(repositories.QueriesOf(link)) + (if NeedsTable(rows, link) then 1 else 0)
  {
    var pix := LoadPix(rows, repositories);
    var pixReturns := LoadPixReturns(rows, repositories);
    var bills := LoadBills(rows, repositories);
    var teds := LoadTeds(rows, repositories);
    maps := pix + pixReturns + bills + teds;
  }

  method HydratePix(row: Row, maps: EntityMaps)
    requires forall link :: GroupOf(link) == Pix ==> link in maps
    modifies row`related
    ensures forall link ::
      row.RelatedOf(link) == if GroupOf(link) == Pix then Set(row, link, maps, old(row.RelatedOf(link)))
          else old(row.RelatedOf(link))
  {
    SetIfKeyed(row, PixCashInLink, maps[PixCashInLink]);
    SetIfKeyed(row, PixTransferLink, maps[PixTransferLink]);
  }

  method HydratePixReturns(row: Row, maps: EntityMaps)
    requires forall link :: GroupOf(link) == PixReturns ==> link in maps
    modifies row`related
    ensures forall link ::
      row.RelatedOf(link) == if GroupOf(link) == PixReturns then Set(row, link, maps, old(row.RelatedOf(link)))
          else old(row.RelatedOf(link))
  {
    SetIfKeyed(row, PixRefundLink, maps[PixRefundLink]);
    SetIfKeyed(row, PixQrCodeLink, maps[PixQrCodeLink]);
  }

  method HydrateBills(row: Row, maps: EntityMaps)
    requires forall link :: GroupOf(link) == Bills ==> link in maps
    modifies row`related
    ensures forall link ::
      row.RelatedOf(link) == if GroupOf(link) == Bills then Set(row, link, maps, old(row.RelatedOf(link)))
          else old(row.RelatedOf(link))
  {
    SetIfKeyed(row, BoletoLink, maps[BoletoLink]);
    SetIfKeyed(row, BillPaymentLink, maps[BillPaymentLink]);
  }

  method HydrateTeds(row: Row, maps: EntityMaps)
    requires forall link :: GroupOf(link) == Teds ==> link in maps
    modifies row`related
    ensures forall link ::
      row.RelatedOf(link) == if GroupOf(link) == Teds then Set(row, link, maps, old(row.RelatedOf(link)))
          else old(row.RelatedOf(link))
  {
    SetIfKeyed(row, TedTransferLink, maps[TedTransferLink]);
    SetIfKeyed(row, TedCashInLink, maps[TedCashInLink]);
    SetIfKeyed(row, TedRefundLink, maps[TedRefundLink]);
  }

  /** A relation after its assignment. */
  ghost function Set(row: Row, link: Link, maps: EntityMaps, before: Option<Entity>): Option<Entity>
    requires link in maps
  {
    if row.IdOf(link) != "" then At(maps[link], row.IdOf(link)) else before
  }

  /** The nine assignments on one row. */
  method HydrateRow(row: Row, maps: EntityMaps)
    requires forall link :: link in maps
    modifies row`related
    ensures forall link :: row.RelatedOf(link) == Set(row, link, maps, old(row.RelatedOf(link)))
  {
    HydratePix(row, maps);
    HydratePixReturns(row, maps);
    HydrateBills(row, maps);
    HydrateTeds(row, maps);
  }

  /**
   Batched hydration refines row-by-row lookup: for any list, with shared or dangling keys and repeated
   rows, each of the nine relations of each row ends up as its own look-up would set it; nothing else of a
   row changes; and each table is queried once if some row needs it and not at all otherwise.
   */
  method HydrateTransactionRelations(rows: seq<Row>, repositories: Repositories)
    requires repositories.Valid()
    modifies repositories`queries, set row | row in rows
    ensures forall row, link :: row in rows ==>
      if row.IdOf(link) == "" then row.RelatedOf(link) == old(row.RelatedOf(link))
      else row.RelatedOf(link) == Lookup(repositories.Table(link), row.IdOf(link))
    ensures forall row :: row in rows ==> row.details == old(row.details)
    ensures forall link ::
      repositories.QueriesOf(link) == old(repositories.QueriesOf(link)) + (if NeedsTable(rows, link) then 1 else 0)
  {
    if |rows| == 0 {
      return;
    }
    var maps := LoadTables(rows, repositories);
    for k := 0 to |rows|
      invariant forall row, link :: row in rows[..k] ==>
        row.RelatedOf(link) == Wanted(repositories.Table(link), row.IdOf(link), old(row.RelatedOf(link)))
      invariant forall row, link :: row in rows && row !in rows[..k] ==> row.RelatedOf(link) == old(row.RelatedOf(link))
      invariant forall row :: row in rows ==> row.details == old(row.details)
      invariant forall link ::
        repositories.QueriesOf(link) == old(repositories.QueriesOf(link)) + (if NeedsTable(rows, link) then 1 else 0)
    {
      HydrateRow(rows[k], maps);
      assert forall row :: row in rows[..k + 1] <==> row in rows[..k] || row == rows[k];
    }
    assert rows[..|rows|] == rows;
  }
}
