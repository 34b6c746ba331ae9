/**
 The read side (store/queries.rs): every listing is a filter over the columns. While the columns
 match the documents, each listing is the same filter over the hydrated notes.
 */
module Queries {
  import opened Text
  import opened Documents
  import Todos

  datatype Filter =
    | Live
    | Tagged(tag: string)
    | TaggedOfType(tag: string, noteType: string)
    | TrashedTagged(tag: string)
    | Todo
    | ModifiedOn(date: string)
    | Untagged
    | Pinned
    | Trash

  datatype FilterCounts = FilterCounts(todo: nat, today: nat, untagged: nat, pinned: nat, trash: nat)

  /** `substr(modified_at, 1, 10)`. */
  function Date(stamp: Stamp): string {
    if |stamp| < 10 then stamp else stamp[..10]
  }

  /** The `WHERE` clause of a listing. */
  predicate Selects(filter: Filter, c: Columns) {
    match filter
    case Live => !c.deleted
    case Tagged(tag) => !c.deleted && tag in c.tags
    case TaggedOfType(tag, noteType) => !c.deleted && tag in c.tags && c.noteType == noteType
    case TrashedTagged(tag) => c.deleted && tag in c.tags
    case Todo => !c.deleted && c.hasTodos
    case ModifiedOn(date) => !c.deleted && Date(c.modifiedAt) == date
    case Untagged => !c.deleted && c.tags == []
    case Pinned => !c.deleted && c.pinned
    case Trash => c.deleted
  }

  /** What the listing is for, said of a note. */
  ghost predicate Wanted(filter: Filter, n: Fields) {
    match filter
    case Live => !n.deleted
    case Tagged(tag) => !n.deleted && tag in n.tags
    case TaggedOfType(tag, noteType) => !n.deleted && tag in n.tags && n.noteType == noteType
    case TrashedTagged(tag) => n.deleted && tag in n.tags
    case Todo => !n.deleted && Todos.AnyOpenItem(Todos.Items(n.body))
    case ModifiedOn(date) =>
      !n.deleted && date <= n.modifiedAt && (|date| == 10 || (|date| < 10 && date == n.modifiedAt))
    case Untagged => !n.deleted && n.tags == []
    case Pinned => !n.deleted && n.pinned
    case Trash => n.deleted
  }

  function List(db: Db, filter: Filter): map<NoteId, Columns> {
    map id | id in db.notes && Selects(filter, db.notes[id].columns) :: db.notes[id].columns
  }

  ghost function HydratedList(lib: Crdt, db: Db, filter: Filter): map<NoteId, Columns> {
    map id | id in db.notes && Wanted(filter, lib.view(db.notes[id].doc)) :: ColumnsOf(lib.view(db.notes[id].doc))
  }

  lemma SelectsWanted(filter: Filter, n: Fields)
    ensures Selects(filter, ColumnsOf(n)) <==> Wanted(filter, n)
  {
    Todos.FlagIffOpenItem(Lines(n.body), 0);
    hide Todos.AnyOpenLine, Todos.AnyOpenItem, Todos.ItemsFrom, Lines;
  }

  /** No listing can tell the columns from the documents. */
  lemma ListsMatch(lib: Crdt, db: Db, filter: Filter)
    requires ColumnsMatch(lib, db)
    ensures List(db, filter) == HydratedList(lib, db, filter)
    ensures forall id :: id in List(db, filter) <==> id in db.notes && Wanted(filter, lib.view(db.notes[id].doc))
    ensures forall id | id in List(db, filter) :: Shows(List(db, filter)[id], lib.view(db.notes[id].doc))
  {
    hide Selects, Wanted, ColumnsOf, Shows;
    forall id | id in db.notes
      ensures db.notes[id].columns == ColumnsOf(lib.view(db.notes[id].doc))
      ensures Selects(filter, db.notes[id].columns) <==> Wanted(filter, lib.view(db.notes[id].doc))
      ensures Shows(db.notes[id].columns, lib.view(db.notes[id].doc))
    {
      assert RowMatches(lib, id, db.notes[id]);
      SelectsWanted(filter, lib.view(db.notes[id].doc));
      ColumnsShow(lib.view(db.notes[id].doc));
    }
  }

  // ---- the counts of every smart filter in one scan ----

  function ListAmong(db: Db, ids: set<NoteId>, filter: Filter): set<NoteId>
    requires ids <= db.notes.Keys
  {
    set id | id in ids && Selects(filter, db.notes[id].columns)
  }

  function Count(n: nat, filter: Filter, c: Columns): nat {
    if Selects(filter, c) then n + 1 else n
  }

  lemma CountOne(db: Db, ids: set<NoteId>, id: NoteId, filter: Filter)
    requires ids <= db.notes.Keys && id in db.notes && id !in ids
    ensures |ListAmong(db, ids + {id}, filter)| == Count(|ListAmong(db, ids, filter)|, filter, db.notes[id].columns)
  {
    hide Selects, ListAmong;
    AmongOne(db, ids, id, filter);
  }

  lemma AmongOne(db: Db, ids: set<NoteId>, id: NoteId, filter: Filter)
    requires ids <= db.notes.Keys && id in db.notes && id !in ids
    ensures id !in ListAmong(db, ids, filter)
    ensures ListAmong(db, ids + {id}, filter) ==
      ListAmong(db, ids, filter) + if Selects(filter, db.notes[id].columns) then {id} else {}
  {
    hide Selects;
  }

  lemma ListAmongAll(db: Db, filter: Filter)
    ensures ListAmong(db, db.notes.Keys, filter) == List(db, filter).Keys
    ensures |List(db, filter)| == |ListAmong(db, db.notes.Keys, filter)|
  {
    hide Selects;
    assert ListAmong(db, db.notes.Keys, filter) == List(db, filter).Keys;
    assert |List(db, filter)| == |List(db, filter).Keys|;
  }

  method CountFilters(db: Db, today: string) returns (r: FilterCounts)
    ensures r == FilterCounts(|List(db, Todo)|, |List(db, ModifiedOn(today))|, |List(db, Untagged)|,
                              |List(db, Pinned)|, |List(db, Trash)|)
  {
    hide Selects;
    r := FilterCounts(0, 0, 0, 0, 0);
    var rest := db.notes.Keys;
    ghost var seen: set<NoteId> := {};
    while rest != {}
      invariant seen + rest == db.notes.Keys && seen !! rest
      invariant r == FilterCounts(|ListAmong(db, seen, Todo)|, |ListAmong(db, seen, ModifiedOn(today))|,
        |ListAmong(db, seen, Untagged)|, |ListAmong(db, seen, Pinned)|, |ListAmong(db, seen, Trash)|)
      decreases rest
    {
      var id :| id in rest;
      var c := db.notes[id].columns;
      CountOne(db, seen, id, Todo);
      CountOne(db, seen, id, ModifiedOn(today));
      CountOne(db, seen, id, Untagged);
      CountOne(db, seen, id, Pinned);
      CountOne(db, seen, id, Trash);
      r := FilterCounts(Count(r.todo, Todo, c), Count(r.today, ModifiedOn(today), c), Count(r.untagged, Untagged, c),
                        Count(r.pinned, Pinned, c), Count(r.trash, Trash, c));
      rest := rest - {id};
      seen := seen + {id};
    }
    assert seen == db.notes.Keys;
    ListAmongAll(db, Todo);
    ListAmongAll(db, ModifiedOn(today));
    ListAmongAll(db, Untagged);
    ListAmongAll(db, Pinned);
    ListAmongAll(db, Trash);
  }
}
