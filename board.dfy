/** The parts of a Trello board export that the reshaping reads. Only the
    fields the code looks at are kept. An array-valued field that the
    export may leave out is an Option: None stands for "key absent". */
module BoardModel {
  import opened Wrappers

  type Id = string

  /** An element of a checklist's `checkItems`. `state` is carried even
      though nothing reads it. */
  datatype CheckItem = CheckItem(id: Id, name: string, state: string)

  datatype Checklist = Checklist(id: Id, checkItems: Option<seq<CheckItem>>)

  datatype BoardList = BoardList(id: Id, name: string)

  datatype Card = Card(id: Id, name: string, idList: Id, idChecklists: Option<seq<Id>>)

  /** The board document, with its three top-level arrays. */
  datatype Board = Board(
    lists: Option<seq<BoardList>>,
    cards: Option<seq<Card>>,
    checklists: Option<seq<Checklist>>)

  /** `get_path(x, '$.key.[*]')` taken only for the fixed paths the code
      uses: the elements of the array under the key, in array order, or
      nothing when the key is absent. */
  function Elements<T>(field: Option<seq<T>>): (r: seq<T>)
    ensures field.Some? ==> r == field.value
    ensures field.None? ==> r == []
  {
    match field
    case Some(s) => s
    case None => []
  }

  function ListId(l: BoardList): Id { l.id }

  function CardId(c: Card): Id { c.id }

  function ChecklistId(c: Checklist): Id { c.id }
}
