# Trello board reshaping, modelled in Dafny

The model covers the reshaping pipeline of `processBoardJson.py`. It
turns a Trello board export into rows for a CSV file, in three stages:

1. **Extractors.** `get_lists`, `get_cards` and `get_checklists` turn a
   top-level array of the board into an `OrderedDict` from id to object.
   `get_card_lists` maps each card id to the ids in the card's
   `idChecklists`. Each `get_path(x, '$.key.[*]')` call is modelled as
   "the elements of the array under `key`, or none when the key is absent"
   (`BoardModel.Elements`).
2. **`process_card_lists`.** It applies in order:
   - each checklist is replaced by the `{text, date}` records of those
     check-items whose name matches
     `^"(.*?)":[\s"]*([0-9]{4}/[0-9]{2}/[0-9]{2})["]*$`;
   - each card's checklist ids are resolved against those checklists;
   - the cards are grouped into a two-level ordered dictionary,
     list name -> card name -> one sequence of records per checklist.
3. **`convert_json_to_flat`.** It walks that tree with a `current_row`
   stack and emits one row per checklist, or a two-cell row for a card
   with no checklists.

The files are:
- `wrappers.dfy`: Option and Result.
- `ordered_maps.dfy`: `OrderedDict` as the value `OMap(keys, m)`. `Put`
  appends a new key and overwrites an existing one in place. `FromPairs`
  describes, without a loop, the dictionary a run of assignments builds.
- `board.dfy`: the parts of the board export that the code reads.
- `date_pattern.dfy`: the regular expression, written out by hand.
- `process_board.dfy`: the extractors and `process_card_lists`.
- `flatten.dfy`: `convert_json_to_flat`.

The source's loops are modelled as methods with loops. Each method is
proved equal to a specification function on its inputs, and the promised
properties are proved as lemmas about those functions.

Two choices fix the regular expression's meaning:
- `$` matches at the end of the name or just before a final newline, as
  in Python.
- `\s` is Unicode-aware, as in a Python 3 `str` pattern. It is the set of
  characters for which `str.isspace()` holds.

`.` matches anything but a newline. The lazy group `(.*?)` is modelled as
a search that tries the shortest label first (`DatePattern.LazyLabel`).
`DatePattern.SplitIsUnique` proves that at most one label length can
ever fit. So a greedy group would give the same answer.

### Behaviour of the code worth knowing

The model follows the code, and four things follow from it:
- an item with no date gives no record at all: there is no "confirmed"
  record in its place;
- the unfilled `YYYY/MM/DD` placeholder does not match;
- the item's completion state is never read;
- a bracketed prefix before the quoted label makes the name not match.

`DatePattern.UndatedNamesDoNotMatch` shows that the first two yield no
record. `ProcessBoard.DatedRecordsIgnoreState` shows that the state is
never read.

The table has one row per checklist, not one row per card, and nothing in
it is sorted (`Flatten.FlatRowCount`, `Flatten.FlatRowShape`).

## Model

| member | source | states |
|---|---|---|
| OrderedMaps.OMap.Put | processBoardJson.py:44 | `d[k] = v`: binds k to v; a new key goes last and an existing key keeps its position |
| OrderedMaps.Empty | processBoardJson.py:40 | `OrderedDict()` has no keys, binds nothing and is valid |
| OrderedMaps.PutValid | processBoardJson.py:44 | assignment keeps each key listed once and the listed keys equal to the bound ones |
| OrderedMaps.FromPairsSnoc | processBoardJson.py:42-44 | one more assignment at the end of a run of assignments is one more Put on the dictionary the run built |
| OrderedMaps.FromPairsLast | processBoardJson.py:42-44 | the last assignment to a key supplies its value (last write wins) |
| OrderedMaps.FromPairsKeys | processBoardJson.py:42-44 | the bound keys are exactly the keys that were assigned |
| OrderedMaps.DedupOrder | processBoardJson.py:42-44 | the keys come in order of first assignment |
| BoardModel.Elements | processBoardJson.py:23-31 | `get_path(x, '$.key.[*]')` gives the elements of the array under the key, in array order, and nothing when the key is absent |
| ProcessBoard.IndexById | processBoardJson.py:40-44 | the shared extractor loop builds exactly FromPairs of (id, object) in array order |
| ProcessBoard.IndexedById | processBoardJson.py:34-46 | the extractor's keys are exactly the array's ids, each once; a key is bound iff some object has that id; the last object with an id is its value |
| ProcessBoard.IndexedInOrder | processBoardJson.py:34-46 | the extractor's keys are in order of first occurrence in the array |
| ProcessBoard.GetLists | processBoardJson.py:34-46 | `get_lists` returns the id -> list dictionary of `$.lists.[*]`, well-formed |
| ProcessBoard.GetCards | processBoardJson.py:49-62 | `get_cards` returns the id -> card dictionary of `$.cards.[*]`, well-formed |
| ProcessBoard.GetChecklists | processBoardJson.py:77-89 | `get_checklists` returns the id -> checklist dictionary of `$.checklists.[*]`, well-formed |
| ProcessBoard.GetCardLists | processBoardJson.py:65-74 | same keys in the same order as `cards`; each card id bound to its `idChecklists` elements in order, and to [] when the array is absent |
| DatePattern.IsSpace | processBoardJson.py:104 | `\s` takes in space, tab, newline and carriage return, and none of the digits, quote, `/` or `:` the rest of the pattern needs |
| DatePattern.MatchTail | processBoardJson.py:104 | `[\s"]*(date)["]*$` matches the rest of a name for at most one date, and this finds it when it exists |
| DatePattern.SplitIsUnique | processBoardJson.py:104 | no two label lengths (or two dates) both fit one name |
| DatePattern.LazyLabel | processBoardJson.py:104 | the lazy search from label length k returns a fitting split whose label is no longer than any fitting label of length at least k |
| DatePattern.MatchDated | processBoardJson.py:104-108 | `re.search` returns groups (label, date) that fit the pattern at the label's length, label = the characters after the opening quote, date in `YYYY/MM/DD` digit shape, and it matches whenever any split fits, with the shortest label |
| DatePattern.MatchHasDigit | processBoardJson.py:104 | a matching name holds a digit |
| DatePattern.NoDigitNoMatch | processBoardJson.py:104-108 | a name without digits never matches |
| DatePattern.LabelledDate | processBoardJson.py:104-113 | `"label": date`, with no newline in the label and a well-shaped date, gives exactly (label, date) |
| DatePattern.PlaceholderDoesNotMatch | processBoardJson.py:104-108 | a label without digits followed by the unfilled `YYYY/MM/DD` template gives no match |
| DatePattern.ConsentFormDated | processBoardJson.py:104-113 | `"Consent Form": 2023/04/01` gives the record (Consent Form, 2023/04/01) |
| DatePattern.UndatedNamesDoNotMatch | processBoardJson.py:104-108 | `Reviewed by PI` and `"Consent Form": YYYY/MM/DD` give no record |
| ProcessBoard.DatedCheckItems | processBoardJson.py:105-113 | the inner loop collects exactly the records of the matching items, in item order |
| ProcessBoard.DatedRecordsMembers | processBoardJson.py:105-113 | a record is produced iff some item's name matches with that record as its groups |
| ProcessBoard.DatedRecordsAppend | processBoardJson.py:105-113 | records keep item order: the records of a concatenation are the concatenation of the records |
| ProcessBoard.DatedRecordsShorter | processBoardJson.py:105-113 | a checklist yields no more records than it has items |
| ProcessBoard.DatedRecordsIgnoreState | processBoardJson.py:105-113 | items that differ only in state (or id) give the same records |
| ProcessBoard.DateChecklists | processBoardJson.py:99-115 | each checklist is replaced by its records; the key order is unchanged |
| ProcessBoard.ResolveIds | processBoardJson.py:119-124 | a card's checklist ids become the checklists found for them, in order; missing ids are skipped |
| ProcessBoard.ResolveIsLookup | processBoardJson.py:119-124 | the result is, position by position, the value of each known id in order, and only known ids count |
| ProcessBoard.ResolveCardChecklists | processBoardJson.py:118-126 | each card's ids are replaced by the resolved checklists; the key order is unchanged |
| ProcessBoard.GroupedSnoc | processBoardJson.py:131-137 | one more card placed is one more step of the loop body: into the existing bucket, which keeps its place, or into a new one-card bucket at the end |
| ProcessBoard.PlaceInto | processBoardJson.py:132-137 | one loop step: an existing list bucket keeps its place and a new one is appended; inside it an existing card name keeps its place and a new one is appended; the card name is bound to the card's checklists |
| ProcessBoard.GroupedIsPlaceAll | processBoardJson.py:131-137 | the tree built by one loop-body step per card equals the declarative grouping of all placements |
| ProcessBoard.GroupedLastWins | processBoardJson.py:133 | of the placements with the same list name and card name, the last supplies the checklists |
| ProcessBoard.GroupedHas | processBoardJson.py:133-137 | every placed card is in the tree under its list name and card name |
| ProcessBoard.GroupedInOrder | processBoardJson.py:131-137 | list buckets come in order of the first card placed in each |
| ProcessBoard.GroupedCardsInOrder | processBoardJson.py:131-137 | inside a list bucket, card names come in order of the first card with that name placed into the list |
| ProcessBoard.GroupCards | processBoardJson.py:128-137 | the grouping loop builds the grouped tree of all placements, or fails on the first card whose `idList` names no list |
| ProcessBoard.ProcessCardLists | processBoardJson.py:93-139 | `process_card_lists` yields the specified tree, which is well-formed at both levels, or the error |
| ProcessBoard.PlacementsOf | processBoardJson.py:118-137 | on success the tree is the grouping of one placement per card, in card order, under the name of the card's list, with the card's resolved checklists |
| ProcessBoard.BuildTreeFails | processBoardJson.py:131-137 | the run fails iff some kept card's `idList` names no list of the array; the error names the first such card in card order |
| ProcessBoard.CardPlacement | processBoardJson.py:133 | every card (the last with its id) is under `lists[idList].name`, then under its name |
| ProcessBoard.CardLastWins | processBoardJson.py:118-137 | of cards with the same list and card names, the last in card order supplies its resolved checklists |
| Flatten.Cells | processBoardJson.py:151-153 | a checklist pushes two cells per item |
| Flatten.CellsAt | processBoardJson.py:151-153 | cell 2i of a checklist's cells is item i's text and cell 2i+1 its date |
| Flatten.DropLast | processBoardJson.py:156-158 | `current_row[:-n]` is a prefix of the row with n fewer cells, or empty when the row has no more than n |
| Flatten.WriteCard | processBoardJson.py:147-157 | one card's rows are appended after the rows already written, which stay unchanged, and `current_row` is back to [list, card] |
| Flatten.WriteList | processBoardJson.py:145-158 | one list's rows are appended after the rows already written, and `current_row` is back to [list] |
| Flatten.ConvertToFlat | processBoardJson.py:141-160 | the nested loops produce exactly the rows of lists, cards and checklists in order |
| Flatten.FlatRowCount | processBoardJson.py:144-158 | the number of rows is the sum over cards of max(1, number of checklists) |
| Flatten.FlatRowShape | processBoardJson.py:145-158 | every row is [list name, card name] of a card in the tree, then the text/date cells of one of its checklists, or nothing more for a card without checklists |

## Left out

- getData.py is not part of this model. It is an HTTP client for Trello: it fetches boards, cards and plugin data over the network.
- `import_json`, `load_config`, `get_trello_dump` and the main block are left out. They do file input, configuration parsing, HTTP requests, time stamps, CSV output and the per-board error loop. The board document is a parameter of the model instead.
- The jsonpath library is modelled only for the fixed paths `$.lists.[*]`, `$.cards.[*]`, `$.checklists.[*]`, `$.checkItems.[*]` and `$.idChecklists.[*]`.
- Python's `re` engine is modelled only for the one fixed pattern.
- Missing `id`, `name` or `idList` keys are not modelled: the typed board has every such field. In the source they raise KeyError.
- Values of the wrong JSON type are not modelled. Under `lists`, `cards`, `checklists`, `checkItems` or `idChecklists`, jsonpath's `[*]` reads an object, a string, an integer or a boolean as a one-element array. For example, `"idChecklists": "abc"` gives the id list `["abc"]` with no error. Only `null` or a float there raises TypeError, when `len` is taken.
- Names holding a lone surrogate (such as a JSON `"\ud800"`) cannot be represented: a Dafny `string` holds only Unicode scalar values, while a Python `str` can hold one and `.` in the pattern matches it.
- `deepcopy` and list aliasing are not modelled: rows and dictionaries are values. This loses nothing. The row appended for a card without checklists is the live `current_row` list, but the code only rebinds that name by slicing afterwards and never mutates the list in place.
- Flatten.ConvertToFlat: the bodies of the list and card loops are the methods WriteList and WriteCard. `current_row` is passed in and out of them, rather than being a single variable of one method.
