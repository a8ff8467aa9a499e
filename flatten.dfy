/** `convert_json_to_flat`: the readable tree becomes CSV rows, one per
    checklist of each card, or one two-cell row for a card without
    checklists. Rows are values, so the `deepcopy` before each append has
    nothing left to do. */
module Flatten {
  import opened OrderedMaps
  import opened DatePattern
  import opened ProcessBoard

  type Row = seq<string>

  /** The cells one checklist adds to a row: text, date, text, date, ... */
  function Cells(checklist: seq<DatedItem>): (r: seq<string>)
    ensures |r| == 2 * |checklist|
  {
    if checklist == [] then []
    else
      var n := |checklist| - 1;
      Cells(checklist[..n]) + [checklist[n].text, checklist[n].date]
  }

  /** Cell 2i of a checklist's cells is the text of its item i, and cell
      2i + 1 that item's date. */
  lemma {:induction false} CellsAt(checklist: seq<DatedItem>, i: nat)
    requires i < |checklist|
    ensures Cells(checklist)[2 * i] == checklist[i].text
    ensures Cells(checklist)[2 * i + 1] == checklist[i].date
  {
    var n := |checklist| - 1;
    if i < n {
      CellsAt(checklist[..n], i);
    }
  }

  /** The rows of a card once its first n checklists are written: the
      two-cell row of a card without checklists, then one row per
      checklist, the list name and the card name followed by its cells. */
  function CardRowsUpTo(list: string, card: string, checklists: seq<seq<DatedItem>>, n: nat): seq<Row>
    requires n <= |checklists|
  {
    if n == 0 then (if checklists == [] then [[list, card]] else [])
    else CardRowsUpTo(list, card, checklists, n - 1) + [[list, card] + Cells(checklists[n - 1])]
  }

  /** All the rows of one card. */
  function CardRows(list: string, card: string, checklists: seq<seq<DatedItem>>): seq<Row> {
    CardRowsUpTo(list, card, checklists, |checklists|)
  }

  /** The rows of the first n cards of one list bucket, in order. */
  function BucketRows(list: string, bucket: Bucket, n: nat): seq<Row>
    requires bucket.Valid() && n <= |bucket.keys|
  {
    if n == 0 then []
    else
      var card := bucket.keys[n - 1];
      BucketRows(list, bucket, n - 1) + CardRows(list, card, bucket.m[card])
  }

  /** The rows of the first n lists of the tree, in order. */
  function TreeRows(tree: Tree, n: nat): seq<Row>
    requires WellFormed(tree) && n <= |tree.keys|
  {
    if n == 0 then []
    else
      var l := tree.keys[n - 1];
      TreeRows(tree, n - 1) + BucketRows(l, tree.m[l], |tree.m[l].keys|)
  }

  /** The table `convert_json_to_flat` produces, described without the
      row stack: lists in order, cards in order, checklists in order. */
  function FlatRows(tree: Tree): seq<Row>
    requires WellFormed(tree)
  {
    TreeRows(tree, |tree.keys|)
  }

  /** Python's `row[:-n]` for n >= 1: the row without its last n cells,
      or the empty row when it has no more than n. */
  function DropLast(row: Row, n: nat): (r: Row)
    requires n >= 1
    ensures r <= row
    ensures |r| == if n <= |row| then |row| - n else 0
  {
    if n <= |row| then row[..|row| - n] else []
  }

  /** `convert_json_to_flat`. The loop invariants hold the stack
      discipline of `current_row`: it is [] between lists, [list name]
      inside a list (WriteList) and [list name, card name] inside a card
      (WriteCard). */
  method ConvertToFlat(tree: Tree) returns (flat: seq<Row>)
    requires WellFormed(tree)
    ensures flat == FlatRows(tree)
  {
    flat := [];
    var row: Row := [];
    var lists := tree.keys;
    for i := 0 to |lists|
      invariant row == []
      invariant flat == TreeRows(tree, i)
    {
      var listName := lists[i];
      row := row + [listName];
      flat, row := WriteList(flat, row, tree.m[listName]);
      row := DropLast(row, 1);
    }
  }

  /** The body of the list loop of `convert_json_to_flat`, with
      `current_row` = [list name] on entry and on exit. */
  method WriteList(flat: seq<Row>, row: Row, bucket: Bucket) returns (flat': seq<Row>, row': Row)
    requires bucket.Valid() && |row| == 1
    ensures flat' == flat + BucketRows(row[0], bucket, |bucket.keys|)
    ensures row' == row
  {
    var listName := row[0];
    assert row == [listName];
    flat', row' := flat, row;
    var cards := bucket.keys;
    for j := 0 to |cards|
      invariant row' == [listName]
      invariant flat' == flat + BucketRows(listName, bucket, j)
    {
      var cardName := cards[j];
      AppendAssoc(flat, BucketRows(listName, bucket, j), CardRows(listName, cardName, bucket.m[cardName]));
      row' := row' + [cardName];
      flat', row' := WriteCard(flat', row', bucket.m[cardName]);
      row' := DropLast(row', 1);
    }
  }

  /** The body of the card loop of `convert_json_to_flat`, with
      `current_row` = [list name, card name] on entry and on exit: a card
      without checklists is written as that row, otherwise each checklist
      pushes its cells, is written, and pops them again. */
  method WriteCard(flat: seq<Row>, row: Row, checklists: seq<seq<DatedItem>>)
    returns (flat': seq<Row>, row': Row)
    requires |row| == 2
    ensures flat' == flat + CardRows(row[0], row[1], checklists)
    ensures row' == row
  {
    var listName, cardName := row[0], row[1];
    assert row == [listName, cardName];
    flat', row' := flat, row;
    if |checklists| == 0 {
      flat' := flat' + [row'];
    }
    for n := 0 to |checklists|
      invariant row' == [listName, cardName]
      invariant flat' == flat + CardRowsUpTo(listName, cardName, checklists, n)
    {
      var checklist := checklists[n];
      for m := 0 to |checklist|
        invariant row' == [listName, cardName] + Cells(checklist[..m])
      {
        assert checklist[..m + 1][..m] == checklist[..m];
        row' := row' + [checklist[m].text, checklist[m].date];
      }
      assert checklist[..|checklist|] == checklist;
      AppendAssoc(flat, CardRowsUpTo(listName, cardName, checklists, n), [row']);
      flat' := flat' + [row'];
      if |checklist| > 0 {
        DropCells(listName, cardName, checklist);
        row' := DropLast(row', |checklist| * 2);
      }
    }
  }

  lemma AppendAssoc<T>(a: seq<T>, b: seq<T>, c: seq<T>)
    ensures (a + b) + c == a + (b + c)
  {
  }

  lemma DropCells(list: string, card: string, checklist: seq<DatedItem>)
    requires |checklist| > 0
    ensures DropLast([list, card] + Cells(checklist), |checklist| * 2) == [list, card]
  {
    var row := [list, card] + Cells(checklist);
    assert row[..|row| - |checklist| * 2] == [list, card];
  }

  // ---------------------------------------------------------------------
  // Properties of the table

  /** The number of rows one card contributes: max(1, its checklists). */
  function RowsFor(checklists: seq<seq<DatedItem>>): nat {
    if checklists == [] then 1 else |checklists|
  }

  function BucketRowCount(bucket: Bucket, n: nat): nat
    requires bucket.Valid() && n <= |bucket.keys|
  {
    if n == 0 then 0
    else BucketRowCount(bucket, n - 1) + RowsFor(bucket.m[bucket.keys[n - 1]])
  }

  function TreeRowCount(tree: Tree, n: nat): nat
    requires WellFormed(tree) && n <= |tree.keys|
  {
    if n == 0 then 0
    else
      var l := tree.keys[n - 1];
      TreeRowCount(tree, n - 1) + BucketRowCount(tree.m[l], |tree.m[l].keys|)
  }

  lemma {:induction false} CardRowsCount(list: string, card: string, checklists: seq<seq<DatedItem>>, n: nat)
    requires n <= |checklists|
    ensures |CardRowsUpTo(list, card, checklists, n)| == n + (if checklists == [] then 1 else 0)
  {
    if n > 0 {
      CardRowsCount(list, card, checklists, n - 1);
    }
  }

  lemma {:induction false} BucketRowsCount(list: string, bucket: Bucket, n: nat)
    requires bucket.Valid() && n <= |bucket.keys|
    ensures |BucketRows(list, bucket, n)| == BucketRowCount(bucket, n)
  {
    if n > 0 {
      var card := bucket.keys[n - 1];
      BucketRowsCount(list, bucket, n - 1);
      CardRowsCount(list, card, bucket.m[card], |bucket.m[card]|);
    }
  }

  lemma {:induction false} TreeRowsCount(tree: Tree, n: nat)
    requires WellFormed(tree) && n <= |tree.keys|
    ensures |TreeRows(tree, n)| == TreeRowCount(tree, n)
  {
    if n > 0 {
      var l := tree.keys[n - 1];
      TreeRowsCount(tree, n - 1);
      BucketRowsCount(l, tree.m[l], |tree.m[l].keys|);
    }
  }

  /** The table has exactly one row per checklist of each card, and one for
      each card without checklists: the sum over the tree's cards of
      max(1, number of checklists). */
  lemma FlatRowCount(tree: Tree)
    requires WellFormed(tree)
    ensures |FlatRows(tree)| == TreeRowCount(tree, |tree.keys|)
  {
    TreeRowsCount(tree, |tree.keys|);
  }

  /** A row of the table: the list name and card name of a card in the
      tree, then the cells of one of its checklists, or nothing more when
      the card has no checklists. */
  ghost predicate IsRowOf(tree: Tree, row: Row)
    requires WellFormed(tree)
  {
    && |row| >= 2
    && row[0] in tree.m
    && row[1] in tree.m[row[0]].m
    && var checklists := tree.m[row[0]].m[row[1]];
       || (checklists == [] && row == [row[0], row[1]])
       || exists k :: 0 <= k < |checklists| && row == [row[0], row[1]] + Cells(checklists[k])
  }

  lemma {:induction false} CardRowsShape(tree: Tree, list: string, card: string, n: nat)
    requires WellFormed(tree)
    requires list in tree.m && card in tree.m[list].m
    requires n <= |tree.m[list].m[card]|
    ensures forall row :: row in CardRowsUpTo(list, card, tree.m[list].m[card], n) ==> IsRowOf(tree, row)
  {
    var checklists := tree.m[list].m[card];
    if n > 0 {
      CardRowsShape(tree, list, card, n - 1);
      var row := [list, card] + Cells(checklists[n - 1]);
      assert row == [row[0], row[1]] + Cells(checklists[n - 1]);
    }
  }

  lemma {:induction false} BucketRowsShape(tree: Tree, list: string, n: nat)
    requires WellFormed(tree)
    requires list in tree.m && n <= |tree.m[list].keys|
    ensures forall row :: row in BucketRows(list, tree.m[list], n) ==> IsRowOf(tree, row)
  {
    if n > 0 {
      var card := tree.m[list].keys[n - 1];
      BucketRowsShape(tree, list, n - 1);
      CardRowsShape(tree, list, card, |tree.m[list].m[card]|);
    }
  }

  lemma {:induction false} TreeRowsShape(tree: Tree, n: nat)
    requires WellFormed(tree) && n <= |tree.keys|
    ensures forall row :: row in TreeRows(tree, n) ==> IsRowOf(tree, row)
  {
    if n > 0 {
      var l := tree.keys[n - 1];
      TreeRowsShape(tree, n - 1);
      BucketRowsShape(tree, l, |tree.m[l].keys|);
    }
  }

  /** Every row is [list name, card name] followed by the (text, date)
      cells of exactly one checklist of that card. */
  lemma FlatRowShape(tree: Tree)
    requires WellFormed(tree)
    ensures forall row :: row in FlatRows(tree) ==> IsRowOf(tree, row)
  {
    TreeRowsShape(tree, |tree.keys|);
  }
}
