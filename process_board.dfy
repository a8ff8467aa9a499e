/** `process_card_lists` and the extractors it calls: the board document
    becomes the readable tree, list name -> card name -> one sequence of
    dated items per checklist of the card. */
module ProcessBoard {
  import opened Wrappers
  import opened OrderedMaps
  import opened BoardModel
  import opened DatePattern

  /** card name -> the dated items of each of the card's checklists */
  type Bucket = OMap<string, seq<seq<DatedItem>>>

  /** list name -> its cards */
  type Tree = OMap<string, Bucket>

  /** A card whose `idList` names no list: the lookup raises KeyError in
      the `try` and again in the `except` branch, so the run aborts. */
  datatype ProcessError = UnknownList(card: Id, idList: Id)

  /** Both levels of the tree are well-formed ordered dictionaries. */
  ghost predicate WellFormed(t: Tree) {
    t.Valid() && forall l :: l in t.m ==> t.m[l].Valid()
  }

  // ---------------------------------------------------------------------
  // Extractors: get_lists, get_cards, get_checklists, get_card_lists

  /** Each object paired with its id, in array order. */
  function Tagged<T>(objs: seq<T>, idOf: T -> Id): (ps: seq<(Id, T)>)
    ensures |ps| == |objs|
    ensures forall i :: 0 <= i < |objs| ==> ps[i] == (idOf(objs[i]), objs[i])
  {
    seq(|objs|, i requires 0 <= i < |objs| => (idOf(objs[i]), objs[i]))
  }

  /** The loop the three extractors share: `d[obj['id']] = obj` for every
      object of the array, into an empty OrderedDict. */
  method IndexById<T>(objs: seq<T>, idOf: T -> Id) returns (r: OMap<Id, T>)
    ensures r == FromPairs(Tagged(objs, idOf))
  {
    r := Empty();
    FromPairsEmpty<Id, T>();
    for i := 0 to |objs|
      invariant r == FromPairs(Tagged(objs[..i], idOf))
    {
      assert Tagged(objs[..i + 1], idOf) == Tagged(objs[..i], idOf) + [(idOf(objs[i]), objs[i])];
      FromPairsSnoc(Tagged(objs[..i], idOf), idOf(objs[i]), objs[i]);
      r := r.Put(idOf(objs[i]), objs[i]);
    }
    assert objs[..|objs|] == objs;
  }

  /** What an extractor's dictionary holds: its keys are exactly the ids in
      the array, in order of first occurrence, and an object that is the
      last one with its id is the value of that id. */
  lemma IndexedById<T>(objs: seq<T>, idOf: T -> Id)
    ensures FromPairs(Tagged(objs, idOf)).Valid()
    ensures FromPairs(Tagged(objs, idOf)).keys == Dedup(Firsts(Tagged(objs, idOf)))
    ensures forall i :: 0 <= i < |objs| ==> Firsts(Tagged(objs, idOf))[i] == idOf(objs[i])
    ensures forall k :: k in FromPairs(Tagged(objs, idOf)).m <==>
      exists i :: 0 <= i < |objs| && idOf(objs[i]) == k
    ensures forall i :: 0 <= i < |objs| && IsLastWithId(objs, idOf, i) ==>
      FromPairs(Tagged(objs, idOf)).m[idOf(objs[i])] == objs[i]
  {
    var ps := Tagged(objs, idOf);
    FromPairsKeys(ps);
    forall i | 0 <= i < |objs| && IsLastWithId(objs, idOf, i)
      ensures FromPairs(ps).m[idOf(objs[i])] == objs[i]
    {
      FromPairsLast(ps, i);
    }
  }

  /** An extractor's keys come in order of first occurrence in the array. */
  lemma IndexedInOrder<T>(objs: seq<T>, idOf: T -> Id, i: nat, j: nat)
    requires i < j < |FromPairs(Tagged(objs, idOf)).keys|
    ensures var ks, ids := FromPairs(Tagged(objs, idOf)).keys, Firsts(Tagged(objs, idOf));
      ks[i] in ids && ks[j] in ids && FirstIndex(ids, ks[i]) < FirstIndex(ids, ks[j])
  {
    DedupOrder(Firsts(Tagged(objs, idOf)), i, j);
  }

  /** No later object of the array has the same id as objs[i]. */
  ghost predicate IsLastWithId<T>(objs: seq<T>, idOf: T -> Id, i: int)
    requires 0 <= i < |objs|
  {
    forall j :: i < j < |objs| ==> idOf(objs[j]) != idOf(objs[i])
  }

  function ListsOf(board: Board): OMap<Id, BoardList> {
    FromPairs(Tagged(Elements(board.lists), ListId))
  }

  function CardsOf(board: Board): OMap<Id, Card> {
    FromPairs(Tagged(Elements(board.cards), CardId))
  }

  function ChecklistsOf(board: Board): OMap<Id, Checklist> {
    FromPairs(Tagged(Elements(board.checklists), ChecklistId))
  }

  /** `get_lists`: list id -> list, from `$.lists.[*]`. */
  method GetLists(board: Board) returns (lists: OMap<Id, BoardList>)
    ensures lists == ListsOf(board)
    ensures lists.Valid()
  {
    lists := IndexById(Elements(board.lists), ListId);
  }

  /** `get_cards`: card id -> card, from `$.cards.[*]`. */
  method GetCards(board: Board) returns (cards: OMap<Id, Card>)
    ensures cards == CardsOf(board)
    ensures cards.Valid()
  {
    cards := IndexById(Elements(board.cards), CardId);
  }

  /** `get_checklists`: checklist id -> checklist, from `$.checklists.[*]`. */
  method GetChecklists(board: Board) returns (checklists: OMap<Id, Checklist>)
    ensures checklists == ChecklistsOf(board)
    ensures checklists.Valid()
  {
    checklists := IndexById(Elements(board.checklists), ChecklistId);
  }

  /** card id -> its `idChecklists` elements, keyed exactly as `cards`. */
  function CardChecklistIds(cards: OMap<Id, Card>): (r: OMap<Id, seq<Id>>)
    requires cards.Valid()
    ensures r.Valid()
  {
    OMap(cards.keys, map k | k in cards.m :: Elements(cards.m[k].idChecklists))
  }

  /** `get_card_lists`: the same keys as `cards`, in the same order, each
      card id bound to the elements of its `idChecklists` in array order,
      and to [] when the card has no such array. */
  method GetCardLists(cards: OMap<Id, Card>) returns (cardLists: OMap<Id, seq<Id>>)
    requires cards.Valid()
    ensures cardLists == CardChecklistIds(cards)
    ensures cardLists.Valid() && cardLists.keys == cards.keys
    ensures forall k :: k in cards.m ==>
      && k in cardLists.m
      && cardLists.m[k] == Elements(cards.m[k].idChecklists)
      && (cards.m[k].idChecklists.None? ==> cardLists.m[k] == [])
  {
    var keys, target := cards.keys, CardChecklistIds(cards).m;
    PrefixEnds(keys, target);
    cardLists := Empty();
    for i := 0 to |keys|
      invariant cardLists == Prefix(keys, target, i)
    {
      PrefixStep(keys, target, i);
      cardLists := cardLists.Put(keys[i], Elements(cards.m[keys[i]].idChecklists));
    }
  }

  // ---------------------------------------------------------------------
  // Dated items of a checklist (processBoardJson.py:99-115)

  /** The results f gives for the elements of xs, in order, with the
      elements it gives nothing for left out. */
  function FilterMap<T, U>(xs: seq<T>, f: T -> Option<U>): seq<U> {
    if xs == [] then []
    else
      var n := |xs| - 1;
      FilterMap(xs[..n], f) + (match f(xs[n]) case Some(y) => [y] case None => [])
  }

  lemma {:induction false} FilterMapAppend<T, U>(a: seq<T>, b: seq<T>, f: T -> Option<U>)
    ensures FilterMap(a + b, f) == FilterMap(a, f) + FilterMap(b, f)
  {
    if b == [] {
      assert a + b == a;
    } else {
      var b' := b[..|b| - 1];
      assert (a + b)[..|a + b| - 1] == a + b';
      FilterMapAppend(a, b', f);
    }
  }

  lemma {:induction false} FilterMapShorter<T, U>(xs: seq<T>, f: T -> Option<U>)
    ensures |FilterMap(xs, f)| <= |xs|
  {
    if xs != [] {
      FilterMapShorter(xs[..|xs| - 1], f);
    }
  }

  lemma {:induction false} FilterMapHas<T, U>(xs: seq<T>, f: T -> Option<U>, i: nat)
    requires i < |xs| && f(xs[i]).Some?
    ensures f(xs[i]).value in FilterMap(xs, f)
  {
    var n := |xs| - 1;
    if i < n {
      assert xs[..n][i] == xs[i];
      FilterMapHas(xs[..n], f, i);
    }
  }

  lemma {:induction false} FilterMapSource<T, U>(xs: seq<T>, f: T -> Option<U>, y: U) returns (i: nat)
    requires y in FilterMap(xs, f)
    ensures i < |xs| && f(xs[i]) == Some(y)
  {
    var n := |xs| - 1;
    if y in FilterMap(xs[..n], f) {
      i := FilterMapSource(xs[..n], f, y);
      assert xs[..n][i] == xs[i];
    } else {
      i := n;
    }
  }

  lemma {:induction false} FilterMapSame<T, U>(xs: seq<T>, ys: seq<T>, f: T -> Option<U>)
    requires |xs| == |ys|
    requires forall i :: 0 <= i < |xs| ==> f(xs[i]) == f(ys[i])
    ensures FilterMap(xs, f) == FilterMap(ys, f)
  {
    if xs != [] {
      var n := |xs| - 1;
      FilterMapSame(xs[..n], ys[..n], f);
    }
  }

  /** The record one check-item yields, when its name matches the pattern.
      Its state is not consulted. */
  function ItemDate(item: CheckItem): Option<DatedItem> {
    MatchDated(item.name)
  }

  /** The dated records of a sequence of check-items, in item order. */
  function DatedRecords(items: seq<CheckItem>): seq<DatedItem> {
    FilterMap(items, ItemDate)
  }

  /** The inner loop at processBoardJson.py:105-113. */
  method DatedCheckItems(items: seq<CheckItem>) returns (dated: seq<DatedItem>)
    ensures dated == DatedRecords(items)
  {
    dated := [];
    for i := 0 to |items|
      invariant dated == FilterMap(items[..i], ItemDate)
    {
      assert items[..i + 1][..i] == items[..i];
      var completed := MatchDated(items[i].name);
      if completed.Some? {
        // group 2 is part of every match, so the `is not None` test holds
        dated := dated + [completed.value];
      }
    }
    assert items[..|items|] == items;
  }

  /** Records of a concatenation are the records of the parts, in order. */
  lemma DatedRecordsAppend(a: seq<CheckItem>, b: seq<CheckItem>)
    ensures DatedRecords(a + b) == DatedRecords(a) + DatedRecords(b)
  {
    FilterMapAppend(a, b, ItemDate);
  }

  /** A checklist never yields more records than it has check-items. */
  lemma DatedRecordsShorter(items: seq<CheckItem>)
    ensures |DatedRecords(items)| <= |items|
  {
    FilterMapShorter(items, ItemDate);
  }

  /** A record is in the output exactly when some check-item's name
      matches the pattern with that record as its groups. */
  lemma DatedRecordsMembers(items: seq<CheckItem>, d: DatedItem)
    ensures d in DatedRecords(items) <==>
      exists i :: 0 <= i < |items| && MatchDated(items[i].name) == Some(d)
  {
    if d in DatedRecords(items) {
      var i := FilterMapSource(items, ItemDate, d);
      assert ItemDate(items[i]) == MatchDated(items[i].name);
    }
    if exists i :: 0 <= i < |items| && MatchDated(items[i].name) == Some(d) {
      var i :| 0 <= i < |items| && MatchDated(items[i].name) == Some(d);
      assert ItemDate(items[i]) == Some(d);
      FilterMapHas(items, ItemDate, i);
    }
  }

  /** Only names matter: items that differ only in `state` (or `id`) give
      the same records. */
  lemma DatedRecordsIgnoreState(items: seq<CheckItem>, others: seq<CheckItem>)
    requires |items| == |others|
    requires forall i :: 0 <= i < |items| ==> items[i].name == others[i].name
    ensures DatedRecords(items) == DatedRecords(others)
  {
    forall i | 0 <= i < |items|
      ensures ItemDate(items[i]) == ItemDate(others[i])
    {
    }
    FilterMapSame(items, others, ItemDate);
  }

  /** checklist id -> its dated records, keyed exactly as `checklists`. */
  function DatedChecklists(checklists: OMap<Id, Checklist>): (r: OMap<Id, seq<DatedItem>>)
    requires checklists.Valid()
    ensures r.Valid()
  {
    OMap(checklists.keys,
         map k | k in checklists.m :: DatedRecords(Elements(checklists.m[k].checkItems)))
  }

  /** The loop at processBoardJson.py:101-115, which overwrites each
      checklist with its dated records. The key order is unchanged. */
  method DateChecklists(checklists: OMap<Id, Checklist>) returns (dated: OMap<Id, seq<DatedItem>>)
    requires checklists.Valid()
    ensures dated == DatedChecklists(checklists)
    ensures dated.keys == checklists.keys
  {
    var keys, target := checklists.keys, DatedChecklists(checklists).m;
    PrefixEnds(keys, target);
    dated := Empty();
    for i := 0 to |keys|
      invariant dated == Prefix(keys, target, i)
    {
      var records := DatedCheckItems(Elements(checklists.m[keys[i]].checkItems));
      PrefixStep(keys, target, i);
      dated := dated.Put(keys[i], records);
    }
  }

  // ---------------------------------------------------------------------
  // Checklist ids of each card (processBoardJson.py:117-126)

  /** The values of the ids that are bound in m, in order; unbound ids are
      skipped. */
  function Resolve<V>(ids: seq<Id>, m: map<Id, V>): seq<V> {
    if ids == [] then []
    else
      var last := ids[|ids| - 1];
      Resolve(ids[..|ids| - 1], m) + (if last in m then [m[last]] else [])
  }

  /** The ids bound in m, in their original order. */
  function KnownIds<V>(ids: seq<Id>, m: map<Id, V>): (r: seq<Id>)
    ensures |r| <= |ids|
    ensures forall x :: x in r <==> x in ids && x in m
  {
    if ids == [] then []
    else
      var last := ids[|ids| - 1];
      KnownIds(ids[..|ids| - 1], m) + (if last in m then [last] else [])
  }

  /** A card's checklists are its checklist ids, filtered to the ids the
      checklist map knows and kept in order, each replaced by its value. */
  lemma {:induction false} ResolveIsLookup<V>(ids: seq<Id>, m: map<Id, V>)
    ensures |Resolve(ids, m)| == |KnownIds(ids, m)|
    ensures forall j :: 0 <= j < |KnownIds(ids, m)| ==>
      KnownIds(ids, m)[j] in m && Resolve(ids, m)[j] == m[KnownIds(ids, m)[j]]
  {
    if ids != [] {
      ResolveIsLookup(ids[..|ids| - 1], m);
    }
  }

  /** The inner loop at processBoardJson.py:120-124: a missing id raises
      KeyError, which is caught and ignored. */
  method ResolveIds(ids: seq<Id>, dated: OMap<Id, seq<DatedItem>>) returns (found: seq<seq<DatedItem>>)
    ensures found == Resolve(ids, dated.m)
  {
    found := [];
    for i := 0 to |ids|
      invariant found == Resolve(ids[..i], dated.m)
    {
      assert ids[..i + 1][..i] == ids[..i];
      if ids[i] in dated.m {
        found := found + [dated.m[ids[i]]];
      }
    }
    assert ids[..|ids|] == ids;
  }

  /** card id -> its resolved checklists, keyed exactly as `cardLists`. */
  function ResolvedCards(cardLists: OMap<Id, seq<Id>>, dated: OMap<Id, seq<DatedItem>>): (r: OMap<Id, seq<seq<DatedItem>>>)
    requires cardLists.Valid()
    ensures r.Valid()
  {
    OMap(cardLists.keys, map k | k in cardLists.m :: Resolve(cardLists.m[k], dated.m))
  }

  /** The loop at processBoardJson.py:118-126, which overwrites each card's
      checklist ids with the checklists found. The key order is unchanged. */
  method ResolveCardChecklists(cardLists: OMap<Id, seq<Id>>, dated: OMap<Id, seq<DatedItem>>)
    returns (resolved: OMap<Id, seq<seq<DatedItem>>>)
    requires cardLists.Valid()
    ensures resolved == ResolvedCards(cardLists, dated)
    ensures resolved.keys == cardLists.keys
  {
    var keys, target := cardLists.keys, ResolvedCards(cardLists, dated).m;
    PrefixEnds(keys, target);
    resolved := Empty();
    for i := 0 to |keys|
      invariant resolved == Prefix(keys, target, i)
    {
      var found := ResolveIds(cardLists.m[keys[i]], dated);
      PrefixStep(keys, target, i);
      resolved := resolved.Put(keys[i], found);
    }
  }

  // ---------------------------------------------------------------------
  // Cards into lists (processBoardJson.py:128-137)

  /** Where one card goes: under its list's name, then its own name. */
  datatype Placement = Placement(list: string, card: string, checklists: seq<seq<DatedItem>>)

  function ListNames(ps: seq<Placement>): (r: seq<string>)
    ensures |r| == |ps| && forall i :: 0 <= i < |ps| ==> r[i] == ps[i].list
  {
    seq(|ps|, i requires 0 <= i < |ps| => ps[i].list)
  }

  /** The (card name, checklists) pairs of the placements into list l, in order. */
  function CardEntries(ps: seq<Placement>, l: string): seq<(string, seq<seq<DatedItem>>)> {
    if ps == [] then []
    else
      var p := ps[|ps| - 1];
      CardEntries(ps[..|ps| - 1], l) + (if p.list == l then [(p.card, p.checklists)] else [])
  }

  /** The readable tree that a sequence of placements builds, described
      without the loop: list buckets in order of the first card placed in
      them, and in each bucket the card names in order of first occurrence,
      each bound to the checklists of the last card with that name. */
  function Grouped(ps: seq<Placement>): (t: Tree)
    ensures WellFormed(t)
  {
    OMap(Dedup(ListNames(ps)), map l | l in ListNames(ps) :: FromPairs(CardEntries(ps, l)))
  }

  /** The bucket of list l, or a fresh OrderedDict when there is none. */
  function BucketOf(t: Tree, l: string): Bucket {
    if l in t.m then t.m[l] else Empty()
  }

  lemma {:induction false} CardEntriesNone(ps: seq<Placement>, l: string)
    requires l !in ListNames(ps)
    ensures CardEntries(ps, l) == []
  {
    if ps != [] {
      var n := |ps| - 1;
      assert ListNames(ps[..n]) == ListNames(ps)[..n];
      CardEntriesNone(ps[..n], l);
    }
  }

  lemma GroupedAt(ps: seq<Placement>, l: string)
    ensures l in Grouped(ps).m <==> l in ListNames(ps)
    ensures l in ListNames(ps) ==> Grouped(ps).m[l] == FromPairs(CardEntries(ps, l))
  {
  }

  lemma ListNamesSnoc(ps: seq<Placement>, p: Placement)
    ensures ListNames(ps + [p]) == ListNames(ps) + [p.list]
  {
  }

  lemma CardEntriesSnoc(ps: seq<Placement>, p: Placement, l: string)
    ensures CardEntries(ps + [p], l) ==
      CardEntries(ps, l) + (if p.list == l then [(p.card, p.checklists)] else [])
  {
    assert (ps + [p])[..|ps|] == ps;
  }

  /** The bucket of list l after one more card placed. */
  lemma BucketSnoc(ps: seq<Placement>, p: Placement, l: string)
    requires l in ListNames(ps) || l == p.list
    ensures FromPairs(CardEntries(ps + [p], l)) ==
      if l == p.list then BucketOf(Grouped(ps), l).Put(p.card, p.checklists)
      else Grouped(ps).m[l]
  {
    CardEntriesSnoc(ps, p, l);
    GroupedAt(ps, l);
    if l == p.list {
      var es := CardEntries(ps, l);
      assert CardEntries(ps + [p], l) == es + [(p.card, p.checklists)];
      FromPairsSnoc(es, p.card, p.checklists);
      if l !in ListNames(ps) {
        CardEntriesNone(ps, l);
        FromPairsEmpty<string, seq<seq<DatedItem>>>();
        assert BucketOf(Grouped(ps), l) == Empty();
      } else {
        assert BucketOf(Grouped(ps), l) == FromPairs(es);
      }
    } else {
      assert CardEntries(ps + [p], l) == CardEntries(ps, l);
    }
  }

  /** The loop body's new tree, written with Put: the card goes into the
      bucket of its list, which keeps its place or is appended as a fresh
      one, and its name keeps its place in the bucket or is appended. */
  function PlaceInto(g: Tree, p: Placement): (r: Tree)
    ensures p.list in g.m ==> r.keys == g.keys
    ensures p.list !in g.m ==> r.keys == g.keys + [p.list]
    ensures p.list in r.m
    ensures p.card in BucketOf(g, p.list).m ==> r.m[p.list].keys == BucketOf(g, p.list).keys
    ensures p.card !in BucketOf(g, p.list).m ==> r.m[p.list].keys == BucketOf(g, p.list).keys + [p.card]
    ensures r.m[p.list].m == BucketOf(g, p.list).m[p.card := p.checklists]
  {
    g.Put(p.list, BucketOf(g, p.list).Put(p.card, p.checklists))
  }

  lemma GroupedKeysSnoc(ps: seq<Placement>, p: Placement)
    ensures Grouped(ps + [p]).keys == PlaceInto(Grouped(ps), p).keys
  {
    ListNamesSnoc(ps, p);
    DedupSnoc(ListNames(ps), p.list);
    GroupedAt(ps, p.list);
  }

  lemma GroupedMapSnocAt(ps: seq<Placement>, p: Placement, l: string)
    ensures l in Grouped(ps + [p]).m <==> l in PlaceInto(Grouped(ps), p).m
    ensures l in Grouped(ps + [p]).m ==> Grouped(ps + [p]).m[l] == PlaceInto(Grouped(ps), p).m[l]
  {
    ListNamesSnoc(ps, p);
    GroupedAt(ps + [p], l);
    GroupedAt(ps, l);
    if l in ListNames(ps) || l == p.list {
      BucketSnoc(ps, p, l);
    }
  }

  lemma GroupedMapSnoc(ps: seq<Placement>, p: Placement)
    ensures Grouped(ps + [p]).m == PlaceInto(Grouped(ps), p).m
  {
    var left, right := Grouped(ps + [p]).m, PlaceInto(Grouped(ps), p).m;
    forall l
      ensures l in left <==> l in right
      ensures l in left ==> left[l] == right[l]
    {
      GroupedMapSnocAt(ps, p, l);
    }
    MapsEqual(left, right);
  }

  lemma MapsEqual<K, V>(a: map<K, V>, b: map<K, V>)
    requires forall k :: k in a <==> k in b
    requires forall k :: k in a ==> a[k] == b[k]
    ensures a == b
  {
  }

  /** One more card placed is one more step of the loop body: into the
      existing bucket (which keeps its position), or into a new
      `OrderedDict({name: checklists})` at the end. */
  lemma GroupedSnoc(ps: seq<Placement>, p: Placement)
    ensures Grouped(ps + [p]) == PlaceInto(Grouped(ps), p)
  {
    GroupedKeysSnoc(ps, p);
    GroupedMapSnoc(ps, p);
  }

  /** The card just placed is found under its list with its checklists. */
  lemma PlaceIntoAt(g: Tree, p: Placement)
    ensures p.list in PlaceInto(g, p).m && p.card in PlaceInto(g, p).m[p.list].m
    ensures PlaceInto(g, p).m[p.list].m[p.card] == p.checklists
  {
  }

  /** Placing a card leaves every other (list, card) entry as it was. */
  lemma PlaceIntoKeeps(g: Tree, p: Placement, l: string, c: string)
    requires l in g.m && c in g.m[l].m
    requires p.list != l || p.card != c
    ensures l in PlaceInto(g, p).m && c in PlaceInto(g, p).m[l].m
    ensures PlaceInto(g, p).m[l].m[c] == g.m[l].m[c]
  {
  }

  /** List buckets come in order of the first card placed in each. */
  lemma GroupedInOrder(ps: seq<Placement>, i: nat, j: nat)
    requires i < j < |Grouped(ps).keys|
    ensures var ks := Grouped(ps).keys;
      ks[i] in ListNames(ps) && ks[j] in ListNames(ps) &&
      FirstIndex(ListNames(ps), ks[i]) < FirstIndex(ListNames(ps), ks[j])
  {
    DedupOrder(ListNames(ps), i, j);
  }

  /** Inside the bucket of list l, card names come in order of the first
      card with that name placed into l. */
  lemma GroupedCardsInOrder(ps: seq<Placement>, l: string, i: nat, j: nat)
    requires l in Grouped(ps).m && i < j < |Grouped(ps).m[l].keys|
    ensures var es, ks := Firsts(CardEntries(ps, l)), Grouped(ps).m[l].keys;
      ks[i] in es && ks[j] in es && FirstIndex(es, ks[i]) < FirstIndex(es, ks[j])
  {
    GroupedAt(ps, l);
    DedupOrder(Firsts(CardEntries(ps, l)), i, j);
  }

  /** The tree the grouping loop holds after placing ps, one Put at a time. */
  function PlaceAll(ps: seq<Placement>): Tree {
    if ps == [] then Empty() else PlaceInto(PlaceAll(ps[..|ps| - 1]), ps[|ps| - 1])
  }

  /** The loop's tree is the declarative one. */
  lemma {:induction false} GroupedIsPlaceAll(ps: seq<Placement>)
    ensures Grouped(ps) == PlaceAll(ps)
  {
    if ps == [] {
      assert Grouped(ps).keys == [];
      assert Grouped(ps).m == map[];
    } else {
      var n := |ps| - 1;
      GroupedIsPlaceAll(ps[..n]);
      assert ps == ps[..n] + [ps[n]];
      GroupedSnoc(ps[..n], ps[n]);
    }
  }

  lemma {:induction false} PlaceAllLastWins(ps: seq<Placement>, i: nat)
    requires i < |ps|
    requires forall j :: i < j < |ps| ==> ps[j].list != ps[i].list || ps[j].card != ps[i].card
    ensures ps[i].list in PlaceAll(ps).m && ps[i].card in PlaceAll(ps).m[ps[i].list].m
    ensures PlaceAll(ps).m[ps[i].list].m[ps[i].card] == ps[i].checklists
  {
    var n := |ps| - 1;
    var pre := ps[..n];
    var g := PlaceAll(pre);
    assert PlaceAll(ps) == PlaceInto(g, ps[n]);
    if i < n {
      assert pre[i] == ps[i];
      forall j | i < j < |pre|
        ensures pre[j].list != pre[i].list || pre[j].card != pre[i].card
      {
        assert pre[j] == ps[j];
      }
      PlaceAllLastWins(pre, i);
      PlaceIntoKeeps(g, ps[n], ps[i].list, ps[i].card);
    } else {
      PlaceIntoAt(g, ps[n]);
    }
  }

  /** Same-named cards in one list: the last one placed wins. */
  lemma GroupedLastWins(ps: seq<Placement>, i: nat)
    requires i < |ps|
    requires forall j :: i < j < |ps| ==> ps[j].list != ps[i].list || ps[j].card != ps[i].card
    ensures ps[i].list in Grouped(ps).m && ps[i].card in Grouped(ps).m[ps[i].list].m
    ensures Grouped(ps).m[ps[i].list].m[ps[i].card] == ps[i].checklists
  {
    GroupedIsPlaceAll(ps);
    PlaceAllLastWins(ps, i);
  }

  lemma {:induction false} CardEntriesHas(ps: seq<Placement>, i: nat)
    requires i < |ps|
    ensures exists j ::
      0 <= j < |CardEntries(ps, ps[i].list)| && CardEntries(ps, ps[i].list)[j].0 == ps[i].card
  {
    var n := |ps| - 1;
    var l := ps[i].list;
    if i == n {
      assert CardEntries(ps, l)[|CardEntries(ps, l)| - 1].0 == ps[i].card;
    } else {
      assert ps[..n][i] == ps[i];
      CardEntriesHas(ps[..n], i);
      var j :| 0 <= j < |CardEntries(ps[..n], l)| && CardEntries(ps[..n], l)[j].0 == ps[i].card;
      assert CardEntries(ps, l)[j] == CardEntries(ps[..n], l)[j];
    }
  }

  /** Every placed card is in the tree, under its list's name. */
  lemma GroupedHas(ps: seq<Placement>, i: nat)
    requires i < |ps|
    ensures ps[i].list in Grouped(ps).m && ps[i].card in Grouped(ps).m[ps[i].list].m
  {
    assert ListNames(ps)[i] == ps[i].list;
    CardEntriesHas(ps, i);
    FromPairsKeys(CardEntries(ps, ps[i].list));
  }

  /** Each of the card ids names a card whose list id is known. */
  predicate Resolves(ids: seq<Id>, cards: OMap<Id, Card>, lists: OMap<Id, BoardList>) {
    forall i :: 0 <= i < |ids| ==> ids[i] in cards.m && cards.m[ids[i]].idList in lists.m
  }

  /** The position of the first card whose list id is unknown. */
  function FirstUnresolved(ids: seq<Id>, cards: OMap<Id, Card>, lists: OMap<Id, BoardList>): (i: nat)
    requires forall k :: k in ids ==> k in cards.m
    requires !Resolves(ids, cards, lists)
    ensures i < |ids| && Resolves(ids[..i], cards, lists)
    ensures cards.m[ids[i]].idList !in lists.m
  {
    if cards.m[ids[0]].idList !in lists.m then 0
    else
      var j := FirstUnresolved(ids[1..], cards, lists);
      assert ids[..1 + j] == [ids[0]] + ids[1..][..j];
      1 + j
  }

  lemma {:induction false} FirstUnresolvedIs(ids: seq<Id>, cards: OMap<Id, Card>, lists: OMap<Id, BoardList>, i: nat)
    requires forall k :: k in ids ==> k in cards.m
    requires i < |ids| && Resolves(ids[..i], cards, lists)
    requires cards.m[ids[i]].idList !in lists.m
    ensures !Resolves(ids, cards, lists) && FirstUnresolved(ids, cards, lists) == i
  {
    if i > 0 {
      assert ids[..i][0] == ids[0];
      assert ids[1..][..i - 1] == ids[..i][1..];
      FirstUnresolvedIs(ids[1..], cards, lists, i - 1);
    }
  }

  /** The placements of the given cards, in order. */
  function Placements(ids: seq<Id>, cards: OMap<Id, Card>, lists: OMap<Id, BoardList>,
                      resolved: OMap<Id, seq<seq<DatedItem>>>): (ps: seq<Placement>)
    requires Resolves(ids, cards, lists)
    requires forall k :: k in ids ==> k in resolved.m
    ensures |ps| == |ids|
  {
    seq(|ids|, i requires 0 <= i < |ids| =>
      Placement(lists.m[cards.m[ids[i]].idList].name, cards.m[ids[i]].name, resolved.m[ids[i]]))
  }

  /** What the grouping loop computes: the first card with an unknown list
      id aborts the run, otherwise every card is placed. */
  function Group(cards: OMap<Id, Card>, lists: OMap<Id, BoardList>,
                 resolved: OMap<Id, seq<seq<DatedItem>>>): Result<Tree, ProcessError>
    requires resolved.Valid()
    requires forall k :: k in resolved.m ==> k in cards.m
  {
    var ids := resolved.keys;
    if Resolves(ids, cards, lists) then
      Success(Grouped(Placements(ids, cards, lists, resolved)))
    else
      var i := FirstUnresolved(ids, cards, lists);
      Failure(UnknownList(ids[i], cards.m[ids[i]].idList))
  }

  /** The loop at processBoardJson.py:131-137. */
  method GroupCards(cards: OMap<Id, Card>, lists: OMap<Id, BoardList>,
                    resolved: OMap<Id, seq<seq<DatedItem>>>) returns (r: Result<Tree, ProcessError>)
    requires resolved.Valid()
    requires forall k :: k in resolved.m ==> k in cards.m
    ensures r == Group(cards, lists, resolved)
  {
    var ids := resolved.keys;
    var tree: Tree := Empty();
    for i := 0 to |ids|
      invariant Resolves(ids[..i], cards, lists)
      invariant tree == PlaceAll(Placements(ids[..i], cards, lists, resolved))
    {
      var card := cards.m[ids[i]];
      if card.idList !in lists.m {
        // the lookup fails in the `try`, and again in the `except` branch
        FirstUnresolvedIs(ids, cards, lists, i);
        return Failure(UnknownList(ids[i], card.idList));
      }
      var listName := lists.m[card.idList].name;
      PlacementsStep(ids, cards, lists, resolved, i);
      if listName in tree.m {
        tree := tree.Put(listName, tree.m[listName].Put(card.name, resolved.m[ids[i]]));
      } else {
        tree := tree.Put(listName, Empty().Put(card.name, resolved.m[ids[i]]));
      }
    }
    assert ids[..|ids|] == ids;
    GroupedIsPlaceAll(Placements(ids, cards, lists, resolved));
    return Success(tree);
  }

  /** One more card whose list is known: one more placement at the end. */
  lemma PlacementsStep(ids: seq<Id>, cards: OMap<Id, Card>, lists: OMap<Id, BoardList>,
                       resolved: OMap<Id, seq<seq<DatedItem>>>, i: nat)
    requires i < |ids| && Resolves(ids[..i], cards, lists)
    requires forall k :: k in ids ==> k in resolved.m && k in cards.m
    requires cards.m[ids[i]].idList in lists.m
    ensures Resolves(ids[..i + 1], cards, lists)
    ensures Placements(ids[..i + 1], cards, lists, resolved)
         == Placements(ids[..i], cards, lists, resolved)
            + [Placement(lists.m[cards.m[ids[i]].idList].name, cards.m[ids[i]].name, resolved.m[ids[i]])]
  {
    assert ids[..i + 1] == ids[..i] + [ids[i]];
  }

  // ---------------------------------------------------------------------
  // process_card_lists as a whole (processBoardJson.py:93-139)

  /** The readable tree a board yields, or the error that aborts the run. */
  function BuildTree(board: Board): Result<Tree, ProcessError> {
    var cards := CardsOf(board);
    Group(cards, ListsOf(board),
          ResolvedCards(CardChecklistIds(cards), DatedChecklists(ChecklistsOf(board))))
  }

  /** `process_card_lists`. */
  method ProcessCardLists(board: Board) returns (r: Result<Tree, ProcessError>)
    ensures r == BuildTree(board)
    ensures r.Success? ==> WellFormed(r.value)
  {
    var lists := GetLists(board);
    var cards := GetCards(board);
    var cardLists := GetCardLists(cards);
    var checklists := GetChecklists(board);
    var dated := DateChecklists(checklists);
    var resolved := ResolveCardChecklists(cardLists, dated);
    r := GroupCards(cards, lists, resolved);
  }

  /** The checklists a card ends up with: its checklist ids that name a
      checklist of the board, in order, each as that checklist's dated
      records. */
  function CardChecklists(board: Board, card: Card): seq<seq<DatedItem>> {
    Resolve(Elements(card.idChecklists), DatedChecklists(ChecklistsOf(board)).m)
  }

  /** The placement of every card, in the order of the cards dictionary. */
  function PlacementsOf(board: Board): (ps: seq<Placement>)
    requires BuildTree(board).Success?
    ensures BuildTree(board).value == Grouped(ps)
    ensures |ps| == |CardsOf(board).keys|
    ensures forall i :: 0 <= i < |ps| ==>
      var c := CardsOf(board).m[CardsOf(board).keys[i]];
      && c.idList in ListsOf(board).m
      && ps[i] == Placement(ListsOf(board).m[c.idList].name, c.name, CardChecklists(board, c))
  {
    var cards := CardsOf(board);
    var resolved := ResolvedCards(CardChecklistIds(cards), DatedChecklists(ChecklistsOf(board)));
    Placements(resolved.keys, cards, ListsOf(board), resolved)
  }

  /** The run fails exactly when some card (the last in the array with its
      id, the one the cards dictionary keeps) names a list id that no list
      in the array has; the error names the first such card in card order. */
  lemma BuildTreeFails(board: Board)
    ensures BuildTree(board).Failure? <==>
      exists k :: k in CardsOf(board).m && CardsOf(board).m[k].idList !in ListsOf(board).m
    ensures BuildTree(board).Failure? ==>
      var e := BuildTree(board).error;
      var ks := CardsOf(board).keys;
      && e.card in CardsOf(board).m
      && e.idList == CardsOf(board).m[e.card].idList
      && (forall j :: 0 <= j < |Elements(board.lists)| ==> Elements(board.lists)[j].id != e.idList)
      && exists i :: 0 <= i < |ks| && ks[i] == e.card && Resolves(ks[..i], CardsOf(board), ListsOf(board))
  {
    var cards, lists := CardsOf(board), ListsOf(board);
    var ks := cards.keys;
    IndexedById(Elements(board.lists), ListId);
    if exists k :: k in cards.m && cards.m[k].idList !in lists.m {
      var k :| k in cards.m && cards.m[k].idList !in lists.m;
      var i :| 0 <= i < |ks| && ks[i] == k;
    }
    if BuildTree(board).Failure? {
      var i := FirstUnresolved(ks, cards, lists);
      var e := BuildTree(board).error;
      assert e.card == ks[i];
      forall j | 0 <= j < |Elements(board.lists)|
        ensures Elements(board.lists)[j].id != e.idList
      {
        assert ListId(Elements(board.lists)[j]) == Elements(board.lists)[j].id;
      }
    }
  }

  /** Every card (the last in the array with its id) is placed under the
      name of the list its `idList` names, and then under its own name. */
  lemma CardPlacement(board: Board, i: nat)
    requires BuildTree(board).Success?
    requires i < |Elements(board.cards)|
    requires IsLastWithId(Elements(board.cards), CardId, i)
    ensures var c := Elements(board.cards)[i];
      && c.idList in ListsOf(board).m
      && var l := ListsOf(board).m[c.idList].name;
      && l in BuildTree(board).value.m
      && c.name in BuildTree(board).value.m[l].m
  {
    var cards := CardsOf(board);
    var c := Elements(board.cards)[i];
    IndexedById(Elements(board.cards), CardId);
    assert cards.m[c.id] == c;
    var j :| 0 <= j < |cards.keys| && cards.keys[j] == c.id;
    var ps := PlacementsOf(board);
    GroupedHas(ps, j);
  }

  /** Of several cards that land on the same list name and card name, the
      one last in card order supplies the checklists: those of its ids that
      name a checklist, in order, as dated records. */
  lemma CardLastWins(board: Board, i: nat)
    requires BuildTree(board).Success?
    requires i < |PlacementsOf(board)|
    requires forall j :: i < j < |PlacementsOf(board)| ==>
      PlacementsOf(board)[j].list != PlacementsOf(board)[i].list ||
      PlacementsOf(board)[j].card != PlacementsOf(board)[i].card
    ensures var p := PlacementsOf(board)[i];
      var c := CardsOf(board).m[CardsOf(board).keys[i]];
      && p.list in BuildTree(board).value.m
      && p.card in BuildTree(board).value.m[p.list].m
      && BuildTree(board).value.m[p.list].m[p.card] == CardChecklists(board, c)
  {
    GroupedLastWins(PlacementsOf(board), i);
  }
}
