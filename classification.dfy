/**
  The classification game: ten catalog items are sorted, one at a time, into a
  plant zone or an animal zone. An item is first selected (by dragging it or by
  tapping it) and then dropped on, or tapped onto, a zone; a correct choice moves
  it out of the unplaced pool into that zone and scores a point, a wrong one only
  shows feedback. Restart reshuffles the whole catalog back into the pool.
 */
module ClassificationGame {
  import opened Options

  datatype Category = Plant | Animal

  /** A catalog entry. Its glyph and label are presentation only and are not kept. */
  datatype Item = Item(id: int, category: Category)

  /** The fixed catalog, in declaration order: ids 1 to 10, plants at the odd ids. */
  const GameItems: seq<Item> := [
    Item(1, Plant), Item(2, Animal), Item(3, Plant), Item(4, Animal), Item(5, Plant),
    Item(6, Animal), Item(7, Plant), Item(8, Animal), Item(9, Plant), Item(10, Animal)
  ]

  const CatalogSize := 10

  datatype Outcome = Correct | Wrong

  /** The transient highlight of a zone after a classification attempt. */
  datatype Feedback = Feedback(outcome: Outcome, zone: Category)

  /** `s` holds exactly the catalog's items, each once, in some order. */
  ghost predicate IsCatalogArrangement(s: seq<Item>)
  {
    multiset(s) == multiset(GameItems)
  }

  /** No two entries of `s` share an id. */
  ghost predicate UniqueIds(s: seq<Item>)
  {
    forall i, j :: 0 <= i < j < |s| ==> s[i].id != s[j].id
  }

  /** No value occurs twice in `m`, and no two values of `m` share an id. */
  ghost predicate BagHasUniqueIds(m: multiset<Item>)
  {
    forall x, y :: x in m && y in m && x.id == y.id ==> x == y && m[x] == 1
  }

  /** Every entry of `s` belongs to category `c`. */
  ghost predicate AllOf(s: seq<Item>, c: Category)
  {
    forall i :: 0 <= i < |s| ==> s[i].category == c
  }

  lemma CatalogUniqueIds()
    ensures |GameItems| == CatalogSize
    ensures UniqueIds(GameItems)
  {
    assert forall i | 0 <= i < |GameItems| :: GameItems[i].id == i + 1;
  }

  /** The catalog's bag has ten items, none repeated, no id shared. */
  lemma CatalogBag()
    ensures |multiset(GameItems)| == CatalogSize
    ensures BagHasUniqueIds(multiset(GameItems))
  {
    CatalogUniqueIds();
    UniqueSeqGivesUniqueBag(GameItems);
  }

  lemma UniqueSeqGivesUniqueBag(t: seq<Item>)
    requires UniqueIds(t)
    ensures BagHasUniqueIds(multiset(t))
  {
    forall x, y | x in multiset(t) && y in multiset(t) && x.id == y.id ensures x == y && multiset(t)[x] == 1 {
      var p :| 0 <= p < |t| && t[p] == x;
      var q :| 0 <= q < |t| && t[q] == y;
      assert p == q;
      AtMostOnce(t, x);
    }
  }

  /** A sequence whose bag has unique ids has unique ids. */
  lemma UniqueBagGivesUniqueSeq(s: seq<Item>)
    requires BagHasUniqueIds(multiset(s))
    ensures UniqueIds(s)
  {
    forall i, j | 0 <= i < j < |s| ensures s[i].id != s[j].id {
      if s[i].id == s[j].id {
        assert s[i] in multiset(s) && s[j] in multiset(s);
        TwiceCounted(s, i, j);
        assert false;
      }
    }
  }

  /** A value found at two different indices occurs at least twice. */
  lemma TwiceCounted(s: seq<Item>, i: nat, j: nat)
    requires i < j < |s| && s[i] == s[j]
    ensures multiset(s)[s[i]] >= 2
  {
    assert s == s[..j] + s[j..];
    assert s[i] in s[..j];
    assert s[j..][0] == s[j];
    assert multiset(s) == multiset(s[..j]) + multiset(s[j..]);
  }

  /** With unique ids, nothing occurs twice. */
  lemma {:induction false} AtMostOnce(t: seq<Item>, x: Item)
    requires UniqueIds(t)
    ensures multiset(t)[x] <= 1
  {
    if t != [] {
      UniqueTail(t);
      AtMostOnce(t[1..], x);
      assert t == [t[0]] + t[1..];
      if x == t[0] {
        assert forall i :: 0 <= i < |t[1..]| ==> t[1..][i] != x;
        assert x !in t[1..];
      }
    }
  }

  lemma UniqueTail(s: seq<Item>)
    requires UniqueIds(s) && s != []
    ensures UniqueIds(s[1..])
    ensures forall i :: 0 <= i < |s[1..]| ==> s[1..][i].id != s[0].id
  {
    forall i, j | 0 <= i < j < |s[1..]| ensures s[1..][i].id != s[1..][j].id {
      assert s[1..][i] == s[i + 1] && s[1..][j] == s[j + 1];
    }
    forall i | 0 <= i < |s[1..]| ensures s[1..][i].id != s[0].id {
      assert s[1..][i] == s[i + 1];
    }
  }

  /** The pool filter used when an item is placed: every entry whose id differs from `id`, in order. */
  function WithoutId(s: seq<Item>, id: int): (r: seq<Item>)
    ensures |r| <= |s|
    ensures forall i :: 0 <= i < |r| ==> r[i].id != id
  {
    if s == [] then []
    else if s[0].id == id then WithoutId(s[1..], id)
    else [s[0]] + WithoutId(s[1..], id)
  }

  /** The filter keeps exactly the entries whose id differs from `id`. */
  lemma {:induction false} WithoutIdMembers(s: seq<Item>, id: int, x: Item)
    ensures x in WithoutId(s, id) <==> x in s && x.id != id
  {
    if s != [] {
      WithoutIdMembers(s[1..], id, x);
      assert s == [s[0]] + s[1..];
    }
  }

  /** With unique ids, filtering out the id of the entry at `k` removes exactly that entry. */
  lemma {:induction false} WithoutIdRemovesAt(s: seq<Item>, k: nat)
    requires UniqueIds(s)
    requires k < |s|
    ensures WithoutId(s, s[k].id) == s[..k] + s[k + 1..]
  {
    UniqueTail(s);
    var t := s[1..];
    if k == 0 {
      WithoutIdKeepsAll(t, s[0].id);
      assert s[..0] + s[1..] == t;
    } else {
      assert t[k - 1] == s[k];
      WithoutIdRemovesAt(t, k - 1);
      assert WithoutId(s, s[k].id) == [s[0]] + (t[..k - 1] + t[k..]);
      assert t[..k - 1] == s[1..k];
      assert t[k..] == s[k + 1..];
      assert s[..k] == [s[0]] + s[1..k];
    }
  }

  /** Filtering out an id that no entry carries changes nothing. */
  lemma {:induction false} WithoutIdKeepsAll(s: seq<Item>, id: int)
    requires forall i :: 0 <= i < |s| ==> s[i].id != id
    ensures WithoutId(s, id) == s
  {
    if s != [] {
      assert s[0].id != id;
      var t := s[1..];
      assert forall i :: 0 <= i < |t| ==> t[i] == s[i + 1];
      WithoutIdKeepsAll(t, id);
      assert [s[0]] + t == s;
    }
  }

  /** Removing the entry at `k` takes one copy of it out of the bag and keeps the other ids unique. */
  lemma RemoveAt(s: seq<Item>, k: nat)
    requires k < |s|
    requires UniqueIds(s)
    ensures multiset(s[..k] + s[k + 1..]) == multiset(s) - multiset{s[k]}
    ensures UniqueIds(s[..k] + s[k + 1..])
  {
    assert s == s[..k] + [s[k]] + s[k + 1..];
    var r := s[..k] + s[k + 1..];
    forall i, j | 0 <= i < j < |r| ensures r[i].id != r[j].id {
      var i' := if i < k then i else i + 1;
      var j' := if j < k then j else j + 1;
      assert r[i] == s[i'] && r[j] == s[j'];
    }
  }

  /** An arrangement of the catalog has ten entries and no id twice. */
  lemma ArrangementFacts(s: seq<Item>)
    requires IsCatalogArrangement(s)
    ensures |s| == CatalogSize
    ensures UniqueIds(s)
  {
    CatalogBag();
    UniqueBagGivesUniqueSeq(s);
  }

  /** Whether `x` is a catalog entry, read off its id: ids 1 to 10, plants at the odd ids. */
  predicate IsCatalogItem(x: Item)
  {
    1 <= x.id <= CatalogSize && x.category == (if x.id % 2 == 1 then Plant else Animal)
  }

  lemma CatalogItemIff(x: Item)
    ensures IsCatalogItem(x) <==> x in GameItems
  {
    if IsCatalogItem(x) {
      assert GameItems[x.id - 1] == x;
    }
  }

  /** `s` lists the ten catalog entries, each once, in some order. */
  ghost predicate ListsCatalog(s: seq<Item>)
  {
    && |s| == CatalogSize
    && UniqueIds(s)
    && forall i :: 0 <= i < |s| ==> IsCatalogItem(s[i])
  }

  /** Listing the catalog is exactly being a reordering of it. */
  lemma ListsCatalogIff(s: seq<Item>)
    ensures ListsCatalog(s) <==> IsCatalogArrangement(s)
  {
    if IsCatalogArrangement(s) {
      ArrangementFacts(s);
      forall i | 0 <= i < |s| ensures IsCatalogItem(s[i]) {
        assert s[i] in multiset(GameItems);
        CatalogItemIff(s[i]);
      }
    }
    if ListsCatalog(s) {
      ListingIsArrangement(s);
    }
  }

  /** The pigeonhole half: ten distinct catalog entries are all of the catalog. */
  lemma ListingIsArrangement(s: seq<Item>)
    requires ListsCatalog(s)
    ensures IsCatalogArrangement(s)
  {
    var A, B := multiset(s), multiset(GameItems);
    forall o ensures A[o] <= B[o] {
      AtMostOnce(s, o);
      if o in A {
        CatalogItemIff(o);
      }
    }
    CatalogBag();
    assert |A| == |B|;
    assert B == A + (B - A);
    assert |B - A| == 0;
  }

  /** The pool, listed first, keeps distinct ids within itself. */
  lemma PrefixUnique(pool: seq<Item>, rest: seq<Item>)
    requires UniqueIds(pool + rest)
    ensures UniqueIds(pool)
  {
    forall i, j | 0 <= i < j < |pool| ensures pool[i].id != pool[j].id {
      assert (pool + rest)[i] == pool[i] && (pool + rest)[j] == pool[j];
    }
  }

  /**
    A correct classification keeps the listing: when the pool followed by the two
    zones lists the catalog, so does the pool without the placed item followed by
    the zones with it appended to its own one.
   */
  lemma PlaceKeepsListing(pool: seq<Item>, plants: seq<Item>, animals: seq<Item>, x: Item)
    requires ListsCatalog(pool + plants + animals)
    requires AllOf(plants, Plant) && AllOf(animals, Animal)
    requires x in pool
    ensures |WithoutId(pool, x.id)| == |pool| - 1
    ensures ListsCatalog(WithoutId(pool, x.id)
                         + (plants + (if x.category == Plant then [x] else []))
                         + (animals + (if x.category == Animal then [x] else [])))
    ensures AllOf(plants + (if x.category == Plant then [x] else []), Plant)
    ensures AllOf(animals + (if x.category == Animal then [x] else []), Animal)
  {
    var all := pool + plants + animals;
    PrefixUnique(pool, plants + animals);
    assert all == pool + (plants + animals);
    RemoveFromPool(pool, x);
    var pool' := WithoutId(pool, x.id);
    var plants' := plants + (if x.category == Plant then [x] else []);
    var animals' := animals + (if x.category == Animal then [x] else []);
    ListsCatalogIff(all);
    assert Partition(pool, plants, animals, multiset(all));
    PlaceKeepsPartition(pool, plants, animals, multiset(all), x);
    assert multiset(pool' + plants' + animals') == multiset(all);
    ListsCatalogIff(pool' + plants' + animals');
  }

  /** Taking a pooled item out of a pool with distinct ids shortens it by one and keeps the ids distinct. */
  lemma RemoveFromPool(pool: seq<Item>, x: Item)
    requires UniqueIds(pool)
    requires x in pool
    ensures |WithoutId(pool, x.id)| == |pool| - 1
    ensures UniqueIds(WithoutId(pool, x.id))
  {
    var k :| 0 <= k < |pool| && pool[k] == x;
    WithoutIdRemovesAt(pool, k);
    RemoveAt(pool, k);
  }

  /**
    Conservation of the items in play: the bag `inPlay` is split between the pool
    and the two zones, and each zone holds only its own category.
   */
  ghost predicate Partition(pool: seq<Item>, plants: seq<Item>, animals: seq<Item>, inPlay: multiset<Item>)
  {
    && multiset(pool) + multiset(plants) + multiset(animals) == inPlay
    && AllOf(plants, Plant)
    && AllOf(animals, Animal)
  }

  /**
    Placing a pooled item in the zone of its own category, as a correct
    classification does, keeps the partition: no item is lost or duplicated.
   */
  lemma PlaceKeepsPartition(pool: seq<Item>, plants: seq<Item>, animals: seq<Item>, inPlay: multiset<Item>, x: Item)
    requires Partition(pool, plants, animals, inPlay)
    requires UniqueIds(pool)
    requires x in pool
    ensures Partition(WithoutId(pool, x.id),
                      plants + (if x.category == Plant then [x] else []),
                      animals + (if x.category == Animal then [x] else []),
                      inPlay)
  {
    var k :| 0 <= k < |pool| && pool[k] == x;
    WithoutIdRemovesAt(pool, k);
    RemoveAt(pool, k);
    var pool' := WithoutId(pool, x.id);
    assert multiset(pool') == multiset(pool) - multiset{x};
    assert x in multiset(pool);
    if x.category == Plant {
      assert multiset(plants + [x]) == multiset(plants) + multiset{x};
      MoveOne(multiset(pool), multiset(plants), multiset(animals), x);
      AppendKeepsAllOf(plants, x);
      assert animals + [] == animals;
    } else {
      assert multiset(animals + [x]) == multiset(animals) + multiset{x};
      MoveOne(multiset(pool), multiset(animals), multiset(plants), x);
      AppendKeepsAllOf(animals, x);
      assert plants + [] == plants;
    }
  }

  /** Moving one copy of `x` from `from` to `to` leaves the total bag unchanged, whichever bag is third. */
  lemma MoveOne(from: multiset<Item>, to: multiset<Item>, other: multiset<Item>, x: Item)
    requires x in from
    ensures (from - multiset{x}) + (to + multiset{x}) + other == from + to + other
    ensures (from - multiset{x}) + other + (to + multiset{x}) == from + other + to
  {
  }

  lemma AppendKeepsAllOf(s: seq<Item>, x: Item)
    requires AllOf(s, x.category)
    ensures AllOf(s + [x], x.category)
  {
  }

  /** The game screen's state (its `useState` fields), overwritten by the handlers. */
  class Game {
    /** Items not yet placed, in shuffled order. */
    var items: seq<Item>
    var plantZone: seq<Item>
    var animalZone: seq<Item>
    /** The pending selection (`draggedItem`). */
    var selected: Option<Item>
    var feedback: Option<Feedback>
    var score: int
    /** How many 800 ms feedback-clearing timers are still to fire. */
    var pendingClears: nat

    /**
      The pool followed by the two zones lists the catalog, each item once (so,
      by `ListsCatalogIff`, it is a reordering of the catalog), each zone holds
      only its own category, the score counts the placed items and a pending
      selection is an unplaced item.
     */
    ghost predicate Valid()
      reads this
    {
      && ListsCatalog(items + plantZone + animalZone)
      && AllOf(plantZone, Plant)
      && AllOf(animalZone, Animal)
      && score == |plantZone| + |animalZone|
      && (selected.Some? ==> selected.value in items)
    }

    /**
      Mounting the screen: `shuffled` stands for the random reordering of the
      catalog, which lists the catalog's items each once (a reordering of it,
      by `ListsCatalogIff`).
     */
    constructor (shuffled: seq<Item>)
      requires ListsCatalog(shuffled)
      ensures Valid()
      ensures items == shuffled && plantZone == [] && animalZone == []
      ensures selected == None && feedback == None && score == 0 && pendingClears == 0
    {
      assert shuffled + [] + [] == shuffled;
      items := shuffled;
      plantZone := [];
      animalZone := [];
      selected := None;
      feedback := None;
      score := 0;
      pendingClears := 0;
    }

    /** In every valid state the pool and the two zones together are a reordering of the catalog. */
    lemma InPlayIsCatalog()
      requires Valid()
      ensures IsCatalogArrangement(items + plantZone + animalZone)
      ensures |items| + |plantZone| + |animalZone| == CatalogSize
    {
      ListsCatalogIff(items + plantZone + animalZone);
    }

    /** Drag start or tap on an unplaced item: it becomes the pending selection. */
    method Select(item: Item)
      requires Valid()
      requires item in items
      modifies this
      ensures Valid()
      ensures selected == Some(item)
      ensures items == old(items) && plantZone == old(plantZone) && animalZone == old(animalZone)
      ensures feedback == old(feedback) && score == old(score) && pendingClears == old(pendingClears)
    {
      selected := Some(item);
    }

    /**
      Drop on a zone, or tap on a zone: these two handlers have the same effect.
      With no selection nothing happens. Otherwise the outcome is correct exactly when
      the selected item's category is the zone; a correct item leaves the pool, is
      appended to its zone and scores one point, and no item is lost or duplicated;
      a wrong one changes only the feedback. Either way the selection is cleared and
      a feedback-clearing timer starts.
     */
    method Classify(zone: Category) returns (outcome: Option<Outcome>)
      requires Valid()
      modifies this
      ensures Valid()
      ensures old(selected).None? ==>
        && outcome == None
        && items == old(items) && plantZone == old(plantZone) && animalZone == old(animalZone)
        && score == old(score) && feedback == old(feedback) && pendingClears == old(pendingClears)
      ensures old(selected).Some? ==>
        var x := old(selected).value;
        && outcome == Some(if x.category == zone then Correct else Wrong)
        && feedback == Some(Feedback(outcome.value, zone))
        && pendingClears == old(pendingClears) + 1
      ensures old(selected).Some? && old(selected).value.category == zone ==>
        var x := old(selected).value;
        && items == WithoutId(old(items), x.id)
        && |items| == |old(items)| - 1
        && plantZone == old(plantZone) + (if zone == Plant then [x] else [])
        && animalZone == old(animalZone) + (if zone == Animal then [x] else [])
        && score == old(score) + 1
      ensures old(selected).Some? && old(selected).value.category != zone ==>
        items == old(items) && plantZone == old(plantZone) && animalZone == old(animalZone)
        && score == old(score)
      ensures selected == None
    {
      if selected.None? {
        return None;
      }
      var x := selected.value;
      if x.category == zone {
        PlaceKeepsListing(items, plantZone, animalZone, x);
        outcome := Some(Correct);
        score := score + 1;
        feedback := Some(Feedback(Correct, zone));
        items, plantZone, animalZone :=
          WithoutId(items, x.id),
          plantZone + (if x.category == Plant then [x] else []),
          animalZone + (if x.category == Animal then [x] else []);
      } else {
        outcome := Some(Wrong);
        feedback := Some(Feedback(Wrong, zone));
      }
      selected := None;
      pendingClears := pendingClears + 1;
    }

    /** One feedback-clearing timer fires. */
    method ClearFeedback()
      requires Valid()
      requires pendingClears > 0
      modifies this
      ensures Valid()
      ensures feedback == None && pendingClears == old(pendingClears) - 1
      ensures items == old(items) && plantZone == old(plantZone) && animalZone == old(animalZone)
      ensures selected == old(selected) && score == old(score)
    {
      feedback := None;
      pendingClears := pendingClears - 1;
    }

    /**
      Restart: a fresh shuffle of the whole catalog (listing it, as at mount),
      empty zones, no score, no selection.
     */
    method ResetGame(shuffled: seq<Item>)
      requires Valid()
      requires ListsCatalog(shuffled)
      modifies this
      ensures Valid()
      ensures items == shuffled && plantZone == [] && animalZone == []
      ensures score == 0 && selected == None
      ensures feedback == old(feedback) && pendingClears == old(pendingClears)
    {
      assert shuffled + [] + [] == shuffled;
      items := shuffled;
      plantZone := [];
      animalZone := [];
      score := 0;
      selected := None;
    }

    /** The game is complete exactly when the pool is empty, and then every item has scored. */
    method IsComplete() returns (done: bool)
      requires Valid()
      ensures done <==> items == []
      ensures 0 <= score <= CatalogSize
      ensures done ==> score == CatalogSize
    {
      done := |items| == 0;
    }
  }
}
