/** Python's sorted(..., key=score, reverse=True): stable, highest score first. */
module Sorting {

  ghost predicate Distinct<T(!new)>(items: seq<T>) {
    forall i, j :: 0 <= i < j < |items| ==> items[i] != items[j]
  }

  function Place<T(==, !new)>(order: seq<T>, item: T, score: map<T, real>): (placed: seq<T>)
    requires item in score && forall other :: other in order ==> other in score
    ensures multiset(placed) == multiset(order) + multiset{item}
  {
    if order != [] && score[order[|order| - 1]] < score[item] then
      assert order == order[..|order| - 1] + [order[|order| - 1]];
      Place(order[..|order| - 1], item, score) + [order[|order| - 1]]
    else order + [item]
  }

  function SortDescending<T(==, !new)>(items: seq<T>, score: map<T, real>): (order: seq<T>)
    requires forall item :: item in items ==> item in score
    ensures multiset(order) == multiset(items) && |order| == |items|
    ensures forall item :: item in order <==> item in items
  {
    if items == [] then []
    else
      var front, last := items[..|items| - 1], items[|items| - 1];
      assert items == front + [last];
      var order := Place(SortDescending(front, score), last, score);
      assert |order| == |multiset(order)| == |multiset(items)|;
      assert forall item :: item in order <==> item in multiset(order);
      order
  }

  predicate Before<T(==, !new)>(items: seq<T>, a: T, b: T) {
    exists i, j :: 0 <= i < j < |items| && items[i] == a && items[j] == b
  }

  /** Sorted, ties in their old order. */
  ghost predicate Precedes<T(!new)>(items: seq<T>, score: map<T, real>, a: T, b: T)
    requires a in score && b in score
  {
    score[a] > score[b] || (score[a] == score[b] && Before(items, a, b))
  }

  ghost predicate Ordered<T(!new)>(order: seq<T>, items: seq<T>, score: map<T, real>)
    requires forall item :: item in order ==> item in score
  {
    forall i, j :: 0 <= i < j < |order| ==> Precedes(items, score, order[i], order[j])
  }

  lemma {:induction false} PlaceKeepsOrder<T(!new)>(
    order: seq<T>, items: seq<T>, item: T, score: map<T, real>)
    requires item in score && forall other :: other in order ==> other in score && other in items
    requires Ordered(order, items, score)
    ensures forall other :: other in Place(order, item, score) ==> other in order || other == item
    ensures Ordered(Place(order, item, score), items + [item], score)
  {
    var now := items + [item];
    forall other | other in items ensures Before(now, other, item) {
      var i :| 0 <= i < |items| && items[i] == other;
      assert now[i] == other && now[|items|] == item;
    }
    forall a, b | Before(items, a, b) ensures Before(now, a, b) {
      var i, j :| 0 <= i < j < |items| && items[i] == a && items[j] == b;
      assert now[i] == a && now[j] == b;
    }
    var placed := Place(order, item, score);
    if order != [] && score[order[|order| - 1]] < score[item] {
      var front, last := order[..|order| - 1], order[|order| - 1];
      PlaceKeepsOrder(front, items, item, score);
      assert placed == Place(front, item, score) + [last];
      forall x | x in Place(front, item, score) ensures Precedes(now, score, x, last) {
        if x != item {
          var i :| 0 <= i < |front| && front[i] == x;
          assert Precedes(items, score, order[i], order[|order| - 1]);
        }
      }
    } else {
      assert placed == order + [item];
      forall i | 0 <= i < |order| ensures Precedes(now, score, order[i], item) {
        assert i < |order| - 1 ==> Precedes(items, score, order[i], order[|order| - 1]);
      }
    }
  }

  lemma {:induction false} SortIsOrdered<T(!new)>(items: seq<T>, score: map<T, real>)
    requires forall item :: item in items ==> item in score
    ensures Ordered(SortDescending(items, score), items, score)
  {
    if items != [] {
      var front, last := items[..|items| - 1], items[|items| - 1];
      SortIsOrdered(front, score);
      PlaceKeepsOrder(SortDescending(front, score), front, last, score);
      assert items == front + [last];
    }
  }

  lemma DistinctOrder<T(!new)>(items: seq<T>, a: T, b: T)
    requires Distinct(items) && a in items && b in items && a != b
    ensures Before(items, a, b) <==> !Before(items, b, a)
  {
    var i :| 0 <= i < |items| && items[i] == a;
    var j :| 0 <= j < |items| && items[j] == b;
    if i < j {
      assert Before(items, a, b);
    } else {
      assert Before(items, b, a);
    }
  }

  lemma DistinctIsOneEach<T(!new)>(items: seq<T>)
    ensures Distinct(items) <==> forall item :: multiset(items)[item] <= 1
  {
    if Distinct(items) {
      forall item ensures multiset(items)[item] <= 1 {
        OneEach(items, item);
      }
    } else {
      var i, j :| 0 <= i < j < |items| && items[i] == items[j];
      assert items == items[..j] + [items[j]] + items[j + 1..];
      assert items[i] in items[..j];
      assert multiset(items)[items[i]] >= 2;
    }
  }

  lemma {:induction false} OneEach<T(!new)>(items: seq<T>, item: T)
    requires Distinct(items)
    ensures multiset(items)[item] <= 1
  {
    if items != [] {
      var front := items[..|items| - 1];
      OneEach(front, item);
      assert items == front + [items[|items| - 1]];
      if items[|items| - 1] == item {
        assert item !in front;
      }
    }
  }
}
