/** Orders in which the keys of a hash map may be visited. */
module Visiting {

  ghost predicate Lists(order: seq<string>, keys: set<string>) {
    && (forall i, j :: 0 <= i < j < |order| ==> order[i] != order[j])
    && forall k :: k in order <==> k in keys
  }

  ghost function SomeOrder(keys: set<string>): (order: seq<string>)
    ensures Lists(order, keys)
  {
    if keys == {} then []
    else
      var k :| k in keys;
      [k] + SomeOrder(keys - {k})
  }

  ghost function OrderFrom(keys: set<string>, first: string): (order: seq<string>)
    requires first in keys
    ensures Lists(order, keys) && order[0] == first
  {
    [first] + SomeOrder(keys - {first})
  }
}
