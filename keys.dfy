/** The key order of `std::map<int, T>`: iteration visits keys in strictly
    ascending order. */
module Keys {

  predicate StrictlyAscending(r: seq<int>) {
    forall i, j :: 0 <= i < j < |r| ==> r[i] < r[j]
  }

  /** Some member of a non-empty set. */
  lemma Pick(s: set<int>) returns (y: int)
    requires s != {}
    ensures y in s
  {
    if forall z :: z !in s {
      assert false;
    }
    y :| y in s;
  }

  lemma {:induction false} MinExists(s: set<int>)
    requires s != {}
    ensures exists m :: m in s && forall x :: x in s ==> m <= x
    decreases |s|
  {
    var y := Pick(s);
    if s - {y} != {} {
      MinExists(s - {y});
      var m :| m in s - {y} && forall x :: x in s - {y} ==> m <= x;
      var low := if y < m then y else m;
      forall x | x in s ensures low <= x {
        if x != y {
          assert x in s - {y};
        }
      }
      assert low in s;
    } else {
      forall x | x in s ensures y <= x {
        assert x !in s - {y};
      }
    }
  }

  /** The first key an iterator over a map with key set `s` visits. */
  function MinKey(s: set<int>): (m: int)
    requires s != {}
    ensures m in s && forall x :: x in s ==> m <= x
  {
    MinExists(s);
    var m :| m in s && forall x :: x in s ==> m <= x; m
  }

  /** The keys of a map in the order a `std::map` iterator visits them. */
  function Ascending(s: set<int>): (r: seq<int>)
    ensures |r| == |s|
    ensures forall x :: x in s <==> x in r
    ensures StrictlyAscending(r)
    decreases |s|
  {
    if s == {} then []
    else
      var m := MinKey(s);
      var tail := Ascending(s - {m});
      ConsAscending(m, tail);
      [m] + tail
  }

  /** A key below every key of an ascending list can be put in front. */
  lemma ConsAscending(m: int, tail: seq<int>)
    requires StrictlyAscending(tail) && forall x :: x in tail ==> m < x
    ensures StrictlyAscending([m] + tail)
  {
    var r := [m] + tail;
    forall i, j | 0 <= i < j < |r| ensures r[i] < r[j] {
      if i == 0 {
        assert r[j] == tail[j - 1];
        assert r[j] in tail;
      } else {
        assert r[i] == tail[i - 1] && r[j] == tail[j - 1];
      }
    }
  }

  /** Starting an iteration over a `std::map`: its keys in visiting order.
      Only the order's defining facts are exported to the caller. */
  method KeyOrder(s: set<int>) returns (r: seq<int>)
    ensures forall j :: 0 <= j < |r| ==> r[j] in s
    ensures forall x :: x in s ==> x in r
    ensures StrictlyAscending(r)
  {
    r := Ascending(s);
  }

  lemma {:induction false} SubsetCard(a: set<int>, b: set<int>)
    requires a <= b
    ensures |a| <= |b|
    decreases |b|
  {
    if a != {} {
      var x := Pick(a);
      SubsetCard(a - {x}, b - {x});
    }
  }

  /** A set strictly shrinks when a member is removed: the measure of a walk
      that visits one more key each step. */
  lemma AboveShrinks(u: set<int>, k: int, k': int)
    requires k' in u && k < k'
    ensures |set x | x in u && x > k'| < |set x | x in u && x > k|
  {
    var a := set x | x in u && x > k';
    var b := set x | x in u && x > k;
    assert a <= b - {k'};
    assert k' in b;
    SubsetCard(a, b - {k'});
  }
}
