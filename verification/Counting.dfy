/** How many elements of a list pass a test, as the size of the set of their places. */
module Counting {
  import Sorting

  ghost function Places<T>(s: seq<T>, test: T -> bool): set<int> {
    set i | 0 <= i < |s| && test(s[i])
  }

  lemma PlacesSnoc<T>(s: seq<T>, test: T -> bool)
    requires s != []
    ensures var n := |s| - 1;
            |Places(s, test)| == |Places(s[..n], test)| + (if test(s[n]) then 1 else 0)
  {
    var n := |s| - 1;
    assert Places(s, test) == Places(s[..n], test) + (if test(s[n]) then {n} else {});
    assert n !in Places(s[..n], test);
  }

  lemma NoPlaces<T>(test: T -> bool)
    ensures |Places([], test)| == 0
  {
    assert Places([], test) == {};
  }

  lemma {:induction false} PlacesConcat<T>(a: seq<T>, b: seq<T>, test: T -> bool)
    ensures |Places(a + b, test)| == |Places(a, test)| + |Places(b, test)|
    decreases |b|
  {
    if b == [] {
      NoPlaces(test);
      assert a + b == a;
    } else {
      var front, all := b[..|b| - 1], a + b;
      PlacesConcat(a, front, test);
      PlacesSnoc(b, test);
      PlacesSnoc(all, test);
      assert all[..|all| - 1] == a + front;
    }
  }

  ghost function Others<T>(s: seq<T>, test: T -> bool): set<int> {
    set i | 0 <= i < |s| && !test(s[i])
  }

  /** The places that pass a test and those that do not are all places. */
  lemma {:induction false} PlacesSplit<T>(s: seq<T>, test: T -> bool)
    ensures |Places(s, test)| + |Others(s, test)| == |s|
  {
    if s == [] {
      assert Places(s, test) == {} && Others(s, test) == {};
    } else {
      var n := |s| - 1;
      PlacesSplit(s[..n], test);
      PlacesSnoc(s, test);
      assert Others(s, test) == Others(s[..n], test) + (if test(s[n]) then {} else {n});
    }
  }

  ghost function Image(places: set<int>, at: seq<int>): set<int> {
    set j | j in places && 0 <= j < |at| :: at[j]
  }

  /** Distinct places stay as many when they are looked up in a list without repetition. */
  lemma {:induction false} ImageSize(places: set<int>, at: seq<int>)
    requires forall j :: j in places ==> 0 <= j < |at|
    requires forall j, k :: 0 <= j < k < |at| ==> at[j] < at[k]
    ensures |Image(places, at)| == |places|
    decreases |places|
  {
    if places == {} {
      assert Image(places, at) == {};
    } else {
      var first := Sorting.Member(places);
      var others := places - {first};
      ImageSize(others, at);
      assert at[first] !in Image(others, at);
      assert Image(places, at) == Image(others, at) + {at[first]};
    }
  }
}
