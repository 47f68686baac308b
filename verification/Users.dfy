/** Recipient lists: blanks and repetitions removed, first occurrences kept in order. */
module Users {

  function Unique(values: seq<string>): (r: seq<string>)
    ensures forall u :: u in r <==> u in values && u != ""
    ensures forall i, j :: 0 <= i < j < |r| ==> r[i] != r[j]
    decreases |values|
  {
    if values == [] then []
    else
      var rest, last := Unique(values[..|values| - 1]), values[|values| - 1];
      assert values == values[..|values| - 1] + [last];
      if last == "" || last in rest then rest else rest + [last]
  }

  method UniqueUsers(values: seq<string>) returns (result: seq<string>)
    ensures result == Unique(values)
  {
    var seen := {};
    result := [];
    for i := 0 to |values|
      invariant result == Unique(values[..i])
      invariant forall u :: u in seen <==> u in result
    {
      assert values[..i + 1][..i] == values[..i];
      if values[i] != "" && values[i] !in seen {
        seen := seen + {values[i]};
        result := result + [values[i]];
      }
    }
    assert values[..|values|] == values;
  }

  /** A user listed at `i` and not before keeps its place: everyone ahead of it appeared before `i`. */
  lemma {:induction false} UniqueKeepsOrder(values: seq<string>, n: nat)
    requires n <= |values|
    ensures Unique(values[..n]) <= Unique(values)
    decreases |values| - n
  {
    if n < |values| {
      UniqueKeepsOrder(values, n + 1);
      assert values[..n + 1][..n] == values[..n];
    } else {
      assert values[..n] == values;
    }
  }

  lemma UniqueTwice(values: seq<string>)
    ensures Unique(Unique(values)) == Unique(values)
  {
    UniqueOfDistinct(Unique(values));
  }

  lemma {:induction false} UniqueOfDistinct(values: seq<string>)
    requires "" !in values && forall i, j :: 0 <= i < j < |values| ==> values[i] != values[j]
    ensures Unique(values) == values
    decreases |values|
  {
    if values != [] {
      UniqueOfDistinct(values[..|values| - 1]);
    }
  }
}
