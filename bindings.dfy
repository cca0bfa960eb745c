/**
 * Variable bindings as values: what a batch of assignments leaves behind and
 * how far a batch gets before a name is refused.
 */
module Bindings {

  /** The names a batch of entries assigns. */
  function Names(entries: seq<(string, real)>): set<string>
  {
    set i | 0 <= i < |entries| :: entries[i].0
  }

  /** The bindings after assigning the entries one after the other. */
  function Assign(vals: map<string, real>, entries: seq<(string, real)>): (r: map<string, real>)
    ensures r.Keys == vals.Keys + Names(entries)
    decreases |entries|
  {
    if |entries| == 0 then vals
    else
      var init := entries[..|entries| - 1];
      var last := entries[|entries| - 1];
      assert Names(entries) == Names(init) + {last.0} by {
        assert forall i :: 0 <= i < |init| ==> init[i] == entries[i];
      }
      Assign(vals, init)[last.0 := last.1]
  }

  /** The last entry for a name decides its value. */
  lemma {:induction false} AssignLastWins(vals: map<string, real>, entries: seq<(string, real)>, i: nat)
    requires i < |entries|
    requires forall j :: i < j < |entries| ==> entries[j].0 != entries[i].0
    ensures entries[i].0 in Assign(vals, entries) && Assign(vals, entries)[entries[i].0] == entries[i].1
    decreases |entries|
  {
    var init := entries[..|entries| - 1];
    if i < |entries| - 1 {
      assert init[i] == entries[i];
      AssignLastWins(vals, init, i);
    }
  }

  /** Names the entries do not mention keep their value. */
  lemma {:induction false} AssignUntouched(vals: map<string, real>, entries: seq<(string, real)>, name: string)
    requires name in vals && name !in Names(entries)
    ensures Assign(vals, entries)[name] == vals[name]
    decreases |entries|
  {
    if |entries| > 0 {
      var init := entries[..|entries| - 1];
      assert Names(init) <= Names(entries) by {
        assert forall i :: 0 <= i < |init| ==> init[i] == entries[i];
      }
      AssignUntouched(vals, init, name);
    }
  }

  /** How many leading entries carry a name outside `reserved`. */
  function BindablePrefix(entries: seq<(string, real)>, reserved: set<string>): (n: nat)
    ensures n <= |entries|
    ensures forall i :: 0 <= i < n ==> entries[i].0 !in reserved
    ensures n < |entries| ==> entries[n].0 in reserved
    decreases |entries|
  {
    if |entries| == 0 || entries[0].0 in reserved then 0
    else 1 + BindablePrefix(entries[1..], reserved)
  }

  /** Assigning one more entry is assigning it after the others. */
  lemma AssignSnoc(vals: map<string, real>, entries: seq<(string, real)>, i: nat)
    requires i < |entries|
    ensures Assign(vals, entries[..i + 1]) == Assign(vals, entries[..i])[entries[i].0 := entries[i].1]
    ensures Names(entries[..i + 1]) == Names(entries[..i]) + {entries[i].0}
  {
    assert entries[..i + 1][..i] == entries[..i];
    assert forall j :: 0 <= j < i ==> entries[..i + 1][j] == entries[..i][j];
  }
}
