/** The `addedPeople` slice: the people saved from the add-person form, newest first. */
module AddedPeople {
  import opened StarWars

  /** The list after `addPerson(p)`: `p` in front of everything already there. */
  function Prepend(list: seq<Person>, p: Person): (r: seq<Person>)
    ensures |r| == |list| + 1
    ensures r[0] == p
    ensures r[1..] == list
  {
    [p] + list
  }

  /** The list after adding `ps` one by one, first to last: the added people newest first, ahead of the earlier list. */
  function AddAll(list: seq<Person>, ps: seq<Person>): (r: seq<Person>)
    ensures |r| == |list| + |ps|
    ensures r == Reversed(ps) + list
    decreases |ps|
  {
    if ps == [] then list
    else
      var rest := AddAll(Prepend(list, ps[0]), ps[1..]);
      assert Reversed(ps[1..]) + ([ps[0]] + list) == (Reversed(ps[1..]) + [ps[0]]) + list;
      rest
  }

  function Reversed(s: seq<Person>): (r: seq<Person>)
    ensures |r| == |s|
  {
    if s == [] then [] else Reversed(s[1..]) + [s[0]]
  }

  /** The most recently added person is always the first in the list. */
  lemma NewestFirst(list: seq<Person>, ps: seq<Person>)
    requires ps != []
    ensures AddAll(list, ps)[0] == ps[|ps| - 1]
  {
    ReversedHead(ps);
  }

  lemma {:induction false} ReversedHead(s: seq<Person>)
    requires s != []
    ensures Reversed(s)[0] == s[|s| - 1]
  {
    if |s| > 1 {
      ReversedHead(s[1..]);
    }
  }

  /** The slice state; `list` is mutated in place by the reducer. */
  class AddedPeopleStore {
    var list: seq<Person>

    /** `initialState` */
    constructor ()
      ensures list == []
    {
      list := [];
    }

    /** `addPerson`: `state.list.unshift(action.payload)` */
    method AddPerson(p: Person)
      modifies this
      ensures list == Prepend(old(list), p)
    {
      list := [p] + list;
    }
  }
}
