/**
  The in-memory person service the component's tests run against: a table of
  persons changed in place by append, assignment at an index and removal at
  an index, always at the first record whose id matches.
*/
module MockService {
  import opened Persons

  predicate HasId(ps: seq<Person>, id: int) {
    exists i :: 0 <= i < |ps| && ps[i].id == id
  }

  /** No two records share an id. */
  predicate UniqueIds(ps: seq<Person>) {
    forall i, j :: 0 <= i < j < |ps| ==> ps[i].id != ps[j].id
  }

  /** `findIndex(p => p.id === id)`: the first position holding `id`, or -1. */
  function FirstIndex(ps: seq<Person>, id: int): (r: int)
    ensures -1 <= r < |ps|
    ensures r == -1 <==> !HasId(ps, id)
    ensures 0 <= r ==> ps[r].id == id && forall j :: 0 <= j < r ==> ps[j].id != id
  {
    if ps == [] then -1
    else if ps[0].id == id then 0
    else
      var r := FirstIndex(ps[1..], id);
      assert forall j :: 0 < j < |ps| ==> ps[1..][j - 1] == ps[j];
      if r == -1 then -1 else r + 1
  }

  /** `Math.max(...ids, 0)`. */
  function MaxId(ps: seq<Person>): (m: int)
    ensures 0 <= m
    ensures forall i :: 0 <= i < |ps| ==> ps[i].id <= m
    ensures m == 0 || exists i :: 0 <= i < |ps| && ps[i].id == m
  {
    if ps == [] then 0
    else
      var m := MaxId(ps[..|ps| - 1]);
      assert forall i :: 0 <= i < |ps| - 1 ==> ps[..|ps| - 1][i] == ps[i];
      if ps[|ps| - 1].id > m then ps[|ps| - 1].id else m
  }

  /** `generateId`: one past the largest id, and 1 for an empty table. */
  function NextId(ps: seq<Person>): (n: int)
    ensures 1 <= n
    ensures forall i :: 0 <= i < |ps| ==> ps[i].id < n
    ensures n == 1 || HasId(ps, n - 1)
  {
    MaxId(ps) + 1
  }

  /** `find(p => p.id === id)`. */
  function Lookup(ps: seq<Person>, id: int): (r: Option<Person>)
    ensures r == None <==> !HasId(ps, id)
    ensures r.Some? ==> r.value.id == id && r.value in ps
    ensures r.Some? ==>
              exists i :: 0 <= i < |ps| && ps[i] == r.value && forall j :: 0 <= j < i ==> ps[j].id != id
  {
    var i := FirstIndex(ps, id);
    if i == -1 then None else Some(ps[i])
  }

  /** The table after `addPerson(p)`. */
  function Added(ps: seq<Person>, p: Person): (r: seq<Person>)
    ensures |r| == |ps| + 1 && r[..|ps|] == ps
    ensures r[|ps|] == Person(NextId(ps), p.firstName, p.lastName, p.email)
  {
    ps + [p.(id := NextId(ps))]
  }

  /** The table after `updatePerson(id, p)`. */
  function Replaced(ps: seq<Person>, id: int, p: Person): (r: seq<Person>)
    ensures |r| == |ps|
    ensures !HasId(ps, id) ==> r == ps
    ensures HasId(ps, id) ==>
              r[FirstIndex(ps, id)] == Person(id, p.firstName, p.lastName, p.email)
    ensures forall i :: 0 <= i < |ps| && i != FirstIndex(ps, id) ==> r[i] == ps[i]
  {
    var i := FirstIndex(ps, id);
    if i == -1 then ps else ps[i := p.(id := id)]
  }

  /** The table after `deletePerson(id)`. */
  function Removed(ps: seq<Person>, id: int): (r: seq<Person>)
    ensures !HasId(ps, id) ==> r == ps
    ensures HasId(ps, id) ==> |r| == |ps| - 1
    ensures HasId(ps, id) ==>
              var k := FirstIndex(ps, id);
              r[..k] == ps[..k] && r[k..] == ps[k + 1..]
  {
    var i := FirstIndex(ps, id);
    if i == -1 then ps else ps[..i] + ps[i + 1..]
  }

  // ---------------------------------------------------------------------------
  // Properties of the table operations

  /** Adding keeps ids unique, and the new record is the one found under its id. */
  lemma AddedKeepsIds(ps: seq<Person>, p: Person)
    requires UniqueIds(ps)
    ensures UniqueIds(Added(ps, p))
    ensures Lookup(Added(ps, p), NextId(ps)) == Some(p.(id := NextId(ps)))
  {
    var r := Added(ps, p);
    assert forall i :: 0 <= i < |ps| ==> r[i] == ps[i];
    assert FirstIndex(r, NextId(ps)) == |ps|;
  }

  /** Updating keeps ids unique, and the id then finds the updated record. */
  lemma ReplacedKeepsIds(ps: seq<Person>, id: int, p: Person)
    requires UniqueIds(ps)
    ensures UniqueIds(Replaced(ps, id, p))
    ensures HasId(ps, id) ==> Lookup(Replaced(ps, id, p), id) == Some(p.(id := id))
  {
    var r := Replaced(ps, id, p);
    if HasId(ps, id) {
      var k := FirstIndex(ps, id);
      assert forall i :: 0 <= i < |ps| ==> r[i].id == ps[i].id;
      assert FirstIndex(r, id) == k;
    }
  }

  /** Position `i` of a table with position `k` removed came from this position. */
  function Skipping(i: int, k: int): int {
    if i < k then i else i + 1
  }

  lemma RemovedAt(ps: seq<Person>, id: int, i: int)
    requires HasId(ps, id) && 0 <= i < |Removed(ps, id)|
    ensures Removed(ps, id)[i] == ps[Skipping(i, FirstIndex(ps, id))]
  {
    var k, r := FirstIndex(ps, id), Removed(ps, id);
    if i < k {
      assert r[i] == r[..k][i];
    } else {
      assert r[i] == r[k..][i - k];
    }
  }

  /** Deleting keeps ids unique and, with unique ids, leaves no record under the id. */
  lemma RemovedKeepsIds(ps: seq<Person>, id: int)
    requires UniqueIds(ps)
    ensures UniqueIds(Removed(ps, id))
    ensures !HasId(Removed(ps, id), id)
  {
    if HasId(ps, id) {
      var k, r := FirstIndex(ps, id), Removed(ps, id);
      forall i, j | 0 <= i < j < |r| ensures r[i].id != r[j].id {
        RemovedAt(ps, id, i);
        RemovedAt(ps, id, j);
      }
      forall i | 0 <= i < |r| ensures r[i].id != id {
        RemovedAt(ps, id, i);
        var i' := Skipping(i, k);
        if i' < k {
          assert ps[i'].id != ps[k].id;
        } else {
          assert ps[k].id != ps[i'].id;
        }
      }
    }
  }

  /** The first person added to an empty table gets id 1. */
  lemma FirstAddGetsIdOne(p: Person)
    ensures Added([], p) == [Person(1, p.firstName, p.lastName, p.email)]
  {
  }

  // ---------------------------------------------------------------------------
  // The service object

  class PersonServiceMock {
    var mockPersons: seq<Person>

    /** The object invariant: no two stored persons share an id. */
    ghost predicate Valid()
      reads this
    {
      UniqueIds(mockPersons)
    }

    constructor ()
      ensures mockPersons == []
      ensures Valid()
    {
      mockPersons := [];
    }

    /** `getPersons`: the table as it is. */
    method GetPersons() returns (ps: seq<Person>)
      ensures ps == mockPersons
    {
      ps := mockPersons;
    }

    /** `getPerson(id)`: the first record with `id`, if any. */
    method GetPerson(id: int) returns (r: Option<Person>)
      ensures r == Lookup(mockPersons, id)
      ensures Valid() && r.Some? ==>
                forall i :: 0 <= i < |mockPersons| && mockPersons[i].id == id ==> mockPersons[i] == r.value
    {
      var i := FindIndex(id);
      r := if i == -1 then None else Some(mockPersons[i]);
    }

    /** `addPerson(p)`: append `p` under a fresh id and return it. */
    method AddPerson(p: Person) returns (added: Person)
      modifies this
      ensures added == Person(NextId(old(mockPersons)), p.firstName, p.lastName, p.email)
      ensures mockPersons == Added(old(mockPersons), p)
      ensures old(Valid()) ==> Valid()
    {
      var newId := GenerateId();
      added := p.(id := newId);
      mockPersons := mockPersons + [added];
      if UniqueIds(old(mockPersons)) {
        AddedKeepsIds(old(mockPersons), p);
      }
    }

    /** `updatePerson(id, p)`: overwrite the first record with `id` by `p` under `id`. */
    method UpdatePerson(id: int, p: Person) returns (r: Option<Person>)
      modifies this
      ensures r == (if HasId(old(mockPersons), id) then Some(p.(id := id)) else None)
      ensures mockPersons == Replaced(old(mockPersons), id, p)
      ensures old(Valid()) ==> Valid()
    {
      var index := FindIndex(id);
      if index != -1 {
        var updated := p.(id := id);
        mockPersons := mockPersons[index := updated];
        r := Some(updated);
      } else {
        r := None;
      }
      if UniqueIds(old(mockPersons)) {
        ReplacedKeepsIds(old(mockPersons), id, p);
      }
    }

    /** `deletePerson(id)`: remove the first record with `id`, if any. */
    method DeletePerson(id: int)
      modifies this
      ensures mockPersons == Removed(old(mockPersons), id)
      ensures old(Valid()) ==> Valid() && !HasId(mockPersons, id)
    {
      var index := FindIndex(id);
      if index != -1 {
        mockPersons := mockPersons[..index] + mockPersons[index + 1..];
      }
      if UniqueIds(old(mockPersons)) {
        RemovedKeepsIds(old(mockPersons), id);
      }
    }

    /** `generateId`: the largest id (at least 0) plus one. */
    method GenerateId() returns (newId: int)
      ensures newId == NextId(mockPersons)
    {
      var maxId := 0;
      var i := 0;
      while i < |mockPersons|
        invariant 0 <= i <= |mockPersons|
        invariant maxId == MaxId(mockPersons[..i])
      {
        assert mockPersons[..i + 1][..i] == mockPersons[..i];
        if mockPersons[i].id > maxId {
          maxId := mockPersons[i].id;
        }
        i := i + 1;
      }
      assert mockPersons[..i] == mockPersons;
      newId := maxId + 1;
    }

    /** `findIndex(p => p.id === id)` over the table. */
    method FindIndex(id: int) returns (index: int)
      ensures index == FirstIndex(mockPersons, id)
    {
      index := 0;
      while index < |mockPersons|
        invariant 0 <= index <= |mockPersons|
        invariant forall j :: 0 <= j < index ==> mockPersons[j].id != id
      {
        if mockPersons[index].id == id {
          return;
        }
        index := index + 1;
      }
      index := -1;
    }
  }
}
