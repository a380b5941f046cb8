/** `findMany({ orderBy: { updatedAt: 'desc' } })` as the admin list pages use it: every
    record id exactly once, newest update first. Records with equal update times come in
    some order the store chooses. */
module Listing {

  /** The keys of `ids`, read through `key`, never increase along the sequence. */
  predicate SortedDesc(ids: seq<nat>, key: nat -> int) {
    forall i, j :: 0 <= i < j < |ids| ==> key(ids[i]) >= key(ids[j])
  }

  /** Inserts `x` before the first element whose key is smaller. */
  function InsertDesc(x: nat, ids: seq<nat>, key: nat -> int): (r: seq<nat>)
    requires SortedDesc(ids, key)
    ensures SortedDesc(r, key)
    ensures multiset(r) == multiset(ids) + multiset{x}
  {
    if ids == [] then [x]
    else if key(x) >= key(ids[0]) then [x] + ids
    else
      var rest := InsertDesc(x, ids[1..], key);
      assert ids == [ids[0]] + ids[1..];
      assert forall i :: 0 <= i < |rest| ==> key(ids[0]) >= key(rest[i]) by {
        forall i | 0 <= i < |rest| ensures key(ids[0]) >= key(rest[i]) {
          assert rest[i] in multiset(rest);
          assert rest[i] == x || rest[i] in multiset(ids[1..]);
        }
      }
      [ids[0]] + rest
  }

  /** The ids of `m` ordered by `key` of their records, descending. */
  method OrderedIds<T>(m: map<nat, T>, key: T -> int) returns (ids: seq<nat>)
    ensures multiset(ids) == multiset(m.Keys)
    ensures forall i :: 0 <= i < |ids| ==> ids[i] in m
    ensures forall i, j :: 0 <= i < j < |ids| ==> key(m[ids[i]]) >= key(m[ids[j]])
  {
    var byId := (id: nat) => if id in m then key(m[id]) else 0;
    var rest := m.Keys;
    ids := [];
    while rest != {}
      invariant rest <= m.Keys
      invariant multiset(ids) + multiset(rest) == multiset(m.Keys)
      invariant SortedDesc(ids, byId)
      decreases |rest|
    {
      var k :| k in rest;
      ids := InsertDesc(k, ids, byId);
      assert multiset(rest) == multiset(rest - {k}) + multiset{k};
      rest := rest - {k};
    }
    assert multiset(rest) == multiset{};
    forall i | 0 <= i < |ids| ensures ids[i] in m {
      assert ids[i] in multiset(ids);
      assert ids[i] in multiset(m.Keys);
      assert ids[i] in m.Keys;
    }
  }
}
