/**
  The list operations both pages build their new table data with. A record
  is an id, a creation time and the values submitted through the page's
  form; Products and Categories instantiate `V` with their own values.
*/
module RecordList {
  import opened Outcomes

  /** A `Date`, as milliseconds since the epoch. */
  type Timestamp = int

  datatype Record<V> = Record(id: string, createdAt: Timestamp, values: V)

  /** The ids of a list, in order. */
  function Ids<V>(s: seq<Record<V>>): (ids: seq<string>)
    ensures |ids| == |s|
    ensures forall i :: 0 <= i < |s| ==> ids[i] == s[i].id
  {
    if s == [] then [] else [s[0].id] + Ids(s[1..])
  }

  /** How many records of s carry the id. */
  function Occurrences<V>(s: seq<Record<V>>, id: string): nat
  {
    multiset(Ids(s))[id]
  }

  /** r keeps some of the elements of s, in their order in s. */
  predicate IsSubsequence<T(==)>(r: seq<T>, s: seq<T>)
    decreases |s|
  {
    if r == [] then true
    else if s == [] then false
    else (r[0] == s[0] && IsSubsequence(r[1..], s[1..])) || IsSubsequence(r, s[1..])
  }

  /** `s.filter(x => x.id !== id)`: the delete handler's new list, and the
      tail of the list an update builds. */
  function WithoutId<V>(s: seq<Record<V>>, id: string): seq<Record<V>>
  {
    if s == [] then []
    else if s[0].id != id then [s[0]] + WithoutId(s[1..], id)
    else WithoutId(s[1..], id)
  }

  /** `s.find(x => x.id === id)`: the first record with the id, if any. */
  function Find<V>(s: seq<Record<V>>, id: string): (r: Option<Record<V>>)
    ensures r.None? <==> id !in Ids(s)
    ensures r.Some? ==> r.value in s && r.value.id == id
  {
    if s == [] then None
    else if s[0].id == id then Some(s[0])
    else Find(s[1..], id)
  }

  /** The create path of onSubmit: the new record, then the old list. */
  function Create<V>(s: seq<Record<V>>, id: string, now: Timestamp, v: V): seq<Record<V>>
  {
    [Record(id, now, v)] + s
  }

  /** The update path of onSubmit: the rebuilt record, then every other
      record. The old creation time is not kept. */
  function Update<V>(s: seq<Record<V>>, id: string, now: Timestamp, v: V): seq<Record<V>>
  {
    [Record(id, now, v)] + WithoutId(s, id)
  }

  /** Create puts one record at the head, which a lookup of its id finds
      even if the id was taken, and keeps the old list behind it. */
  lemma CreateSpec<V>(s: seq<Record<V>>, id: string, now: Timestamp, v: V)
    ensures var r := Create(s, id, now, v);
            && |r| == |s| + 1 && r[1..] == s
            && Find(r, id) == Some(Record(id, now, v))
            && Occurrences(r, id) == Occurrences(s, id) + 1
  {
    var r := Create(s, id, now, v);
    assert Ids(r) == [id] + Ids(s);
    assert r[1..] == s;
  }

  /** Update leaves exactly one record with the id, the rebuilt one, at the
      head; behind it every other record of the old list in its old order. */
  lemma UpdateSpec<V>(s: seq<Record<V>>, id: string, now: Timestamp, v: V)
    ensures var r := Update(s, id, now, v);
            && Find(r, id) == Some(Record(id, now, v))
            && Occurrences(r, id) == 1
            && |r| == |s| - Occurrences(s, id) + 1
            && IsSubsequence(r[1..], s)
            && (forall i :: 1 <= i < |r| ==> r[i] in s && r[i].id != id)
            && (forall i :: 0 <= i < |s| && s[i].id != id ==> s[i] in r)
  {
    var rest := WithoutId(s, id);
    var r := Update(s, id, now, v);
    WithoutIdLength(s, id);
    WithoutIdIsSubsequence(s, id);
    WithoutIdHasNoId(s, id);
    WithoutIdMembers(s, id);
    assert Ids(r) == [id] + Ids(rest);
    assert r[1..] == rest;
  }

  /** Delete keeps exactly the records whose id differs. */
  lemma {:induction false} WithoutIdMembers<V>(s: seq<Record<V>>, id: string)
    ensures var r := WithoutId(s, id);
            && (forall i :: 0 <= i < |r| ==> r[i] in s && r[i].id != id)
            && (forall i :: 0 <= i < |s| && s[i].id != id ==> s[i] in r)
  {
    if s != [] {
      WithoutIdMembers(s[1..], id);
      var r := WithoutId(s, id);
      var r' := WithoutId(s[1..], id);
      forall i | 0 <= i < |s| && s[i].id != id ensures s[i] in r {
        if i > 0 {
          assert s[1..][i - 1] == s[i];
        }
      }
      forall i | 0 <= i < |r| ensures r[i] in s && r[i].id != id {
        if s[0].id != id && i == 0 {
        } else if s[0].id != id {
          assert r[i] == r'[i - 1];
        } else {
          assert r[i] == r'[i];
        }
      }
    }
  }

  lemma {:induction false} WithoutIdLength<V>(s: seq<Record<V>>, id: string)
    ensures |WithoutId(s, id)| == |s| - Occurrences(s, id)
  {
    if s != [] {
      WithoutIdLength(s[1..], id);
      assert Ids(s) == [s[0].id] + Ids(s[1..]);
    }
  }

  lemma {:induction false} WithoutIdIsSubsequence<V>(s: seq<Record<V>>, id: string)
    ensures IsSubsequence(WithoutId(s, id), s)
  {
    if s != [] {
      WithoutIdIsSubsequence(s[1..], id);
      if s[0].id == id {
        SubsequenceOfTail(WithoutId(s, id), s);
      }
    }
  }

  lemma SubsequenceOfTail<T>(r: seq<T>, s: seq<T>)
    requires s != [] && IsSubsequence(r, s[1..])
    ensures IsSubsequence(r, s)
  {
  }

  lemma WithoutIdHasNoId<V>(s: seq<Record<V>>, id: string)
    ensures id !in Ids(WithoutId(s, id))
  {
    var r := WithoutId(s, id);
    WithoutIdMembers(s, id);
    forall i | 0 <= i < |r| ensures Ids(r)[i] != id {
      assert r[i] in r;
    }
  }

  /** A list with no record of the id is left as it is. */
  lemma {:induction false} WithoutIdAbsent<V>(s: seq<Record<V>>, id: string)
    requires id !in Ids(s)
    ensures WithoutId(s, id) == s
  {
    if s != [] {
      assert Ids(s) == [s[0].id] + Ids(s[1..]);
      WithoutIdAbsent(s[1..], id);
    }
  }

  /** Filtering works piecewise, which is how it keeps the order. */
  lemma {:induction false} WithoutIdAppend<V>(a: seq<Record<V>>, b: seq<Record<V>>, id: string)
    ensures WithoutId(a + b, id) == WithoutId(a, id) + WithoutId(b, id)
  {
    if a == [] {
      assert a + b == b;
    } else {
      assert (a + b)[1..] == a[1..] + b;
      WithoutIdAppend(a[1..], b, id);
    }
  }

  /** Deleting twice is deleting once. */
  lemma WithoutIdIdempotent<V>(s: seq<Record<V>>, id: string)
    ensures WithoutId(WithoutId(s, id), id) == WithoutId(s, id)
  {
    WithoutIdHasNoId(s, id);
    WithoutIdAbsent(WithoutId(s, id), id);
  }

  /** Deleting a record created with an id no other record has gives back
      the list it was created in. */
  lemma DeleteUndoesCreate<V>(s: seq<Record<V>>, id: string, now: Timestamp, v: V)
    requires id !in Ids(s)
    ensures WithoutId(Create(s, id, now, v), id) == s
  {
    assert Create(s, id, now, v)[1..] == s;
    WithoutIdAbsent(s, id);
  }

  /** Submitting the same edit twice gives the same list as submitting it once. */
  lemma UpdateIdempotent<V>(s: seq<Record<V>>, id: string, now: Timestamp, v: V)
    ensures Update(Update(s, id, now, v), id, now, v) == Update(s, id, now, v)
  {
    var u := Update(s, id, now, v);
    assert u == [Record(id, now, v)] + WithoutId(s, id);
    assert WithoutId(u, id) == WithoutId(WithoutId(s, id), id);
    WithoutIdIdempotent(s, id);
  }

  /** An update touches nothing but the records with the edited id: deleting
      that id afterwards gives the same list as deleting it before. */
  lemma UpdateThenDelete<V>(s: seq<Record<V>>, id: string, now: Timestamp, v: V)
    ensures WithoutId(Update(s, id, now, v), id) == WithoutId(s, id)
  {
    WithoutIdIdempotent(s, id);
  }

  /** Find returns the first record with the id. */
  lemma {:induction false} FindFirst<V>(s: seq<Record<V>>, id: string, i: nat)
    requires i < |s| && s[i].id == id
    requires forall j :: 0 <= j < i ==> s[j].id != id
    ensures Find(s, id) == Some(s[i])
  {
    if i > 0 {
      FindFirst(s[1..], id, i - 1);
    }
  }

  /** Deleting one id changes no lookup of another id, and makes every
      lookup of the deleted id miss. */
  lemma {:induction false} FindAfterDelete<V>(s: seq<Record<V>>, deleted: string, id: string)
    ensures Find(WithoutId(s, deleted), id) == if id == deleted then None else Find(s, id)
  {
    if s != [] {
      FindAfterDelete(s[1..], deleted, id);
    }
  }
}
