/**
 * Keywords as the server returns them, and the list operations the keyword
 * multi-select dialog performs on its selection: insert at the front, remove
 * every entry carrying an id, remove the first entry equal to a keyword, and
 * the id mirror derived from the selection.
 */
module Keywords {

  /** A keyword: server-assigned id, the name used for matching, the label shown (`labelText`, since `label` is reserved in Dafny). */
  datatype Keyword = Keyword(id: int, name: string, labelText: string)

  /** The ids of a keyword list, position by position (`map { it.id }`). */
  function Ids(ks: seq<Keyword>): (r: seq<int>)
    ensures |r| == |ks|
    ensures forall i :: 0 <= i < |ks| ==> r[i] == ks[i].id
  {
    seq(|ks|, i requires 0 <= i < |ks| => ks[i].id)
  }

  /** The set of ids a keyword list carries. */
  function IdSet(ks: seq<Keyword>): (r: set<int>) {
    set i | i in Ids(ks)
  }

  /** No two entries of the list share an id. */
  predicate DistinctIds(ks: seq<Keyword>) {
    forall i, j :: 0 <= i < j < |ks| ==> ks[i].id != ks[j].id
  }

  /** Number of entries carrying `id`. */
  function CountId(ks: seq<Keyword>, id: int): (r: nat) {
    if |ks| == 0 then 0
    else (if ks[0].id == id then 1 else 0) + CountId(ks[1..], id)
  }

  /** `a` is `b` with some entries left out, the order of the rest kept. */
  ghost predicate Subsequence<T>(a: seq<T>, b: seq<T>)
    decreases |b|
  {
    || |a| == 0
    || (&& |b| > 0
        && ((a[0] == b[0] && Subsequence(a[1..], b[1..])) || Subsequence(a, b[1..])))
  }

  lemma {:induction false} SubsequenceOfItself<T>(a: seq<T>)
    ensures Subsequence(a, a)
    decreases |a|
  {
    if |a| > 0 {
      SubsequenceOfItself(a[1..]);
    }
  }

  /** Toggle-on: the keyword goes to the front, without looking for an existing entry. */
  function InsertFront(ks: seq<Keyword>, k: Keyword): (r: seq<Keyword>)
    ensures |r| == |ks| + 1 && r[0] == k && r[1..] == ks
    ensures multiset(r) == multiset(ks) + multiset{k}
    ensures CountId(r, k.id) == CountId(ks, k.id) + 1
  {
    [k] + ks
  }

  /** Toggle-off (`removeIf { it.id == id }`): every entry with the id goes, the rest keep their order. */
  function RemoveId(ks: seq<Keyword>, id: int): (r: seq<Keyword>)
    ensures forall k :: k in r ==> k in ks && k.id != id
    ensures forall k :: k in ks && k.id != id ==> k in r
    ensures |r| == |ks| - CountId(ks, id)
    ensures Subsequence(r, ks)
  {
    if |ks| == 0 then []
    else if ks[0].id == id then RemoveId(ks[1..], id)
    else [ks[0]] + RemoveId(ks[1..], id)
  }

  /** The position of the first entry equal to `k`. */
  function FirstIndex(ks: seq<Keyword>, k: Keyword): (i: nat)
    requires k in ks
    ensures i < |ks| && ks[i] == k && k !in ks[..i]
  {
    if ks[0] == k then 0
    else
      assert k in ks[1..] by { assert ks == [ks[0]] + ks[1..]; }
      var j := FirstIndex(ks[1..], k);
      assert ks[..j + 1] == [ks[0]] + ks[1..][..j];
      j + 1
  }

  /** `removeAt(i)`: the entry at `i` goes, the rest keep their order. */
  function RemoveAt<T>(a: seq<T>, i: nat): (r: seq<T>)
    requires i < |a|
    ensures r == a[..i] + a[i + 1..]
    ensures |r| == |a| - 1
    ensures multiset(r) == multiset(a) - multiset{a[i]}
    ensures Subsequence(r, a)
    decreases i
  {
    assert a == [a[0]] + a[1..];
    if i == 0 then
      SubsequenceOfItself(a[1..]);
      a[1..]
    else
      var rest := RemoveAt(a[1..], i - 1);
      assert a[..i] == [a[0]] + a[1..][..i - 1];
      assert a[i + 1..] == a[1..][i..];
      assert a[i] == a[1..][i - 1] && a[i] in multiset(a[1..]);
      var r := [a[0]] + rest;
      assert r[1..] == rest;
      r
  }

  /** Panel removal (`MutableList.remove(element)`): the first entry equal to `k` goes, if any. */
  function RemoveFirst(ks: seq<Keyword>, k: Keyword): (r: seq<Keyword>)
    ensures k !in ks ==> r == ks
    ensures k in ks ==> r == ks[..FirstIndex(ks, k)] + ks[FirstIndex(ks, k) + 1..]
    ensures k in ks ==> |r| == |ks| - 1
    ensures multiset(r) == multiset(ks) - multiset{k}
    ensures Subsequence(r, ks)
  {
    if k !in ks then
      SubsequenceOfItself(ks);
      ks
    else RemoveAt(ks, FirstIndex(ks, k))
  }

  /** `remove(keyword)` takes out the first equal entry and nothing else. */
  lemma RemoveFirstTakesFirstOccurrence(ks: seq<Keyword>, k: Keyword)
    requires k in ks
    ensures exists i :: 0 <= i < |ks| && ks[i] == k && k !in ks[..i] && RemoveFirst(ks, k) == ks[..i] + ks[i + 1..]
  {
    var i := FirstIndex(ks, k);
    assert ks[i] == k && k !in ks[..i] && RemoveFirst(ks, k) == ks[..i] + ks[i + 1..];
  }

  /** The toggle callback of the dialog: `value` true inserts `k` at the front, false removes `id`. */
  function Toggle(ks: seq<Keyword>, k: Keyword, id: int, value: bool): (r: seq<Keyword>)
    ensures value ==> |r| == |ks| + 1 && r[0] == k && r[1..] == ks
    ensures !value ==> forall x :: x in r ==> x.id != id
    ensures !value ==> forall x :: x in ks && x.id != id ==> x in r
    ensures !value ==> r == RemoveId(ks, id) && |r| == |ks| - CountId(ks, id) && Subsequence(r, ks)
  {
    if value then InsertFront(ks, k) else RemoveId(ks, id)
  }

  lemma InIds(ks: seq<Keyword>, id: int)
    ensures id in Ids(ks) <==> exists k :: k in ks && k.id == id
  {
    if id in Ids(ks) {
      var i :| 0 <= i < |ks| && Ids(ks)[i] == id;
      assert ks[i] in ks;
    }
    if exists k :: k in ks && k.id == id {
      var k :| k in ks && k.id == id;
      var i :| 0 <= i < |ks| && ks[i] == k;
      assert Ids(ks)[i] == id;
    }
  }

  /** Removing an id nobody carries leaves the list exactly as it was. */
  lemma {:induction false} RemoveAbsentId(ks: seq<Keyword>, id: int)
    requires forall k :: k in ks ==> k.id != id
    ensures RemoveId(ks, id) == ks
  {
    if |ks| > 0 {
      assert ks[0] in ks;
      assert forall k :: k in ks[1..] ==> k in ks;
      RemoveAbsentId(ks[1..], id);
      assert ks == [ks[0]] + ks[1..];
    }
  }

  lemma TailKeepsDistinct(ks: seq<Keyword>)
    requires |ks| > 0 && DistinctIds(ks)
    ensures DistinctIds(ks[1..])
    ensures forall x :: x in ks[1..] ==> x.id != ks[0].id
  {
    var tail := ks[1..];
    forall i, j | 0 <= i < j < |tail| ensures tail[i].id != tail[j].id {
      assert tail[i] == ks[i + 1] && tail[j] == ks[j + 1];
    }
    forall x | x in tail ensures x.id != ks[0].id {
      var j :| 0 <= j < |tail| && tail[j] == x;
      assert ks[j + 1] == x;
    }
  }

  lemma ConsKeepsDistinct(k: Keyword, rest: seq<Keyword>)
    requires DistinctIds(rest) && forall x :: x in rest ==> x.id != k.id
    ensures DistinctIds([k] + rest)
  {
    var r := [k] + rest;
    forall i, j | 0 <= i < j < |r| ensures r[i].id != r[j].id {
      if i == 0 {
        assert r[j] == rest[j - 1] && r[j] in rest;
      } else {
        assert r[i] == rest[i - 1] && r[j] == rest[j - 1];
      }
    }
  }

  /** Removal by id keeps a duplicate-free list duplicate-free. */
  lemma {:induction false} RemoveIdKeepsDistinct(ks: seq<Keyword>, id: int)
    requires DistinctIds(ks)
    ensures DistinctIds(RemoveId(ks, id))
  {
    if |ks| > 0 {
      TailKeepsDistinct(ks);
      RemoveIdKeepsDistinct(ks[1..], id);
      if ks[0].id != id {
        ConsKeepsDistinct(ks[0], RemoveId(ks[1..], id));
      }
    }
  }

  /** Inserting a keyword whose id is absent keeps a duplicate-free list duplicate-free. */
  lemma InsertFrontKeepsDistinct(ks: seq<Keyword>, k: Keyword)
    requires DistinctIds(ks) && k.id !in Ids(ks)
    ensures DistinctIds(InsertFront(ks, k))
  {
    var r := InsertFront(ks, k);
    forall i, j | 0 <= i < j < |r| ensures r[i].id != r[j].id {
      if i == 0 {
        assert r[j] == ks[j - 1] && Ids(ks)[j - 1] == r[j].id;
      } else {
        assert r[i] == ks[i - 1] && r[j] == ks[j - 1];
      }
    }
  }

  /** The id set after removal by id is the old id set without that id. */
  lemma IdSetRemoveId(ks: seq<Keyword>, id: int)
    ensures IdSet(RemoveId(ks, id)) == IdSet(ks) - {id}
  {
    var r := RemoveId(ks, id);
    forall x | x in IdSet(r) ensures x in IdSet(ks) - {id} {
      InIds(r, x);
      InIds(ks, x);
    }
    forall x | x in IdSet(ks) - {id} ensures x in IdSet(r) {
      InIds(r, x);
      InIds(ks, x);
    }
  }

  /** The id set after inserting at the front gains exactly the inserted id. */
  lemma IdSetInsertFront(ks: seq<Keyword>, k: Keyword)
    ensures IdSet(InsertFront(ks, k)) == IdSet(ks) + {k.id}
  {
    var r := InsertFront(ks, k);
    forall x ensures x in IdSet(r) <==> x in IdSet(ks) + {k.id} {
      InIds(r, x);
      InIds(ks, x);
      assert r[0] == k;
    }
  }

  /**
   * Toggling `k` against the current ids, twice, gives back the id set one
   * started with; when `k`'s id was absent it gives back the very same list.
   */
  lemma ToggleTwiceRestoresIds(sel: seq<Keyword>, k: Keyword)
    ensures var s1 := Toggle(sel, k, k.id, k.id !in Ids(sel));
      var s2 := Toggle(s1, k, k.id, k.id !in Ids(s1));
      && IdSet(s2) == IdSet(sel)
      && (k.id !in Ids(sel) ==> s2 == sel)
  {
    if k.id in Ids(sel) {
      var removed := RemoveId(sel, k.id);
      InIds(removed, k.id);
      IdSetInsertFront(removed, k);
      IdSetRemoveId(sel, k.id);
    } else {
      var added := InsertFront(sel, k);
      assert Ids(added)[0] == k.id;
      InIds(sel, k.id);
      RemoveAbsentId(sel, k.id);
    }
  }
}
