/** The OR-mode merge at the end of `search_files`: a stable sort by `id` (`sort_by_key`)
    followed by removing all but the first of each run of equal ids (`dedup_by_key`). */
module MergeById {
  import opened Records

  predicate HasId(s: seq<FileResult>, id: int32) {
    exists i :: 0 <= i < |s| && s[i].id == id
  }

  function Ids(s: seq<FileResult>): set<int32> {
    set i | 0 <= i < |s| :: s[i].id
  }

  predicate SortedById(s: seq<FileResult>) {
    forall i, j :: 0 <= i < j < |s| ==> s[i].id <= s[j].id
  }

  predicate StrictlyIncreasingIds(s: seq<FileResult>) {
    forall i, j :: 0 <= i < j < |s| ==> s[i].id < s[j].id
  }

  /** The earliest record of `s` carrying `id`. */
  function FirstWithId(s: seq<FileResult>, id: int32): (r: FileResult)
    requires HasId(s, id)
    ensures r in s && r.id == id
  {
    if s[0].id == id then s[0] else FirstWithId(s[1..], id)
  }

  /** Inserts `x` before every element whose id is not smaller, so among equal ids `x` comes first. */
  function InsertById(x: FileResult, s: seq<FileResult>): (r: seq<FileResult>)
    ensures multiset(r) == multiset(s) + multiset{x}
    ensures r[0] == x || (s != [] && r[0] == s[0])
  {
    if s == [] || x.id <= s[0].id then [x] + s
    else
      assert s == [s[0]] + s[1..];
      [s[0]] + InsertById(x, s[1..])
  }

  lemma {:induction false} InsertSorted(x: FileResult, s: seq<FileResult>)
    requires SortedById(s)
    ensures SortedById(InsertById(x, s))
    decreases |s|
  {
    if s != [] && x.id > s[0].id {
      var rest := InsertById(x, s[1..]);
      InsertSorted(x, s[1..]);
      assert InsertById(x, s) == [s[0]] + rest;
      assert s[1..] != [] ==> s[0].id <= s[1].id;
      forall j | 0 <= j < |rest| ensures s[0].id <= rest[j].id {
        assert rest[0].id <= rest[j].id;
      }
    }
  }

  /** The sort by id. It is stable in the sense `SortKeepsFirst` proves: the first record of
      each id stays the first one of that id. */
  function SortById(s: seq<FileResult>): (r: seq<FileResult>)
    ensures SortedById(r)
    ensures multiset(r) == multiset(s)
  {
    if s == [] then []
    else
      assert s == [s[0]] + s[1..];
      InsertSorted(s[0], SortById(s[1..]));
      InsertById(s[0], SortById(s[1..]))
  }

  /** Keeps the first of every run of consecutive records with the same id: the first record
      survives, and nothing is kept that was not in the input. */
  function DedupById(s: seq<FileResult>): (r: seq<FileResult>)
    ensures |s| > 0 ==> |r| > 0 && r[0] == s[0]
    ensures forall x :: x in r ==> x in s
    decreases |s|
  {
    if |s| <= 1 then s
    else if s[0].id == s[1].id then
      var t := [s[0]] + s[2..];
      assert forall x :: x in t ==> x in s;
      DedupById(t)
    else
      assert forall x :: x in s[1..] ==> x in s;
      [s[0]] + DedupById(s[1..])
  }

  /** The merged OR result: ascending ids, no id twice, exactly the ids collected, and for each
      id the record that was collected first. */
  function Merge(collected: seq<FileResult>): (m: seq<FileResult>)
    ensures StrictlyIncreasingIds(m)
    ensures forall i, j :: 0 <= i < |m| && 0 <= j < |m| && i != j ==> m[i].id != m[j].id
    ensures Ids(m) == Ids(collected)
    ensures forall r :: r in m ==> HasId(collected, r.id) && r == FirstWithId(collected, r.id)
  {
    MergeFacts(collected);
    DedupById(SortById(collected))
  }

  lemma HasIdIffInIds(s: seq<FileResult>, id: int32)
    ensures HasId(s, id) <==> id in Ids(s)
  {
  }

  lemma IdsOfMultiset(s: seq<FileResult>, t: seq<FileResult>)
    requires multiset(s) == multiset(t)
    ensures Ids(s) == Ids(t)
  {
    forall id | id in Ids(s) ensures id in Ids(t) {
      var i :| 0 <= i < |s| && s[i].id == id;
      assert s[i] in multiset(t);
    }
    forall id | id in Ids(t) ensures id in Ids(s) {
      var i :| 0 <= i < |t| && t[i].id == id;
      assert t[i] in multiset(s);
    }
  }

  lemma HasIdTail(s: seq<FileResult>, id: int32)
    requires HasId(s, id) && s[0].id != id
    ensures HasId(s[1..], id)
  {
  }

  /** In `InsertById(x, s)` everything in front of `x` has a smaller id. */
  lemma {:induction false} InsertKeepsFirst(x: FileResult, s: seq<FileResult>, id: int32)
    requires HasId(s, id) || x.id == id
    ensures HasId(InsertById(x, s), id)
    ensures FirstWithId(InsertById(x, s), id) == if x.id == id then x else FirstWithId(s, id)
    decreases |s|
  {
    var r := InsertById(x, s);
    if s == [] || x.id <= s[0].id {
      assert r[0] == x;
      if x.id != id {
        assert r[1..] == s;
        var i :| 0 <= i < |s| && s[i].id == id;
        assert r[i + 1].id == id;
      }
    } else {
      assert r == [s[0]] + InsertById(x, s[1..]);
      if s[0].id != id {
        if x.id != id {
          HasIdTail(s, id);
        }
        InsertKeepsFirst(x, s[1..], id);
        assert r[1..] == InsertById(x, s[1..]);
        var i :| 0 <= i < |r[1..]| && r[1..][i].id == id;
        assert r[i + 1].id == id;
      } else {
        assert r[0].id == id;
      }
    }
  }

  /** Stability: sorting does not change which record is the first with a given id. */
  lemma {:induction false} SortKeepsFirst(s: seq<FileResult>, id: int32)
    requires HasId(s, id)
    ensures HasId(SortById(s), id)
    ensures FirstWithId(SortById(s), id) == FirstWithId(s, id)
    decreases |s|
  {
    var t := SortById(s[1..]);
    if s[0].id == id {
      InsertKeepsFirst(s[0], t, id);
    } else {
      HasIdTail(s, id);
      SortKeepsFirst(s[1..], id);
      InsertKeepsFirst(s[0], t, id);
    }
  }

  /** Dedup drops records, never ids. */
  lemma {:induction false} DedupKeepsIds(s: seq<FileResult>)
    ensures Ids(DedupById(s)) == Ids(s)
    decreases |s|
  {
    if |s| > 1 {
      if s[0].id == s[1].id {
        var t := [s[0]] + s[2..];
        DedupKeepsIds(t);
        forall id | id in Ids(s) ensures id in Ids(t) {
          var i :| 0 <= i < |s| && s[i].id == id;
          if i <= 1 { assert t[0].id == id; } else { assert t[i - 1] == s[i]; }
        }
        forall id | id in Ids(t) ensures id in Ids(s) {
          var i :| 0 <= i < |t| && t[i].id == id;
          if i == 0 { assert s[0].id == id; } else { assert t[i] == s[i + 1]; }
        }
      } else {
        var t := s[1..];
        var d := DedupById(s);
        var dt := DedupById(t);
        DedupKeepsIds(t);
        assert d == [s[0]] + dt;
        forall id | id in Ids(s) ensures id in Ids(d) {
          var i :| 0 <= i < |s| && s[i].id == id;
          if i == 0 {
            assert d[0].id == id;
          } else {
            assert t[i - 1] == s[i];
            assert id in Ids(dt);
            var k :| 0 <= k < |dt| && dt[k].id == id;
            assert d[k + 1] == dt[k];
          }
        }
        forall id | id in Ids(d) ensures id in Ids(s) {
          var i :| 0 <= i < |d| && d[i].id == id;
          if i == 0 {
            assert s[0].id == id;
          } else {
            assert dt[i - 1] == d[i];
            assert id in Ids(t);
            var k :| 0 <= k < |t| && t[k].id == id;
            assert s[k + 1] == t[k];
          }
        }
      }
    }
  }

  /** Dropping the second record of a sorted list leaves it sorted. */
  lemma SortedWithoutSecond(s: seq<FileResult>)
    requires SortedById(s) && |s| > 1
    ensures SortedById([s[0]] + s[2..])
  {
    var t := [s[0]] + s[2..];
    assert forall k :: 1 <= k < |t| ==> t[k] == s[k + 1];
    forall i, j | 0 <= i < j < |t| ensures t[i].id <= t[j].id {
      assert t[j] == s[j + 1];
      if i == 0 { assert s[0].id <= s[j + 1].id; } else { assert t[i] == s[i + 1]; }
    }
  }

  /** On sorted input the ids left by dedup are strictly increasing. */
  lemma {:induction false} DedupStrictlyIncreasing(s: seq<FileResult>)
    requires SortedById(s)
    ensures StrictlyIncreasingIds(DedupById(s))
    decreases |s|
  {
    if |s| > 1 {
      if s[0].id == s[1].id {
        var t := [s[0]] + s[2..];
        SortedWithoutSecond(s);
        DedupStrictlyIncreasing(t);
      } else {
        var t := s[1..];
        var d := DedupById(s);
        var dt := DedupById(t);
        DedupStrictlyIncreasing(t);
        assert d == [s[0]] + dt;
        forall i, j | 0 <= i < j < |d| ensures d[i].id < d[j].id {
          if i == 0 {
            assert d[j] == dt[j - 1];
            assert dt[j - 1] in t;
            var k :| 0 <= k < |t| && t[k] == dt[j - 1];
            assert s[1].id <= s[k + 1].id;
          } else {
            assert d[i] == dt[i - 1] && d[j] == dt[j - 1];
          }
        }
      }
    }
  }

  /** On sorted input every record dedup keeps is the first of its id. */
  lemma {:induction false} DedupKeepsFirst(s: seq<FileResult>)
    requires SortedById(s)
    ensures forall r :: r in DedupById(s) ==> HasId(s, r.id) && r == FirstWithId(s, r.id)
    decreases |s|
  {
    if |s| > 1 {
      if s[0].id == s[1].id {
        var t := [s[0]] + s[2..];
        SortedWithoutSecond(s);
        DedupKeepsFirst(t);
        forall r | r in DedupById(s) ensures HasId(s, r.id) && r == FirstWithId(s, r.id) {
          assert r in s;
          var i :| 0 <= i < |s| && s[i] == r;
          assert HasId(s, r.id);
          if r.id != s[0].id {
            assert t[1..] == s[2..] == s[1..][1..];
          }
        }
      } else {
        var t := s[1..];
        DedupKeepsFirst(t);
        assert DedupById(s) == [s[0]] + DedupById(t);
        forall r | r in DedupById(s) ensures HasId(s, r.id) && r == FirstWithId(s, r.id) {
          assert r in s;
          var i :| 0 <= i < |s| && s[i] == r;
          assert HasId(s, r.id);
          if r != s[0] {
            assert r in DedupById(t);
            assert r in t;
            var k :| 0 <= k < |t| && t[k] == r;
            assert s[1].id <= s[k + 1].id;
          }
        }
      }
    }
  }

  lemma MergeFacts(collected: seq<FileResult>)
    ensures var m := DedupById(SortById(collected));
      StrictlyIncreasingIds(m) &&
      (forall i, j :: 0 <= i < |m| && 0 <= j < |m| && i != j ==> m[i].id != m[j].id) &&
      Ids(m) == Ids(collected) &&
      forall r :: r in m ==> HasId(collected, r.id) && r == FirstWithId(collected, r.id)
  {
    var sorted := SortById(collected);
    DedupStrictlyIncreasing(sorted);
    DedupKeepsIds(sorted);
    DedupKeepsFirst(sorted);
    IdsOfMultiset(sorted, collected);
    forall r | r in DedupById(sorted) ensures HasId(collected, r.id) && r == FirstWithId(collected, r.id) {
      HasIdIffInIds(sorted, r.id);
      HasIdIffInIds(collected, r.id);
      SortKeepsFirst(collected, r.id);
    }
    var m := DedupById(sorted);
    forall i, j | 0 <= i < |m| && 0 <= j < |m| && i != j ensures m[i].id != m[j].id {
      if i < j { assert m[i].id < m[j].id; } else { assert m[j].id < m[i].id; }
    }
  }
}
