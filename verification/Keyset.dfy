/**
 Keyset paging over a table that may change between requests.

 A request sees one snapshot: the set of keys of the rows that match its filter.  Keys are integers
 listed in strictly descending order; the modules that use this one say how a row's key is formed.
 */
module Keyset {
  import opened Machine

  type Key = int

  ghost predicate Descending(s: seq<Key>) {
    forall i, j | 0 <= i < j < |s| :: s[i] > s[j]
  }

  ghost function Elements(s: seq<Key>): set<Key> {
    set k | k in s
  }

  predicate IsHighest(keys: set<Key>, m: Key) {
    m in keys && forall k | k in keys :: k <= m
  }

  lemma NonEmpty(keys: set<Key>)
    ensures keys == {} || exists k :: k in keys
  {
    if !exists k :: k in keys {
      assert keys == {};
    }
  }

  lemma {:induction false} HighestExists(keys: set<Key>)
    requires keys != {}
    ensures exists m :: IsHighest(keys, m)
    decreases |keys|
  {
    NonEmpty(keys);
    var a :| a in keys;
    var rest := keys - {a};
    if rest == {} {
      assert keys == {a};
      assert IsHighest(keys, a);
    } else {
      HighestExists(rest);
      var m :| IsHighest(rest, m);
      assert forall k | k in keys :: k == a || k in rest;
      assert IsHighest(keys, if a <= m then m else a);
    }
  }

  function Highest(keys: set<Key>): (m: Key)
    requires keys != {}
    ensures IsHighest(keys, m)
  {
    HighestExists(keys);
    var m :| m in keys && IsHighest(keys, m);
    m
  }

  /** `ORDER BY key DESC`. */
  function Sorted(keys: set<Key>): seq<Key>
    decreases keys
  {
    if keys == {} then []
    else
      var m := Highest(keys);
      [m] + Sorted(keys - {m})
  }

  lemma {:induction false} SortedFacts(keys: set<Key>)
    ensures Descending(Sorted(keys)) && Elements(Sorted(keys)) == keys && |Sorted(keys)| == |keys|
    decreases keys
  {
    if keys != {} {
      var m := Highest(keys);
      var rest := keys - {m};
      assert keys == rest + {m} && m !in rest;
      SortedFacts(rest);
      OnTop(m, Sorted(rest));
    }
  }

  lemma OnTop(m: Key, tail: seq<Key>)
    requires Descending(tail) && forall k | k in Elements(tail) :: k < m
    ensures Descending([m] + tail) && Elements([m] + tail) == Elements(tail) + {m}
  {
    JoinDescending([m], tail);
  }

  /** The elements past position `n` are those below the one before it. */
  lemma DropElements(s: seq<Key>, n: nat)
    requires Descending(s) && 0 < n <= |s|
    ensures Elements(s[n..]) == set k | k in Elements(s) && k < s[n - 1]
  {
    forall k | k in Elements(s) && k < s[n - 1]
      ensures k in s[n..]
    {
      var i :| 0 <= i < |s| && s[i] == k;
      assert s[n..][i - n] == k;
    }
  }

  /** A descending sequence is determined by its elements. */
  lemma {:induction false} SortedUnique(a: seq<Key>, b: seq<Key>)
    requires Descending(a) && Descending(b) && Elements(a) == Elements(b)
    ensures a == b
  {
    assert a != [] ==> a[0] in Elements(a);
    assert b != [] ==> b[0] in Elements(b);
    if a != [] {
      assert a[0] == b[0];
      DropElements(a, 1);
      DropElements(b, 1);
      SortedUnique(a[1..], b[1..]);
      assert a == [a[0]] + a[1..] && b == [b[0]] + b[1..];
    }
  }

  predicate IsBelow(cursor: Option<Key>, k: Key) {
    cursor.Some? ==> k < cursor.value
  }

  function Below(keys: set<Key>, cursor: Option<Key>): set<Key> {
    set k | k in keys && IsBelow(cursor, k)
  }

  function Above(keys: set<Key>, cursor: Option<Key>): set<Key> {
    set k | k in keys && (cursor.Some? ==> k > cursor.value)
  }

  function Take(s: seq<Key>, n: nat): seq<Key> {
    if n <= |s| then s[..n] else s
  }

  /** One forward page: the first `n` matching keys below the cursor. */
  function Page(keys: set<Key>, cursor: Option<Key>, n: nat): seq<Key> {
    Take(Sorted(Below(keys, cursor)), n)
  }

  lemma PageFacts(keys: set<Key>, cursor: Option<Key>, n: nat)
    ensures Descending(Page(keys, cursor, n)) && Elements(Page(keys, cursor, n)) <= Below(keys, cursor)
  {
    SortedFacts(Below(keys, cursor));
    assert forall k | k in Page(keys, cursor, n) :: k in Elements(Sorted(Below(keys, cursor)));
  }

  function After(cursor: Option<Key>, rows: seq<Key>): Option<Key> {
    if rows == [] then cursor else Some(rows[|rows| - 1])
  }

  /** All rows of a walk that sees one snapshot per request. */
  function Walk(snaps: seq<set<Key>>, cursor: Option<Key>, n: nat): seq<Key> {
    if snaps == [] then []
    else
      var rows := Page(snaps[0], cursor, n);
      rows + Walk(snaps[1..], After(cursor, rows), n)
  }

  /** The last request of the walk left nothing behind. */
  predicate Exhausted(snaps: seq<set<Key>>, cursor: Option<Key>, n: nat) {
    snaps != [] &&
    if |snaps| == 1 then |Below(snaps[0], cursor)| <= n
    else Exhausted(snaps[1..], After(cursor, Page(snaps[0], cursor, n)), n)
  }

  lemma JoinDescending(a: seq<Key>, b: seq<Key>)
    requires Descending(a) && Descending(b)
    requires a != [] ==> forall k | k in Elements(b) :: k < a[|a| - 1]
    ensures Descending(a + b)
  {
    forall i, j | 0 <= i < j < |a + b|
      ensures (a + b)[i] > (a + b)[j]
    {
      if i < |a| <= j {
        assert b[j - |a|] in Elements(b) && a[i] >= a[|a| - 1];
      }
    }
  }

  /** No row twice, and always downwards, whatever happens to the table between requests. */
  lemma {:induction false} WalkDescends(snaps: seq<set<Key>>, cursor: Option<Key>, n: nat)
    ensures Descending(Walk(snaps, cursor, n))
    ensures forall k | k in Elements(Walk(snaps, cursor, n)) :: IsBelow(cursor, k)
  {
    if snaps != [] {
      var rows := Page(snaps[0], cursor, n);
      var rest := Walk(snaps[1..], After(cursor, rows), n);
      PageFacts(snaps[0], cursor, n);
      WalkDescends(snaps[1..], After(cursor, rows), n);
      JoinDescending(rows, rest);
      assert rows != [] ==> rows[|rows| - 1] in Elements(rows);
      assert Elements(rows + rest) == Elements(rows) + Elements(rest);
    }
  }

  /** Every row returned matched in some snapshot. */
  lemma {:induction false} WalkSound(snaps: seq<set<Key>>, cursor: Option<Key>, n: nat, k: Key)
    requires k in Walk(snaps, cursor, n)
    ensures exists i | 0 <= i < |snaps| :: k in snaps[i]
  {
    var rows := Page(snaps[0], cursor, n);
    PageFacts(snaps[0], cursor, n);
    if k in rows {
      assert k in Elements(rows);
    } else {
      WalkSound(snaps[1..], After(cursor, rows), n, k);
      var i :| 0 <= i < |snaps[1..]| && k in snaps[1..][i];
      assert k in snaps[i + 1];
    }
  }

  /** What is left of a listing after its first `n` rows. */
  lemma RestOfListing(keys: set<Key>, cursor: Option<Key>, n: nat)
    requires 0 < n <= |Sorted(Below(keys, cursor))|
    ensures var all := Sorted(Below(keys, cursor));
            all[n..] == Sorted(Below(keys, Some(all[n - 1])))
  {
    var all := Sorted(Below(keys, cursor));
    SortedFacts(Below(keys, cursor));
    assert all[n - 1] in Elements(all);
    DropElements(all, n);
    assert Elements(all[n..]) == Below(keys, Some(all[n - 1]));
    SortedFacts(Below(keys, Some(all[n - 1])));
    SortedUnique(all[n..], Sorted(Below(keys, Some(all[n - 1]))));
  }

  /** Splitting a page off the top of a sorted listing. */
  lemma PageSplits(keys: set<Key>, cursor: Option<Key>, n: nat)
    requires Page(keys, cursor, n) != []
    ensures var rows := Page(keys, cursor, n);
            Sorted(Below(keys, cursor)) == rows + Sorted(Below(keys, After(cursor, rows)))
  {
    var all := Sorted(Below(keys, cursor));
    var m := |Page(keys, cursor, n)|;
    RestOfListing(keys, cursor, m);
    assert all == all[..m] + all[m..];
  }

  /** A matching key below the cursor is on this page or still below the next cursor. */
  lemma PageCovers(keys: set<Key>, cursor: Option<Key>, n: nat, k: Key)
    requires k in keys && IsBelow(cursor, k)
    ensures var rows := Page(keys, cursor, n);
            && (k in rows || IsBelow(After(cursor, rows), k))
            && (|Below(keys, cursor)| <= n ==> k in rows)
  {
    var all := Sorted(Below(keys, cursor));
    var rows := Page(keys, cursor, n);
    SortedFacts(Below(keys, cursor));
    assert k in Elements(all);
    if rows != [] {
      DropElements(all, |rows|);
      assert all == rows + all[|rows|..];
      assert k in rows || k in Elements(all[|rows|..]);
    }
  }

  /** A row that matches throughout is returned. */
  lemma {:induction false} WalkComplete(snaps: seq<set<Key>>, cursor: Option<Key>, n: nat, k: Key)
    requires Exhausted(snaps, cursor, n)
    requires IsBelow(cursor, k) && forall i | 0 <= i < |snaps| :: k in snaps[i]
    ensures k in Walk(snaps, cursor, n)
  {
    PageCovers(snaps[0], cursor, n, k);
    var rows := Page(snaps[0], cursor, n);
    if |snaps| > 1 && k !in rows {
      WalkComplete(snaps[1..], After(cursor, rows), n, k);
    }
    assert Walk(snaps, cursor, n) == rows + Walk(snaps[1..], After(cursor, rows), n);
  }

  lemma LastPage(keys: set<Key>, cursor: Option<Key>, n: nat)
    requires |Below(keys, cursor)| <= n
    ensures Page(keys, cursor, n) == Sorted(Below(keys, cursor))
  {
    SortedFacts(Below(keys, cursor));
  }

  /** On a table that does not change, the pages add up to the whole sorted listing. */
  lemma {:induction false} StillWalk(snaps: seq<set<Key>>, keys: set<Key>, cursor: Option<Key>, n: nat)
    requires forall i | 0 <= i < |snaps| :: snaps[i] == keys
    requires Exhausted(snaps, cursor, n)
    ensures Walk(snaps, cursor, n) == Sorted(Below(keys, cursor))
  {
    var rows := Page(keys, cursor, n);
    var next := After(cursor, rows);
    assert snaps[0] == keys;
    assert Walk(snaps, cursor, n) == rows + Walk(snaps[1..], next, n);
    if |snaps| == 1 {
      LastPage(keys, cursor, n);
      assert Walk(snaps[1..], next, n) == [];
    } else {
      StillWalk(snaps[1..], keys, next, n);
      if rows == [] {
        assert Walk(snaps, cursor, n) == Walk(snaps[1..], next, n);
      } else {
        PageSplits(keys, cursor, n);
      }
    }
  }
}
