/**
 * De-duplication of FEMA declaration summaries by disaster number. The feed
 * lists the newest amendment first, so the first record seen for each
 * disaster number is the one kept.
 */
module Dedup {
  import opened Wrappers
  import opened Seqs
  import opened Feeds

  /** The disaster numbers that occur in `s`. */
  ghost function Numbers(s: seq<Declaration>): set<int>
  {
    set d | d in s :: d.disasterNumber
  }

  /** The records of `s`, in order, whose number is neither in `seen` nor on an earlier record of `s`. */
  function Unseen(s: seq<Declaration>, seen: set<int>): (r: seq<Declaration>)
    ensures |r| <= |s|
    ensures forall d :: d in r ==> d in s && d.disasterNumber !in seen
    decreases |s|
  {
    if s == [] then []
    else if s[0].disasterNumber in seen then Unseen(s[1..], seen)
    else [s[0]] + Unseen(s[1..], seen + {s[0].disasterNumber})
  }

  /** The first record for each disaster number, in input order. */
  function FirstPerNumber(s: seq<Declaration>): (r: seq<Declaration>)
    ensures |r| <= |s|
    ensures forall d :: d in r ==> d in s
    ensures s != [] ==> r != [] && r[0] == s[0]
  {
    Unseen(s, {})
  }

  /** No two records of `s` share a disaster number. */
  ghost predicate DistinctNumbers(s: seq<Declaration>)
  {
    forall i, j :: 0 <= i < j < |s| ==> s[i].disasterNumber != s[j].disasterNumber
  }

  /** The first record of `s` carrying disaster number `n`, if any. */
  function FirstWith(s: seq<Declaration>, n: int): Option<Declaration>
    decreases |s|
  {
    if s == [] then None
    else if s[0].disasterNumber == n then Some(s[0])
    else FirstWith(s[1..], n)
  }

  /** Everything `Unseen` establishes, for any set of numbers already seen. */
  lemma {:induction false} UnseenProperties(s: seq<Declaration>, seen: set<int>)
    ensures IsSubseq(Unseen(s, seen), s)
    ensures DistinctNumbers(Unseen(s, seen))
    ensures Numbers(Unseen(s, seen)) == Numbers(s) - seen
    ensures forall k :: 0 <= k < |Unseen(s, seen)| ==>
              FirstWith(s, Unseen(s, seen)[k].disasterNumber) == Some(Unseen(s, seen)[k])
    decreases |s|
  {
    if s != [] {
      var n := s[0].disasterNumber;
      var r := Unseen(s, seen);
      assert Numbers(s) == {n} + Numbers(s[1..]) by {
        assert forall d :: d in s <==> d == s[0] || d in s[1..];
      }
      if n in seen {
        UnseenProperties(s[1..], seen);
        assert r == Unseen(s[1..], seen);
        forall k | 0 <= k < |r| ensures FirstWith(s, r[k].disasterNumber) == Some(r[k]) {
          assert r[k] in r;
          assert r[k].disasterNumber in Numbers(r);
        }
      } else {
        var seen' := seen + {n};
        var tail := Unseen(s[1..], seen');
        UnseenProperties(s[1..], seen');
        assert r == [s[0]] + tail;
        assert r[1..] == tail;
        forall i, j | 0 <= i < j < |r| ensures r[i].disasterNumber != r[j].disasterNumber {
          if i == 0 {
            assert r[j] == tail[j - 1];
            assert tail[j - 1] in tail;
            assert tail[j - 1].disasterNumber in Numbers(tail);
          } else {
            assert r[i] == tail[i - 1] && r[j] == tail[j - 1];
          }
        }
        assert Numbers(r) == {n} + Numbers(tail) by {
          assert forall d :: d in r <==> d == s[0] || d in tail;
        }
        forall k | 0 <= k < |r| ensures FirstWith(s, r[k].disasterNumber) == Some(r[k]) {
          if k > 0 {
            assert r[k] == tail[k - 1];
            assert tail[k - 1] in tail;
            assert tail[k - 1].disasterNumber in Numbers(tail);
          }
        }
      }
    }
  }

  /**
   * The de-duplicated feed is an order-preserving subsequence of the input,
   * holds each disaster number once, loses no disaster number, and keeps
   * for each number the first record that carries it.
   */
  lemma FirstPerNumberCorrect(s: seq<Declaration>)
    ensures IsSubseq(FirstPerNumber(s), s)
    ensures DistinctNumbers(FirstPerNumber(s))
    ensures Numbers(FirstPerNumber(s)) == Numbers(s)
    ensures forall d :: d in FirstPerNumber(s) ==> FirstWith(s, d.disasterNumber) == Some(d)
  {
    UnseenProperties(s, {});
    var r := FirstPerNumber(s);
    forall d | d in r ensures FirstWith(s, d.disasterNumber) == Some(d) {
      var k :| 0 <= k < |r| && r[k] == d;
    }
  }

  /** Two records that share a disaster number: exactly the earlier one survives. */
  lemma {:induction false} EarlierDuplicateWins(s: seq<Declaration>, i: int, j: int)
    requires 0 <= i < j < |s|
    requires s[i].disasterNumber == s[j].disasterNumber
    requires forall k :: 0 <= k < i ==> s[k].disasterNumber != s[i].disasterNumber
    ensures s[i] in FirstPerNumber(s)
    ensures s[j] != s[i] ==> s[j] !in FirstPerNumber(s)
  {
    var n := s[i].disasterNumber;
    FirstPerNumberCorrect(s);
    FirstWithAt(s, i);
    assert n in Numbers(s) by { assert s[i] in s; }
    var d :| d in FirstPerNumber(s) && d.disasterNumber == n;
    assert d == s[i];
  }

  /** `FirstWith` finds the record at the first position carrying its number. */
  lemma {:induction false} FirstWithAt(s: seq<Declaration>, i: int)
    requires 0 <= i < |s|
    requires forall k :: 0 <= k < i ==> s[k].disasterNumber != s[i].disasterNumber
    ensures FirstWith(s, s[i].disasterNumber) == Some(s[i])
    decreases |s|
  {
    if i > 0 {
      assert s[1..][i - 1] == s[i];
      FirstWithAt(s[1..], i - 1);
    }
  }

  /**
   * The filter inside `fetchFema`: walk the feed once, remembering the disaster
   * numbers seen so far, and keep a record only when its number is new.
   */
  method DedupByDisasterNumber(all: seq<Declaration>) returns (kept: seq<Declaration>)
    ensures kept == FirstPerNumber(all)
    ensures DistinctNumbers(kept) && Numbers(kept) == Numbers(all)
  {
    var seen: set<int> := {};
    kept := [];
    for i := 0 to |all|
      invariant kept + Unseen(all[i..], seen) == FirstPerNumber(all)
    {
      var d := all[i];
      assert all[i..][1..] == all[i + 1..];
      assert Unseen(all[i..], seen) == if d.disasterNumber in seen then Unseen(all[i + 1..], seen)
                                       else [d] + Unseen(all[i + 1..], seen + {d.disasterNumber});
      if d.disasterNumber !in seen {
        seen := seen + {d.disasterNumber};
        kept := kept + [d];
      }
    }
    FirstPerNumberCorrect(all);
  }
}
