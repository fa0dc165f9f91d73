/**
 * The transaction log as a value: the three derived queries of the
 * transaction repository (by account, by type, by time range), ordering by
 * timestamp, and replaying an account's entries against its balance.
 */
module History {
  import opened Model

  /** The conditions the repository's derived queries filter on. */
  datatype Criterion =
    | OfAccount(accountId: int)
    | OfType(kind: TransactionType)
    | Between(start: int, end: int)

  predicate Matches(t: Transaction, c: Criterion) {
    match c
    case OfAccount(id) => t.accountId == id
    case OfType(k) => t.kind == k
    case Between(start, end) => start <= t.timestamp <= end
  }

  /** The entries of `s` that meet `c`, in the order they appear in `s`. */
  function Select(s: seq<Transaction>, c: Criterion): (r: seq<Transaction>)
    ensures |r| <= |s|
    ensures forall t :: t in r <==> t in s && Matches(t, c)
  {
    if s == [] then []
    else if Matches(s[0], c) then [s[0]] + Select(s[1..], c)
    else Select(s[1..], c)
  }

  /** The clock reading `now` is not earlier than any entry of `s`. */
  ghost predicate NotBefore(s: seq<Transaction>, now: int) {
    forall i :: 0 <= i < |s| ==> s[i].timestamp <= now
  }

  /** The entries at positions `i` and `j` of `s`, if both exist and `i` comes first, are in time order. */
  ghost predicate InOrder(s: seq<Transaction>, i: int, j: int) {
    0 <= i < j < |s| ==> s[i].timestamp <= s[j].timestamp
  }

  /** Entries appear in non-decreasing timestamp order. */
  ghost predicate Chronological(s: seq<Transaction>) {
    forall i, j {:trigger InOrder(s, i, j)} :: InOrder(s, i, j)
  }

  /** Entries appear in non-increasing timestamp order: newest first. */
  ghost predicate NewestFirst(s: seq<Transaction>) {
    forall i, j :: 0 <= i < j < |s| ==> s[i].timestamp >= s[j].timestamp
  }

  function Reverse(s: seq<Transaction>): (r: seq<Transaction>)
    ensures |r| == |s|
    ensures forall i :: 0 <= i < |s| ==> r[i] == s[|s| - 1 - i]
    ensures forall t :: t in r <==> t in s
  {
    if s == [] then [] else Reverse(s[1..]) + [s[0]]
  }

  /** Appending one entry to the log extends a selection by that entry exactly when it matches. */
  lemma {:induction false} SelectAppend(s: seq<Transaction>, t: Transaction, c: Criterion)
    ensures Select(s + [t], c) == Select(s, c) + (if Matches(t, c) then [t] else [])
  {
    if s == [] {
      assert s + [t] == [t];
    } else {
      assert (s + [t])[1..] == s[1..] + [t];
      SelectAppend(s[1..], t, c);
    }
  }

  /** Nothing is selected when no entry matches. */
  lemma {:induction false} SelectNone(s: seq<Transaction>, c: Criterion)
    requires forall i :: 0 <= i < |s| ==> !Matches(s[i], c)
    ensures Select(s, c) == []
  {
    if s != [] {
      SelectNone(s[1..], c);
    }
  }

  /** A selection from a chronological log is chronological. */
  lemma {:induction false} SelectChronological(s: seq<Transaction>, c: Criterion)
    requires Chronological(s)
    ensures Chronological(Select(s, c))
  {
    if s != [] {
      var tail := s[1..];
      forall i, j ensures InOrder(tail, i, j) {
        assert InOrder(s, i + 1, j + 1);
      }
      SelectChronological(tail, c);
      var rest := Select(tail, c);
      if Matches(s[0], c) {
        var r := [s[0]] + rest;
        forall i, j | 0 <= i < j < |r| ensures InOrder(r, i, j) {
          if i == 0 {
            assert r[j] in tail;
            var k :| 0 <= k < |tail| && tail[k] == r[j];
            assert InOrder(s, 0, k + 1);
          } else {
            assert InOrder(rest, i - 1, j - 1);
          }
        }
      }
    }
  }

  /** No entry appears twice in `s`. */
  ghost predicate NoRepeats(s: seq<Transaction>) {
    forall i, j :: 0 <= i < j < |s| ==> s[i] != s[j]
  }

  /** A selection from a log without repeated entries has none either. */
  lemma {:induction false} SelectNoRepeats(s: seq<Transaction>, c: Criterion)
    requires NoRepeats(s)
    ensures NoRepeats(Select(s, c))
  {
    if s != [] {
      var tail := s[1..];
      forall i, j | 0 <= i < j < |tail| ensures tail[i] != tail[j] {
        assert s[i + 1] != s[j + 1];
      }
      SelectNoRepeats(tail, c);
      if Matches(s[0], c) {
        forall k | 0 <= k < |tail| ensures tail[k] != s[0] {
          assert s[0] != s[k + 1];
        }
        var r := [s[0]] + Select(tail, c);
        forall i, j | 0 <= i < j < |r| ensures r[i] != r[j] {
          if i == 0 {
            assert r[j] in Select(tail, c);
          }
        }
      }
    }
  }

  /** Reversing a chronological log lists it newest first, without losing or adding an entry. */
  lemma {:induction false} ReverseNewestFirst(s: seq<Transaction>)
    requires Chronological(s)
    ensures NewestFirst(Reverse(s))
    ensures multiset(Reverse(s)) == multiset(s)
  {
    forall i, j | 0 <= i < j < |s| ensures Reverse(s)[i].timestamp >= Reverse(s)[j].timestamp {
      assert InOrder(s, |s| - 1 - j, |s| - 1 - i);
    }
    ReverseMultiset(s);
  }

  lemma {:induction false} ReverseMultiset(s: seq<Transaction>)
    ensures multiset(Reverse(s)) == multiset(s)
  {
    if s != [] {
      ReverseMultiset(s[1..]);
      assert s == [s[0]] + s[1..];
    }
  }

  /**
   * Replaying `txs` from the balance `start` reproduces each entry's
   * `balanceAfter` and ends at `final`.
   */
  ghost predicate Replays(start: int, txs: seq<Transaction>, final: int)
    decreases |txs|
  {
    if txs == [] then final == start
    else txs[0].balanceAfter == start + Effect(txs[0]) && Replays(txs[0].balanceAfter, txs[1..], final)
  }

  /** An entry whose snapshot is the replayed balance plus its effect extends the replay. */
  lemma {:induction false} ReplaysExtend(start: int, txs: seq<Transaction>, final: int, t: Transaction)
    requires Replays(start, txs, final)
    requires t.balanceAfter == final + Effect(t)
    ensures Replays(start, txs + [t], t.balanceAfter)
    decreases |txs|
  {
    if txs == [] {
      assert txs + [t] == [t];
      assert [t][1..] == [];
    } else {
      assert (txs + [t])[1..] == txs[1..] + [t];
      ReplaysExtend(txs[0].balanceAfter, txs[1..], final, t);
    }
  }
}
