/**
 * Cleaning a student's raw preference list: keep only ids of projects that
 * exist, drop repeated ids, and keep the order in which ids first appear.
 */
module Preferences {

  /** The cleaned list, defined the way the cleaning loop builds it: one raw
      id at a time, appended when it is valid and not yet present. */
  function CleanPrefs(raw: seq<int>, valid: set<int>): (r: seq<int>)
    ensures |r| <= |raw|
    decreases |raw|
  {
    if raw == [] then []
    else
      var c := CleanPrefs(raw[..|raw| - 1], valid);
      var x := raw[|raw| - 1];
      if x in valid && x !in c then c + [x] else c
  }

  predicate NoDuplicates(s: seq<int>)
  {
    forall i, j :: 0 <= i < j < |s| ==> s[i] != s[j]
  }

  /** Position i of raw holds the first occurrence of its id. */
  predicate FirstOccurrence(raw: seq<int>, i: nat)
    requires i < |raw|
  {
    raw[i] !in raw[..i]
  }

  /** Reference definition: the positions of raw whose id is valid and
      occurs there for the first time, in increasing order. */
  ghost function KeptPositions(raw: seq<int>, valid: set<int>): seq<nat>
    decreases |raw|
  {
    if raw == [] then []
    else
      var n := |raw| - 1;
      KeptPositions(raw[..n], valid)
        + (if raw[n] in valid && FirstOccurrence(raw, n) then [n] else [])
  }

  /** The cleaning loop of the ingestion step. */
  method CleanPreferences(rawPrefs: seq<int>, validIds: set<int>) returns (cleanPrefs: seq<int>)
    ensures cleanPrefs == CleanPrefs(rawPrefs, validIds)
    ensures forall x :: x in cleanPrefs <==> x in rawPrefs && x in validIds
    ensures NoDuplicates(cleanPrefs)
  {
    cleanPrefs := [];
    var i := 0;
    while i < |rawPrefs|
      invariant 0 <= i <= |rawPrefs|
      invariant cleanPrefs == CleanPrefs(rawPrefs[..i], validIds)
    {
      var prefId := rawPrefs[i];
      assert rawPrefs[..i + 1][..i] == rawPrefs[..i];
      if prefId in validIds && prefId !in cleanPrefs {
        cleanPrefs := cleanPrefs + [prefId];
      }
      i := i + 1;
    }
    assert rawPrefs[..i] == rawPrefs;
    CleanMembership(rawPrefs, validIds);
    CleanNoDuplicates(rawPrefs, validIds);
  }

  /** Soundness and completeness: an id is in the cleaned list exactly when
      it is in the raw list and names a project that exists. */
  lemma {:induction false} CleanMembership(raw: seq<int>, valid: set<int>)
    ensures forall x :: x in CleanPrefs(raw, valid) <==> x in raw && x in valid
    decreases |raw|
  {
    if raw != [] {
      var n := |raw| - 1;
      CleanMembership(raw[..n], valid);
      assert raw == raw[..n] + [raw[n]];
    }
  }

  /** No id appears twice in the cleaned list. */
  lemma {:induction false} CleanNoDuplicates(raw: seq<int>, valid: set<int>)
    ensures NoDuplicates(CleanPrefs(raw, valid))
    decreases |raw|
  {
    if raw != [] {
      var n := |raw| - 1;
      CleanNoDuplicates(raw[..n], valid);
    }
  }

  /** The kept positions lie inside raw, increase, and are exactly the
      positions whose id is valid and occurs there for the first time. */
  lemma {:induction false} KeptPositionsAreFirstValidOccurrences(raw: seq<int>, valid: set<int>)
    ensures forall k :: 0 <= k < |KeptPositions(raw, valid)| ==> KeptPositions(raw, valid)[k] < |raw|
    ensures forall k, l :: 0 <= k < l < |KeptPositions(raw, valid)| ==>
              KeptPositions(raw, valid)[k] < KeptPositions(raw, valid)[l]
    ensures forall i :: 0 <= i < |raw| ==>
              (i in KeptPositions(raw, valid) <==> raw[i] in valid && FirstOccurrence(raw, i))
    decreases |raw|
  {
    if raw != [] {
      var n := |raw| - 1;
      var p := raw[..n];
      KeptPositionsAreFirstValidOccurrences(p, valid);
      forall i | 0 <= i < n
        ensures FirstOccurrence(raw, i) == FirstOccurrence(p, i)
      {
        assert raw[..i] == p[..i];
      }
    }
  }

  /** The cleaned list is raw read at the kept positions: together with
      KeptPositionsAreFirstValidOccurrences, the cleaned list is the
      order-preserving subsequence of the first occurrences of valid ids. */
  lemma {:induction false} CleanIsRawAtKeptPositions(raw: seq<int>, valid: set<int>)
    ensures |KeptPositions(raw, valid)| == |CleanPrefs(raw, valid)|
    ensures forall k :: 0 <= k < |KeptPositions(raw, valid)| ==>
              KeptPositions(raw, valid)[k] < |raw| &&
              CleanPrefs(raw, valid)[k] == raw[KeptPositions(raw, valid)[k]]
    decreases |raw|
  {
    if raw != [] {
      var n := |raw| - 1;
      var p := raw[..n];
      CleanIsRawAtKeptPositions(p, valid);
      CleanMembership(p, valid);
      var x := raw[n];
      assert x in CleanPrefs(p, valid) ==> x in p;
      assert x in p && x in valid ==> x in CleanPrefs(p, valid);
    }
  }

  /** A list that is already clean is left as it is. */
  lemma {:induction false} CleanKeepsCleanList(s: seq<int>, valid: set<int>)
    requires NoDuplicates(s)
    requires forall x :: x in s ==> x in valid
    ensures CleanPrefs(s, valid) == s
    decreases |s|
  {
    if s != [] {
      var n := |s| - 1;
      CleanKeepsCleanList(s[..n], valid);
      assert s[n] !in s[..n];
      assert s == s[..n] + [s[n]];
    }
  }

  /** Cleaning twice is the same as cleaning once. */
  lemma {:induction false} CleanIdempotent(raw: seq<int>, valid: set<int>)
    ensures CleanPrefs(CleanPrefs(raw, valid), valid) == CleanPrefs(raw, valid)
  {
    CleanMembership(raw, valid);
    CleanNoDuplicates(raw, valid);
    CleanKeepsCleanList(CleanPrefs(raw, valid), valid);
  }
}
