/**
 * `applyTextEdits`: sorted, non-overlapping byte splices over the previous deployment text.
 *
 * A replacement text is given already encoded, so a text edit works on bytes throughout.
 */
module TextEdits {
  import opened Wrappers

  type Byte = b: int | 0 <= b < 256
  type Bytes = seq<Byte>

  datatype TextEdit = TextEdit(start: int, end: int, newText: Bytes)

  datatype EditError = OutOfBounds | Overlap

  /** The comparator of the sort: by start offset, then by end offset. */
  predicate KeyLe(a: TextEdit, b: TextEdit) {
    a.start < b.start || (a.start == b.start && a.end <= b.end)
  }

  predicate SameKey(a: TextEdit, b: TextEdit) {
    a.start == b.start && a.end == b.end
  }

  ghost predicate Sorted(s: seq<TextEdit>) {
    forall i, j :: 0 <= i < j < |s| ==> KeyLe(s[i], s[j])
  }

  /** Put `e` behind every element of `s` that does not sort after it. */
  function Insert(s: seq<TextEdit>, e: TextEdit): seq<TextEdit> {
    if s == [] || KeyLe(s[|s| - 1], e) then s + [e]
    else Insert(s[..|s| - 1], e) + [s[|s| - 1]]
  }

  /** The language's own sort, which is stable. */
  function StableSort(s: seq<TextEdit>): seq<TextEdit> {
    if s == [] then [] else Insert(StableSort(s[..|s| - 1]), s[|s| - 1])
  }

  /** Replace the bytes of one span. */
  function Splice(before: Bytes, e: TextEdit): Bytes
    requires 0 <= e.start <= e.end <= |before|
  {
    before[..e.start] + e.newText + before[e.end..]
  }

  predicate InBounds(n: nat, e: TextEdit) {
    0 <= e.start <= e.end <= n
  }

  /** Neither span starts strictly inside, or strictly before the end of, the other. */
  predicate Disjoint(a: TextEdit, b: TextEdit) {
    a.end <= b.start || b.end <= a.start
  }

  /** The edit lists a caller may send, whatever their order. */
  ghost predicate Acceptable(n: nat, edits: seq<TextEdit>) {
    && (forall i :: 0 <= i < |edits| ==> InBounds(n, edits[i]))
    && (forall i, j :: 0 <= i < j < |edits| ==> Disjoint(edits[i], edits[j]))
  }

  /** Where the walk over the sorted spans has got to. */
  function LastEnd(s: seq<TextEdit>): int {
    if s == [] then 0 else s[|s| - 1].end
  }

  predicate InOrder(n: nat, s: seq<TextEdit>)
    ensures InOrder(n, s) ==> 0 <= LastEnd(s) <= n
  {
    s == []
    || (var e, init := s[|s| - 1], s[..|s| - 1];
        InOrder(n, init) && InBounds(n, e) && LastEnd(init) <= e.start)
  }

  /** The first error met when the sorted spans are walked from left to right. */
  function FirstError(n: nat, s: seq<TextEdit>): (r: Option<EditError>)
    ensures r == None <==> InOrder(n, s)
  {
    if s == [] then None
    else
      var e, init := s[|s| - 1], s[..|s| - 1];
      var earlier := FirstError(n, init);
      if earlier.Some? then earlier
      else if !InBounds(n, e) then Some(OutOfBounds)
      else if e.start < LastEnd(init) then Some(Overlap)
      else None
  }

  /** Splice one edit at a time, the rightmost first, so no offset ever moves. */
  function SpliceRightToLeft(before: Bytes, s: seq<TextEdit>): Bytes
    requires InOrder(|before|, s)
    decreases |s|
  {
    if s == [] then before
    else
      var e, init := s[|s| - 1], s[..|s| - 1];
      InOrderResized(|before|, |Splice(before, e)|, init);
      SpliceRightToLeft(Splice(before, e), init)
  }

  /** What `applyTextEdits` answers: an error, or the spliced bytes. */
  function Outcome(before: Bytes, edits: seq<TextEdit>): Result<Bytes, EditError> {
    var s := StableSort(edits);
    match FirstError(|before|, s)
    case Some(e) => Failure(e)
    case None => Success(SpliceRightToLeft(before, s))
  }

  /** Spans in order stay so when the text beyond the last of them is resized. */
  lemma {:induction false} InOrderResized(n: nat, m: nat, s: seq<TextEdit>)
    requires InOrder(n, s) && LastEnd(s) <= m
    ensures InOrder(m, s)
  {
    if s != [] { InOrderResized(n, m, s[..|s| - 1]); }
  }

  lemma {:induction false} EndsGrow(n: nat, s: seq<TextEdit>)
    requires InOrder(n, s)
    ensures forall i :: 0 <= i < |s| ==> s[i].end <= LastEnd(s)
  {
    if s != [] { EndsGrow(n, s[..|s| - 1]); }
  }

  // ---------------------------------------------------------------- the sort

  lemma {:induction false} InsertPermutes(s: seq<TextEdit>, e: TextEdit)
    ensures multiset(Insert(s, e)) == multiset(s) + multiset{e}
  {
    hide KeyLe;
    if !(s == [] || KeyLe(s[|s| - 1], e)) {
      var init := s[..|s| - 1];
      InsertPermutes(init, e);
      assert s == init + [s[|s| - 1]];
    }
  }

  lemma SortedBefore(s: seq<TextEdit>, z: TextEdit)
    requires Sorted(s) && forall x <- s :: KeyLe(x, z)
    ensures Sorted(s + [z])
  {
  }

  lemma {:induction false} InsertSorts(s: seq<TextEdit>, e: TextEdit)
    requires Sorted(s)
    ensures Sorted(Insert(s, e)) && multiset(Insert(s, e)) == multiset(s) + multiset{e}
  {
    InsertPermutes(s, e);
    if s == [] {
    } else if KeyLe(s[|s| - 1], e) {
      forall x <- s ensures KeyLe(x, e) { BelowLast(s, x); }
      SortedBefore(s, e);
    } else {
      var init, z := s[..|s| - 1], s[|s| - 1];
      InsertSorts(init, e);
      forall x <- Insert(init, e) ensures KeyLe(x, z) {
        assert x in multiset(Insert(init, e));
        if x != e {
          assert x in init;
          BelowLast(s, x);
        }
      }
      SortedBefore(Insert(init, e), z);
    }
  }

  lemma BelowLast(s: seq<TextEdit>, x: TextEdit)
    requires Sorted(s) && x in s
    ensures KeyLe(x, s[|s| - 1])
  {
    var i :| 0 <= i < |s| && s[i] == x;
    if i < |s| - 1 { assert KeyLe(s[i], s[|s| - 1]); }
  }

  lemma {:induction false} SortSorts(s: seq<TextEdit>)
    ensures Sorted(StableSort(s)) && multiset(StableSort(s)) == multiset(s)
  {
    if s != [] {
      SortSorts(s[..|s| - 1]);
      InsertSorts(StableSort(s[..|s| - 1]), s[|s| - 1]);
      assert s == s[..|s| - 1] + [s[|s| - 1]];
    }
  }

  /** The edits of `s` with the span of `k`, in the order of `s`. */
  function WithKey(s: seq<TextEdit>, k: TextEdit): seq<TextEdit> {
    if s == [] then []
    else WithKey(s[..|s| - 1], k) + if SameKey(s[|s| - 1], k) then [s[|s| - 1]] else []
  }

  lemma {:induction false} WithKeyAppend(s: seq<TextEdit>, e: TextEdit, k: TextEdit)
    ensures WithKey(s + [e], k) == WithKey(s, k) + if SameKey(e, k) then [e] else []
  {
    assert (s + [e])[..|s|] == s;
  }

  /** Two edits of different spans may change places. */
  lemma WithKeySwap(s: seq<TextEdit>, e: TextEdit, z: TextEdit, k: TextEdit)
    requires !SameKey(e, z)
    ensures WithKey(s + [e] + [z], k) == WithKey(s + [z] + [e], k)
  {
    hide WithKey;
    WithKeyAppend(s, e, k);
    WithKeyAppend(s + [e], z, k);
    WithKeyAppend(s, z, k);
    WithKeyAppend(s + [z], e, k);
  }

  lemma {:induction false} InsertKeepsOrder(s: seq<TextEdit>, e: TextEdit, k: TextEdit)
    ensures WithKey(Insert(s, e), k) == WithKey(s + [e], k)
  {
    hide WithKey;
    if !(s == [] || KeyLe(s[|s| - 1], e)) {
      var init, z := s[..|s| - 1], s[|s| - 1];
      InsertKeepsOrder(init, e, k);
      WithKeyAppend(Insert(init, e), z, k);
      WithKeyAppend(init + [e], z, k);
      WithKeySwap(init, e, z, k);
      assert s == init + [z];
    }
  }

  /** The sort never swaps two edits of one span. */
  lemma {:induction false} SortIsStable(s: seq<TextEdit>, k: TextEdit)
    ensures WithKey(StableSort(s), k) == WithKey(s, k)
  {
    if s != [] {
      var init := s[..|s| - 1];
      SortIsStable(init, k);
      SortSorts(init);
      InsertKeepsOrder(StableSort(init), s[|s| - 1], k);
      WithKeyAppend(StableSort(init), s[|s| - 1], k);
    }
  }

  // ---------------------------------------------------------- what is accepted

  lemma {:induction false} InOrderMeansDisjoint(n: nat, s: seq<TextEdit>)
    requires Sorted(s)
    ensures InOrder(n, s) <==> Acceptable(n, s)
  {
    if s != [] {
      var e, init := s[|s| - 1], s[..|s| - 1];
      InOrderMeansDisjoint(n, init);
      if InOrder(n, init) && InBounds(n, e) {
        EndsGrow(n, init);
        if init != [] {
          assert KeyLe(s[|s| - 2], e) && InBounds(n, init[|init| - 1]);
          assert Disjoint(s[|s| - 2], e) <==> LastEnd(init) <= e.start;
        }
      }
    }
  }

  lemma {:induction false} AcceptableIsOrderFree(n: nat, s: seq<TextEdit>, t: seq<TextEdit>)
    requires multiset(s) == multiset(t) && Acceptable(n, s)
    ensures Acceptable(n, t)
  {
    forall i | 0 <= i < |t| ensures InBounds(n, t[i]) {
      assert t[i] in multiset(t);
      assert t[i] in s;
    }
    forall i, j | 0 <= i < j < |t| ensures Disjoint(t[i], t[j]) {
      if t[i] == t[j] {
        Twice(t, i, j);
        var p, q := TwoPlaces(s, t[i]);
        assert Disjoint(s[p], s[q]);
      } else {
        assert t[i] in multiset(t) && t[j] in multiset(t);
        var p :| 0 <= p < |s| && s[p] == t[i];
        var q :| 0 <= q < |s| && s[q] == t[j];
        assert p < q ==> Disjoint(s[p], s[q]);
        assert q < p ==> Disjoint(s[q], s[p]);
      }
    }
  }

  lemma Twice(t: seq<TextEdit>, i: nat, j: nat)
    requires i < j < |t| && t[i] == t[j]
    ensures multiset(t)[t[i]] >= 2
  {
    assert t == t[..j] + t[j..];
    assert multiset(t) == multiset(t[..j]) + multiset(t[j..]);
    assert t[..j][i] == t[i] && t[j..][0] == t[i];
  }

  lemma {:induction false} TwoPlaces(s: seq<TextEdit>, e: TextEdit) returns (p: nat, q: nat)
    requires multiset(s)[e] >= 2
    ensures p < q < |s| && s[p] == e && s[q] == e
  {
    assert e in multiset(s);
    q :| 0 <= q < |s| && s[q] == e;
    assert s == s[..q] + [e] + s[q + 1..];
    assert multiset(s) == multiset(s[..q]) + multiset{e} + multiset(s[q + 1..]);
    if e in s[..q] {
      p :| 0 <= p < q && s[..q][p] == e;
    } else {
      assert e in multiset(s[q + 1..]);
      var r :| 0 <= r < |s[q + 1..]| && s[q + 1..][r] == e;
      p, q := q, q + 1 + r;
    }
  }

  /** An edit list is accepted exactly when its spans are in bounds and pairwise disjoint. */
  lemma {:induction false} AcceptsExactlyDisjointSpans(before: Bytes, edits: seq<TextEdit>)
    ensures Outcome(before, edits).Success? <==> Acceptable(|before|, edits)
  {
    var s := StableSort(edits);
    SortSorts(edits);
    InOrderMeansDisjoint(|before|, s);
    if Acceptable(|before|, edits) { AcceptableIsOrderFree(|before|, edits, s); }
    if Acceptable(|before|, s) { AcceptableIsOrderFree(|before|, s, edits); }
  }

  /** The error is true of the sorted edits: one out of bounds, or two in bounds that overlap. */
  lemma {:induction false} FirstErrorIsTrue(n: nat, s: seq<TextEdit>)
    requires Sorted(s)
    ensures FirstError(n, s) == Some(OutOfBounds) ==> exists e <- s :: !InBounds(n, e)
    ensures FirstError(n, s) == Some(Overlap) ==>
      exists i, j :: 0 <= i < j < |s| && InBounds(n, s[i]) && InBounds(n, s[j]) && !Disjoint(s[i], s[j])
  {
    if s != [] {
      var e, init := s[|s| - 1], s[..|s| - 1];
      FirstErrorIsTrue(n, init);
      var earlier := FirstError(n, init);
      if earlier.Some? && earlier.value.OutOfBounds? {
        var x :| x in init && !InBounds(n, x);
        assert x in s;
      } else if earlier.Some? {
        var i, j :| 0 <= i < j < |init| && InBounds(n, init[i]) && InBounds(n, init[j]) && !Disjoint(init[i], init[j]);
        assert s[i] == init[i] && s[j] == init[j];
      } else if !InBounds(n, e) {
        assert e in s;
      } else if init != [] && e.start < LastEnd(init) {
        assert KeyLe(s[|s| - 2], s[|s| - 1]) && InOrder(n, init);
        assert InBounds(n, s[|s| - 2]) && !Disjoint(s[|s| - 2], e);
      }
    }
  }

  /** What is answered for edits that are not accepted is true of them. */
  lemma RefusalIsTrue(before: Bytes, edits: seq<TextEdit>)
    ensures Outcome(before, edits) == Failure(OutOfBounds) ==> exists e <- edits :: !InBounds(|before|, e)
    ensures Outcome(before, edits) == Failure(Overlap) ==>
      exists a <- edits, b <- edits :: InBounds(|before|, a) && InBounds(|before|, b) && !Disjoint(a, b)
  {
    hide FirstError, InOrder;
    var s := StableSort(edits);
    SortSorts(edits);
    FirstErrorIsTrue(|before|, s);
    forall e | e in s ensures e in edits { assert e in multiset(s) && e in multiset(edits); }
    if Outcome(before, edits) == Failure(OutOfBounds) {
      var e :| e in s && !InBounds(|before|, e);
      assert e in edits;
    }
    if Outcome(before, edits) == Failure(Overlap) {
      var i, j :| 0 <= i < j < |s| && InBounds(|before|, s[i]) && InBounds(|before|, s[j]) && !Disjoint(s[i], s[j]);
      assert s[i] in edits && s[j] in edits;
    }
  }

  // ------------------------------------------------------------------ length

  function Removed(edits: seq<TextEdit>): int {
    if edits == [] then 0
    else Removed(edits[..|edits| - 1]) + edits[|edits| - 1].end - edits[|edits| - 1].start
  }

  function Added(edits: seq<TextEdit>): nat {
    if edits == [] then 0 else Added(edits[..|edits| - 1]) + |edits[|edits| - 1].newText|
  }

  lemma {:induction false} InsertKeepsSums(s: seq<TextEdit>, e: TextEdit)
    ensures Removed(Insert(s, e)) == Removed(s) + e.end - e.start
    ensures Added(Insert(s, e)) == Added(s) + |e.newText|
  {
    if s == [] || KeyLe(s[|s| - 1], e) {
      assert (s + [e])[..|s|] == s;
    } else {
      InsertKeepsSums(s[..|s| - 1], e);
      var r := Insert(s[..|s| - 1], e);
      assert (r + [s[|s| - 1]])[..|r|] == r;
    }
  }

  lemma {:induction false} SortKeepsSums(s: seq<TextEdit>)
    ensures Removed(StableSort(s)) == Removed(s) && Added(StableSort(s)) == Added(s)
  {
    if s != [] {
      SortKeepsSums(s[..|s| - 1]);
      InsertKeepsSums(StableSort(s[..|s| - 1]), s[|s| - 1]);
    }
  }

  lemma {:induction false} SpliceLength(before: Bytes, s: seq<TextEdit>)
    requires InOrder(|before|, s)
    ensures |SpliceRightToLeft(before, s)| == |before| - Removed(s) + Added(s)
    decreases |s|
  {
    if s != [] {
      var e := s[|s| - 1];
      InOrderResized(|before|, |Splice(before, e)|, s[..|s| - 1]);
      SpliceLength(Splice(before, e), s[..|s| - 1]);
    }
  }

  /** Every replaced span leaves the text and every new text enters it, once. */
  lemma LengthLaw(before: Bytes, edits: seq<TextEdit>)
    requires Outcome(before, edits).Success?
    ensures |Outcome(before, edits).value| == |before| - Removed(edits) + Added(edits)
  {
    SpliceLength(before, StableSort(edits));
    SortKeepsSums(edits);
  }

  // ------------------------------------------------------------ permutations

  /** The same edits in another order, the insertions at one point keeping theirs. */
  ghost predicate SameUpToReordering(s: seq<TextEdit>, t: seq<TextEdit>) {
    && multiset(s) == multiset(t)
    && forall k: TextEdit :: k.start == k.end ==> Agree(s, t, k)
  }

  ghost predicate Agree(s: seq<TextEdit>, t: seq<TextEdit>, k: TextEdit) {
    WithKey(s, k) == WithKey(t, k)
  }

  ghost predicate CountsAgree(s: seq<TextEdit>, t: seq<TextEdit>, k: TextEdit) {
    |WithKey(s, k)| == |WithKey(t, k)|
  }

  lemma {:induction false} WithKeyCounts(s: seq<TextEdit>, k: TextEdit, e: TextEdit)
    ensures multiset(WithKey(s, k))[e] == if SameKey(e, k) then multiset(s)[e] else 0
  {
    if s != [] {
      WithKeyCounts(s[..|s| - 1], k, e);
      assert s == s[..|s| - 1] + [s[|s| - 1]];
    }
  }

  /** The last spans of two sorted lists with the same spans agree: the greater would occur in one list only. */
  lemma LastSpansAgree(s: seq<TextEdit>, t: seq<TextEdit>)
    requires Sorted(s) && Sorted(t) && |s| == |t| && s != []
    requires forall k: TextEdit :: CountsAgree(s, t, k)
    ensures SameKey(s[|s| - 1], t[|t| - 1])
  {
    var a, b := s[|s| - 1], t[|t| - 1];
    if !SameKey(a, b) {
      if KeyLe(a, b) { assert CountsAgree(s, t, b); Absent(s, b); }
      else { assert CountsAgree(s, t, a); Absent(t, a); }
    }
  }

  /** Sorted lists of the same edits carry the same spans at every place. */
  lemma {:induction false} SortedSpansAgree(s: seq<TextEdit>, t: seq<TextEdit>)
    requires Sorted(s) && Sorted(t) && |s| == |t|
    requires forall k: TextEdit :: CountsAgree(s, t, k)
    ensures forall i :: 0 <= i < |s| ==> SameKey(s[i], t[i])
  {
    if s != [] {
      LastSpansAgree(s, t);
      var s0, t0 := s[..|s| - 1], t[..|t| - 1];
      forall k: TextEdit ensures CountsAgree(s0, t0, k) {
        assert CountsAgree(s, t, k);
      }
      SortedSpansAgree(s0, t0);
      forall i | 0 <= i < |s| ensures SameKey(s[i], t[i]) {
        if i < |s| - 1 { assert s[i] == s0[i] && t[i] == t0[i]; }
      }
    }
  }

  lemma {:induction false} Absent(s: seq<TextEdit>, k: TextEdit)
    requires Sorted(s)
    requires s != [] ==> KeyLe(s[|s| - 1], k) && !SameKey(s[|s| - 1], k)
    ensures WithKey(s, k) == []
  {
    if |s| > 1 {
      assert KeyLe(s[|s| - 2], s[|s| - 1]);
      Absent(s[..|s| - 1], k);
    }
  }

  /** Lists with the same spans that agree, span by span, on the edits of that span are equal. */
  lemma {:induction false} SameSpansSameOrder(s: seq<TextEdit>, t: seq<TextEdit>)
    requires |s| == |t| && forall i :: 0 <= i < |s| ==> SameKey(s[i], t[i])
    requires forall k: TextEdit :: Agree(s, t, k)
    ensures s == t
  {
    if s != [] {
      var a, b := s[|s| - 1], t[|t| - 1];
      var s0, t0 := s[..|s| - 1], t[..|t| - 1];
      assert SameKey(a, b);
      assert Agree(s, t, a);
      assert a == WithKey(s, a)[|WithKey(s, a)| - 1] == WithKey(t, a)[|WithKey(t, a)| - 1] == b;
      forall k: TextEdit ensures Agree(s0, t0, k) {
        assert Agree(s, t, k);
        if SameKey(a, k) {
          assert WithKey(s0, k) == WithKey(s, k)[..|WithKey(s, k)| - 1];
          assert WithKey(t0, k) == WithKey(t, k)[..|WithKey(t, k)| - 1];
        } else {
          assert WithKey(s0, k) == WithKey(s, k) && WithKey(t0, k) == WithKey(t, k);
        }
      }
      SameSpansSameOrder(s0, t0);
      assert s == s0 + [a] && t == t0 + [b];
    }
  }

  lemma {:induction false} ErrorDependsOnSpans(n: nat, s: seq<TextEdit>, t: seq<TextEdit>)
    requires |s| == |t| && forall i :: 0 <= i < |s| ==> SameKey(s[i], t[i])
    ensures FirstError(n, s) == FirstError(n, t)
  {
    if s != [] { ErrorDependsOnSpans(n, s[..|s| - 1], t[..|t| - 1]); }
  }

  lemma {:induction false} KeyCountsAgree(s: seq<TextEdit>, t: seq<TextEdit>, k: TextEdit)
    requires multiset(s) == multiset(t)
    ensures multiset(WithKey(s, k)) == multiset(WithKey(t, k)) && |WithKey(s, k)| == |WithKey(t, k)|
  {
    forall e: TextEdit ensures multiset(WithKey(s, k))[e] == multiset(WithKey(t, k))[e] {
      WithKeyCounts(s, k, e);
      WithKeyCounts(t, k, e);
    }
    assert |multiset(WithKey(s, k))| == |WithKey(s, k)|;
  }

  /** In an acceptable list a span that removes bytes occurs at most once. */
  lemma {:induction false} RemovingSpansAreUnique(n: nat, s: seq<TextEdit>, k: TextEdit)
    requires Acceptable(n, s) && k.start != k.end
    ensures |WithKey(s, k)| <= 1
    ensures WithKey(s, k) != [] ==> exists i :: 0 <= i < |s| && SameKey(s[i], k)
  {
    if s != [] {
      RemovingSpansAreUnique(n, s[..|s| - 1], k);
      if SameKey(s[|s| - 1], k) {
        forall i | 0 <= i < |s| - 1 ensures !SameKey(s[i], k) {
          assert Disjoint(s[i], s[|s| - 1]) && InBounds(n, s[i]);
        }
      }
      if WithKey(s, k) != [] && !SameKey(s[|s| - 1], k) {
        var i :| 0 <= i < |s| - 1 && SameKey(s[..|s| - 1][i], k);
        assert SameKey(s[i], k);
      }
    }
  }

  lemma ReorderedEditsAgree(n: nat, s: seq<TextEdit>, t: seq<TextEdit>, k: TextEdit)
    requires SameUpToReordering(s, t) && Acceptable(n, s)
    ensures Agree(StableSort(s), StableSort(t), k)
  {
    hide StableSort, Acceptable;
    SortIsStable(s, k);
    SortIsStable(t, k);
    if k.start == k.end {
      assert Agree(s, t, k);
    } else {
      RemovingSpansAreUnique(n, s, k);
      KeyCountsAgree(s, t, k);
      SameSingles(WithKey(s, k), WithKey(t, k));
    }
  }

  lemma SameSingles(a: seq<TextEdit>, b: seq<TextEdit>)
    requires |a| <= 1 && |a| == |b| && multiset(a) == multiset(b)
    ensures a == b
  {
    if a != [] {
      assert a == [a[0]] && b == [b[0]];
      assert a[0] in multiset(b);
    }
  }

  /**
   * The answer, error included, does not depend on the order of the list, only on the order
   * of insertions at one and the same point.
   */
  lemma {:induction false} OrderOnlyMattersForInsertions(before: Bytes, s: seq<TextEdit>, t: seq<TextEdit>)
    requires SameUpToReordering(s, t)
    ensures Outcome(before, s) == Outcome(before, t)
  {
    var a, b := StableSort(s), StableSort(t);
    SortSorts(s);
    SortSorts(t);
    assert |a| == |multiset(a)| == |multiset(b)| == |b|;
    forall k: TextEdit ensures CountsAgree(a, b, k) {
      KeyCountsAgree(a, b, k);
    }
    SortedSpansAgree(a, b);
    ErrorDependsOnSpans(|before|, a, b);
    AcceptsExactlyDisjointSpans(before, s);
    if Acceptable(|before|, s) {
      forall k: TextEdit ensures Agree(a, b, k) {
        ReorderedEditsAgree(|before|, s, t, k);
      }
      SameSpansSameOrder(a, b);
    }
  }

  // -------------------------------------------------------------- the method

  function Flatten(pieces: seq<Bytes>): Bytes {
    if pieces == [] then [] else Flatten(pieces[..|pieces| - 1]) + pieces[|pieces| - 1]
  }

  lemma FlattenAppend(pieces: seq<Bytes>, p: Bytes)
    ensures Flatten(pieces + [p]) == Flatten(pieces) + p
  {
    assert (pieces + [p])[..|pieces|] == pieces;
  }

  lemma NothingFlat(pieces: seq<Bytes>)
    requires pieces == []
    ensures Flatten(pieces) == []
  {
  }

  /** Copy one piece into the buffer behind what is there. */
  method SetPiece(buffer: array<Byte>, offset: nat, piece: Bytes)
    requires offset + |piece| <= buffer.Length
    modifies buffer
    ensures buffer[..offset + |piece|] == old(buffer[..offset]) + piece
  {
    forall j | 0 <= j < |piece| { buffer[offset + j] := piece[j]; }
  }

  /** Copy the pieces one behind the other into one buffer. */
  method Assemble(pieces: seq<Bytes>, total: nat) returns (result: Bytes)
    requires total == |Flatten(pieces)|
    ensures result == Flatten(pieces)
  {
    hide Flatten;
    var buffer := new Byte[total](_ => 0);
    var offset := 0;
    NothingFlat(pieces[..0]);
    for i := 0 to |pieces|
      invariant offset == |Flatten(pieces[..i])| <= total
      invariant buffer[..offset] == Flatten(pieces[..i])
    {
      var piece := pieces[i];
      assert pieces[..i + 1] == pieces[..i] + [piece];
      FlattenAppend(pieces[..i], piece);
      PrefixLength(pieces, i + 1);
      SetPiece(buffer, offset, piece);
      offset := offset + |piece|;
    }
    assert pieces[..|pieces|] == pieces;
    result := buffer[..];
    assert result == buffer[..offset];
  }

  lemma {:induction false} PrefixLength(pieces: seq<Bytes>, i: nat)
    requires i <= |pieces|
    ensures |Flatten(pieces[..i])| <= |Flatten(pieces)|
  {
    if i == |pieces| {
      assert pieces[..i] == pieces;
    } else {
      PrefixLength(pieces[..|pieces| - 1], i);
      assert pieces[..|pieces| - 1][..i] == pieces[..i];
    }
  }

  /** The result so far: everything up to the end of the last edit. */
  function Front(before: Bytes, s: seq<TextEdit>): Bytes
    requires InOrder(|before|, s)
  {
    if s == [] then []
    else
      var e, init := s[|s| - 1], s[..|s| - 1];
      Front(before, init) + before[LastEnd(init)..e.start] + e.newText
  }

  lemma SplicedLast(before: Bytes, last: nat, e: TextEdit, tail: Bytes)
    requires last <= e.start <= e.end <= |before|
    ensures Splice(before[..e.end] + tail, e) == before[..last] + (before[last..e.start] + e.newText + tail)
  {
    var after := before[..e.end] + tail;
    assert after[e.end..] == tail;
    assert after[..e.start] == before[..e.start] == before[..last] + before[last..e.start];
  }

  lemma Regroup(a: Bytes, b: Bytes, c: Bytes, d: Bytes)
    ensures a + (b + c + d) == a + b + c + d
  {
  }

  /** Walking left to right and splicing right to left build the same text. */
  lemma {:induction false} FrontAndRest(before: Bytes, s: seq<TextEdit>, tail: Bytes)
    requires InOrder(|before|, s) && InOrder(|before[..LastEnd(s)] + tail|, s)
    ensures SpliceRightToLeft(before[..LastEnd(s)] + tail, s) == Front(before, s) + tail
  {
    if s != [] {
      var e, init := s[|s| - 1], s[..|s| - 1];
      var after, last := before[..LastEnd(s)] + tail, LastEnd(init);
      var tail' := before[last..e.start] + e.newText + tail;
      SplicedLast(before, last, e, tail);
      InOrderResized(|after|, |Splice(after, e)|, init);
      FrontAndRest(before, init, tail');
      Regroup(Front(before, init), before[last..e.start], e.newText, tail);
    } else {
      assert before[..0] + tail == tail;
    }
  }

  /** The text kept since the last edit, when there is any, and the edit's own text. */
  method PushEdit(before: Bytes, pieces: seq<Bytes>, last: nat, edit: TextEdit) returns (grown: seq<Bytes>, added: nat)
    requires last <= edit.start <= |before|
    ensures Flatten(grown) == Flatten(pieces) + before[last..edit.start] + edit.newText
    ensures added == |before[last..edit.start]| + |edit.newText|
  {
    hide Flatten;
    grown, added := pieces, 0;
    if edit.start > last {
      FlattenAppend(grown, before[last..edit.start]);
      grown := grown + [before[last..edit.start]];
      added := edit.start - last;
    } else {
      assert Flatten(grown) + before[last..edit.start] == Flatten(grown);
    }
    FlattenAppend(grown, edit.newText);
    grown := grown + [edit.newText];
    added := added + |edit.newText|;
  }

  /** The text kept behind the last edit. */
  method PushTail(before: Bytes, pieces: seq<Bytes>, last: nat) returns (grown: seq<Bytes>, added: nat)
    requires last <= |before|
    ensures Flatten(grown) == Flatten(pieces) + before[last..] && added == |before[last..]|
  {
    hide Flatten;
    grown, added := pieces, 0;
    if last < |before| {
      FlattenAppend(grown, before[last..]);
      grown := grown + [before[last..]];
      added := |before| - last;
    } else {
      assert Flatten(grown) + before[last..] == Flatten(grown);
    }
  }

  /** The walk before its first edit. */
  lemma NoEdits(before: Bytes, s: seq<TextEdit>)
    ensures InOrder(|before|, s[..0]) && LastEnd(s[..0]) == 0
    ensures Flatten([]) == [] == Front(before, s[..0])
  {
  }

  /** The front and the rest make the outcome of a list in order. */
  lemma WholeOutcome(before: Bytes, edits: seq<TextEdit>, s: seq<TextEdit>)
    requires s == StableSort(edits) && InOrder(|before|, s)
    ensures Outcome(before, edits) == Success(Front(before, s) + before[LastEnd(s)..])
  {
    hide StableSort, Front, SpliceRightToLeft;
    var tail := before[LastEnd(s)..];
    assert before[..LastEnd(s)] + tail == before;
    FrontAndRest(before, s, tail);
  }

  /** Apply an edit list to the previous bytes, or say why it cannot be applied. */
  method ApplyTextEdits(before: Bytes, edits: seq<TextEdit>) returns (r: Result<Bytes, EditError>)
    ensures r == Outcome(before, edits)
  {
    hide FirstError, InOrder, LastEnd, Front, Flatten, StableSort, SpliceRightToLeft;
    if |edits| == 0 {
      NothingToApply(before, edits);
      return Success(before);
    }
    var sorted := StableSort(edits);
    var pieces: seq<Bytes>, total, last := [], 0, 0;
    NoEdits(before, sorted);
    for i := 0 to |sorted|
      invariant InOrder(|before|, sorted[..i]) && last == LastEnd(sorted[..i]) && 0 <= last <= |before|
      invariant Flatten(pieces) == Front(before, sorted[..i]) && total == |Flatten(pieces)|
    {
      var edit := sorted[i];
      NextEdit(before, sorted, i);
      if edit.start < 0 || edit.end < 0 || edit.start > edit.end || edit.end > |before| {
        return Failure(OutOfBounds);
      }
      if edit.start < last {
        return Failure(Overlap);
      }
      var added;
      pieces, added := PushEdit(before, pieces, last, edit);
      total := total + added;
      last := edit.end;
    }
    assert sorted[..|sorted|] == sorted;
    WholeOutcome(before, edits, sorted);
    var added;
    pieces, added := PushTail(before, pieces, last);
    var bytes := Assemble(pieces, total + added);
    r := Success(bytes);
  }

  lemma NothingToApply(before: Bytes, edits: seq<TextEdit>)
    requires edits == []
    ensures Outcome(before, edits) == Success(before)
  {
    assert StableSort(edits) == [];
  }

  /** One round of the walk: either this edit is the first bad one, or the front grows by it. */
  lemma NextEdit(before: Bytes, s: seq<TextEdit>, i: nat)
    requires i < |s| && InOrder(|before|, s[..i])
    ensures !InBounds(|before|, s[i]) ==> FirstError(|before|, s) == Some(OutOfBounds)
    ensures InBounds(|before|, s[i]) && s[i].start < LastEnd(s[..i]) ==> FirstError(|before|, s) == Some(Overlap)
    ensures InBounds(|before|, s[i]) && LastEnd(s[..i]) <= s[i].start ==>
              && InOrder(|before|, s[..i + 1]) && LastEnd(s[..i + 1]) == s[i].end
              && Front(before, s[..i + 1])
                 == Front(before, s[..i]) + before[LastEnd(s[..i])..s[i].start] + s[i].newText
  {
    assert s[..i + 1][..i] == s[..i] && s[..i + 1][i] == s[i];
    if FirstError(|before|, s[..i + 1]).Some? { FirstErrorStays(|before|, s, i + 1); }
  }

  lemma {:induction false} FirstErrorStays(n: nat, s: seq<TextEdit>, i: nat)
    requires i <= |s| && FirstError(n, s[..i]).Some?
    ensures FirstError(n, s) == FirstError(n, s[..i])
  {
    if i == |s| {
      assert s[..i] == s;
    } else {
      assert s[..|s| - 1][..i] == s[..i];
      FirstErrorStays(n, s[..|s| - 1], i);
    }
  }
}
