/** Sequence facts shared by the vote engine and the report aggregator:
    distinctness and order-preserving de-duplication. */
module Seqs {

  /** No element occurs twice. */
  ghost predicate Distinct<T>(s: seq<T>) {
    forall i, j :: 0 <= i < j < |s| ==> s[i] != s[j]
  }

  /** The index of the first occurrence of `x` in `s`. */
  function FirstIndex<T(==)>(s: seq<T>, x: T): (i: nat)
    requires x in s
    ensures i < |s| && s[i] == x && x !in s[..i]
  {
    if s[0] == x then 0 else 1 + FirstIndex(s[1..], x)
  }

  /** The elements of `s`, each kept at its first occurrence only.
      This is what repeated `if (!list.includes(x)) list.push(x)` builds,
      and the key sequence of an object after repeated `obj[x] = ...`. */
  function Dedup<T(==)>(s: seq<T>): seq<T>
  {
    if s == [] then []
    else
      var d := Dedup(s[..|s| - 1]);
      if s[|s| - 1] in d then d else d + [s[|s| - 1]]
  }

  /** Dedup keeps exactly the elements of its input. */
  lemma {:induction false} DedupElements<T>(s: seq<T>)
    ensures forall x :: x in Dedup(s) <==> x in s
  {
    if s != [] {
      var p := s[..|s| - 1];
      DedupElements(p);
      assert s == p + [s[|s| - 1]];
    }
  }

  /** Dedup lists every element once. */
  lemma {:induction false} DedupDistinct<T>(s: seq<T>)
    ensures Distinct(Dedup(s))
  {
    if s != [] {
      DedupDistinct(s[..|s| - 1]);
    }
  }

  /** Dedup keeps first-seen order: earlier in the result means
      first seen earlier in the input. */
  lemma {:induction false} DedupFirstSeenOrder<T>(s: seq<T>)
    ensures forall x :: x in Dedup(s) ==> x in s
    ensures forall i, j :: 0 <= i < j < |Dedup(s)| ==>
              FirstIndex(s, Dedup(s)[i]) < FirstIndex(s, Dedup(s)[j])
  {
    DedupElements(s);
    if s != [] {
      var p := s[..|s| - 1];
      var x := s[|s| - 1];
      assert s == p + [x];
      DedupFirstSeenOrder(p);
      FirstSeenStep(p, x);
    }
  }

  /** The inductive step of `DedupFirstSeenOrder`: appending one element. */
  lemma FirstSeenStep<T>(p: seq<T>, x: T)
    requires forall y :: y in Dedup(p) ==> y in p
    requires forall i, j :: 0 <= i < j < |Dedup(p)| ==>
               FirstIndex(p, Dedup(p)[i]) < FirstIndex(p, Dedup(p)[j])
    ensures forall y :: y in Dedup(p + [x]) ==> y in p + [x]
    ensures forall i, j :: 0 <= i < j < |Dedup(p + [x])| ==>
              FirstIndex(p + [x], Dedup(p + [x])[i]) < FirstIndex(p + [x], Dedup(p + [x])[j])
  {
    var d := Dedup(p);
    var q := p + [x];
    DedupAppend(p, x);
    var e := if x in d then d else d + [x];
    assert Dedup(q) == e;
    forall i | 0 <= i < |d| ensures FirstIndex(q, d[i]) == FirstIndex(p, d[i]) < |p| {
      FirstIndexPrefix(p, x, d[i]);
    }
    if x !in d {
      DedupElements(p);
      FirstIndexLast(p, x);
    }
    forall i, j | 0 <= i < j < |e| ensures FirstIndex(q, e[i]) < FirstIndex(q, e[j]) {
      assert e[i] == d[i];
      if j < |d| {
        assert e[j] == d[j];
      } else {
        assert e[j] == x;
      }
    }
  }

  lemma {:induction false} FirstIndexPrefix<T>(p: seq<T>, x: T, y: T)
    requires y in p
    ensures FirstIndex(p + [x], y) == FirstIndex(p, y) < |p|
  {
    if p[0] != y {
      assert (p + [x])[1..] == p[1..] + [x];
      FirstIndexPrefix(p[1..], x, y);
    }
  }

  lemma FirstIndexLast<T>(p: seq<T>, x: T)
    requires x !in p
    ensures FirstIndex(p + [x], x) == |p|
  {
  }

  /** Appending an element extends the de-duplication iff it is new. */
  lemma DedupAppend<T>(s: seq<T>, x: T)
    ensures Dedup(s + [x]) == if x in Dedup(s) then Dedup(s) else Dedup(s) + [x]
  {
    assert (s + [x])[..|s|] == s;
  }

  lemma {:induction false} DedupLength<T>(s: seq<T>)
    ensures |Dedup(s)| <= |s|
  {
    if s != [] { DedupLength(s[..|s| - 1]); }
  }

  lemma TakeStep<T>(s: seq<T>, i: nat)
    requires i < |s|
    ensures s[..i + 1] == s[..i] + [s[i]]
  {
    assert s[..i + 1] == s[..i] + [s[i]];
  }

  lemma AppendTakeStep<T>(pre: seq<T>, s: seq<T>, i: nat)
    requires i < |s|
    ensures (pre + s[..i]) + [s[i]] == pre + s[..i + 1]
  {
    TakeStep(s, i);
  }

  /** Lets `EmbedReport` match four single appends against one four-element display. */
  lemma AppendFour<T>(h: seq<T>, a: T, b: T, c: T, d: T)
    ensures h + [a] + [b] + [c] + [d] == h + [a, b, c, d]
  {
    assert h + [a] + [b] + [c] + [d] == h + [a, b, c, d];
  }

  /** The whole prefix and the empty prefix; used where a loop over `s[..i]` starts or ends. */
  lemma TakeAll<T>(s: seq<T>)
    ensures s[..|s|] == s && s[..0] == []
  {
  }
}
