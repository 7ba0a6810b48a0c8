/**
 * "Append only if absent", the one deduplication rule the components share:
 * the candidate table names (seen-set loop), the merged manifest lists and the
 * append step of a manifest document all keep the first occurrence of each
 * value, in the order values arrive.
 */
module Dedup {

  predicate NoDuplicates(s: seq<string>) {
    forall i, j :: 0 <= i < j < |s| ==> s[i] != s[j]
  }

  /** `if x not in acc: acc.append(x)`. */
  function AppendNew(acc: seq<string>, x: string): (r: seq<string>)
    ensures NoDuplicates(acc) ==> NoDuplicates(r)
    ensures forall y :: y in r <==> y in acc || y == x
    ensures |acc| <= |r| && r[..|acc|] == acc
  {
    if x in acc then acc else acc + [x]
  }

  /** Appends, in order, every value of `xs` that is not yet present. */
  function AppendAll(acc: seq<string>, xs: seq<string>): seq<string>
    decreases |xs|
  {
    if xs == [] then acc else AppendNew(AppendAll(acc, xs[..|xs| - 1]), xs[|xs| - 1])
  }

  /** The values of `xs`, first occurrences only, in the order they first occur. */
  function Dedup(xs: seq<string>): seq<string> {
    AppendAll([], xs)
  }

  lemma {:induction false} AppendAllNoDuplicates(acc: seq<string>, xs: seq<string>)
    requires NoDuplicates(acc)
    ensures NoDuplicates(AppendAll(acc, xs))
    decreases |xs|
  {
    if xs != [] {
      AppendAllNoDuplicates(acc, xs[..|xs| - 1]);
    }
  }

  lemma {:induction false} AppendAllMembers(acc: seq<string>, xs: seq<string>)
    ensures forall y :: y in AppendAll(acc, xs) <==> y in acc || y in xs
    decreases |xs|
  {
    if xs != [] {
      var init := xs[..|xs| - 1];
      AppendAllMembers(acc, init);
      assert xs == init + [xs[|xs| - 1]];
    }
  }

  lemma {:induction false} AppendAllKeepsPrefix(acc: seq<string>, xs: seq<string>)
    ensures |acc| <= |AppendAll(acc, xs)| && AppendAll(acc, xs)[..|acc|] == acc
    decreases |xs|
  {
    if xs != [] {
      var before := AppendAll(acc, xs[..|xs| - 1]);
      AppendAllKeepsPrefix(acc, xs[..|xs| - 1]);
      assert AppendAll(acc, xs)[..|before|] == before;
      assert before[..|acc|] == acc;
    }
  }

  /** Appending the next value extends the prefix's result by that value. */
  lemma AppendAllStep(acc: seq<string>, xs: seq<string>, i: nat)
    requires i < |xs|
    ensures AppendAll(acc, xs[..i + 1]) == AppendNew(AppendAll(acc, xs[..i]), xs[i])
  {
    assert xs[..i + 1][..i] == xs[..i];
  }

  /** Appending two lists one after the other is appending their concatenation. */
  lemma {:induction false} AppendAllConcat(acc: seq<string>, xs: seq<string>, ys: seq<string>)
    ensures AppendAll(AppendAll(acc, xs), ys) == AppendAll(acc, xs + ys)
    decreases |ys|
  {
    if ys == [] {
      assert xs + ys == xs;
    } else {
      var init := ys[..|ys| - 1];
      AppendAllConcat(acc, xs, init);
      assert (xs + ys)[..|xs + ys| - 1] == xs + init;
      assert (xs + ys)[|xs + ys| - 1] == ys[|ys| - 1];
    }
  }

  /** Position of the first occurrence of `y` in `xs`. */
  function FirstIndex(xs: seq<string>, y: string): (i: nat)
    requires y in xs
    ensures i < |xs| && xs[i] == y && y !in xs[..i]
  {
    if xs[0] == y then 0 else 1 + FirstIndex(xs[1..], y)
  }

  lemma {:induction false} FirstIndexExtend(xs: seq<string>, z: string, y: string)
    requires y in xs
    ensures FirstIndex(xs + [z], y) == FirstIndex(xs, y)
  {
    if xs[0] != y {
      assert (xs + [z])[1..] == xs[1..] + [z];
      FirstIndexExtend(xs[1..], z, y);
    }
  }

  /** Dedup lists values in the order of their first occurrence in the input. */
  lemma {:induction false} DedupFirstSeenOrder(xs: seq<string>, i: nat, j: nat)
    requires i < j < |Dedup(xs)|
    ensures Dedup(xs)[i] in xs && Dedup(xs)[j] in xs
    ensures FirstIndex(xs, Dedup(xs)[i]) < FirstIndex(xs, Dedup(xs)[j])
    decreases |xs|
  {
    var d := Dedup(xs);
    AppendAllMembers([], xs);
    assert d[i] in d && d[j] in d;
    var init := xs[..|xs| - 1];
    var last := xs[|xs| - 1];
    var before := Dedup(init);
    AppendAllMembers([], init);
    assert xs == init + [last];
    if last in before {
      DedupFirstSeenOrder(init, i, j);
      FirstIndexExtend(init, last, d[i]);
      FirstIndexExtend(init, last, d[j]);
    } else {
      assert d == before + [last];
      FirstIndexExtend(init, last, d[i]);
      if j < |before| {
        DedupFirstSeenOrder(init, i, j);
        FirstIndexExtend(init, last, d[j]);
      } else {
        assert d[j] == last && last !in init;
        assert xs[..|init|] == init && xs[|init|] == last;
        assert FirstIndex(xs, last) == |init|;
      }
    }
  }

  /** Dedup keeps every value exactly once and nothing else. */
  lemma DedupContents(xs: seq<string>)
    ensures NoDuplicates(Dedup(xs))
    ensures forall y :: y in Dedup(xs) <==> y in xs
  {
    AppendAllNoDuplicates([], xs);
    AppendAllMembers([], xs);
  }
}
