/** Back-to-front splicing in the godoc tool (tools/sync_godoc/main.go,
    processFile). A char stands for one byte. */
module Splice {
  import opened StableSort

  /** New text for the bytes from `start` up to `end` of the source. */
  datatype Replacement = Replacement(start: nat, end: nat, text: string)

  predicate InRange(r: Replacement, src: string) {
    r.start <= r.end <= |src|
  }

  /** Non-overlapping replacements at different places. */
  predicate Disjoint(r: Replacement, q: Replacement) {
    r.start != q.start && (r.end <= q.start || q.end <= r.start)
  }

  predicate Valid(reps: seq<Replacement>, src: string) {
    && (forall i :: 0 <= i < |reps| ==> InRange(reps[i], src))
    && (forall i, j :: 0 <= i < j < |reps| ==> Disjoint(reps[i], reps[j]))
  }

  predicate Covered(reps: seq<Replacement>, p: nat) {
    exists r :: r in reps && r.start <= p < r.end
  }

  /** The new text to put at position `p`, if some replacement starts there. */
  function TextAt(reps: seq<Replacement>, p: nat): string {
    if reps == [] then ""
    else if reps[0].start == p then reps[0].text
    else TextAt(reps[1..], p)
  }

  /** All replacements made at once, from position `p` of the source on: at each
      position the text of the replacement starting there, then the source byte
      unless some replacement covers it. Nothing depends on their order. */
  function Substitute(src: string, reps: seq<Replacement>, p: nat): string
    requires p <= |src|
    decreases |src| - p
  {
    TextAt(reps, p)
    + (if p == |src| then ""
       else (if Covered(reps, p) then "" else [src[p]]) + Substitute(src, reps, p + 1))
  }

  predicate LaterStart(a: Replacement, b: Replacement) {
    a.start > b.start
  }

  lemma {:induction false} TextAtStart(reps: seq<Replacement>, src: string, i: nat)
    requires Valid(reps, src) && i < |reps|
    ensures TextAt(reps, reps[i].start) == reps[i].text
  {
    if i > 0 {
      assert Disjoint(reps[0], reps[i]);
      assert Valid(reps[1..], src) by { ValidRest(reps, src); }
      TextAtStart(reps[1..], src, i - 1);
    }
  }

  lemma {:induction false} ValidRest(reps: seq<Replacement>, src: string)
    requires Valid(reps, src) && reps != []
    ensures Valid(reps[1..], src)
  {
    assert forall i :: 0 <= i < |reps[1..]| ==> reps[1..][i] == reps[i + 1];
  }

  lemma {:induction false} TextAtNone(reps: seq<Replacement>, p: nat)
    requires forall r :: r in reps ==> r.start != p
    ensures TextAt(reps, p) == ""
  {
    if reps != [] {
      assert reps[0] in reps;
      TextAtNone(reps[1..], p);
    }
  }

  /** Where no replacement starts or reaches, the source is copied. */
  lemma {:induction false} SubstituteCopies(src: string, reps: seq<Replacement>, p: nat, q: nat)
    requires p <= q <= |src|
    requires forall r :: r in reps ==> r.start >= q || r.end <= p
    requires forall r :: r in reps ==> !(p <= r.start < q)
    ensures Substitute(src, reps, p) == src[p..q] + Substitute(src, reps, q)
    decreases q - p
  {
    if p < q {
      TextAtNone(reps, p);
      SubstituteCopies(src, reps, p + 1, q);
      assert src[p..q] == [src[p]] + src[p + 1..q];
    }
  }

  /** Inside a replaced range nothing is emitted. */
  lemma {:induction false} SubstituteSkips(src: string, reps: seq<Replacement>, r: Replacement, p: nat)
    requires r in reps && r.start < p <= r.end <= |src|
    requires forall q :: q in reps && q != r ==> q.start >= r.end || q.end <= r.start
    requires forall q :: q in reps && q != r ==> q.start < r.start || q.start >= r.end
    ensures Substitute(src, reps, p) == Substitute(src, reps, r.end)
    decreases r.end - p
  {
    if p < r.end {
      TextAtNone(reps, p);
      assert Covered(reps, p);
      SubstituteSkips(src, reps, r, p + 1);
    }
  }

  /** Past a position, replacements that end before it do not matter. */
  lemma {:induction false} SubstituteIgnores(src: string, reps: seq<Replacement>, more: Replacement, p: nat)
    requires p <= |src| && more.start < p && more.end <= p
    ensures Substitute(src, reps + [more], p) == Substitute(src, reps, p)
    decreases |src| - p
  {
    TextAtSnoc(reps, more, p);
    if p < |src| {
      SubstituteIgnores(src, reps, more, p + 1);
      assert Covered(reps + [more], p) == Covered(reps, p);
    }
  }

  lemma {:induction false} TextAtSnoc(reps: seq<Replacement>, more: Replacement, p: nat)
    requires more.start != p
    ensures TextAt(reps + [more], p) == TextAt(reps, p)
  {
    if reps == [] {
      assert reps + [more] == [more];
    } else {
      assert (reps + [more])[1..] == reps[1..] + [more];
      TextAtSnoc(reps[1..], more, p);
    }
  }

  /** `ordered` is an arrangement of `reps` by descending start. Starts differ,
      so it does not matter that the library's sort is not stable. */
  ghost predicate Descending(ordered: seq<Replacement>, reps: seq<Replacement>) {
    multiset(ordered) == multiset(reps) && Sorted(ordered, LaterStart)
  }

  /** Adding one more replacement in front of all the others. */
  lemma {:induction false} SubstituteOneMore(src: string, reps: seq<Replacement>, r: Replacement)
    requires InRange(r, src)
    requires forall q :: q in reps ==> r.end <= q.start && r.start < q.start <= q.end <= |src|
    ensures Substitute(src, reps, 0) == src[..r.end] + Substitute(src, reps, r.end)
    ensures Substitute(src, reps + [r], 0) == src[..r.start] + r.text + Substitute(src, reps, r.end)
  {
    SubstituteCopies(src, reps, 0, r.end);
    assert src[0..r.end] == src[..r.end];
    SubstituteCopies(src, reps + [r], 0, r.start);
    assert src[0..r.start] == src[..r.start];
    hide Substitute;
    SubstituteNew(src, reps, r);
  }

  /** At the new replacement: its text, and on from its end as before. */
  lemma {:induction false} SubstituteNew(src: string, reps: seq<Replacement>, r: Replacement)
    requires InRange(r, src)
    requires forall q :: q in reps ==> r.end <= q.start && r.start < q.start <= q.end <= |src|
    ensures Substitute(src, reps + [r], r.start) == r.text + Substitute(src, reps, r.end)
  {
    hide Substitute;
    var more := reps + [r];
    TextAtNew(reps, r);
    TextAtNone(reps, r.start);
    SubstituteAt(src, more, r.start);
    SubstituteAt(src, reps, r.start);
    if r.start < r.end {
      assert r in more && Covered(more, r.start);
      SubstituteSkips(src, more, r, r.start + 1);
      SubstituteIgnores(src, reps, r, r.end);
    } else if r.start < |src| {
      SubstituteIgnores(src, reps, r, r.start + 1);
      assert Covered(more, r.start) == Covered(reps, r.start);
    }
  }

  lemma {:induction false} SubstituteAt(src: string, reps: seq<Replacement>, p: nat)
    requires p <= |src|
    ensures p == |src| ==> Substitute(src, reps, p) == TextAt(reps, p)
    ensures p < |src| ==>
              Substitute(src, reps, p)
              == TextAt(reps, p) + ((if Covered(reps, p) then "" else [src[p]]) + Substitute(src, reps, p + 1))
  {
  }

  lemma {:induction false} TextAtNew(reps: seq<Replacement>, r: Replacement)
    requires forall q :: q in reps ==> q.start != r.start
    ensures TextAt(reps + [r], r.start) == r.text
  {
    if reps == [] {
      assert reps + [r] == [r];
    } else {
      assert reps[0] in reps && (reps + [r])[1..] == reps[1..] + [r];
      TextAtNew(reps[1..], r);
    }
  }

  /** Being valid does not depend on the order. */
  lemma {:induction false} ValidInAnyOrder(xs: seq<Replacement>, ys: seq<Replacement>, src: string)
    requires multiset(xs) == multiset(ys) && Valid(xs, src)
    ensures Valid(ys, src)
  {
    forall i | 0 <= i < |ys| ensures InRange(ys[i], src) {
      assert ys[i] in multiset(xs);
    }
    forall i, j | 0 <= i < j < |ys| ensures Disjoint(ys[i], ys[j]) {
      assert ys[i] in multiset(xs) && ys[j] in multiset(xs);
      CountedOnce(xs, src);
      RepeatsCountTwice(ys, i, j);
      var k :| 0 <= k < |xs| && xs[k] == ys[i];
      var l :| 0 <= l < |xs| && xs[l] == ys[j];
      assert k < l ==> Disjoint(xs[k], xs[l]);
      assert l < k ==> Disjoint(xs[l], xs[k]);
    }
  }

  lemma {:induction false} CountedOnce(xs: seq<Replacement>, src: string)
    requires Valid(xs, src)
    ensures forall r :: r in xs ==> multiset(xs)[r] == 1
  {
    if xs != [] {
      assert xs == [xs[0]] + xs[1..];
      ValidRest(xs, src);
      CountedOnce(xs[1..], src);
      forall r | r in xs[1..] ensures r != xs[0] {
        var i :| 0 <= i < |xs[1..]| && xs[1..][i] == r;
        assert Disjoint(xs[0], xs[i + 1]);
      }
    }
  }

  /** Substitution depends on which replacements there are, not on their order. */
  lemma {:induction false} SubstituteInAnyOrder(src: string, xs: seq<Replacement>, ys: seq<Replacement>, p: nat)
    requires multiset(xs) == multiset(ys) && Valid(xs, src) && Valid(ys, src) && p <= |src|
    ensures Substitute(src, xs, p) == Substitute(src, ys, p)
    decreases |src| - p
  {
    SameMembers(xs, ys);
    if r :| r in xs && r.start == p {
      var i :| 0 <= i < |xs| && xs[i] == r;
      var j :| 0 <= j < |ys| && ys[j] == r;
      TextAtStart(xs, src, i);
      TextAtStart(ys, src, j);
    } else {
      TextAtNone(xs, p);
      TextAtNone(ys, p);
    }
    if p < |src| {
      SubstituteInAnyOrder(src, xs, ys, p + 1);
    }
  }

  lemma {:induction false} SameMembers(xs: seq<Replacement>, ys: seq<Replacement>)
    requires multiset(xs) == multiset(ys)
    ensures forall r :: r in xs <==> r in ys
  {
    forall r ensures r in xs <==> r in ys {
      assert r in multiset(xs) <==> r in multiset(ys);
    }
  }

  lemma {:induction false} SpliceStep(src: string, ordered: seq<Replacement>, i: nat)
    requires Valid(ordered, src) && Sorted(ordered, LaterStart) && i < |ordered|
    ensures var r, text := ordered[i], Substitute(src, ordered[..i], 0);
      && r.start <= r.end <= |text|
      && Substitute(src, ordered[..i + 1], 0) == text[..r.start] + r.text + text[r.end..]
  {
    var r, text := ordered[i], Substitute(src, ordered[..i], 0);
    SubstituteOneMore(src, ordered[..i], r);
    assert ordered[..i + 1] == ordered[..i] + [r];
    assert text[..r.start] == src[..r.start] && text[r.end..] == Substitute(src, ordered[..i], r.end);
  }

  lemma {:induction false} SubstituteNothing(src: string)
    ensures Substitute(src, [], 0) == src
  {
    SubstituteCopies(src, [], 0, |src|);
    assert src[0..|src|] == src && Substitute(src, [], |src|) == "";
  }

  /** Back-to-front splicing: making pairwise disjoint replacements one after the
      other, in descending order, is making all of them at once. */
  method ApplyReplacements(src: string, ordered: seq<Replacement>, ghost reps: seq<Replacement>)
    returns (result: string)
    requires Valid(reps, src) && Descending(ordered, reps)
    ensures result == Substitute(src, reps, 0)
  {
    ValidInAnyOrder(reps, ordered, src);
    SubstituteInAnyOrder(src, ordered, reps, 0);
    SubstituteNothing(src);
    result := src;
    for i := 0 to |ordered|
      invariant result == Substitute(src, ordered[..i], 0)
    {
      SpliceStep(src, ordered, i);
      var r := ordered[i];
      result := result[..r.start] + r.text + result[r.end..];
    }
    assert ordered[..|ordered|] == ordered;
  }

  /** The text processFile formats: the replacements sorted, then spliced in. */
  method RewriteComments(src: string, reps: seq<Replacement>) returns (result: string)
    requires Valid(reps, src)
    ensures result == Substitute(src, reps, 0)
  {
    SortIsStable(reps, LaterStart);
    result := ApplyReplacements(src, Sort(reps, LaterStart), reps);
  }
}
