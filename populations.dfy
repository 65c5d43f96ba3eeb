/** The two population arrays as sequences: the halo copy-in that places
    received populations into the new buffer, and the uniform equilibrium
    fill used for initial conditions. */
module Populations {

  /** Populations per site in the D3Q15 lattice (D3Q15::NUMVECTORS). */
  const NUMVECTORS: nat := 15

  /** The copy-in is in bounds: each of the first `n` translator entries
      names a slot of the new buffer, and the `n` received slots starting at
      `first` lie in the old buffer. */
  ghost predicate CopyInBounds(newLength: nat, oldLength: nat, translator: seq<nat>, first: nat, n: nat)
  {
    && n <= |translator|
    && (n == 0 || first + n <= oldLength)
    && forall i :: 0 <= i < n ==> translator[i] < newLength
  }

  /** The new buffer after copying received slots first .. first + n - 1 of
      the old buffer to new-buffer slots translator[0 .. n - 1], in that
      order (a later write to the same slot wins). */
  function CopyReceived<D>(fNew: seq<D>, fOld: seq<D>, translator: seq<nat>, first: nat, n: nat): (r: seq<D>)
    requires CopyInBounds(|fNew|, |fOld|, translator, first, n)
    ensures |r| == |fNew|
    decreases n
  {
    if n == 0 then fNew
    else CopyReceived(fNew, fOld, translator, first, n - 1)[translator[n - 1] := fOld[first + n - 1]]
  }

  /** A new-buffer slot that no translator entry names keeps its value. */
  lemma {:induction false} CopyReceivedUntouched<D>(fNew: seq<D>, fOld: seq<D>, translator: seq<nat>, first: nat, n: nat, j: nat)
    requires CopyInBounds(|fNew|, |fOld|, translator, first, n)
    requires j < |fNew| && forall i :: 0 <= i < n ==> translator[i] != j
    ensures CopyReceived(fNew, fOld, translator, first, n)[j] == fNew[j]
  {
    if n > 0 {
      CopyReceivedUntouched(fNew, fOld, translator, first, n - 1, j);
    }
  }

  /** Slot translator[i] receives old slot first + i, unless a later entry
      names the same slot. */
  lemma {:induction false} CopyReceivedLastWriteWins<D>(fNew: seq<D>, fOld: seq<D>, translator: seq<nat>, first: nat, n: nat, i: nat)
    requires CopyInBounds(|fNew|, |fOld|, translator, first, n)
    requires i < n && forall i' :: i < i' < n ==> translator[i'] != translator[i]
    ensures CopyReceived(fNew, fOld, translator, first, n)[translator[i]] == fOld[first + i]
  {
    if i < n - 1 {
      CopyReceivedLastWriteWins(fNew, fOld, translator, first, n - 1, i);
    }
  }

  /** With a translator that names each slot at most once (as one built
      from distinct halo positions does), every received slot lands where the
      translator says, and every other slot keeps its value. */
  lemma CopyReceivedInjective<D>(fNew: seq<D>, fOld: seq<D>, translator: seq<nat>, first: nat, n: nat)
    requires CopyInBounds(|fNew|, |fOld|, translator, first, n)
    requires forall i, i' :: 0 <= i < i' < n ==> translator[i] != translator[i']
    ensures var r := CopyReceived(fNew, fOld, translator, first, n);
      && (forall i :: 0 <= i < n ==> r[translator[i]] == fOld[first + i])
      && (forall j :: 0 <= j < |fNew| && (forall i :: 0 <= i < n ==> translator[i] != j) ==> r[j] == fNew[j])
  {
    forall i | 0 <= i < n ensures CopyReceived(fNew, fOld, translator, first, n)[translator[i]] == fOld[first + i] {
      CopyReceivedLastWriteWins(fNew, fOld, translator, first, n, i);
    }
    forall j | 0 <= j < |fNew| && (forall i :: 0 <= i < n ==> translator[i] != j)
      ensures CopyReceived(fNew, fOld, translator, first, n)[j] == fNew[j]
    {
      CopyReceivedUntouched(fNew, fOld, translator, first, n, j);
    }
  }

  /** A buffer after writing the equilibrium vector `feq` into each of the
      first `sites` sites (15 consecutive slots per site); the slots beyond
      keep their values. */
  function UniformFill<D>(s: seq<D>, feq: seq<D>, sites: nat): (r: seq<D>)
    requires |feq| == NUMVECTORS && sites * NUMVECTORS <= |s|
    ensures |r| == |s|
  {
    seq(|s|, j requires 0 <= j < |s| => if j < sites * NUMVECTORS then feq[j % NUMVECTORS] else s[j])
  }

  /** Direction l of every filled site holds feq[l], the same vector for
      every site, and slots at or beyond sites * 15 are untouched. */
  lemma UniformFillSite<D>(s: seq<D>, feq: seq<D>, sites: nat, i: nat, l: nat)
    requires |feq| == NUMVECTORS && sites * NUMVECTORS <= |s|
    requires i < sites && l < NUMVECTORS
    ensures i * NUMVECTORS + l < |s|
    ensures UniformFill(s, feq, sites)[i * NUMVECTORS + l] == feq[l]
  {
    var j := i * NUMVECTORS + l;
    assert j / NUMVECTORS == i && j % NUMVECTORS == l;
  }

  /** Slots at or beyond sites * 15 keep their values. */
  lemma UniformFillBeyond<D>(s: seq<D>, feq: seq<D>, sites: nat, j: nat)
    requires |feq| == NUMVECTORS && sites * NUMVECTORS <= j < |s|
    ensures UniformFill(s, feq, sites)[j] == s[j]
  {
  }
}
